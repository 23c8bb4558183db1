/** Nodes that exchange votes through FIFO inboxes, and what holds over every run of them. */
module Network {
  import opened Common
  import opened Voting
  import opened VotingSafety

  /** A node: its voting state, the inbox of its consensus service, the height its block service has
      reached, and the heights of locally built blocks that may still be executing. */
  datatype Node = Node(core: State, inbox: seq<Event>, tip: nat, building: set<nat>)

  type Net = map<PlayerId, Node>

  datatype Action =
    | Deliver(oracle: Oracle)              // the consensus service handles its oldest message
    | Consolidate(block: Block)            // the block service adopts a block and says so
    | Build                                // the block service builds on its tip
    | Finish(built: Executed, round: nat)  // execution of a locally built block ends
    | Receive(event: Event)                // any other message arrives

  /** Every confirmation some node has cast so far. */
  ghost function Emitted(net: Net): iset<Confirmation> {
    iset n, c | n in net && c in Ballots(net[n].core.sent) :: c
  }

  ghost predicate Allowed(net: Net, n: PlayerId, a: Action, roster: Roster)
    requires n in net
  {
    match a
    case Deliver(o) => net[n].inbox != [] && Enabled(net[n].core, net[n].inbox[0], o)
    case Consolidate(b) => b.height > net[n].tip
    case Build => true
    case Finish(x, _) => x.block.height in net[n].building
    case Receive(e) => !e.BlockConsolidated? && !e.ProposalAfterBuild? && Carries(e, Emitted(net), roster)
  }

  ghost function After(node: Node, a: Action, roster: Roster): Node
    requires a.Deliver? ==> node.inbox != [] && Enabled(node.core, node.inbox[0], a.oracle)
  {
    match a
    case Deliver(o) => node.(core := Handle(node.core, node.inbox[0], o), inbox := node.inbox[1..])
    case Consolidate(b) => node.(tip := b.height, inbox := node.inbox + [BlockConsolidated(b, roster(b.height))])
    case Build => node.(building := node.building + {node.tip + 1})
    case Finish(x, r) => node.(inbox := node.inbox + [ProposalAfterBuild(x, r)])
    case Receive(e) => node.(inbox := node.inbox + [e])
  }

  ghost predicate Step(net: Net, next: Net, roster: Roster) {
    exists n, a :: n in net && Allowed(net, n, a, roster) && next == net[n := After(net[n], a, roster)]
  }

  /** Each node starts from some block, with the players in charge after it and nothing pending. */
  ghost predicate Init(net: Net, roster: Roster) {
    forall n :: n in net ==>
      && net[n].core == Initial(n, roster(net[n].tip), net[n].tip, net[n].core.lastHash)
      && net[n].inbox == [] && net[n].building == {}
  }

  ghost predicate Run(nets: seq<Net>, roster: Roster) {
    && nets != []
    && Init(nets[0], roster)
    && forall i :: 0 < i < |nets| ==> Step(nets[i - 1], nets[i], roster)
  }

  // ---------- message order inside a node ----------

  function NextHeight(height: nat, e: Event): nat {
    if e.BlockConsolidated? then e.block.height else height
  }

  ghost function HeightAfter(height: nat, inbox: seq<Event>): nat
    decreases |inbox|
  {
    if inbox == [] then height else HeightAfter(NextHeight(height, inbox[0]), inbox[1..])
  }

  ghost predicate AllTimely(height: nat, inbox: seq<Event>)
    decreases |inbox|
  {
    inbox != [] ==> Timely(height, inbox[0]) && AllTimely(NextHeight(height, inbox[0]), inbox[1..])
  }

  lemma {:induction false} Enqueue(height: nat, inbox: seq<Event>, e: Event)
    requires AllTimely(height, inbox) && Timely(HeightAfter(height, inbox), e)
    ensures AllTimely(height, inbox + [e])
    ensures HeightAfter(height, inbox + [e]) == NextHeight(HeightAfter(height, inbox), e)
    decreases |inbox|
  {
    if inbox != [] {
      Enqueue(NextHeight(height, inbox[0]), inbox[1..], e);
      assert (inbox + [e])[1..] == inbox[1..] + [e];
    }
  }

  // ---------- the invariant of the network ----------

  ghost predicate NodeOk(n: PlayerId, node: Node, known: iset<Confirmation>, roster: Roster) {
    && node.core.me == n
    && Inv(node.core, known, roster)
    && (forall e :: e in node.inbox ==> Carries(e, known, roster))
    && AllTimely(node.core.height, node.inbox)
    && HeightAfter(node.core.height, node.inbox) == node.tip
    && (forall h :: h in node.building ==> h <= node.tip + 1)
  }

  ghost predicate NetOk(net: Net, roster: Roster) {
    forall n :: n in net ==> NodeOk(n, net[n], Emitted(net), roster)
  }

  lemma CarriesMore(e: Event, known: iset<Confirmation>, more: iset<Confirmation>, roster: Roster)
    requires Carries(e, known, roster) && known <= more
    ensures Carries(e, more, roster)
  {
  }

  lemma NodeOkMore(n: PlayerId, node: Node, known: iset<Confirmation>, more: iset<Confirmation>, roster: Roster)
    requires NodeOk(n, node, known, roster) && known <= more
    ensures NodeOk(n, node, more, roster)
  {
    forall e | e in node.inbox ensures Carries(e, more, roster) { CarriesMore(e, known, more, roster); }
  }

  /** Handling never unsends, and only a consolidation moves the height. */
  lemma HandleFrame(s: State, e: Event, o: Oracle)
    requires Enabled(s, e, o)
    ensures s.sent <= Handle(s, e, o).sent
    ensures Handle(s, e, o).me == s.me
    ensures Handle(s, e, o).height == NextHeight(s.height, e)
  {
  }

  lemma EmittedGrows(net: Net, n: PlayerId, node: Node)
    requires n in net && net[n].core.sent <= node.core.sent
    ensures Emitted(net) <= Emitted(net[n := node])
    ensures forall c :: c in Ballots(node.core.sent) ==> c in Emitted(net[n := node])
  {
    var next := net[n := node];
    forall c | c in Emitted(net) ensures c in Emitted(next) {
      var k :| k in net && c in Ballots(net[k].core.sent);
      var m :| m in net[k].core.sent && m.IsVote() && m.confirmation == c;
      assert m in next[k].core.sent;
      assert c in Ballots(next[k].core.sent);
    }
    assert n in next;
  }

  lemma ActionKeeps(net: Net, n: PlayerId, a: Action, roster: Roster)
    requires NetOk(net, roster) && n in net && Allowed(net, n, a, roster)
    ensures NetOk(net[n := After(net[n], a, roster)], roster)
    ensures net[n].core.sent <= After(net[n], a, roster).core.sent
  {
    var node, after := net[n], After(net[n], a, roster);
    if a.Deliver? { HandleFrame(node.core, node.inbox[0], a.oracle); }
    EmittedGrows(net, n, after);
    var more := Emitted(net[n := after]);
    forall k | k in net ensures NodeOk(k, net[k], more, roster) { NodeOkMore(k, net[k], Emitted(net), more, roster); }
    NodeKeeps(n, node, a, more, roster);
  }

  lemma NodeKeeps(n: PlayerId, node: Node, a: Action, known: iset<Confirmation>, roster: Roster)
    requires NodeOk(n, node, known, roster)
    requires Allowed(map[n := node], n, a, roster) || (a.Receive? && Carries(a.event, known, roster))
    requires a.Receive? ==>
               !a.event.BlockConsolidated? && !a.event.ProposalAfterBuild? && Carries(a.event, known, roster)
    requires a.Deliver? ==> forall c :: c in Ballots(After(node, a, roster).core.sent) ==> c in known
    ensures NodeOk(n, After(node, a, roster), known, roster)
  {
    var h := node.core.height;
    match a
    case Deliver(o) =>
      var e := node.inbox[0];
      assert e in node.inbox;
      HandleFrame(node.core, e, o);
      StepKeeps(node.core, e, o, known, roster, Lone(roster));
    case Consolidate(b) => Enqueue(h, node.inbox, BlockConsolidated(b, roster(b.height)));
    case Build =>
    case Finish(x, r) => Enqueue(h, node.inbox, ProposalAfterBuild(x, r));
    case Receive(e) => Enqueue(h, node.inbox, e);
  }

  /** The last step of a run of more than one state, and the run before it. */
  lemma LastStep(nets: seq<Net>, roster: Roster) returns (n: PlayerId, a: Action)
    requires Run(nets, roster) && |nets| > 1
    ensures Run(nets[..|nets| - 1], roster)
    ensures var prev := nets[|nets| - 2];
            n in prev && Allowed(prev, n, a, roster) && nets[|nets| - 1] == prev[n := After(prev[n], a, roster)]
  {
    var last := |nets| - 1;
    assert Step(nets[last - 1], nets[last], roster);
    n, a :| n in nets[last - 1] && Allowed(nets[last - 1], n, a, roster)
            && nets[last] == nets[last - 1][n := After(nets[last - 1][n], a, roster)];
  }

  lemma {:induction false} RunKeeps(nets: seq<Net>, roster: Roster)
    requires Run(nets, roster)
    ensures NetOk(nets[|nets| - 1], roster)
    decreases |nets|
  {
    if |nets| > 1 {
      var n, a := LastStep(nets, roster);
      RunKeeps(nets[..|nets| - 1], roster);
      ActionKeeps(nets[|nets| - 2], n, a, roster);
    }
  }

  // ---------- theorems about every run ----------

  /** A node never votes twice for one height and round, whatever blocks it is offered, and its exit poll
      holds every vote it ever cast and nothing else. */
  lemma VoteUniqueness(nets: seq<Net>, roster: Roster, n: PlayerId)
    requires Run(nets, roster) && n in nets[|nets| - 1]
    ensures var s := nets[|nets| - 1][n].core;
            && (forall i, j :: 0 <= i < j < |s.sent| && s.sent[i].IsVote() && s.sent[j].IsVote() ==>
                                 Slot(s.sent[i].confirmation) != Slot(s.sent[j].confirmation))
            && (forall h, r :: (h, r) in s.polls <==>
                                 exists m :: m in s.sent && m.IsVote() && Slot(m.confirmation) == (h, r))
  {
    RunKeeps(nets, roster);
    assert NodeOk(n, nets[|nets| - 1][n], Emitted(nets[|nets| - 1]), roster);
  }

  lemma OneVote(s: State, c: Confirmation, d: Confirmation)
    requires VotesOk(s.me, s.height, s.polls, s.sent)
    requires c in Ballots(s.sent) && d in Ballots(s.sent) && Slot(c) == Slot(d)
    ensures c == d
  {
    var m :| m in s.sent && m.IsVote() && m.confirmation == c;
    var k :| k in s.sent && k.IsVote() && k.confirmation == d;
    var i :| 0 <= i < |s.sent| && s.sent[i] == m;
    var j :| 0 <= j < |s.sent| && s.sent[j] == k;
    assert i == j;
  }

  /** Two cast confirmations of one player in one slot are the same confirmation. */
  lemma SameVote(net: Net, roster: Roster, c: Confirmation, d: Confirmation)
    requires NetOk(net, roster) && c in Emitted(net) && d in Emitted(net)
    requires c.player == d.player && Slot(c) == Slot(d)
    ensures c == d
  {
    var n :| n in net && c in Ballots(net[n].core.sent);
    var k :| k in net && d in Ballots(net[k].core.sent);
    assert NodeOk(n, net[n], Emitted(net), roster) && NodeOk(k, net[k], Emitted(net), roster);
    assert c.player == n && d.player == k;
    OneVote(net[n].core, c, d);
  }

  ghost function Voters(m: Message): seq<PlayerId>
    requires m.StartConsolidation?
  {
    seq(|m.confirmations|, i requires 0 <= i < |m.confirmations| => m.confirmations[i].player)
  }

  /** A started consolidation rests on votes of more than half of the players in charge. */
  lemma StartHasMajority(net: Net, roster: Roster, n: PlayerId, m: Message)
    requires NetOk(net, roster) && n in net && m in net[n].core.sent && m.StartConsolidation?
    ensures QuorumStart(m, roster)
    ensures forall c :: c in m.confirmations ==> c in Emitted(net)
    ensures Elements(Voters(m)) <= Elements(roster(m.block.height - 1))
    ensures 2 * |Elements(Voters(m))| > |roster(m.block.height - 1)|
  {
    assert NodeOk(n, net[n], Emitted(net), roster);
    var cs, vs := m.confirmations, Voters(m);
    forall i, j | 0 <= i < j < |vs| ensures vs[i] != vs[j] {
      assert cs[i] in cs && cs[j] in cs;
      if vs[i] == vs[j] { SameVote(net, roster, cs[i], cs[j]); }
    }
    ElementsCount(vs);
    forall p | p in Elements(vs) ensures p in Elements(roster(m.block.height - 1)) {
      var i :| 0 <= i < |vs| && vs[i] == p;
      assert cs[i] in cs;
    }
  }

  /** What a node has sent, it has sent for the rest of the run. */
  lemma {:induction false} SentStays(nets: seq<Net>, roster: Roster, i: nat, n: PlayerId)
    requires Run(nets, roster) && i < |nets| && n in nets[i]
    ensures var last := nets[|nets| - 1]; n in last && nets[i][n].core.sent <= last[n].core.sent
    decreases |nets|
  {
    if i < |nets| - 1 {
      var k, a := LastStep(nets, roster);
      var prev := nets[..|nets| - 1];
      assert prev[i] == nets[i] && prev[|prev| - 1] == nets[|nets| - 2];
      SentStays(prev, roster, i, n);
      RunKeeps(prev, roster);
      ActionKeeps(nets[|nets| - 2], k, a, roster);
    }
  }

  /** Per-round agreement: whichever nodes ever start consolidating at one height with votes of one round
      consolidate the same block. */
  lemma Agreement(nets: seq<Net>, roster: Roster, i: nat, j: nat, a: PlayerId, b: PlayerId, p: Message, q: Message)
    requires Run(nets, roster) && i < |nets| && j < |nets|
    requires a in nets[i] && p in nets[i][a].core.sent && p.StartConsolidation?
    requires b in nets[j] && q in nets[j][b].core.sent && q.StartConsolidation?
    requires p.block.height == q.block.height
    ensures p.confirmations != [] && q.confirmations != []
    ensures p.confirmations[0].round == q.confirmations[0].round ==> p.block.hash == q.block.hash
  {
    SentStays(nets, roster, i, a);
    SentStays(nets, roster, j, b);
    RunKeeps(nets, roster);
    LastAgreement(nets[|nets| - 1], roster, a, b, p, q);
  }

  lemma LastAgreement(net: Net, roster: Roster, a: PlayerId, b: PlayerId, p: Message, q: Message)
    requires NetOk(net, roster)
    requires a in net && p in net[a].core.sent && p.StartConsolidation?
    requires b in net && q in net[b].core.sent && q.StartConsolidation?
    requires p.block.height == q.block.height
    ensures p.confirmations != [] && q.confirmations != []
    ensures p.confirmations[0].round == q.confirmations[0].round ==> p.block.hash == q.block.hash
  {
    StartHasMajority(net, roster, a, p);
    StartHasMajority(net, roster, b, q);
    var inCharge := roster(p.block.height - 1);
    ElementsCount(inCharge);
    var v := Overlap(Elements(Voters(p)), Elements(Voters(q)), Elements(inCharge));
    var i :| 0 <= i < |Voters(p)| && Voters(p)[i] == v;
    var j :| 0 <= j < |Voters(q)| && Voters(q)[j] == v;
    var c, d := p.confirmations[i], q.confirmations[j];
    assert c in p.confirmations && d in q.confirmations;
    if p.confirmations[0].round == q.confirmations[0].round {
      SameVote(net, roster, c, d);
    }
  }

  /** Message order: a locally built block that is proposed now is never more than one height ahead, and a
      consolidation always moves forward. */
  lemma ProposalsAreTimely(nets: seq<Net>, roster: Roster, n: PlayerId)
    requires Run(nets, roster) && n in nets[|nets| - 1] && nets[|nets| - 1][n].inbox != []
    ensures var node := nets[|nets| - 1][n];
            && (node.inbox[0].ProposalAfterBuild? ==> node.inbox[0].built.block.height <= node.core.height + 1)
            && (node.inbox[0].BlockConsolidated? ==> node.inbox[0].block.height > node.core.height)
  {
    RunKeeps(nets, roster);
    assert NodeOk(n, nets[|nets| - 1][n], Emitted(nets[|nets| - 1]), roster);
  }

  ghost predicate AllOrdered(net: Net, roster: Roster) {
    forall n :: n in net ==> OrderOk(net[n].core, Lone(roster))
  }

  lemma {:induction false} RunOrdered(nets: seq<Net>, roster: Roster)
    requires Run(nets, roster)
    ensures AllOrdered(nets[|nets| - 1], roster)
    decreases |nets|
  {
    if |nets| > 1 {
      var n, a := LastStep(nets, roster);
      var prev := nets[|nets| - 2];
      RunKeeps(nets[..|nets| - 1], roster);
      RunOrdered(nets[..|nets| - 1], roster);
      if a.Deliver? {
        var node := prev[n];
        var after := prev[n := After(node, a, roster)];
        HandleFrame(node.core, node.inbox[0], a.oracle);
        EmittedGrows(prev, n, After(node, a, roster));
        NodeOkMore(n, node, Emitted(prev), Emitted(after), roster);
        assert node.inbox[0] in node.inbox;
        StepKeeps(node.core, node.inbox[0], a.oracle, Emitted(after), roster, Lone(roster));
      }
    }
  }

  /** Each node starts consolidations in increasing order of height, and starts a height twice only if a lone
      player is in charge of it. */
  lemma OneConsolidationPerHeight(nets: seq<Net>, roster: Roster, n: PlayerId, i: nat, j: nat)
    requires Run(nets, roster)
    requires var net := nets[|nets| - 1];
             && n in net && i < j < |net[n].core.sent|
             && net[n].core.sent[i].StartConsolidation? && net[n].core.sent[j].StartConsolidation?
    ensures var sent := nets[|nets| - 1][n].core.sent;
            var g, h := sent[i].block.height, sent[j].block.height;
            g < h || (g == h && h > 0 && |roster(h - 1)| == 1)
  {
    RunOrdered(nets, roster);
    assert OrderOk(nets[|nets| - 1][n].core, Lone(roster));
  }
}
