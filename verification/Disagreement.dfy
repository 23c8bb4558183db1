/** Where the guarantees of the network end: for any two rounds, and whoever the players are, there is a run in
    which different blocks are consolidated at one height, and a lone player can start a height twice. */
module Disagreement {
  import opened Common
  import opened Voting
  import opened VotingSafety
  import opened Network

  lemma Extend(nets: seq<Net>, roster: Roster, n: PlayerId, a: Action) returns (more: seq<Net>)
    requires Run(nets, roster)
    requires var net := nets[|nets| - 1]; n in net && Allowed(net, n, a, roster)
    ensures Run(more, roster) && |more| > 0
    ensures var net := nets[|nets| - 1]; more[|more| - 1] == net[n := After(net[n], a, roster)]
  {
    var net := nets[|nets| - 1];
    var next := net[n := After(net[n], a, roster)];
    more := nets + [next];
    assert Step(net, next, roster);
    forall i | 0 < i < |more| ensures Step(more[i - 1], more[i], roster) {
      if i < |nets| { assert Step(nets[i - 1], nets[i], roster); }
    }
  }

  /** An idle node can build and propose a block on its tip. */
  lemma Propose(nets: seq<Net>, roster: Roster, n: PlayerId, x: Executed, r: nat, o: Oracle) returns (more: seq<Net>)
    requires Run(nets, roster)
    requires var net := nets[|nets| - 1]; n in net && net[n].inbox == [] && x.block.height == net[n].tip + 1
    ensures Run(more, roster) && |more| > 0
    ensures var net := nets[|nets| - 1];
            more[|more| - 1] == net[n := net[n].(core := AfterBuild(net[n].core, x, r, o),
                                                 building := net[n].building + {net[n].tip + 1})]
  {
    var net := nets[|nets| - 1];
    more := Extend(nets, roster, n, Build);
    more := Extend(more, roster, n, Finish(x, r));
    assert more[|more| - 1][n].inbox == [ProposalAfterBuild(x, r)];
    assert more[|more| - 1][n].inbox[1..] == [];
    more := Extend(more, roster, n, Deliver(o));
    assert more[|more| - 1].Keys == net.Keys;
  }

  /** An idle node can receive and handle a message. */
  lemma HandleOne(nets: seq<Net>, roster: Roster, n: PlayerId, e: Event, o: Oracle) returns (more: seq<Net>)
    requires Run(nets, roster) && !e.BlockConsolidated? && !e.ProposalAfterBuild?
    requires var net := nets[|nets| - 1];
             n in net && net[n].inbox == [] && Carries(e, Emitted(net), roster) && Enabled(net[n].core, e, o)
    ensures Run(more, roster) && |more| > 0
    ensures var net := nets[|nets| - 1];
            more[|more| - 1] == net[n := net[n].(core := Handle(net[n].core, e, o))]
  {
    var net := nets[|nets| - 1];
    more := Extend(nets, roster, n, Receive(e));
    assert more[|more| - 1][n].inbox == [e];
    assert more[|more| - 1][n].inbox[1..] == [];
    more := Extend(more, roster, n, Deliver(o));
    assert more[|more| - 1].Keys == net.Keys;
  }

  /** The start of a consolidation of a block, with votes of a round. */
  ghost predicate Starts(m: Message, x: Block, r: nat) {
    m.StartConsolidation? && m.block == x && m.confirmations != [] && m.confirmations[0].round == r
  }

  function Quorum(players: seq<PlayerId>): nat {
    |players| / 2 + 1
  }

  /** A node at height `h` that knows nothing of a round of the next height yet. */
  ghost predicate Able(node: Node, n: PlayerId, players: seq<PlayerId>, h: nat, last: Hash, r: nat) {
    && node.inbox == [] && node.tip == h
    && var s := node.core;
       && s.me == n && s.players == players && s.height == h && s.lastHash == last
       && (h + 1, r) !in s.polls
       && forall k :: k in s.table && k.height == h + 1 ==> k.round != r
  }

  /** A node has voted in a round of the next height; nothing else it knows of other rounds has changed. */
  ghost predicate Voted(a: State, b: State, r: nat) {
    && b.me == a.me && b.players == a.players && b.height == a.height && b.lastHash == a.lastHash
    && b.polls == a.polls + {(a.height + 1, r)}
    && (forall k :: k in b.table ==> k in a.table || (k.height == a.height + 1 && k.round == r))
    && a.sent <= b.sent
  }

  /** What the players of a round share: the block on top of their tip, built by one of them. */
  ghost predicate Candidate(x: Block, players: seq<PlayerId>, h: nat, last: Hash) {
    x.height == h + 1 && x.prevHash == last && x.builder.Some? && x.builder.value in players
  }

  function Cast(n: PlayerId, x: Block, r: nat, o: Oracle): Confirmation {
    Confirmation(x.hash, x.height, r, n, o.vote)
  }

  /** Storing a proposal again with one more confirmation adds just that one. */
  lemma AddOneMore(batch: seq<Confirmation>, c: Confirmation)
    requires NoRepeats(batch) && c !in batch
    ensures var all := AddAll(batch, batch + [c]);
            && batch <= all && |all| == |batch| + 1
            && forall d :: d in all <==> d in batch || d == c
  {
    var all := AddAll(batch, batch + [c]);
    AddAllContents(batch, batch + [c]);
    assert forall d :: d in batch + [c] <==> d in batch || d == c;
    ElementsCount(batch);
    ElementsCount(all);
    assert Elements(all) == Elements(batch) + {c};
  }

  /** A node told of votes for a block it can vote for votes after executing it, and starts consolidating it if
      these votes and its own make a quorum. */
  lemma VoteOnBatch(node: Node, x: Block, batch: seq<Confirmation>, r: nat, o: Oracle)
    requires Able(node, node.core.me, node.core.players, node.core.height, node.core.lastHash, r)
    requires Candidate(x, node.core.players, node.core.height, node.core.lastHash) && node.core.me in node.core.players
    requires BatchOk(batch, None) && KeyOf(batch[0]) == Key(x.height, x.hash, r)
    requires forall c :: c in batch ==> c.player in node.core.players && c.player != node.core.me
    ensures var s, e := node.core, Executed(x, []);
            && Enabled(FromAlignment(s, batch), BlockExecutionEnded(e), o)
            && var u := ExecutionEnded(FromAlignment(s, batch), e, o);
               && Voted(s, u, r)
               && PropagateConfirmation(Cast(s.me, x, r, o)) in u.sent
               && (s.consolidating.None? && |batch| + 1 >= Quorum(s.players) ==>
                     exists p :: p in u.sent && Starts(p, x, r))
  {
    var s := node.core;
    var t := FromAlignment(s, batch);
    var k, own := KeyOf(batch[0]), Cast(s.me, x, r, o);
    assert t == s.(round := r, table := s.table[k := Proposal(None, batch)]);
    assert own !in batch;
    AddOneMore(batch, own);
    var v := Update(Vote(t, x, r, o.vote), batch + [own], Some(Executed(x, [])));
    var all := AddAll(batch, batch + [own]);
    assert v.table[k] == Proposal(Some(Executed(x, [])), all);
    var u := ExecutionEnded(t, Executed(x, []), o);
    assert u == TryUnlessConsolidating(v, k);
    assert v.sent == s.sent + [PropagateConfirmation(own)];
    assert v.sent[|s.sent|] == PropagateConfirmation(own);
    if s.consolidating.None? && |batch| + 1 >= Quorum(s.players) {
      assert Reached(v, k);
      var p := StartConsolidation(x, all, []);
      assert u.sent == v.sent + [p] && u.sent[|v.sent|] == p;
      assert Starts(p, x, r);
    }
  }

  lemma Announced(net: Net, n: PlayerId, m: Message)
    requires n in net && m in net[n].core.sent && m.IsVote()
    ensures m.confirmation in Emitted(net)
  {
    assert m.confirmation in Ballots(net[n].core.sent);
  }

  /** The nodes of these players, all at one height and ready for a round. */
  ghost predicate AllAble(net: Net, vs: seq<PlayerId>, players: seq<PlayerId>, h: nat, last: Hash, r: nat) {
    forall v :: v in vs ==> v in net && v in players && Able(net[v], v, players, h, last, r)
  }

  /** These players voted in a round, and the others did nothing. */
  ghost predicate AllVoted(net: Net, last: Net, vs: seq<PlayerId>, r: nat) {
    && last.Keys == net.Keys
    && (forall v :: v in vs && v in net ==>
          Voted(net[v].core, last[v].core, r) && last[v].inbox == [] && last[v].tip == net[v].tip)
    && forall n :: n in net && n !in vs ==> last[n] == net[n]
  }

  lemma AbleStays(net: Net, last: Net, acted: seq<PlayerId>, vs: seq<PlayerId>, players: seq<PlayerId>, h: nat,
                  tip: Hash, r: nat)
    requires AllAble(net, vs, players, h, tip, r) && AllVoted(net, last, acted, r)
    requires forall v :: v in vs ==> v !in acted
    ensures AllAble(last, vs, players, h, tip, r)
  {
  }

  /** Votes in one round leave the players able to vote in another. */
  lemma AbleElsewhere(net: Net, last: Net, vs: seq<PlayerId>, players: seq<PlayerId>, h: nat, tip: Hash,
                      r: nat, other: nat)
    requires AllAble(net, vs, players, h, tip, other) && AllVoted(net, last, vs, r) && r != other
    ensures AllAble(last, vs, players, h, tip, other)
  {
  }

  lemma JoinVoted(net: Net, mid: Net, last: Net, a: seq<PlayerId>, b: seq<PlayerId>, all: seq<PlayerId>, r: nat)
    requires AllVoted(net, mid, a, r) && AllVoted(mid, last, b, r)
    requires forall v :: v in all <==> v in a || v in b
    requires forall v :: v in a ==> v !in b
    ensures AllVoted(net, last, all, r)
  {
  }

  /** The same in a run: alignment brings the votes, execution ends, and nothing else happens. */
  lemma VoteInRun(nets: seq<Net>, roster: Roster, n: PlayerId, x: Block, batch: seq<Confirmation>, r: nat, o: Oracle)
    returns (more: seq<Net>)
    requires Run(nets, roster)
    requires var net := nets[|nets| - 1];
             && n in net && (forall c :: c in batch ==> c in Emitted(net))
             && var s := net[n].core;
                && Able(net[n], n, s.players, s.height, s.lastHash, r) && n in s.players
                && Candidate(x, s.players, s.height, s.lastHash)
                && BatchOk(batch, None) && KeyOf(batch[0]) == Key(x.height, x.hash, r)
                && forall c :: c in batch ==> c.player in s.players && c.player != n
    ensures Run(more, roster) && |more| > 0
    ensures var net, last := nets[|nets| - 1], more[|more| - 1];
            && AllVoted(net, last, [n], r)
            && Emitted(net) <= Emitted(last) && Cast(n, x, r, o) in Emitted(last)
            && (net[n].core.consolidating.None? && |batch| + 1 >= Quorum(net[n].core.players) ==>
                  exists p :: p in last[n].core.sent && Starts(p, x, r))
  {
    var net := nets[|nets| - 1];
    VoteOnBatch(net[n], x, batch, r, o);
    more := HandleOne(nets, roster, n, ProposalFromAlignmentBlock(batch), o);
    more := HandleOne(more, roster, n, BlockExecutionEnded(Executed(x, [])), o);
    EmittedGrows(net, n, more[|more| - 1][n]);
    assert more[|more| - 1] == net[n := more[|more| - 1][n]];
    Announced(more[|more| - 1], n, PropagateConfirmation(Cast(n, x, r, o)));
  }

  // ---------- a round that starts a block ----------

  function Casts(vs: seq<PlayerId>, x: Block, r: nat, o: Oracle): seq<Confirmation> {
    seq(|vs|, i requires 0 <= i < |vs| => Cast(vs[i], x, r, o))
  }

  lemma CastsOf(vs: seq<PlayerId>, x: Block, r: nat, o: Oracle, players: seq<PlayerId>, known: iset<Confirmation>)
    requires vs != [] && NoRepeats(vs) && forall v :: v in vs ==> v in players && Cast(v, x, r, o) in known
    ensures BatchOk(Casts(vs, x, r, o), None) && KeyOf(Casts(vs, x, r, o)[0]) == Key(x.height, x.hash, r)
    ensures forall c :: c in Casts(vs, x, r, o) ==> c.player in vs && c.player in players && c in known
  {
    var cs := Casts(vs, x, r, o);
    forall i, j | 0 <= i < j < |cs| ensures cs[i] != cs[j] { assert cs[i].player != cs[j].player; }
    forall c | c in cs ensures c.player in vs && c.player in players && c in known && KeyOf(c) == KeyOf(cs[0]) {
      var i :| 0 <= i < |cs| && cs[i] == c;
      assert vs[i] in vs;
    }
  }

  /** Each of these players votes for a block one other player has voted for. */
  lemma {:induction false} RestVotes(nets: seq<Net>, roster: Roster, vs: seq<PlayerId>, c: Confirmation, x: Block,
                                     players: seq<PlayerId>, h: nat, last: Hash, r: nat, o: Oracle)
    returns (more: seq<Net>)
    requires Run(nets, roster) && NoRepeats(vs) && Candidate(x, players, h, last)
    requires AllAble(nets[|nets| - 1], vs, players, h, last, r) && c in Emitted(nets[|nets| - 1])
    requires KeyOf(c) == Key(x.height, x.hash, r) && c.player in players && c.player !in vs
    ensures Run(more, roster) && |more| > 0
    ensures AllVoted(nets[|nets| - 1], more[|more| - 1], vs, r)
    ensures Emitted(nets[|nets| - 1]) <= Emitted(more[|more| - 1])
    ensures forall v :: v in vs ==> Cast(v, x, r, o) in Emitted(more[|more| - 1])
    decreases |vs|
  {
    if vs == [] {
      more := nets;
    } else {
      var v, rest := vs[0], vs[1..];
      Front(vs);
      var net := nets[|nets| - 1];
      more := VoteInRun(nets, roster, v, x, [c], r, o);
      var mid := more[|more| - 1];
      AbleStays(net, mid, [v], rest, players, h, last, r);
      more := RestVotes(more, roster, rest, c, x, players, h, last, r, o);
      JoinVoted(net, mid, more[|more| - 1], [v], rest, vs, r);
    }
  }

  lemma Front(vs: seq<PlayerId>)
    requires NoRepeats(vs) && vs != []
    ensures NoRepeats(vs[1..]) && vs[0] !in vs[1..]
    ensures forall v :: v in vs <==> v == vs[0] || v in vs[1..]
  {
    assert vs == [vs[0]] + vs[1..];
    forall i | 0 <= i < |vs| - 1 ensures vs[1..][i] != vs[0] {
      assert vs[1..][i] == vs[i + 1];
    }
  }

  /** The builder's own vote, where it is not alone. */
  lemma BuilderVotes(nets: seq<Net>, roster: Roster, n: PlayerId, x: Block,
                     players: seq<PlayerId>, h: nat, last: Hash, r: nat, o: Oracle)
    returns (more: seq<Net>)
    requires Run(nets, roster) && |players| >= 2 && x.height == h + 1 && x.signature == o.block
    requires n in nets[|nets| - 1] && Able(nets[|nets| - 1][n], n, players, h, last, r)
    ensures Run(more, roster) && |more| > 0
    ensures AllVoted(nets[|nets| - 1], more[|more| - 1], [n], r)
    ensures more[|more| - 1][n].core.consolidating == nets[|nets| - 1][n].core.consolidating
    ensures Emitted(nets[|nets| - 1]) <= Emitted(more[|more| - 1]) && Cast(n, x, r, o) in Emitted(more[|more| - 1])
  {
    var net := nets[|nets| - 1];
    var s, c := net[n].core, Cast(n, x, r, o);
    more := Propose(nets, roster, n, Executed(x, []), r, o);
    var u := more[|more| - 1][n].core;
    assert u.sent == s.sent + [PropagateBlock(x, c, [])];
    assert u.sent[|s.sent|] == PropagateBlock(x, c, []);
    EmittedGrows(net, n, more[|more| - 1][n]);
    Announced(more[|more| - 1], n, PropagateBlock(x, c, []));
  }

  /** One player builds a block in a round and the others vote for it. */
  lemma BuildAndVote(nets: seq<Net>, roster: Roster, vs: seq<PlayerId>, x: Block,
                     players: seq<PlayerId>, h: nat, last: Hash, r: nat, o: Oracle)
    returns (more: seq<Net>)
    requires Run(nets, roster) && NoRepeats(vs) && vs != [] && |players| >= 2
    requires AllAble(nets[|nets| - 1], vs, players, h, last, r)
    requires Candidate(x, players, h, last) && x.signature == o.block
    ensures Run(more, roster) && |more| > 0
    ensures AllVoted(nets[|nets| - 1], more[|more| - 1], vs, r)
    ensures more[|more| - 1][vs[0]].core.consolidating == nets[|nets| - 1][vs[0]].core.consolidating
    ensures forall v :: v in vs ==> Cast(v, x, r, o) in Emitted(more[|more| - 1])
  {
    var net := nets[|nets| - 1];
    var v, rest := vs[0], vs[1..];
    Front(vs);
    more := BuilderVotes(nets, roster, v, x, players, h, last, r, o);
    var mid := more[|more| - 1];
    AbleStays(net, mid, [v], rest, players, h, last, r);
    more := RestVotes(more, roster, rest, Cast(v, x, r, o), x, players, h, last, r, o);
    JoinVoted(net, mid, more[|more| - 1], [v], rest, vs, r);
  }

  /** Then one more player, told of all these votes, starts consolidating the block if that makes a quorum. */
  lemma RoundStarts(nets: seq<Net>, roster: Roster, vs: seq<PlayerId>, z: PlayerId, x: Block,
                    players: seq<PlayerId>, h: nat, last: Hash, r: nat, o: Oracle)
    returns (more: seq<Net>, p: Message)
    requires Run(nets, roster) && NoRepeats(vs) && z !in vs && vs != [] && |vs| + 1 >= Quorum(players) >= 2
    requires AllAble(nets[|nets| - 1], vs + [z], players, h, last, r)
    requires Candidate(x, players, h, last) && x.signature == o.block
    requires z in nets[|nets| - 1] && nets[|nets| - 1][z].core.consolidating.None?
    ensures Run(more, roster) && |more| > 0
    ensures AllVoted(nets[|nets| - 1], more[|more| - 1], vs + [z], r)
    ensures vs[0] in more[|more| - 1]
            && more[|more| - 1][vs[0]].core.consolidating == nets[|nets| - 1][vs[0]].core.consolidating
    ensures z in more[|more| - 1] && p in more[|more| - 1][z].core.sent && Starts(p, x, r)
  {
    var net := nets[|nets| - 1];
    assert forall v :: v in vs ==> v in vs + [z];
    assert z in vs + [z];
    more := BuildAndVote(nets, roster, vs, x, players, h, last, r, o);
    var mid := more[|more| - 1];
    AbleStays(net, mid, vs, [z], players, h, last, r);
    assert z in [z] && mid[z] == net[z];
    CastsOf(vs, x, r, o, players, Emitted(mid));
    more := VoteInRun(more, roster, z, x, Casts(vs, x, r, o), r, o);
    JoinVoted(net, mid, more[|more| - 1], vs, [z], vs + [z], r);
    p :| p in more[|more| - 1][z].core.sent && Starts(p, x, r);
  }

  // ---------- the beginning of a run ----------

  function Fresh(n: PlayerId, players: seq<PlayerId>, h: nat, last: Hash): Node {
    Node(Initial(n, players, h, last), [], h, {})
  }

  /** A network of these players at one height. */
  function Start(vs: set<PlayerId>, players: seq<PlayerId>, h: nat, last: Hash): Net {
    map v | v in vs :: Fresh(v, players, h, last)
  }

  lemma StartAble(vs: seq<PlayerId>, players: seq<PlayerId>, h: nat, last: Hash, r: nat, roster: Roster)
    requires players == roster(h) && forall v :: v in vs ==> v in players
    ensures AllAble(Start(Elements(vs), players, h, last), vs, players, h, last, r)
    ensures Run([Start(Elements(vs), players, h, last)], roster)
  {
  }

  ghost predicate Started(nets: seq<Net>, n: PlayerId, m: Message, x: Block, r: nat)
    requires nets != []
  {
    var net := nets[|nets| - 1];
    n in net && m in net[n].core.sent && Starts(m, x, r)
  }

  // ---------- where one start per height ends ----------

  lemma LoneBuild(s: State, x: Block, r: nat, o: Oracle)
    requires TableOk(s.table) && s.players == [s.me] && x.height == s.height + 1 && x.signature == o.block
    requires (x.height, r) !in s.polls && forall k :: k in s.table && k.height == s.height + 1 ==> k.round != r
    ensures var c := Cast(s.me, x, r, o);
            var u := AfterBuild(s, Executed(x, []), r, o);
            && TableOk(u.table) && Voted(s, u, r)
            && u.sent == s.sent + [StartConsolidation(x, [c], []), PropagateBlock(x, c, [])]
  {
    var c := Cast(s.me, x, r, o);
    var u := Update(s, [c], Some(Executed(x, [])));
    UpdateKeepsTable(s.table, [c], Some(Executed(x, [])));
    LoneReached(s, c, Executed(x, []));
    assert u.table[KeyOf(c)] == Proposal(Some(Executed(x, [])), [c]);
    assert Reached(u, KeyOf(c));
  }

  /** Some node starts a height a second time. */
  ghost predicate Twice(nets: seq<Net>, n: PlayerId, h: nat) {
    && nets != [] && n in nets[|nets| - 1]
    && var sent := nets[|nets| - 1][n].core.sent;
       exists i, j :: 0 <= i < j < |sent| && sent[i].StartConsolidation? && sent[j].StartConsolidation?
                      && sent[i].block.height == sent[j].block.height == h
  }

  /** A lone player that builds a second block before the first is consolidated starts both. */
  lemma LoneStartsTwice(roster: Roster, h: nat, x: Block, y: Block, last: Hash, r1: nat, r2: nat, o: Oracle)
    returns (nets: seq<Net>, p: Message, q: Message)
    requires r1 != r2 && |roster(h)| == 1
    requires x.height == h + 1 && y.height == h + 1 && x.signature == o.block && y.signature == o.block
    ensures Run(nets, roster)
    ensures var n := roster(h)[0];
            && Started(nets, n, p, x, r1) && Started(nets, n, q, y, r2)
            && Twice(nets, n, h + 1)
  {
    var n := roster(h)[0];
    assert roster(h) == [n];
    nets := [Start({n}, roster(h), h, last)];
    var s := nets[0][n].core;
    LoneBuild(s, x, r1, o);
    nets := Propose(nets, roster, n, Executed(x, []), r1, o);
    var s1 := nets[|nets| - 1][n].core;
    LoneBuild(s1, y, r2, o);
    nets := Propose(nets, roster, n, Executed(y, []), r2, o);
    var sent := nets[|nets| - 1][n].core.sent;
    p, q := StartConsolidation(x, [Cast(n, x, r1, o)], []), StartConsolidation(y, [Cast(n, y, r2, o)], []);
    assert sent[0] == p && sent[2] == q;
  }

  ghost predicate NeverTwice(roster: Roster, h: nat) {
    forall nets, n :: Run(nets, roster) ==> !Twice(nets, n, h)
  }

  lemma NotTwice(nets: seq<Net>, roster: Roster, n: PlayerId, h: nat)
    requires Run(nets, roster) && |roster(h)| != 1
    ensures !Twice(nets, n, h + 1)
  {
    if Twice(nets, n, h + 1) {
      var sent := nets[|nets| - 1][n].core.sent;
      var i, j :| 0 <= i < j < |sent| && sent[i].StartConsolidation? && sent[j].StartConsolidation?
                  && sent[i].block.height == sent[j].block.height == h + 1;
      OneConsolidationPerHeight(nets, roster, n, i, j);
    }
  }

  /** One start per height, exactly: no run starts a height twice on one node iff the height is not left to a lone
      player. */
  lemma OncePerHeightIff(roster: Roster, h: nat)
    ensures NeverTwice(roster, h + 1) <==> |roster(h)| != 1
  {
    if |roster(h)| == 1 {
      var sig, last := Signature([], true), Hash([]);
      var x := Block(last, h + 1, last, None, last, last, sig);
      var nets, _, _ := LoneStartsTwice(roster, h, x, x, last, 0, 1, Oracle(sig, sig, None));
      assert Run(nets, roster) && Twice(nets, roster(h)[0], h + 1);
    } else {
      var next := h + 1;
      forall nets, n | Run(nets, roster) ensures !Twice(nets, n, next) {
        NotTwice(nets, roster, n, h);
      }
    }
  }

  // ---------- where agreement ends ----------

  /** Two players of a quorum start different blocks on votes of two rounds: first `a` builds and `b` starts, then
      `b` builds and `a` starts, each told of the votes of all others. */
  lemma PairDisagrees(roster: Roster, h: nat, a: PlayerId, b: PlayerId, rest: seq<PlayerId>, x: Block, y: Block,
                      last: Hash, r1: nat, r2: nat, o: Oracle)
    returns (nets: seq<Net>, p: Message, q: Message)
    requires r1 != r2 && a != b && a !in rest && b !in rest && NoRepeats(rest)
    requires |rest| + 2 >= Quorum(roster(h)) >= 2
    requires forall v :: v in [a] + rest + [b] ==> v in roster(h)
    requires Candidate(x, roster(h), h, last) && Candidate(y, roster(h), h, last)
    requires x.signature == o.block && y.signature == o.block
    ensures Run(nets, roster) && Started(nets, b, p, x, r1) && Started(nets, a, q, y, r2)
  {
    var players := roster(h);
    var one, two := [a] + rest + [b], [b] + rest + [a];
    assert forall v :: v in one <==> v in two;
    nets := [Start(Elements(one), players, h, last)];
    var net := nets[0];
    StartAble(one, players, h, last, r1, roster);
    StartAble(one, players, h, last, r2, roster);
    nets, p := RoundStarts(nets, roster, [a] + rest, b, x, players, h, last, r1, o);
    var mid := nets[|nets| - 1];
    AbleElsewhere(net, mid, one, players, h, last, r1, r2);
    nets, q := RoundStarts(nets, roster, [b] + rest, a, y, players, h, last, r2, o);
    assert Voted(mid[b].core, nets[|nets| - 1][b].core, r2);
  }

  lemma {:induction false} Pick<T>(s: set<T>, m: nat) returns (vs: seq<T>)
    requires m <= |s|
    ensures |vs| == m && NoRepeats(vs) && forall v :: v in vs ==> v in s
  {
    if m == 0 {
      vs := [];
    } else {
      var v :| v in s;
      vs := Pick(s - {v}, m - 1);
      vs := [v] + vs;
    }
  }

  /** Enough different players for a quorum; a list that repeats ids may have too few. */
  predicate QuorumPossible(players: seq<PlayerId>) {
    |Elements(players)| >= Quorum(players)
  }

  /** Wherever a quorum is possible at all, any two different blocks can be consolidated on votes of any two
      rounds. */
  lemma RoundsCanDisagree(roster: Roster, h: nat, x: Block, y: Block, last: Hash, r1: nat, r2: nat, o: Oracle)
    returns (nets: seq<Net>, a: PlayerId, b: PlayerId, p: Message, q: Message)
    requires r1 != r2 && QuorumPossible(roster(h))
    requires Candidate(x, roster(h), h, last) && Candidate(y, roster(h), h, last)
    requires x.signature == o.block && y.signature == o.block
    ensures Run(nets, roster) && Started(nets, b, p, x, r1) && Started(nets, a, q, y, r2)
  {
    var players := roster(h);
    if |players| == 1 {
      nets, p, q := LoneStartsTwice(roster, h, x, y, last, r1, r2, o);
      a, b := players[0], players[0];
    } else {
      var vs := Pick(Elements(players), Quorum(players));
      Front(vs);
      Front(vs[1..]);
      a, b := vs[0], vs[1];
      nets, p, q := PairDisagrees(roster, h, a, b, vs[1..][1..], x, y, last, r1, r2, o);
    }
  }

  /** Whether any two starts at one height, with votes of these rounds, are for the same block. */
  ghost predicate MustAgree(roster: Roster, r1: nat, r2: nat) {
    forall nets, a, b, x, y, p, q ::
      Run(nets, roster) && Started(nets, a, p, x, r1) && Started(nets, b, q, y, r2) && x.height == y.height ==>
        x.hash == y.hash
  }

  lemma SameRoundAgrees(roster: Roster, r: nat)
    ensures MustAgree(roster, r, r)
  {
    forall nets, a, b, x, y, p, q |
      Run(nets, roster) && Started(nets, a, p, x, r) && Started(nets, b, q, y, r) && x.height == y.height
      ensures x.hash == y.hash
    {
      Agreement(nets, roster, |nets| - 1, |nets| - 1, a, b, p, q);
    }
  }

  /** A start needs a height at which a quorum is possible. */
  lemma StartNeedsQuorum(nets: seq<Net>, roster: Roster, n: PlayerId, m: Message, x: Block, r: nat)
    requires Run(nets, roster) && Started(nets, n, m, x, r)
    ensures x.height > 0 && QuorumPossible(roster(x.height - 1))
  {
    RunKeeps(nets, roster);
    StartHasMajority(nets[|nets| - 1], roster, n, m);
    SubsetCount(Elements(Voters(m)), Elements(roster(x.height - 1)));
  }

  /** Agreement, exactly, whoever the players are: starts at one height on votes of two rounds must be for the same
      block iff it is the same round, or no height ever has enough different players for a quorum. */
  lemma AgreementIffSameRound(roster: Roster, r1: nat, r2: nat)
    ensures MustAgree(roster, r1, r2) <==> r1 == r2 || forall h :: !QuorumPossible(roster(h))
  {
    if r1 == r2 {
      SameRoundAgrees(roster, r1);
    } else if h: nat :| QuorumPossible(roster(h)) {
      var sig := Signature([], true);
      var o := Oracle(sig, sig, None);
      var last := Hash([]);
      assert roster(h) != [];
      var x := Block(Hash([0]), h + 1, last, Some(roster(h)[0]), last, last, sig);
      var y := x.(hash := Hash([1]));
      var nets, a, b, p, q := RoundsCanDisagree(roster, h, x, y, last, r1, r2, o);
      assert x.hash != y.hash by { assert x.hash.bytes[0] != y.hash.bytes[0]; }
      assert !MustAgree(roster, r1, r2);
    } else {
      forall nets, n, x, p | Run(nets, roster) && Started(nets, n, p, x, r1) ensures false {
        StartNeedsQuorum(nets, roster, n, p, x, r1);
      }
    }
  }
}
