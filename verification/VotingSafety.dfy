/** What every handled message keeps true of one node's voting state. */
module VotingSafety {
  import opened Common
  import opened Voting

  /** The players in charge once the block at a given height is the last one. */
  type Roster = nat -> seq<PlayerId>

  // ---------- proposal table ----------

  ghost predicate ProposalOk(k: Key, p: Proposal) {
    && p.confirmations != []
    && NoRepeats(p.confirmations)
    && (forall c :: c in p.confirmations ==> KeyOf(c) == k)
    && BlockFits(k, p.block)
  }

  ghost predicate TableOk(table: map<Key, Proposal>) {
    forall k :: k in table ==> ProposalOk(k, table[k])
  }

  /** A batch of confirmations of one proposal, with the block that may travel with it. */
  ghost predicate BatchOk(batch: seq<Confirmation>, block: Option<Executed>) {
    && batch != []
    && NoRepeats(batch)
    && (forall c :: c in batch ==> KeyOf(c) == KeyOf(batch[0]))
    && BlockFits(KeyOf(batch[0]), block)
  }

  /** Storing a batch keeps what was stored, adds nothing foreign and repeats nothing. */
  lemma {:induction false} AddAllContents(stored: seq<Confirmation>, batch: seq<Confirmation>)
    requires NoRepeats(stored)
    ensures NoRepeats(AddAll(stored, batch))
    ensures stored <= AddAll(stored, batch)
    ensures forall c :: c in AddAll(stored, batch) <==> c in stored || c in batch
    decreases |batch|
  {
    if batch != [] {
      var next := if batch[0] in stored then stored else stored + [batch[0]];
      AddAllContents(next, batch[1..]);
      assert batch == [batch[0]] + batch[1..];
    }
  }

  lemma UpdateKeepsTable(table: map<Key, Proposal>, batch: seq<Confirmation>, block: Option<Executed>)
    requires TableOk(table) && BatchOk(batch, block)
    ensures TableOk(UpdateTable(table, batch, block))
    ensures var k := KeyOf(batch[0]); var t := UpdateTable(table, batch, block);
            && t.Keys == table.Keys + {k}
            && (forall j :: j in table && j != k ==> t[j] == table[j])
            && (forall c :: c in t[k].confirmations <==> c in batch || (k in table && c in table[k].confirmations))
  {
    var k := KeyOf(batch[0]);
    if k in table {
      AddAllContents(table[k].confirmations, batch);
    }
  }

  // ---------- votes ----------

  ghost function Ballots(sent: seq<Message>): set<Confirmation> {
    set m | m in sent && m.IsVote() :: m.confirmation
  }

  ghost function VotedSlots(sent: seq<Message>): set<(nat, nat)> {
    set m | m in sent && m.IsVote() :: Slot(m.confirmation)
  }

  /** The exit poll is exactly the slots voted in, and no slot was voted in twice. */
  ghost predicate VotesOk(me: PlayerId, height: nat, polls: set<(nat, nat)>, sent: seq<Message>) {
    && (forall m :: m in sent && m.IsVote() ==> m.confirmation.player == me)
    && (forall i, j :: 0 <= i < j < |sent| && sent[i].IsVote() && sent[j].IsVote() ==>
                         Slot(sent[i].confirmation) != Slot(sent[j].confirmation))
    && polls == VotedSlots(sent)
    && (forall q :: q in polls ==> q.0 <= height + 1)
  }

  lemma AppendOther(me: PlayerId, height: nat, polls: set<(nat, nat)>, sent: seq<Message>, m: Message)
    requires VotesOk(me, height, polls, sent) && !m.IsVote()
    ensures VotesOk(me, height, polls, sent + [m])
    ensures Ballots(sent + [m]) == Ballots(sent)
  {
    assert forall x :: x in sent + [m] <==> x in sent || x == m;
    assert VotedSlots(sent + [m]) == VotedSlots(sent);
  }

  lemma AppendVote(me: PlayerId, height: nat, polls: set<(nat, nat)>, sent: seq<Message>, m: Message)
    requires VotesOk(me, height, polls, sent) && m.IsVote()
    requires m.confirmation.player == me && m.confirmation.height <= height + 1
    requires Slot(m.confirmation) !in polls
    ensures VotesOk(me, height, polls + {Slot(m.confirmation)}, sent + [m])
    ensures Ballots(sent + [m]) == Ballots(sent) + {m.confirmation}
  {
    assert forall x :: x in sent + [m] <==> x in sent || x == m;
    forall i | 0 <= i < |sent| && sent[i].IsVote()
      ensures Slot(sent[i].confirmation) in VotedSlots(sent)
    {
      assert sent[i] in sent;
    }
    forall q ensures q in VotedSlots(sent + [m]) <==> q in VotedSlots(sent) + {Slot(m.confirmation)} {
      if q in VotedSlots(sent) {
        var x :| x in sent && x.IsVote() && Slot(x.confirmation) == q;
        assert x in sent + [m];
      }
      assert m in sent + [m];
    }
    forall c ensures c in Ballots(sent + [m]) <==> c in Ballots(sent) + {m.confirmation} {
      if c in Ballots(sent) {
        var x :| x in sent && x.IsVote() && x.confirmation == c;
        assert x in sent + [m];
      }
      assert m in sent + [m];
    }
  }

  // ---------- consolidations ----------

  /** A started consolidation rests on a quorum of the players in charge, all in one round. */
  ghost predicate QuorumStart(m: Message, roster: Roster)
    requires m.StartConsolidation?
  {
    && m.confirmations != []
    && NoRepeats(m.confirmations)
    && m.block.height > 0
    && (forall c :: c in m.confirmations ==>
                      && KeyOf(c) == Key(m.block.height, m.block.hash, m.confirmations[0].round)
                      && c.player in roster(m.block.height - 1))
    && |m.confirmations| >= |roster(m.block.height - 1)| / 2 + 1
  }

  ghost predicate StartsOk(sent: seq<Message>, roster: Roster) {
    forall m :: m in sent && m.StartConsolidation? ==> QuorumStart(m, roster)
  }

  /** Every stored or used confirmation belongs to `known`. */
  ghost predicate KnownOk(s: State, known: iset<Confirmation>) {
    && (forall k, c :: k in s.table && c in s.table[k].confirmations ==> c in known)
    && (forall m, c :: m in s.sent && m.StartConsolidation? && c in m.confirmations ==> c in known)
  }

  type Heights = nat -> bool

  /** The heights that a lone player decides. */
  function Lone(roster: Roster): Heights {
    h => h > 0 && |roster(h - 1)| == 1
  }

  predicate MayFollow(g: nat, h: nat, twice: Heights) {
    g < h || (g == h && twice(h))
  }

  ghost predicate InOrder(sent: seq<Message>, twice: Heights) {
    forall i, j :: 0 <= i < j < |sent| && sent[i].StartConsolidation? && sent[j].StartConsolidation? ==>
                     MayFollow(sent[i].block.height, sent[j].block.height, twice)
  }

  /** Started heights increase, strictly but for the heights in `twice`; none is ahead of the next height. */
  ghost predicate Ordered(height: nat, consolidating: Option<nat>, sent: seq<Message>, twice: Heights) {
    && InOrder(sent, twice)
    && (forall m :: m in sent && m.StartConsolidation? ==>
                      m.block.height <= if consolidating.None? then height else height + 1)
    && (consolidating.Some? ==>
          exists m :: m in sent && m.StartConsolidation? && m.block.height == consolidating.value)
  }

  ghost predicate OrderOk(s: State, twice: Heights) {
    Ordered(s.height, s.consolidating, s.sent, twice)
  }

  lemma AppendInOrder(sent: seq<Message>, m: Message, twice: Heights)
    ensures InOrder(sent + [m], twice) <==>
            && InOrder(sent, twice)
            && forall i :: 0 <= i < |sent| && sent[i].StartConsolidation? && m.StartConsolidation? ==>
                             MayFollow(sent[i].block.height, m.block.height, twice)
  {
    var next, n := sent + [m], |sent|;
    assert next[n] == m && forall i :: 0 <= i < n ==> next[i] == sent[i];
  }

  lemma AppendVoteOrdered(height: nat, consolidating: Option<nat>, sent: seq<Message>, m: Message, twice: Heights)
    requires m.IsVote()
    ensures Ordered(height, consolidating, sent, twice) <==> Ordered(height, consolidating, sent + [m], twice)
  {
    AppendInOrder(sent, m, twice);
    assert forall x :: x in sent + [m] <==> x in sent || x == m;
  }

  /** Starting the next height keeps the order iff nothing was being consolidated or that height may repeat. */
  lemma AppendStartOrdered(height: nat, consolidating: Option<nat>, sent: seq<Message>, m: Message, twice: Heights)
    requires Ordered(height, consolidating, sent, twice) && m.StartConsolidation? && m.block.height == height + 1
    requires consolidating.Some? ==> consolidating.value == height + 1
    ensures Ordered(height, Some(height + 1), sent + [m], twice) <==> consolidating.None? || twice(height + 1)
  {
    AppendInOrder(sent, m, twice);
    assert forall x :: x in sent + [m] <==> x in sent || x == m;
    assert forall i :: 0 <= i < |sent| ==> sent[i] in sent;
    if consolidating.Some? {
      var x :| x in sent && x.StartConsolidation? && x.block.height == height + 1;
      var i :| 0 <= i < |sent| && sent[i] == x;
      assert MayFollow(sent[i].block.height, m.block.height, twice) <==> twice(height + 1);
    }
  }

  // ---------- the invariant ----------

  ghost predicate Inv(s: State, known: iset<Confirmation>, roster: Roster) {
    && TableOk(s.table)
    && VotesOk(s.me, s.height, s.polls, s.sent)
    && StartsOk(s.sent, roster)
    && KnownOk(s, known)
    && s.players == roster(s.height)
    && (s.consolidating.Some? ==> s.consolidating.value == s.height + 1)
  }

  lemma UpdateKeeps(s: State, batch: seq<Confirmation>, block: Option<Executed>,
                    known: iset<Confirmation>, roster: Roster)
    requires Inv(s, known, roster) && BatchOk(batch, block)
    requires forall c :: c in batch ==> c in known
    ensures Inv(Update(s, batch, block), known, roster)
    ensures KeyOf(batch[0]) in Update(s, batch, block).table
  {
    UpdateKeepsTable(s.table, batch, block);
  }

  lemma VoteKeeps(s: State, block: Block, round: nat, o: Oracle, known: iset<Confirmation>, roster: Roster,
                  twice: Heights)
    requires Inv(s, known, roster)
    requires (block.height, round) !in s.polls && block.height <= s.height + 1
    ensures Inv(Vote(s, block, round, o.vote), known, roster)
    ensures Ballots(Vote(s, block, round, o.vote).sent) == Ballots(s.sent) + {Ballot(s, block, round, o.vote)}
    ensures OrderOk(s, twice) ==> OrderOk(Vote(s, block, round, o.vote), twice)
  {
    AppendVote(s.me, s.height, s.polls, s.sent, PropagateConfirmation(Ballot(s, block, round, o.vote)));
    AppendVoteOrdered(s.height, s.consolidating, s.sent, PropagateConfirmation(Ballot(s, block, round, o.vote)), twice);
  }

  lemma TryKeeps(s: State, k: Key, known: iset<Confirmation>, roster: Roster, twice: Heights)
    requires Inv(s, known, roster) && k in s.table
    ensures Inv(TryConsolidate(s, k), known, roster)
    ensures Ballots(TryConsolidate(s, k).sent) == Ballots(s.sent)
    ensures OrderOk(s, twice) && s.consolidating.None? ==> OrderOk(TryConsolidate(s, k), twice)
  {
    if Reached(s, k) {
      var p := s.table[k];
      var m := StartConsolidation(p.block.value.block, p.confirmations, p.block.value.txs);
      assert ProposalOk(k, p);
      assert QuorumStart(m, roster) by {
        assert p.confirmations[0] in p.confirmations;
      }
      AppendOther(s.me, s.height, s.polls, s.sent, m);
      if OrderOk(s, twice) { AppendStartOrdered(s.height, s.consolidating, s.sent, m, twice); }
    }
  }

  /** What a message may carry: confirmations some node cast, in well-formed batches, and the
      players the new height puts in charge. */
  ghost predicate Carries(e: Event, known: iset<Confirmation>, roster: Roster) {
    match e
    case BlockConfirmationFromPeer(c) => c in known
    case BlockFromPeer(_, c) => c in known
    case BlockConsolidated(b, players) => players == roster(b.height)
    case ProposalFromAlignmentBlock(batch) => BatchOk(batch, None) && forall c :: c in batch ==> c in known
    case VerifyConfirmations(x, batch) => BatchOk(batch, x) && forall c :: c in batch ==> c in known
    case _ => true
  }

  /** What message order guarantees when a message is handled at a given height. */
  predicate Timely(height: nat, e: Event) {
    match e
    case BlockConsolidated(b, _) => b.height > height
    case ProposalAfterBuild(x, _) => x.block.height <= height + 1
    case _ => true
  }

  /** The one way to start a height twice: a lone player, still consolidating its first block for the
      next height, proposes another one in a fresh slot, and no stranger has confirmed that one. */
  predicate LoneRepeat(s: State, e: Event) {
    && e.ProposalAfterBuild? && |s.players| == 1 && s.consolidating.Some?
    && e.built.block.height == s.height + 1
    && (e.built.block.height, e.round) !in s.polls
    && s.me in s.players
    && var k := Key(e.built.block.height, e.built.block.hash, e.round);
       k in s.table ==> forall c :: c in s.table[k].confirmations ==> c.player in s.players
  }

  /** The invariant survives every message, and so does the order of starts, unless a lone player repeats a height
      that must not repeat. */
  lemma StepKeeps(s: State, e: Event, o: Oracle, known: iset<Confirmation>, roster: Roster, twice: Heights)
    requires Inv(s, known, roster) && Enabled(s, e, o)
    requires Carries(e, known, roster) && Timely(s.height, e)
    requires forall c :: c in Ballots(Handle(s, e, o).sent) ==> c in known
    ensures Inv(Handle(s, e, o), known, roster)
    ensures OrderOk(s, twice) ==> (OrderOk(Handle(s, e, o), twice) <==> !LoneRepeat(s, e) || twice(s.height + 1))
  {
    match e
    case BlockElectionFailed(h, r) => ElectionKeeps(s, h, r, o, known, roster, twice);
    case BlockExecutionEnded(x) => ExecutionKeeps(s, x, o, known, roster, twice);
    case ProposalAfterBuild(x, r) =>
      BuildKeeps(s, x, r, o, known, roster);
      if OrderOk(s, twice) { BuildOrdered(s, x, r, o, known, roster, twice); }
    case BlockConfirmationFromPeer(c) => ConfirmationKeeps(s, c, known, roster, twice);
    case BlockConsolidated(b, players) => ConsolidatedKeeps(s, b, players, known, roster, twice);
    case BlockFromPeer(b, c) => UpdateKeeps(s, [c], None, known, roster);
    case CheckOldBlockProposals => CheckOldKeeps(s, known, roster);
    case ProposalFromAlignmentBlock(batch) => UpdateKeeps(s.(round := batch[0].round), batch, None, known, roster);
    case VerifyConfirmations(x, batch) => VerifyKeeps(s, x, batch, known, roster, twice);
  }

  lemma ConfirmationKeeps(s: State, c: Confirmation, known: iset<Confirmation>, roster: Roster, twice: Heights)
    requires Inv(s, known, roster) && c in known
    ensures Inv(ConfirmationFromPeer(s, c), known, roster)
    ensures OrderOk(s, twice) ==> OrderOk(ConfirmationFromPeer(s, c), twice)
  {
    UpdateKeeps(s, [c], None, known, roster);
    TryKeeps(Update(s, [c], None), KeyOf(c), known, roster, twice);
  }

  lemma VerifyKeeps(s: State, x: Option<Executed>, batch: seq<Confirmation>, known: iset<Confirmation>,
                    roster: Roster, twice: Heights)
    requires Inv(s, known, roster) && BatchOk(batch, x) && forall c :: c in batch ==> c in known
    ensures Inv(VerifyBatch(s, x, batch), known, roster)
    ensures OrderOk(s, twice) ==> OrderOk(VerifyBatch(s, x, batch), twice)
  {
    UpdateKeeps(s, batch, x, known, roster);
    TryKeeps(Update(s, batch, x), KeyOf(batch[0]), known, roster, twice);
  }

  lemma ElectionKeeps(s: State, h: nat, r: nat, o: Oracle, known: iset<Confirmation>, roster: Roster, twice: Heights)
    requires Inv(s, known, roster) && FirstInRound(s.table, h, r, o.first)
    requires forall c :: c in Ballots(ElectionFailed(s, h, r, o).sent) ==> c in known
    ensures Inv(ElectionFailed(s, h, r, o), known, roster)
    ensures OrderOk(s, twice) ==> OrderOk(ElectionFailed(s, h, r, o), twice)
  {
    if s.consolidating != Some(h) && o.first.Some? && s.table[o.first.value].block.Some? {
      var f := o.first.value;
      assert ProposalOk(f, s.table[f]);
      var x, s1 := s.table[f].block.value, s.(round := r);
      if ShouldVote(s1, x.block, r) {
        VoteStoreTry(s1, f, [Ballot(s1, x.block, r, o.vote)], x, o, known, roster, twice);
      } else {
        TryKeeps(s1, f, known, roster, twice);
      }
    }
  }

  /** Voting, storing the vote with the block, and checking the quorum. */
  lemma VoteStoreTry(s: State, k: Key, batch: seq<Confirmation>, x: Executed, o: Oracle,
                     known: iset<Confirmation>, roster: Roster, twice: Heights)
    requires Inv(s, known, roster) && k in s.table
    requires ShouldVote(s, x.block, s.round) && k == Key(x.block.height, x.block.hash, s.round)
    requires var c := Ballot(s, x.block, s.round, o.vote);
             batch == [c] || batch == s.table[k].confirmations + [c]
    requires var v := Update(Vote(s, x.block, s.round, o.vote), batch, Some(x));
             k in v.table ==> forall c :: c in Ballots(TryConsolidate(v, k).sent) ==> c in known
    ensures var v := Update(Vote(s, x.block, s.round, o.vote), batch, Some(x));
            && k in v.table
            && Inv(v, known, roster)
            && Inv(TryConsolidate(v, k), known, roster)
            && (OrderOk(s, twice) ==> OrderOk(v, twice))
            && (OrderOk(s, twice) && s.consolidating.None? ==> OrderOk(TryConsolidate(v, k), twice))
  {
    var c := Ballot(s, x.block, s.round, o.vote);
    VoteKeeps(s, x.block, s.round, o, known, roster, twice);
    var u := Vote(s, x.block, s.round, o.vote);
    StoreVote(u, k, batch, c, x, known, roster);
    TryKeeps(Update(u, batch, Some(x)), k, known, roster, twice);
  }

  lemma ExecutionKeeps(s: State, x: Executed, o: Oracle, known: iset<Confirmation>, roster: Roster, twice: Heights)
    requires Inv(s, known, roster) && Enabled(s, BlockExecutionEnded(x), o)
    requires forall c :: c in Ballots(ExecutionEnded(s, x, o).sent) ==> c in known
    ensures Inv(ExecutionEnded(s, x, o), known, roster)
    ensures OrderOk(s, twice) ==> OrderOk(ExecutionEnded(s, x, o), twice)
  {
    var k := ExecutionKey(s, x);
    var received := s.table[k].confirmations;
    assert ProposalOk(k, s.table[k]);
    if ShouldVote(s, x.block, s.round) {
      VoteStoreTry(s, k, received + [Ballot(s, x.block, s.round, o.vote)], x, o, known, roster, twice);
    } else {
      UpdateKeeps(s, received, Some(x), known, roster);
      TryKeeps(Update(s, received, Some(x)), k, known, roster, twice);
    }
  }

  /** Re-storing a proposal's own confirmations with one more is safe even if that one is stored already. */
  lemma StoreVote(s: State, k: Key, batch: seq<Confirmation>, c: Confirmation, x: Executed,
                  known: iset<Confirmation>, roster: Roster)
    requires Inv(s, known, roster) && k in s.table
    requires batch == [c] || batch == s.table[k].confirmations + [c]
    requires KeyOf(c) == k && c in known && BlockFits(k, Some(x))
    ensures Inv(Update(s, batch, Some(x)), known, roster)
    ensures k in Update(s, batch, Some(x)).table
  {
    var received := s.table[k].confirmations;
    assert ProposalOk(k, s.table[k]);
    assert batch[0] in batch;
    AddAllContents(received, batch);
  }

  lemma ConsolidatedKeeps(s: State, b: Block, players: seq<PlayerId>, known: iset<Confirmation>, roster: Roster,
                          twice: Heights)
    requires Inv(s, known, roster) && players == roster(b.height) && b.height > s.height
    ensures Inv(Consolidated(s, b, players), known, roster)
    ensures Consolidated(s, b, players).polls == s.polls
    ensures OrderOk(s, twice) ==> OrderOk(Consolidated(s, b, players), twice)
  {
  }

  /** A consolidation forgets no vote exactly when no poll lies above it, or the node is no player. */
  lemma PollsKeptIff(s: State, b: Block, players: seq<PlayerId>)
    ensures Consolidated(s, b, players).polls == s.polls <==>
              s.me !in players || forall q :: q in s.polls ==> q.0 <= b.height
  {
    var kept := Consolidated(s, b, players).polls;
    if s.me in players && exists q :: q in s.polls && q.0 > b.height {
      var q :| q in s.polls && q.0 > b.height;
      assert q !in kept;
    }
  }

  lemma CheckOldKeeps(s: State, known: iset<Confirmation>, roster: Roster)
    requires Inv(s, known, roster)
    ensures Inv(CheckOld(s), known, roster)
  {
  }

  lemma BuildKeeps(s: State, x: Executed, r: nat, o: Oracle, known: iset<Confirmation>, roster: Roster)
    requires Inv(s, known, roster) && x.block.height <= s.height + 1
    requires forall c :: c in Ballots(AfterBuild(s, x, r, o).sent) ==> c in known
    ensures Inv(AfterBuild(s, x, r, o), known, roster)
  {
    if (x.block.height, r) !in s.polls {
      var signed := x.block.(signature := o.block);
      var c := Ballot(s, signed, r, o.vote);
      var t := AfterBuild(s, x, r, o);
      assert t.sent[|t.sent| - 1] == PropagateBlock(signed, c, x.txs);
      var u := Update(s, [c], Some(Executed(signed, x.txs)));
      UpdateKeeps(s, [c], Some(Executed(signed, x.txs)), known, roster);
      TryKeeps(u, KeyOf(c), known, roster, _ => false);
      var v := if |s.players| == 1 then TryConsolidate(u, KeyOf(c)) else u;
      AppendVote(s.me, s.height, s.polls, v.sent, PropagateBlock(signed, c, x.txs));
    }
  }

  /** When a freshly built block of a lone player has its quorum. */
  lemma LoneReached(s: State, c: Confirmation, x: Executed)
    requires TableOk(s.table) && |s.players| == 1 && BlockFits(KeyOf(c), Some(x)) && c.player == s.me
    ensures var k := KeyOf(c); var u := Update(s, [c], Some(x));
            && k in u.table
            && BlockFits(k, u.table[k].block)
            && (Reached(u, k) <==>
                  && c.height == s.height + 1
                  && s.me in s.players
                  && (k in s.table ==> forall d :: d in s.table[k].confirmations ==> d.player in s.players))
  {
    UpdateKeepsTable(s.table, [c], Some(x));
    var k := KeyOf(c);
    var u := Update(s, [c], Some(x));
    assert ProposalOk(k, u.table[k]);
    assert c in u.table[k].confirmations;
  }

  lemma BuildOrdered(s: State, x: Executed, r: nat, o: Oracle, known: iset<Confirmation>, roster: Roster,
                     twice: Heights)
    requires Inv(s, known, roster) && x.block.height <= s.height + 1 && OrderOk(s, twice)
    ensures OrderOk(AfterBuild(s, x, r, o), twice) <==>
            !LoneRepeat(s, ProposalAfterBuild(x, r)) || twice(s.height + 1)
  {
    if (x.block.height, r) !in s.polls {
      if |s.players| == 1 {
        LoneOrdered(s, x, r, o, known, roster, twice);
      } else {
        var signed := x.block.(signature := o.block);
        AppendVoteOrdered(s.height, s.consolidating, s.sent,
                          PropagateBlock(signed, Ballot(s, signed, r, o.vote), x.txs), twice);
      }
    }
  }

  lemma LoneOrdered(s: State, x: Executed, r: nat, o: Oracle, known: iset<Confirmation>, roster: Roster,
                    twice: Heights)
    requires Inv(s, known, roster) && OrderOk(s, twice)
    requires (x.block.height, r) !in s.polls && |s.players| == 1
    ensures OrderOk(AfterBuild(s, x, r, o), twice) <==>
            !LoneRepeat(s, ProposalAfterBuild(x, r)) || twice(s.height + 1)
  {
    var signed := x.block.(signature := o.block);
    var c := Ballot(s, signed, r, o.vote);
    var k := KeyOf(c);
    var u := Update(s, [c], Some(Executed(signed, x.txs)));
    var announce := PropagateBlock(signed, c, x.txs);
    LoneReached(s, c, Executed(signed, x.txs));
    var t := AfterBuild(s, x, r, o);
    if Reached(u, k) {
      var p := u.table[k];
      var m := StartConsolidation(p.block.value.block, p.confirmations, p.block.value.txs);
      AppendStartOrdered(s.height, s.consolidating, s.sent, m, twice);
      AppendVoteOrdered(s.height, Some(s.height + 1), s.sent + [m], announce, twice);
      assert t.sent == s.sent + [m] + [announce] && t.consolidating == Some(s.height + 1) && t.height == s.height;
    } else {
      AppendVoteOrdered(s.height, s.consolidating, s.sent, announce, twice);
      assert t.sent == s.sent + [announce] && t.consolidating == s.consolidating && t.height == s.height;
    }
  }

  /** Whatever message makes a node announce a confirmation, it confirms an executed block that extends
      the node's tip, was built by a player, and is the node's first vote in its current round. */
  lemma VotesAreJustified(s: State, e: Event, o: Oracle, i: nat) returns (x: Block)
    requires Enabled(s, e, o) && TableOk(s.table)
    requires |s.sent| <= i < |Handle(s, e, o).sent| && Handle(s, e, o).sent[i].PropagateConfirmation?
    ensures var t := Handle(s, e, o);
            var c := t.sent[i].confirmation;
            && KeyOf(c) == Key(x.height, x.hash, t.round) && c.player == s.me && s.me in s.players
            && x.height == s.height + 1 && x.prevHash == s.lastHash
            && x.builder.Some? && x.builder.value in s.players
            && Slot(c) !in s.polls
            && ((e.BlockExecutionEnded? && e.executed.block == x)
                || exists k :: k in s.table && s.table[k].block.Some? && s.table[k].block.value.block == x)
  {
    var t := Handle(s, e, o);
    if e.BlockExecutionEnded? {
      x := e.executed.block;
    } else if e.BlockElectionFailed? {
      x := s.table[o.first.value].block.value.block;
    } else {
      assert false;
    }
  }
}
