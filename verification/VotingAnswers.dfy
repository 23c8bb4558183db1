/** What each message makes a node store, announce and start, said without the functions that compute it. */
module VotingAnswers {
  import opened Common
  import opened Voting
  import opened VotingSafety

  // ---------- storing confirmations ----------

  /** Storing one by one, in order, and only what is not stored yet: these laws determine the result. */
  lemma {:induction false} AddAllLaws(stored: seq<Confirmation>, a: seq<Confirmation>, b: seq<Confirmation>)
    ensures AddAll(stored, []) == stored
    ensures forall c :: AddAll(stored, [c]) == if c in stored then stored else stored + [c]
    ensures AddAll(stored, a + b) == AddAll(AddAll(stored, a), b)
    decreases |a|
  {
    forall c ensures AddAll(stored, [c]) == if c in stored then stored else stored + [c] {
      assert [c][1..] == [];
    }
    if a == [] {
      assert a + b == b;
    } else {
      AddAllLaws(if a[0] in stored then stored else stored + [a[0]], a[1..], b);
      assert (a + b)[0] == a[0] && (a + b)[1..] == a[1..] + b;
    }
  }

  /** Storing again what is stored, and perhaps one more. */
  lemma {:induction false} AddAllAgain(stored: seq<Confirmation>, batch: seq<Confirmation>, c: Confirmation)
    requires forall d :: d in batch ==> d in stored
    ensures AddAll(stored, batch) == stored
    ensures AddAll(stored, batch + [c]) == if c in stored then stored else stored + [c]
    decreases |batch|
  {
    AddAllLaws(stored, batch, [c]);
    if batch != [] {
      assert batch[0] in batch;
      AddAllAgain(stored, batch[1..], c);
    }
  }

  // ---------- the vocabulary of the answers ----------

  function StoredAt(s: State, k: Key): seq<Confirmation> {
    if k in s.table then s.table[k].confirmations else []
  }

  function BlockAt(s: State, k: Key): Option<Executed> {
    if k in s.table then s.table[k].block else None
  }

  function With(cs: seq<Confirmation>, c: Confirmation): seq<Confirmation> {
    if c in cs then cs else cs + [c]
  }

  /** The block is known, is for the next height, and only players confirmed it, more than half of them. */
  ghost predicate Enough(s: State, height: nat, block: Option<Executed>, cs: seq<Confirmation>) {
    && height == s.height + 1 && block.Some?
    && (forall c :: c in cs ==> c.player in s.players)
    && |cs| >= |s.players| / 2 + 1
  }

  /** A player may vote for a block in a round. */
  ghost predicate Eligible(s: State, b: Block, round: nat) {
    && s.me in s.players
    && (b.height, round) !in s.polls
    && b.builder.Some? && b.builder.value in s.players
    && b.height == s.height + 1 && b.prevHash == s.lastHash
  }

  /** The state with `p` stored under `k`, after announcing `votes` and, if `starts`, starting `p`. */
  function Answer(s: State, k: Key, p: Proposal, votes: seq<Message>, starts: bool): State
    requires starts ==> p.block.Some?
  {
    s.(table := s.table[k := p],
       sent := s.sent + votes +
               if starts then [StartConsolidation(p.block.value.block, p.confirmations, p.block.value.txs)] else [],
       consolidating := if starts then Some(k.height) else s.consolidating)
  }

  lemma Appending(sent: seq<Message>, c: Confirmation)
    ensures sent + [] == sent && [] + [c] == [c]
    ensures forall m :: sent + [] + [m] == sent + [m]
    ensures forall m :: sent + [m] + [] == sent + [m]
  {
  }

  // ---------- the answers ----------

  /** A confirmation that does not verify, or of a passed round and height, changes nothing. Any other is stored
      with its proposal, which is started exactly if nothing is being consolidated and it then has enough. */
  lemma ConfirmationAnswer(s: State, c: Confirmation, o: Oracle)
    ensures var t := Handle(s, BlockConfirmationFromPeer(c), o);
            var k := Key(c.height, c.hash, c.round);
            var block, cs := BlockAt(s, k), With(StoredAt(s, k), c);
            && (!c.signature.verifies || (c.round < s.round && c.height <= s.height) ==> t == s)
            && (c.signature.verifies && (c.round >= s.round || c.height > s.height) ==>
                  t == Answer(s, k, Proposal(block, cs), [],
                              s.consolidating.None? && Enough(s, c.height, block, cs)))
  {
    AddAllLaws(StoredAt(s, KeyOf(c)), [c], []);
    Appending(s.sent, c);
  }

  /** The vote that completes a quorum starts the block, with the votes so far and this one, and any earlier vote is
      just stored. */
  lemma LastVoteStarts(s: State, x: Executed, cs: seq<Confirmation>, c: Confirmation, o: Oracle)
    requires s.consolidating.None? && c.signature.verifies && c.height == s.height + 1
    requires Key(c.height, c.hash, c.round) in s.table
    requires s.table[Key(c.height, c.hash, c.round)] == Proposal(Some(x), cs) && c !in cs
    requires c.player in s.players && forall d :: d in cs ==> d.player in s.players
    ensures var t := Handle(s, BlockConfirmationFromPeer(c), o);
            && t.table == s.table[Key(c.height, c.hash, c.round) := Proposal(Some(x), cs + [c])]
            && (|cs| + 1 >= |s.players| / 2 + 1 ==>
                  && t.sent == s.sent + [StartConsolidation(x.block, cs + [c], x.txs)]
                  && t.consolidating == Some(c.height))
            && (|cs| + 1 < |s.players| / 2 + 1 ==> t.sent == s.sent && t.consolidating.None?)
  {
    ConfirmationAnswer(s, c, o);
    Appending(s.sent, c);
  }

  /** A peer's block is remembered by its confirmation only, and only if it verifies, is ahead of the tip, is not of
      a passed round, and its height is not being consolidated. */
  lemma FromPeerAnswer(s: State, b: Block, c: Confirmation, o: Oracle)
    ensures var t := Handle(s, BlockFromPeer(b, c), o);
            var k := Key(c.height, c.hash, c.round);
            t == if && s.consolidating != Some(b.height) && b.signature.verifies
                    && c.round >= s.round && b.height > s.height
                 then Answer(s, k, Proposal(BlockAt(s, k), With(StoredAt(s, k), c)), [], false)
                 else s
  {
    AddAllLaws(StoredAt(s, KeyOf(c)), [c], []);
    Appending(s.sent, c);
  }

  lemma StoreAndTry(s: State, k: Key, batch: seq<Confirmation>, x: Executed, p: Proposal)
    requires k in s.table && batch != [] && KeyOf(batch[0]) == k
    requires p == Proposal(if s.table[k].block.None? then Some(x) else s.table[k].block,
                           AddAll(s.table[k].confirmations, batch))
    ensures var u := Update(s, batch, Some(x));
            && k in u.table
            && TryUnlessConsolidating(u, k)
               == Answer(s, k, p, [], s.consolidating.None? && Enough(s, k.height, p.block, p.confirmations))
  {
    assert s.sent + [] == s.sent;
  }

  /** An executed block is stored with its proposal of the current round. An eligible player also confirms it, once.
      It is started exactly if nothing is being consolidated and it then has enough. */
  lemma ExecutionAnswer(s: State, x: Executed, o: Oracle)
    requires Enabled(s, BlockExecutionEnded(x), o) && TableOk(s.table)
    ensures var t := Handle(s, BlockExecutionEnded(x), o);
            var b := x.block;
            var k, votes := Key(b.height, b.hash, s.round), Eligible(s, b, s.round);
            var own := Confirmation(b.hash, b.height, s.round, s.me, o.vote);
            var block := if s.table[k].block.Some? then s.table[k].block else Some(x);
            var cs := if votes then With(s.table[k].confirmations, own) else s.table[k].confirmations;
            t == Answer(s.(polls := if votes then s.polls + {(b.height, s.round)} else s.polls),
                        k, Proposal(block, cs), if votes then [PropagateConfirmation(own)] else [],
                        s.consolidating.None? && Enough(s, b.height, block, cs))
  {
    if Eligible(s, x.block, s.round) {
      VotingExecution(s, x, o);
    } else {
      SilentExecution(s, x, o);
    }
  }

  lemma SilentExecution(s: State, x: Executed, o: Oracle)
    requires Enabled(s, BlockExecutionEnded(x), o) && TableOk(s.table) && !Eligible(s, x.block, s.round)
    ensures var k := Key(x.block.height, x.block.hash, s.round);
            var block, cs := if s.table[k].block.Some? then s.table[k].block else Some(x), s.table[k].confirmations;
            ExecutionEnded(s, x, o)
            == Answer(s, k, Proposal(block, cs), [], s.consolidating.None? && Enough(s, x.block.height, block, cs))
  {
    var k := Key(x.block.height, x.block.hash, s.round);
    var received := s.table[k].confirmations;
    assert ProposalOk(k, s.table[k]);
    assert received[0] in received;
    AddAllAgain(received, received, received[0]);
    var block := if s.table[k].block.Some? then s.table[k].block else Some(x);
    StoreAndTry(s, k, received, x, Proposal(block, received));
  }

  lemma VotingExecution(s: State, x: Executed, o: Oracle)
    requires Enabled(s, BlockExecutionEnded(x), o) && TableOk(s.table) && Eligible(s, x.block, s.round)
    ensures var k := Key(x.block.height, x.block.hash, s.round);
            var own := Confirmation(x.block.hash, x.block.height, s.round, s.me, o.vote);
            var block := if s.table[k].block.Some? then s.table[k].block else Some(x);
            var cs := With(s.table[k].confirmations, own);
            ExecutionEnded(s, x, o)
            == Answer(s.(polls := s.polls + {(x.block.height, s.round)}), k, Proposal(block, cs),
                      [PropagateConfirmation(own)], s.consolidating.None? && Enough(s, x.block.height, block, cs))
  {
    var k := Key(x.block.height, x.block.hash, s.round);
    var own := Confirmation(x.block.hash, x.block.height, s.round, s.me, o.vote);
    var received := s.table[k].confirmations;
    assert ProposalOk(k, s.table[k]);
    assert received[0] in received;
    AddAllAgain(received, received, own);
    Appending(s.sent + [PropagateConfirmation(own)], own);
    var block := if s.table[k].block.Some? then s.table[k].block else Some(x);
    var v := Vote(s, x.block, s.round, o.vote);
    StoreAndTry(v, k, received + [own], x, Proposal(block, With(received, own)));
    assert ExecutionEnded(s, x, o) == TryUnlessConsolidating(Update(v, received + [own], Some(x)), k);
  }

  /** A batch with a stranger's or a bad confirmation, for another height or of a passed round, changes nothing. Any
      other is stored; without a retrieved block it is started exactly if nothing is and it then has enough. */
  lemma VerifyAnswer(s: State, x: Option<Executed>, batch: seq<Confirmation>, o: Oracle)
    requires batch != []
    ensures var t := Handle(s, VerifyConfirmations(x, batch), o);
            var refused := (exists c :: c in batch && (c.player !in s.players || !c.signature.verifies))
                           || batch[0].height != s.height + 1 || batch[0].round < s.round;
            var k := Key(batch[0].height, batch[0].hash, batch[0].round);
            var block := if BlockAt(s, k).Some? then BlockAt(s, k) else x;
            var cs := if k in s.table then AddAll(s.table[k].confirmations, batch) else batch;
            t == if refused then s
                 else Answer(s, k, Proposal(block, cs), [],
                             x.None? && s.consolidating.None? && Enough(s, k.height, block, cs))
  {
  }

  /** A failed election is ignored for the height being consolidated. Otherwise the round is entered; the most
      confirmed proposal of that round, if its block is known, gets the vote of an eligible player and is started
      exactly if it then has enough. */
  lemma ElectionAnswer(s: State, h: nat, r: nat, o: Oracle)
    requires Enabled(s, BlockElectionFailed(h, r), o) && TableOk(s.table)
    ensures o.first.None? ==> forall k :: k in s.table ==> k.height != h || k.round != r
    ensures o.first.Some? ==>
              && o.first.value in s.table && o.first.value.height == h && o.first.value.round == r
              && forall k :: k in s.table && k.height == h && k.round == r ==>
                               |s.table[k].confirmations| <= |s.table[o.first.value].confirmations|
    ensures var t := Handle(s, BlockElectionFailed(h, r), o);
            var s1 := s.(round := r);
            && (s.consolidating == Some(h) ==> t == s)
            && (s.consolidating != Some(h) && (o.first.None? || s.table[o.first.value].block.None?) ==> t == s1)
            && (s.consolidating != Some(h) && o.first.Some? && s.table[o.first.value].block.Some? ==>
                  var p := s.table[o.first.value];
                  var b, votes := p.block.value.block, Eligible(s, p.block.value.block, r);
                  var own := Confirmation(b.hash, b.height, r, s.me, o.vote);
                  var cs := if votes then With(p.confirmations, own) else p.confirmations;
                  t == Answer(s1.(polls := if votes then s.polls + {(b.height, r)} else s.polls),
                              o.first.value, Proposal(p.block, cs),
                              if votes then [PropagateConfirmation(own)] else [], Enough(s, h, p.block, cs)))
  {
    if o.first.Some? {
      var f := o.first.value;
      assert ProposalOk(f, s.table[f]);
      if s.table[f].block.Some? {
        var b := s.table[f].block.value.block;
        AddAllLaws(s.table[f].confirmations, [Confirmation(b.hash, b.height, r, s.me, o.vote)], []);
        assert s.table[f := s.table[f]] == s.table;
      }
    }
  }

  /** A built block whose slot is used changes nothing. Any other is signed, confirmed, stored and announced with its
      transactions; a lone player also starts it exactly if it then has enough. */
  lemma BuildAnswer(s: State, x: Executed, r: nat, o: Oracle)
    ensures var t := Handle(s, ProposalAfterBuild(x, r), o);
            var b := x.block.(signature := o.block);
            var k, own := Key(b.height, b.hash, r), Confirmation(b.hash, b.height, r, s.me, o.vote);
            var block := if BlockAt(s, k).Some? then BlockAt(s, k) else Some(Executed(b, x.txs));
            var cs := With(StoredAt(s, k), own);
            var stored := Answer(s, k, Proposal(block, cs), [], |s.players| == 1 && Enough(s, b.height, block, cs));
            t == if (b.height, r) in s.polls then s
                 else stored.(polls := s.polls + {(b.height, r)}, sent := stored.sent + [PropagateBlock(b, own, x.txs)])
  {
    var b := x.block.(signature := o.block);
    var own := Confirmation(b.hash, b.height, r, s.me, o.vote);
    AddAllLaws(StoredAt(s, Key(b.height, b.hash, r)), [own], []);
    Appending(s.sent, own);
  }

  /** An alignment block's confirmations are stored and their round is entered, whatever the current one. */
  lemma AlignmentAnswer(s: State, batch: seq<Confirmation>, o: Oracle)
    requires batch != []
    ensures var k := Key(batch[0].height, batch[0].hash, batch[0].round);
            var cs := if k in s.table then AddAll(s.table[k].confirmations, batch) else batch;
            Handle(s, ProposalFromAlignmentBlock(batch), o)
            == Answer(s.(round := k.round), k, Proposal(BlockAt(s, k), cs), [], false)
  {
  }

  /** A consolidation moves to its block and players, in round zero with nothing being consolidated; proposals above
      it stay, and so do polls up to it or, on a node that is no player, all. */
  lemma ConsolidationAnswer(s: State, b: Block, players: seq<PlayerId>, o: Oracle)
    ensures var t := Handle(s, BlockConsolidated(b, players), o);
            && t.me == s.me && t.players == players && t.round == 0 && t.sent == s.sent
            && t.height == b.height && t.lastHash == b.hash && t.consolidating.None?
            && (forall k :: k in t.table <==> k in s.table && k.height > b.height)
            && (forall k :: k in t.table ==> t.table[k] == s.table[k])
            && (forall q :: q in t.polls <==> q in s.polls && (s.me in players ==> q.0 <= b.height))
  {
  }

  /** The check of old proposals forgets passed rounds of the next height, unless something is being consolidated. */
  lemma CheckOldAnswer(s: State, o: Oracle)
    ensures var t := Handle(s, CheckOldBlockProposals, o);
            && t == s.(table := t.table)
            && (forall k :: k in t.table ==> k in s.table && t.table[k] == s.table[k])
            && (forall k :: k in s.table && k !in t.table <==>
                  k in s.table && s.consolidating.None? && k.height == s.height + 1 && k.round < s.round)
  {
  }
}
