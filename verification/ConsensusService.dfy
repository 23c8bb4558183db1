/** The consensus service: handlers that change vectors in place, each proved to take
    the step of `Voting` its message stands for. */
module ConsensusService {
  import opened Common
  import opened Voting
  import opened ProposalTable

  class ConsensusService {
    const nodeId: PlayerId
    var actualRound: nat
    var blockProposals: seq<Bucket>
    var consolidationInProgress: Option<nat>
    var height: nat
    var lastBlockHash: Hash
    var playersIds: seq<PlayerId>
    var proposalExitPoll: seq<(nat, nat)>
    var sent: seq<Message>                    // what was put on the channel to the node
    ghost var table: map<Key, Proposal>       // the map `blockProposals` stands for

    /** The vectors stand for the map; a proposal is filed under its first confirmation, and a stored block
        has the hash and height it is filed under. */
    ghost predicate Valid()
      reads this
    {
      Represents(blockProposals, table) && Filed(table)
    }

    static ghost predicate Filed(table: map<Key, Proposal>) {
      forall k :: k in table ==>
        && table[k].confirmations != [] && KeyOf(table[k].confirmations[0]) == k
        && BlockFits(k, table[k].block)
    }

    ghost function Abstract(): State
      reads this
    {
      State(nodeId, playersIds, height, lastBlockHash, actualRound, table,
            Elements(proposalExitPoll), consolidationInProgress, sent)
    }

    constructor (nodeId: PlayerId, playersIds: seq<PlayerId>, block: Option<Block>, noHash: Hash)
      ensures Valid()
      ensures actualRound == 0 && blockProposals == [] && consolidationInProgress.None?
      ensures proposalExitPoll == [] && sent == [] && this.nodeId == nodeId && this.playersIds == playersIds
      ensures height == if block.Some? then block.value.height else 0
      ensures lastBlockHash == if block.Some? then block.value.hash else noHash
      ensures Abstract() == Initial(nodeId, playersIds, if block.Some? then block.value.height else 0,
                                    if block.Some? then block.value.hash else noHash)
    {
      this.nodeId := nodeId;
      this.playersIds := playersIds;
      height := if block.Some? then block.value.height else 0;
      lastBlockHash := if block.Some? then block.value.hash else noHash;
      actualRound, blockProposals, consolidationInProgress := 0, [], None;
      proposalExitPoll, sent, table := [], [], map[];
    }

    // ---------- building blocks ----------

    /** Adds a batch to the proposal of its first confirmation, or opens that proposal. */
    method UpdateProposals(batch: seq<Confirmation>, block: Option<Executed>)
      requires Valid() && batch != [] && BlockFits(KeyOf(batch[0]), block)
      modifies this`blockProposals, this`table
      ensures Valid() && table == UpdateTable(old(table), batch, block)
      ensures KeyOf(batch[0]) in table
    {
      var k := KeyOf(batch[0]);
      var i := FindBucket(blockProposals, k.height);
      LookupIsMap(blockProposals, table, k);
      FoundBucket(blockProposals, k.height);
      var ps := if i.Some? then blockProposals[i.value].proposals else [];
      var j := FindProposal(ps, k.hash, k.round);
      var p;
      if j.Some? {
        p := AddConfirmations(ps[j.value], batch, block);
        ps := ps[j.value := p];
      } else {
        p := NewProposal(block, batch);
        ps := ps + [p];
      }
      UpdateRepresents(blockProposals, table, batch, block, p);
      blockProposals := if i.Some? then blockProposals[i.value := Bucket(k.height, ps)]
                        else blockProposals + [Bucket(k.height, ps)];
      UpdateFiled(table, batch, block);
      table := UpdateTable(table, batch, block);
    }

    static lemma UpdateFiled(table: map<Key, Proposal>, batch: seq<Confirmation>, block: Option<Executed>)
      requires Filed(table) && batch != [] && BlockFits(KeyOf(batch[0]), block)
      ensures Filed(UpdateTable(table, batch, block))
    {
      var k := KeyOf(batch[0]);
      AddAllGrows(if k in table then table[k].confirmations else [], batch);
    }

    static lemma AddAllGrows(stored: seq<Confirmation>, batch: seq<Confirmation>)
      ensures stored <= AddAll(stored, batch)
      decreases |batch|
    {
    }

    /** Pushes the confirmations not yet received, counting them, and fills in a missing block. */
    static method AddConfirmations(q: BlockProposal, batch: seq<Confirmation>, block: Option<Executed>)
      returns (p: BlockProposal)
      requires batch != [] && q.count == |q.confirmations|
      ensures p.Name() == q.Name() && p.count == |p.confirmations|
      ensures p.confirmations == AddAll(q.confirmations, batch)
      ensures p.block == if q.block.None? then block else q.block
    {
      p := q;
      for i := 0 to |batch|
        invariant p.Name() == q.Name() && p.count == |p.confirmations|
        invariant AddAll(p.confirmations, batch[i..]) == AddAll(q.confirmations, batch)
        invariant p.block == if i == 0 || q.block.Some? then q.block else block
      {
        assert batch[i..][1..] == batch[i + 1..];
        if batch[i] !in p.confirmations {
          p := p.(confirmations := p.confirmations + [batch[i]], count := p.count + 1);
        }
        if block.Some? && p.block.None? {
          p := p.(block := block);
        }
      }
    }

    /** Whether this node may vote for a block in a round. */
    method ShouldPlayerVote(block: Block, round: nat) returns (r: bool)
      ensures r == ShouldVote(Abstract(), block, round)
    {
      if nodeId !in playersIds { return false; }
      if (block.height, round) in proposalExitPoll { return false; }
      if block.builder.None? || block.builder.value !in playersIds { return false; }
      if round != actualRound { return false; }
      if block.height != height + 1 { return false; }
      return block.prevHash == lastBlockHash;
    }

    method VoteProposal(block: Block, round: nat, sig: Signature) returns (c: Confirmation)
      modifies this`proposalExitPoll, this`sent
      ensures c == Ballot(old(Abstract()), block, round, sig)
      ensures Abstract() == Vote(old(Abstract()), block, round, sig)
    {
      proposalExitPoll := proposalExitPoll + [(block.height, round)];
      c := Confirmation(block.hash, block.height, round, nodeId, sig);
      sent := sent + [PropagateConfirmation(c)];
    }

    /** Starts the consolidation if the proposal's quorum is reached. The lookup cannot fail. */
    method VerifyBlockProposalQuorum(k: Key) returns (reached: bool)
      requires Valid() && k in table
      modifies this`consolidationInProgress, this`sent
      ensures reached == Reached(old(Abstract()), k)
      ensures Abstract() == TryConsolidate(old(Abstract()), k)
    {
      LookupIsMap(blockProposals, table, k);
      FoundBucket(blockProposals, k.height);
      var i := FindBucket(blockProposals, k.height);
      var ps := blockProposals[i.value].proposals;
      var p := ps[FindProposal(ps, k.hash, k.round).value];
      if k.height == height + 1 && p.block.Some? {
        if exists c :: c in p.confirmations && c.player !in playersIds {
          return false;
        }
        var quorum := |playersIds| / 2 + 1;
        if p.count >= quorum {
          consolidationInProgress := Some(k.height);
          sent := sent + [StartConsolidation(p.block.value.block, p.confirmations, p.block.value.txs)];
          return true;
        }
      }
      return false;
    }

    // ---------- handlers ----------

    /** What a handler demands of its message: no empty batch, a retrieved block that fits its batch, and a
        proposal in the current round for an executed block. */
    ghost predicate Acceptable(e: Event)
      reads this
    {
      match e
      case BlockExecutionEnded(x) => ExecutionKey(Abstract(), x) in table
      case ProposalFromAlignmentBlock(batch) => batch != []
      case VerifyConfirmations(x, batch) => batch != [] && BlockFits(KeyOf(batch[0]), x)
      case _ => true
    }

    /** Refinement: whatever the message, changing the vectors in place is the step of the abstract machine. */
    method HandleMessages(e: Event, sig: Signature, blockSig: Signature) returns (ghost o: Oracle)
      requires Valid() && Acceptable(e)
      modifies this
      ensures Valid() && o.vote == sig && (e.ProposalAfterBuild? ==> o.block == blockSig)
      ensures Enabled(old(Abstract()), e, o) && Abstract() == Handle(old(Abstract()), e, o)
    {
      o := Oracle(sig, blockSig, None);
      match e
      case BlockElectionFailed(h, r) => o := OnBlockElectionFailed(h, r, sig);
      case BlockConfirmationFromPeer(c) => OnBlockConfirmationFromPeer(c);
      case BlockConsolidated(b, players) => OnBlockConsolidated(b, players);
      case BlockExecutionEnded(x) => OnBlockExecutionEnded(x, sig);
      case BlockFromPeer(b, c) => OnBlockFromPeer(b, c);
      case CheckOldBlockProposals => OnCheckOldBlockProposals();
      case ProposalAfterBuild(x, r) => OnProposalAfterBuild(x, r, blockSig, sig);
      case ProposalFromAlignmentBlock(batch) => OnProposalFromAlignmentBlock(batch);
      case VerifyConfirmations(x, batch) => OnVerifyConfirmations(x, batch);
    }

    method OnBlockElectionFailed(heightToBuild: nat, newRound: nat, sig: Signature) returns (ghost o: Oracle)
      requires Valid()
      modifies this
      ensures Valid() && o.vote == sig
      ensures Enabled(old(Abstract()), BlockElectionFailed(heightToBuild, newRound), o)
      ensures Abstract() == Handle(old(Abstract()), BlockElectionFailed(heightToBuild, newRound), o)
    {
      SortedFirst(blockProposals, table, heightToBuild, newRound);
      o := Oracle(sig, sig, FirstAfterSort(blockProposals, heightToBuild, newRound));
      if consolidationInProgress == Some(heightToBuild) {
        return;
      }
      actualRound := newRound;
      var _ := CheckNextRoundProposals(heightToBuild, newRound, sig, o);
    }

    static function FirstAfterSort(bs: seq<Bucket>, h: nat, r: nat): Option<Key> {
      var ps := SortByCount(ProposalsAt(bs, h));
      var j := FindRound(ps, r);
      if j.Some? then Some(ps[j.value].Name()) else None
    }

    static lemma SortedFirst(bs: seq<Bucket>, table: map<Key, Proposal>, h: nat, r: nat)
      requires Represents(bs, table)
      ensures FirstInRound(table, h, r, FirstAfterSort(bs, h, r))
    {
      var rows := ProposalsAt(bs, h);
      var ps := SortByCount(rows);
      var j := FindRound(ps, r);
      assert RowOk(bs, h, table);
      SortContents(rows);
      SortKeeps(rows);
      FirstIsMost(ps, r);
      if j.Some? { assert ps[j.value] in ps; }
      forall k | k in table && k.height == h && k.round == r
        ensures j.Some? && |table[k].confirmations| <= ps[j.value].count
      {
        assert Covered(bs, k);
        var p :| p in rows && p.Name() == k;
        assert p in ps;
      }
    }

    /** Votes for the first proposal of the round, if it can, and checks its quorum. */
    method CheckNextRoundProposals(h: nat, r: nat, sig: Signature, ghost o: Oracle) returns (found: bool)
      requires Valid() && actualRound == r && o.vote == sig
      requires o.first == FirstAfterSort(blockProposals, h, r) && FirstInRound(table, h, r, o.first)
      requires consolidationInProgress != Some(h)
      modifies this
      ensures Valid() && Abstract() == ElectionFailed(old(Abstract()), h, r, o)
    {
      FoundBucket(blockProposals, h);
      var i := FindBucket(blockProposals, h);
      if i.None? {
        return false;
      }
      var ps := SortByCount(blockProposals[i.value].proposals);
      SortRepresents(blockProposals, table, h);
      FindReplaced(blockProposals, h, ps, h);
      blockProposals := blockProposals[i.value := Bucket(h, ps)];
      var j := FindRound(ps, r);
      assert RowOk(blockProposals, h, table) && (j.Some? ==> ps[j.value] in ps);
      if j.None? || ps[j.value].block.None? {
        return false;
      }
      var executed := ps[j.value].block.value;
      var vote := ShouldPlayerVote(executed.block, r);
      if vote {
        var c := VoteProposal(executed.block, r, sig);
        UpdateProposals([c], Some(executed));
      }
      var _ := VerifyBlockProposalQuorum(Key(h, executed.block.hash, r));
      return true;
    }

    method OnBlockConfirmationFromPeer(c: Confirmation)
      requires Valid()
      modifies this
      ensures Valid() && Abstract() == ConfirmationFromPeer(old(Abstract()), c)
    {
      if (c.round >= actualRound || c.height > height) && c.signature.verifies {
        UpdateProposals([c], None);
        if consolidationInProgress.None? {
          var _ := VerifyBlockProposalQuorum(KeyOf(c));
        }
      }
    }

    method OnBlockConsolidated(block: Block, players: seq<PlayerId>)
      requires Valid()
      modifies this
      ensures Valid() && Abstract() == Consolidated(old(Abstract()), block, players)
    {
      playersIds := players;
      ResetProposals(block.hash, block.height);
      consolidationInProgress := None;
    }

    /** Moves to a new height, dropping proposals up to it and, on a player, polls above it. */
    method ResetProposals(hash: Hash, newHeight: nat)
      requires Valid()
      modifies this`actualRound, this`height, this`lastBlockHash, this`proposalExitPoll, this`blockProposals, this`table
      ensures Valid() && actualRound == 0 && height == newHeight && lastBlockHash == hash
      ensures Elements(proposalExitPoll) ==
              if nodeId in playersIds then (set q | q in Elements(old(proposalExitPoll)) && q.0 <= newHeight)
              else Elements(old(proposalExitPoll))
      ensures table == map k | k in old(table) && k.height > newHeight :: old(table)[k]
    {
      actualRound, height, lastBlockHash := 0, newHeight, hash;
      if nodeId in playersIds {
        RetainPollsContents(proposalExitPoll, newHeight);
        proposalExitPoll := RetainPolls(proposalExitPoll, newHeight);
      }
      RetainRepresents(blockProposals, table, newHeight);
      blockProposals := RetainAbove(blockProposals, newHeight);
      table := map k | k in table && k.height > newHeight :: table[k];
    }

    static function RetainPolls(polls: seq<(nat, nat)>, height: nat): seq<(nat, nat)> {
      if polls == [] then []
      else if polls[0].0 <= height then [polls[0]] + RetainPolls(polls[1..], height)
      else RetainPolls(polls[1..], height)
    }

    static lemma {:induction false} RetainPollsContents(polls: seq<(nat, nat)>, height: nat)
      ensures Elements(RetainPolls(polls, height)) == set q | q in Elements(polls) && q.0 <= height
    {
      if polls != [] {
        RetainPollsContents(polls[1..], height);
        assert polls == [polls[0]] + polls[1..];
        assert Elements(polls) == Elements(polls[1..]) + {polls[0]};
        var rest := RetainPolls(polls[1..], height);
        assert Elements([polls[0]] + rest) == Elements(rest) + {polls[0]};
      }
    }

    /** Enabled only when the executed block has a proposal in the current round. */
    method OnBlockExecutionEnded(executed: Executed, sig: Signature)
      requires Valid() && ExecutionKey(Abstract(), executed) in table
      modifies this
      ensures Valid() && Abstract() == ExecutionEnded(old(Abstract()), executed, Oracle(sig, sig, None))
    {
      var block := executed.block;
      var k := Key(block.height, block.hash, actualRound);
      LookupIsMap(blockProposals, table, k);
      FoundBucket(blockProposals, k.height);
      var ps := blockProposals[FindBucket(blockProposals, k.height).value].proposals;
      var confirmations := ps[FindProposal(ps, k.hash, k.round).value].confirmations;
      var vote := ShouldPlayerVote(block, actualRound);
      if vote {
        var c := VoteProposal(block, actualRound, sig);
        confirmations := confirmations + [c];
      }
      UpdateProposals(confirmations, Some(executed));
      if consolidationInProgress.None? {
        var _ := VerifyBlockProposalQuorum(k);
      }
    }

    method OnBlockFromPeer(block: Block, c: Confirmation)
      requires Valid()
      modifies this
      ensures Valid() && Abstract() == FromPeer(old(Abstract()), block, c)
    {
      if consolidationInProgress == Some(block.height) {
        return;
      }
      if block.signature.verifies && c.round >= actualRound && block.height > height {
        UpdateProposals([c], None);
      }
    }

    /** Drops passed rounds at the next height and sorts the rest by falling count. */
    method OnCheckOldBlockProposals()
      requires Valid()
      modifies this
      ensures Valid() && Abstract() == CheckOld(old(Abstract()))
      ensures old(consolidationInProgress).None? ==> Sorted(ProposalsAt(blockProposals, height + 1))
    {
      if consolidationInProgress.None? {
        DropPassedRounds();
      }
    }

    method DropPassedRounds()
      requires Valid()
      modifies this`blockProposals, this`table
      ensures Valid() && Sorted(ProposalsAt(blockProposals, height + 1))
      ensures table == map k | k in old(table) && !(k.height == height + 1 && k.round < actualRound) :: old(table)[k]
    {
      CheckOldRepresents(blockProposals, table, height + 1, actualRound);
      var i := FindBucket(blockProposals, height + 1);
      ghost var target := Checked(blockProposals, height + 1, actualRound);
      if i.Some? {
        var ps := RetainRounds(blockProposals[i.value].proposals, actualRound);
        blockProposals := blockProposals[i.value := Bucket(height + 1, SortByCount(ps))];
      }
      assert blockProposals == target;
      table := map k | k in table && !(k.height == height + 1 && k.round < actualRound) :: table[k];
    }

    /** Votes for and proposes a locally built block, unless the slot is already used. */
    method OnProposalAfterBuild(built: Executed, round: nat, blockSig: Signature, sig: Signature)
      requires Valid()
      modifies this
      ensures Valid() && Abstract() == AfterBuild(old(Abstract()), built, round, Oracle(sig, blockSig, None))
    {
      if (built.block.height, round) !in proposalExitPoll {
        var block := built.block.(signature := blockSig);
        proposalExitPoll := proposalExitPoll + [(block.height, round)];
        var c := Confirmation(block.hash, block.height, round, nodeId, sig);
        UpdateProposals([c], Some(Executed(block, built.txs)));
        if |playersIds| == 1 {
          var _ := VerifyBlockProposalQuorum(Key(block.height, block.hash, round));
        }
        sent := sent + [PropagateBlock(block, c, built.txs)];
      }
    }

    method OnProposalFromAlignmentBlock(confirmations: seq<Confirmation>)
      requires Valid() && confirmations != []
      modifies this
      ensures Valid() && Abstract() == FromAlignment(old(Abstract()), confirmations)
    {
      actualRound := confirmations[0].round;
      UpdateProposals(confirmations, None);
    }

    method OnVerifyConfirmations(retrieved: Option<Executed>, confirmations: seq<Confirmation>)
      requires Valid() && confirmations != [] && BlockFits(KeyOf(confirmations[0]), retrieved)
      modifies this
      ensures Valid() && Abstract() == VerifyBatch(old(Abstract()), retrieved, confirmations)
    {
      var first := confirmations[0];
      if (exists c :: c in confirmations && (c.player !in playersIds || !c.signature.verifies))
         || first.height != height + 1 || first.round < actualRound
      {
        return;
      }
      UpdateProposals(confirmations, retrieved);
      if retrieved.None? && consolidationInProgress.None? {
        var _ := VerifyBlockProposalQuorum(KeyOf(first));
      }
    }
  }
}
