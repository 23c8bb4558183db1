/** Building, checking and adopting blocks, and finding out where the network is. */
module BlockService {
  import opened Common
  import opened TransactionService

  const MAX_TXS_IN_BLOCK := 500
  const BLOCK_MAX_SIZE_BYTES := 524_288 * 2
  const BLOCK_BASE_SIZE_BYTES := 111
  const BLOCK_SIZE_LIMIT := BLOCK_MAX_SIZE_BYTES - BLOCK_BASE_SIZE_BYTES
  const MAX_REQ_ATTEMPTS := 5

  // ---------- packing ----------

  function Total(list: seq<(Hash, nat)>): nat {
    if list == [] then 0 else list[0].1 + Total(list[1..])
  }

  /** `start` begins the longest suffix of the listing that stays below the size limit. */
  ghost predicate LongestSuffix(list: seq<(Hash, nat)>, start: nat) {
    && start <= |list|
    && Total(list[start..]) < 1_048_465
    && forall k :: 0 <= k < start ==> Total(list[k..]) >= 1_048_465
  }

  /** `txs` takes the listing from its end: at most 500 hashes of its longest fitting suffix. */
  ghost predicate TakenFrom(list: seq<(Hash, nat)>, start: nat, txs: seq<Hash>) {
    && LongestSuffix(list, start)
    && |txs| == Min(500, |list| - start)
    && forall i :: 0 <= i < |txs| ==> txs[i] == list[|list| - 1 - i].0
  }

  ghost predicate Packed(list: seq<(Hash, nat)>, txs: seq<Hash>) {
    exists start: nat :: TakenFrom(list, start, txs)
  }

  lemma {:induction false} TotalGrows(list: seq<(Hash, nat)>, j: nat, k: nat)
    requires j <= k <= |list|
    ensures Total(list[j..]) >= Total(list[k..])
    decreases k - j
  {
    if j < k {
      TotalGrows(list, j + 1, k);
      assert list[j..][1..] == list[j + 1..];
    }
  }

  /** Pops transactions while they fit, then cuts the block at its maximum count. */
  method PackBlock(listed: seq<(Hash, nat)>) returns (txs: seq<Hash>)
    ensures Packed(listed, txs)
  {
    var list, size, all := listed, 0, [];
    while list != []
      invariant |list| <= |listed| && list == listed[..|list|]
      invariant size == Total(listed[|list|..]) && size < BLOCK_SIZE_LIMIT
      invariant |all| == |listed| - |list|
      invariant forall i :: 0 <= i < |all| ==> all[i] == listed[|listed| - 1 - i].0
      decreases |list|
    {
      var (hash, n) := list[|list| - 1];
      assert listed[|list| - 1..][1..] == listed[|list|..] && listed[|list| - 1] == (hash, n);
      if size + n < BLOCK_SIZE_LIMIT {
        all := all + [hash];
        size := size + n;
        list := list[..|list| - 1];
      } else {
        break;
      }
    }
    forall k | 0 <= k < |list| ensures Total(listed[k..]) >= BLOCK_SIZE_LIMIT {
      TotalGrows(listed, k, |list| - 1);
      assert listed[|list| - 1..][1..] == listed[|list|..];
    }
    txs := all[..Min(|all|, MAX_TXS_IN_BLOCK)];
    assert TakenFrom(listed, |list|, txs);
  }

  /** A packed block repeats nothing and takes only from the pool; the empty pool gives the empty block. */
  lemma PackedInPool(list: seq<(Hash, nat)>, pool: Pool, txs: seq<Hash>)
    requires Lists(list, pool) && Packed(list, txs)
    ensures forall h :: h in txs ==> h in pool
    ensures NoRepeats(txs)
  {
    var start: nat :| TakenFrom(list, start, txs);
    forall i | 0 <= i < |txs| ensures txs[i] in pool {
      var x := list[|list| - 1 - i];
      assert (x.0, x.1) in list;
    }
  }

  // ---------- missing transactions ----------

  function Missing(hashes: seq<Hash>, list: seq<(Hash, nat)>): seq<Hash> {
    if hashes == [] then []
    else if exists x :: x in list && x.0 == hashes[0] then Missing(hashes[1..], list)
    else [hashes[0]] + Missing(hashes[1..], list)
  }

  lemma {:induction false} MissingContents(hashes: seq<Hash>, list: seq<(Hash, nat)>)
    ensures forall h :: h in Missing(hashes, list) <==> h in hashes && !exists n :: (h, n) in list
  {
    if hashes != [] {
      MissingContents(hashes[1..], list);
      assert hashes == [hashes[0]] + hashes[1..];
      assert (exists x :: x in list && x.0 == hashes[0]) <==> exists n :: (hashes[0], n) in list by {
        if x :| x in list && x.0 == hashes[0] { assert (hashes[0], x.1) in list; }
      }
    }
  }

  /** What is missing is decided hash by hash, in order and with repetitions. */
  lemma {:induction false} MissingLaws(a: seq<Hash>, b: seq<Hash>, list: seq<(Hash, nat)>)
    ensures Missing(a + b, list) == Missing(a, list) + Missing(b, list)
    decreases |a|
  {
    if a == [] {
      assert a + b == b;
    } else {
      MissingLaws(a[1..], b, list);
      assert (a + b)[0] == a[0] && (a + b)[1..] == a[1..] + b;
      assert [a[0]] + (Missing(a[1..], list) + Missing(b, list)) == [a[0]] + Missing(a[1..], list) + Missing(b, list);
    }
  }

  lemma MissingOne(h: Hash, list: seq<(Hash, nat)>)
    ensures Missing([], list) == []
    ensures Missing([h], list) == if exists x :: x in list && x.0 == h then [] else [h]
  {
    assert [h][1..] == [];
  }

  function ReplyHashes(reply: seq<Entry>): seq<Hash> {
    seq(|reply|, i requires 0 <= i < |reply| => reply[i].tx.hash)
  }

  /** The check made on a peer's answer: every transaction verifies and was asked for, and there are as
      many as were asked for. */
  predicate Accepted(missing: seq<Hash>, reply: seq<Entry>) {
    && (forall e :: e in reply ==> e.tx.verifies && e.tx.hash in missing)
    && |reply| == |missing|
  }

  /** An accepted reply brings nothing that was not asked for. */
  lemma ReplyInside(missing: seq<Hash>, reply: seq<Entry>)
    requires Accepted(missing, reply)
    ensures Elements(ReplyHashes(reply)) <= Elements(missing)
  {
    var got := ReplyHashes(reply);
    forall h | h in Elements(got) ensures h in Elements(missing) {
      var i :| 0 <= i < |got| && got[i] == h;
      assert reply[i] in reply;
    }
  }

  /** As many different hashes came as were asked for. */
  predicate AsManyDifferent(missing: seq<Hash>, reply: seq<Entry>) {
    |Elements(ReplyHashes(reply))| == |Elements(missing)|
  }

  /** The exact condition: an accepted reply is complete iff it brings as many different hashes as were asked
      for. For a request without repeats that is a reply without repeats. */
  lemma ReplyCompleteIff(missing: seq<Hash>, reply: seq<Entry>)
    requires Accepted(missing, reply)
    ensures (forall h :: h in missing ==> h in ReplyHashes(reply)) <==> AsManyDifferent(missing, reply)
    ensures NoRepeats(missing) ==> (AsManyDifferent(missing, reply) <==> NoRepeats(ReplyHashes(reply)))
  {
    var got := ReplyHashes(reply);
    ReplyInside(missing, reply);
    ElementsCount(got);
    ElementsCount(missing);
    SubsetCount(Elements(got), Elements(missing));
    forall h | h in missing ensures h in Elements(missing) {}
    if forall h :: h in missing ==> h in got {
      assert Elements(missing) == Elements(got);
    } else {
      var h :| h in missing && h !in got;
      assert h in Elements(missing) && h !in Elements(got);
    }
  }

  /** An accepted reply can repeat one transaction and leave another one out. */
  lemma RepeatedReplyWitness(a: Entry, b: Hash)
    requires a.tx.verifies && a.tx.hash != b
    ensures Accepted([a.tx.hash, b], [a, a]) && b !in ReplyHashes([a, a])
  {
    assert ReplyHashes([a, a]) == [a.tx.hash, a.tx.hash];
  }

  /** Asks peers at most six times; `replies(i)` is what the i-th request returned, if anything. */
  method CollectMissingTxs(attempt: nat, missing: seq<Hash>, replies: nat -> Option<seq<Entry>>)
    returns (r: Option<seq<Entry>>)
    ensures r.Some? <==>
            exists i :: attempt <= i <= 5 && replies(i).Some? && Accepted(missing, replies(i).value)
    ensures r.Some? ==>
              exists i :: attempt <= i <= 5 && replies(i) == r && Accepted(missing, r.value)
                          && forall j :: attempt <= j < i ==> replies(j).None? || !Accepted(missing, replies(j).value)
    decreases MAX_REQ_ATTEMPTS + 1 - attempt
  {
    if attempt > MAX_REQ_ATTEMPTS {
      return None;
    }
    var reply := replies(attempt);
    if reply.Some? && Accepted(missing, reply.value) {
      return reply;
    }
    r := CollectMissingTxs(attempt + 1, missing, replies);
  }

  // ---------- the service ----------

  datatype ChainError =
    | BlockVerificationFault | MissingBlockBuilder | InvalidBlockHeight
    | InvalidBlockPreviousHash | InvalidBlockPlayer | ConfirmationError | InvalidComm

  class BlockService {
    const nodeId: PlayerId
    var actualRound: nat
    var aligning: bool
    var buildInProgress: bool
    var height: nat
    var lastBlockHash: Hash
    var newHeights: seq<nat>                                      // told to the alignment thread
    var consolidated: seq<(Block, seq<Hash>, seq<PlayerId>)>      // told to the consensus service
    var removals: seq<seq<Hash>>                                  // told to the transaction service

    constructor (nodeId: PlayerId, block: Option<Block>, noHash: Hash)
      ensures height == (if block.Some? then block.value.height else 0) && newHeights == []
      ensures consolidated == [] && removals == [] && actualRound == 0 && !aligning && !buildInProgress
      ensures lastBlockHash == if block.Some? then block.value.hash else noHash
    {
      this.nodeId := nodeId;
      actualRound, aligning, buildInProgress := 0, false, false;
      newHeights, consolidated, removals := [], [], [];
      height := if block.Some? then block.value.height else 0;
      lastBlockHash := if block.Some? then block.value.hash else noHash;
    }

    /** Packs a block on top of the tip from a listing of the pool. The header's hash, signature and roots
        come from outside. */
    method BuildBlock(list: seq<(Hash, nat)>, header: Block) returns (block: Block, txs: seq<Hash>)
      modifies this`buildInProgress
      ensures buildInProgress && Packed(list, txs)
      ensures block.height == height + 1 && block.prevHash == lastBlockHash && block.builder == Some(nodeId)
      ensures block == header.(height := block.height, prevHash := block.prevHash, builder := block.builder)
    {
      buildInProgress := true;
      txs := PackBlock(list);
      block := header.(height := height + 1, prevHash := lastBlockHash, builder := Some(nodeId));
    }

    /** Accepts a block for execution iff it verifies, extends the tip, and neither its builder nor a
        confirmation of this round or later is a stranger; the first failing check names the error. */
    method VerifyExtBlock(block: Block, confirmations: seq<Confirmation>,
                          first: Option<seq<PlayerId>>, second: Option<seq<PlayerId>>)
      returns (error: Option<ChainError>)
      ensures error.None? <==>
              && block.signature.verifies && block.builder.Some?
              && block.height == height + 1 && block.prevHash == lastBlockHash
              && first.Some? && block.builder.value in first.value
              && second.Some? && block.builder.value in second.value
              && forall c :: c in confirmations && c.round >= actualRound ==> c.player in second.value
      ensures error == Some(ConfirmationError) ==>
              && block.height == height + 1 && block.prevHash == lastBlockHash
              && block.builder.Some? && second.Some? && block.builder.value in second.value
      ensures error == Some(InvalidBlockHeight) <==>
              block.signature.verifies && block.builder.Some? && block.height != height + 1
      ensures error == Some(BlockVerificationFault) <==> !block.signature.verifies
      ensures error == Some(MissingBlockBuilder) <==> block.signature.verifies && block.builder.None?
      ensures error == Some(InvalidBlockPreviousHash) <==>
              && block.signature.verifies && block.builder.Some? && block.height == height + 1
              && block.prevHash != lastBlockHash
      ensures error == Some(InvalidComm) ==> first.None? || second.None?
      ensures error == Some(InvalidBlockPlayer) ==>
              || (first.Some? && block.builder.Some? && block.builder.value !in first.value)
              || (second.Some? && block.builder.Some? && block.builder.value !in second.value)
    {
      if !block.signature.verifies { return Some(BlockVerificationFault); }
      if block.builder.None? { return Some(MissingBlockBuilder); }
      if block.height != height + 1 { return Some(InvalidBlockHeight); }
      if block.prevHash != lastBlockHash { return Some(InvalidBlockPreviousHash); }
      if first.None? { return Some(InvalidComm); }
      if block.builder.value !in first.value { return Some(InvalidBlockPlayer); }
      if second.None? { return Some(InvalidComm); }
      if block.builder.value !in second.value { return Some(InvalidBlockPlayer); }
      if exists c :: c in confirmations && c.player !in second.value && c.round >= actualRound {
        return Some(ConfirmationError);
      }
      return None;
    }

    /** Adopts the block, and tells a running alignment, the consensus service and the transaction service. */
    method FinalizeConsolidation(block: Block, hashes: seq<Hash>, players: seq<PlayerId>)
      modifies this
      ensures consolidated == old(consolidated) + [(block, hashes, players)]
      ensures removals == old(removals) + [hashes]
      ensures height == block.height && lastBlockHash == block.hash && actualRound == 0 && !buildInProgress
      ensures newHeights == if aligning then old(newHeights) + [block.height] else old(newHeights)
      ensures aligning == old(aligning)
    {
      actualRound, buildInProgress := 0, false;
      height, lastBlockHash := block.height, block.hash;
      if aligning {
        newHeights := newHeights + [height];
      }
      consolidated := consolidated + [(block, hashes, players)];
      removals := removals + [hashes];
    }
  }
}
