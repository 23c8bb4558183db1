/** The pool of unconfirmed transactions. */
module TransactionService {
  import opened Common

  const MIN_TXS_TO_BUILD := 3
  const REPROPAGATE_OLD_TXS_S := 60

  datatype Tx = Tx(hash: Hash, body: seq<byte>, verifies: bool)

  /** A pooled transaction with its serialized size and attachments. */
  datatype Entry = Entry(tx: Tx, size: nat, attachments: Option<seq<Hash>>)

  type Pool = map<Hash, Entry>

  // ---------- what the messages do to the pool ----------

  function Insert(pool: Pool, e: Entry): Pool {
    if e.tx.verifies then pool[e.tx.hash := e] else pool
  }

  function InsertAll(pool: Pool, es: seq<Entry>): Pool
    decreases |es|
  {
    if es == [] then pool else InsertAll(Insert(pool, es[0]), es[1..])
  }

  function RemoveAll(pool: Pool, hashes: seq<Hash>): Pool {
    map h | h in pool && h !in hashes :: pool[h]
  }

  /** Any order in which the pool's hashes and sizes may be listed. */
  ghost predicate Lists(list: seq<(Hash, nat)>, pool: Pool) {
    && (forall i, j :: 0 <= i < j < |list| ==> list[i].0 != list[j].0)
    && (forall h, n :: (h, n) in list <==> h in pool && pool[h].size == n)
  }

  /** Every transaction is verified and stored under its own hash. */
  ghost predicate PoolOk(pool: Pool) {
    forall h :: h in pool ==> pool[h].tx.hash == h && pool[h].tx.verifies
  }

  lemma InsertOk(pool: Pool, e: Entry)
    requires PoolOk(pool)
    ensures PoolOk(Insert(pool, e))
    ensures Insert(pool, e).Keys == if e.tx.verifies then pool.Keys + {e.tx.hash} else pool.Keys
  {
  }

  /** Insertion goes one by one, the last entry under a hash stays, and what does not verify is left out. */
  lemma {:induction false} InsertLaws(pool: Pool, es: seq<Entry>, e: Entry)
    ensures InsertAll(pool, []) == pool
    ensures InsertAll(pool, es + [e]) ==
            if e.tx.verifies then InsertAll(pool, es)[e.tx.hash := e] else InsertAll(pool, es)
    decreases |es|
  {
    if es == [] {
      assert es + [e] == [e] && [e][1..] == [];
    } else {
      InsertLaws(Insert(pool, es[0]), es[1..], e);
      assert (es + [e])[0] == es[0] && (es + [e])[1..] == es[1..] + [e];
    }
  }

  lemma RemoveOne(pool: Pool, hashes: seq<Hash>, h: Hash)
    requires PoolOk(pool)
    ensures RemoveAll(pool, hashes + [h]) == RemoveAll(pool, hashes) - {h}
    ensures PoolOk(RemoveAll(pool, hashes))
    ensures (RemoveAll(pool, hashes) - {h}).Keys == RemoveAll(pool, hashes).Keys - {h}
  {
  }

  function HashesOf(collector: seq<(Hash, nat)>): seq<Hash> {
    seq(|collector|, i requires 0 <= i < |collector| => collector[i].0)
  }

  function RetainOthers(collector: seq<(Hash, nat)>, h: Hash): seq<(Hash, nat)> {
    if collector == [] then []
    else if collector[0].0 != h then [collector[0]] + RetainOthers(collector[1..], h)
    else RetainOthers(collector[1..], h)
  }

  /** The collector lists each key of the pool exactly once. */
  ghost predicate CollectorOk(collector: seq<(Hash, nat)>, keys: set<Hash>) {
    && NoRepeats(HashesOf(collector))
    && Elements(HashesOf(collector)) == keys
  }

  lemma {:induction false} RetainOthersContents(c: seq<(Hash, nat)>, h: Hash)
    ensures forall x :: x in RetainOthers(c, h) <==> x in c && x.0 != h
    ensures NoRepeats(HashesOf(c)) ==> NoRepeats(HashesOf(RetainOthers(c, h)))
  {
    if c != [] {
      RetainOthersContents(c[1..], h);
      assert c == [c[0]] + c[1..];
      var rest := RetainOthers(c[1..], h);
      if NoRepeats(HashesOf(c)) {
        assert forall i :: 0 <= i < |c[1..]| ==> HashesOf(c[1..])[i] == HashesOf(c)[i + 1];
        forall i | 0 <= i < |rest| ensures rest[i].0 != c[0].0 {
          assert rest[i] in c[1..];
          var j :| 0 <= j < |c[1..]| && c[1..][j] == rest[i];
          assert HashesOf(c)[0] != HashesOf(c)[j + 1];
        }
        assert forall i :: 0 < i <= |rest| ==> HashesOf([c[0]] + rest)[i] == HashesOf(rest)[i - 1];
      }
    }
  }

  /** What is retained is decided entry by entry, in order. */
  lemma {:induction false} RetainLaws(a: seq<(Hash, nat)>, b: seq<(Hash, nat)>, h: Hash)
    ensures RetainOthers(a + b, h) == RetainOthers(a, h) + RetainOthers(b, h)
    decreases |a|
  {
    if a == [] {
      assert a + b == b;
    } else {
      RetainLaws(a[1..], b, h);
      assert (a + b)[0] == a[0] && (a + b)[1..] == a[1..] + b;
      assert [a[0]] + (RetainOthers(a[1..], h) + RetainOthers(b, h))
          == [a[0]] + RetainOthers(a[1..], h) + RetainOthers(b, h);
    }
  }

  lemma RetainOne(x: (Hash, nat), h: Hash)
    ensures RetainOthers([], h) == [] && RetainOthers([x], h) == if x.0 == h then [] else [x]
  {
    assert [x][1..] == [];
  }

  lemma RetainKeeps(c: seq<(Hash, nat)>, keys: set<Hash>, h: Hash)
    requires CollectorOk(c, keys)
    ensures CollectorOk(RetainOthers(c, h), keys - {h})
  {
    RetainOthersContents(c, h);
    var r := RetainOthers(c, h);
    forall x ensures x in Elements(HashesOf(r)) <==> x in keys && x != h {
      if x in Elements(HashesOf(r)) {
        var i :| 0 <= i < |r| && HashesOf(r)[i] == x;
        assert r[i] in c;
        var j :| 0 <= j < |c| && c[j] == r[i];
        assert HashesOf(c)[j] == x;
      }
      if x in keys && x != h {
        var i :| 0 <= i < |c| && HashesOf(c)[i] == x;
        assert c[i] in r;
        var j :| 0 <= j < |r| && r[j] == c[i];
        assert HashesOf(r)[j] == x;
      }
    }
  }

  lemma PushKeeps(c: seq<(Hash, nat)>, keys: set<Hash>, x: (Hash, nat))
    requires CollectorOk(c, keys) && x.0 !in keys
    ensures CollectorOk(c + [x], keys + {x.0})
  {
    assert HashesOf(c + [x]) == HashesOf(c) + [x.0];
  }

  // ---------- requests to build ----------

  /** What matters for pacing blocks: consolidations seen and build requests sent, in order. */
  datatype Mark = Consolidation | BuildRequest

  /** Between two build requests a block was consolidated, and one is pending iff none was since the last one. */
  ghost predicate Paced(log: seq<Mark>, pending: bool) {
    && (forall i, j :: 0 <= i < j < |log| && log[i].BuildRequest? && log[j].BuildRequest? ==> Settled(log, i, j))
    && (pending <==> exists i :: 0 <= i < |log| && log[i].BuildRequest? && !Settled(log, i, |log|))
  }

  ghost predicate Settled(log: seq<Mark>, i: int, j: int) {
    exists m :: 0 <= i < m < j <= |log| && log[m].Consolidation?
  }

  lemma SettledStays(log: seq<Mark>, x: Mark, i: int, j: int)
    requires Settled(log, i, j)
    ensures Settled(log + [x], i, j)
  {
    var m :| 0 <= i < m < j <= |log| && log[m].Consolidation?;
    assert (log + [x])[m].Consolidation?;
  }

  lemma PaceRequest(log: seq<Mark>)
    requires Paced(log, false)
    ensures Paced(log + [BuildRequest], true)
  {
    var next := log + [BuildRequest];
    forall i, j | 0 <= i < j < |next| && next[i].BuildRequest? && next[j].BuildRequest? ensures Settled(next, i, j) {
      SettledStays(log, BuildRequest, i, j);
    }
    assert next[|log|].BuildRequest? && !Settled(next, |log|, |next|);
  }

  lemma PaceConsolidation(log: seq<Mark>, pending: bool)
    requires Paced(log, pending)
    ensures Paced(log + [Consolidation], false)
  {
    var next := log + [Consolidation];
    forall i, j | 0 <= i < j < |next| && next[i].BuildRequest? && next[j].BuildRequest? ensures Settled(next, i, j) {
      SettledStays(log, Consolidation, i, j);
    }
    forall i | 0 <= i < |next| && next[i].BuildRequest? ensures Settled(next, i, |next|) {
      assert next[|log|].Consolidation?;
    }
  }

  datatype Out =
    | BuildBlock
    | StartTimerToBuildBlock
    | ExecuteBlock(block: Block, round: nat, txs: seq<Tx>)
    | PropagateOldTxs(waiting: seq<Tx>)

  /** The transactions that have waited long enough, in collector order. */
  function Waiting(collector: seq<(Hash, nat)>, pool: Pool, now: nat): seq<Tx> {
    if collector == [] then []
    else
      var (h, age) := collector[0];
      var rest := Waiting(collector[1..], pool, now);
      if now - age >= REPROPAGATE_OLD_TXS_S && h in pool then [pool[h].tx] + rest else rest
  }

  /** The pooled entries of some hashes, in their order. */
  function Found(pool: Pool, hashes: seq<Hash>): seq<Entry> {
    if hashes == [] then []
    else if hashes[0] in pool then [pool[hashes[0]]] + Found(pool, hashes[1..])
    else Found(pool, hashes[1..])
  }

  /** What is found is found hash by hash, in order, and left out where the pool has nothing. */
  lemma {:induction false} FoundLaws(pool: Pool, a: seq<Hash>, b: seq<Hash>)
    ensures Found(pool, []) == []
    ensures forall h :: Found(pool, [h]) == if h in pool then [pool[h]] else []
    ensures Found(pool, a + b) == Found(pool, a) + Found(pool, b)
    decreases |a|
  {
    forall h ensures Found(pool, [h]) == if h in pool then [pool[h]] else [] {
      assert [h][1..] == [];
    }
    if a == [] {
      assert a + b == b;
    } else {
      FoundLaws(pool, a[1..], b);
      assert (a + b)[0] == a[0] && (a + b)[1..] == a[1..] + b;
    }
  }

  /** What waits is decided entry by entry, in order: pooled, and at least 60 seconds old. */
  lemma {:induction false} WaitingLaws(a: seq<(Hash, nat)>, b: seq<(Hash, nat)>, pool: Pool, now: nat)
    ensures Waiting([], pool, now) == []
    ensures forall h, age: nat ::
              Waiting([(h, age)], pool, now) == if now - age >= 60 && h in pool then [pool[h].tx] else []
    ensures Waiting(a + b, pool, now) == Waiting(a, pool, now) + Waiting(b, pool, now)
    decreases |a|
  {
    forall h, age: nat
      ensures Waiting([(h, age)], pool, now) == if now - age >= 60 && h in pool then [pool[h].tx] else []
    {
      assert [(h, age)][1..] == [];
    }
    if a == [] {
      assert a + b == b;
    } else {
      WaitingLaws(a[1..], b, pool, now);
      assert (a + b)[0] == a[0] && (a + b)[1..] == a[1..] + b;
    }
  }

  /** What is sent after a timer, a request to build, both in this order, or nothing. */
  function Asking(sent: seq<Out>, timer: bool, build: bool): seq<Out> {
    var next := if timer then sent + [StartTimerToBuildBlock] else sent;
    if build then next + [BuildBlock] else next
  }

  lemma AskingLaws(sent: seq<Out>)
    ensures Asking(sent, false, false) == sent
    ensures Asking(sent, true, false) == sent + [StartTimerToBuildBlock]
    ensures Asking(sent, false, true) == sent + [BuildBlock]
    ensures Asking(sent, true, true) == sent + [StartTimerToBuildBlock, BuildBlock]
  {
  }

  class TransactionService {
    var alignmentInProgress: bool
    var buildInProgress: bool
    var oldCollector: seq<(Hash, nat)>
    var unconfirmedPool: Pool
    var unconfirmedAttachments: set<Hash>
    var sent: seq<Out>
    ghost var log: seq<Mark>

    ghost predicate Valid()
      reads this
    {
      StoreOk() && PaceOk()
    }

    ghost predicate StoreOk()
      reads this`unconfirmedPool, this`oldCollector
    {
      PoolOk(unconfirmedPool) && CollectorOk(oldCollector, unconfirmedPool.Keys)
    }

    /** The log records the build requests that were sent, and they are paced. */
    ghost predicate PaceOk()
      reads this`log, this`buildInProgress, this`sent
    {
      Paced(log, buildInProgress) && multiset(sent)[BuildBlock] == multiset(log)[BuildRequest]
    }

    constructor ()
      ensures Valid() && unconfirmedPool == map[] && log == [] && sent == [] && oldCollector == []
      ensures !alignmentInProgress && !buildInProgress
    {
      alignmentInProgress, buildInProgress := false, false;
      oldCollector, unconfirmedPool, unconfirmedAttachments, sent, log := [], map[], {}, [], [];
      new;
      assert HashesOf([]) == [];
    }

    /** What was sent since, and recorded: a timer, a request to build, both in this order, or nothing. */
    ghost predicate Asked(sent0: seq<Out>, log0: seq<Mark>, pending0: bool, timer: bool, build: bool)
      reads this`sent, this`log, this`buildInProgress
    {
      && sent == Asking(sent0, timer, build)
      && log == (if build then log0 + [BuildRequest] else log0)
      && buildInProgress == (pending0 || build)
    }

    /** A new verified transaction outside alignment makes the service ask for a timer if it is the only one, and
        for a block if there are three and none was asked for. Anything else makes it ask for nothing. */
    method OnAddTx(e: Entry, now: nat)
      requires Valid()
      modifies this
      ensures Valid() && unconfirmedPool == Insert(old(unconfirmedPool), e)
      ensures alignmentInProgress == old(alignmentInProgress)
      ensures var asks := e.tx.verifies && e.tx.hash !in old(unconfirmedPool) && !alignmentInProgress;
              && Asked(old(sent), old(log), old(buildInProgress),
                       asks && |unconfirmedPool| == 1, asks && |unconfirmedPool| >= 3 && !old(buildInProgress))
              && (asks && |unconfirmedPool| >= 3 ==> buildInProgress)
    {
      if !e.tx.verifies {
        return;
      }
      var isNew := Admit(e, now);
      if isNew {
        CheckWhetherToBuildBlock();
      }
    }

    /** Puts a verified transaction in the pool and, if it is new, in the collector. */
    method Admit(e: Entry, now: nat) returns (isNew: bool)
      requires StoreOk() && e.tx.verifies
      modifies this`unconfirmedPool, this`unconfirmedAttachments, this`oldCollector
      ensures StoreOk() && unconfirmedPool == Insert(old(unconfirmedPool), e)
      ensures isNew == (e.tx.hash !in old(unconfirmedPool))
      ensures oldCollector == old(oldCollector) + if isNew then [(e.tx.hash, now)] else []
    {
      isNew := e.tx.hash !in unconfirmedPool;
      InsertOk(unconfirmedPool, e);
      InsertInPool(e);
      if isNew {
        PushKeeps(oldCollector, old(unconfirmedPool.Keys), (e.tx.hash, now));
        oldCollector := oldCollector + [(e.tx.hash, now)];
      } else {
        assert unconfirmedPool.Keys == old(unconfirmedPool.Keys);
      }
    }

    /** A batch asks as its transactions do one by one: for a timer iff it brings the first transaction, and for a
        block iff it brings a new one, there are then three, and none was asked for before. */
    method OnAddTxs(es: seq<Entry>, now: nat)
      requires Valid()
      modifies this
      ensures Valid() && unconfirmedPool == InsertAll(old(unconfirmedPool), es)
      ensures alignmentInProgress == old(alignmentInProgress)
      ensures var asks := |unconfirmedPool| > |old(unconfirmedPool)| && !alignmentInProgress;
              Asked(old(sent), old(log), old(buildInProgress), asks && |old(unconfirmedPool)| == 0,
                    asks && |unconfirmedPool| >= 3 && !old(buildInProgress))
    {
      for i := 0 to |es|
        invariant Valid() && alignmentInProgress == old(alignmentInProgress)
        invariant |unconfirmedPool| >= |old(unconfirmedPool)|
        invariant InsertAll(unconfirmedPool, es[i..]) == InsertAll(old(unconfirmedPool), es)
        invariant var asks := |unconfirmedPool| > |old(unconfirmedPool)| && !alignmentInProgress;
                  Asked(old(sent), old(log), old(buildInProgress), asks && |old(unconfirmedPool)| == 0,
                        asks && |unconfirmedPool| >= 3 && !old(buildInProgress))
      {
        assert es[i..][1..] == es[i + 1..];
        OnAddTx(es[i], now);
      }
    }

    method OnAlignment(started: bool)
      requires Valid()
      modifies this`alignmentInProgress
      ensures Valid() && alignmentInProgress == started
    {
      alignmentInProgress := started;
    }

    /** Drops the executed transactions and allows the next build request. */
    method OnBlockConsolidated(hashes: seq<Hash>)
      requires Valid()
      modifies this
      ensures Valid() && unconfirmedPool == RemoveAll(old(unconfirmedPool), hashes)
      ensures alignmentInProgress == old(alignmentInProgress)
      ensures var n := |unconfirmedPool|;
              Asked(old(sent), old(log) + [Consolidation], false, 0 < n < 3, n >= 3 && !alignmentInProgress)
    {
      DropExecuted(hashes);
      PaceNextBlock();
    }

    /** Forgets the pending request, then starts a timer for a few leftovers or asks for a block at once. */
    method PaceNextBlock()
      requires PaceOk()
      modifies this`buildInProgress, this`sent, this`log
      ensures PaceOk()
      ensures var n := |unconfirmedPool|;
              Asked(old(sent), old(log) + [Consolidation], false, 0 < n < 3, n >= 3 && !alignmentInProgress)
    {
      AllowNextRequest();
      if unconfirmedPool != map[] && |unconfirmedPool| < MIN_TXS_TO_BUILD {
        StartTimer();
      } else {
        CheckWhetherToBuildBlock();
      }
    }

    method AllowNextRequest()
      requires PaceOk()
      modifies this`buildInProgress, this`log
      ensures PaceOk() && log == old(log) + [Consolidation] && !buildInProgress
    {
      PaceConsolidation(log, buildInProgress);
      buildInProgress, log := false, log + [Consolidation];
    }

    method StartTimer()
      requires PaceOk()
      modifies this`sent
      ensures PaceOk() && sent == old(sent) + [StartTimerToBuildBlock]
    {
      sent := sent + [StartTimerToBuildBlock];
    }

    method DropExecuted(hashes: seq<Hash>)
      requires StoreOk()
      modifies this`unconfirmedPool, this`unconfirmedAttachments, this`oldCollector
      ensures StoreOk()
      ensures unconfirmedPool == RemoveAll(old(unconfirmedPool), hashes)
    {
      for i := 0 to |hashes|
        invariant CollectorOk(oldCollector, unconfirmedPool.Keys)
        invariant unconfirmedPool == RemoveAll(old(unconfirmedPool), hashes[..i])
      {
        RetainKeeps(oldCollector, unconfirmedPool.Keys, hashes[i]);
        assert hashes[..i + 1] == hashes[..i] + [hashes[i]];
        RemoveOne(old(unconfirmedPool), hashes[..i], hashes[i]);
        RemoveFromPool(hashes[i]);
        oldCollector := RetainOthers(oldCollector, hashes[i]);
      }
      assert hashes[..|hashes|] == hashes;
    }

    /** Hands a block's transactions, in order, to execution. Each must be in the pool. */
    method OnCollectBlockTxs(block: Block, round: nat, hashes: seq<Hash>)
      requires Valid() && forall h :: h in hashes ==> h in unconfirmedPool
      modifies this`sent
      ensures Valid() && |sent| == |old(sent)| + 1 && old(sent) < sent
      ensures var out := sent[|old(sent)|];
              && out.ExecuteBlock? && out.block == block && out.round == round && |out.txs| == |hashes|
              && forall i :: 0 <= i < |hashes| ==>
                   && out.txs[i] == unconfirmedPool[hashes[i]].tx
                   && out.txs[i].hash == hashes[i] && out.txs[i].verifies
    {
      var txs := [];
      for i := 0 to |hashes|
        invariant |txs| == i && forall j :: 0 <= j < i ==> txs[j] == unconfirmedPool[hashes[j]].tx
      {
        txs := txs + [unconfirmedPool[hashes[i]].tx];
      }
      sent := sent + [ExecuteBlock(block, round, txs)];
    }

    /** Sends again what has waited long enough, and restarts its waiting time. */
    method OnCheckOldTxs(now: nat)
      requires Valid() && forall x :: x in oldCollector ==> x.1 <= now
      modifies this`oldCollector, this`sent
      ensures Valid() && |oldCollector| == |old(oldCollector)|
      ensures alignmentInProgress ==> oldCollector == old(oldCollector)
      ensures !alignmentInProgress ==>
                forall i :: 0 <= i < |oldCollector| ==>
                  oldCollector[i] == if now - old(oldCollector)[i].1 >= 60 then (old(oldCollector)[i].0, now)
                                     else old(oldCollector)[i]
      ensures !alignmentInProgress ==> forall x :: x in oldCollector ==> now - x.1 < REPROPAGATE_OLD_TXS_S
      ensures var due := if alignmentInProgress then [] else Waiting(old(oldCollector), unconfirmedPool, now);
              sent == if due == [] then old(sent) else old(sent) + [PropagateOldTxs(due)]
    {
      if alignmentInProgress {
        return;
      }
      var c, txs := Renew(oldCollector, unconfirmedPool, now);
      assert HashesOf(c) == HashesOf(oldCollector);
      assert forall i :: 0 <= i < |c| ==> oldCollector[i] in oldCollector;
      oldCollector := c;
      if txs != [] {
        sent := sent + [PropagateOldTxs(txs)];
      }
    }

    static method Renew(collector: seq<(Hash, nat)>, pool: Pool, now: nat) returns (c: seq<(Hash, nat)>, txs: seq<Tx>)
      requires forall x :: x in collector ==> x.1 <= now
      ensures |c| == |collector|
      ensures forall i :: 0 <= i < |c| ==>
                c[i] == if now - collector[i].1 >= 60 then (collector[i].0, now) else collector[i]
      ensures txs == Waiting(collector, pool, now)
    {
      c, txs := collector, [];
      for i := 0 to |collector|
        invariant |c| == |collector| && forall j :: i <= j < |c| ==> c[j] == collector[j]
        invariant forall j :: 0 <= j < i ==>
                    c[j] == if now - collector[j].1 >= 60 then (collector[j].0, now) else collector[j]
        invariant txs + Waiting(collector[i..], pool, now) == Waiting(collector, pool, now)
      {
        assert collector[i..][1..] == collector[i + 1..];
        if now - c[i].1 >= REPROPAGATE_OLD_TXS_S {
          c := c[i := (c[i].0, now)];
          if c[i].0 in pool { txs := txs + [pool[c[i].0].tx]; }
        }
      }
    }

    method GetTxs(hashes: seq<Hash>) returns (found: seq<Entry>)
      ensures found == Found(unconfirmedPool, hashes)
    {
      found := [];
      for i := 0 to |hashes|
        invariant found + Found(unconfirmedPool, hashes[i..]) == Found(unconfirmedPool, hashes)
      {
        assert hashes[i..][1..] == hashes[i + 1..];
        if hashes[i] in unconfirmedPool {
          found := found + [unconfirmedPool[hashes[i]]];
        }
      }
    }

    /** Asking for the transactions of a collected block returns all of them, in order, under their hashes. */
    lemma {:induction false} FoundInOrder(hashes: seq<Hash>)
      requires PoolOk(unconfirmedPool) && forall h :: h in hashes ==> h in unconfirmedPool
      ensures |Found(unconfirmedPool, hashes)| == |hashes|
      ensures forall i :: 0 <= i < |hashes| ==> Found(unconfirmedPool, hashes)[i].tx.hash == hashes[i]
    {
      if hashes != [] {
        FoundInOrder(hashes[1..]);
        assert hashes == [hashes[0]] + hashes[1..];
      }
    }

    /** Lists the pool in whatever order the map yields it. */
    method GetUnconfirmedHashes() returns (list: seq<(Hash, nat)>)
      requires Valid()
      ensures Lists(list, unconfirmedPool)
    {
      list := [];
      var rest := unconfirmedPool.Keys;
      while rest != {}
        invariant rest <= unconfirmedPool.Keys
        invariant forall i, j :: 0 <= i < j < |list| ==> list[i].0 != list[j].0
        invariant forall h, n :: (h, n) in list <==> h in unconfirmedPool && h !in rest && unconfirmedPool[h].size == n
        decreases |rest|
      {
        var h :| h in rest;
        assert forall i :: 0 <= i < |list| ==> (list[i].0, list[i].1) in list;
        list := list + [(h, unconfirmedPool[h].size)];
        rest := rest - {h};
      }
    }

    /** Asks for a timer at the first transaction and for one block at a time once there are enough. */
    method CheckWhetherToBuildBlock()
      requires PaceOk()
      modifies this`buildInProgress, this`sent, this`log
      ensures PaceOk()
      ensures Asked(old(sent), old(log), old(buildInProgress), !alignmentInProgress && |unconfirmedPool| == 1,
                    !alignmentInProgress && |unconfirmedPool| >= MIN_TXS_TO_BUILD && !old(buildInProgress))
    {
      if alignmentInProgress {
        return;
      }
      if |unconfirmedPool| == 1 {
        StartTimer();
      }
      if |unconfirmedPool| >= MIN_TXS_TO_BUILD && !buildInProgress {
        PaceRequest(log);
        buildInProgress, log := true, log + [BuildRequest];
        sent := sent + [BuildBlock];
      }
    }

    method InsertInPool(e: Entry)
      modifies this`unconfirmedPool, this`unconfirmedAttachments
      ensures unconfirmedPool == old(unconfirmedPool)[e.tx.hash := e]
      ensures unconfirmedAttachments == old(unconfirmedAttachments)
                                        + if e.attachments.Some? then Elements(e.attachments.value) else {}
    {
      if e.attachments.Some? {
        unconfirmedAttachments := unconfirmedAttachments + Elements(e.attachments.value);
      }
      unconfirmedPool := unconfirmedPool[e.tx.hash := e];
    }

    method RemoveFromPool(h: Hash)
      modifies this`unconfirmedPool, this`unconfirmedAttachments
      ensures unconfirmedPool == old(unconfirmedPool) - {h}
    {
      if h in unconfirmedPool && unconfirmedPool[h].attachments.Some? {
        unconfirmedAttachments := unconfirmedAttachments - Elements(unconfirmedPool[h].attachments.value);
      }
      unconfirmedPool := unconfirmedPool - {h};
    }
  }
}
