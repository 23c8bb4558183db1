/** The block service and the transaction service, talking through the latter's FIFO queue. */
module BlockProtocol {
  import opened Common
  import opened TransactionService
  import opened BlockService

  /** How a block came by its transactions: built here, or from a peer, where either nothing was missing or the
      reply brought as many different hashes as were asked for, or neither. */
  datatype Origin = Local | FromPeer(complete: bool)

  /** What waits in the transaction service's queue. Each listing request has its own reply channel. A collection
      remembers where its block came from; the service does not look at that. */
  datatype QMsg =
    | Add(entries: seq<Entry>)
    | Consolidated(hashes: seq<Hash>)
    | ListPool(ticket: nat)
    | Collect(block: Block, round: nat, hashes: seq<Hash>, origin: Origin)
    | Quiet  // alignment notices, re-propagation, requests of other services

  /** What the block service is in the middle of. It handles nothing else meanwhile. */
  datatype Phase =
    | Idle
    | Building(ticket: nat)
    | Executing(ticket: nat, block: Block, hashes: seq<Hash>, local: bool)
    | Fetching(block: Block, hashes: seq<Hash>, missing: seq<Hash>, local: bool)

  datatype Sys = Sys(
    pool: Pool, queue: seq<QMsg>, phase: Phase, tickets: nat, round: nat,
    tip: Block,            // the last consolidated block
    offered: set<Block>,   // blocks sent for execution on top of it
    chain: seq<Block>)     // every block consolidated so far, in order

  datatype Action =
    | Arrive(msg: QMsg)
    | StartBuild
    | AcceptBlock(block: Block, hashes: seq<Hash>)
    | Adopt(block: Block, hashes: seq<Hash>)
    | RefreshRound(round: nat)
    | Fetched(reply: seq<Entry>)
    | GiveUp
    | HandleQuiet
    | HandleBuildList(list: seq<(Hash, nat)>, block: Block, hashes: seq<Hash>)
    | HandleExecuteList(list: seq<(Hash, nat)>)

  function PoolAfter(pool: Pool, m: QMsg): Pool {
    match m
    case Add(es) => InsertAll(pool, es)
    case Consolidated(hs) => RemoveAll(pool, hs)
    case _ => pool
  }

  ghost predicate Finds(pool: Pool, hashes: seq<Hash>) {
    forall h :: h in hashes ==> h in pool
  }

  ghost predicate Extends(block: Block, tip: Block) {
    block.height == tip.height + 1 && block.prevHash == tip.hash
  }

  /** Whether the oldest message is the listing the block service waits for. */
  predicate Awaited(s: Sys) {
    && s.queue != [] && s.queue[0].ListPool?
    && (s.phase.Building? || s.phase.Executing?) && s.phase.ticket == s.queue[0].ticket
  }

  ghost predicate Allowed(s: Sys, a: Action) {
    match a
    case Arrive(m) => m.Add? || m.Quiet?
    case StartBuild => s.phase.Idle?
    case AcceptBlock(b, _) => s.phase.Idle? && Extends(b, s.tip)
    case Adopt(b, _) => s.phase.Idle? && exists x :: x in s.offered && x.height == b.height && x.prevHash == b.prevHash
    case RefreshRound(_) => s.phase.Idle?
    case Fetched(reply) => s.phase.Fetching? && Accepted(s.phase.missing, reply)
    case GiveUp => !s.phase.Idle?
    case HandleQuiet => s.queue != [] && !Awaited(s) && (s.queue[0].Collect? ==> Finds(s.pool, s.queue[0].hashes))
    case HandleBuildList(list, b, hs) =>
      Awaited(s) && s.phase.Building? && Lists(list, s.pool) && Extends(b, s.tip) && Packed(list, hs)
    case HandleExecuteList(list) => Awaited(s) && s.phase.Executing? && Lists(list, s.pool)
  }

  function Ask(s: Sys, phase: Phase): Sys {
    s.(phase := phase, queue := s.queue + [ListPool(s.tickets)], tickets := s.tickets + 1)
  }

  function OriginOf(local: bool, complete: bool): Origin {
    if local then Local else FromPeer(complete)
  }

  function Offer(s: Sys, block: Block, hashes: seq<Hash>, origin: Origin): Sys {
    s.(phase := Idle, queue := s.queue + [Collect(block, s.round, hashes, origin)], offered := s.offered + {block})
  }

  ghost function After(s: Sys, a: Action): Sys
    requires Allowed(s, a)
  {
    match a
    case Arrive(m) => s.(queue := s.queue + [m])
    case StartBuild => Ask(s, Building(s.tickets))
    case AcceptBlock(b, hs) => Ask(s, Executing(s.tickets, b, hs, false))
    case Adopt(b, hs) =>
      s.(tip := b, offered := {}, chain := s.chain + [b], round := 0, queue := s.queue + [Consolidated(hs)])
    case RefreshRound(r) => s.(round := if s.round < r then r else s.round)
    case Fetched(reply) =>
      Offer(s.(queue := s.queue + [Add(reply)]), s.phase.block, s.phase.hashes,
            OriginOf(s.phase.local, AsManyDifferent(s.phase.missing, reply)))
    case GiveUp => s.(phase := Idle)
    case HandleQuiet => s.(pool := PoolAfter(s.pool, s.queue[0]), queue := s.queue[1..])
    case HandleBuildList(_, b, hs) => Ask(s.(queue := s.queue[1..]), Executing(s.tickets, b, hs, true))
    case HandleExecuteList(list) =>
      var s1 := s.(queue := s.queue[1..]);
      var missing := Missing(s.phase.hashes, list);
      if missing == [] then Offer(s1, s.phase.block, s.phase.hashes, OriginOf(s.phase.local, true))
      else s1.(phase := Fetching(s.phase.block, s.phase.hashes, missing, s.phase.local))
  }

  ghost predicate Init(s: Sys) {
    && s.pool == map[] && s.queue == [] && s.phase.Idle? && s.offered == {} && s.chain == [s.tip]
  }

  /** The states of a run and the actions between them. */
  ghost predicate Run(run: seq<Sys>, actions: seq<Action>) {
    && |run| == |actions| + 1 && Init(run[0])
    && forall i :: 0 <= i < |actions| ==> Allowed(run[i], actions[i]) && run[i + 1] == After(run[i], actions[i])
  }

  // ---------- the queue ----------

  ghost function PoolAfterAll(pool: Pool, queue: seq<QMsg>): Pool
    decreases |queue|
  {
    if queue == [] then pool else PoolAfterAll(PoolAfter(pool, queue[0]), queue[1..])
  }

  /** A collection for a local block, or for a peer's block whose transactions were complete. */
  predicate Supplied(m: QMsg) {
    m.Collect? && (m.origin.Local? || m.origin.complete)
  }

  /** Every supplied collection in the queue will find its transactions when its turn comes. */
  ghost predicate AllFound(pool: Pool, queue: seq<QMsg>)
    decreases |queue|
  {
    queue != [] ==>
      && (Supplied(queue[0]) ==> Finds(pool, queue[0].hashes))
      && AllFound(PoolAfter(pool, queue[0]), queue[1..])
  }

  ghost predicate NoRemovals(queue: seq<QMsg>) {
    forall m :: m in queue ==> !m.Consolidated?
  }

  lemma {:induction false} EnqueueFound(pool: Pool, queue: seq<QMsg>, m: QMsg)
    requires AllFound(pool, queue)
    ensures AllFound(pool, queue + [m]) <==> (Supplied(m) ==> Finds(PoolAfterAll(pool, queue), m.hashes))
    ensures PoolAfterAll(pool, queue + [m]) == PoolAfter(PoolAfterAll(pool, queue), m)
    decreases |queue|
  {
    if queue == [] {
      assert [m][1..] == [];
    } else {
      EnqueueFound(PoolAfter(pool, queue[0]), queue[1..], m);
      assert (queue + [m])[1..] == queue[1..] + [m];
    }
  }

  lemma {:induction false} InsertAllKeys(pool: Pool, es: seq<Entry>)
    ensures pool.Keys <= InsertAll(pool, es).Keys
    ensures forall h :: h in InsertAll(pool, es) <==>
                          h in pool || exists e :: e in es && e.tx.verifies && e.tx.hash == h
    decreases |es|
  {
    if es != [] {
      InsertAllKeys(Insert(pool, es[0]), es[1..]);
      assert es == [es[0]] + es[1..];
    }
  }

  lemma {:induction false} KeysStay(pool: Pool, queue: seq<QMsg>)
    requires NoRemovals(queue)
    ensures pool.Keys <= PoolAfterAll(pool, queue).Keys
    decreases |queue|
  {
    if queue != [] {
      if queue[0].Add? { InsertAllKeys(pool, queue[0].entries); }
      KeysStay(PoolAfter(pool, queue[0]), queue[1..]);
    }
  }

  // ---------- the invariant ----------

  /** Nothing is removed from the pool after the listing with this ticket. */
  ghost predicate Guarded(queue: seq<QMsg>, ticket: nat) {
    forall i, j :: 0 <= i < j < |queue| && queue[i] == ListPool(ticket) ==> !queue[j].Consolidated?
  }

  ghost predicate PhaseOk(s: Sys) {
    match s.phase
    case Idle => true
    case Building(t) => Guarded(s.queue, t) && t < s.tickets
    case Executing(t, b, hs, local) =>
      && Guarded(s.queue, t) && t < s.tickets && Extends(b, s.tip)
      && (local ==> NoRemovals(s.queue) && Finds(s.pool, hs))
    case Fetching(b, hs, missing, local) =>
      && !local && NoRemovals(s.queue) && Extends(b, s.tip)
      && forall h :: h in hs ==> h in missing || h in s.pool
  }

  ghost predicate Linked(chain: seq<Block>) {
    forall i :: 0 < i < |chain| ==> Extends(chain[i], chain[i - 1])
  }

  ghost predicate Inv(s: Sys) {
    && (forall m :: m in s.queue && m.ListPool? ==> m.ticket < s.tickets)
    && PhaseOk(s)
    && (forall b :: b in s.offered ==> Extends(b, s.tip))
    && s.chain != [] && s.chain[|s.chain| - 1] == s.tip && Linked(s.chain)
  }

  lemma StepKeeps(s: Sys, a: Action)
    requires Inv(s) && Allowed(s, a)
    ensures Inv(After(s, a))
  {
    assert forall i :: 0 <= i < |s.queue| ==> s.queue[i] in s.queue;
    match a
    case HandleQuiet => PopKeeps(s);
    case HandleBuildList(_, _, _) => ListedKeeps(s, a);
    case HandleExecuteList(_) => ListedKeeps(s, a);
    case _ =>
  }

  lemma PopKeeps(s: Sys)
    requires Inv(s) && s.queue != [] && !Awaited(s)
    ensures Inv(s.(pool := PoolAfter(s.pool, s.queue[0]), queue := s.queue[1..]))
  {
    var m, rest := s.queue[0], s.queue[1..];
    assert m in s.queue;
    if m.Add? { InsertAllKeys(s.pool, m.entries); }
    assert forall i :: 0 <= i < |rest| ==> rest[i] == s.queue[i + 1];
  }

  /** After the awaited listing nothing is removed from the pool, so what it lists stays there. */
  lemma ListedKeeps(s: Sys, a: Action)
    requires Inv(s) && Allowed(s, a) && (a.HandleBuildList? || a.HandleExecuteList?)
    ensures NoRemovals(s.queue[1..])
    ensures Inv(After(s, a))
  {
    var rest := s.queue[1..];
    forall m | m in rest ensures !m.Consolidated? && m in s.queue {
      var j :| 0 <= j < |rest| && rest[j] == m;
      assert s.queue[0] == ListPool(s.phase.ticket) && s.queue[j + 1] == m;
    }
    assert forall i :: 0 <= i < |rest| ==> rest[i] in rest;
    if a.HandleBuildList? {
      PackedInPool(a.list, s.pool, a.hashes);
    } else {
      ListedOrMissing(s, a.list);
    }
  }

  lemma ListedOrMissing(s: Sys, list: seq<(Hash, nat)>)
    requires s.phase.Executing? && Lists(list, s.pool)
    ensures forall h :: h in s.phase.hashes ==> (h in Missing(s.phase.hashes, list) <==> h !in s.pool)
    ensures Missing(s.phase.hashes, list) == [] <==> Finds(s.pool, s.phase.hashes)
  {
    MissingContents(s.phase.hashes, list);
    forall h | h in s.phase.hashes ensures h in Missing(s.phase.hashes, list) <==> h !in s.pool {
      if h in s.pool { assert (h, s.pool[h].size) in list; }
    }
    if Missing(s.phase.hashes, list) != [] {
      assert Missing(s.phase.hashes, list)[0] in Missing(s.phase.hashes, list);
    }
  }

  lemma {:induction false} RunKeeps(run: seq<Sys>, actions: seq<Action>)
    requires Run(run, actions)
    ensures Inv(run[|run| - 1])
    decreases |run|
  {
    if actions != [] {
      var n := |actions| - 1;
      RunKeeps(run[..n + 1], actions[..n]);
      StepKeeps(run[n], actions[n]);
    }
  }

  // ---------- what the services tell each other ----------

  /** The service waits for a listing of its own, behind everything queued so far. */
  ghost predicate Asks(s: Sys, t: Sys, phase: Phase) {
    t == s.(phase := phase, queue := s.queue + [ListPool(s.tickets)], tickets := s.tickets + 1)
  }

  /** The answers of the block service. A block to execute is collected at once if the pool has all its
      transactions, and otherwise exactly the missing ones are asked for; an accepted reply is queued in front of
      the collection; an adopted block's hashes are queued for removal. */
  lemma BlockServiceAnswers(s: Sys, a: Action)
    requires Allowed(s, a)
    ensures var t := After(s, a);
            match a
            case Arrive(m) => t == s.(queue := s.queue + [m])
            case StartBuild => Asks(s, t, Building(s.tickets))
            case AcceptBlock(b, hs) => Asks(s, t, Executing(s.tickets, b, hs, false))
            case HandleBuildList(_, b, hs) =>
              Asks(s.(queue := s.queue[1..]), t, Executing(s.tickets, b, hs, true))
            case HandleExecuteList(list) =>
              var p := s.phase;
              if Finds(s.pool, p.hashes)
              then t == s.(phase := Idle, offered := s.offered + {p.block},
                           queue := s.queue[1..]
                                    + [Collect(p.block, s.round, p.hashes, if p.local then Local else FromPeer(true))])
              else && t.phase.Fetching? && t == s.(queue := s.queue[1..], phase := t.phase)
                   && t.phase.block == p.block && t.phase.hashes == p.hashes && t.phase.local == p.local
                   && forall h :: h in t.phase.missing <==> h in p.hashes && h !in s.pool
            case Fetched(reply) =>
              && t.pool == s.pool && t.phase == Idle && t.offered == s.offered + {s.phase.block}
              && |t.queue| == |s.queue| + 2 && t.queue[..|s.queue|] == s.queue && t.queue[|s.queue|] == Add(reply)
              && var c := t.queue[|s.queue| + 1];
                 c.Collect? && c.block == s.phase.block && c.round == s.round && c.hashes == s.phase.hashes
            case Adopt(b, hs) =>
              && t.tip == b && t.chain == s.chain + [b] && t.round == 0 && t.offered == {}
              && t.queue == s.queue + [Consolidated(hs)] && t.pool == s.pool && t.phase == s.phase
            case RefreshRound(r) => t == s.(round := t.round) && t.round >= r && t.round >= s.round
                                    && (t.round == r || t.round == s.round)
            case GiveUp => t == s.(phase := Idle)
            case HandleQuiet => t == s.(pool := t.pool, queue := s.queue[1..])
  {
    if a.HandleExecuteList? {
      ListedOrMissing(s, a.list);
      MissingContents(s.phase.hashes, a.list);
    }
  }

  /** What the transaction service's oldest message does to the pool: added transactions that verify are in it under
      their hashes, consolidated ones are not, and nothing else changes. */
  lemma PoolAnswers(s: Sys)
    requires Allowed(s, HandleQuiet)
    ensures var t, m := After(s, HandleQuiet), s.queue[0];
            && (m.Add? ==> forall h :: h in t.pool <==>
                             h in s.pool || exists e :: e in m.entries && e.tx.verifies && e.tx.hash == h)
            && (m.Add? ==> forall h :: h in t.pool ==>
                             || (h in s.pool && t.pool[h] == s.pool[h])
                             || (t.pool[h] in m.entries && t.pool[h].tx.verifies && t.pool[h].tx.hash == h))
            && (m.Consolidated? ==> forall h :: h in t.pool <==> h in s.pool && h !in m.hashes)
            && (m.Consolidated? ==> forall h :: h in t.pool ==> t.pool[h] == s.pool[h])
            && (!m.Add? && !m.Consolidated? ==> t.pool == s.pool)
  {
    if s.queue[0].Add? {
      InsertAllKeys(s.pool, s.queue[0].entries);
      InsertAllEntries(s.pool, s.queue[0].entries);
    }
  }

  lemma {:induction false} InsertAllEntries(pool: Pool, es: seq<Entry>)
    ensures forall h :: h in InsertAll(pool, es) ==>
              var e := InsertAll(pool, es)[h];
              (h in pool && e == pool[h]) || (e in es && e.tx.verifies && e.tx.hash == h)
    decreases |es|
  {
    if es != [] {
      InsertAllEntries(Insert(pool, es[0]), es[1..]);
      assert es == [es[0]] + es[1..];
    }
  }

  // ---------- what collections find ----------

  /** The collection queued behind an accepted reply will find everything in its turn, exactly if each missing
      hash is in the reply or already on its way. */
  lemma FetchedIff(s: Sys, reply: seq<Entry>)
    requires Inv(s) && Allowed(s, Fetched(reply))
    ensures Finds(PoolAfterAll(s.pool, s.queue + [Add(reply)]), s.phase.hashes) <==>
            forall h :: h in s.phase.hashes && h in s.phase.missing ==>
                          h in ReplyHashes(reply) || h in PoolAfterAll(s.pool, s.queue)
  {
    AddLast(s.pool, s.queue, reply);
    KeysStay(s.pool, s.queue);
    var last := PoolAfterAll(s.pool, s.queue);
    InsertAllKeys(last, reply);
    forall h | h in s.phase.hashes
      ensures h in InsertAll(last, reply) <==> h in ReplyHashes(reply) || h in last
    {
      ReplyEntries(reply, h);
      assert forall e :: e in reply ==> e.tx.verifies;
    }
  }

  lemma {:induction false} AddLast(pool: Pool, queue: seq<QMsg>, es: seq<Entry>)
    ensures PoolAfterAll(pool, queue + [Add(es)]) == InsertAll(PoolAfterAll(pool, queue), es)
    decreases |queue|
  {
    if queue == [] {
      assert [Add(es)][1..] == [];
    } else {
      AddLast(PoolAfter(pool, queue[0]), queue[1..], es);
      assert (queue + [Add(es)])[1..] == queue[1..] + [Add(es)];
    }
  }

  lemma ReplyEntries(reply: seq<Entry>, h: Hash)
    ensures h in ReplyHashes(reply) <==> exists e :: e in reply && e.tx.hash == h
  {
    if e :| e in reply && e.tx.hash == h {
      var i :| 0 <= i < |reply| && reply[i] == e;
      assert ReplyHashes(reply)[i] == h;
    }
    if h in ReplyHashes(reply) {
      var i :| 0 <= i < |reply| && ReplyHashes(reply)[i] == h;
      assert reply[i] in reply;
    }
  }

  /** No step queues a supplied collection that would not find its transactions. */
  lemma FoundKeeps(s: Sys, a: Action)
    requires Inv(s) && AllFound(s.pool, s.queue) && Allowed(s, a)
    ensures AllFound(After(s, a).pool, After(s, a).queue)
  {
    match a
    case Arrive(m) => EnqueueFound(s.pool, s.queue, m);
    case StartBuild => EnqueueFound(s.pool, s.queue, ListPool(s.tickets));
    case AcceptBlock(b, hs) => EnqueueFound(s.pool, s.queue, ListPool(s.tickets));
    case Adopt(b, hs) => EnqueueFound(s.pool, s.queue, Consolidated(hs));
    case RefreshRound(_) =>
    case Fetched(reply) =>
      ReplyCompleteIff(s.phase.missing, reply);
      FetchedIff(s, reply);
      EnqueueFound(s.pool, s.queue, Add(reply));
      var origin := OriginOf(s.phase.local, AsManyDifferent(s.phase.missing, reply));
      EnqueueFound(s.pool, s.queue + [Add(reply)], Collect(s.phase.block, s.round, s.phase.hashes, origin));
    case GiveUp =>
    case HandleQuiet =>
    case HandleBuildList(_, b, hs) => EnqueueFound(s.pool, s.queue[1..], ListPool(s.tickets));
    case HandleExecuteList(list) =>
      ListedKeeps(s, a);
      ListedOrMissing(s, list);
      KeysStay(s.pool, s.queue[1..]);
      EnqueueFound(s.pool, s.queue[1..],
                   Collect(s.phase.block, s.round, s.phase.hashes, OriginOf(s.phase.local, true)));
  }

  lemma {:induction false} RunFound(run: seq<Sys>, actions: seq<Action>)
    requires Run(run, actions)
    ensures var s := run[|run| - 1]; AllFound(s.pool, s.queue)
    decreases |run|
  {
    if actions != [] {
      var n := |actions| - 1;
      RunFound(run[..n + 1], actions[..n]);
      RunKeeps(run[..n + 1], actions[..n]);
      FoundKeeps(run[n], actions[n]);
    }
  }

  // ---------- theorems about every run ----------

  /** Collecting the transactions of a locally built block always finds them, whatever was queued in between and
      whatever peers replied, and so does collecting those of a peer's block whose own reply was complete. */
  lemma CollectAlwaysFinds(run: seq<Sys>, actions: seq<Action>)
    requires Run(run, actions)
    requires var s := run[|run| - 1]; s.queue != [] && s.queue[0].Collect?
    ensures var s := run[|run| - 1];
            s.queue[0].origin.Local? || s.queue[0].origin.complete ==>
              forall h :: h in s.queue[0].hashes ==> h in s.pool
  {
    RunFound(run, actions);
  }

  /** The promise ends there: a reply that names one of two missing transactions twice is accepted, and the
      collection queued behind it comes to its turn without the other. */
  lemma CollectWitness(tip: Block, b: Block, e: Entry, other: Hash) returns (run: seq<Sys>, actions: seq<Action>)
    requires Extends(b, tip) && e.tx.verifies && e.tx.hash != other
    ensures Run(run, actions)
    ensures var s := run[|run| - 1];
            s.queue == [Collect(b, 0, [e.tx.hash, other], FromPeer(false))] && other !in s.pool
  {
    var hashes := [e.tx.hash, other];
    var s0 := Sys(map[], [], Idle, 0, 0, tip, {}, [tip]);
    var s1 := s0.(queue := [ListPool(0)], phase := Executing(0, b, hashes, false), tickets := 1);
    var s2 := s1.(queue := [], phase := Fetching(b, hashes, hashes, false));
    var c := Collect(b, 0, hashes, FromPeer(false));
    var s3 := s2.(queue := [Add([e, e]), c], phase := Idle, offered := {b});
    var s4 := s3.(queue := [c], pool := map[e.tx.hash := e]);
    assert Allowed(s0, AcceptBlock(b, hashes)) && s1 == After(s0, AcceptBlock(b, hashes));
    WitnessFetching(s1, b, hashes);
    WitnessReply(s2, b, e, other);
    run, actions := [s0], [];
    run, actions := Extended(run, actions, AcceptBlock(b, hashes), s1);
    run, actions := Extended(run, actions, HandleExecuteList([]), s2);
    run, actions := Extended(run, actions, Fetched([e, e]), s3);
    run, actions := Extended(run, actions, HandleQuiet, s4);
  }

  lemma Extended(run: seq<Sys>, actions: seq<Action>, a: Action, s: Sys) returns (r: seq<Sys>, b: seq<Action>)
    requires Run(run, actions) && Allowed(run[|run| - 1], a) && s == After(run[|run| - 1], a)
    ensures Run(r, b) && r[|r| - 1] == s
  {
    r, b := run + [s], actions + [a];
  }

  lemma WitnessFetching(s: Sys, b: Block, hashes: seq<Hash>)
    requires s.pool == map[] && s.queue == [ListPool(0)] && s.phase == Executing(0, b, hashes, false) && |hashes| == 2
    ensures Allowed(s, HandleExecuteList([]))
    ensures After(s, HandleExecuteList([])) == s.(queue := [], phase := Fetching(b, hashes, hashes, false))
  {
    assert hashes[1..] == [hashes[1]] && hashes == [hashes[0]] + hashes[1..] && hashes[1..][1..] == [];
    assert Missing(hashes[1..], []) == [hashes[1]] + Missing(hashes[1..][1..], []) == [hashes[1]];
    assert Missing(hashes, []) == [hashes[0]] + Missing(hashes[1..], []) == hashes;
    assert s.queue[1..] == [];
  }

  lemma WitnessReply(s: Sys, b: Block, e: Entry, other: Hash)
    requires e.tx.verifies && e.tx.hash != other
    requires var hashes := [e.tx.hash, other];
             s.pool == map[] && s.queue == [] && s.phase == Fetching(b, hashes, hashes, false) && s.round == 0
    ensures Allowed(s, Fetched([e, e]))
    ensures var t, c := After(s, Fetched([e, e])), Collect(b, 0, [e.tx.hash, other], FromPeer(false));
            && t == s.(queue := [Add([e, e]), c], phase := Idle, offered := s.offered + {b})
            && Allowed(t, HandleQuiet)
            && After(t, HandleQuiet) == t.(queue := [c], pool := map[e.tx.hash := e])
  {
    var hashes := [e.tx.hash, other];
    RepeatedReplyWitness(e, other);
    ReplyCompleteIff(hashes, [e, e]);
    assert other in hashes;
    assert InsertAll(map[], [e, e]) == InsertAll(Insert(map[], e), [e]) by { assert [e, e][1..] == [e]; }
    assert InsertAll(Insert(map[], e), [e]) == Insert(Insert(map[], e), e) by { assert [e][1..] == []; }
    var c := Collect(b, 0, hashes, FromPeer(false));
    assert [Add([e, e]), c][1..] == [c];
    assert [] + [Add([e, e])] + [c] == [Add([e, e]), c];
  }

  /** A locally built block never has to ask peers for transactions. */
  lemma LocalBlockComplete(run: seq<Sys>, actions: seq<Action>, list: seq<(Hash, nat)>)
    requires Run(run, actions)
    requires var s := run[|run| - 1]; s.phase.Executing? && s.phase.local && Lists(list, s.pool)
    ensures Missing(run[|run| - 1].phase.hashes, list) == []
  {
    var s := run[|run| - 1];
    RunKeeps(run, actions);
    ListedOrMissing(s, list);
  }

  /** Blocks are offered for execution only on top of the tip, and the consolidated blocks form one
      hash-linked chain of consecutive heights. */
  lemma ChainGrowth(run: seq<Sys>, actions: seq<Action>)
    requires Run(run, actions)
    ensures var s := run[|run| - 1];
            && (forall b :: b in s.offered ==> b.height == s.tip.height + 1 && b.prevHash == s.tip.hash)
            && (forall i :: 0 < i < |s.chain| ==>
                  s.chain[i].height == s.chain[i - 1].height + 1 && s.chain[i].prevHash == s.chain[i - 1].hash)
            && (forall i :: 0 <= i < |s.chain| ==> s.chain[i].height == s.chain[0].height + i)
  {
    RunKeeps(run, actions);
    ConsecutiveHeights(run[|run| - 1].chain);
  }

  lemma {:induction false} ConsecutiveHeights(chain: seq<Block>)
    requires Linked(chain)
    ensures forall i :: 0 <= i < |chain| ==> chain[i].height == chain[0].height + i
  {
    if |chain| > 1 {
      var n := |chain| - 1;
      ConsecutiveHeights(chain[..n]);
      assert chain[..n][n - 1] == chain[n - 1] && chain[..n][0] == chain[0];
    }
  }
}
