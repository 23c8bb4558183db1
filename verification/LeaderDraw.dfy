/** The deterministic generator service and the weighted draw of the next leader. */
module LeaderDraw {
  import opened Common
  import opened Multihash
  import opened Seed

  // ---------- weighted player ids ----------

  function Sum(ws: seq<nat>): nat {
    if ws == [] then 0 else ws[0] + Sum(ws[1..])
  }

  function Repeat(id: PlayerId, n: nat): seq<PlayerId> {
    seq(n, _ => id)
  }

  /** Each id repeated as often as its weight says; surplus ids or weights are ignored. */
  function Expand(ids: seq<PlayerId>, ws: seq<nat>): seq<PlayerId> {
    if ids == [] || ws == [] then [] else Repeat(ids[0], ws[0]) + Expand(ids[1..], ws[1..])
  }

  lemma {:induction false} ExpandLength(ids: seq<PlayerId>, ws: seq<nat>)
    requires |ids| == |ws|
    ensures |Expand(ids, ws)| == Sum(ws)
  {
    if ids != [] { ExpandLength(ids[1..], ws[1..]); }
  }

  /** Entry `k` is the player whose interval of prefix sums contains `k`. */
  lemma {:induction false} EntryOwner(ids: seq<PlayerId>, ws: seq<nat>, i: nat, k: nat)
    requires |ids| == |ws| && i < |ids|
    requires Sum(ws[..i]) <= k < Sum(ws[..i + 1])
    ensures k < |Expand(ids, ws)| && Expand(ids, ws)[k] == ids[i]
  {
    assert ws[..i + 1][1..] == ws[1..][..i];
    if i > 0 {
      assert ws[..i][1..] == ws[1..][..i - 1];
      EntryOwner(ids[1..], ws[1..], i - 1, k - ws[0]);
    } else {
      ExpandLength(ids, ws);
      assert ws[..1][1..] == [];
    }
  }

  /** Every draw falls in exactly such an interval. */
  lemma {:induction false} EntryHasOwner(ws: seq<nat>, k: nat) returns (i: nat)
    requires k < Sum(ws)
    ensures i < |ws| && Sum(ws[..i]) <= k < Sum(ws[..i + 1])
  {
    if k < ws[0] {
      i := 0;
      assert ws[..1][1..] == [];
    } else {
      var j := EntryHasOwner(ws[1..], k - ws[0]);
      i := j + 1;
      assert ws[..i][1..] == ws[1..][..j] && ws[..i + 1][1..] == ws[1..][..j + 1];
    }
  }

  lemma {:induction false} RepeatCount(id: PlayerId, n: nat, x: PlayerId)
    ensures multiset(Repeat(id, n))[x] == if x == id then n else 0
  {
    if n > 0 {
      RepeatCount(id, n - 1, x);
      assert Repeat(id, n) == Repeat(id, n - 1) + [id];
    }
  }

  /** A player owns exactly its weight in draws; a stranger owns none. */
  lemma {:induction false} OwnedDraws(ids: seq<PlayerId>, ws: seq<nat>, x: PlayerId)
    requires |ids| == |ws| && NoRepeats(ids)
    ensures forall i :: 0 <= i < |ids| && ids[i] == x ==> multiset(Expand(ids, ws))[x] == ws[i]
    ensures x !in ids ==> multiset(Expand(ids, ws))[x] == 0
  {
    if ids != [] {
      OwnedDraws(ids[1..], ws[1..], x);
      RepeatCount(ids[0], ws[0], x);
      assert multiset(Expand(ids, ws)) == multiset(Repeat(ids[0], ws[0])) + multiset(Expand(ids[1..], ws[1..]));
      assert ids == [ids[0]] + ids[1..];
      forall i | 0 <= i < |ids| && ids[i] == x ensures multiset(Expand(ids, ws))[x] == ws[i] {
        if i == 0 {
          assert x !in ids[1..];
        } else {
          assert ids[1..][i - 1] == x && ws[1..][i - 1] == ws[i];
        }
      }
    }
  }

  class Players {
    var playersIds: seq<PlayerId>
    var weights: seq<nat>

    constructor (ids: seq<PlayerId>, weights: seq<nat>)
      ensures playersIds == ids && this.weights == weights
    {
      playersIds := ids;
      this.weights := weights;
    }

    method GetWeightedPlayerIds() returns (r: seq<PlayerId>)
      ensures r == Expand(playersIds, weights)
    {
      r := [];
      var n := if |playersIds| <= |weights| then |playersIds| else |weights|;
      for i := 0 to n
        invariant r + Expand(playersIds[i..], weights[i..]) == Expand(playersIds, weights)
      {
        ghost var before := r;
        for j := 0 to weights[i]
          invariant r == before + Repeat(playersIds[i], j)
        {
          r := r + [playersIds[i]];
        }
        assert playersIds[i..][1..] == playersIds[i + 1..] && weights[i..][1..] == weights[i + 1..];
      }
    }

    /** Adds a player unless the id is known: ids stay distinct and keep their weights. */
    method PushPlayer(id: PlayerId, weight: nat)
      requires |playersIds| == |weights| && NoRepeats(playersIds)
      modifies this
      ensures |playersIds| == |weights| && NoRepeats(playersIds) && id in playersIds
      ensures playersIds == if id in old(playersIds) then old(playersIds) else old(playersIds) + [id]
      ensures weights == if id in old(playersIds) then old(weights) else old(weights) + [weight]
      ensures Sum(weights) == Sum(old(weights)) + if id in old(playersIds) then 0 else weight
    {
      if id !in playersIds {
        SumPush(weights, weight);
        playersIds := playersIds + [id];
        weights := weights + [weight];
      }
    }

    static lemma {:induction false} SumPush(ws: seq<nat>, w: nat)
      ensures Sum(ws + [w]) == Sum(ws) + w
    {
      if ws == [] {
        assert ([w])[1..] == [];
      } else {
        SumPush(ws[1..], w);
        assert (ws + [w])[1..] == ws[1..] + [w];
      }
    }
  }

  // ---------- the generator ----------

  /** The foreign generator: a state for every seed, and the next word of a state. */
  datatype Pcg<!R> = Pcg(seed: Word -> R, next: R -> (Word, R))

  /** The number a word stands for. */
  function Value(w: seq<byte>): nat {
    if w == [] then 0 else 256 * Value(w[..|w| - 1]) + w[|w| - 1] as nat
  }

  function Pow256(n: nat): nat {
    if n == 0 then 1 else 256 * Pow256(n - 1)
  }

  /** The bytes are the digits of the number to base 256, the most significant ones first. */
  lemma {:induction false} ValueLaws(a: seq<byte>, b: seq<byte>)
    ensures Value([]) == 0
    ensures forall x: byte :: Value([x]) == x as nat
    ensures Value(a + b) == Value(a) * Pow256(|b|) + Value(b)
    decreases |b|
  {
    forall x: byte ensures Value([x]) == x as nat {
      assert [x][..0] == [];
    }
    if b == [] {
      assert a + b == a;
    } else {
      var n := |b| - 1;
      ValueLaws(a, b[..n]);
      assert (a + b)[..|a + b| - 1] == a + b[..n] && (a + b)[|a + b| - 1] == b[n];
      Shift(Value(a), Pow256(n));
    }
  }

  lemma Shift(v: nat, p: nat)
    ensures 256 * (v * p) == v * (256 * p)
  {
  }

  datatype DRand<R> = DRand(drng: R, seed: SeedSource)

  /** The raw word a reseeded generator yields for a source. */
  function Raw<R>(pcg: Pcg<R>, source: SeedSource): Word {
    pcg.next(pcg.seed(SeedOf(source))).0
  }

  function Refresh(source: SeedSource, blockHash: seq<byte>, txsHash: seq<byte>, rxsHash: seq<byte>): SeedSource {
    source.(previousBlockHash := blockHash, txsHash := txsHash, rxsHash := rxsHash, previousSeed := Zeros(WORD))
  }

  /** A draw only replaces the previous seed. */
  function NextSource<R>(pcg: Pcg<R>, source: SeedSource): SeedSource {
    source.(previousSeed := Raw(pcg, source))
  }

  function AfterDraws<R>(pcg: Pcg<R>, source: SeedSource, k: nat): SeedSource {
    if k == 0 then source else NextSource(pcg, AfterDraws(pcg, source, k - 1))
  }

  class DRandService<R> {
    const pcg: Pcg<R>
    var drand: DRand<R>

    constructor (pcg: Pcg<R>, source: SeedSource)
      ensures this.pcg == pcg && drand.seed == source
    {
      var seed := GetSeed(source);
      this.pcg := pcg;
      drand := DRand(pcg.seed(seed), source);
    }

    method OnUpdateSeedSource(blockHash: seq<byte>, txsHash: seq<byte>, rxsHash: seq<byte>)
      modifies this
      ensures drand.seed == Refresh(old(drand.seed), blockHash, txsHash, rxsHash)
      ensures drand.seed == SeedSource(old(drand.seed).nonce, old(drand.seed).nwName, Zeros(WORD),
                                       blockHash, txsHash, rxsHash)
    {
      drand := drand.(seed := drand.seed.(previousBlockHash := blockHash, txsHash := txsHash, rxsHash := rxsHash));
      drand := drand.(seed := drand.seed.(previousSeed := Zeros(WORD)));
    }

    /** Reseeds from the source, draws one word, remembers it as the previous seed. */
    method OnGetDRandNum(max: nat) returns (n: nat)
      modifies this
      ensures drand.seed == NextSource(pcg, old(drand.seed))
      ensures drand.seed == old(drand.seed).(previousSeed := Raw(pcg, old(drand.seed)))
      ensures n == Value(Raw(pcg, old(drand.seed))) % (max + 1)
    {
      var seed := GetSeed(drand.seed);
      drand := DRand(pcg.seed(seed), drand.seed);
      var (word, drng) := pcg.next(drand.drng);
      drand := DRand(drng, drand.seed.(previousSeed := word));
      n := Value(word) % (max + 1);
    }
  }

  // ---------- history independence ----------

  datatype Request = Update(blockHash: seq<byte>, txsHash: seq<byte>, rxsHash: seq<byte>) | Draw(max: nat)

  /** The source after serving some requests. */
  ghost function Serve<R>(pcg: Pcg<R>, source: SeedSource, rs: seq<Request>): SeedSource {
    if rs == [] then source
    else
      var before := Serve(pcg, source, rs[..|rs| - 1]);
      match rs[|rs| - 1]
      case Update(b, t, r) => Refresh(before, b, t, r)
      case Draw(_) => NextSource(pcg, before)
  }

  lemma {:induction false} ServeKeepsNode<R>(pcg: Pcg<R>, source: SeedSource, rs: seq<Request>)
    ensures Serve(pcg, source, rs).nonce == source.nonce && Serve(pcg, source, rs).nwName == source.nwName
  {
    if rs != [] { ServeKeepsNode(pcg, source, rs[..|rs| - 1]); }
  }

  lemma {:induction false} ServeDraws<R>(pcg: Pcg<R>, source: SeedSource, rs: seq<Request>, k: nat)
    requires k <= |rs| && forall i :: |rs| - k <= i < |rs| ==> rs[i].Draw?
    ensures Serve(pcg, source, rs) == AfterDraws(pcg, Serve(pcg, source, rs[..|rs| - k]), k)
  {
    if k == 0 {
      assert rs[..|rs|] == rs;
    } else {
      var front := rs[..|rs| - 1];
      ServeDraws(pcg, source, front, k - 1);
      assert front[..|front| - (k - 1)] == rs[..|rs| - k];
    }
  }

  /** After the same update and k draws, the next raw draw is the same on two nodes of one network, whatever
      each served before and whatever maxima were asked for. */
  lemma HistoryIndependence<R>(pcg: Pcg<R>, s: SeedSource, t: SeedSource, rs: seq<Request>, qs: seq<Request>,
                               u: Request, k: nat)
    requires s.nonce == t.nonce && s.nwName == t.nwName && u.Update?
    requires |rs| > k && rs[|rs| - k - 1] == u && forall i :: |rs| - k <= i < |rs| ==> rs[i].Draw?
    requires |qs| > k && qs[|qs| - k - 1] == u && forall i :: |qs| - k <= i < |qs| ==> qs[i].Draw?
    ensures Serve(pcg, s, rs) == Serve(pcg, t, qs)
    ensures Raw(pcg, Serve(pcg, s, rs)) == Raw(pcg, Serve(pcg, t, qs))
  {
    ServeDraws(pcg, s, rs, k);
    ServeDraws(pcg, t, qs, k);
    var r, q := rs[..|rs| - k], qs[..|qs| - k];
    assert r[|r| - 1] == u && q[|q| - 1] == u;
    ServeKeepsNode(pcg, s, r[..|r| - 1]);
    ServeKeepsNode(pcg, t, q[..|q| - 1]);
  }

  // ---------- the leader ----------

  ghost predicate HeaderOk(block: Block) {
    WellFormed(block.hash) && WellFormed(block.txsHash) && WellFormed(block.rxsHash)
  }

  /** The source right after the update for a block. */
  ghost function SourceAt(nonce: seq<byte>, nwName: seq<byte>, block: Block): SeedSource
    requires HeaderOk(block)
  {
    SeedSource(nonce, nwName, Zeros(WORD), AsBytes(block.hash), AsBytes(block.txsHash), AsBytes(block.rxsHash))
  }

  /** The leader drawn after a block if `k` numbers were drawn between the update and the draw: a function of
      the network's constants, the block, the players and `k`. */
  ghost function Elected<R>(pcg: Pcg<R>, nonce: seq<byte>, nwName: seq<byte>, block: Block,
                            ids: seq<PlayerId>, ws: seq<nat>, k: nat): PlayerId
    requires |ids| == |ws| && ids != [] && (|ids| > 1 ==> Sum(ws) > 0) && HeaderOk(block)
  {
    if |ids| == 1 then ids[0]
    else
      ExpandLength(ids, ws);
      Expand(ids, ws)[Value(Raw(pcg, AfterDraws(pcg, SourceAt(nonce, nwName, block), k))) % Sum(ws)]
  }

  /** With nothing drawn in between, the leader of several players is the one in whose interval of weights the number
      drawn from the block's three hashes falls. */
  lemma ElectedOwner<R>(pcg: Pcg<R>, nonce: seq<byte>, nwName: seq<byte>, block: Block,
                        ids: seq<PlayerId>, ws: seq<nat>, i: nat)
    requires |ids| == |ws| && |ids| > 1 && i < |ids| && Sum(ws) > 0 && HeaderOk(block)
    requires var source := SeedSource(nonce, nwName, Zeros(WORD),
                                      AsBytes(block.hash), AsBytes(block.txsHash), AsBytes(block.rxsHash));
             Sum(ws[..i]) <= Value(pcg.next(pcg.seed(SeedOf(source))).0) % Sum(ws) < Sum(ws[..i + 1])
    ensures Elected(pcg, nonce, nwName, block, ids, ws, 0) == ids[i]
  {
    var source := SeedSource(nonce, nwName, Zeros(WORD),
                             AsBytes(block.hash), AsBytes(block.txsHash), AsBytes(block.rxsHash));
    EntryOwner(ids, ws, i, Value(Raw(pcg, source)) % Sum(ws));
    assert AfterDraws(pcg, source, 0) == source;
  }

  method ServeOthers<R>(service: DRandService<R>, maxima: seq<nat>)
    modifies service
    ensures service.drand.seed == AfterDraws(service.pcg, old(service.drand.seed), |maxima|)
  {
    for i := 0 to |maxima|
      invariant service.drand.seed == AfterDraws(service.pcg, old(service.drand.seed), i)
    {
      var _ := service.OnGetDRandNum(maxima[i]);
    }
  }

  /** Draws the leader for the height after `block`. Contracts share the generator's queue: `between` are the
      maxima of the draws it serves between the update and this service's own draw. The leader is a player, and
      the same one on every node that served as many draws in between. If the generator does not answer, the old
      leader stays. */
  method DrawNewLeader<R>(service: DRandService<R>, block: Block, players: Players, current: PlayerId,
                          between: seq<nat>, answered: bool)
    returns (leader: PlayerId)
    requires |players.playersIds| == |players.weights| && players.playersIds != [] && HeaderOk(block)
    requires |players.playersIds| > 1 ==> Sum(players.weights) > 0
    modifies service
    ensures answered || |players.playersIds| == 1 ==>
              && leader in players.playersIds
              && leader == Elected(service.pcg, old(service.drand.seed.nonce), old(service.drand.seed.nwName), block,
                                   players.playersIds, players.weights, |between|)
    ensures !answered && |players.playersIds| > 1 ==> leader == current
  {
    service.OnUpdateSeedSource(AsBytes(block.hash), AsBytes(block.txsHash), AsBytes(block.rxsHash));
    ServeOthers(service, between);
    if |players.playersIds| > 1 {
      if !answered {
        return current;
      }
      var n := service.OnGetDRandNum(Sum(players.weights) - 1);
      var weighted := players.GetWeightedPlayerIds();
      ExpandLength(players.playersIds, players.weights);
      var i := EntryHasOwner(players.weights, n);
      EntryOwner(players.playersIds, players.weights, i, n);
      leader := weighted[n];
    } else {
      leader := players.playersIds[0];
    }
  }

  /** The count matters: for two players of equal weight and any block, some generator elects another leader as
      soon as one or more numbers are drawn in between. */
  lemma DrawBetweenMatters(nonce: seq<byte>, nwName: seq<byte>, block: Block, a: PlayerId, b: PlayerId, k: nat)
    returns (pcg: Pcg<Word>)
    requires a != b && k > 0 && HeaderOk(block)
    ensures Elected(pcg, nonce, nwName, block, [a, b], [1, 1], 0)
            != Elected(pcg, nonce, nwName, block, [a, b], [1, 1], k)
  {
    var source := SourceAt(nonce, nwName, block);
    var first: Word := SeedOf(source);
    var one, two := LastByte(1), LastByte(2);
    pcg := Pcg(w => w, w => (if w == first then one else two, w));
    LaterDraws(pcg, source, one, two, 0);
    LaterDraws(pcg, source, one, two, k);
    ElectedOfPair(pcg, nonce, nwName, block, a, b, 0);
    ElectedOfPair(pcg, nonce, nwName, block, a, b, k);
    LastByteParity();
  }

  function LastByte(b: byte): Word {
    Zeros(7) + [b]
  }

  lemma PairDraws(a: PlayerId, b: PlayerId)
    ensures Sum([1, 1]) == 2 && Expand([a, b], [1, 1]) == [a, b]
  {
    assert [a, b][1..] == [b] && [1, 1][1..] == [1] && [b][1..] == [] && [1][1..] == [];
    assert Sum([1]) == 1 && Expand([b], [1]) == Repeat(b, 1) + Expand([], []);
  }

  lemma LastByteParity()
    ensures Value(LastByte(1)) % 2 == 1 && Value(LastByte(2)) % 2 == 0
  {
    assert LastByte(1)[..7] == Zeros(7) && LastByte(2)[..7] == Zeros(7);
    assert Value(LastByte(1)) == 256 * Value(Zeros(7)) + 1;
    assert Value(LastByte(2)) == 256 * Value(Zeros(7)) + 2;
  }

  lemma ElectedOfPair(pcg: Pcg<Word>, nonce: seq<byte>, nwName: seq<byte>, block: Block,
                      a: PlayerId, b: PlayerId, k: nat)
    requires HeaderOk(block)
    ensures Elected(pcg, nonce, nwName, block, [a, b], [1, 1], k)
            == [a, b][Value(Raw(pcg, AfterDraws(pcg, SourceAt(nonce, nwName, block), k))) % 2]
  {
    PairDraws(a, b);
  }

  lemma SeedDiffers(source: SeedSource, next: Word)
    requires source.previousSeed == Zeros(WORD) && (next[7] == 1 || next[7] == 2)
    ensures SeedOf(source.(previousSeed := next)) != SeedOf(source)
  {
    var rest := SeedOf(source)[7];
    ByteDiffers(rest, next[7]);
    assert SeedOf(source.(previousSeed := next))[7] == rest ^ next[7];
  }

  lemma ByteDiffers(a: byte, d: byte)
    requires d == 1 || d == 2
    ensures a ^ d != a
  {
  }

  /** A generator that yields `one` for the first seed of a source and `two` for any other never returns to it. */
  lemma {:induction false} LaterDraws(pcg: Pcg<Word>, source: SeedSource, one: Word, two: Word, k: nat)
    requires forall w :: pcg.seed(w) == w && pcg.next(w).0 == if w == SeedOf(source) then one else two
    requires source.previousSeed == Zeros(WORD) && one == LastByte(1) && two == LastByte(2)
    ensures Raw(pcg, AfterDraws(pcg, source, k)) == if k == 0 then one else two
    ensures k > 0 ==> AfterDraws(pcg, source, k) == source.(previousSeed := if k == 1 then one else two)
  {
    if k > 0 {
      LaterDraws(pcg, source, one, two, k - 1);
      var next := if k == 1 then one else two;
      var after := AfterDraws(pcg, source, k);
      assert after == source.(previousSeed := next);
      SeedDiffers(source, next);
    }
  }
}
