/** The seed of the deterministic generator: the fields folded by XOR into one word. */
module Seed {
  import opened Common

  const WORD := 8

  /** A 64-bit word as its eight big-endian bytes. */
  type Word = w: seq<byte> | |w| == WORD witness [0, 0, 0, 0, 0, 0, 0, 0]

  datatype SeedSource = SeedSource(
    nonce: seq<byte>, nwName: seq<byte>, previousSeed: Word,
    previousBlockHash: seq<byte>, txsHash: seq<byte>, rxsHash: seq<byte>)

  // ---------- the reference: fold each field on its own ----------

  /** Byte `j` of the fold: the XOR of every eighth byte from `j` on. */
  function ByteFold(s: seq<byte>, j: nat): byte
    decreases |s| - j
  {
    if j >= |s| then 0 else s[j] ^ ByteFold(s, j + WORD)
  }

  function Fold(s: seq<byte>): Word {
    seq(WORD, j requires 0 <= j < WORD => ByteFold(s, j))
  }

  /** The seed as the XOR of the separate folds of the fields and the previous seed. */
  function SeedOf(s: SeedSource): Word {
    Xor(Xor(Xor(Xor(Xor(Fold(s.nwName), Fold(s.nonce)), Fold(s.previousBlockHash)), Fold(s.txsHash)), Fold(s.rxsHash)),
        s.previousSeed)
  }

  // ---------- what the code does: pad, combine, pad again, fold chunks ----------

  function Zeros(n: nat): seq<byte> {
    seq(n, _ => 0)
  }

  function Pad(s: seq<byte>, n: nat): seq<byte>
    requires |s| <= n
  {
    s + Zeros(n - |s|)
  }

  function Xor(a: seq<byte>, b: seq<byte>): (r: seq<byte>)
    requires |a| <= |b|
    ensures |r| == |a|
  {
    seq(|a|, i requires 0 <= i < |a| => a[i] ^ b[i])
  }

  function Max(a: nat, b: nat): nat { if a >= b then a else b }

  method GetSeed(s: SeedSource) returns (seed: Word)
    ensures seed == SeedOf(s)
  {
    var n := Max(|s.nonce|, Max(|s.nwName|, Max(|s.previousBlockHash|, Max(|s.txsHash|, |s.rxsHash|))));
    var x := Xor(Pad(s.nwName, n), Pad(s.nonce, n));
    x := Xor(x, Pad(s.previousBlockHash, n));
    x := Xor(x, Pad(s.txsHash, n));
    x := Xor(x, Pad(s.rxsHash, n));
    assert x == Combined(s, n);
    var rest := |x| % WORD;
    var padded := x + Zeros(if rest > 0 then WORD - rest else 0);
    var folded := FoldChunks(padded);
    seed := Xor(folded, s.previousSeed);
    forall j: nat | j < WORD ensures folded[j] == FieldsFold(s, j) {
      CombinedFold(s, n, j);
      FoldZeros(x, if rest > 0 then WORD - rest else 0, j);
    }
  }

  /** XORs the eight-byte chunks together. */
  method FoldChunks(x: seq<byte>) returns (acc: seq<byte>)
    requires |x| % WORD == 0
    ensures |acc| == WORD && forall j: nat :: j < WORD ==> acc[j] == ByteFold(x, j)
  {
    acc := Zeros(WORD);
    var at := 0;
    forall j: nat | j < WORD ensures Rest(x, at, j, acc[j]) { XorZero(ByteFold(x, j)); }
    while at < |x|
      invariant at <= |x| && at % WORD == 0 && |acc| == WORD
      invariant forall j: nat :: j < WORD ==> Rest(x, at, j, acc[j])
    {
      var next := Xor(acc, x[at..at + WORD]);
      forall j: nat | j < WORD ensures Rest(x, at + WORD, j, next[j]) {
        ChunkStep(x, at, j, acc[j]);
      }
      acc, at := next, at + WORD;
    }
    forall j: nat | j < WORD ensures acc[j] == ByteFold(x, j) {
      assert Rest(x, at, j, acc[j]);
      XorZero(acc[j]);
    }
  }

  /** `a` still lacks the part of the fold from `at` on. */
  ghost predicate Rest(x: seq<byte>, at: nat, j: nat, a: byte) {
    a ^ ByteFold(x, at + j) == ByteFold(x, j)
  }

  lemma ChunkStep(x: seq<byte>, at: nat, j: nat, a: byte)
    requires at + j < |x| && Rest(x, at, j, a)
    ensures Rest(x, at + WORD, j, a ^ x[at + j])
  {
    XorAssoc(a, x[at + j], ByteFold(x, at + WORD + j));
    assert at + j + WORD == at + WORD + j;
  }

  lemma XorZero(a: byte)
    ensures a ^ 0 == a && 0 ^ a == a
  {
  }

  lemma XorAssoc(a: byte, b: byte, c: byte)
    ensures (a ^ b) ^ c == a ^ (b ^ c)
  {
  }

  lemma XorSwap(a: byte, b: byte, c: byte, d: byte)
    ensures (a ^ b) ^ (c ^ d) == (a ^ c) ^ (b ^ d)
  {
  }

  /** Trailing zeros do not change a fold. */
  lemma {:induction false} FoldZeros(s: seq<byte>, n: nat, j: nat)
    ensures ByteFold(s + Zeros(n), j) == ByteFold(s, j)
    decreases |s| + n - j
  {
    if j < |s| + n {
      FoldZeros(s, n, j + WORD);
      if j >= |s| { XorZero(0); }
    }
  }

  /** Folding is linear. */
  lemma {:induction false} FoldXor(a: seq<byte>, b: seq<byte>, j: nat)
    requires |a| == |b|
    ensures ByteFold(Xor(a, b), j) == ByteFold(a, j) ^ ByteFold(b, j)
    decreases |a| - j
  {
    if j < |a| {
      FoldXor(a, b, j + WORD);
      XorSwap(a[j], b[j], ByteFold(a, j + WORD), ByteFold(b, j + WORD));
    }
  }

  function FieldsFold(s: SeedSource, j: nat): byte {
    (((ByteFold(s.nwName, j) ^ ByteFold(s.nonce, j)) ^ ByteFold(s.previousBlockHash, j))
     ^ ByteFold(s.txsHash, j)) ^ ByteFold(s.rxsHash, j)
  }

  ghost function Combined(s: SeedSource, n: nat): seq<byte>
    requires |s.nonce| <= n && |s.nwName| <= n && |s.previousBlockHash| <= n && |s.txsHash| <= n && |s.rxsHash| <= n
  {
    Xor(Xor(Xor(Xor(Pad(s.nwName, n), Pad(s.nonce, n)), Pad(s.previousBlockHash, n)),
            Pad(s.txsHash, n)), Pad(s.rxsHash, n))
  }

  lemma CombinedFold(s: SeedSource, n: nat, j: nat)
    requires |s.nonce| <= n && |s.nwName| <= n && |s.previousBlockHash| <= n && |s.txsHash| <= n && |s.rxsHash| <= n
    ensures ByteFold(Combined(s, n), j) == FieldsFold(s, j)
  {
    var x1 := Xor(Pad(s.nwName, n), Pad(s.nonce, n));
    var x2 := Xor(x1, Pad(s.previousBlockHash, n));
    var x3 := Xor(x2, Pad(s.txsHash, n));
    FoldXor(Pad(s.nwName, n), Pad(s.nonce, n), j);
    FoldXor(x1, Pad(s.previousBlockHash, n), j);
    FoldXor(x2, Pad(s.txsHash, n), j);
    FoldXor(x3, Pad(s.rxsHash, n), j);
    FoldZeros(s.nonce, n - |s.nonce|, j);
    FoldZeros(s.nwName, n - |s.nwName|, j);
    FoldZeros(s.previousBlockHash, n - |s.previousBlockHash|, j);
    FoldZeros(s.txsHash, n - |s.txsHash|, j);
    FoldZeros(s.rxsHash, n - |s.rxsHash|, j);
  }

  /** The order of the fields does not matter: exchanging any two neighbours gives the same seed. */
  lemma FieldOrderIrrelevant(s: SeedSource)
    ensures SeedOf(s.(nonce := s.nwName, nwName := s.nonce)) == SeedOf(s)
    ensures SeedOf(s.(nonce := s.previousBlockHash, previousBlockHash := s.nonce)) == SeedOf(s)
    ensures SeedOf(s.(previousBlockHash := s.txsHash, txsHash := s.previousBlockHash)) == SeedOf(s)
    ensures SeedOf(s.(txsHash := s.rxsHash, rxsHash := s.txsHash)) == SeedOf(s)
  {
    var a, b, c, d, e := Fold(s.nwName), Fold(s.nonce), Fold(s.previousBlockHash), Fold(s.txsHash), Fold(s.rxsHash);
    XorComm(a, b);
    XorSwapLast(a, b, c);
    XorSwapLast(Xor(a, b), c, d);
    XorSwapLast(Xor(Xor(a, b), c), d, e);
  }

  lemma XorComm(a: Word, b: Word)
    ensures Xor(a, b) == Xor(b, a)
  {
    forall i | 0 <= i < WORD ensures Xor(a, b)[i] == Xor(b, a)[i] {
      ByteComm(a[i], b[i]);
    }
  }

  lemma ByteComm(a: byte, b: byte)
    ensures a ^ b == b ^ a
  {
  }

  lemma XorSwapLast(a: Word, b: Word, c: Word)
    ensures Xor(Xor(a, b), c) == Xor(Xor(a, c), b)
  {
    forall i | 0 <= i < WORD ensures Xor(Xor(a, b), c)[i] == Xor(Xor(a, c), b)[i] {
      ByteSwap(a[i], b[i], c[i]);
    }
  }

  lemma ByteSwap(a: byte, b: byte, c: byte)
    ensures (a ^ b) ^ c == (a ^ c) ^ b
  {
  }

  /** Trailing zero bytes of any field do not matter either. */
  lemma PaddingIrrelevant(s: SeedSource, n: nat)
    ensures SeedOf(s.(nwName := s.nwName + Zeros(n))) == SeedOf(s)
    ensures SeedOf(s.(nonce := s.nonce + Zeros(n))) == SeedOf(s)
    ensures SeedOf(s.(previousBlockHash := s.previousBlockHash + Zeros(n))) == SeedOf(s)
    ensures SeedOf(s.(txsHash := s.txsHash + Zeros(n))) == SeedOf(s)
    ensures SeedOf(s.(rxsHash := s.rxsHash + Zeros(n))) == SeedOf(s)
  {
    FoldPadded(s.nwName, n);
    FoldPadded(s.nonce, n);
    FoldPadded(s.previousBlockHash, n);
    FoldPadded(s.rxsHash, n);
    FoldPadded(s.txsHash, n);
  }

  lemma FoldPadded(x: seq<byte>, n: nat)
    ensures Fold(x + Zeros(n)) == Fold(x)
  {
    forall j: nat | j < WORD ensures Fold(x + Zeros(n))[j] == Fold(x)[j] {
      FoldZeros(x, n, j);
    }
  }

  // ---------- what every byte does ----------

  /** The word that is zero but for one byte: byte `i` of a field enters it at `i % 8`. */
  function Single(i: nat, d: byte): Word {
    seq(WORD, j requires 0 <= j < WORD => if j == i % WORD then d else 0)
  }

  /** Byte `i` enters the fold that starts at `j`. */
  predicate Enters(i: nat, j: nat) {
    i >= j && (i - j) % WORD == 0
  }

  lemma EntersLater(i: nat, j: nat)
    requires i != j
    ensures Enters(i, j) <==> Enters(i, j + WORD)
  {
  }

  /** The field that is zero but for byte `i`. */
  function Delta(n: nat, i: nat, d: byte): seq<byte> {
    seq(n, k => if k == i then d else 0)
  }

  lemma {:induction false} DeltaFold(n: nat, i: nat, d: byte, j: nat)
    requires i < n
    ensures ByteFold(Delta(n, i, d), j) == if Enters(i, j) then d else 0
    decreases n - j
  {
    if j < n {
      DeltaFold(n, i, d, j + WORD);
      if i == j {
        XorZero(d);
      } else {
        EntersLater(i, j);
        XorZero(ByteFold(Delta(n, i, d), j + WORD));
      }
    }
  }

  lemma ReplacedIsXor(x: seq<byte>, i: nat, b: byte)
    requires i < |x|
    ensures x[i := b] == Xor(x, Delta(|x|, i, x[i] ^ b))
  {
    var y, z := x[i := b], Xor(x, Delta(|x|, i, x[i] ^ b));
    forall k | 0 <= k < |x| ensures y[k] == z[k] {
      if k == i { ByteReplaced(x[i], b); } else { XorZero(x[k]); }
    }
  }

  lemma ByteReplaced(a: byte, b: byte)
    ensures a ^ (a ^ b) == b
  {
  }

  lemma SameColumn(i: nat, j: nat)
    requires j < WORD
    ensures Enters(i, j) <==> j == i % WORD
  {
  }

  lemma FoldReplaced(x: seq<byte>, i: nat, b: byte)
    requires i < |x|
    ensures Fold(x[i := b]) == Xor(Fold(x), Single(i, x[i] ^ b))
  {
    var y, z := Fold(x[i := b]), Xor(Fold(x), Single(i, x[i] ^ b));
    var delta := Delta(|x|, i, x[i] ^ b);
    ReplacedIsXor(x, i, b);
    forall j | 0 <= j < WORD ensures y[j] == z[j] {
      SameColumn(i, j);
      FoldXor(x, delta, j);
      DeltaFold(|x|, i, x[i] ^ b, j);
    }
  }

  lemma WordAssoc(a: Word, b: Word, c: Word)
    ensures Xor(a, Xor(b, c)) == Xor(Xor(a, b), c)
  {
    var y, z := Xor(a, Xor(b, c)), Xor(Xor(a, b), c);
    forall j | 0 <= j < WORD ensures y[j] == z[j] {
      XorAssoc(a[j], b[j], c[j]);
    }
  }

  /** A change of one of five combined words is a change of the whole. */
  lemma ChangeThrough(a: Word, p: Word, t: Word, r: Word, last: Word, e: Word)
    ensures var seed := Xor(Xor(Xor(Xor(a, p), t), r), last);
            && Xor(Xor(Xor(Xor(Xor(a, e), p), t), r), last) == Xor(seed, e)
            && Xor(Xor(Xor(Xor(a, Xor(p, e)), t), r), last) == Xor(seed, e)
            && Xor(Xor(Xor(Xor(a, p), Xor(t, e)), r), last) == Xor(seed, e)
            && Xor(Xor(Xor(Xor(a, p), t), Xor(r, e)), last) == Xor(seed, e)
  {
    var x1, x2, x3 := Xor(a, p), Xor(Xor(a, p), t), Xor(Xor(Xor(a, p), t), r);
    XorSwapLast(a, e, p);
    WordAssoc(a, p, e);
    XorSwapLast(x1, e, t);
    WordAssoc(x1, t, e);
    XorSwapLast(x2, e, r);
    WordAssoc(x2, r, e);
    XorSwapLast(x3, e, last);
  }

  lemma NameByte(s: SeedSource, i: nat, b: byte)
    requires i < |s.nwName|
    ensures SeedOf(s.(nwName := s.nwName[i := b])) == Xor(SeedOf(s), Single(i, s.nwName[i] ^ b))
  {
    var e := Single(i, s.nwName[i] ^ b);
    FoldReplaced(s.nwName, i, b);
    var n, m := Fold(s.nwName), Fold(s.nonce);
    XorSwapLast(n, e, m);
    ChangeThrough(Xor(Fold(s.nwName), Fold(s.nonce)), Fold(s.previousBlockHash), Fold(s.txsHash), Fold(s.rxsHash),
                  s.previousSeed, e);
  }

  lemma NonceByte(s: SeedSource, i: nat, b: byte)
    requires i < |s.nonce|
    ensures SeedOf(s.(nonce := s.nonce[i := b])) == Xor(SeedOf(s), Single(i, s.nonce[i] ^ b))
  {
    var e := Single(i, s.nonce[i] ^ b);
    FoldReplaced(s.nonce, i, b);
    var n, m := Fold(s.nwName), Fold(s.nonce);
    WordAssoc(n, m, e);
    ChangeThrough(Xor(Fold(s.nwName), Fold(s.nonce)), Fold(s.previousBlockHash), Fold(s.txsHash), Fold(s.rxsHash),
                  s.previousSeed, e);
  }

  lemma BlockHashByte(s: SeedSource, i: nat, b: byte)
    requires i < |s.previousBlockHash|
    ensures SeedOf(s.(previousBlockHash := s.previousBlockHash[i := b]))
            == Xor(SeedOf(s), Single(i, s.previousBlockHash[i] ^ b))
  {
    var e := Single(i, s.previousBlockHash[i] ^ b);
    FoldReplaced(s.previousBlockHash, i, b);
    ChangeThrough(Xor(Fold(s.nwName), Fold(s.nonce)), Fold(s.previousBlockHash), Fold(s.txsHash), Fold(s.rxsHash),
                  s.previousSeed, e);
  }

  lemma TxsHashByte(s: SeedSource, i: nat, b: byte)
    requires i < |s.txsHash|
    ensures SeedOf(s.(txsHash := s.txsHash[i := b])) == Xor(SeedOf(s), Single(i, s.txsHash[i] ^ b))
  {
    var e := Single(i, s.txsHash[i] ^ b);
    FoldReplaced(s.txsHash, i, b);
    ChangeThrough(Xor(Fold(s.nwName), Fold(s.nonce)), Fold(s.previousBlockHash), Fold(s.txsHash), Fold(s.rxsHash),
                  s.previousSeed, e);
  }

  lemma RxsHashByte(s: SeedSource, i: nat, b: byte)
    requires i < |s.rxsHash|
    ensures SeedOf(s.(rxsHash := s.rxsHash[i := b])) == Xor(SeedOf(s), Single(i, s.rxsHash[i] ^ b))
  {
    var e := Single(i, s.rxsHash[i] ^ b);
    FoldReplaced(s.rxsHash, i, b);
    ChangeThrough(Xor(Fold(s.nwName), Fold(s.nonce)), Fold(s.previousBlockHash), Fold(s.txsHash), Fold(s.rxsHash),
                  s.previousSeed, e);
  }

  /** Replacing byte `i` of a field by `b` changes the seed at byte `i % 8` alone, by XOR with the old and the new
      byte. */
  lemma FieldByteChanges(s: SeedSource, i: nat, b: byte)
    ensures i < |s.nwName| ==>
              SeedOf(s.(nwName := s.nwName[i := b])) == Xor(SeedOf(s), Single(i, s.nwName[i] ^ b))
    ensures i < |s.nonce| ==>
              SeedOf(s.(nonce := s.nonce[i := b])) == Xor(SeedOf(s), Single(i, s.nonce[i] ^ b))
    ensures i < |s.previousBlockHash| ==>
              SeedOf(s.(previousBlockHash := s.previousBlockHash[i := b]))
              == Xor(SeedOf(s), Single(i, s.previousBlockHash[i] ^ b))
    ensures i < |s.txsHash| ==>
              SeedOf(s.(txsHash := s.txsHash[i := b])) == Xor(SeedOf(s), Single(i, s.txsHash[i] ^ b))
    ensures i < |s.rxsHash| ==>
              SeedOf(s.(rxsHash := s.rxsHash[i := b])) == Xor(SeedOf(s), Single(i, s.rxsHash[i] ^ b))
  {
    if i < |s.nwName| { NameByte(s, i, b); }
    if i < |s.nonce| { NonceByte(s, i, b); }
    if i < |s.previousBlockHash| { BlockHashByte(s, i, b); }
    if i < |s.txsHash| { TxsHashByte(s, i, b); }
    if i < |s.rxsHash| { RxsHashByte(s, i, b); }
  }

  /** Without any field the seed is the previous one. */
  lemma EmptySeed(last: Word)
    ensures SeedOf(SeedSource([], [], last, [], [], [])) == last
  {
    var zero := Fold([]);
    forall j | 0 <= j < WORD ensures zero[j] == 0 && Xor(zero, zero)[j] == 0 && Xor(zero, last)[j] == last[j] {
      XorZero(last[j]);
      XorZero(0);
    }
    assert Xor(zero, zero) == zero && Xor(zero, last) == last;
  }
}
