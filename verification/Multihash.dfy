/** Hashes in the multihash format: algorithm byte, length byte, value. */
module Multihash {
  import opened Common

  const MULTIHASH_VALUE_LEN_MAX := 36
  const MULTIHASH_BYTES_LEN_MAX := 2 + MULTIHASH_VALUE_LEN_MAX
  const MULTIHASH_TYPE_IDENTITY: byte := 0x00
  const MULTIHASH_TYPE_SHA256: byte := 0x12
  const SHA256_LEN_MAX := 32

  datatype HashAlgorithm = Identity | Sha256

  datatype CryptoError = ValueTooLong | Sha256TooLong | TooShort | LengthMismatch | UnknownAlgorithm

  datatype Result = Ok(hash: Hash) | Err(error: CryptoError)

  function Code(alg: HashAlgorithm): byte {
    match alg case Identity => MULTIHASH_TYPE_IDENTITY case Sha256 => MULTIHASH_TYPE_SHA256
  }

  function MaxLen(alg: HashAlgorithm): nat {
    match alg case Identity => MULTIHASH_VALUE_LEN_MAX case Sha256 => SHA256_LEN_MAX
  }

  /** A hash that some constructor can produce: a known algorithm, a length it allows, zeros behind the value. */
  ghost predicate WellFormed(h: Hash) {
    && |h.bytes| == MULTIHASH_BYTES_LEN_MAX
    && (exists alg :: h.bytes[0] == Code(alg) && h.bytes[1] as nat <= MaxLen(alg))
    && forall i :: 2 + h.bytes[1] as nat <= i < MULTIHASH_BYTES_LEN_MAX ==> h.bytes[i] == 0
  }

  /** A byte string in multihash format that this node accepts. */
  ghost predicate Encoding(s: seq<byte>) {
    && |s| >= 2 && s[1] as nat == |s| - 2
    && exists alg :: s[0] == Code(alg) && |s| - 2 <= MaxLen(alg)
  }

  function Default(): (h: Hash)
    ensures WellFormed(h) && AsBytes(h) == [0, 0]
  {
    var h := Hash(seq(MULTIHASH_BYTES_LEN_MAX, _ => 0));
    assert h.bytes[0] == Code(Identity);
    h
  }

  /** Fills a fixed array with algorithm, length and value. */
  method New(alg: HashAlgorithm, value: seq<byte>) returns (r: Result)
    ensures r.Ok? <==> |value| <= MaxLen(alg)
    ensures r.Ok? ==> WellFormed(r.hash) && AsBytes(r.hash) == [Code(alg), |value| as byte] + value
    ensures r.Ok? <==> |value| <= if alg.Identity? then 36 else 32
    ensures r.Ok? ==>
              && |r.hash.bytes| == 38 && r.hash.bytes[0] == (if alg.Identity? then 0x00 else 0x12)
              && r.hash.bytes[1] == |value| as byte && r.hash.bytes[2..2 + |value|] == value
              && forall i :: 2 + |value| <= i < 38 ==> r.hash.bytes[i] == 0
  {
    if |value| > MULTIHASH_VALUE_LEN_MAX {
      return Err(ValueTooLong);
    }
    if alg.Sha256? && |value| > SHA256_LEN_MAX {
      return Err(Sha256TooLong);
    }
    var a := new byte[MULTIHASH_BYTES_LEN_MAX](_ => 0);
    var len := |value| as byte;
    a[0] := Code(alg);
    a[1] := len;
    for i := 0 to |value|
      invariant a[0] == Code(alg) && a[1] == len
      invariant forall j :: 0 <= j < i ==> a[2 + j] == value[j]
      invariant forall j :: 2 + i <= j < a.Length ==> a[j] == 0
    {
      a[2 + i] := value[i];
    }
    r := Ok(Hash(a[..]));
    Filled(r.hash, alg, value);
    assert a[2..2 + |value|] == value;
  }

  lemma Filled(h: Hash, alg: HashAlgorithm, value: seq<byte>)
    requires |h.bytes| == MULTIHASH_BYTES_LEN_MAX && |value| <= MaxLen(alg)
    requires h.bytes[0] == Code(alg) && h.bytes[1] == |value| as byte
    requires forall j :: 0 <= j < |value| ==> h.bytes[2 + j] == value[j]
    requires forall j :: 2 + |value| <= j < MULTIHASH_BYTES_LEN_MAX ==> h.bytes[j] == 0
    ensures WellFormed(h) && AsBytes(h) == [Code(alg), |value| as byte] + value
  {
    assert h.bytes[1] as nat == |value|;
  }

  function AsBytes(h: Hash): (s: seq<byte>)
    requires WellFormed(h)
    ensures Encoding(s)
  {
    h.bytes[..2 + h.bytes[1] as nat]
  }

  method FromBytes(s: seq<byte>) returns (r: Result)
    ensures r.Ok? <==> Encoding(s)
    ensures r.Ok? <==> && |s| >= 2 && s[1] as nat == |s| - 2
                       && ((s[0] == 0x00 && |s| <= 38) || (s[0] == 0x12 && |s| <= 34))
    ensures r.Ok? ==> WellFormed(r.hash) && AsBytes(r.hash) == s
  {
    if |s| < 2 {
      return Err(TooShort);
    }
    if s[1] as nat != |s| - 2 {
      return Err(LengthMismatch);
    }
    var alg;
    if s[0] == MULTIHASH_TYPE_IDENTITY {
      alg := Identity;
    } else if s[0] == MULTIHASH_TYPE_SHA256 {
      alg := Sha256;
    } else {
      return Err(UnknownAlgorithm);
    }
    r := New(alg, s[2..]);
    Parts(s, alg);
  }

  lemma Parts(s: seq<byte>, alg: HashAlgorithm)
    requires |s| >= 2 && s[1] as nat == |s| - 2 && s[0] == Code(alg)
    ensures Encoding(s) <==> |s| - 2 <= MaxLen(alg)
    ensures |s| - 2 <= MaxLen(alg) ==> [Code(alg), |s[2..]| as byte] + s[2..] == s
  {
    ByteOfNat(s[1], |s| - 2);
  }

  lemma ByteOfNat(b: byte, n: nat)
    requires b as nat == n
    ensures n as byte == b
  {
  }

  /** Equality of the arrays is equality of the encodings, since nothing hides behind the value. */
  lemma EncodingDetermines(g: Hash, h: Hash)
    requires WellFormed(g) && WellFormed(h)
    ensures g == h <==> AsBytes(g) == AsBytes(h)
  {
    if AsBytes(g) == AsBytes(h) {
      assert g.bytes[1] == AsBytes(g)[1] && h.bytes[1] == AsBytes(h)[1];
      forall i | 0 <= i < MULTIHASH_BYTES_LEN_MAX ensures g.bytes[i] == h.bytes[i] {
        if i < 2 + g.bytes[1] as nat {
          assert g.bytes[i] == AsBytes(g)[i] && h.bytes[i] == AsBytes(h)[i];
        }
      }
      assert g.bytes == h.bytes;
    }
  }

  /** Encoding a hash and reading it back gives the hash, and nothing else reads back from its encoding. */
  method RoundTrip(h: Hash) returns (back: Result)
    requires WellFormed(h)
    ensures back == Ok(h)
  {
    back := FromBytes(AsBytes(h));
    EncodingDetermines(back.hash, h);
  }
}
