/** Values shared by the services: hashes, blocks, confirmations, and counting facts about sequences. */
module Common {

  datatype Option<+T> = None | Some(value: T)

  type byte = bv8

  /** A multihash as stored by the node; `Multihash` says which byte strings are well formed. */
  datatype Hash = Hash(bytes: seq<byte>)

  type PlayerId = string

  /** What a key pair returned for some message, together with the outcome of checking it.
      Signing and verifying are foreign code: both are functions of the message alone. */
  datatype Signature = Signature(bytes: seq<byte>, verifies: bool)

  /** A block header. `hash` covers every field but the signature. */
  datatype Block = Block(
    hash: Hash, height: nat, prevHash: Hash, builder: Option<PlayerId>,
    txsHash: Hash, rxsHash: Hash, signature: Signature)

  /** One player's vote for a block in a round. */
  datatype Confirmation = Confirmation(
    hash: Hash, height: nat, round: nat, player: PlayerId, signature: Signature)

  function Min(a: nat, b: nat): nat { if a <= b then a else b }

  ghost predicate NoRepeats<T>(s: seq<T>) {
    forall i, j :: 0 <= i < j < |s| ==> s[i] != s[j]
  }

  function Elements<T>(s: seq<T>): set<T> {
    set x | x in s
  }

  /** A sequence has at most as many elements as positions, and exactly as many iff nothing repeats. */
  lemma {:induction false} ElementsCount<T>(s: seq<T>)
    ensures |Elements(s)| <= |s|
    ensures |Elements(s)| == |s| <==> NoRepeats(s)
  {
    if s != [] {
      var front, last := s[..|s| - 1], s[|s| - 1];
      ElementsCount(front);
      if last in front {
        assert Elements(s) == Elements(front);
        var i :| 0 <= i < |front| && front[i] == last;
        assert s[i] == s[|s| - 1];
      } else {
        assert Elements(s) == Elements(front) + {last};
        assert NoRepeats(s) <==> NoRepeats(front);
      }
    }
  }

  /** A subset is no larger. */
  lemma {:induction false} SubsetCount<T>(a: set<T>, b: set<T>)
    requires a <= b
    ensures |a| <= |b|
    ensures |a| == |b| ==> a == b
  {
    if a != {} {
      var x :| x in a;
      SubsetCount(a - {x}, b - {x});
      assert a == (a - {x}) + {x} && b == (b - {x}) + {x};
    }
  }

  /** Two subsets of a finite set that together outnumber it share an element. */
  lemma Overlap<T>(a: set<T>, b: set<T>, whole: set<T>) returns (x: T)
    requires a <= whole && b <= whole
    requires |a| + |b| > |whole|
    ensures x in a && x in b
  {
    SubsetCount(a + b, whole);
    assert |a + b| == |a| + |b| - |a * b|;
    x :| x in a * b;
  }
}
