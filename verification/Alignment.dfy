/** Finding the height the neighbours agree on, and catching up with it. */
module Alignment {
  import opened Common

  datatype BlockInfo = BlockInfo(height: nat, hash: Hash)

  /** A neighbour's answer: its last block, something else, or a failed request. */
  datatype Reply = Info(info: BlockInfo) | Unexpected | Failed

  /** The neighbours that reported a block, in order. */
  function Reporters(neighbors: seq<PlayerId>, replies: seq<Reply>, info: BlockInfo): seq<PlayerId>
    requires |neighbors| == |replies|
  {
    if replies == [] then []
    else
      var n := |replies| - 1;
      var before := Reporters(neighbors[..n], replies[..n], info);
      if replies[n] == Info(info) then before + [neighbors[n]] else before
  }

  /** `ps` are, in rising order, exactly the positions at which a block was reported. */
  ghost predicate ReportedAt(ps: seq<nat>, replies: seq<Reply>, info: BlockInfo) {
    && (forall k, l :: 0 <= k < l < |ps| ==> ps[k] < ps[l])
    && (forall i: nat :: i in ps <==> i < |replies| && replies[i] == Info(info))
  }

  /** The reporters are the neighbours at those positions, in order. */
  ghost predicate Picks(trusted: seq<PlayerId>, neighbors: seq<PlayerId>, ps: seq<nat>) {
    && |trusted| == |ps|
    && forall k :: 0 <= k < |ps| ==> ps[k] < |neighbors| && trusted[k] == neighbors[ps[k]]
  }

  lemma {:induction false} ReportersAt(neighbors: seq<PlayerId>, replies: seq<Reply>, info: BlockInfo)
    returns (ps: seq<nat>)
    requires |neighbors| == |replies|
    ensures ReportedAt(ps, replies, info) && Picks(Reporters(neighbors, replies, info), neighbors, ps)
  {
    if replies == [] {
      ps := [];
    } else {
      var n := |replies| - 1;
      ps := ReportersAt(neighbors[..n], replies[..n], info);
      assert forall k :: 0 <= k < |ps| ==> ps[k] in ps;
      if replies[n] == Info(info) { ps := ps + [n]; }
    }
  }

  /** There is only one such list of positions, so its length counts the reports. */
  lemma SamePositions(ps: seq<nat>, qs: seq<nat>, replies: seq<Reply>, info: BlockInfo)
    requires ReportedAt(ps, replies, info) && ReportedAt(qs, replies, info)
    ensures |ps| == |qs|
  {
    ElementsCount(ps);
    ElementsCount(qs);
    assert Elements(ps) == Elements(qs);
  }

  /** The trusted peers, by what they replied. */
  lemma TrustedReported(trusted: seq<PlayerId>, neighbors: seq<PlayerId>, replies: seq<Reply>, ps: seq<nat>,
                        info: BlockInfo)
    requires |neighbors| == |replies| && ReportedAt(ps, replies, info) && Picks(trusted, neighbors, ps)
    ensures forall p :: p in trusted <==>
                          exists i :: 0 <= i < |replies| && neighbors[i] == p && replies[i] == Info(info)
    ensures NoRepeats(neighbors) ==> NoRepeats(trusted)
  {
    forall p ensures p in trusted <==>
                     exists i :: 0 <= i < |replies| && neighbors[i] == p && replies[i] == Info(info)
    {
      if p in trusted {
        var k :| 0 <= k < |trusted| && trusted[k] == p;
        assert ps[k] in ps && neighbors[ps[k]] == p;
      }
      if i :| 0 <= i < |replies| && neighbors[i] == p && replies[i] == Info(info) {
        assert i in ps;
        var k :| 0 <= k < |ps| && ps[k] == i;
        assert trusted[k] == p;
      }
    }
  }

  ghost predicate AtMost(m: nat, h: nat, n: nat, k: nat) {
    m < n || (m == n && h <= k)
  }

  /** The candidates hold exactly the reported blocks with their reporters. */
  ghost predicate Tallies(candidates: map<BlockInfo, seq<PlayerId>>, neighbors: seq<PlayerId>, replies: seq<Reply>)
    requires |neighbors| == |replies|
  {
    forall info :: (info in candidates <==> Reporters(neighbors, replies, info) != [])
                   && (info in candidates ==> candidates[info] == Reporters(neighbors, replies, info))
  }

  method Tally(neighbors: seq<PlayerId>, replies: seq<Reply>)
    returns (candidates: Option<map<BlockInfo, seq<PlayerId>>>)
    requires |neighbors| == |replies|
    ensures candidates.None? <==> Failed in replies
    ensures candidates.Some? ==> Tallies(candidates.value, neighbors, replies)
  {
    var found := map[];
    for i := 0 to |replies|
      invariant Failed !in replies[..i]
      invariant Tallies(found, neighbors[..i], replies[..i])
    {
      assert replies[..i + 1][..i] == replies[..i] && neighbors[..i + 1][..i] == neighbors[..i];
      match replies[i]
      case Failed => return None;
      case Unexpected =>
      case Info(info) =>
        found := found[info := (if info in found then found[info] else []) + [neighbors[i]]];
    }
    assert replies[..|replies|] == replies && neighbors[..|replies|] == neighbors;
    return Some(found);
  }

  /** The target is reported at the most positions, the highest among those, and trusted are exactly the neighbours
      at its positions, in order; there is none iff a request failed or nobody reported. */
  method BestLastBlock(neighbors: seq<PlayerId>, replies: seq<Reply>) returns (best: Option<(BlockInfo, seq<PlayerId>)>)
    requires |neighbors| == |replies|
    ensures best.None? <==> Failed in replies || forall r :: r in replies ==> !r.Info?
    ensures best.Some? ==>
              var (target, trusted) := best.value;
              && trusted != []
              && (exists ps :: ReportedAt(ps, replies, target) && Picks(trusted, neighbors, ps))
              && (forall p :: p in trusted <==>
                    exists i :: 0 <= i < |replies| && neighbors[i] == p && replies[i] == Info(target))
              && (NoRepeats(neighbors) ==> NoRepeats(trusted))
              && forall info, qs :: ReportedAt(qs, replies, info) && qs != [] ==>
                                      |qs| < |trusted| || (|qs| == |trusted| && info.height <= target.height)
  {
    var tally := Tally(neighbors, replies);
    if tally.None? {
      return None;
    }
    var candidates := tally.value;
    SomebodyReported(neighbors, replies);
    assert forall r :: r in replies && r.Info? ==> r.info in candidates;
    if candidates == map[] {
      return None;
    }
    var info :| info in candidates;
    var rest := candidates.Keys - {info};
    while rest != {}
      invariant info in candidates && rest <= candidates.Keys
      invariant forall k :: k in candidates && k !in rest ==>
                              AtMost(|candidates[k]|, k.height, |candidates[info]|, info.height)
      decreases |rest|
    {
      var k :| k in rest;
      if |candidates[k]| > |candidates[info]| || (|candidates[k]| == |candidates[info]| && k.height >= info.height) {
        info := k;
      }
      rest := rest - {k};
    }
    Maximal(neighbors, replies, info);
    return Some((info, candidates[info]));
  }

  /** From counting reporters to counting positions. */
  lemma Maximal(neighbors: seq<PlayerId>, replies: seq<Reply>, target: BlockInfo)
    requires |neighbors| == |replies|
    requires forall info :: var m := |Reporters(neighbors, replies, info)|;
                            m > 0 ==> AtMost(m, info.height, |Reporters(neighbors, replies, target)|, target.height)
    ensures var trusted := Reporters(neighbors, replies, target);
            && (exists ps :: ReportedAt(ps, replies, target) && Picks(trusted, neighbors, ps))
            && (forall p :: p in trusted <==>
                  exists i :: 0 <= i < |replies| && neighbors[i] == p && replies[i] == Info(target))
            && (NoRepeats(neighbors) ==> NoRepeats(trusted))
            && forall info, qs :: ReportedAt(qs, replies, info) && qs != [] ==>
                                    AtMost(|qs|, info.height, |trusted|, target.height)
  {
    var trusted := Reporters(neighbors, replies, target);
    var ps := ReportersAt(neighbors, replies, target);
    TrustedReported(trusted, neighbors, replies, ps, target);
    forall info, qs | ReportedAt(qs, replies, info) && qs != []
      ensures AtMost(|qs|, info.height, |trusted|, target.height)
    {
      var rs := ReportersAt(neighbors, replies, info);
      SamePositions(qs, rs, replies, info);
    }
  }

  lemma {:induction false} SomebodyReported(neighbors: seq<PlayerId>, replies: seq<Reply>)
    requires |neighbors| == |replies|
    ensures forall r :: r in replies && r.Info? ==> Reporters(neighbors, replies, r.info) != []
    ensures forall info :: Reporters(neighbors, replies, info) != [] ==> Info(info) in replies
  {
    if replies != [] {
      var n := |replies| - 1;
      SomebodyReported(neighbors[..n], replies[..n]);
      assert replies == replies[..n] + [replies[n]];
    }
  }

  ghost predicate Rising(start: nat, heights: seq<nat>) {
    && (forall i :: 0 <= i < |heights| ==> heights[i] > start)
    && (forall i, j :: 0 <= i < j < |heights| ==> heights[i] < heights[j])
  }

  /** Requests one block at a time until the target is reached or no new height arrives in time.
      `heights` are the new heights that arrive before the first timeout. */
  method CatchUp(start: nat, target: nat, heights: seq<nat>) returns (requests: nat, reached: bool)
    requires Rising(start, heights)
    ensures start <= target ==> requests <= target - start
    ensures start > target ==> requests == 0
    ensures reached <==> start >= target || exists h :: h in heights && h >= target
    ensures !reached ==> requests == |heights| + 1
    ensures reached && start < target ==>
              && 0 < requests <= |heights| && heights[requests - 1] >= target
              && forall i :: 0 <= i < requests - 1 ==> heights[i] < target
    ensures reached && start <= target && (forall i :: 0 <= i < |heights| ==> heights[i] == start + 1 + i) ==>
              requests == target - start
  {
    var actual := start;
    requests := 0;
    while actual < target
      invariant requests <= |heights|
      invariant actual == if requests == 0 then start else heights[requests - 1]
      invariant requests <= actual - start
      invariant forall i :: 0 <= i < requests - 1 ==> heights[i] < target
      invariant requests > 0 ==> start < target
      invariant requests > 1 ==> heights[requests - 2] < target && requests - 1 <= heights[requests - 2] - start
      decreases target - actual
    {
      var next := requests;
      requests := requests + 1;
      if next == |heights| {
        assert forall i :: 0 <= i < |heights| ==> heights[i] < target;
        return requests, false;
      }
      actual := heights[next];
    }
    assert requests > 0 ==> heights[requests - 1] in heights;
    reached := true;
  }
}
