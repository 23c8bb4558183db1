/** The proposal vectors of the consensus service, and the map they stand for. */
module ProposalTable {
  import opened Common
  import opened Voting

  /** One proposed block with what was received for it. */
  datatype BlockProposal = BlockProposal(
    block: Option<Executed>, hash: Hash, height: nat, count: nat,
    confirmations: seq<Confirmation>, round: nat)
  {
    function Name(): Key { Key(height, hash, round) }
    function Content(): Proposal { Proposal(block, confirmations) }
  }

  /** All proposals kept for one height. */
  datatype Bucket = Bucket(height: nat, proposals: seq<BlockProposal>)

  function NewProposal(block: Option<Executed>, batch: seq<Confirmation>): (p: BlockProposal)
    requires batch != []
    ensures p.Name() == KeyOf(batch[0]) && p.count == |p.confirmations|
  {
    BlockProposal(block, batch[0].hash, batch[0].height, |batch|, batch, batch[0].round)
  }

  // ---------- looking things up ----------

  function FindBucket(bs: seq<Bucket>, height: nat): (r: Option<nat>)
    ensures r.Some? ==> r.value < |bs| && bs[r.value].height == height
    ensures r.None? ==> forall b :: b in bs ==> b.height != height
  {
    if bs == [] then None
    else if bs[0].height == height then Some(0)
    else
      var r := FindBucket(bs[1..], height);
      if r.Some? then Some(r.value + 1) else None
  }

  function FindProposal(ps: seq<BlockProposal>, hash: Hash, round: nat): (r: Option<nat>)
    ensures r.Some? ==> r.value < |ps| && ps[r.value].hash == hash && ps[r.value].round == round
    ensures r.None? ==> forall p :: p in ps ==> !(p.hash == hash && p.round == round)
  {
    if ps == [] then None
    else if ps[0].hash == hash && ps[0].round == round then Some(0)
    else
      var r := FindProposal(ps[1..], hash, round);
      if r.Some? then Some(r.value + 1) else None
  }

  function FindRound(ps: seq<BlockProposal>, round: nat): (r: Option<nat>)
    ensures r.Some? ==> r.value < |ps| && ps[r.value].round == round
    ensures r.Some? ==> forall i :: 0 <= i < r.value ==> ps[i].round != round
    ensures r.None? ==> forall p :: p in ps ==> p.round != round
  {
    if ps == [] then None
    else if ps[0].round == round then Some(0)
    else
      var r := FindRound(ps[1..], round);
      if r.Some? then Some(r.value + 1) else None
  }

  function ProposalsAt(bs: seq<Bucket>, height: nat): seq<BlockProposal> {
    if bs == [] then [] else if bs[0].height == height then bs[0].proposals else ProposalsAt(bs[1..], height)
  }

  lemma {:induction false} FoundBucket(bs: seq<Bucket>, height: nat)
    ensures var i := FindBucket(bs, height);
            ProposalsAt(bs, height) == if i.Some? then bs[i.value].proposals else []
  {
    if bs != [] { FoundBucket(bs[1..], height); }
  }

  // ---------- changing things ----------

  function RetainAbove(bs: seq<Bucket>, height: nat): seq<Bucket> {
    if bs == [] then []
    else if bs[0].height <= height then RetainAbove(bs[1..], height)
    else [bs[0]] + RetainAbove(bs[1..], height)
  }

  function RetainRounds(ps: seq<BlockProposal>, round: nat): seq<BlockProposal> {
    if ps == [] then []
    else if ps[0].round >= round then [ps[0]] + RetainRounds(ps[1..], round)
    else RetainRounds(ps[1..], round)
  }

  function Insert(p: BlockProposal, ps: seq<BlockProposal>): seq<BlockProposal> {
    if ps == [] || ps[0].count <= p.count then [p] + ps
    else [ps[0]] + Insert(p, ps[1..])
  }

  /** The stable sort by falling count. */
  function SortByCount(ps: seq<BlockProposal>): seq<BlockProposal> {
    if ps == [] then [] else Insert(ps[0], SortByCount(ps[1..]))
  }

  ghost predicate DistinctNames(ps: seq<BlockProposal>) {
    ps != [] ==> (forall p :: p in ps[1..] ==> p.Name() != ps[0].Name()) && DistinctNames(ps[1..])
  }

  ghost predicate Sorted(ps: seq<BlockProposal>) {
    ps != [] ==> (forall p :: p in ps[1..] ==> p.count <= ps[0].count) && Sorted(ps[1..])
  }

  lemma {:induction false} InsertContents(p: BlockProposal, ps: seq<BlockProposal>)
    ensures multiset(Insert(p, ps)) == multiset(ps) + multiset{p}
    ensures forall x :: x in Insert(p, ps) <==> x == p || x in ps
  {
    if ps != [] && ps[0].count > p.count {
      InsertContents(p, ps[1..]);
      assert ps == [ps[0]] + ps[1..];
    }
  }

  lemma {:induction false} InsertKeeps(p: BlockProposal, ps: seq<BlockProposal>)
    ensures Sorted(ps) ==> Sorted(Insert(p, ps))
    ensures DistinctNames(ps) && (forall x :: x in ps ==> x.Name() != p.Name()) ==> DistinctNames(Insert(p, ps))
  {
    var r := Insert(p, ps);
    if ps == [] || ps[0].count <= p.count {
      assert r[1..] == ps;
    } else {
      InsertContents(p, ps[1..]);
      InsertKeeps(p, ps[1..]);
      assert r[1..] == Insert(p, ps[1..]);
    }
  }

  /** Sorting is a permutation with falling counts that keeps names distinct. */
  lemma {:induction false} SortContents(ps: seq<BlockProposal>)
    ensures multiset(SortByCount(ps)) == multiset(ps)
    ensures forall p :: p in SortByCount(ps) <==> p in ps
  {
    if ps != [] {
      SortContents(ps[1..]);
      InsertContents(ps[0], SortByCount(ps[1..]));
      assert ps == [ps[0]] + ps[1..];
    }
  }

  lemma {:induction false} SortKeeps(ps: seq<BlockProposal>)
    ensures Sorted(SortByCount(ps))
    ensures DistinctNames(ps) ==> DistinctNames(SortByCount(ps))
  {
    if ps != [] {
      SortKeeps(ps[1..]);
      SortContents(ps[1..]);
      InsertKeeps(ps[0], SortByCount(ps[1..]));
    }
  }

  /** In a sorted vector the first proposal of a round is a most confirmed one. */
  lemma {:induction false} FirstIsMost(ps: seq<BlockProposal>, round: nat)
    requires Sorted(ps)
    ensures var r := FindRound(ps, round);
            r.Some? ==> forall p :: p in ps && p.round == round ==> p.count <= ps[r.value].count
  {
    if ps != [] && ps[0].round != round {
      FirstIsMost(ps[1..], round);
    }
  }

  lemma {:induction false} UpdateNames(ps: seq<BlockProposal>, j: nat, p: BlockProposal)
    requires j < |ps| && p.Name() == ps[j].Name() && DistinctNames(ps)
    ensures DistinctNames(ps[j := p])
    ensures forall x :: x in ps[j := p] ==> x == p || (x in ps && x.Name() != p.Name())
    ensures forall x :: x in ps && x.Name() != p.Name() ==> x in ps[j := p]
  {
    if j == 0 {
      assert ps[j := p][1..] == ps[1..];
    } else {
      UpdateNames(ps[1..], j - 1, p);
      assert ps[j := p][1..] == ps[1..][j - 1 := p];
      assert ps[j] in ps[1..];
      assert ps == [ps[0]] + ps[1..] && ps[j := p] == [ps[0]] + ps[1..][j - 1 := p];
    }
  }

  lemma {:induction false} PushNames(ps: seq<BlockProposal>, p: BlockProposal)
    requires DistinctNames(ps) && forall x :: x in ps ==> x.Name() != p.Name()
    ensures DistinctNames(ps + [p])
  {
    if ps != [] {
      PushNames(ps[1..], p);
      assert (ps + [p])[1..] == ps[1..] + [p];
    }
  }

  lemma {:induction false} RetainRoundsKeeps(ps: seq<BlockProposal>, round: nat)
    ensures forall p :: p in RetainRounds(ps, round) <==> p in ps && p.round >= round
    ensures DistinctNames(ps) ==> DistinctNames(RetainRounds(ps, round))
  {
    if ps != [] {
      RetainRoundsKeeps(ps[1..], round);
      assert ps == [ps[0]] + ps[1..];
      assert ps[0].round >= round ==> RetainRounds(ps, round)[1..] == RetainRounds(ps[1..], round);
    }
  }

  // ---------- the map the vectors stand for ----------

  ghost predicate OnePerHeight(bs: seq<Bucket>) {
    bs != [] ==> (forall b :: b in bs[1..] ==> b.height != bs[0].height) && OnePerHeight(bs[1..])
  }

  ghost predicate StandsFor(p: BlockProposal, table: map<Key, Proposal>) {
    && p.count == |p.confirmations|
    && p.Name() in table && table[p.Name()] == p.Content()
  }

  ghost predicate RowOk(bs: seq<Bucket>, h: nat, table: map<Key, Proposal>) {
    && DistinctNames(ProposalsAt(bs, h))
    && forall p :: p in ProposalsAt(bs, h) ==> p.height == h && StandsFor(p, table)
  }

  ghost predicate Covered(bs: seq<Bucket>, k: Key) {
    exists p :: p in ProposalsAt(bs, k.height) && p.Name() == k
  }

  /** One bucket per height, one proposal per name in it, and exactly the entries of the map. */
  ghost predicate Represents(bs: seq<Bucket>, table: map<Key, Proposal>) {
    && OnePerHeight(bs)
    && (forall h: nat :: RowOk(bs, h, table))
    && (forall k :: k in table ==> Covered(bs, k))
  }

  /** Looking up by height, then by hash and round, is looking up in the map. */
  lemma LookupIsMap(bs: seq<Bucket>, table: map<Key, Proposal>, k: Key)
    requires Represents(bs, table)
    ensures var j := FindProposal(ProposalsAt(bs, k.height), k.hash, k.round);
            && (j.Some? <==> k in table)
            && (j.Some? ==> var p := ProposalsAt(bs, k.height)[j.value]; p.Name() == k && StandsFor(p, table))
  {
    assert RowOk(bs, k.height, table) && (k in table ==> Covered(bs, k));
    var ps := ProposalsAt(bs, k.height);
    var j := FindProposal(ps, k.hash, k.round);
    if j.Some? { assert ps[j.value] in ps; }
  }

  /** Replacing the proposals of an existing height, or adding a new height. */
  function Replace(bs: seq<Bucket>, height: nat, ps: seq<BlockProposal>): seq<Bucket> {
    var i := FindBucket(bs, height);
    if i.Some? then bs[i.value := Bucket(height, ps)] else bs + [Bucket(height, ps)]
  }

  lemma {:induction false} FindReplaced(bs: seq<Bucket>, height: nat, ps: seq<BlockProposal>, h: nat)
    ensures ProposalsAt(Replace(bs, height, ps), h) == if h == height then ps else ProposalsAt(bs, h)
  {
    if bs != [] && bs[0].height != height {
      FindReplaced(bs[1..], height, ps, h);
      assert Replace(bs, height, ps)[1..] == Replace(bs[1..], height, ps);
    }
  }

  lemma {:induction false} ReplaceOnePerHeight(bs: seq<Bucket>, height: nat, ps: seq<BlockProposal>)
    requires OnePerHeight(bs)
    ensures OnePerHeight(Replace(bs, height, ps))
    ensures forall b :: b in Replace(bs, height, ps) ==> b in bs || b.height == height
  {
    if bs != [] {
      if bs[0].height == height {
        assert Replace(bs, height, ps)[1..] == bs[1..];
      } else {
        ReplaceOnePerHeight(bs[1..], height, ps);
        assert Replace(bs, height, ps)[1..] == Replace(bs[1..], height, ps);
      }
    }
  }

  lemma {:induction false} FindRetained(bs: seq<Bucket>, height: nat, h: nat)
    ensures ProposalsAt(RetainAbove(bs, height), h) == if h <= height then [] else ProposalsAt(bs, h)
  {
    if bs != [] {
      FindRetained(bs[1..], height, h);
      assert bs[0].height > height ==> RetainAbove(bs, height)[1..] == RetainAbove(bs[1..], height);
    }
  }

  lemma {:induction false} RetainOnePerHeight(bs: seq<Bucket>, height: nat)
    requires OnePerHeight(bs)
    ensures OnePerHeight(RetainAbove(bs, height))
    ensures forall b :: b in RetainAbove(bs, height) ==> b in bs
  {
    if bs != [] {
      RetainOnePerHeight(bs[1..], height);
      assert bs[0].height > height ==> RetainAbove(bs, height)[1..] == RetainAbove(bs[1..], height);
    }
  }

  /** New proposals for one height represent the map they agree with, if the map changed only there. */
  lemma ReplaceRepresents(bs: seq<Bucket>, table: map<Key, Proposal>, height: nat, ps: seq<BlockProposal>,
                          after: map<Key, Proposal>)
    requires Represents(bs, table)
    requires DistinctNames(ps) && forall p :: p in ps ==> p.height == height && StandsFor(p, after)
    requires forall k: Key :: k.height != height ==>
               (k in table <==> k in after) && (k in table ==> table[k] == after[k])
    requires forall k :: k in after && k.height == height ==> exists p :: p in ps && p.Name() == k
    ensures Represents(Replace(bs, height, ps), after)
  {
    var next := Replace(bs, height, ps);
    ReplaceOnePerHeight(bs, height, ps);
    forall h: nat ensures RowOk(next, h, after) {
      FindReplaced(bs, height, ps, h);
      assert RowOk(bs, h, table);
    }
    forall k | k in after ensures Covered(next, k) {
      FindReplaced(bs, height, ps, k.height);
      assert k.height != height ==> Covered(bs, k);
    }
  }

  lemma RetainRepresents(bs: seq<Bucket>, table: map<Key, Proposal>, height: nat)
    requires Represents(bs, table)
    ensures Represents(RetainAbove(bs, height), map k | k in table && k.height > height :: table[k])
  {
    var next := RetainAbove(bs, height);
    var after := map k | k in table && k.height > height :: table[k];
    RetainOnePerHeight(bs, height);
    forall h: nat ensures RowOk(next, h, after) {
      FindRetained(bs, height, h);
      assert RowOk(bs, h, table);
    }
    forall k | k in after ensures Covered(next, k) {
      FindRetained(bs, height, k.height);
      assert Covered(bs, k);
    }
  }

  /** Putting an updated or new proposal in place follows the update of the map. */
  lemma UpdateRepresents(bs: seq<Bucket>, table: map<Key, Proposal>, batch: seq<Confirmation>,
                         block: Option<Executed>, p: BlockProposal)
    requires Represents(bs, table) && batch != []
    requires p.Name() == KeyOf(batch[0]) && StandsFor(p, UpdateTable(table, batch, block))
    ensures var k := KeyOf(batch[0]);
            var rows := ProposalsAt(bs, k.height);
            var j := FindProposal(rows, k.hash, k.round);
            var ps := if j.Some? then rows[j.value := p] else rows + [p];
            Represents(Replace(bs, k.height, ps), UpdateTable(table, batch, block))
  {
    var k, after := KeyOf(batch[0]), UpdateTable(table, batch, block);
    var rows := ProposalsAt(bs, k.height);
    var j := FindProposal(rows, k.hash, k.round);
    var ps := if j.Some? then rows[j.value := p] else rows + [p];
    LookupIsMap(bs, table, k);
    assert RowOk(bs, k.height, table);
    if j.Some? {
      UpdateNames(rows, j.value, p);
      assert ps[j.value] == p;
    } else {
      PushNames(rows, p);
      assert ps[|rows|] == p;
    }
    forall n | n in after && n.height == k.height ensures exists q :: q in ps && q.Name() == n {
      if n == k { assert p in ps; } else { assert Covered(bs, n); }
    }
    ReplaceRepresents(bs, table, k.height, ps, after);
  }

  lemma SortRepresents(bs: seq<Bucket>, table: map<Key, Proposal>, h: nat)
    requires Represents(bs, table)
    ensures Represents(Replace(bs, h, SortByCount(ProposalsAt(bs, h))), table)
  {
    var rows := ProposalsAt(bs, h);
    assert RowOk(bs, h, table);
    SortContents(rows);
    SortKeeps(rows);
    forall k | k in table && k.height == h ensures exists p :: p in SortByCount(rows) && p.Name() == k {
      assert Covered(bs, k);
    }
    ReplaceRepresents(bs, table, h, SortByCount(rows), table);
  }

  /** The buckets after dropping the passed rounds of one height and sorting the rest. */
  function Checked(bs: seq<Bucket>, h: nat, round: nat): seq<Bucket> {
    var i := FindBucket(bs, h);
    if i.Some? then bs[i.value := Bucket(h, SortByCount(RetainRounds(bs[i.value].proposals, round)))] else bs
  }

  lemma CheckOldRepresents(bs: seq<Bucket>, table: map<Key, Proposal>, h: nat, round: nat)
    requires Represents(bs, table)
    ensures Represents(Checked(bs, h, round), map k | k in table && !(k.height == h && k.round < round) :: table[k])
    ensures Sorted(ProposalsAt(Checked(bs, h, round), h))
  {
    var rows := ProposalsAt(bs, h);
    var kept := RetainRounds(rows, round);
    var after := map k | k in table && !(k.height == h && k.round < round) :: table[k];
    FoundBucket(bs, h);
    assert RowOk(bs, h, table);
    RetainRoundsKeeps(rows, round);
    SortContents(kept);
    SortKeeps(kept);
    forall k | k in table && k.height == h && k.round >= round
      ensures exists p :: p in SortByCount(kept) && p.Name() == k
    {
      assert Covered(bs, k);
    }
    if FindBucket(bs, h).Some? {
      ReplaceRepresents(bs, table, h, SortByCount(kept), after);
      FindReplaced(bs, h, SortByCount(kept), h);
    } else {
      forall k | k in table ensures k.height != h { assert Covered(bs, k); }
      assert after == table;
    }
  }
}
