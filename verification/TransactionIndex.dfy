/** The transaction and attachment indexes of the database. */
module TransactionIndex {
  import opened Common

  /** A transaction payload. The payload of a bulk holds an unsigned root and signed nodes. */
  datatype Data = BulkV1(root: Data, nodes: Option<seq<Signed>>) | OtherData(content: seq<byte>)

  datatype Signed = Signed(data: Data, signature: seq<byte>)

  /** Either wrapper can hold any payload. */
  datatype Transaction = UnitTransaction(signed: Signed) | BulkTransaction(signed: Signed)

  /** What is hashed: a payload alone, or a transaction with its tag and signature. */
  datatype Content = OfData(data: Data) | OfTransaction(tx: Transaction)

  type Digest = Content -> Hash

  /** No two contents share a hash. */
  ghost predicate Injective(digest: Digest) {
    forall a, b :: digest(a) == digest(b) ==> a == b
  }

  const U64_MAX: nat := 0xFFFF_FFFF_FFFF_FFFF

  function DataHash(digest: Digest, data: Data): Hash {
    digest(OfData(data))
  }

  /** A transaction's own hash covers its payload only. */
  function GetHash(digest: Digest, tx: Transaction): Hash {
    DataHash(digest, tx.signed.data)
  }

  /** The hash of the whole transaction, under which genesis records are kept. */
  function PrimaryHash(digest: Digest, tx: Transaction): Hash {
    digest(OfTransaction(tx))
  }

  function NodeHashes(digest: Digest, nodes: seq<Signed>): seq<Hash> {
    seq(|nodes|, i requires 0 <= i < |nodes| => DataHash(digest, nodes[i].data))
  }

  function Nodes(data: Data): seq<Signed> {
    if data.BulkV1? && data.nodes.Some? then data.nodes.value else []
  }

  ghost predicate IsNode(digest: Digest, data: Data, h: Hash) {
    h in NodeHashes(digest, Nodes(data))
  }

  ghost predicate IsRoot(digest: Digest, data: Data, h: Hash) {
    data.BulkV1? && DataHash(digest, data.root) == h
  }

  // ---------- storing attachments ----------

  ghost function PutAll<V>(m: map<Hash, V>, keys: seq<Hash>, v: V): map<Hash, V>
    decreases |keys|
  {
    if keys == [] then m else PutAll(m[keys[0] := v], keys[1..], v)
  }

  lemma {:induction false} PutAllContents<V>(m: map<Hash, V>, keys: seq<Hash>, v: V)
    ensures forall a :: a in keys ==> a in PutAll(m, keys, v) && PutAll(m, keys, v)[a] == v
    ensures forall a :: a !in keys ==>
              (a in PutAll(m, keys, v) <==> a in m) && (a in m ==> PutAll(m, keys, v)[a] == m[a])
    decreases |keys|
  {
    if keys != [] {
      PutAllContents(m[keys[0] := v], keys[1..], v);
      assert keys == [keys[0]] + keys[1..];
    }
  }

  /** An index after storing a transaction: the root first, then the nodes. */
  ghost function Attach<V>(digest: Digest, m: map<Hash, V>, tx: Transaction, forRoot: V, forNode: V): map<Hash, V> {
    var data := tx.signed.data;
    if tx.BulkTransaction? && data.BulkV1?
    then PutAll(m[DataHash(digest, data.root) := forRoot], NodeHashes(digest, Nodes(data)), forNode)
    else m
  }

  // ---------- what the indexes keep ----------

  /** A transaction is stored under its own hash or, from genesis, under its primary hash. */
  ghost predicate KeyFor(digest: Digest, key: Hash, tx: Transaction) {
    key == GetHash(digest, tx) || key == PrimaryHash(digest, tx)
  }

  ghost predicate Keyed(digest: Digest, transactions: map<Hash, Transaction>) {
    forall k :: k in transactions ==> KeyFor(digest, k, transactions[k])
  }

  /** Equal keys give equal payloads, and equal primary hashes the same transaction. */
  lemma SameKey(digest: Digest, key: Hash, a: Transaction, b: Transaction)
    requires Injective(digest) && KeyFor(digest, key, a) && KeyFor(digest, key, b)
    ensures a.signed.data == b.signed.data
    ensures key == PrimaryHash(digest, b) ==> a == b
    ensures (key == GetHash(digest, a)) != (key == PrimaryHash(digest, a))
  {
    assert OfTransaction(a) != OfData(b.signed.data) && OfData(a.signed.data) != OfTransaction(b);
  }

  /** Each attachment points to a stored payload that carries it, as a node if it was last stored as one. */
  ghost predicate IndexOk(digest: Digest, transactions: map<Hash, Transaction>, attachments: map<Hash, Hash>,
                          asNode: map<Hash, bool>) {
    && asNode.Keys == attachments.Keys
    && forall a :: a in attachments ==>
         && attachments[a] in transactions
         && var data := transactions[attachments[a]].signed.data;
            && (IsRoot(digest, data, a) || IsNode(digest, data, a))
            && (asNode[a] ==> IsNode(digest, data, a))
  }

  lemma AttachKeeps(digest: Digest, transactions: map<Hash, Transaction>, attachments: map<Hash, Hash>,
                    asNode: map<Hash, bool>, key: Hash, tx: Transaction)
    requires IndexOk(digest, transactions, attachments, asNode)
    requires key in transactions ==> transactions[key].signed.data == tx.signed.data
    ensures IndexOk(digest, transactions[key := tx], Attach(digest, attachments, tx, key, key),
                    Attach(digest, asNode, tx, false, true))
  {
    var data := tx.signed.data;
    if tx.BulkTransaction? && data.BulkV1? {
      var root := DataHash(digest, data.root);
      PutAllContents(attachments[root := key], NodeHashes(digest, Nodes(data)), key);
      PutAllContents(asNode[root := false], NodeHashes(digest, Nodes(data)), true);
    }
  }

  /** Storing keeps the indexes, and never changes the payload under a key. */
  lemma StoreKeeps(digest: Digest, transactions: map<Hash, Transaction>, attachments: map<Hash, Hash>,
                   asNode: map<Hash, bool>, key: Hash, tx: Transaction)
    requires Injective(digest) && Keyed(digest, transactions) && KeyFor(digest, key, tx)
    requires IndexOk(digest, transactions, attachments, asNode)
    ensures Keyed(digest, transactions[key := tx])
    ensures key in transactions ==> transactions[key].signed.data == tx.signed.data
    ensures IndexOk(digest, transactions[key := tx], Attach(digest, attachments, tx, key, key),
                    Attach(digest, asNode, tx, false, true))
  {
    if key in transactions { SameKey(digest, key, transactions[key], tx); }
    AttachKeeps(digest, transactions, attachments, asNode, key, tx);
  }

  function FindNode(digest: Digest, nodes: seq<Signed>, h: Hash): (r: Option<Signed>)
    ensures r.Some? ==> r.value in nodes && DataHash(digest, r.value.data) == h
    ensures r.Some? ==> exists i :: 0 <= i < |nodes| && r.value == nodes[i] && h !in NodeHashes(digest, nodes)[..i]
    ensures r.Some? <==> h in NodeHashes(digest, nodes)
  {
    if nodes == [] then None
    else
      assert NodeHashes(digest, nodes) == [DataHash(digest, nodes[0].data)] + NodeHashes(digest, nodes[1..]);
      if DataHash(digest, nodes[0].data) == h then Some(nodes[0]) else FindNode(digest, nodes[1..], h)
  }

  /** The hash list of a block: primary hashes at genesis, own hashes above. */
  function ListedHash(digest: Digest, height: nat, tx: Transaction): Hash {
    if height > 0 then GetHash(digest, tx) else PrimaryHash(digest, tx)
  }

  function ListedHashes(digest: Digest, height: nat, txs: seq<Transaction>): seq<Hash> {
    seq(|txs|, i requires 0 <= i < |txs| => ListedHash(digest, height, txs[i]))
  }

  lemma PrimaryDiffers(digest: Digest, txs: seq<Transaction>)
    requires Injective(digest)
    ensures forall i :: 0 <= i < |txs| ==> GetHash(digest, txs[i]) != ListedHashes(digest, 0, txs)[i]
  {
    forall i | 0 <= i < |txs| ensures GetHash(digest, txs[i]) != ListedHashes(digest, 0, txs)[i] {
      assert OfData(txs[i].signed.data) != OfTransaction(txs[i]);
    }
  }

  /** Primary hashes are listed at genesis, payload hashes above. */
  ghost predicate KindAt(digest: Digest, height: nat, h: Hash) {
    if height > 0 then exists data :: DataHash(digest, data) == h else exists tx :: PrimaryHash(digest, tx) == h
  }

  /** What the execution and consolidation of a block leave to be stored. */
  datatype Execution = Execution(block: Block, confirmed: seq<Confirmation>, txs: seq<Transaction>)

  datatype FullBlock = FullBlock(block: Block, confirmations: seq<Confirmation>, txs: seq<Transaction>)

  class Db {
    const digest: Digest
    var transactions: map<Hash, Transaction>
    var attachments: map<Hash, Hash>
    var blocks: seq<Block>
    var confirmations: seq<seq<Confirmation>>
    var txsHashes: map<nat, seq<Hash>>
    ghost var storedAsNode: map<Hash, bool>  // for each attachment, whether it was last stored as a node

    ghost predicate Valid()
      reads this
    {
      && Injective(digest) && Keyed(digest, transactions)
      && IndexOk(digest, transactions, attachments, storedAsNode)
    }

    /** Each list holds the kind of hash its height calls for. */
    ghost predicate Listings()
      reads this`txsHashes
    {
      forall height, h :: height in txsHashes && h in txsHashes[height] ==> KindAt(digest, height, h)
    }

    /** The block at position `g` lists these transactions, and each is stored under its listed hash. */
    ghost predicate Holds(g: nat, txs: seq<Transaction>)
      reads this
    {
      && g < |blocks| && g < |confirmations|
      && HashesAt(blocks[g].height) == ListedHashes(digest, blocks[g].height, txs)
      && forall tx :: tx in txs ==> ListedHash(digest, blocks[g].height, tx) in transactions
    }

    /** One block for each height so far, and no hashes listed ahead of them. */
    ghost predicate Chained()
      reads this
    {
      && |blocks| == |confirmations|
      && (forall g :: 0 <= g < |blocks| ==> blocks[g].height == g)
      && (forall h: nat :: h >= |blocks| ==> HashesAt(h) == [])
    }

    constructor (digest: Digest)
      requires Injective(digest)
      ensures Valid() && Listings() && this.digest == digest
      ensures transactions == map[] && blocks == [] && confirmations == [] && txsHashes == map[]
    {
      this.digest := digest;
      transactions, attachments, blocks, confirmations, txsHashes := map[], map[], [], [], map[];
      storedAsNode := map[];
    }

    /** Records the root, then the nodes, as attachments of `key`; everything else stays as it was. */
    method StoreTransaction(key: Hash, tx: Transaction)
      requires Valid() && KeyFor(digest, key, tx)
      modifies this`transactions, this`attachments, this`storedAsNode
      ensures Valid()
      ensures transactions == old(transactions)[key := tx]
      ensures key in old(transactions) ==> old(transactions)[key].signed.data == tx.signed.data
      ensures attachments == Attach(digest, old(attachments), tx, key, key)
      ensures storedAsNode == Attach(digest, old(storedAsNode), tx, false, true)
    {
      var data := tx.signed.data;
      if tx.BulkTransaction? && data.BulkV1? {
        attachments := attachments[DataHash(digest, data.root) := key];
        storedAsNode := storedAsNode[DataHash(digest, data.root) := false];
        if data.nodes.Some? {
          AttachNodes(data.nodes.value, key);
        }
      }
      transactions := transactions[key := tx];
      StoreKeeps(digest, old(transactions), old(attachments), old(storedAsNode), key, tx);
    }

    method AttachNodes(nodes: seq<Signed>, key: Hash)
      modifies this`attachments, this`storedAsNode
      ensures attachments == PutAll(old(attachments), NodeHashes(digest, nodes), key)
      ensures storedAsNode == PutAll(old(storedAsNode), NodeHashes(digest, nodes), true)
    {
      ghost var keys := NodeHashes(digest, nodes);
      for i := 0 to |nodes|
        invariant PutAll(attachments, keys[i..], key) == PutAll(old(attachments), keys, key)
        invariant PutAll(storedAsNode, keys[i..], true) == PutAll(old(storedAsNode), keys, true)
      {
        assert keys[i..][1..] == keys[i + 1..];
        attachments := attachments[DataHash(digest, nodes[i].data) := key];
        storedAsNode := storedAsNode[DataHash(digest, nodes[i].data) := true];
      }
    }

    method StoreBlock(block: Block, confirmed: seq<Confirmation>, hashes: seq<Hash>)
      requires Valid()
      modifies this`blocks, this`confirmations, this`txsHashes
      ensures Valid() && blocks == old(blocks) + [block] && confirmations == old(confirmations) + [confirmed]
      ensures forall h :: h != block.height ==> HashesAt(h) == old(HashesAt(h))
      ensures HashesAt(block.height) == old(HashesAt(block.height)) + hashes
      ensures old(Listings()) && (forall h :: h in hashes ==> KindAt(digest, block.height, h)) ==> Listings()
    {
      blocks := blocks + [block];
      confirmations := confirmations + [confirmed];
      txsHashes := txsHashes[block.height := HashesAt(block.height) + hashes];
    }

    /** Stores what the execution of a block leaves behind: each transaction under its own hash, then the list. */
    method StoreExecuted(block: Block, confirmed: seq<Confirmation>, txs: seq<Transaction>)
      requires Valid()
      modifies this
      ensures Valid() && blocks == old(blocks) + [block] && confirmations == old(confirmations) + [confirmed]
      ensures forall h :: h != block.height ==> HashesAt(h) == old(HashesAt(h))
      ensures HashesAt(block.height) == old(HashesAt(block.height)) + ListedHashes(digest, block.height, txs)
      ensures old(Listings()) ==> Listings()
      ensures forall g: nat, ts :: old(Holds(g, ts)) && old(blocks[g].height) != block.height ==> Holds(g, ts)
      ensures forall tx :: tx in txs ==> GetHash(digest, tx) in transactions
      ensures forall k :: k in old(transactions) ==>
                k in transactions && transactions[k].signed.data == old(transactions)[k].signed.data
    {
      for i := 0 to |txs|
        invariant Valid() && unchanged(`blocks, `confirmations, `txsHashes)
        invariant forall tx :: tx in txs[..i] ==> GetHash(digest, tx) in transactions
        invariant forall k :: k in old(transactions) ==>
                    k in transactions && transactions[k].signed.data == old(transactions)[k].signed.data
      {
        StoreTransaction(GetHash(digest, txs[i]), txs[i]);
      }
      var hashes := ListedHashes(digest, block.height, txs);
      forall h | h in hashes ensures KindAt(digest, block.height, h) {
        var i :| 0 <= i < |txs| && h == ListedHash(digest, block.height, txs[i]);
      }
      StoreBlock(block, confirmed, hashes);
    }

    /** Stores transactions a second time under their primary hashes. */
    method StoreCopies(txs: seq<Transaction>)
      requires Valid()
      modifies this`transactions, this`attachments, this`storedAsNode
      ensures Valid()
      ensures forall tx :: tx in txs ==> PrimaryHash(digest, tx) in transactions
      ensures old(transactions.Keys) <= transactions.Keys
    {
      for i := 0 to |txs|
        invariant Valid() && old(transactions.Keys) <= transactions.Keys
        invariant forall tx :: tx in txs[..i] ==> PrimaryHash(digest, tx) in transactions
      {
        StoreTransaction(PrimaryHash(digest, txs[i]), txs[i]);
      }
    }

    /** The first block of an empty database: executed, then its transactions stored a second time under their primary
        hashes. */
    method StoreGenesis(block: Block, txs: seq<Transaction>)
      requires Valid() && Listings() && block.height == 0
      requires blocks == [] && confirmations == [] && txsHashes == map[]
      modifies this
      ensures Valid() && Listings() && Chained() && Holds(0, txs)
      ensures blocks == [block] && confirmations == [[]]
    {
      assert forall h: nat :: HashesAt(h) == [];
      StoreExecuted(block, [], txs);
      assert [] + ListedHashes(digest, 0, txs) == ListedHashes(digest, 0, txs);
      StoreCopies(txs);
    }

    /** After genesis the full block that loads is the one stored, although none of its transactions has the hash
        listed for it. */
    static method Bootstrap(digest: Digest, block: Block, txs: seq<Transaction>) returns (db: Db)
      requires Injective(digest) && block.height == 0 && txs != []
      ensures db.Valid() && db.Listings() && db.digest == digest && fresh(db)
      ensures db.RemembersGenesis(block, txs)
      ensures |db.HashesAt(0)| == |txs|
      ensures forall i :: 0 <= i < |txs| ==> GetHash(digest, txs[i]) != db.HashesAt(0)[i]
    {
      db := new Db(digest);
      db.StoreGenesis(block, txs);
      db.GenesisLoads(block, txs);
      PrimaryDiffers(digest, txs);
    }

    /** Stores the next block of the chain. Each earlier position keeps what was stored at it. */
    method StoreNext(x: Execution)
      requires Valid() && Chained() && x.block.height == |blocks| > 0
      modifies this
      ensures Valid() && Chained() && (old(Listings()) ==> Listings())
      ensures blocks == old(blocks) + [x.block] && confirmations == old(confirmations) + [x.confirmed]
      ensures Holds(|old(blocks)|, x.txs)
      ensures forall g: nat, ts :: old(Holds(g, ts)) ==> Holds(g, ts)
    {
      assert HashesAt(x.block.height) == [];
      StoreExecuted(x.block, x.confirmed, x.txs);
      assert [] + ListedHashes(digest, x.block.height, x.txs) == ListedHashes(digest, x.block.height, x.txs);
    }

    /** Stores the blocks of a chain one after the other. */
    method StoreChain(chain: seq<Execution>)
      requires Valid() && Chained() && blocks != []
      requires forall i :: 0 <= i < |chain| ==> chain[i].block.height == |blocks| + i
      modifies this
      ensures Valid() && Chained() && (old(Listings()) ==> Listings())
      ensures StoredFrom(|old(blocks)|, chain)
      ensures old(blocks) <= blocks && old(confirmations) <= confirmations
      ensures forall g: nat, ts :: old(Holds(g, ts)) ==> Holds(g, ts)
    {
      ghost var n := |blocks|;
      for i := 0 to |chain|
        invariant Valid() && Chained() && StoredFrom(n, chain[..i]) && (old(Listings()) ==> Listings())
        invariant old(blocks) <= blocks && old(confirmations) <= confirmations
        invariant forall g: nat, ts :: old(Holds(g, ts)) ==> Holds(g, ts)
      {
        StoreNext(chain[i]);
      }
      assert chain[..|chain|] == chain;
    }

    /** A loaded block is the stored one, with the same payloads in order. */
    static ghost predicate Recalls(full: FullBlock, x: Execution) {
      && full.block == x.block && full.confirmations == x.confirmed && |full.txs| == |x.txs|
      && forall i :: 0 <= i < |x.txs| ==> full.txs[i].signed.data == x.txs[i].signed.data
    }

    /** The chain is stored from position `n` on. */
    ghost predicate StoredFrom(n: nat, chain: seq<Execution>)
      reads this
    {
      && |blocks| == |confirmations| == n + |chain|
      && forall i :: 0 <= i < |chain| ==>
           blocks[n + i] == chain[i].block && confirmations[n + i] == chain[i].confirmed && Holds(n + i, chain[i].txs)
    }

    /** Each height from `n` on loads the block and the confirmations of the chain stored there, with their
        transactions' payloads, unless the block has none; the largest height loads the last block. */
    ghost predicate Remembers(n: nat, chain: seq<Execution>)
      reads this
    {
      && (forall i :: 0 <= i < |chain| ==>
            && (LoadFullBlock(n + i).Some? <==> chain[i].txs != [])
            && (chain[i].txs != [] ==> Recalls(LoadFullBlock(n + i).value, chain[i])))
      && (chain != [] ==> LoadFullBlock(U64_MAX) == LoadFullBlock(n + |chain| - 1))
    }

    lemma ChainLoads(n: nat, chain: seq<Execution>)
      requires Valid() && StoredFrom(n, chain) && n + |chain| <= U64_MAX
      ensures Remembers(n, chain)
    {
      forall i | 0 <= i < |chain|
        ensures LoadFullBlock(n + i).Some? <==> chain[i].txs != []
        ensures chain[i].txs != [] ==> Recalls(LoadFullBlock(n + i).value, chain[i])
      {
        StoredBlockLoads(n + i, n + i, chain[i].txs);
      }
    }

    /** Genesis loads as the very block and transactions stored. */
    ghost predicate RemembersGenesis(block: Block, txs: seq<Transaction>)
      reads this
    {
      LoadFullBlock(0) == Some(FullBlock(block, [], txs))
    }

    lemma GenesisLoads(block: Block, txs: seq<Transaction>)
      requires Valid() && Holds(0, txs) && txs != []
      requires blocks[0] == block && confirmations[0] == [] && block.height == 0
      ensures RemembersGenesis(block, txs)
    {
      StoredBlockLoads(0, 0, txs);
      assert LoadFullBlock(0).value.txs == txs;
    }

    /** Round trip of a whole chain: after genesis and any further blocks, every height is remembered. */
    static method Replay(digest: Digest, genesis: Block, txs: seq<Transaction>, chain: seq<Execution>) returns (db: Db)
      requires Injective(digest) && genesis.height == 0 && txs != []
      requires |chain| < U64_MAX && forall i :: 0 <= i < |chain| ==> chain[i].block.height == i + 1
      ensures db.RemembersGenesis(genesis, txs) && db.Remembers(1, chain)
    {
      db := new Db(digest);
      db.StoreGenesis(genesis, txs);
      db.StoreChain(chain);
      db.GenesisLoads(genesis, txs);
      db.ChainLoads(1, chain);
    }

    // ---------- loading ----------

    function HashesAt(height: nat): seq<Hash>
      reads this`txsHashes
    {
      if height in txsHashes then txsHashes[height] else []
    }

    predicate ContainsTransaction(h: Hash)
      reads this
    {
      h in transactions || h in attachments
    }

    function LoadTransaction(h: Hash): Option<Transaction>
      reads this
    {
      if h in transactions then Some(transactions[h])
      else if h !in attachments || attachments[h] !in transactions then None
      else
        var parent := transactions[attachments[h]];
        var data := parent.signed.data;
        if !parent.BulkTransaction? || !data.BulkV1? || data.nodes.None? then None
        else
          var n := FindNode(digest, data.nodes.value, h);
          if n.Some? then Some(UnitTransaction(n.value)) else None
    }

    static function At<T>(list: seq<T>, height: nat): Option<T> {
      if height == U64_MAX then (if list == [] then None else Some(list[|list| - 1]))
      else if height < |list| then Some(list[height]) else None
    }

    function LoadAll(hashes: seq<Hash>): seq<Transaction>
      reads this
    {
      if hashes == [] then []
      else
        var tx := LoadTransaction(hashes[0]);
        (if tx.Some? then [tx.value] else []) + LoadAll(hashes[1..])
    }

    function LoadFullBlock(height: nat): Option<FullBlock>
      reads this
    {
      var block, confirmed := At(blocks, height), At(confirmations, height);
      if block.None? || confirmed.None? then None
      else
        var hashes := HashesAt(block.value.height);
        var txs := LoadAll(hashes);
        if hashes == [] || |txs| != |hashes| then None
        else Some(FullBlock(block.value, confirmed.value, txs))
    }

    /** What is loaded is the stored transaction itself or else, signature included, the first node of the parent with
        that hash, wrapped as a unit. */
    lemma LoadedFrom(h: Hash)
      requires LoadTransaction(h).Some?
      ensures h in transactions ==> LoadTransaction(h).value == transactions[h]
      ensures h !in transactions ==>
                && h in attachments && attachments[h] in transactions
                && var nodes := Nodes(transactions[attachments[h]].signed.data);
                   exists i :: 0 <= i < |nodes| && LoadTransaction(h).value == UnitTransaction(nodes[i])
                               && DataHash(digest, nodes[i].data) == h && h !in NodeHashes(digest, nodes)[..i]
    {
      if h !in transactions {
        var nodes := Nodes(transactions[attachments[h]].signed.data);
        var n := FindNode(digest, nodes, h);
        var i :| 0 <= i < |nodes| && n.value == nodes[i] && h !in NodeHashes(digest, nodes)[..i];
        assert LoadTransaction(h).value == UnitTransaction(nodes[i]);
      }
    }

    /** What is loaded under a hash has that hash, exactly unless the hash is the key of a genesis copy. */
    lemma LoadedHash(h: Hash)
      requires LoadTransaction(h).Some?
      ensures GetHash(digest, LoadTransaction(h).value) == h
              <==> (h in transactions ==> GetHash(digest, transactions[h]) == h)
      ensures Valid() ==> (GetHash(digest, LoadTransaction(h).value) == h
                           <==> !(h in transactions && PrimaryHash(digest, transactions[h]) == h))
    {
      if Valid() && h in transactions { SameKey(digest, h, transactions[h], transactions[h]); }
    }

    /** A hash last stored as a node loads, whatever was stored since, exactly if it is itself stored or its
        parent is still wrapped as a bulk. */
    lemma NodeLoads(h: Hash)
      requires Valid() && h in attachments && storedAsNode[h]
      ensures LoadTransaction(h).Some? <==> h in transactions || transactions[attachments[h]].BulkTransaction?
    {
    }

    /** Containing a hash promises that it loads, except for the root of a bulk that no node shares and for
        attachments of a payload stored again in a unit. */
    lemma LoadsIff(h: Hash)
      requires Valid() && ContainsTransaction(h)
      ensures LoadTransaction(h).None? <==>
              && h !in transactions
              && var parent := transactions[attachments[h]];
                 parent.UnitTransaction? || !IsNode(digest, parent.signed.data, h)
      ensures LoadTransaction(h).None? ==>
              var parent := transactions[attachments[h]];
              parent.UnitTransaction? || IsRoot(digest, parent.signed.data, h)
    {
    }

    /** Loading all hashes gives as many transactions iff each loads, and then in the same order. */
    lemma {:induction false} LoadAllComplete(hashes: seq<Hash>)
      ensures |LoadAll(hashes)| <= |hashes|
      ensures |LoadAll(hashes)| == |hashes| <==> forall h :: h in hashes ==> LoadTransaction(h).Some?
      ensures |LoadAll(hashes)| == |hashes| ==>
                forall i :: 0 <= i < |hashes| ==> LoadTransaction(hashes[i]) == Some(LoadAll(hashes)[i])
    {
      if hashes != [] {
        LoadAllComplete(hashes[1..]);
        assert hashes == [hashes[0]] + hashes[1..];
      }
    }

    /** What loads under a listed hash has that hash exactly above genesis. */
    lemma ListedMatchesIff(height: nat, h: Hash)
      requires Valid() && KindAt(digest, height, h) && LoadTransaction(h).Some?
      ensures GetHash(digest, LoadTransaction(h).value) == h <==> height > 0
    {
      LoadedHash(h);
      if height > 0 {
        var data :| DataHash(digest, data) == h;
        assert forall tx :: OfTransaction(tx) != OfData(data);
      } else {
        var tx :| PrimaryHash(digest, tx) == h;
        assert OfTransaction(tx) != OfData(LoadTransaction(h).value.signed.data);
      }
    }

    /** A height selects a position in the lists: its own, or the last one for the largest height. */
    ghost predicate Selects(height: nat, g: nat)
      reads this
    {
      && g < |blocks| && g < |confirmations|
      && (height != U64_MAX ==> g == height)
      && (height == U64_MAX ==> g + 1 == |blocks| == |confirmations|)
    }

    /** Loading gives the block and the confirmations at the selected position. */
    lemma LoadsSelected(height: nat)
      requires LoadFullBlock(height).Some?
      ensures height != U64_MAX ==>
                && height < |blocks| && LoadFullBlock(height).value.block == blocks[height]
                && height < |confirmations| && LoadFullBlock(height).value.confirmations == confirmations[height]
      ensures height == U64_MAX ==>
                && blocks != [] && LoadFullBlock(height).value.block == blocks[|blocks| - 1]
                && confirmations != []
                && LoadFullBlock(height).value.confirmations == confirmations[|confirmations| - 1]
    {
    }

    /** A full block is returned iff nothing is missing, with the block, the confirmations and one transaction for each
        listed hash; and these hash, in order, to the stored list iff the block is not genesis. */
    lemma FullBlockMatches(height: nat, g: nat)
      requires Selects(height, g)
      ensures LoadFullBlock(height).Some? <==>
                && HashesAt(blocks[g].height) != []
                && forall h :: h in HashesAt(blocks[g].height) ==> LoadTransaction(h).Some?
      ensures LoadFullBlock(height).Some? ==>
                var full := LoadFullBlock(height).value;
                var hashes := HashesAt(blocks[g].height);
                && full.block == blocks[g] && full.confirmations == confirmations[g]
                && |full.txs| == |hashes|
                && (forall i :: 0 <= i < |hashes| ==> LoadTransaction(hashes[i]) == Some(full.txs[i]))
                && (Valid() && Listings() ==>
                      ((forall i :: 0 <= i < |hashes| ==> GetHash(digest, full.txs[i]) == hashes[i])
                       <==> full.block.height > 0))
    {
      var hashes := HashesAt(blocks[g].height);
      LoadAllComplete(hashes);
      if Valid() && Listings() && |LoadAll(hashes)| == |hashes| {
        forall i | 0 <= i < |hashes|
          ensures GetHash(digest, LoadAll(hashes)[i]) == hashes[i] <==> blocks[g].height > 0
        {
          ListedMatchesIff(blocks[g].height, hashes[i]);
        }
      }
    }

    /** Round trip: a block that holds its transactions loads with their payloads in order, and at genesis with the
        very same transactions, unless it has none. */
    lemma StoredBlockLoads(height: nat, g: nat, txs: seq<Transaction>)
      requires Valid() && Selects(height, g) && Holds(g, txs)
      ensures LoadFullBlock(height).Some? <==> txs != []
      ensures txs != [] ==>
                var full := LoadFullBlock(height).value;
                && Recalls(full, Execution(blocks[g], confirmations[g], txs))
                && (blocks[g].height == 0 ==> full.txs == txs)
    {
      var h := blocks[g].height;
      var hashes := HashesAt(h);
      forall i | 0 <= i < |txs|
        ensures LoadTransaction(hashes[i]).Some?
        ensures LoadTransaction(hashes[i]).value.signed.data == txs[i].signed.data
        ensures h == 0 ==> LoadTransaction(hashes[i]).value == txs[i]
      {
        assert txs[i] in txs;
        ListedLoads(h, txs[i]);
      }
      LoadAllComplete(hashes);
    }

    /** A transaction stored under its listed hash loads with its payload, and under its primary hash as it is. */
    lemma ListedLoads(height: nat, tx: Transaction)
      requires Valid() && ListedHash(digest, height, tx) in transactions
      ensures var loaded := LoadTransaction(ListedHash(digest, height, tx));
              loaded.Some? && loaded.value.signed.data == tx.signed.data && (height == 0 ==> loaded.value == tx)
    {
      var key := ListedHash(digest, height, tx);
      SameKey(digest, key, transactions[key], tx);
    }

    // ---------- what is known but does not load ----------

    /** The root of a freshly stored bulk is known, and loads iff a node shares its payload. */
    static method RootWitness(digest: Digest, key: Hash, tx: Transaction) returns (db: Db)
      requires Injective(digest) && KeyFor(digest, key, tx) && tx.BulkTransaction? && tx.signed.data.BulkV1?
      ensures var root := DataHash(digest, tx.signed.data.root);
              && db.ContainsTransaction(root)
              && (db.LoadTransaction(root).Some? <==> IsNode(digest, tx.signed.data, root))
    {
      db := new Db(digest);
      db.StoreTransaction(key, tx);
      ghost var data := tx.signed.data;
      ghost var root := DataHash(digest, data.root);
      PutAllContents(map[root := key], NodeHashes(digest, Nodes(data)), key);
      assert OfData(data.root) != OfData(data) && OfData(data.root) != OfTransaction(tx);
      db.LoadsIff(root);
    }

    /** Storing the payload of a bulk again in a unit, which has the same hash, hides the bulk's nodes. */
    static method UnitWitness(digest: Digest, data: Data, node: Signed, s1: seq<byte>, s2: seq<byte>)
      returns (db: Db)
      requires Injective(digest) && data.BulkV1? && node in Nodes(data) && node.data.OtherData?
      ensures var h := DataHash(digest, node.data);
              h in db.storedAsNode && db.storedAsNode[h]
              && db.ContainsTransaction(h) && db.LoadTransaction(h).None?
    {
      db := new Db(digest);
      var key := DataHash(digest, data);
      db.StoreTransaction(key, BulkTransaction(Signed(data, s1)));
      ghost var h := DataHash(digest, node.data);
      assert h in NodeHashes(digest, Nodes(data)) by {
        var i :| 0 <= i < |Nodes(data)| && Nodes(data)[i] == node;
        assert NodeHashes(digest, Nodes(data))[i] == h;
      }
      ghost var root := DataHash(digest, data.root);
      PutAllContents(map[root := key], NodeHashes(digest, Nodes(data)), key);
      PutAllContents(map[root := false], NodeHashes(digest, Nodes(data)), true);
      db.StoreTransaction(key, UnitTransaction(Signed(data, s2)));
      assert OfData(node.data) != OfData(data);
      db.NodeLoads(h);
    }
  }
}
