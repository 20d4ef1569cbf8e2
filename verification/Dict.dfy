/** The hash table of redis/src/dict.cc. It never grows, and a lookup does not compare keys. */
module Dict {
  import opened Words
  import opened Zmalloc

  const DICT_HT_INITIAL_SIZE: nat := 4
  const LONG_MAX: nat := 0x7fff_ffff_ffff_ffff
  const SIZEOF_DICT: nat := 88
  const SIZEOF_ENTRY: nat := 24
  const SIZEOF_POINTER: nat := 8

  /** Bitwise and. */
  function And(a: nat, b: nat): nat {
    if a == 0 || b == 0 then 0 else (if a % 2 == 1 && b % 2 == 1 then 1 else 0) + 2 * And(a / 2, b / 2)
  }

  lemma {:induction false} PowersAreOrdered(j: nat, k: nat)
    ensures j < k <==> Pow2(j) < Pow2(k)
  {
    if j > 0 && k > 0 { PowersAreOrdered(j - 1, k - 1); }
  }

  /** _dictNextPower */
  method NextPower(size: nat) returns (r: nat, ghost k: nat)
    ensures size <= LONG_MAX ==> r == Pow2(k) && r >= DICT_HT_INITIAL_SIZE && r >= size
    ensures size <= LONG_MAX ==> forall j :: 0 <= j < k ==> Pow2(j) < DICT_HT_INITIAL_SIZE || Pow2(j) < size
    ensures size <= DICT_HT_INITIAL_SIZE ==> r == DICT_HT_INITIAL_SIZE
    ensures size > LONG_MAX ==> r == LONG_MAX + 1
  {
    r, k := DICT_HT_INITIAL_SIZE, 2;
    if size > LONG_MAX { return LONG_MAX + 1, 0; }
    assert Pow2(2) == 2 * Pow2(1) && Pow2(1) == 2 * Pow2(0);
    forall j | 0 <= j < 2
      ensures Pow2(j) < DICT_HT_INITIAL_SIZE
    {
      PowersAreOrdered(j, 2);
    }
    while r < size
      invariant r == Pow2(k) && k >= 2 && r >= DICT_HT_INITIAL_SIZE
      invariant size <= DICT_HT_INITIAL_SIZE ==> r == DICT_HT_INITIAL_SIZE
      invariant forall j :: 0 <= j < k ==> Pow2(j) < DICT_HT_INITIAL_SIZE || Pow2(j) < size
      decreases size - r
    {
      r := r * 2;
      k := k + 1;
    }
  }

  function Remainder(h: nat, m: nat): nat
    requires m >= 1
  {
    h % m
  }

  /** Masking with a power of two less one is the remainder. */
  lemma {:induction false} MaskIsRemainder(h: nat, k: nat)
    ensures And(h, Pow2(k) - 1) == Remainder(h, Pow2(k))
  {
    hide And, Remainder;
    if k == 0 || h == 0 {
      AndZero(h, Pow2(k) - 1);
      RemainderOfNone(h, Pow2(k));
    } else {
      var p := Pow2(k - 1);
      MaskIsRemainder(h / 2, k - 1);
      AndStep(h, p);
      HalfRemainder(h, p);
    }
  }

  lemma AndZero(a: nat, b: nat)
    ensures And(0, b) == 0 && And(a, 0) == 0
  {
  }

  lemma RemainderOfNone(h: nat, p: nat)
    requires p >= 1
    ensures Remainder(0, p) == 0 && Remainder(h, 1) == 0
  {
  }

  lemma AndStep(h: nat, p: nat)
    requires p >= 1 && h > 0
    ensures And(h, 2 * p - 1) == h % 2 + 2 * And(h / 2, p - 1)
  {
    assert (2 * p - 1) % 2 == 1 && (2 * p - 1) / 2 == p - 1;
  }

  lemma HalfRemainder(h: nat, p: nat)
    requires p >= 1
    ensures Remainder(h, 2 * p) == h % 2 + 2 * Remainder(h / 2, p)
  {
    var q, r := h / 2 / p, h / 2 % p;
    assert h / 2 == q * p + r;
    assert q * (2 * p) == 2 * (q * p);
    RemainderIs(h, 2 * p, q, 2 * r + h % 2);
  }

  lemma RemainderIs(h: nat, m: nat, q: nat, r: nat)
    requires m >= 1 && h == q * m + r && r < m
    ensures h % m == r
  {
    DivideUnique(h, m, q, r);
  }

  // ---------------------------------------------------------------------------
  // What a history of insertions leaves in the table

  type History<K, V> = seq<(K, V)>

  /** The pairs of one bucket, the latest first. */
  ghost function Bucket<K, V>(h: History<K, V>, index: K -> nat, i: nat): History<K, V> {
    if h == [] then []
    else
      var last := h[|h| - 1];
      (if index(last.0) == i then [last] else []) + Bucket(h[..|h| - 1], index, i)
  }

  ghost predicate Inserted<K, V>(h: History<K, V>, key: K) {
    exists j :: 0 <= j < |h| && h[j].0 == key
  }

  /** The value that a map would give: the one inserted last under the key. */
  ghost function Latest<K, V>(h: History<K, V>, key: K): V
    requires Inserted(h, key)
  {
    var last := h[|h| - 1];
    if last.0 == key then last.1
    else
      assert h == h[..|h| - 1] + [last];
      Latest(h[..|h| - 1], key)
  }

  lemma {:induction false} BucketOfInserted<K, V>(h: History<K, V>, index: K -> nat, key: K)
    requires Inserted(h, key)
    ensures Bucket(h, index, index(key)) != []
  {
    var prior, last := h[..|h| - 1], h[|h| - 1];
    if last.0 != key {
      var j :| 0 <= j < |h| && h[j].0 == key;
      assert prior[j].0 == key;
      BucketOfInserted(prior, index, key);
    }
  }

  lemma {:induction false} FirstWasInserted<K, V>(h: History<K, V>, index: K -> nat, i: nat)
    requires Bucket(h, index, i) != []
    ensures Bucket(h, index, i)[0] in h && index(Bucket(h, index, i)[0].0) == i
  {
    var prior, last := h[..|h| - 1], h[|h| - 1];
    if index(last.0) != i {
      FirstWasInserted(prior, index, i);
      assert Bucket(h, index, i) == Bucket(prior, index, i);
    }
  }

  lemma {:induction false} FirstIsLatest<K, V>(h: History<K, V>, index: K -> nat, key: K)
    requires Inserted(h, key) && Bucket(h, index, index(key)) != [] && Bucket(h, index, index(key))[0].0 == key
    ensures Bucket(h, index, index(key))[0].1 == Latest(h, key)
  {
    var prior, last := h[..|h| - 1], h[|h| - 1];
    if index(last.0) != index(key) {
      var j :| 0 <= j < |h| && h[j].0 == key;
      assert prior[j].0 == key;
      assert Bucket(h, index, index(key)) == Bucket(prior, index, index(key));
      FirstIsLatest(prior, index, key);
    }
  }

  /** Different inserted keys are in different buckets. */
  ghost predicate NoCollision<K(!new), V>(h: History<K, V>, index: K -> nat) {
    forall a, b :: Inserted(h, a) && Inserted(h, b) && index(a) == index(b) ==> a == b
  }

  /** What is first in the bucket of each inserted key is the latest pair of that very key, exactly if no two
      different keys share a bucket. */
  lemma LookupIsRightWithoutCollisions<K(!new), V>(h: History<K, V>, index: K -> nat)
    ensures (forall key :: Inserted(h, key) ==>
      Bucket(h, index, index(key)) != [] && Bucket(h, index, index(key))[0].0 == key)
       <==> NoCollision(h, index)
    ensures NoCollision(h, index) ==> forall key :: Inserted(h, key) ==>
      Bucket(h, index, index(key)) != [] && Bucket(h, index, index(key))[0] == (key, Latest(h, key))
  {
    hide Bucket, Latest;
    forall key | Inserted(h, key)
      ensures Bucket(h, index, index(key)) != [] && index(Bucket(h, index, index(key))[0].0) == index(key) &&
        Inserted(h, Bucket(h, index, index(key))[0].0)
    {
      BucketOfInserted(h, index, key);
      FirstWasInserted(h, index, index(key));
    }
    if NoCollision(h, index) {
      forall key | Inserted(h, key)
        ensures Bucket(h, index, index(key))[0] == (key, Latest(h, key))
      {
        FirstIsLatest(h, index, key);
      }
    }
  }

  // ---------------------------------------------------------------------------
  // The table

  /** The outcome of a lookup. The code goes on from an empty bucket to a table that does not exist: it reads through a
      null pointer, and what happens then is not defined. */
  datatype Lookup<+T> = Found(value: T) | ReadsThroughNull

  class DictEntry<K, V> {
    const key: K
    const value: V
    var next: DictEntry?<K, V>

    constructor (key: K, value: V)
      ensures this.key == key && this.value == value && next == null
    {
      this.key, this.value, next := key, value, null;
    }
  }

  /** A chain of entries, ended by null. */
  ghost predicate Chain<K, V>(head: DictEntry?<K, V>, entries: seq<DictEntry<K, V>>)
    reads entries
  {
    if entries == [] then head == null else head == entries[0] && Chain(entries[0].next, entries[1..])
  }

  ghost function Pairs<K, V>(entries: seq<DictEntry<K, V>>): (h: History<K, V>)
    ensures |h| == |entries|
  {
    seq(|entries|, i requires 0 <= i < |entries| => (entries[i].key, entries[i].value))
  }

  ghost function Nodes<K, V>(entries: seq<DictEntry<K, V>>): set<object> {
    set e | e in entries
  }

  ghost predicate Distinct<K, V>(entries: seq<DictEntry<K, V>>) {
    forall a, b :: 0 <= a < b < |entries| ==> entries[a] != entries[b]
  }

  ghost predicate Live<K, V>(prefix: map<object, nat>, entries: seq<DictEntry<K, V>>) {
    forall e :: e in entries ==> e in prefix && prefix[e] == SIZEOF_ENTRY
  }

  /** All the entries of some chains. */
  ghost function AllNodes<K, V>(chains: seq<seq<DictEntry<K, V>>>): set<object> {
    set i, e | 0 <= i < |chains| && e in chains[i] :: e
  }

  /** No entry is in two chains. */
  ghost predicate Apart<K, V>(chains: seq<seq<DictEntry<K, V>>>) {
    forall i, j, e :: 0 <= i < |chains| && 0 <= j < |chains| && e in chains[i] && e in chains[j] ==> i == j
  }

  /** _dictEntryRelease along a chain */
  method ReleaseChain<K, V>(z: Allocator, head: DictEntry?<K, V>, ghost entries: seq<DictEntry<K, V>>)
    requires z.Valid() && Chain(head, entries) && Distinct(entries) && Live(z.prefix, entries)
    modifies z, entries`next
    ensures z.Valid() && z.prefix == old(z.prefix) - Nodes(entries)
    ensures z.usedMemory == old(z.usedMemory) - (SIZEOF_ENTRY + PREFIX_SIZE) * |entries|
  {
    hide Chain, Distinct, Live, Nodes;
    var p := head;
    ghost var k := 0;
    NothingReleased(z.prefix, entries);
    while p != null
      invariant k <= |entries| && Chain(p, entries[k..]) && z.Valid()
      invariant z.prefix == old(z.prefix) - Nodes(entries[..k])
      invariant z.usedMemory == old(z.usedMemory) - (SIZEOF_ENTRY + PREFIX_SIZE) * k
      decreases |entries| - k
    {
      ChainStep(p, entries, k);
      ReleaseStep(old(z.prefix), entries, k);
      var entry := p;
      p := p.next;
      entry.next := null;
      z.Free(entry);
      k := k + 1;
    }
    ChainEnds(entries, k);
  }

  lemma NothingReleased<K, V>(prefix: map<object, nat>, entries: seq<DictEntry<K, V>>)
    ensures prefix - Nodes(entries[..0]) == prefix && entries[0..] == entries
  {
  }

  lemma ChainStep<K, V>(p: DictEntry<K, V>, entries: seq<DictEntry<K, V>>, k: nat)
    requires k <= |entries| && Chain(p, entries[k..]) && Distinct(entries)
    ensures k < |entries| && p == entries[k] && Chain(p.next, entries[k + 1..]) && p !in entries[k + 1..]
  {
    assert entries[k..][1..] == entries[k + 1..];
  }

  lemma ChainEnds<K, V>(entries: seq<DictEntry<K, V>>, k: nat)
    requires k <= |entries| && Chain(null, entries[k..])
    ensures k == |entries| && entries[..k] == entries
  {
  }

  lemma ReleaseStep<K, V>(prefix: map<object, nat>, entries: seq<DictEntry<K, V>>, k: nat)
    requires k < |entries| && Distinct(entries) && Live(prefix, entries)
    ensures entries[k] in prefix - Nodes(entries[..k]) && prefix[entries[k]] == SIZEOF_ENTRY
    ensures prefix - Nodes(entries[..k]) - {entries[k]} == prefix - Nodes(entries[..k + 1])
  {
    assert entries[..k + 1] == entries[..k] + [entries[k]];
  }

  /** The chain at one place holds its bucket. */
  ghost predicate Holds<K, V>(head: DictEntry?<K, V>, entries: seq<DictEntry<K, V>>, bucket: History<K, V>)
    reads entries
  {
    Chain(head, entries) && Distinct(entries) && Pairs(entries) == bucket
  }

  lemma HoldsAdd<K, V>(entry: DictEntry<K, V>, entries: seq<DictEntry<K, V>>, bucket: History<K, V>)
    requires Holds(entry.next, entries, bucket) && entry !in entries
    ensures Holds(entry, [entry] + entries, [(entry.key, entry.value)] + bucket)
  {
    assert ([entry] + entries)[1..] == entries;
    assert Pairs([entry] + entries) == [(entry.key, entry.value)] + Pairs(entries);
  }

  lemma BucketAdd<K, V>(h: History<K, V>, pair: (K, V), index: K -> nat, i: nat)
    ensures Bucket(h + [pair], index, i) == (if index(pair.0) == i then [pair] else []) + Bucket(h, index, i)
    ensures index(pair.0) != i ==> Bucket(h + [pair], index, i) == Bucket(h, index, i)
  {
    assert (h + [pair])[..|h|] == h;
  }

  lemma EntryIsNew<K, V>(chains: seq<seq<DictEntry<K, V>>>, entry: DictEntry<K, V>, entries: set<DictEntry<K, V>>)
    requires forall i, j :: 0 <= i < |chains| && 0 <= j < |chains[i]| ==> chains[i][j] in entries
    requires entry !in entries
    ensures forall i :: 0 <= i < |chains| ==> entry !in chains[i]
  {
  }

  lemma ApartAdd<K, V>(chains: seq<seq<DictEntry<K, V>>>, i: nat, entry: DictEntry<K, V>)
    requires i < |chains| && Apart(chains) && forall j :: 0 <= j < |chains| ==> entry !in chains[j]
    ensures Apart(chains[i := [entry] + chains[i]])
  {
  }

  lemma AllNodesAdd<K, V>(chains: seq<seq<DictEntry<K, V>>>, i: nat, entry: DictEntry<K, V>)
    requires i < |chains|
    ensures AllNodes(chains[i := [entry] + chains[i]]) == AllNodes(chains) + {entry}
  {
    var after := chains[i := [entry] + chains[i]];
    assert entry in after[i];
    forall e | e in AllNodes(chains)
      ensures e in AllNodes(after)
    {
      var j, x :| 0 <= j < |chains| && x in chains[j] && e == x;
      assert x in after[j];
    }
  }

  lemma LiveAdd<K, V>(prefix: map<object, nat>, entries: seq<DictEntry<K, V>>, entry: DictEntry<K, V>)
    requires Live(prefix, entries) && entry in prefix && prefix[entry] == SIZEOF_ENTRY
    ensures Live(prefix, [entry] + entries)
  {
  }

  lemma LiveMore<K, V>(prefix: map<object, nat>, entries: seq<DictEntry<K, V>>, block: object)
    requires Live(prefix, entries) && block !in prefix
    ensures Live(prefix[block := SIZEOF_ENTRY], entries)
  {
  }

  lemma LiveWithout<K, V>(prefix: map<object, nat>, entries: seq<DictEntry<K, V>>, gone: set<object>)
    requires Live(prefix, entries) && forall e :: e in entries ==> e !in gone
    ensures Live(prefix - gone, entries)
  {
  }

  lemma NodesOfFirst<K, V>(prefix: map<object, nat>, chains: seq<seq<DictEntry<K, V>>>, i: nat)
    requires i < |chains|
    ensures prefix - AllNodes(chains[..i]) - Nodes(chains[i]) == prefix - AllNodes(chains[..i + 1])
  {
    var a := chains[..i + 1];
    assert a[..i] == chains[..i] && a[i] == chains[i];
    forall e: object
      ensures e in AllNodes(a) <==> e in AllNodes(chains[..i]) || e in Nodes(chains[i])
    {
      NodesOfNext(chains, i, e);
    }
  }

  lemma NodesOfNext<K, V>(chains: seq<seq<DictEntry<K, V>>>, i: nat, e: object)
    requires i < |chains|
    ensures e in AllNodes(chains[..i + 1]) <==> e in AllNodes(chains[..i]) || e in Nodes(chains[i])
  {
    var a, b := chains[..i + 1], chains[..i];
    forall j | 0 <= j < i
      ensures a[j] == b[j] == chains[j]
    {
    }
  }

  lemma ApartFrom<K, V>(chains: seq<seq<DictEntry<K, V>>>, i: nat)
    requires i < |chains| && Apart(chains)
    ensures forall e :: e in chains[i] ==> e !in AllNodes(chains[..i])
    ensures forall j, a, b :: i < j < |chains| && 0 <= a < |chains[j]| && 0 <= b < |chains[i]| ==>
      chains[j][a] != chains[i][b]
  {
    forall j, a, b | i < j < |chains| && 0 <= a < |chains[j]| && 0 <= b < |chains[i]|
      ensures chains[j][a] != chains[i][b]
    {
      assert chains[j][a] in chains[j] && chains[i][b] in chains[i];
    }
  }

  class HashTable<K(!new), V> {
    const z: Allocator
    /** dictType's hash function. */
    const hash: K -> nat
    var table: array<DictEntry?<K, V>>
    var size: nat
    var sizemask: nat
    /** The place of each key, the chain at each place, and what was inserted, in order. */
    ghost var power: nat
    ghost var index: K -> nat
    ghost var chains: seq<seq<DictEntry<K, V>>>
    ghost var history: History<K, V>
    ghost var entries: set<DictEntry<K, V>>

    ghost predicate Shaped()
      reads this
    {
      && table.Length == size == |chains| && size == Pow2(power) && sizemask == size - 1
      && (forall key :: index(key) == Remainder(hash(key), size))
      && Apart(chains)
      && forall i, j :: 0 <= i < |chains| && 0 <= j < |chains[i]| ==> chains[i][j] in entries
    }

    ghost predicate Filled()
      requires Shaped()
      reads this, table, entries
    {
      forall i :: 0 <= i < size ==> Holds(table[i], chains[i], Bucket(history, index, i))
    }

    /** The blocks of the table are live, with their sizes. */
    ghost predicate Owned(prefix: map<object, nat>)
      reads this
    {
      && this in prefix && prefix[this] == SIZEOF_DICT
      && table in prefix && prefix[table] == size * SIZEOF_POINTER
      && forall i :: 0 <= i < |chains| ==> Live(prefix, chains[i])
    }

    ghost predicate Valid()
      reads this, table, z, entries
    {
      Shaped() && Filled() && z.Valid() && Owned(z.prefix)
    }

    /** Everything this table has allocated. */
    ghost function Blocks(): set<object>
      reads this
    {
      AllNodes(chains) + {table, this}
    }

    /** dictCreate: four empty buckets. */
    constructor (z: Allocator, hash: K -> nat)
      requires z.Valid()
      modifies z
      ensures Valid() && this.z == z && this.hash == hash && history == [] && entries == {} && fresh(table)
      ensures size == 4 && z.prefix - Blocks() == old(z.prefix)
    {
      hide Pow2, AllNodes, Remainder;
      var realsize, k := NextPower(DICT_HT_INITIAL_SIZE);
      var t := new DictEntry?<K, V>[realsize](_ => null);
      this.z, this.hash := z, hash;
      table, size, sizemask := t, realsize, realsize - 1;
      power, index, history := k, key => Remainder(hash(key), realsize), [];
      chains, entries := seq(realsize, _ => []), {};
      new;
      z.Malloc(this, SIZEOF_DICT);
      z.Malloc(table, realsize * SIZEOF_POINTER);
      EmptyTable(old(z.prefix), chains, this, table, realsize * SIZEOF_POINTER);
    }

    /** dictAdd: the new entry comes first in its chain. */
    method Add(key: K, value: V)
      requires Valid()
      modifies this`chains, this`history, this`entries, table, z
      ensures Valid() && history == old(history) + [(key, value)] && fresh(entries - old(entries))
      ensures z.prefix - Blocks() == old(z.prefix - Blocks())
    {
      hide Holds, Live, Bucket, Apart;
      var entry := new DictEntry(key, value);
      z.Malloc(entry, SIZEOF_ENTRY);
      MaskIsRemainder(hash(key), power);
      var i := And(hash(key), sizemask);
      entry.next := table[i];
      forall j | 0 <= j < |chains|
        ensures Live(z.prefix, chains[j])
      {
        LiveMore(old(z.prefix), chains[j], entry);
      }
      Insert(entry, i);
    }

    /** Links the new entry into its chain. */
    method Insert(entry: DictEntry<K, V>, i: nat)
      requires Shaped() && Filled() && z.Valid()
      requires entry !in entries && entry in z.prefix && z.prefix[entry] == SIZEOF_ENTRY && Owned(z.prefix)
      requires i == index(entry.key) && entry.next == table[i]
      modifies this`chains, this`history, this`entries, table
      ensures Valid() && history == old(history) + [(entry.key, entry.value)]
      ensures entries == old(entries) + {entry} && Blocks() == old(Blocks()) + {entry}
    {
      hide Holds, Live, Bucket, Apart;
      ghost var before, h := chains, history;
      ghost var pair := (entry.key, entry.value);
      EntryIsNew(chains, entry, entries);
      ApartAdd(chains, i, entry);
      LiveAdd(z.prefix, chains[i], entry);
      AllNodesAdd(chains, i, entry);
      label L:
      assert forall j :: 0 <= j < size ==> Holds(table[j], chains[j], Bucket(history, index, j));
      HoldsAdd(entry, chains[i], Bucket(history, index, i));
      table[i] := entry;
      history := history + [pair];
      chains := chains[i := [entry] + chains[i]];
      entries := entries + {entry};
      forall j | 0 <= j < size
        ensures Holds(table[j], chains[j], Bucket(history, index, j))
      {
        BucketAdd(h, pair, index, j);
        assert old@L(Holds(table[j], chains[j], Bucket(history, index, j)));
      }
    }

    /** getDictEntry: the first entry in the key's bucket. If there is none, the code goes on to the second table,
        which has not been allocated. */
    method GetEntry(key: K) returns (entry: Lookup<DictEntry<K, V>>)
      requires Valid()
      ensures var bucket := Bucket(history, index, index(key));
        if bucket == [] then entry.ReadsThroughNull?
        else entry.Found? && (entry.value.key, entry.value.value) == bucket[0]
    {
      hide Bucket;
      MaskIsRemainder(hash(key), power);
      var i := And(hash(key), sizemask);
      assert Holds(table[i], chains[i], Bucket(history, index, i));
      if table[i] != null { return Found(table[i]); }
      return ReadsThroughNull;
    }

    /** dictFind. Without collisions this is what a map would give for a key it has; for a key whose bucket is empty it
        is not defined. */
    method Find(key: K) returns (value: Lookup<V>)
      requires Valid()
      ensures var bucket := Bucket(history, index, index(key));
        value == if bucket == [] then ReadsThroughNull else Found(bucket[0].1)
      ensures NoCollision(history, index) && Inserted(history, key) ==> value == Found(Latest(history, key))
    {
      hide Bucket, Shaped, Filled, Holds, Apart;
      LookupIsRightWithoutCollisions(history, index);
      var entry := GetEntry(key);
      value := if entry.Found? then Found(entry.value.value) else ReadsThroughNull;
    }

    /** dictRelease, without private data: every block is freed once. */
    method Release()
      requires Valid()
      modifies z, entries`next
      ensures z.Valid() && z.prefix == old(z.prefix) - Blocks()
    {
      hide Live, Bucket, Chain, Distinct, Nodes, AllNodes, Apart;
      var i := 0;
      NothingFreed(z.prefix, chains);
      HoldsAll();
      while i < size
        invariant i <= size && z.Valid()
        invariant z.prefix == old(z.prefix) - AllNodes(chains[..i])
        invariant forall j :: i <= j < size ==> Chain(table[j], chains[j]) && Distinct(chains[j])
      {
        ReleaseSlot(i, old(z.prefix));
        i := i + 1;
      }
      TableIsLeft(old(z.prefix));
      z.Free(table);
      z.Free(this);
    }

    lemma HoldsAll()
      requires Valid()
      ensures forall j :: 0 <= j < size ==> Chain(table[j], chains[j]) && Distinct(chains[j])
    {
      forall j | 0 <= j < size
        ensures Chain(table[j], chains[j]) && Distinct(chains[j])
      {
        assert Holds(table[j], chains[j], Bucket(history, index, j));
      }
    }

    lemma TableIsLeft(prefix: map<object, nat>)
      requires Shaped() && Owned(prefix)
      ensures chains[..size] == chains
      ensures table in prefix - AllNodes(chains) && this in prefix - AllNodes(chains) - {table}
      ensures prefix - AllNodes(chains) - {table} - {this} == prefix - Blocks()
    {
    }

    /** The entries of one bucket. */
    method ReleaseSlot(i: nat, ghost prefix: map<object, nat>)
      requires Shaped() && i < size && z.Valid() && Owned(prefix)
      requires z.prefix == prefix - AllNodes(chains[..i])
      requires forall j :: i <= j < size ==> Chain(table[j], chains[j]) && Distinct(chains[j])
      modifies z, entries`next
      ensures z.Valid() && z.prefix == prefix - AllNodes(chains[..i + 1])
      ensures forall j :: i < j < size ==> Chain(table[j], chains[j])
    {
      hide Live, Chain, Distinct, Nodes, AllNodes, Apart;
      ApartFrom(chains, i);
      LiveWithout(prefix, chains[i], AllNodes(chains[..i]));
      NodesOfFirst(prefix, chains, i);
      ReleaseChain(z, table[i], chains[i]);
    }
  }

  /** A table that is created and filled holds what was inserted, in order. */
  method Fill<K(!new), V>(z: Allocator, hash: K -> nat, pairs: seq<(K, V)>) returns (dict: HashTable<K, V>)
    requires z.Valid()
    modifies z
    ensures fresh(dict) && fresh(dict.table) && fresh(dict.entries) && dict.z == z && dict.hash == hash
    ensures dict.Valid() && dict.history == pairs
    ensures z.prefix - dict.Blocks() == old(z.prefix)
  {
    hide HashTable.Shaped, HashTable.Filled, HashTable.Owned, HashTable.Blocks;
    dict := new HashTable(z, hash);
    var i := 0;
    while i < |pairs|
      invariant i <= |pairs| && fresh(dict) && fresh(dict.table) && fresh(dict.entries)
      invariant dict.z == z && dict.hash == hash && dict.Valid()
      invariant dict.history == pairs[..i]
      invariant z.prefix - dict.Blocks() == old(z.prefix)
    {
      dict.Add(pairs[i].0, pairs[i].1);
      i := i + 1;
    }
  }

  /** Over the whole life of a table all its memory is given back, whatever was inserted and under whatever hash. */
  method FillAndRelease<K(!new), V>(z: Allocator, hash: K -> nat, pairs: seq<(K, V)>)
    requires z.Valid()
    modifies z
    ensures z.Valid() && z.prefix == old(z.prefix) && z.usedMemory == old(z.usedMemory)
  {
    var dict := Fill(z, hash, pairs);
    dict.Release();
  }

  lemma EmptyTable<K, V>(prefix: map<object, nat>, chains: seq<seq<DictEntry<K, V>>>, dict: object, table: object,
                         size: nat)
    requires dict !in prefix && table !in prefix && forall i :: 0 <= i < |chains| ==> chains[i] == []
    ensures prefix[dict := SIZEOF_DICT][table := size] - (AllNodes(chains) + {table, dict}) == prefix
  {
  }

  lemma NothingFreed<K, V>(prefix: map<object, nat>, chains: seq<seq<DictEntry<K, V>>>)
    ensures prefix - AllNodes(chains[..0]) == prefix
  {
  }
}
