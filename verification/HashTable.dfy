/** A chained hash table that doubles and halves its bucket array: it behaves as a finite map. */
module HashTable {
  import opened Prelude

  const MIN_SIZE: nat := 8
  const LOAD: nat := 75
  const TWO32: nat := 0x1_0000_0000

  type Key = seq<nat>

  /** An entry: the key, the value pointer, and the cached hash. */
  datatype Node = Node(key: Key, value: nat, hash: nat)

  type Chain = seq<Node>

  /** The bucket of a hash value. */
  function Slot(h: nat, size: nat): (i: nat)
    requires size > 0
    ensures i < size
  {
    h % size
  }

  // ----- what a bucket array holds -----

  predicate Has(c: Chain, k: Key) { exists j :: 0 <= j < |c| && c[j].key == k }

  predicate Distinct(c: Chain) { forall i, j :: 0 <= i < j < |c| ==> c[i].key != c[j].key }

  /** Node n belongs to bucket i and its entry is in m. */
  predicate Fits(n: Node, hash: Key -> nat, i: nat, size: nat, m: map<Key, nat>)
    requires size > 0
  {
    n.hash == hash(n.key) && Slot(n.hash, size) == i && n.key in m && m[n.key] == n.value
  }

  predicate BucketOk(c: Chain, hash: Key -> nat, i: nat, size: nat, m: map<Key, nat>)
    requires size > 0
  {
    Distinct(c) && forall j :: 0 <= j < |c| ==> Fits(c[j], hash, i, size, m)
  }

  /** The bucket array holds exactly the entries of m, each once and in the bucket of its hash. */
  ghost predicate Holds(bs: seq<Chain>, hash: Key -> nat, m: map<Key, nat>) {
    && |bs| > 0
    && (forall i :: 0 <= i < |bs| ==> BucketOk(bs[i], hash, i, |bs|, m))
    && (forall k :: k in m ==> Has(bs[Slot(hash(k), |bs|)], k))
  }

  lemma InBucket(bs: seq<Chain>, hash: Key -> nat, m: map<Key, nat>, k: Key)
    requires Holds(bs, hash, m)
    ensures k in m <==> Has(bs[Slot(hash(k), |bs|)], k)
  {
    var i := Slot(hash(k), |bs|);
    if Has(bs[i], k) {
      var j :| 0 <= j < |bs[i]| && bs[i][j].key == k;
      assert BucketOk(bs[i], hash, i, |bs|, m) && Fits(bs[i][j], hash, i, |bs|, m);
    }
  }

  /** A node at a known position. */
  lemma AtPlace(bs: seq<Chain>, hash: Key -> nat, m: map<Key, nat>, i: nat, j: nat)
    requires Holds(bs, hash, m) && i < |bs| && j < |bs[i]|
    ensures Fits(bs[i][j], hash, i, |bs|, m) && BucketOk(bs[i], hash, i, |bs|, m)
  {
  }

  /** A key is never found in a bucket other than its own. */
  lemma StaleIndexMisses(bs: seq<Chain>, hash: Key -> nat, m: map<Key, nat>, k: Key, i: nat)
    requires Holds(bs, hash, m) && k in m && i < |bs|
    ensures Has(bs[i], k) <==> i == Slot(hash(k), |bs|)
  {
    if Has(bs[i], k) {
      var j :| 0 <= j < |bs[i]| && bs[i][j].key == k;
      AtPlace(bs, hash, m, i, j);
    }
  }

  // ----- changes of one bucket -----

  lemma OtherBuckets(bs: seq<Chain>, hash: Key -> nat, m: map<Key, nat>, m': map<Key, nat>, i: nat, k: Key)
    requires Holds(bs, hash, m) && i < |bs| && i != Slot(hash(k), |bs|)
      && forall x :: x != k ==> (x in m' <==> x in m) && (x in m ==> m'[x] == m[x])
    ensures BucketOk(bs[i], hash, i, |bs|, m')
  {
    assert BucketOk(bs[i], hash, i, |bs|, m);
    forall j | 0 <= j < |bs[i]| ensures Fits(bs[i][j], hash, i, |bs|, m') { assert Fits(bs[i][j], hash, i, |bs|, m); }
  }

  /** Replacing the bucket of k by one that is right for m', which differs from m at k only. */
  lemma BucketChanged(bs: seq<Chain>, hash: Key -> nat, m: map<Key, nat>, m': map<Key, nat>, k: Key, c: Chain)
    requires Holds(bs, hash, m) && forall x :: x != k ==> (x in m' <==> x in m) && (x in m ==> m'[x] == m[x])
    requires BucketOk(c, hash, Slot(hash(k), |bs|), |bs|, m') && (k in m' ==> Has(c, k))
    requires forall x :: x != k && Has(bs[Slot(hash(k), |bs|)], x) ==> Has(c, x)
    ensures Holds(bs[Slot(hash(k), |bs|) := c], hash, m')
  {
    hide BucketOk, Has;
    var at := Slot(hash(k), |bs|);
    var bs' := bs[at := c];
    forall i | 0 <= i < |bs'| ensures BucketOk(bs'[i], hash, i, |bs'|, m') {
      if i != at { OtherBuckets(bs, hash, m, m', i, k); }
    }
  }

  lemma Inserted(bs: seq<Chain>, hash: Key -> nat, m: map<Key, nat>, n: Node)
    requires Holds(bs, hash, m) && n.key !in m && n.hash == hash(n.key)
    ensures Holds(bs[Slot(n.hash, |bs|) := [n] + bs[Slot(n.hash, |bs|)]], hash, m[n.key := n.value])
  {
    var at, m' := Slot(n.hash, |bs|), m[n.key := n.value];
    var was, c := bs[at], [n] + bs[at];
    assert BucketOk(was, hash, at, |bs|, m);
    InBucket(bs, hash, m, n.key);
    forall j | 0 <= j < |c|
      ensures Fits(c[j], hash, at, |bs|, m')
    {
      if j > 0 { assert Fits(was[j - 1], hash, at, |bs|, m); }
    }
    assert c[0].key == n.key;
    forall x | x != n.key && Has(was, x) ensures Has(c, x) {
      var j :| 0 <= j < |was| && was[j].key == x;
      assert c[j + 1].key == x;
    }
    BucketChanged(bs, hash, m, m', n.key, c);
  }

  lemma Overwritten(bs: seq<Chain>, hash: Key -> nat, m: map<Key, nat>, k: Key, j: nat, v: nat)
    requires Holds(bs, hash, m) && var c := bs[Slot(hash(k), |bs|)]; j < |c| && c[j].key == k
    ensures var at := Slot(hash(k), |bs|); Holds(bs[at := bs[at][j := bs[at][j].(value := v)]], hash, m[k := v])
  {
    var at, m' := Slot(hash(k), |bs|), m[k := v];
    var was := bs[at];
    var c := was[j := was[j].(value := v)];
    AtPlace(bs, hash, m, at, j);
    forall i | 0 <= i < |c| ensures Fits(c[i], hash, at, |bs|, m') { assert Fits(was[i], hash, at, |bs|, m); }
    forall x | Has(was, x) ensures Has(c, x) {
      var i :| 0 <= i < |was| && was[i].key == x;
      assert c[i].key == x;
    }
    assert c[j].key == k;
    BucketChanged(bs, hash, m, m', k, c);
  }

  lemma Removed(bs: seq<Chain>, hash: Key -> nat, m: map<Key, nat>, k: Key, j: nat)
    requires Holds(bs, hash, m) && var c := bs[Slot(hash(k), |bs|)]; j < |c| && c[j].key == k
    ensures var at := Slot(hash(k), |bs|); k in m && Holds(bs[at := bs[at][..j] + bs[at][j + 1..]], hash, m - {k})
  {
    hide Slot;
    var at, m' := Slot(hash(k), |bs|), m - {k};
    var was := bs[at];
    var c := was[..j] + was[j + 1..];
    AtPlace(bs, hash, m, at, j);
    Without(was, j);
    forall i | 0 <= i < |c| ensures Fits(c[i], hash, at, |bs|, m') {
      var o := Skip(i, j);
      assert Fits(was[o], hash, at, |bs|, m) && was[o].key != k;
    }
    hide Has, Fits, Holds;
    BucketChanged(bs, hash, m, m', k, c);
  }

  function Skip(i: nat, j: nat): nat { if i < j then i else i + 1 }

  /** A chain without its node j. */
  lemma Without(c: Chain, j: nat)
    requires j < |c| && Distinct(c)
    ensures var d := c[..j] + c[j + 1..];
            && Distinct(d) && (forall i :: 0 <= i < |d| ==> d[i] == c[Skip(i, j)])
            && (forall x :: x != c[j].key && Has(c, x) ==> Has(d, x))
  {
    var d := c[..j] + c[j + 1..];
    forall i | 0 <= i < |d| ensures d[i] == c[Skip(i, j)] {}
    forall x | x != c[j].key && Has(c, x) ensures Has(d, x) {
      var i :| 0 <= i < |c| && c[i].key == x;
      assert d[if i < j then i else i - 1].key == x;
    }
  }

  // ----- sizes -----

  /** The sizes that a table can have: MIN_SIZE doubled some number of times. */
  predicate IsSize(n: nat) { n == MIN_SIZE || (n > MIN_SIZE && n % 2 == 0 && IsSize(n / 2)) }

  const MAX_SIZE: nat := 0x8000_0000

  /** round_up_pow2: the least table size that is not below n. */
  method RoundUp(n: nat) returns (p: nat)
    requires n <= MAX_SIZE
    ensures IsSize(p) && n <= p <= MAX_SIZE && forall q :: IsSize(q) && n <= q ==> p <= q
  {
    p := MIN_SIZE;
    MaxIsSize();
    while p < n
      invariant IsSize(p) && p <= MAX_SIZE && forall q :: IsSize(q) && n <= q ==> p <= q
      decreases MAX_SIZE - p
    {
      forall q | IsSize(q) && n <= q ensures 2 * p <= q { SizesDouble(p, q); }
      p := 2 * p;
    }
  }

  lemma MaxIsSize()
    ensures IsSize(MAX_SIZE)
  {
    assert IsSize(0x80) && IsSize(0x800) && IsSize(0x8000);
    assert IsSize(0x8_0000);
    assert IsSize(0x80_0000);
    assert IsSize(0x800_0000);
  }

  /** The next size is the double. */
  lemma {:induction false} SizesDouble(p: nat, q: nat)
    requires IsSize(p) && IsSize(q) && p < q
    ensures 2 * p <= q
  {
    if p > MIN_SIZE { SizesDouble(p / 2, q / 2); } else { SizeEight(q); }
  }

  lemma {:induction false} SizeEight(q: nat)
    requires IsSize(q) && q > MIN_SIZE
    ensures q >= 2 * MIN_SIZE && IsSize(q / 2)
  {
    if q / 2 > MIN_SIZE { SizeEight(q / 2); }
  }

  /** The load in percent, as 32-bit arithmetic has it. */
  function Load(count: nat, size: nat): nat
    requires size > 0
  {
    count * 100 % TWO32 / size
  }

  predicate Loaded(count: nat, size: nat)
    requires size > 0
  {
    count * 100 / size <= LOAD
  }

  // ----- moving to another bucket array -----

  /** The keys whose nodes have been moved when the walk is in bucket i with rest still to go. */
  predicate Moved(k: Key, hash: Key -> nat, size: nat, i: nat, rest: Chain)
    requires size > 0
  {
    Slot(hash(k), size) < i || (Slot(hash(k), size) == i && !Has(rest, k))
  }

  function Done(m: map<Key, nat>, hash: Key -> nat, size: nat, i: nat, rest: Chain): map<Key, nat>
    requires size > 0
  {
    map k | k in m && Moved(k, hash, size, i, rest) :: m[k]
  }

  lemma DoneFirst(bs: seq<Chain>, hash: Key -> nat, m: map<Key, nat>)
    requires Holds(bs, hash, m)
    ensures Done(m, hash, |bs|, 0, bs[0]) == map[]
  {
    forall k | k in m ensures !Moved(k, hash, |bs|, 0, bs[0]) { InBucket(bs, hash, m, k); }
  }

  lemma DoneNext(bs: seq<Chain>, hash: Key -> nat, m: map<Key, nat>, i: nat)
    requires Holds(bs, hash, m) && i < |bs|
    ensures Done(m, hash, |bs|, i, []) == if i + 1 < |bs| then Done(m, hash, |bs|, i + 1, bs[i + 1]) else m
  {
    var next := if i + 1 < |bs| then bs[i + 1] else [];
    forall k | k in m
      ensures Moved(k, hash, |bs|, i, []) <==> (i + 1 == |bs| || Moved(k, hash, |bs|, i + 1, next))
    {
      InBucket(bs, hash, m, k);
    }
  }

  lemma DoneOne(bs: seq<Chain>, hash: Key -> nat, m: map<Key, nat>, i: nat, j: nat)
    requires Holds(bs, hash, m) && i < |bs| && j < |bs[i]|
    ensures var n := bs[i][j]; n.hash == hash(n.key) && n.key !in Done(m, hash, |bs|, i, bs[i][j..])
    ensures Done(m, hash, |bs|, i, bs[i][j + 1..]) == Done(m, hash, |bs|, i, bs[i][j..])[bs[i][j].key := bs[i][j].value]
  {
    var n, a, b := bs[i][j], bs[i][j..], bs[i][j + 1..];
    AtPlace(bs, hash, m, i, j);
    assert a[0] == n && Has(a, n.key);
    assert !Has(b, n.key);
    forall k | k != n.key ensures Has(a, k) <==> Has(b, k) { TailHas(a, b, k); }
  }

  lemma TailHas(a: Chain, b: Chain, k: Key)
    requires |a| > 0 && b == a[1..] && a[0].key != k
    ensures Has(a, k) <==> Has(b, k)
  {
    if Has(a, k) { var j :| 0 <= j < |a| && a[j].key == k; assert b[j - 1].key == k; }
    if Has(b, k) { var j :| 0 <= j < |b| && b[j].key == k; assert a[j + 1].key == k; }
  }

  lemma EmptyHolds(hash: Key -> nat, bs: seq<Chain>)
    requires |bs| > 0 && forall i :: 0 <= i < |bs| ==> bs[i] == []
    ensures Holds(bs, hash, map[])
  {
  }

  /** All nodes of from in a new array of the given size. */
  method Rehash(from: seq<Chain>, hash: Key -> nat, size: nat, ghost m: map<Key, nat>) returns (bs: seq<Chain>)
    requires Holds(from, hash, m) && size > 0
    ensures |bs| == size && Holds(bs, hash, m)
  {
    hide Holds, Done, Moved, Fits, Slot;
    bs := seq(size, _ => []);
    EmptyHolds(hash, bs);
    HoldsSome(from, hash, m);
    DoneFirst(from, hash, m);
    var i := 0;
    while i < |from|
      invariant 0 <= i <= |from| && |bs| == size
      invariant Holds(bs, hash, if i < |from| then Done(m, hash, |from|, i, from[i]) else m)
    {
      bs := MoveBucket(from, hash, bs, m, i);
      DoneNext(from, hash, m, i);
      i := i + 1;
    }
  }

  lemma HoldsSome(bs: seq<Chain>, hash: Key -> nat, m: map<Key, nat>)
    requires Holds(bs, hash, m)
    ensures |bs| > 0
  {
  }

  /** Moves the nodes of bucket i, each to the front of its new bucket. */
  method MoveBucket(from: seq<Chain>, hash: Key -> nat, bs: seq<Chain>, ghost m: map<Key, nat>, i: nat)
      returns (bs': seq<Chain>)
    requires Holds(from, hash, m) && i < |from| && |bs| > 0 && Holds(bs, hash, Done(m, hash, |from|, i, from[i]))
    ensures |bs'| == |bs| && Holds(bs', hash, Done(m, hash, |from|, i, []))
  {
    hide Holds, Done, Moved, Fits, Slot;
    bs' := bs;
    var j := 0;
    assert from[i][0..] == from[i];
    while j < |from[i]|
      invariant 0 <= j <= |from[i]| && |bs'| == |bs|
      invariant Holds(bs', hash, Done(m, hash, |from|, i, from[i][j..]))
    {
      var n := from[i][j];
      DoneOne(from, hash, m, i, j);
      Inserted(bs', hash, Done(m, hash, |from|, i, from[i][j..]), n);
      bs' := bs'[Slot(n.hash, |bs|) := [n] + bs'[Slot(n.hash, |bs|)]];
      j := j + 1;
    }
    assert from[i][j..] == [];
  }

  class Table {
    const hash: Key -> nat
    var buckets: seq<Chain>
    var count: nat
    ghost var m: map<Key, nat>

    ghost predicate Valid()
      reads this
    {
      Holds(buckets, hash, m) && count == |m| && IsSize(|buckets|) && |buckets| <= MAX_SIZE
    }

    /** hash_table_create: an empty table of the least size not below the wanted one. */
    constructor (want: nat, h: Key -> nat)
      requires want <= MAX_SIZE
      ensures Valid() && m == map[] && hash == h && want <= |buckets|
    {
      var size := RoundUp(want);
      hash := h;
      buckets := seq(size, _ => []);
      count := 0;
      m := map[];
      new;
      EmptyHolds(hash, buckets);
    }

    /** The position of key k in its bucket, if it is there. */
    method FindIn(k: Key) returns (at: nat, j: int)
      requires Valid()
      ensures at == Slot(hash(k), |buckets|) && (j >= 0 <==> k in m)
      ensures j >= 0 ==> j < |buckets[at]| && buckets[at][j].key == k && buckets[at][j].value == m[k]
    {
      hide Holds, Slot;
      InBucket(buckets, hash, m, k);
      at := Slot(hash(k), |buckets|);
      var chain := buckets[at];
      var i := 0;
      while i < |chain|
        invariant 0 <= i <= |chain| && forall x :: 0 <= x < i ==> chain[x].key != k
      {
        AtPlace(buckets, hash, m, at, i);
        if chain[i].hash == hash(k) && chain[i].key == k { return at, i; }
        i := i + 1;
      }
      j := -1;
    }

    /** Moves every node to a bucket array of another size; a failed allocation changes nothing. */
    method Resize(want: nat) returns (ok: bool)
      requires Valid() && want <= MAX_SIZE
      modifies `buckets
      ensures Valid() && (!ok ==> buckets == old(buckets))
      ensures ok ==> want <= |buckets| && forall q :: IsSize(q) && want <= q ==> |buckets| <= q
    {
      hide Holds, IsSize, Slot;
      var size := RoundUp(want);
      var fail := Chance();
      if fail { return false; }
      buckets := Rehash(buckets, hash, size, m);
      ok := true;
    }

    /** Enters a new key: doubles the array when the load would pass the limit. */
    method AddNew(k: Key, v: nat) returns (ok: bool, ghost kept: bool)
      requires Valid() && k !in m
      modifies this
      ensures Valid() && m == (if ok then old(m)[k := v] else old(m))
      ensures kept && Loaded(old(count), |old(buckets)|) && Roomy(old(count), |old(buckets)|) ==>
        Loaded(count, |buckets|)
    {
      hide Holds, IsSize, Loaded, Load, Slot;
      kept := true;
      ghost var size := |buckets|;
      SizeFacts(size);
      if Load(count + 1, |buckets|) > LOAD { kept := Resize(2 * |buckets| % TWO32); }
      if kept && Loaded(count, size) && Roomy(count, size) { LoadGrown(count, size, |buckets|); }
      SizeFacts(|buckets|);
      var fail := Chance();
      if fail { return false, kept; }
      var n := Node(k, v, hash(k));
      var at := Slot(n.hash, |buckets|);
      Inserted(buckets, hash, m, n);
      buckets := buckets[at := [n] + buckets[at]];
      count := count + 1;
      m := m[k := v];
      ok := true;
    }

    /** hash_table_insert. */
    method Insert(k: Key, v: nat, overwrite: bool) returns (ok: bool, ghost kept: bool)
      requires Valid()
      modifies this
      ensures Valid()
      ensures k == [] ==> !ok && m == old(m)
      ensures k != [] && k in old(m) ==> ok == overwrite && m == if overwrite then old(m)[k := v] else old(m)
      ensures k != [] && k !in old(m) ==> m == if ok then old(m)[k := v] else old(m)
      ensures kept && Loaded(old(count), |old(buckets)|) && Roomy(old(count), |old(buckets)|) ==>
        Loaded(count, |buckets|)
    {
      hide Holds, IsSize, Loaded, Load, Slot;
      kept := true;
      SizeFacts(|buckets|);
      if k == [] { return false, kept; }
      var at, j := FindIn(k);
      if j >= 0 {
        if overwrite {
          Overwritten(buckets, hash, m, k, j, v);
          buckets := buckets[at := buckets[at][j := buckets[at][j].(value := v)]];
          m := m[k := v];
        }
        return overwrite, kept;
      }
      ok, kept := AddNew(k, v);
    }

    /** hash_table_insert_if_absent. */
    method InsertIfAbsent(k: Key, v: nat) returns (ok: bool, ghost kept: bool)
      requires Valid()
      modifies this
      ensures Valid() && (ok ==> k !in old(m)) && m == if ok then old(m)[k := v] else old(m)
      ensures kept && Loaded(old(count), |old(buckets)|) && Roomy(old(count), |old(buckets)|) ==>
        Loaded(count, |buckets|)
    {
      hide Holds, IsSize, Slot;
      kept := true;
      if k == [] { return false, kept; }
      var at, j := FindIn(k);
      if j >= 0 { return false, kept; }
      ok, kept := AddNew(k, v);
    }

    /** hash_table_lookup: the value pointer, or NULL. */
    method Lookup(k: Key) returns (v: nat)
      requires Valid()
      ensures v == if k != [] && k in m then m[k] else 0
    {
      hide Holds, IsSize, Slot;
      SizeFacts(|buckets|);
      if k == [] { return 0; }
      var at, j := FindIn(k);
      v := if j >= 0 then buckets[at][j].value else 0;
    }

    /** hash_table_delete: halves the array when the load has become low. */
    method Delete(k: Key) returns (found: bool)
      requires Valid()
      modifies this
      ensures Valid() && (found <==> k != [] && k in old(m)) && m == if found then old(m) - {k} else old(m)
      ensures Loaded(old(count), |old(buckets)|) && old(count) * 100 < TWO32 ==> Loaded(count, |buckets|)
      ensures |buckets| <= |old(buckets)|
    {
      hide Holds, IsSize, Loaded, Load, Slot;
      ghost var size := |buckets|;
      SizeFacts(size);
      if k == [] { return false; }
      var at, j := FindIn(k);
      if j < 0 { return false; }
      Removed(buckets, hash, m, k, j);
      buckets := buckets[at := buckets[at][..j] + buckets[at][j + 1..]];
      count := count - 1;
      m := m - {k};
      if |buckets| > MIN_SIZE && Load(count, |buckets|) < LOAD / 2 {
        var ok := Resize(|buckets| / 2);
      }
      found := true;
      if Loaded(old(count), size) && old(count) * 100 < TWO32 { LoadShrunk(old(count), size, |buckets|); }
    }

    /** hash_table_foreach: the callback sees every entry exactly once. */
    method ForEach() returns (seen: Chain)
      requires Valid()
      ensures Distinct(seen) && (forall k :: k in m <==> Has(seen, k))
        && forall n :: n in seen ==> n.key in m && m[n.key] == n.value
    {
      hide Holds, Done, Moved, IsSize, Slot;
      seen := [];
      SizeFacts(|buckets|);
      DoneFirst(buckets, hash, m);
      var i := 0;
      while i < |buckets|
        invariant 0 <= i <= |buckets|
        invariant Listed(seen, if i < |buckets| then Done(m, hash, |buckets|, i, buckets[i]) else m)
      {
        var j := 0;
        assert buckets[i][0..] == buckets[i];
        while j < |buckets[i]|
          invariant 0 <= j <= |buckets[i]| && Listed(seen, Done(m, hash, |buckets|, i, buckets[i][j..]))
        {
          DoneOne(buckets, hash, m, i, j);
          ListedMore(seen, Done(m, hash, |buckets|, i, buckets[i][j..]), buckets[i][j]);
          seen := seen + [buckets[i][j]];
          j := j + 1;
        }
        assert buckets[i][j..] == [];
        DoneNext(buckets, hash, m, i);
        i := i + 1;
      }
    }
  }

  /** The nodes seen are the entries of m, each once. */
  ghost predicate Listed(seen: Chain, m: map<Key, nat>) {
    Distinct(seen) && (forall k :: k in m <==> Has(seen, k)) && forall n :: n in seen ==>
        n.key in m && m[n.key] == n.value
  }

  lemma ListedMore(seen: Chain, m: map<Key, nat>, n: Node)
    requires Listed(seen, m) && n.key !in m
    ensures Listed(seen + [n], m[n.key := n.value])
  {
    var seen' := seen + [n];
    forall k ensures k in m[n.key := n.value] <==> Has(seen', k) {
      if Has(seen, k) { var j :| 0 <= j < |seen| && seen[j].key == k; assert seen'[j].key == k; }
      assert seen'[|seen|] == n;
    }
    forall i | 0 <= i < |seen| ensures seen[i].key != n.key { assert seen[i] in seen; }
  }

  /** The arithmetic of growth stays within 32 bits. */
  predicate Roomy(count: nat, size: nat) { (count + 1) * 100 < TWO32 && size < MAX_SIZE }

  lemma {:induction false} SizeFacts(size: nat)
    requires IsSize(size) && size <= MAX_SIZE
    ensures size >= MIN_SIZE && 2 * size % TWO32 <= MAX_SIZE
    ensures IsSize(2 * size) && (size > MIN_SIZE ==> IsSize(size / 2) && size % 2 == 0)
  {
    SizeSteps(size);
    hide IsSize;
    MaxIsSize();
    if size < MAX_SIZE { SizesDouble(size, MAX_SIZE); }
  }

  lemma {:induction false} SizeSteps(size: nat)
    requires IsSize(size)
    ensures size >= MIN_SIZE && IsSize(2 * size) && (size > MIN_SIZE ==> IsSize(size / 2) && size % 2 == 0)
  {
  }

  lemma LoadGrown(count: nat, size: nat, size': nat)
    requires size >= MIN_SIZE && Loaded(count, size) && Roomy(count, size) && size' == if Load(count + 1, size) > LOAD
      then 2 * size else size
    ensures Loaded(count + 1, size') && Loaded(count, size')
  {
    AtMost(count * 100, size, LOAD);
    AtMost((count + 1) * 100, size', LOAD);
    AtMost(count * 100, size', LOAD);
  }

  lemma LoadShrunk(count: nat, size: nat, size': nat)
    requires size >= MIN_SIZE && Loaded(count, size) && 0 < count * 100 < TWO32
    requires size' == size || (size % 2 == 0 && size' == size / 2 && Load(count - 1, size) < LOAD / 2)
    ensures Loaded(count - 1, size')
  {
    AtMost(count * 100, size, LOAD);
    AtMost((count - 1) * 100, size, LOAD / 2 - 1);
    AtMost((count - 1) * 100, size', LOAD);
  }

  lemma AtMost(x: nat, d: nat, q: nat)
    requires d > 0
    ensures x / d <= q <==> x < (q + 1) * d
  {
    var p := x / d;
    assert p * d <= x < p * d + d;
    if p <= q { assert (p + 1) * d <= (q + 1) * d; } else { assert (q + 1) * d <= p * d; }
  }
}
