/** The write-back block cache of the ext2 driver over a raw disk of 512-byte sectors. Readers
    and writers see one map from blocks to data, whatever the cache and the device do. */
module Ext2Cache {
  import opened Prelude
  import opened LeBytes

  const SECTOR: nat := 512
  const BATCH: nat := 512

  datatype Entry = Entry(data: Block, dirty: bool)

  /** disk holds |disk| blocks of bs bytes; on says whether the cache could be set up. */
  datatype Store = Store(bs: nat, disk: seq<Block>, on: bool, cache: map<nat, Entry>)

  predicate BsOk(bs: nat) { bs > 0 && bs % SECTOR == 0 }

  predicate EntryOk(s: Store, b: nat)
    requires b in s.cache
  {
    |s.cache[b].data| == s.bs && (!s.cache[b].dirty ==> b < |s.disk| && s.disk[b] == s.cache[b].data)
  }

  ghost predicate DiskOk(s: Store) {
    BsOk(s.bs) && forall b :: 0 <= b < |s.disk| ==> |s.disk[b]| == s.bs
  }

  /** A clean entry equals the disk. */
  ghost predicate StoreOk(s: Store) {
    && DiskOk(s)
    && (forall b :: b in s.cache ==> EntryOk(s, b))
    && (!s.on ==> s.cache == map[])
  }

  /** What readers see. */
  ghost function View(s: Store): imap<nat, Block> {
    imap b: nat | b < |s.disk| || b in s.cache :: if b in s.cache then s.cache[b].data else s.disk[b]
  }

  /** The blocks that a flush has still to write. */
  ghost function Dirty(s: Store): set<nat> { set b | b in s.cache && s.cache[b].dirty }

  /** A block of which the first k sectors have been replaced. */
  function Mixed(was: Block, now: Block, k: nat): Block
    requires |was| == |now| && SECTOR * k <= |was|
  {
    now[..SECTOR * k] + was[SECTOR * k..]
  }

  // ----- what a write to the cache does -----

  /** Which of the allocations that a write may need will succeed. */
  datatype Memory = Memory(entry: bool, data: bool, node: bool)

  /** The write stays in memory: the block is cached, or an entry can be made for it. */
  predicate Caught(s: Store, b: nat, mem: Memory) { s.on && (b in s.cache || (mem.entry && mem.data)) }

  /** The entry is made, but the hash table cannot take it, and the entry is dropped. */
  predicate Dropped(s: Store, b: nat, mem: Memory) { s.on && b !in s.cache && mem.entry && mem.data && !mem.node }

  function AfterWrite(s: Store, b: nat, buf: Block, mem: Memory): Store {
    if Dropped(s, b, mem) then s else s.(cache := s.cache[b := Entry(buf, true)])
  }

  lemma AfterWriteOk(s: Store, b: nat, buf: Block, mem: Memory)
    requires StoreOk(s) && |buf| == s.bs && Caught(s, b, mem)
    ensures var s' := AfterWrite(s, b, buf, mem);
            StoreOk(s') && View(s') == if Dropped(s, b, mem) then View(s) else View(s)[b := buf]
  {
    var s' := AfterWrite(s, b, buf, mem);
    forall c | c in s'.cache ensures EntryOk(s', c) { if c != b { assert EntryOk(s, c); } }
    if !Dropped(s, b, mem) { assert View(s') == View(s)[b := buf]; }
  }

  /** A write that reports success has written exactly when the entry was not dropped, or
      the block held the data anyway. */
  lemma WrittenIff(s: Store, b: nat, buf: Block, mem: Memory)
    requires StoreOk(s) && |buf| == s.bs && Caught(s, b, mem)
    ensures View(AfterWrite(s, b, buf, mem)) == View(s)[b := buf] <==>
              !Dropped(s, b, mem) || (b in View(s) && View(s)[b] == buf)
  {
    AfterWriteOk(s, b, buf, mem);
    if Dropped(s, b, mem) {
      if View(s) == View(s)[b := buf] { assert View(s)[b := buf][b] == buf; }
      if b in View(s) && View(s)[b] == buf { assert View(s)[b := buf] == View(s); }
    }
  }

  function Filled(n: nat, x: Byte): Block { seq(n, _ => x) }

  /** A write that reports success and is lost. */
  lemma LostWrite()
    ensures var s := Store(SECTOR, [Filled(SECTOR, 0)], true, map[]);
            var buf, mem := Filled(SECTOR, 1), Memory(true, true, false);
            StoreOk(s) && Caught(s, 0, mem) && View(AfterWrite(s, 0, buf, mem)) != View(s)[0 := buf]
  {
    var s := Store(SECTOR, [Filled(SECTOR, 0)], true, map[]);
    var buf := Filled(SECTOR, 1);
    assert View(s)[0][0] == 0 && View(s)[0 := buf][0][0] == 1;
  }

  class BlockCache {
    var s: Store

    // ----- raw disk -----

    method ReadRaw(b: nat) returns (r: Option<Block>)
      requires DiskOk(s)
      ensures r.Some? ==> b < |s.disk| && r.value == s.disk[b]
    {
      var buf: Block := [];
      var i := 0;
      while i < s.bs / SECTOR
        invariant 0 <= i <= s.bs / SECTOR && (i > 0 ==> b < |s.disk|)
        invariant b < |s.disk| ==> buf == s.disk[b][..SECTOR * i]
      {
        var failed := Chance();
        if failed || b >= |s.disk| { return None; }
        buf := buf + s.disk[b][SECTOR * i..SECTOR * (i + 1)];
        i := i + 1;
      }
      assert s.disk[b][..s.bs] == s.disk[b];
      r := Some(buf);
    }

    /** Writes sector by sector; a failure leaves a prefix of the new data on the disk. */
    method WriteRaw(b: nat, buf: Block) returns (ok: bool)
      requires DiskOk(s) && |buf| == s.bs
      modifies this
      ensures s == old(s).(disk := s.disk) && |s.disk| == |old(s).disk|
      ensures ok ==> b < |s.disk| && s.disk == old(s).disk[b := buf]
      ensures !ok ==> s.disk == old(s).disk || exists k :: TornTo(old(s).disk, s.disk, b, buf, k)
    {
      var i := 0;
      while i < s.bs / SECTOR
        invariant 0 <= i <= s.bs / SECTOR && s == old(s).(disk := s.disk) && |s.disk| == |old(s).disk|
        invariant i == 0 ==> s.disk == old(s).disk
        invariant i > 0 ==> TornTo(old(s).disk, s.disk, b, buf, i)
      {
        var failed := Chance();
        if failed || b >= |s.disk| { return false; }
        ghost var was := old(s).disk[b];
        assert |s.disk[b]| == s.bs;
        s := s.(disk := s.disk[b := s.disk[b][..SECTOR * i] + buf[SECTOR * i..SECTOR * (i + 1)]
            + s.disk[b][SECTOR * (i + 1)..]]);
        assert s.disk[b] == Mixed(was, buf, i + 1);
        i := i + 1;
      }
      assert Mixed(old(s).disk[b], buf, i) == buf;
      ok := true;
    }

    // ----- cached access -----

    /** A read returns what the view holds, and changes no view. */
    method ReadBlock(b: nat, mem: Memory) returns (r: Option<Block>)
      requires StoreOk(s)
      modifies this
      ensures StoreOk(s) && View(s) == View(old(s)) && s.disk == old(s).disk && Dirty(s) == Dirty(old(s))
      ensures r.Some? ==> b in View(s) && r.value == View(s)[b]
    {
      if s.on && b in s.cache { return Some(s.cache[b].data); }
      if s.on && mem.entry && mem.data {
        var data := ReadRaw(b);
        if data.Some? && mem.node {
          s := s.(cache := s.cache[b := Entry(data.value, false)]);
          assert EntryOk(s, b);
          forall c | c in s.cache ensures EntryOk(s, c) { if c != b { assert EntryOk(old(s), c); } }
          assert View(s) == View(old(s));
          assert Dirty(s) == Dirty(old(s));
          return data;
        }
      }
      r := ReadRaw(b);
    }

    /** A write changes the view at b only: to buf if it succeeds and the entry is not dropped;
        to a mixture of old and new sectors if the cache is bypassed and the device fails. */
    method WriteBlock(b: nat, buf: Block, mem: Memory) returns (ok: bool)
      requires StoreOk(s) && |buf| == s.bs
      modifies this
      ensures StoreOk(s)
      ensures Caught(old(s), b, mem) ==> ok && s == AfterWrite(old(s), b, buf, mem)
      ensures ok && !Dropped(old(s), b, mem) ==> View(s) == View(old(s))[b := buf]
      ensures ok && Dropped(old(s), b, mem) ==> View(s) == View(old(s))
      ensures !ok ==> View(s) == View(old(s)) || exists k :: TornView(View(old(s)), View(s), b, buf, k)
    {
      if Caught(s, b, mem) {
        AfterWriteOk(s, b, buf, mem);
        if s.on && b in s.cache {
          s := s.(cache := s.cache[b := Entry(buf, true)]);
        } else if mem.node {
          s := s.(cache := s.cache[b := Entry(buf, true)]);
        }
        return true;
      }
      ok := WriteRaw(b, buf);
      RawOk(old(s), s, b, buf);
    }

    // ----- flush -----

    /** Takes up to BATCH dirty entries, in some order, and marks them clean. */
    method Gather() returns (batch: seq<nat>)
      requires StoreOk(s)
      modifies this
      ensures s == old(s).(cache := s.cache) && s.cache.Keys == old(s).cache.Keys && View(s) == View(old(s))
        && OkBut(s, Members(batch))
      ensures Distinct(batch) && Members(batch) <= Dirty(old(s)) && Dirty(s) == Dirty(old(s)) - Members(batch)
      ensures |batch| == if |Dirty(old(s))| < BATCH then |Dirty(old(s))| else BATCH
    {
      batch := [];
      var todo := s.cache.Keys;
      GatherStart(s);
      while todo != {}
        invariant todo <= s.cache.Keys && Gathered(old(s), s, batch, todo)
        decreases todo
      {
        var b :| b in todo;
        GatherOne(old(s), s, batch, todo, b);
        if s.cache[b].dirty && |batch| < BATCH {
          s := s.(cache := s.cache[b := s.cache[b].(dirty := false)]);
          batch := batch + [b];
        }
        todo := todo - {b};
      }
      GatherEnd(old(s), s, batch);
    }

    /** Writes a batch; an entry whose write fails becomes dirty again. */
    method WriteBatch(batch: seq<nat>) returns (failed: nat)
      requires OkBut(s, Members(batch)) && Distinct(batch) && Members(batch) <= s.cache.Keys
        && Members(batch) !! Dirty(s) && s.on
      modifies this
      ensures StoreOk(s) && View(s) == View(old(s)) && s.on
      ensures failed <= |batch| && |Dirty(s)| == |Dirty(old(s))| + failed
    {
      failed := 0;
      var i := 0;
      while i < |batch|
        invariant 0 <= i <= |batch| && OkBut(s, Members(batch[i..])) && View(s) == View(old(s)) && s.on
        invariant Members(batch) <= s.cache.Keys && Members(batch[i..]) !! Dirty(s)
        invariant failed <= i && |Dirty(s)| == |Dirty(old(s))| + failed
      {
        var b := batch[i];
        ghost var was := s;
        assert b in Members(batch[i..]) by { assert batch[i..][0] == b; }
        var ok := WriteRaw(b, s.cache[b].data);
        if !ok {
          s := s.(cache := s.cache[b := s.cache[b].(dirty := true)]);
          failed := failed + 1;
        }
        OneWritten(was, s, batch[i..], ok);
        assert batch[i..][1..] == batch[i + 1..];
        i := i + 1;
      }
      assert Members(batch[i..]) == {};
      AllOk(s);
    }

    /** Flush never changes the view, even when the device fails, and ends because every round
        that is followed by another leaves fewer dirty blocks; success means that the disk
        equals the view. */
    method Flush() returns (ok: bool)
      requires StoreOk(s)
      modifies this
      ensures StoreOk(s) && View(s) == View(old(s))
      ensures ok ==> Synced(s)
    {
      if !s.on { return true; }
      var full := Chance();
      if full { return false; }
      ok := true;
      while true
        invariant StoreOk(s) && View(s) == View(old(s)) && s.on
        decreases |Dirty(s)|
      {
        ghost var was := s;
        var batch := Gather();
        if |batch| == 0 { break; }
        var failed := WriteBatch(batch);
        DirtyLeft(was, batch);
        if failed > 0 { ok := false; }
        if |batch| < BATCH || failed == |batch| { break; }
      }
      if ok { CleanIsSynced(s); }
    }
  }

  // ----- batches -----

  ghost function Members(batch: seq<nat>): set<nat> { set b | b in batch }

  predicate Distinct(batch: seq<nat>) { forall i, j :: 0 <= i < j < |batch| ==> batch[i] != batch[j] }

  /** Everything is in order except entries of pend, which are marked clean but not written. */
  ghost predicate OkBut(s: Store, pend: set<nat>) {
    && DiskOk(s) && (!s.on ==> s.cache == map[])
    && forall b :: b in s.cache ==> |s.cache[b].data| == s.bs && (b !in pend ==> EntryOk(s, b))
  }

  lemma AllOk(s: Store)
    requires OkBut(s, {})
    ensures StoreOk(s)
  {
  }

  /** The disk equals the view. */
  ghost predicate Synced(s: Store) { forall b :: b in View(s) ==> b < |s.disk| && s.disk[b] == View(s)[b] }

  lemma CleanIsSynced(s: Store)
    requires StoreOk(s) && |Dirty(s)| == 0
    ensures Synced(s)
  {
    assert Dirty(s) == {};
    forall b | b in View(s) ensures b < |s.disk| && s.disk[b] == View(s)[b] {
      if b in s.cache { assert b !in Dirty(s); assert EntryOk(s, b); }
    }
  }

  lemma {:induction false} MembersCount(batch: seq<nat>)
    requires Distinct(batch)
    ensures |Members(batch)| == |batch|
  {
    if batch == [] {
      assert Members(batch) == {};
    } else {
      MembersCount(batch[1..]);
      assert Members(batch) == Members(batch[1..]) + {batch[0]};
      assert batch[0] !in Members(batch[1..]);
    }
  }

  lemma DirtyLeft(s: Store, batch: seq<nat>)
    requires Distinct(batch) && Members(batch) <= Dirty(s)
    ensures |Dirty(s) - Members(batch)| == |Dirty(s)| - |batch|
  {
    MembersCount(batch);
    assert Dirty(s) == (Dirty(s) - Members(batch)) + Members(batch);
  }

  /** The batch holds the dirty keys met so far, up to the limit, and they are marked clean. */
  ghost predicate Gathered(s: Store, s': Store, batch: seq<nat>, todo: set<nat>) {
    && Marked(s, s', Members(batch))
    && Distinct(batch) && Members(batch) <= Dirty(s) && Members(batch) !! todo
    && |batch| == Capped(|Dirty(s) - todo|)
  }

  /** s' is s with the entries of set clean marked clean. */
  ghost predicate Marked(s: Store, s': Store, clean: set<nat>) {
    && s' == s.(cache := s'.cache) && s'.cache.Keys == s.cache.Keys
    && forall b :: b in s.cache ==> s'.cache[b] == if b in clean then s.cache[b].(dirty := false) else s.cache[b]
  }

  lemma MarkOne(s: Store, s': Store, clean: set<nat>, b: nat)
    requires Marked(s, s', clean) && b in s'.cache
    ensures Marked(s, s'.(cache := s'.cache[b := s'.cache[b].(dirty := false)]), clean + {b})
  {
  }

  function Capped(n: nat): nat { if n < BATCH then n else BATCH }

  lemma GatherStart(s: Store)
    ensures Gathered(s, s, [], s.cache.Keys)
  {
    assert Dirty(s) - s.cache.Keys == {};
  }

  lemma GatherOne(s: Store, s': Store, batch: seq<nat>, todo: set<nat>, b: nat)
    requires Gathered(s, s', batch, todo) && b in todo && b in s'.cache
    ensures if s'.cache[b].dirty && |batch| < BATCH
            then Gathered(s, s'.(cache := s'.cache[b := s'.cache[b].(dirty := false)]), batch + [b], todo - {b})
            else Gathered(s, s', batch, todo - {b})
  {
    var was, now := Dirty(s) - todo, Dirty(s) - (todo - {b});
    assert b !in Members(batch);
    assert s'.cache[b] == s.cache[b];
    if s.cache[b].dirty { assert now == was + {b}; } else { assert now == was; }
    if s'.cache[b].dirty && |batch| < BATCH { GatherTake(s, s', batch, todo, b); }
  }

  lemma GatherTake(s: Store, s': Store, batch: seq<nat>, todo: set<nat>, b: nat)
    requires Gathered(s, s', batch, todo) && b in todo && b in s.cache && b in s'.cache && s'.cache[b] == s.cache[b]
      && s.cache[b].dirty
    requires b !in Members(batch) && |batch| < BATCH && |Dirty(s) - (todo - {b})| == |Dirty(s) - todo| + 1
    ensures Gathered(s, s'.(cache := s'.cache[b := s'.cache[b].(dirty := false)]), batch + [b], todo - {b})
  {
    hide Distinct, Marked;
    assert Members(batch + [b]) == Members(batch) + {b};
    DistinctMore(batch, b);
    assert b in Dirty(s);
    MarkOne(s, s', Members(batch), b);
  }

  lemma DistinctMore(batch: seq<nat>, b: nat)
    requires Distinct(batch) && b !in Members(batch)
    ensures Distinct(batch + [b])
  {
  }

  lemma GatherEnd(s: Store, s': Store, batch: seq<nat>)
    requires StoreOk(s) && Gathered(s, s', batch, {})
    ensures View(s') == View(s) && OkBut(s', Members(batch)) && Dirty(s') == Dirty(s) - Members(batch)
    ensures |batch| == Capped(|Dirty(s)|)
  {
    assert Dirty(s) - {} == Dirty(s);
    forall b | b in s'.cache ensures |s'.cache[b].data| == s'.bs && (b !in Members(batch) ==> EntryOk(s', b)) {
      assert EntryOk(s, b);
    }
    assert View(s') == View(s);
    assert Dirty(s') == Dirty(s) - Members(batch);
  }

  /** One block of the batch has been written, or marked dirty again. */
  lemma OneWritten(s: Store, s': Store, batch: seq<nat>, ok: bool)
    requires batch != [] && Distinct(batch) && OkBut(s, Members(batch)) && Members(batch) <= s.cache.Keys
      && Members(batch) !! Dirty(s)
    requires var b := batch[0];
             && s' == s.(disk := s'.disk, cache := if ok then s.cache else s.cache[b := s.cache[b].(dirty := true)])
             && |s'.disk| == |s.disk|
             && (ok ==> b < |s.disk| && s'.disk == s.disk[b := s.cache[b].data])
             && (!ok ==> s'.disk == s.disk || exists k :: TornTo(s.disk, s'.disk, b, s.cache[b].data, k))
    ensures OkBut(s', Members(batch[1..])) && View(s') == View(s) && Members(batch[1..]) !! Dirty(s')
      && s'.cache.Keys == s.cache.Keys
    ensures |Dirty(s')| == |Dirty(s)| + if ok then 0 else 1
  {
    hide OkBut, View;
    var b := batch[0];
    assert Members(batch) == Members(batch[1..]) + {b};
    assert b !in Members(batch[1..]);
    assert Members(batch) - {b} == Members(batch[1..]);
    SizesOk(s, Members(batch), b);
    OneDisk(s, s', b, s.cache[b].data);
    OneOk(s, s', Members(batch), b, ok);
    SameView(s, s', b);
    assert Dirty(s') == if ok then Dirty(s) else Dirty(s) + {b};
  }

  lemma SizesOk(s: Store, pend: set<nat>, b: nat)
    requires OkBut(s, pend) && b in s.cache
    ensures DiskOk(s) && |s.cache[b].data| == s.bs
  {
  }

  lemma SameView(s: Store, s': Store, b: nat)
    requires b in s.cache && s'.cache.Keys == s.cache.Keys && |s'.disk| == |s.disk|
    requires forall c :: c in s.cache ==> s'.cache[c].data == s.cache[c].data
    requires forall c :: 0 <= c < |s.disk| && c != b ==> s'.disk[c] == s.disk[c]
    ensures View(s') == View(s)
  {
  }

  lemma OneDisk(s: Store, s': Store, b: nat, buf: Block)
    requires DiskOk(s) && |buf| == s.bs && s'.bs == s.bs && |s'.disk| == |s.disk|
    requires s'.disk == s.disk || (b < |s.disk| && s'.disk == s.disk[b := buf])
      || exists k :: TornTo(s.disk, s'.disk, b, buf, k)
    ensures DiskOk(s') && forall c :: 0 <= c < |s.disk| && c != b ==> s'.disk[c] == s.disk[c]
  {
  }

  lemma OneOk(s: Store, s': Store, pend: set<nat>, b: nat, ok: bool)
    requires OkBut(s, pend) && b in s.cache && DiskOk(s') && |s'.disk| == |s.disk|
    requires s' == s.(disk := s'.disk, cache := if ok then s.cache else s.cache[b := s.cache[b].(dirty := true)])
    requires forall c :: 0 <= c < |s.disk| && c != b ==> s'.disk[c] == s.disk[c]
    requires ok ==> b < |s.disk| && s'.disk == s.disk[b := s.cache[b].data]
    ensures OkBut(s', pend - {b})
  {
    forall c | c in s'.cache ensures |s'.cache[c].data| == s'.bs && (c !in pend - {b} ==> EntryOk(s', c)) {
      if c != b && c !in pend { assert EntryOk(s, c); }
    }
  }

  /** The disk differs from was at b only, where the first k sectors are new. */
  ghost predicate TornTo(was: seq<Block>, now: seq<Block>, b: nat, buf: Block, k: nat) {
    b < |was| && |was[b]| == |buf| && SECTOR * k <= |buf| && now == was[b := Mixed(was[b], buf, k)]
  }

  ghost predicate TornView(was: imap<nat, Block>, now: imap<nat, Block>, b: nat, buf: Block, k: nat) {
    b in was && |was[b]| == |buf| && SECTOR * k <= |buf| && now == was[b := Mixed(was[b], buf, k)]
  }

  /** Writing an uncached block to the disk. */
  lemma RawOk(s: Store, s': Store, b: nat, buf: Block)
    requires StoreOk(s) && |buf| == s.bs && b !in s.cache && s' == s.(disk := s'.disk) && |s'.disk| == |s.disk|
    requires s'.disk == s.disk || (b < |s.disk| && s'.disk == s.disk[b := buf])
      || exists k :: TornTo(s.disk, s'.disk, b, buf, k)
    ensures StoreOk(s')
    ensures s'.disk == s.disk ==> View(s') == View(s)
    ensures b < |s.disk| && s'.disk == s.disk[b := buf] ==> View(s') == View(s)[b := buf]
    ensures (exists k :: TornTo(s.disk, s'.disk, b, buf, k)) ==> exists k :: TornView(View(s), View(s'), b, buf, k)
  {
    forall c | c in s'.cache ensures EntryOk(s', c) { assert EntryOk(s, c); }
    if k :| TornTo(s.disk, s'.disk, b, buf, k) {
      assert View(s') == View(s)[b := Mixed(s.disk[b], buf, k)];
      assert TornView(View(s), View(s'), b, buf, k);
    }
    if b < |s.disk| && s'.disk == s.disk[b := buf] { assert View(s') == View(s)[b := buf]; }
  }
}
