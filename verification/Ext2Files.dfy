/** ext2 files: allocation, the block map with its indirect blocks, and reading and writing
    at any offset. Block reads and writes may fail; a failed write leaves some sectors new. */
module Ext2Files {
  import opened Prelude
  import opened LeBytes
  import opened Ext2Map
  import opened Ext2Alloc
  import C = Ext2Cache

  function Zero(n: nat): (z: Block)
    ensures |z| == n && Zeros(z)
  {
    seq(n, _ => 0)
  }

  /** Slots that held a block still hold it, bytes are as before, sizes too. */
  predicate SlotGrown(fs: Fs, fs': Fs, y: nat, t: Slot) {
    HasSlot(fs', y, t) == HasSlot(fs, y, t) && (HasSlot(fs, y, t) && At(fs, y, t) != 0 ==>
        At(fs', y, t) == At(fs, y, t))
  }

  ghost predicate SizesKept(fs: Fs, fs': Fs) {
    fs'.inodes.Keys == fs.inodes.Keys && forall x :: x in fs.inodes ==> fs'.inodes[x].size == fs.inodes[x].size
  }

  ghost predicate Grew(fs: Fs, fs': Fs) {
    && Sound(fs') && SameBytes(fs, fs') && SizesKept(fs, fs') && |fs'.blocks| == |fs.blocks|
    && forall y, t :: SlotGrown(fs, fs', y, t)
  }

  lemma GrewTwice(fs: Fs, fs': Fs, fs'': Fs)
    requires Grew(fs, fs') && Grew(fs', fs'')
    ensures Grew(fs, fs'')
  {
    hide Sound, SameBytes, At, HasSlot;
    SameBytesTwice(fs, fs', fs'');
    forall y, t ensures SlotGrown(fs, fs'', y, t) { assert SlotGrown(fs, fs', y, t) && SlotGrown(fs', fs'', y, t); }
  }

  lemma QuietGrew(fs: Fs, fs': Fs)
    requires Sound(fs) && Quiet(fs, fs')
    ensures Grew(fs, fs')
  {
    QuietSound(fs, fs');
    hide Sound, SameBytes, At, HasSlot;
    forall y, t ensures SlotGrown(fs, fs', y, t) { assert SlotKept(fs, fs', y, t); }
  }

  lemma LinkGrew(fs: Fs, fs': Fs, x: nat, s: Slot, b: nat)
    requires OneSlot(fs, fs', x, s, b) && Sound(fs') && SameBytes(fs, fs') && SizesKept(fs, fs')
      && |fs'.blocks| == |fs.blocks|
    ensures Grew(fs, fs')
  {
    hide Sound, SameBytes, At, HasSlot;
    forall y, t ensures SlotGrown(fs, fs', y, t) {
      if y != x || t != s { assert SlotKept(fs, fs', y, t); }
    }
  }

  /** What holds of the state whatever writes are dropped. */
  ghost predicate Shaped(fs: Fs) { ShapeOk(fs) && CountsShape(fs) }

  /** Same geometry, same inodes and sizes. */
  ghost predicate Steady(fs: Fs, fs': Fs) {
    Shaped(fs') && fs'.bs == fs.bs && fs'.first == fs.first && |fs'.blocks| == |fs.blocks| && SizesKept(fs, fs')
  }

  class Ext2 {
    var fs: Fs

    /** No write of a bitmap, a descriptor, a zero block or a pointer block has reported success
        and been dropped by the cache. */
    ghost var clean: bool

    // ----- blocks -----

    method ReadBlock(b: nat) returns (r: Option<Block>)
      ensures r.Some? ==> b < |fs.blocks| && r.value == fs.blocks[b]
    {
      var failed := Chance();
      if failed || b >= |fs.blocks| { return None; }
      r := Some(fs.blocks[b]);
    }

    /** Writes a block. When drop says that the cache cannot take the block, the write reports
        success and is lost. */
    method WriteBlock(b: nat, data: Block, drop: bool) returns (ok: bool)
      requires ShapeOk(fs) && |data| == fs.bs
      modifies `fs
      ensures ok ==> b < |old(fs).blocks|
      ensures ok ==> fs == if drop then old(fs) else old(fs).(blocks := old(fs).blocks[b := data])
      ensures !ok ==> fs == old(fs) || TornWrite(old(fs), fs, b, data)
    {
      if b >= |fs.blocks| { return false; }
      if drop { return true; }
      var failed := Chance();
      if failed {
        var k: nat := *;
        if C.SECTOR * k > fs.bs { return false; }
        fs := fs.(blocks := fs.blocks[b := C.Mixed(fs.blocks[b], data, k)]);
        TornAfter(old(fs), fs, b, data, k);
        return false;
      }
      fs := fs.(blocks := fs.blocks[b := data]);
      ok := true;
    }

    // ----- bitmap -----

    /** The lowest free block. Its bit is set and its group's count follows exactly when neither
        write was dropped. */
    method AllocBlock() returns (r: Option<nat>)
      requires Shaped(fs)
      modifies `fs, `clean
      ensures Steady(old(fs), fs) && (r.None? ==> clean == old(clean))
      ensures r.Some? ==> old(fs).first <= r.value < |old(fs).blocks| && !IsUsed(old(fs), r.value)
      ensures r.Some? ==> forall c :: old(fs).first <= c < r.value ==> IsUsed(old(fs), c)
      ensures r.Some? ==> HalfFlip(old(fs), fs, r.value - old(fs).first, true)
      ensures r.Some? ==> (clean <==> old(clean) && Taken(old(fs), fs, r.value))
      ensures r.None? ==> fs == old(fs) || exists k :: HalfFlip(old(fs), fs, k, true)
    {
      var g, base := 0, 0;
      SteadySame(fs);
      while g < Groups(fs)
        invariant fs == old(fs) && clean == old(clean)
        invariant 0 <= g <= Groups(fs) && base == g * fs.per && SetBelow(fs.bits, base)
      {
        var failed := Chance();
        if failed { return None; }
        var k;
        failed, k := ScanGroup(base);
        if failed { return None; }
        if k.Some? {
          UsedBelow(fs, k.value);
          r := TakeBit(k.value);
          return;
        }
        g, base := g + 1, base + fs.per;
      }
      r := None;
    }

    /** The first clear bit of the group whose bits start at base. */
    method ScanGroup(base: nat) returns (failed: bool, r: Option<nat>)
      requires SetBelow(fs.bits, base)
      ensures !failed && r.None? ==> SetBelow(fs.bits, base + fs.per)
      ensures r.Some? ==> r.value < |fs.bits| && !fs.bits[r.value] && SetBelow(fs.bits, r.value)
    {
      failed, r := false, None;
      var i := 0;
      while i < fs.per && base + i < |fs.bits|
        invariant 0 <= i <= fs.per && SetBelow(fs.bits, base + i)
      {
        failed := Chance();
        if failed { return; }
        if !fs.bits[base + i] { return false, Some(base + i); }
        i := i + 1;
      }
    }

    /** Sets clear bit k and counts it. */
    method TakeBit(k: nat) returns (r: Option<nat>)
      requires Shaped(fs) && k < |fs.bits| && !fs.bits[k]
      modifies `fs, `clean
      ensures Steady(old(fs), fs) && HalfFlip(old(fs), fs, k, true) && (r.None? ==> clean == old(clean))
      ensures r.Some? ==> r.value == old(fs).first + k && (clean <==> old(clean) && Taken(old(fs), fs, r.value))
    {
      GroupOfBit(fs, k);
      var ok, done := FlipBit(k, true);
      HalfSteady(old(fs), fs, k, true);
      if !ok { return None; }
      clean := clean && done;
      TakenIff(old(fs), fs, k, done);
      r := Some(fs.first + k);
    }

    /** Changes bit k and the count of its group. A failure stops in between, and either write
        may be dropped; done says that both have taken effect. */
    method FlipBit(k: nat, v: bool) returns (ok: bool, ghost done: bool)
      requires Flippable(fs, k)
      modifies `fs
      ensures HalfFlip(old(fs), fs, k, v) && (done ==> ok && fs == Flip(old(fs), k, v))
      ensures ok && !done ==> fs.bits == old(fs).bits || fs.free == old(fs).free
    {
      var failed := Chance();
      if failed { return false, false; }
      var dropBit := Chance();
      if !dropBit { fs := fs.(bits := fs.bits[k := v]); }
      failed := Chance();
      if failed { return false, false; }
      var dropCount := Chance();
      if !dropCount { fs := fs.(free := fs.free[k / fs.per := fs.free[k / fs.per] + if v then -1 else 1]); }
      failed := Chance();
      ok := !failed;
      done := ok && !dropBit && !dropCount;
    }

    method FreeBlock(b: nat) returns (ok: bool, ghost done: bool)
      requires Shaped(fs)
      modifies `fs
      ensures Steady(old(fs), fs) && fs.blocks == old(fs).blocks && fs.inodes == old(fs).inodes
      ensures fs == old(fs) || (old(fs).first <= b && HalfFlip(old(fs), fs, b - old(fs).first, false))
      ensures done ==>
        ok && old(fs).first <= b && Flippable(old(fs), b - old(fs).first)
        && fs == Flip(old(fs), b - old(fs).first, false)
    {
      SteadySame(fs);
      if b < fs.first || b >= |fs.blocks| { return false, false; }
      GroupOfBit(fs, b - fs.first);
      ok, done := FlipBit(b - fs.first, false);
      HalfSteady(old(fs), fs, b - fs.first, false);
    }

    /** A free block, allocated and zeroed. */
    method AllocZero() returns (r: Option<nat>)
      requires Shaped(fs) && (clean ==> Sound(fs))
      modifies `fs, `clean
      ensures Steady(old(fs), fs) && fs.inodes == old(fs).inodes && (r.Some? ==> r.value < |fs.blocks|)
      ensures clean ==> old(clean) && Quiet(old(fs), fs)
      ensures clean && r.Some? ==> Linkable(fs, r.value) && (Counted(old(fs)) ==> Counted(fs))
    {
      hide Sound, Quiet, CountsShape, Counted, HalfFlip;
      r := AllocBlock();
      ghost var mid := fs;
      if r.None? {
        HalfQuiet(old(fs), fs, clean);
        return;
      }
      HalfInodes(old(fs), mid, r.value);
      if clean { TakenQuiet(old(fs), mid, r.value); }
      var drop := Chance();
      var ok := WriteBlock(r.value, Zero(fs.bs), drop);
      WrittenSteady(old(fs), mid, fs, r.value, Zero(fs.bs));
      clean := clean && !(ok && drop);
      if clean { WrittenQuiet(old(fs), mid, fs, r.value, ok); }
      if !ok {
        ghost var torn := fs;
        var _, _ := FreeBlock(r.value);
        if clean { FreedQuiet(old(fs), torn, fs, r.value); }
        SteadyTwice(old(fs), torn, fs);
        r := None;
      }
    }

    // ----- pointer blocks -----

    method IndGet(b: nat, i: nat) returns (r: Option<nat>)
      requires ShapeOk(fs) && i < Ptrs(fs)
      ensures r.Some? ==> b < |fs.blocks| && r.value < TWO32 && (b != 0 ==> r.value == Entry(fs, b, i))
    {
      var buf := ReadBlock(b);
      if buf.None? { return None; }
      r := Some(Le32(buf.value, 4 * i));
    }

    method IndSet(b: nat, i: nat, v: nat) returns (ok: bool, ghost done: bool)
      requires ShapeOk(fs) && i < Ptrs(fs) && v < TWO32 && b < |fs.blocks|
      modifies `fs
      ensures 4 * i + 4 <= |old(fs).blocks[b]|
      ensures fs == old(fs) || fs == LinkEntry(old(fs), b, i, v)
      ensures (done ==> ok && fs == LinkEntry(old(fs), b, i, v)) && (ok && !done ==> fs == old(fs))
    {
      var buf := ReadBlock(b);
      if buf.None? { return false, false; }
      var drop := Chance();
      ok := WriteBlock(b, Patch(buf.value, 4 * i, Bytes32(v)), drop);
      done := ok && !drop;
      if !ok && fs != old(fs) { TornEntry(old(fs), fs, b, i, v); }
    }

    // ----- the block map -----

    /** The block in i_block[k], allocated if there is none. */
    method EnsureRoot(x: nat, k: nat) returns (r: Option<nat>)
      requires Shaped(fs) && (clean ==> Sound(fs)) && x in fs.inodes && k <= DIND
      modifies `fs, `clean
      ensures Steady(old(fs), fs) && (r.Some? ==> 0 <= r.value < TWO32)
      ensures clean ==> old(clean) && Grew(old(fs), fs)
      ensures clean && r.Some? ==>
        HasSlot(fs, x, SlotAt(k)) && At(fs, x, SlotAt(k)) == r.value != 0 && (Counted(old(fs)) ==> Counted(fs))
    {
      hide Sound, CountsShape, Counted, Grew, SameBytes, Quiet;
      SteadySame(fs);
      if clean {
        QuietSame(fs);
        QuietGrew(fs, fs);
      }
      var b := fs.inodes[x].iblock[k];
      if b != 0 { return Some(b); }
      r := AllocZero();
      if clean { QuietGrew(old(fs), fs); }
      if r.None? { return; }
      ghost var mid := fs;
      if clean {
        SoundOfGrew(old(fs), mid);
        LinkInodeOk(mid, x, k, r.value);
      }
      fs := LinkInode(fs, x, k, r.value);
      InodeCounts(mid, fs);
      LinkedSteady(old(fs), mid, fs);
      if clean {
        LinkGrew(mid, fs, x, SlotAt(k), r.value);
        GrewTwice(old(fs), mid, fs);
      }
    }

    /** The block in entry i of the pointer block p in slot ps, allocated if there is none. */
    method EnsureEntry(x: nat, ghost ps: Slot, p: nat, i: nat) returns (r: Option<nat>)
      requires Shaped(fs) && x in fs.inodes && i < Ptrs(fs)
      requires clean ==> Sound(fs) && HasSlot(fs, x, ps) && IsPointer(ps) && At(fs, x, ps) == p != 0
      modifies `fs, `clean
      ensures Steady(old(fs), fs) && (r.Some? ==> 0 <= r.value < TWO32)
      ensures clean ==> old(clean) && Grew(old(fs), fs)
      ensures clean && r.Some? ==> HasSlot(fs, x, Child(ps, i)) && At(fs, x, Child(ps, i)) == r.value != 0
      ensures clean && r.Some? ==> (Counted(old(fs)) ==> Counted(fs))
    {
      hide Sound, CountsShape, Counted, Grew, SameBytes, Quiet, At, Entry, LinkEntry;
      SteadySame(fs);
      if clean {
        QuietSame(fs);
        QuietGrew(fs, fs);
        ChildIs(fs, x, ps, i);
      }
      var cur := IndGet(p, i);
      if cur.None? { return None; }
      if cur.value != 0 { return cur; }
      r := AllocZero();
      if clean { QuietGrew(old(fs), fs); }
      if r.None? { return; }
      ghost var mid := fs;
      if clean {
        SoundOfGrew(old(fs), mid);
        SamePointer(old(fs), mid, x, ps, i);
        PointerShape(mid, x, ps, i);
        LinkEntryOk(mid, x, ps, i, r.value);
      }
      var ok, done := IndSet(p, i, r.value);
      EntrySteady(old(fs), mid, fs, p, i, r.value);
      clean := clean && !(ok && !done);
      if clean && fs == LinkEntry(mid, p, i, r.value) {
        LinkedSizes(mid, p, i, r.value);
        LinkGrew(mid, fs, x, Child(ps, i), r.value);
        GrewTwice(old(fs), mid, fs);
        SameCounts(mid, fs);
      }
      if !ok { r := None; }
    }

    /** get_block with allocation: the block of logical block l. */
    method Make(x: nat, l: nat) returns (r: Option<nat>)
      requires Shaped(fs) && (clean ==> Sound(fs)) && x in fs.inodes
      modifies `fs, `clean
      ensures Steady(old(fs), fs)
      ensures clean ==> old(clean) && Grew(old(fs), fs)
      ensures clean && r.Some? ==>
        Mapped(fs, x, l) && At(fs, x, DataSlot(fs, l)) == r.value != 0 && (Counted(old(fs)) ==> Counted(fs))
    {
      hide Sound, CountsShape, Counted, Grew, SameBytes, Quiet, At, Row, Col, Limit;
      SteadySame(fs);
      if clean {
        QuietSame(fs);
        QuietGrew(fs, fs);
      }
      var p := Ptrs(fs);
      if l < NDIR {
        r := EnsureRoot(x, l);
        if clean { MadeDirect(old(fs), fs, x, l); }
      } else if l < NDIR + p {
        r := MakeLeaf1(x, l - NDIR);
        if clean { MadeLeaf1(old(fs), fs, x, l); }
      } else if l < Limit(fs) {
        r := MakeLeaf2(x, Row(fs, l), Col(fs, l));
        if clean { MadeLeaf2(old(fs), fs, x, l); }
      } else {
        r := None;
      }
    }

    method MakeLeaf1(x: nat, i: nat) returns (r: Option<nat>)
      requires Shaped(fs) && (clean ==> Sound(fs)) && x in fs.inodes && i < Ptrs(fs)
      modifies `fs, `clean
      ensures Steady(old(fs), fs)
      ensures clean ==> old(clean) && Grew(old(fs), fs)
      ensures clean && r.Some? ==>
        HasSlot(fs, x, Leaf1(i)) && At(fs, x, Leaf1(i)) == r.value != 0 && (Counted(old(fs)) ==> Counted(fs))
    {
      hide Sound, CountsShape, Counted, Grew, SameBytes, Quiet, At;
      var ind := EnsureRoot(x, IND);
      if ind.None? { return None; }
      ghost var mid := fs;
      if clean { SoundOfGrew(old(fs), mid); }
      r := EnsureEntry(x, Ind, ind.value, i);
      SteadyTwice(old(fs), mid, fs);
      if clean { GrewTwice(old(fs), mid, fs); }
    }

    method MakeLeaf2(x: nat, i: nat, j: nat) returns (r: Option<nat>)
      requires Shaped(fs) && (clean ==> Sound(fs)) && x in fs.inodes && i < Ptrs(fs) && j < Ptrs(fs)
      modifies `fs, `clean
      ensures Steady(old(fs), fs)
      ensures clean ==> old(clean) && Grew(old(fs), fs)
      ensures clean && r.Some? ==>
        HasSlot(fs, x, Leaf2(i, j)) && At(fs, x, Leaf2(i, j)) == r.value != 0 && (Counted(old(fs)) ==> Counted(fs))
    {
      hide Sound, CountsShape, Counted, Grew, SameBytes, Quiet, At;
      var dind := EnsureRoot(x, DIND);
      if dind.None? { return None; }
      ghost var s1 := fs;
      if clean { SoundOfGrew(old(fs), s1); }
      var ind := EnsureEntry(x, Dind, dind.value, i);
      SteadyTwice(old(fs), s1, fs);
      if clean { GrewTwice(old(fs), s1, fs); }
      if ind.None? { return None; }
      ghost var s2 := fs;
      if clean { SoundOfGrew(old(fs), s2); }
      r := EnsureEntry(x, Mid(i), ind.value, j);
      SteadyTwice(old(fs), s2, fs);
      if clean { GrewTwice(old(fs), s2, fs); }
    }

    /** get_block without allocation. With bad, the last pointer block cannot be read, and the
        logical block is reported as a hole. */
    method Find(x: nat, l: nat, bad: bool) returns (r: Option<nat>)
      requires Sound(fs) && x in fs.inodes
      ensures r.Some? ==> Mapped(fs, x, l) && r.value == if bad && l >= NDIR then 0 else At(fs, x, DataSlot(fs, l))
    {
      hide Sound, DataSlot, Entry, Row, Col, Limit;
      SoundInode(fs, x);
      var p, ib := Ptrs(fs), fs.inodes[x].iblock;
      if l < NDIR {
        AtDirect(fs, x, l);
        return Some(ib[l]);
      }
      if l < NDIR + p {
        AtLeaf1(fs, x, l);
        var v := FindIn(ib[IND], l - NDIR, bad);
        return Some(v);
      }
      if l >= Limit(fs) { return None; }
      var i, j := Row(fs, l), Col(fs, l);
      AtLeaf2(fs, x, l);
      NoEntry(fs, i);
      NoEntry(fs, j);
      if ib[DIND] == 0 { return Some(0); }
      var mid := IndGet(ib[DIND], i);
      if mid.None? { return None; }
      var v := FindIn(mid.value, j, bad);
      r := Some(v);
    }

    /** Entry i of pointer block b, if there is one; a failed read counts as no entry. */
    method FindIn(b: nat, i: nat, bad: bool) returns (v: nat)
      requires ShapeOk(fs) && i < Ptrs(fs)
      ensures v == if bad then 0 else Entry(fs, b, i)
    {
      if b == 0 || bad || b >= |fs.blocks| { return 0; }
      v := Le32(fs.blocks[b], 4 * i);
    }

    // ----- reading -----

    /** Reads up to count bytes from pos on. The logical blocks in bad are those whose last pointer
        block cannot be read; they appear as holes, so the result is the file's bytes exactly when
        no nonzero byte of the range lies behind such a pointer block. */
    method ReadData(x: nat, pos: nat, count: nat, bad: set<nat>) returns (r: Option<Block>)
      requires Sound(fs) && x in fs.inodes
      ensures r.Some? ==> |r.value| == Available(fs.inodes[x].size, pos, count)
      ensures r.Some? && InReach(fs.bs, pos + |r.value|) ==> GoodBytes(fs, x, pos, r.value, bad)
      ensures r.Some? && InReach(fs.bs, pos + |r.value|) ==>
                (TrueBytes(fs, x, pos, r.value) <==> forall k :: 0 <= k < |r.value| ==> !LostByte(fs, x, pos, k, bad))
    {
      hide Sound, Available, InReach, GoodBytes, PartOf, Lblk, LostByte, TrueBytes;
      SoundInode(fs, x);
      var n := Available(fs.inodes[x].size, pos, count);
      var out: Block := [];
      NoBytes(fs, x, pos, bad);
      if n > 0 {
        var full := Chance();
        if full { return None; }
      }
      while |out| < n
        invariant |out| <= n && (InReach(fs.bs, pos + n) ==> GoodBytes(fs, x, pos, out, bad))
        decreases n - |out|
      {
        var part := ReadPart(x, pos + |out|, n - |out|, bad);
        if part.None? { return None; }
        if InReach(fs.bs, pos + n) { MoreBytes(fs, x, pos, out, part.value, bad, n); }
        out := out + part.value;
      }
      if InReach(fs.bs, pos + n) { ReadTrueIff(fs, x, pos, out, bad); }
      r := Some(out);
    }

    /** The bytes from f on that lie in one block, at most n of them. */
    method ReadPart(x: nat, f: nat, n: nat, bad: set<nat>) returns (r: Option<Block>)
      requires Sound(fs) && x in fs.inodes && n > 0
      ensures r.Some? ==> 0 < |r.value| <= n
      ensures r.Some? ==> PartOf(fs, x, Index(fs.bs, f), Boff(fs.bs, f), r.value, bad)
    {
      hide Sound, DataSlot, At, Index, Boff;
      SoundInode(fs, x);
      var l, boff := Index(fs.bs, f), Boff(fs.bs, f);
      var m := if n < fs.bs - boff then n else fs.bs - boff;
      var phys := Find(x, l, l in bad);
      if phys.None? { return None; }
      SlotOf(fs, x, l);
      if phys.value == 0 {
        r := Some(Zero(m));
      } else {
        var buf := ReadBlock(phys.value);
        if buf.None? { return None; }
        r := Some(buf.value[boff..boff + m]);
      }
    }

    // ----- writing -----

    /** Writes ub at pos. The logical blocks in drop are those whose data write the cache drops:
        their bytes stay. On success every other byte of the range is written and every byte
        outside it is as before; a failure touches no byte outside the range either. */
    method WriteData(x: nat, pos: nat, ub: Block, drop: set<nat>) returns (ok: bool)
      requires Shaped(fs) && (clean ==> Sound(fs)) && x in fs.inodes && InReach(fs.bs, pos + |ub|)
      modifies `fs, `clean
      ensures Shaped(fs) && fs.bs == old(fs).bs && fs.inodes.Keys == old(fs).inodes.Keys
      ensures clean ==> old(clean) && Sound(fs)
      ensures clean && ok ==> WroteBut(old(fs), fs, x, pos, pos + |ub|, ub, drop)
      ensures clean && ok ==> (Wrote(old(fs), fs, x, pos, ub) <==> NoneDropped(old(fs), x, pos, ub, drop))
      ensures ok ==>
        fs.inodes[x].size == (if pos + |ub| > old(fs).inodes[x].size then pos + |ub| else old(fs).inodes[x].size)
      ensures clean && !ok ==> Outside(old(fs), fs, x, pos, pos + |ub|)
      ensures clean && ok && Counted(old(fs)) ==> Counted(fs)
    {
      hide Sound, ShapeOk, CountsShape, Counted, InReach, WroteBut, Outside, SameBytes, Wrote, NoneDropped;
      var end := pos + |ub|;
      ok := WriteBlocks(x, pos, ub, drop);
      if !ok { return; }
      ghost var was := fs;
      if end > fs.inodes[x].size { fs := Resize(fs, x, end); }
      ResizeShaped(was, x, end);
      if clean {
        ResizeOk(was, x, end);
        WroteThen(old(fs), was, fs, x, pos, ub, drop);
        WriteTrueIff(old(fs), fs, x, pos, ub, drop);
      }
      var failed := Chance();
      if failed && clean { WroteOutside(old(fs), fs, x, pos, end, ub, drop); }
      ok := !failed;
    }

    /** The blocks of a write, one after the other. */
    method WriteBlocks(x: nat, pos: nat, ub: Block, drop: set<nat>) returns (ok: bool)
      requires Shaped(fs) && (clean ==> Sound(fs)) && x in fs.inodes && InReach(fs.bs, pos + |ub|)
      modifies `fs, `clean
      ensures Steady(old(fs), fs) && (clean ==> old(clean) && Sound(fs))
      ensures clean && ok ==> WroteBut(old(fs), fs, x, pos, pos + |ub|, ub, drop) && (Counted(old(fs)) ==> Counted(fs))
      ensures clean && !ok ==> Outside(old(fs), fs, x, pos, pos + |ub|)
    {
      hide Sound, ShapeOk, CountsShape, Counted, InReach, WroteBut, Outside, Lblk, Boff, Index, PartWritten,
        PartOutside;
      var end, f := pos + |ub|, pos;
      WroteNone(fs, x, pos, ub, drop);
      SteadySame(fs);
      var full := Chance();
      if full {
        WroteOutside(old(fs), fs, x, pos, pos, ub, drop);
        return false;
      }
      while f < end
        invariant pos <= f <= end && Steady(old(fs), fs)
        invariant clean ==>
          old(clean) && Sound(fs) && WroteBut(old(fs), fs, x, pos, f, ub, drop) && (Counted(old(fs)) ==> Counted(fs))
        decreases end - f
      {
        ghost var was := fs;
        IndexIs(fs.bs, f, end);
        var n;
        ok, n := WritePart(x, f, ub[f - pos..], Index(fs.bs, f) in drop);
        SteadyTwice(old(fs), was, fs);
        if !ok {
          if clean { OutsideAfter(old(fs), was, fs, x, pos, f, n, ub, drop); }
          return;
        }
        if clean { WroteMore(old(fs), was, fs, x, pos, f, n, ub, drop); }
        f := f + n;
      }
      ok := true;
    }

    /** Writes the first n bytes of ub, up to the end of the block that offset f is in, unless the
        cache drops the block. */
    method WritePart(x: nat, f: nat, ub: Block, drop: bool) returns (ok: bool, n: nat)
      requires Shaped(fs) && (clean ==> Sound(fs)) && x in fs.inodes && ub != [] && InReach(fs.bs, f + |ub|)
      modifies `fs, `clean
      ensures Steady(old(fs), fs) && 0 < n <= |ub| && Boff(fs.bs, f) + n <= fs.bs
      ensures clean ==> old(clean) && Sound(fs)
      ensures clean && ok ==> PartWritten(old(fs), fs, x, Lblk(fs.bs, f), Boff(fs.bs, f), if drop then [] else ub[..n])
      ensures clean && ok && Counted(old(fs)) ==> Counted(fs)
      ensures clean && !ok ==> PartOutside(old(fs), fs, x, Lblk(fs.bs, f), Boff(fs.bs, f), n)
    {
      hide Sound, CountsShape, Counted, Grew, SameBytes, InReach, Index, Boff, Lblk, At, DataSlot, PartWritten,
        PartOutside, TornWrite;
      IndexIs(fs.bs, f, f + |ub|);
      var l, boff := Index(fs.bs, f), Boff(fs.bs, f);
      n := if |ub| < fs.bs - boff then |ub| else fs.bs - boff;
      var phys := Make(x, l);
      ghost var mid := fs;
      if clean {
        SoundOfGrew(old(fs), mid);
        GrewPart(old(fs), mid, x, l, boff, n);
      }
      if phys.None? { return false, n; }
      if clean { SlotOf(mid, x, l); }
      var data := ub[..n];
      if !(boff == 0 && n == fs.bs) {
        var buf := ReadBlock(phys.value);
        if buf.None? { return false, n; }
        data := Patch(buf.value, boff, ub[..n]);
      }
      ok := WriteBlock(phys.value, data, drop);
      WrittenSteady(old(fs), mid, fs, phys.value, data);
      if clean {
        PatchIs(mid.blocks[phys.value], boff, ub[..n], data);
        if ok && drop {
          GrewNothing(old(fs), mid, x, l, boff);
        } else if ok {
          PutPart(old(fs), mid, fs, x, l, boff, ub[..n], data);
          SameCounts(mid, fs);
        } else if fs != mid {
          TornPart(old(fs), mid, fs, x, l, boff, ub[..n], data);
        }
      }
    }

    /** Any sequence of writes and of freeing whole files. While no metadata write is dropped, the
        block maps stay disjoint and allocated; if moreover all succeed, each byte of each file is
        the last one that was written there since the file was last freed, 0 if there is none since
        then, or what it was at the start. */
    method Run(ops: seq<Op>) returns (ok: bool, ghost missed: bool)
      requires Shaped(fs) && (clean ==> Sound(fs))
      requires forall i :: 0 <= i < |ops| ==>
        ops[i].x in fs.inodes && (ops[i].Write? ==> InReach(fs.bs, ops[i].pos + |ops[i].data|))
      modifies `fs, `clean
      ensures Shaped(fs) && fs.inodes.Keys == old(fs).inodes.Keys
      ensures clean ==> old(clean) && Sound(fs)
      ensures clean && ok ==> LastWins(old(fs), fs, ops)
      ensures clean && ok && !missed && Counted(old(fs)) ==> Counted(fs)
    {
      hide Sound, CountsShape, Counted, LastWins, InReach, WroteBut, Outside, FreedSo, RootsCleared;
      NoWrites(fs);
      ok, missed := true, false;
      var i := 0;
      while i < |ops|
        invariant 0 <= i <= |ops| && Shaped(fs) && fs.inodes.Keys == old(fs).inodes.Keys && fs.bs == old(fs).bs
        invariant clean ==>
          old(clean) && Sound(fs) && LastWins(old(fs), fs, ops[..i]) && (!missed && Counted(old(fs)) ==> Counted(fs))
      {
        ghost var was := fs;
        match ops[i] {
          case Write(x, pos, data, drop) =>
            ok := WriteData(x, pos, data, drop);
            if ok && clean { OneMoreWrite(old(fs), was, fs, ops[..i], ops[i]); }
          case Free(x) =>
            ghost var done, left;
            ok, done, left := FreeAll(x);
            missed := missed || left != {};
            if ok && clean { OneMoreFree(old(fs), was, fs, ops[..i], x); }
        }
        if !ok { return; }
        assert ops[..i + 1] == ops[..i] + [ops[i]];
        i := i + 1;
      }
      assert ops[..i] == ops;
    }

    // ----- freeing a file -----

    /** Frees the block in slot t of x; done grows by t, or missed does if the device fails or a
        write is dropped. */
    method FreeSlot(b: nat, ghost fs0: Fs, ghost x: nat, ghost t: Slot, ghost done: set<Slot>, ghost missed: set<Slot>)
      returns (ghost done': set<Slot>, ghost missed': set<Slot>)
      requires Shaped(fs) && (clean ==> Sound(fs0) && FreedSo(fs0, fs, x, done, missed))
      requires clean ==> HasSlot(fs0, x, t) && At(fs0, x, t) == b != 0 && t !in done + missed
      modifies `fs
      ensures Steady(old(fs), fs) && fs.inodes == old(fs).inodes
      ensures clean ==> FreedSo(fs0, fs, x, done', missed')
      ensures done' + missed' == done + missed + {t} && done <= done' && missed <= missed'
    {
      hide Sound, FreedSo, At, HasSlot;
      if clean { FreeReady(fs0, fs, x, done, missed, t); }
      var ok, whole := FreeBlock(b);
      done', missed' := if whole then done + {t} else done, if whole then missed else missed + {t};
      if clean { FreedOne(fs0, old(fs), fs, x, done, missed, t, whole); }
    }

    /** Frees every block whose number is in the pointer block buf of slot ps. */
    method FreeEntries(buf: Block, ghost fs0: Fs, ghost x: nat, ghost ps: Slot, ghost done: set<Slot>,
        ghost missed: set<Slot>)
      returns (ghost done': set<Slot>, ghost missed': set<Slot>)
      requires Shaped(fs) && |buf| == fs.bs && IsPointer(ps)
        && (clean ==> Sound(fs0) && FreedSo(fs0, fs, x, done, missed))
      requires clean ==>
        HasSlot(fs0, x, ps) && At(fs0, x, ps) != 0 && At(fs0, x, ps) < |fs0.blocks| && buf == fs0.blocks[At(fs0, x, ps)]
      requires clean ==> fs.bs == fs0.bs && forall i :: 0 <= i < Ptrs(fs0) ==> Child(ps, i) !in done + missed
      modifies `fs
      ensures Steady(old(fs), fs) && fs.inodes == old(fs).inodes && done <= done' && missed <= missed'
      ensures clean ==>
        FreedSo(fs0, fs, x, done', missed') && ChildrenOnly(fs0, ps, done + missed, done' + missed', Ptrs(fs0))
      ensures clean ==> ChildrenDone(fs0, x, ps, done' + missed', Ptrs(fs0))
    {
      hide Sound, FreedSo, At, HasSlot, Entry, Child;
      done', missed' := done, missed;
      SteadySame(fs);
      var i := 0;
      while i < fs.bs / 4
        invariant 0 <= i <= fs.bs / 4 && Steady(old(fs), fs) && fs.inodes == old(fs).inodes && done <= done'
          && missed <= missed'
        invariant clean ==>
          FreedSo(fs0, fs, x, done', missed') && ChildrenOnly(fs0, ps, done + missed, done' + missed', i)
        invariant clean ==> ChildrenDone(fs0, x, ps, done' + missed', i)
      {
        var v := Le32(buf, 4 * i);
        ghost var was, mid := done' + missed', fs;
        if clean { ChildValue(fs0, x, ps, i, v); }
        if v != 0 {
          if clean { ChildFresh(fs0, ps, done + missed, was, i); }
          done', missed' := FreeSlot(v, fs0, x, Child(ps, i), done', missed');
          SteadyTwice(old(fs), mid, fs);
        }
        if clean { ChildStep(fs0, x, ps, done + missed, was, done' + missed', i); }
        i := i + 1;
      }
    }

    /** Empties i_block[k]. */
    method ClearRoot(x: nat, k: nat)
      requires Shaped(fs) && x in fs.inodes && k < 15
      modifies `fs
      ensures fs == LinkInode(old(fs), x, k, 0) && Steady(old(fs), fs)
    {
      hide CountsShape;
      fs := LinkInode(fs, x, k, 0);
      InodeCounts(old(fs), fs);
    }

    /** The direct blocks. */
    method FreeDirect(x: nat, ghost fs0: Fs) returns (ghost done: set<Slot>, ghost missed: set<Slot>)
      requires Shaped(fs) && fs == fs0 && x in fs.inodes && (clean ==> Sound(fs0))
      modifies `fs
      ensures Steady(old(fs), fs)
      ensures clean ==>
        FreedSo(fs0, fs, x, done, missed) && RootsCleared(fs0, fs, x, NDIR) && SlotsBelow(done + missed, NDIR)
      ensures clean ==> RootsDone(fs0, x, done + missed, NDIR)
    {
      hide Sound, FreedSo, At, CountsShape;
      done, missed := {}, {};
      SteadySame(fs);
      if clean { FreedNone(fs0, x); }
      var i := 0;
      while i < NDIR
        invariant 0 <= i <= NDIR && Steady(old(fs), fs)
        invariant clean ==>
          FreedSo(fs0, fs, x, done, missed) && RootsCleared(fs0, fs, x, i) && SlotsBelow(done + missed, i)
        invariant clean ==> RootsDone(fs0, x, done + missed, i)
      {
        ghost var t, was, s1 := Direct(i), done + missed, fs;
        if clean { AtRoot(fs0, x, i); }
        if fs.inodes[x].iblock[i] != 0 {
          done, missed := FreeSlot(fs.inodes[x].iblock[i], fs0, x, t, done, missed);
          ghost var mid := fs;
          ClearRoot(x, i);
          SteadyTwice(old(fs), s1, mid);
          SteadyTwice(old(fs), mid, fs);
          if clean { ClearedOk(fs0, mid, fs, x, i, done, missed); }
        }
        if clean { RootStep(fs0, x, was, done + missed, i); }
        i := i + 1;
      }
    }

    /** Reads the pointer block b for freeing. */
    method ReadPointers(b: nat) returns (r: Option<Block>)
      ensures r.Some? ==> b < |fs.blocks| && r.value == fs.blocks[b]
    {
      var full := Chance();
      if full { return None; }
      r := ReadBlock(b);
    }

    /** The indirect block and the blocks it lists. */
    method FreeSingle(x: nat, ghost fs0: Fs, ghost done: set<Slot>, ghost missed: set<Slot>)
      returns (ok: bool, ghost done': set<Slot>, ghost missed': set<Slot>)
      requires Shaped(fs) && x in fs.inodes && (clean ==> Sound(fs0) && FreedSo(fs0, fs, x, done, missed))
      requires clean ==> RootsCleared(fs0, fs, x, NDIR) && AllDead(done + missed, NDIR)
      modifies `fs
      ensures Steady(old(fs), fs) && done <= done' && missed <= missed'
        && (clean ==> FreedSo(fs0, fs, x, done', missed'))
      ensures clean && !ok ==> RootsCleared(fs0, fs, x, NDIR) && AllDead(done' + missed', NDIR)
      ensures clean && ok ==>
        RootsCleared(fs0, fs, x, IND + 1) && AllDead(done' + missed', IND + 1) && TreeDone(fs0, x, done' + missed', Ind)
    {
      hide Sound, FreedSo, At, AllDead, TreeDone, CountsShape;
      done', missed' := done, missed;
      SteadySame(fs);
      if clean {
        AtRoot(fs0, x, IND);
        FreedBs(fs0, fs, x, done, missed);
      }
      var ind := fs.inodes[x].iblock[IND];
      if ind == 0 {
        if clean {
          EmptyTree(fs0, x, done + missed, Ind);
          DeadMore(done + missed, NDIR);
          StillCleared(fs0, fs, x, IND);
        }
        return true, done, missed;
      }
      var buf := ReadPointers(ind);
      if buf.None? { return false, done, missed; }
      if clean {
        PointerBlock(fs0, fs, x, Ind, done, missed);
        DeadNoChild(done + missed, NDIR, Ind);
      }
      done', missed' := FreeEntries(buf.value, fs0, x, Ind, done, missed);
      ghost var was, s1 := done' + missed', fs;
      if clean {
        DeadNotRoot(done + missed, NDIR, Ind);
        NotAdded(fs0, Ind, done + missed, was, Ind);
      }
      done', missed' := FreeSlot(ind, fs0, x, Ind, done', missed');
      ghost var mid := fs;
      ClearRoot(x, IND);
      SteadyTwice(old(fs), s1, mid);
      SteadyTwice(old(fs), mid, fs);
      ok := true;
      if clean {
        ClearedOk(fs0, mid, fs, x, IND, done', missed');
        SingleDone(fs0, x, done + missed, was, done' + missed');
      }
    }

    /** One row of the double indirect tree: the indirect block ind and the blocks it lists. If
        ind cannot be read, the whole row is missed. */
    method FreeRow(x: nat, ghost i: nat, ind: nat, ghost fs0: Fs, ghost done: set<Slot>, ghost missed: set<Slot>)
      returns (ghost done': set<Slot>, ghost missed': set<Slot>)
      requires Shaped(fs) && (clean ==> Sound(fs0) && FreedSo(fs0, fs, x, done, missed) && HasSlot(fs0, x, Mid(i)))
      requires clean ==> At(fs0, x, Mid(i)) == ind != 0 && NoneOfRow(done + missed, i)
      modifies `fs
      ensures Steady(old(fs), fs) && fs.inodes == old(fs).inodes && done <= done' && missed <= missed'
      ensures clean ==>
        FreedSo(fs0, fs, x, done', missed') && RowOnly(done + missed, done' + missed', i)
        && RowDone(fs0, x, done' + missed', i)
    {
      hide Sound, FreedSo, At, HasSlot, NoneOfRow, RowOnly, RowDone, ChildrenDone, ChildrenOnly;
      SteadySame(fs);
      var buf := ReadPointers(ind);
      if buf.None? {
        done', missed' := done, missed + if clean then Row2(fs0, x, i) else {};
        if clean { SkipOk(fs0, fs, x, done, missed, i); }
        return;
      }
      if clean {
        PointerBlock(fs0, fs, x, Mid(i), done, missed);
        RowFresh(done + missed, i);
      }
      done', missed' := FreeEntries(buf.value, fs0, x, Mid(i), done, missed);
      ghost var was, s1 := done' + missed', fs;
      if clean { RowMid(fs0, done + missed, was, i); }
      done', missed' := FreeSlot(ind, fs0, x, Mid(i), done', missed');
      SteadyTwice(old(fs), s1, fs);
      if clean { RowOk(fs0, x, done + missed, was, done' + missed', i); }
    }

    /** The double indirect block, its indirect blocks and the blocks they list. */
    method FreeDouble(x: nat, ghost fs0: Fs, ghost done: set<Slot>, ghost missed: set<Slot>)
      returns (ok: bool, ghost done': set<Slot>, ghost missed': set<Slot>)
      requires Shaped(fs) && x in fs.inodes && (clean ==> Sound(fs0) && FreedSo(fs0, fs, x, done, missed))
      requires clean ==> RootsCleared(fs0, fs, x, IND + 1) && AllDead(done + missed, IND + 1)
      modifies `fs
      ensures Steady(old(fs), fs) && done <= done' && missed <= missed'
        && (clean ==> FreedSo(fs0, fs, x, done', missed'))
      ensures clean && !ok ==> RootsCleared(fs0, fs, x, IND + 1) && AllDead(done' + missed', IND + 1)
      ensures clean && ok ==>
        RootsCleared(fs0, fs, x, DIND + 1) && AllDead(done' + missed', DIND + 1)
        && TreeDone(fs0, x, done' + missed', Dind)
    {
      hide Sound, FreedSo, At, AllDead, TreeDone, Entry, RowsOnly, RowsDone, NoneOfRow, RowOnly, RowDone, CountsShape;
      done', missed' := done, missed;
      SteadySame(fs);
      if clean {
        AtRoot(fs0, x, DIND);
        FreedBs(fs0, fs, x, done, missed);
      }
      var dind := fs.inodes[x].iblock[DIND];
      if dind == 0 {
        if clean {
          EmptyTree(fs0, x, done + missed, Dind);
          DeadMore(done + missed, IND + 1);
          StillCleared(fs0, fs, x, DIND);
        }
        return true, done, missed;
      }
      var buf := ReadPointers(dind);
      if buf.None? { return false, done, missed; }
      if clean {
        PointerBlock(fs0, fs, x, Dind, done, missed);
        RowsNone(fs0, x, done + missed);
      }
      var i := 0;
      while i < fs.bs / 4
        invariant 0 <= i <= fs.bs / 4 && Steady(old(fs), fs) && fs.inodes == old(fs).inodes && done <= done'
          && missed <= missed'
        invariant clean ==> FreedSo(fs0, fs, x, done', missed') && fs.bs == fs0.bs
        invariant clean ==> RowsOnly(done + missed, done' + missed', i) && RowsDone(fs0, x, done' + missed', i)
      {
        var ind := Le32(buf.value, 4 * i);
        ghost var was, s1 := done' + missed', fs;
        if clean { ChildValue(fs0, x, Dind, i, ind); }
        if ind != 0 {
          if clean { RowsFresh(done + missed, was, i); }
          done', missed' := FreeRow(x, i, ind, fs0, done', missed');
          SteadyTwice(old(fs), s1, fs);
        } else if clean {
          RowEmpty(fs0, x, was, i);
        }
        if clean { RowsStep(fs0, x, done + missed, was, done' + missed', i); }
        i := i + 1;
      }
      ghost var was, s2 := done' + missed', fs;
      if clean { RowsNoRoot(done + missed, was, i); }
      done', missed' := FreeSlot(dind, fs0, x, Dind, done', missed');
      ghost var mid := fs;
      ClearRoot(x, DIND);
      SteadyTwice(old(fs), s2, mid);
      SteadyTwice(old(fs), mid, fs);
      ok := true;
      if clean {
        ClearedOk(fs0, mid, fs, x, DIND, done', missed');
        DoubleDone(fs0, x, done + missed, was, done' + missed');
      }
    }

    /** Frees every block of inode x. On success i_block is empty, and the bits of exactly the
        blocks that were in its slots are clear, apart from those in missed, whose freeing the
        device refused or the cache dropped. */
    method FreeAll(x: nat) returns (ok: bool, ghost done: set<Slot>, ghost missed: set<Slot>)
      requires Shaped(fs) && (clean ==> Sound(fs)) && x in fs.inodes
      modifies `fs
      ensures Steady(old(fs), fs) && (clean ==> Sound(fs) && FreedSo(old(fs), fs, x, done, missed))
      ensures clean ==> forall y, l :: y != x ==> ByteKept(old(fs), fs, y, l)
      ensures clean && ok ==> RootsCleared(old(fs), fs, x, DIND + 1)
      ensures clean && ok ==> forall s :: SlotDone(old(fs), x, done + missed, s)
      ensures clean && ok && missed == {} && Counted(old(fs)) ==> Counted(fs)
    {
      hide Sound, FreedSo, At, AllDead, TreeDone, Counted, CountsShape, RootsDone, SlotsBelow, RootsCleared;
      ghost var fs0 := fs;
      done, missed := FreeDirect(x, fs0);
      ghost var direct, s1 := done + missed, fs;
      if clean { BelowDead(done + missed); }
      ok, done, missed := FreeSingle(x, fs0, done, missed);
      SteadyTwice(fs0, s1, fs);
      if !ok {
        if clean { FreedSound(fs0, fs, x, NDIR, done, missed); }
        return;
      }
      ghost var single, s2 := done + missed, fs;
      ok, done, missed := FreeDouble(x, fs0, done, missed);
      SteadyTwice(fs0, s2, fs);
      if clean {
        FreedSound(fs0, fs, x, if ok then DIND + 1 else IND + 1, done, missed);
        if ok { AllDone(fs0, x, direct, single, done + missed); }
      }
    }
  }

  lemma SteadySame(fs: Fs)
    requires Shaped(fs)
    ensures Steady(fs, fs) && fs.bs > 0
    ensures forall x :: x in fs.inodes ==> |fs.inodes[x].iblock| == 15
  {
  }

  lemma SteadyTwice(fs: Fs, fs': Fs, fs'': Fs)
    requires Steady(fs, fs') && Steady(fs', fs'')
    ensures Steady(fs, fs'')
  {
    hide Shaped;
  }

  lemma HalfSteady(fs: Fs, fs': Fs, k: nat, v: bool)
    requires Shaped(fs) && HalfFlip(fs, fs', k, v)
    ensures Steady(fs, fs')
  {
    ShapeKept(fs, fs');
    hide CountsShape;
  }

  /** Setting a clear bit has taken effect when neither write was dropped, and only then. */
  lemma TakenIff(fs: Fs, fs': Fs, k: nat, done: bool)
    requires ShapeOk(fs) && Flippable(fs, k) && !fs.bits[k] && HalfFlip(fs, fs', k, true)
    requires (done ==> fs' == Flip(fs, k, true)) && (!done ==> fs'.bits == fs.bits || fs'.free == fs.free)
    ensures done <==> Taken(fs, fs', fs.first + k)
  {
    if !done {
      assert Flip(fs, k, true).bits[k] && Flip(fs, k, true).free[k / fs.per] != fs.free[k / fs.per];
    }
  }

  lemma HalfInodes(fs: Fs, fs': Fs, b: nat)
    requires fs.first <= b && HalfFlip(fs, fs', b - fs.first, true)
    ensures fs'.inodes == fs.inodes
  {
  }

  lemma WrittenSteady(fs: Fs, mid: Fs, fs': Fs, b: nat, data: Block)
    requires Steady(fs, mid) && |data| == mid.bs
    requires fs' == mid || (b < |mid.blocks| && fs' == mid.(blocks := mid.blocks[b := data]))
      || TornWrite(mid, fs', b, data)
    ensures Steady(fs, fs') && fs'.inodes == mid.inodes
  {
    hide CountsShape;
    SameCounts(mid, fs');
  }

  lemma LinkedSteady(fs: Fs, mid: Fs, fs': Fs)
    requires Steady(fs, mid) && Shaped(fs') && fs' == mid.(inodes := fs'.inodes) && SizesKept(mid, fs')
    ensures Steady(fs, fs')
  {
    hide Shaped;
  }

  lemma EntrySteady(fs: Fs, mid: Fs, fs': Fs, p: nat, i: nat, v: nat)
    requires Steady(fs, mid) && p < |mid.blocks| && 4 * i + 4 <= |mid.blocks[p]| && v < TWO32
      && (fs' == mid || fs' == LinkEntry(mid, p, i, v))
    ensures Steady(fs, fs')
  {
    SameCounts(mid, fs');
    hide CountsShape;
  }

  lemma ResizeShaped(fs: Fs, x: nat, size: nat)
    requires Shaped(fs) && x in fs.inodes
    ensures Shaped(Resize(fs, x, size))
  {
    InodeCounts(fs, Resize(fs, x, size));
    hide CountsShape;
  }

  lemma GrewNothing(fs: Fs, fs': Fs, x: nat, l: nat, boff: nat)
    requires Grew(fs, fs') && Mapped(fs', x, l)
    ensures PartWritten(fs, fs', x, l, boff, [])
  {
    hide ByteIn, Mapped, Sound;
    forall y: nat, m: nat, k: nat ensures PartByte(fs, fs', x, l, boff, [], y, m, k) { assert ByteKept(fs, fs', y, m); }
  }

  // ----- rows of the double indirect tree -----

  ghost predicate NoneOfRow(slots: set<Slot>, i: nat) { forall s :: s in slots ==> !OfRow(s, i) }

  predicate OfRow(s: Slot, i: nat) { (s.Mid? || s.Leaf2?) && s.i == i }

  ghost predicate RowOnly(base: set<Slot>, now: set<Slot>, i: nat) {
    base <= now && forall s :: s in now ==> s in base || OfRow(s, i)
  }

  ghost predicate RowDone(fs0: Fs, x: nat, slots: set<Slot>, i: nat) {
    forall s :: OfRow(s, i) ==> SlotDone(fs0, x, slots, s)
  }

  ghost predicate RowsOnly(base: set<Slot>, now: set<Slot>, n: nat) {
    base <= now && forall s :: s in now ==> s in base || ((s.Mid? || s.Leaf2?) && s.i < n)
  }

  ghost predicate RowsDone(fs0: Fs, x: nat, slots: set<Slot>, n: nat) {
    forall i :: 0 <= i < n ==> RowDone(fs0, x, slots, i)
  }

  /** The nonempty slots of row i. */
  ghost function Row2(fs0: Fs, x: nat, i: nat): set<Slot> {
    (set j | 0 <= j < Ptrs(fs0) && Held(fs0, x, Leaf2(i, j)) :: Leaf2(i, j)) + if Held(fs0, x, Mid(i)) then {Mid(i)}
        else {}
  }

  predicate Held(fs0: Fs, x: nat, s: Slot) { HasSlot(fs0, x, s) && At(fs0, x, s) != 0 }

  lemma SkipOk(fs0: Fs, fs: Fs, x: nat, done: set<Slot>, missed: set<Slot>, i: nat)
    requires FreedSo(fs0, fs, x, done, missed) && HasSlot(fs0, x, Mid(i)) && At(fs0, x, Mid(i)) != 0
    ensures var now := missed + Row2(fs0, x, i);
            FreedSo(fs0, fs, x, done, now) && RowOnly(done + missed, done + now, i) && RowDone(fs0, x, done + now, i)
  {
    hide At, Counted, CountsShape;
    var now := missed + Row2(fs0, x, i);
    assert Held(fs0, x, Mid(i)) && Mid(i) in Row2(fs0, x, i);
    forall k | 0 <= k < |fs.bits| ensures BitOk(fs0, fs, x, done, now, k) {
      assert BitOk(fs0, fs, x, done, missed, k);
      HeldGrows(fs0, x, missed, now, k);
    }
    forall s | OfRow(s, i) ensures SlotDone(fs0, x, done + now, s) { assert Held(fs0, x, s) ==> s in Row2(fs0, x, i); }
  }

  lemma HeldGrows(fs0: Fs, x: nat, slots: set<Slot>, more: set<Slot>, k: nat)
    requires slots <= more
    ensures HeldIn(fs0, x, slots, k) ==> HeldIn(fs0, x, more, k)
  {
    hide At;
    if HeldIn(fs0, x, slots, k) {
      var s :| s in slots && HasSlot(fs0, x, s) && At(fs0, x, s) == fs0.first + k;
      assert s in more;
    }
  }

  lemma RowFresh(slots: set<Slot>, i: nat)
    requires NoneOfRow(slots, i)
    ensures forall j: nat :: Child(Mid(i), j) !in slots
  {
    forall j: nat ensures Child(Mid(i), j) !in slots { assert OfRow(Child(Mid(i), j), i); }
  }

  lemma RowMid(fs0: Fs, base: set<Slot>, was: set<Slot>, i: nat)
    requires NoneOfRow(base, i) && ChildrenOnly(fs0, Mid(i), base, was, Ptrs(fs0))
    ensures Mid(i) !in was
  {
    assert OfRow(Mid(i), i);
  }

  lemma RowOk(fs0: Fs, x: nat, base: set<Slot>, was: set<Slot>, now: set<Slot>, i: nat)
    requires ChildrenOnly(fs0, Mid(i), base, was, Ptrs(fs0)) && ChildrenDone(fs0, x, Mid(i), was, Ptrs(fs0))
      && now == was + {Mid(i)}
    ensures RowOnly(base, now, i) && RowDone(fs0, x, now, i)
  {
    hide At;
    forall s | OfRow(s, i) ensures SlotDone(fs0, x, now, s) {
      if s.Leaf2? && s.j < Ptrs(fs0) { assert EntryDone(fs0, x, Mid(i), was, s.j); }
    }
  }

  lemma RowsNone(fs0: Fs, x: nat, slots: set<Slot>)
    ensures RowsOnly(slots, slots, 0) && RowsDone(fs0, x, slots, 0)
  {
  }

  lemma RowsFresh(base: set<Slot>, now: set<Slot>, i: nat)
    requires RowsOnly(base, now, i) && AllDead(base, IND + 1)
    ensures NoneOfRow(now, i)
  {
    forall s | s in now ensures !OfRow(s, i) { assert s in base ==> Dead(s, IND + 1); }
  }

  lemma RowEmpty(fs0: Fs, x: nat, slots: set<Slot>, i: nat)
    requires HasSlot(fs0, x, Mid(i)) && At(fs0, x, Mid(i)) == 0
    ensures RowOnly(slots, slots, i) && RowDone(fs0, x, slots, i)
  {
    forall s | OfRow(s, i) ensures SlotDone(fs0, x, slots, s) {}
  }

  lemma RowsStep(fs0: Fs, x: nat, base: set<Slot>, was: set<Slot>, now: set<Slot>, i: nat)
    requires RowsOnly(base, was, i) && RowsDone(fs0, x, was, i) && RowOnly(was, now, i) && RowDone(fs0, x, now, i)
    ensures RowsOnly(base, now, i + 1) && RowsDone(fs0, x, now, i + 1)
  {
    hide At, HasSlot;
    forall j | 0 <= j < i + 1 ensures RowDone(fs0, x, now, j) {
      if j < i {
        assert RowDone(fs0, x, was, j);
        forall s | OfRow(s, j) ensures SlotDone(fs0, x, now, s) { assert SlotDone(fs0, x, was, s); }
      }
    }
  }

  lemma RowsNoRoot(base: set<Slot>, now: set<Slot>, n: nat)
    requires RowsOnly(base, now, n) && AllDead(base, IND + 1)
    ensures Dind !in now
  {
    assert !Dead(Dind, IND + 1);
  }

  lemma DoubleDone(fs0: Fs, x: nat, base: set<Slot>, was: set<Slot>, now: set<Slot>)
    requires AllDead(base, IND + 1) && RowsOnly(base, was, Ptrs(fs0)) && RowsDone(fs0, x, was, Ptrs(fs0))
      && now == was + {Dind}
    ensures AllDead(now, DIND + 1) && TreeDone(fs0, x, now, Dind)
  {
    hide At;
    forall s | s in now ensures Dead(s, DIND + 1) { assert s in base ==> Dead(s, IND + 1); }
    forall s | InTree(Dind, s) ensures SlotDone(fs0, x, now, s) {
      if !s.Dind? && s.i < Ptrs(fs0) {
        assert RowDone(fs0, x, was, s.i);
        assert OfRow(s, s.i);
        assert SlotDone(fs0, x, was, s);
      }
    }
  }

  lemma BelowDead(slots: set<Slot>)
    requires SlotsBelow(slots, NDIR)
    ensures AllDead(slots, NDIR)
  {
  }

  lemma AllDone(fs0: Fs, x: nat, direct: set<Slot>, single: set<Slot>, all: set<Slot>)
    requires RootsDone(fs0, x, direct, NDIR) && TreeDone(fs0, x, single, Ind) && TreeDone(fs0, x, all, Dind)
      && direct <= single <= all
    ensures forall s :: SlotDone(fs0, x, all, s)
  {
    hide At;
    forall s ensures SlotDone(fs0, x, all, s) {
      if s.Direct? {
        if s.i < NDIR { assert RootDone(fs0, x, direct, s.i); }
      } else if InTree(Ind, s) {
        assert SlotDone(fs0, x, single, s);
      } else {
        assert InTree(Dind, s);
      }
    }
  }

  // ----- the map after freeing -----

  lemma FreedAt(fs0: Fs, fs: Fs, x: nat, n: nat, y: nat, s: Slot)
    requires ShapeOk(fs0) && fs.blocks == fs0.blocks && fs.bs == fs0.bs && RootsCleared(fs0, fs, x, n)
      && NDIR <= n <= DIND + 1
    ensures HasSlot(fs, y, s) == HasSlot(fs0, y, s)
    ensures HasSlot(fs0, y, s) ==> At(fs, y, s) == if y == x && Dead(s, n) then 0 else At(fs0, y, s)
  {
  }

  /** A block that is still referenced keeps its bit. */
  lemma FreedRef(fs0: Fs, fs: Fs, x: nat, n: nat, done: set<Slot>, missed: set<Slot>, y: nat, s: Slot)
    requires Sound(fs0) && FreedSo(fs0, fs, x, done, missed) && RootsCleared(fs0, fs, x, n) && NDIR <= n <= DIND + 1
      && AllDead(done + missed, n)
    requires HasSlot(fs, y, s)
    ensures RefOk(fs, y, s)
  {
    FreedAt(fs0, fs, x, n, y, s);
    hide At, ShapeOk, Counted, CountsShape;
    if At(fs, y, s) != 0 {
      assert RefOk(fs0, y, s);
      var k := At(fs0, y, s) - fs0.first;
      assert BitOk(fs0, fs, x, done, missed, k);
      NotHeld(fs0, x, done, n, y, s, k);
      NotHeld(fs0, x, missed, n, y, s, k);
    }
  }

  lemma NotHeld(fs0: Fs, x: nat, slots: set<Slot>, n: nat, y: nat, s: Slot, k: nat)
    requires Sound(fs0) && AllDead(slots, n) && HasSlot(fs0, y, s) && At(fs0, y, s) == fs0.first + k != 0
      && (y != x || !Dead(s, n))
    ensures !HeldIn(fs0, x, slots, k)
  {
    hide At, ShapeOk;
    forall t | t in slots && HasSlot(fs0, x, t)
      ensures At(fs0, x, t) != fs0.first + k
    {
      assert !SameRef(fs0, x, t, y, s);
    }
  }

  lemma FreedSound(fs0: Fs, fs: Fs, x: nat, n: nat, done: set<Slot>, missed: set<Slot>)
    requires Sound(fs0) && FreedSo(fs0, fs, x, done, missed) && RootsCleared(fs0, fs, x, n) && NDIR <= n <= DIND + 1
      && AllDead(done + missed, n)
    ensures Sound(fs) && CountsShape(fs) && forall y, l :: y != x ==> ByteKept(fs0, fs, y, l)
    ensures missed == {} && Counted(fs0) ==> Counted(fs)
  {
    assert ShapeOk(fs);
    assert IsUsed(fs, 0) by { ZeroKept(fs0, fs, x, done, missed); }
    forall y, s
      ensures HasSlot(fs, y, s) == HasSlot(fs0, y, s)
        && (HasSlot(fs0, y, s) ==> At(fs, y, s) == if y == x && Dead(s, n) then 0 else At(fs0, y, s))
    {
      FreedAt(fs0, fs, x, n, y, s);
    }
    hide At, ShapeOk, Counted, CountsShape, IsUsed, BitOk, ByteKept, DataSlot;
    forall y, s | HasSlot(fs, y, s) ensures RefOk(fs, y, s) { FreedRef(fs0, fs, x, n, done, missed, y, s); }
    forall y, s, z, t | HasSlot(fs, y, s) && HasSlot(fs, z, t) && SameRef(fs, y, s, z, t) ensures y == z && s == t {
      assert SameRef(fs0, y, s, z, t);
    }
    forall y, l | y != x ensures ByteKept(fs0, fs, y, l) {
      if Mapped(fs0, y, l) {
        SlotOf(fs0, y, l);
        assert SlotKept(fs0, fs, y, DataSlot(fs0, l));
        BytesKept(fs0, fs, y, l);
      } else {
        NotMapped(fs0, fs, y, l);
      }
    }
  }

  lemma ZeroKept(fs0: Fs, fs: Fs, x: nat, done: set<Slot>, missed: set<Slot>)
    requires Sound(fs0) && FreedSo(fs0, fs, x, done, missed)
    ensures IsUsed(fs, 0)
  {
    hide At, RefsOk, Unshared, Counted, CountsShape;
    if fs0.first == 0 {
      assert BitOk(fs0, fs, x, done, missed, 0);
      assert !HeldIn(fs0, x, done, 0) && !HeldIn(fs0, x, missed, 0);
    }
  }

  /** The slot is empty once i_block[..n] is. */
  predicate Dead(s: Slot, n: nat) {
    match s
    case Direct(i) => i < n
    case Ind => IND < n
    case Leaf1(_) => IND < n
    case _ => DIND < n
  }

  ghost predicate AllDead(slots: set<Slot>, n: nat) { forall s :: s in slots ==> Dead(s, n) }

  /** The slot belongs to the tree below pointer slot root. */
  predicate InTree(root: Slot, s: Slot) {
    if root.Ind? then s.Ind? || s.Leaf1? else s.Dind? || s.Mid? || s.Leaf2?
  }

  predicate SlotDone(fs0: Fs, x: nat, slots: set<Slot>, s: Slot) {
    HasSlot(fs0, x, s) && At(fs0, x, s) != 0 ==> s in slots
  }

  ghost predicate TreeDone(fs0: Fs, x: nat, slots: set<Slot>, root: Slot) {
    forall s :: InTree(root, s) ==> SlotDone(fs0, x, slots, s)
  }

  lemma EmptyTree(fs0: Fs, x: nat, slots: set<Slot>, root: Slot)
    requires HasSlot(fs0, x, root) && (root.Ind? || root.Dind?) && At(fs0, x, root) == 0
    ensures TreeDone(fs0, x, slots, root)
  {
    forall s | InTree(root, s) ensures SlotDone(fs0, x, slots, s) {}
  }

  lemma DeadMore(slots: set<Slot>, n: nat)
    requires AllDead(slots, n)
    ensures AllDead(slots, n + 1)
  {
  }

  lemma StillCleared(fs0: Fs, fs: Fs, x: nat, n: nat)
    requires RootsCleared(fs0, fs, x, n) && n < 15 && fs0.inodes[x].iblock[n] == 0
    ensures RootsCleared(fs0, fs, x, n + 1)
  {
  }

  lemma PointerBlock(fs0: Fs, fs: Fs, x: nat, ps: Slot, done: set<Slot>, missed: set<Slot>)
    requires Sound(fs0) && FreedSo(fs0, fs, x, done, missed) && HasSlot(fs0, x, ps) && At(fs0, x, ps) != 0
    ensures fs.blocks == fs0.blocks && fs.bs == fs0.bs && At(fs0, x, ps) < |fs0.blocks|
      && |fs0.blocks[At(fs0, x, ps)]| == fs0.bs
  {
    assert RefOk(fs0, x, ps);
  }

  lemma DeadNoChild(slots: set<Slot>, n: nat, ps: Slot)
    requires AllDead(slots, n) && ((ps.Ind? && n == NDIR) || (ps.Dind? && n == IND + 1))
    ensures forall i: nat :: Child(ps, i) !in slots
  {
    forall i: nat ensures Child(ps, i) !in slots { assert !Dead(Child(ps, i), n); }
  }

  lemma DeadNotRoot(slots: set<Slot>, n: nat, root: Slot)
    requires AllDead(slots, n) && ((root.Ind? && n == NDIR) || (root.Dind? && n == IND + 1))
    ensures root !in slots
  {
  }

  lemma NotAdded(fs0: Fs, ps: Slot, base: set<Slot>, now: set<Slot>, s: Slot)
    requires IsPointer(ps) && ChildrenOnly(fs0, ps, base, now, Ptrs(fs0)) && s !in base && !IsChild(ps, s, Ptrs(fs0))
    ensures s !in now
  {
  }

  lemma SingleDone(fs0: Fs, x: nat, base: set<Slot>, was: set<Slot>, now: set<Slot>)
    requires AllDead(base, NDIR) && ChildrenOnly(fs0, Ind, base, was, Ptrs(fs0))
      && ChildrenDone(fs0, x, Ind, was, Ptrs(fs0)) && now == was + {Ind}
    ensures AllDead(now, IND + 1) && TreeDone(fs0, x, now, Ind)
  {
    hide At;
    forall s | s in now ensures Dead(s, IND + 1) { assert s in base ==> Dead(s, NDIR); }
    forall s | InTree(Ind, s) ensures SlotDone(fs0, x, now, s) {
      if s.Leaf1? && s.i < Ptrs(fs0) { assert EntryDone(fs0, x, Ind, was, s.i); }
    }
  }

  /** i_block[..n] of x is empty, the rest and all other inodes are as before. */
  predicate RootsCleared(fs0: Fs, fs: Fs, x: nat, n: nat) {
    && x in fs0.inodes && x in fs.inodes && |fs.inodes[x].iblock| == |fs0.inodes[x].iblock| == 15
    && fs.inodes[x].size == fs0.inodes[x].size && fs.inodes == fs0.inodes[x := fs.inodes[x]]
    && forall i :: 0 <= i < 15 ==> fs.inodes[x].iblock[i] == if i < n then 0 else fs0.inodes[x].iblock[i]
  }

  /** Only direct slots below n. */
  ghost predicate SlotsBelow(slots: set<Slot>, n: nat) { forall s :: s in slots ==> s.Direct? && s.i < n }

  predicate RootDone(fs0: Fs, x: nat, slots: set<Slot>, i: nat) {
    HasSlot(fs0, x, Direct(i)) && At(fs0, x, Direct(i)) != 0 ==> Direct(i) in slots
  }

  ghost predicate RootsDone(fs0: Fs, x: nat, slots: set<Slot>, n: nat) {
    forall i :: 0 <= i < n ==> RootDone(fs0, x, slots, i)
  }

  lemma RootStep(fs0: Fs, x: nat, was: set<Slot>, now: set<Slot>, i: nat)
    requires RootsDone(fs0, x, was, i) && was <= now && RootDone(fs0, x, now, i)
    ensures RootsDone(fs0, x, now, i + 1)
  {
    hide At, HasSlot;
    forall j | 0 <= j < i + 1 ensures RootDone(fs0, x, now, j) { if j < i { assert RootDone(fs0, x, was, j); } }
  }

  lemma AtRoot(fs: Fs, x: nat, k: nat)
    requires x in fs.inodes && |fs.inodes[x].iblock| == 15 && k <= DIND
    ensures HasSlot(fs, x, SlotAt(k)) && At(fs, x, SlotAt(k)) == fs.inodes[x].iblock[k]
  {
  }

  lemma FreedNone(fs0: Fs, x: nat)
    requires Sound(fs0) && CountsShape(fs0)
    ensures FreedSo(fs0, fs0, x, {}, {})
  {
    hide At, RefsOk, Unshared;
  }

  lemma ClearedOk(fs0: Fs, was: Fs, fs: Fs, x: nat, k: nat, done: set<Slot>, missed: set<Slot>)
    requires FreedSo(fs0, was, x, done, missed) && RootsCleared(fs0, was, x, k) && k < 15
      && fs == LinkInode(was, x, k, 0)
    ensures FreedSo(fs0, fs, x, done, missed) && RootsCleared(fs0, fs, x, k + 1)
  {
    hide At, HeldIn;
    InodeCounts(was, fs);
    hide Counted, CountsShape;
    forall j | 0 <= j < |fs.bits|
      ensures BitOk(fs0, fs, x, done, missed, j)
    {
      assert BitOk(fs0, was, x, done, missed, j);
    }
  }

  // ----- freed slots -----

  /** Block first + k is in one of the slots. */
  ghost predicate HeldIn(fs0: Fs, x: nat, slots: set<Slot>, k: nat) {
    exists s :: s in slots && HasSlot(fs0, x, s) && At(fs0, x, s) == fs0.first + k
  }

  ghost predicate BitOk(fs0: Fs, fs: Fs, x: nat, done: set<Slot>, missed: set<Slot>, k: nat)
    requires k < |fs.bits| && k < |fs0.bits|
  {
    if HeldIn(fs0, x, done, k) then !fs.bits[k] else HeldIn(fs0, x, missed, k) || fs.bits[k] == fs0.bits[k]
  }

  ghost predicate SlotsIn(fs0: Fs, x: nat, slots: set<Slot>) {
    forall s :: s in slots ==> HasSlot(fs0, x, s) && At(fs0, x, s) != 0
  }

  /** fs is fs0 after freeing the blocks in slots done of x; the slots missed are those whose
      freeing the device refused. */
  ghost predicate FreedSo(fs0: Fs, fs: Fs, x: nat, done: set<Slot>, missed: set<Slot>) {
    && fs.blocks == fs0.blocks && fs.bs == fs0.bs && fs.first == fs0.first && fs.per == fs0.per
    && |fs.bits| == |fs0.bits| && CountsShape(fs) && InodesOk(fs) && SlotsIn(fs0, x, done + missed)
    && (forall k :: 0 <= k < |fs.bits| ==> BitOk(fs0, fs, x, done, missed, k))
    && (missed == {} && Counted(fs0) ==> Counted(fs))
  }

  lemma FreeReady(fs0: Fs, fs: Fs, x: nat, done: set<Slot>, missed: set<Slot>, t: Slot)
    requires Sound(fs0) && FreedSo(fs0, fs, x, done, missed) && HasSlot(fs0, x, t) && At(fs0, x, t) != 0
    ensures ShapeOk(fs) && CountsShape(fs) && fs.first == fs0.first <= At(fs0, x, t) < |fs.blocks|
      && |fs.bits| == |fs0.bits|
  {
    assert RefOk(fs0, x, t);
  }

  lemma FreedBs(fs0: Fs, fs: Fs, x: nat, done: set<Slot>, missed: set<Slot>)
    requires FreedSo(fs0, fs, x, done, missed)
    ensures fs.bs == fs0.bs
  {
  }

  /** A slot not freed yet holds a block that no freed slot holds, and its bit is still set. */
  lemma StillSet(fs0: Fs, was: Fs, x: nat, done: set<Slot>, missed: set<Slot>, t: Slot, k: nat)
    requires Sound(fs0) && FreedSo(fs0, was, x, done, missed) && HasSlot(fs0, x, t)
      && At(fs0, x, t) == fs0.first + k != 0 && t !in done
    ensures k < |was.bits| && !HeldIn(fs0, x, done, k) && (missed == {} ==> was.bits[k])
  {
    hide At, ShapeOk, Counted, CountsShape;
    assert RefOk(fs0, x, t);
    assert IsUsed(fs0, fs0.first + k);
    assert BitOk(fs0, was, x, done, missed, k);
    forall s | s in done && HasSlot(fs0, x, s)
      ensures At(fs0, x, s) != fs0.first + k
    {
      assert !SameRef(fs0, x, s, x, t);
    }
  }

  lemma FreedOne(fs0: Fs, was: Fs, fs: Fs, x: nat, done: set<Slot>, missed: set<Slot>, t: Slot, ok: bool)
    requires Sound(fs0) && FreedSo(fs0, was, x, done, missed) && HasSlot(fs0, x, t) && At(fs0, x, t) != 0
      && t !in done + missed
    requires fs0.first <= At(fs0, x, t)
    requires ok ==> Flippable(was, At(fs0, x, t) - fs0.first) && fs == Flip(was, At(fs0, x, t) - fs0.first, false)
    requires fs == was || HalfFlip(was, fs, At(fs0, x, t) - fs0.first, false)
    ensures FreedSo(fs0, fs, x, if ok then done + {t} else done, if ok then missed else missed + {t})
      && fs.inodes == was.inodes
  {
    hide Sound, At, GroupOk, GroupCounted, HeldIn, BitOk, Flip, HalfFlip, Flippable, Counted, CountsShape;
    var k := At(fs0, x, t) - fs0.first;
    StillSet(fs0, was, x, done, missed, t, k);
    FlipFrame(was, fs, k, ok);
    ShapeKept(was, fs);
    if missed == {} && Counted(fs0) && ok { FlipCounted(was, k, false); }
    var done', missed' := if ok then done + {t} else done, if ok then missed else missed + {t};
    assert done' + missed' == done + missed + {t};
    forall j | 0 <= j < |fs.bits| ensures BitOk(fs0, fs, x, done', missed', j) {
      assert BitOk(fs0, was, x, done, missed, j);
      BitStep(fs0, was, fs, x, done, missed, t, ok, j);
    }
  }

  lemma FlipFrame(was: Fs, fs: Fs, k: nat, ok: bool)
    requires if ok then Flippable(was, k) && fs == Flip(was, k, false) else fs == was || HalfFlip(was, fs, k, false)
    ensures fs == was.(bits := fs.bits, free := fs.free) && |fs.bits| == |was.bits| && |fs.free| == |was.free|
    ensures forall j :: 0 <= j < |was.bits| && j != k ==> fs.bits[j] == was.bits[j]
    ensures ok ==> k < |fs.bits| && !fs.bits[k]
  {
  }

  lemma BitStep(fs0: Fs, was: Fs, fs: Fs, x: nat, done: set<Slot>, missed: set<Slot>, t: Slot, ok: bool, j: nat)
    requires HasSlot(fs0, x, t) && fs0.first <= At(fs0, x, t) && j < |fs.bits| == |was.bits| == |fs0.bits|
      && BitOk(fs0, was, x, done, missed, j)
    requires At(fs0, x, t) != fs0.first + j ==> fs.bits[j] == was.bits[j]
    requires ok && At(fs0, x, t) == fs0.first + j ==> !fs.bits[j]
    requires At(fs0, x, t) == fs0.first + j ==> !HeldIn(fs0, x, done, j)
    ensures BitOk(fs0, fs, x, if ok then done + {t} else done, if ok then missed else missed + {t}, j)
  {
    hide At, HasSlot, HeldIn;
    HeldMore(fs0, x, done, t, j);
    HeldMore(fs0, x, missed, t, j);
  }

  lemma HeldMore(fs0: Fs, x: nat, slots: set<Slot>, t: Slot, k: nat)
    requires HasSlot(fs0, x, t)
    ensures HeldIn(fs0, x, slots + {t}, k) <==> HeldIn(fs0, x, slots, k) || At(fs0, x, t) == fs0.first + k
  {
    hide At;
    if HeldIn(fs0, x, slots, k) {
      var s :| s in slots && HasSlot(fs0, x, s) && At(fs0, x, s) == fs0.first + k;
      assert s in slots + {t};
    }
    if At(fs0, x, t) == fs0.first + k { assert t in slots + {t}; }
  }

  /** Nothing but entries 0..n of ps has been added. */
  ghost predicate ChildrenOnly(fs0: Fs, ps: Slot, base: set<Slot>, now: set<Slot>, n: nat)
    requires IsPointer(ps)
  {
    base <= now && forall s :: s in now ==> s in base || IsChild(ps, s, n)
  }

  predicate IsChild(ps: Slot, s: Slot, n: nat)
    requires IsPointer(ps)
  {
    match s
    case Leaf1(i) => ps.Ind? && i < n
    case Mid(i) => ps.Dind? && i < n
    case Leaf2(i, j) => ps == Mid(i) && j < n
    case _ => false
  }

  predicate EntryDone(fs0: Fs, x: nat, ps: Slot, now: set<Slot>, i: nat)
    requires IsPointer(ps)
  {
    HasSlot(fs0, x, Child(ps, i)) && At(fs0, x, Child(ps, i)) != 0 ==> Child(ps, i) in now
  }

  /** Entries 0..n of ps have been dealt with. */
  ghost predicate ChildrenDone(fs0: Fs, x: nat, ps: Slot, now: set<Slot>, n: nat)
    requires IsPointer(ps)
  {
    forall i :: 0 <= i < n ==> EntryDone(fs0, x, ps, now, i)
  }

  lemma ChildValue(fs0: Fs, x: nat, ps: Slot, i: nat, v: nat)
    requires Sound(fs0) && HasSlot(fs0, x, ps) && IsPointer(ps) && i < Ptrs(fs0) && At(fs0, x, ps) != 0
      && At(fs0, x, ps) < |fs0.blocks|
    requires |fs0.blocks[At(fs0, x, ps)]| == fs0.bs && 4 * i + 4 <= fs0.bs
      && v == Le32(fs0.blocks[At(fs0, x, ps)], 4 * i)
    ensures HasSlot(fs0, x, Child(ps, i)) && At(fs0, x, Child(ps, i)) == v
  {
    ChildIs(fs0, x, ps, i);
  }

  lemma ChildFresh(fs0: Fs, ps: Slot, base: set<Slot>, now: set<Slot>, i: nat)
    requires IsPointer(ps) && ChildrenOnly(fs0, ps, base, now, i) && Child(ps, i) !in base
    ensures Child(ps, i) !in now
  {
  }

  lemma ChildStep(fs0: Fs, x: nat, ps: Slot, base: set<Slot>, was: set<Slot>, now: set<Slot>, i: nat)
    requires IsPointer(ps) && ChildrenOnly(fs0, ps, base, was, i) && ChildrenDone(fs0, x, ps, was, i)
    requires HasSlot(fs0, x, Child(ps, i)) && now == if At(fs0, x, Child(ps, i)) != 0 then was + {Child(ps, i)} else was
    ensures ChildrenOnly(fs0, ps, base, now, i + 1) && ChildrenDone(fs0, x, ps, now, i + 1)
  {
    hide At, HasSlot;
    forall j | 0 <= j < i + 1 ensures EntryDone(fs0, x, ps, now, j) {
      if j < i { assert EntryDone(fs0, x, ps, was, j); }
    }
  }

  // ----- sequences of writes -----

  /** A write whose data the cache drops at the logical blocks in drop, or freeing a whole file. */
  datatype Op = Write(x: nat, pos: nat, data: Block, drop: set<nat>) | Free(x: nat)

  /** The write puts a byte at offset off of y, which is in logical block m. */
  predicate Covers(w: Op, y: nat, m: nat, off: nat) {
    w.Write? && y == w.x && w.pos <= off < w.pos + |w.data| && m !in w.drop
  }

  /** The byte at offset off of inode y, in logical block m, after ops, if it was init before. */
  function After(ops: seq<Op>, y: nat, m: nat, off: nat, init: int): int {
    if ops == [] then init
    else
      var w := ops[|ops| - 1];
      if w.Free? && w.x == y then 0
      else if Covers(w, y, m, off) then w.data[off - w.pos] as int
      else After(ops[..|ops| - 1], y, m, off, init)
  }

  predicate ByteAfter(fs: Fs, fs': Fs, ops: seq<Op>, y: nat, m: nat, k: nat) {
    Mapped(fs, y, m) && k < fs.bs ==>
      Mapped(fs', y, m) && ByteIn(fs', y, m, k) == After(ops, y, m, Offset(fs.bs, m, k), ByteIn(fs, y, m, k))
  }

  ghost predicate LastWins(fs: Fs, fs': Fs, ops: seq<Op>) {
    fs'.bs == fs.bs && forall y, m, k :: ByteAfter(fs, fs', ops, y, m, k)
  }

  lemma NoWrites(fs: Fs)
    ensures LastWins(fs, fs, [])
  {
    hide ByteIn, Mapped;
    forall y: nat, m: nat, k: nat ensures ByteAfter(fs, fs, [], y, m, k) {}
  }

  lemma OneMoreWrite(fs: Fs, was: Fs, now: Fs, ops: seq<Op>, w: Op)
    requires LastWins(fs, was, ops) && w.Write? && WroteBut(was, now, w.x, w.pos, w.pos + |w.data|, w.data, w.drop)
    ensures LastWins(fs, now, ops + [w]) && now.bs == fs.bs
  {
    hide ByteIn, Mapped, Offset;
    var all, end := ops + [w], w.pos + |w.data|;
    assert all[..|all| - 1] == ops;
    forall y: nat, m: nat, k: nat ensures ByteAfter(fs, now, all, y, m, k) {
      assert ByteAfter(fs, was, ops, y, m, k);
      assert WroteByte(was, now, w.x, w.pos, end, w.data, w.drop, y, m, k);
    }
  }

  lemma OneMoreFree(fs: Fs, was: Fs, now: Fs, ops: seq<Op>, x: nat)
    requires LastWins(fs, was, ops) && Sound(was) && RootsCleared(was, now, x, DIND + 1) && now.bs == was.bs
    requires forall y, l :: y != x ==> ByteKept(was, now, y, l)
    ensures LastWins(fs, now, ops + [Free(x)])
  {
    hide Sound, ByteIn;
    var all := ops + [Free(x)];
    assert all[..|all| - 1] == ops;
    forall y: nat, m: nat, k: nat ensures ByteAfter(fs, now, all, y, m, k) {
      assert ByteAfter(fs, was, ops, y, m, k);
      if y != x {
        assert ByteKept(was, now, y, m);
      } else if Mapped(fs, y, m) && k < fs.bs {
        EmptyBytes(was, now, x, m, k);
      }
    }
  }

  /** With i_block empty the file is one hole. */
  lemma EmptyBytes(fs: Fs, fs': Fs, x: nat, m: nat, k: nat)
    requires RootsCleared(fs, fs', x, DIND + 1) && fs'.bs == fs.bs && Mapped(fs, x, m)
    ensures Mapped(fs', x, m) && ByteIn(fs', x, m, k) == 0
  {
    hide Row, Col;
  }

  // ----- what a write leaves -----

  function Offset(bs: nat, l: nat, k: nat): nat { l * bs + k }

  predicate InPart(x: nat, l: nat, boff: nat, n: nat, y: nat, m: nat, k: nat) {
    y == x && m == l && boff <= k < boff + n
  }

  predicate PartByte(fs: Fs, fs': Fs, x: nat, l: nat, boff: nat, part: Block, y: nat, m: nat, k: nat) {
    Mapped(fs, y, m) && k < fs.bs ==>
      Mapped(fs', y, m) &&
      ByteIn(fs', y, m, k) == if InPart(x, l, boff, |part|, y, m, k) then part[k - boff] as int else ByteIn(fs, y, m, k)
  }

  /** Bytes boff.. of logical block l of x have become part; all other bytes are as before. */
  ghost predicate PartWritten(fs: Fs, fs': Fs, x: nat, l: nat, boff: nat, part: Block) {
    fs'.bs == fs.bs && Mapped(fs', x, l) && forall y, m, k :: PartByte(fs, fs', x, l, boff, part, y, m, k)
  }

  predicate OtherByteKept(fs: Fs, fs': Fs, x: nat, l: nat, boff: nat, n: nat, y: nat, m: nat, k: nat) {
    Mapped(fs, y, m) && k < fs.bs && !InPart(x, l, boff, n, y, m, k) ==>
        Mapped(fs', y, m) && ByteIn(fs', y, m, k) == ByteIn(fs, y, m, k)
  }

  ghost predicate PartOutside(fs: Fs, fs': Fs, x: nat, l: nat, boff: nat, n: nat) {
    fs'.bs == fs.bs && forall y, m, k :: OtherByteKept(fs, fs', x, l, boff, n, y, m, k)
  }

  predicate InRange(bs: nat, x: nat, pos: nat, end: nat, y: nat, m: nat, k: nat) {
    y == x && pos <= Offset(bs, m, k) < end
  }

  predicate WroteByte(fs: Fs, fs': Fs, x: nat, pos: nat, f: nat, ub: Block, drop: set<nat>, y: nat, m: nat, k: nat)
    requires f <= pos + |ub|
  {
    Mapped(fs, y, m) && k < fs.bs ==>
      Mapped(fs', y, m) &&
      ByteIn(fs', y, m, k) ==
        if InRange(fs.bs, x, pos, f, y, m, k) && m !in drop then ub[Offset(fs.bs, m, k) - pos] as int
            else ByteIn(fs, y, m, k)
  }

  /** x holds ub at offsets pos..f but for the logical blocks in drop; every other byte of every
      file is as before. */
  ghost predicate WroteBut(fs: Fs, fs': Fs, x: nat, pos: nat, f: nat, ub: Block, drop: set<nat>)
    requires f <= pos + |ub|
  {
    fs'.bs == fs.bs && forall y, m, k :: WroteByte(fs, fs', x, pos, f, ub, drop, y, m, k)
  }

  predicate OutsideByte(fs: Fs, fs': Fs, x: nat, pos: nat, end: nat, y: nat, m: nat, k: nat) {
    Mapped(fs, y, m) && k < fs.bs && !InRange(fs.bs, x, pos, end, y, m, k) ==>
      Mapped(fs', y, m) && ByteIn(fs', y, m, k) == ByteIn(fs, y, m, k)
  }

  ghost predicate Outside(fs: Fs, fs': Fs, x: nat, pos: nat, end: nat) {
    fs'.bs == fs.bs && forall y, m, k :: OutsideByte(fs, fs', x, pos, end, y, m, k)
  }

  /** x holds ub from pos on; every other byte of every file is as before. */
  ghost predicate Wrote(fs: Fs, fs': Fs, x: nat, pos: nat, ub: Block) { WroteBut(fs, fs', x, pos, pos + |ub|, ub, {}) }

  /** The byte to be written differs from the one there, and its block is dropped. */
  predicate DroppedByte(fs: Fs, x: nat, pos: nat, ub: Block, drop: set<nat>, m: nat, k: nat) {
    && Mapped(fs, x, m) && k < fs.bs && InRange(fs.bs, x, pos, pos + |ub|, x, m, k) && m in drop
    && ByteIn(fs, x, m, k) != ub[Offset(fs.bs, m, k) - pos] as int
  }

  ghost predicate NoneDropped(fs: Fs, x: nat, pos: nat, ub: Block, drop: set<nat>) {
    forall m, k :: !DroppedByte(fs, x, pos, ub, drop, m, k)
  }

  /** A write that reports success has written its bytes exactly when every block that the cache
      dropped held them anyway. */
  lemma WriteTrueIff(fs: Fs, fs': Fs, x: nat, pos: nat, ub: Block, drop: set<nat>)
    requires WroteBut(fs, fs', x, pos, pos + |ub|, ub, drop)
    ensures Wrote(fs, fs', x, pos, ub) <==> NoneDropped(fs, x, pos, ub, drop)
  {
    hide ByteIn, Mapped, Offset;
    var end := pos + |ub|;
    if NoneDropped(fs, x, pos, ub, drop) {
      forall y: nat, m: nat, k: nat ensures WroteByte(fs, fs', x, pos, end, ub, {}, y, m, k) {
        assert WroteByte(fs, fs', x, pos, end, ub, drop, y, m, k) && !DroppedByte(fs, x, pos, ub, drop, m, k);
      }
    }
    if Wrote(fs, fs', x, pos, ub) {
      forall m: nat, k: nat ensures !DroppedByte(fs, x, pos, ub, drop, m, k) {
        assert WroteByte(fs, fs', x, pos, end, ub, drop, x, m, k) && WroteByte(fs, fs', x, pos, end, ub, {}, x, m, k);
      }
    }
  }

  /** The bytes at offsets f..f+n are bytes boff.. of the block that f is in. */
  lemma RangeStep(bs: nat, f: nat, n: nat, m: nat, k: nat)
    requires bs > 0 && Boff(bs, f) + n <= bs && k < bs
    ensures (m == Lblk(bs, f) && Boff(bs, f) <= k < Boff(bs, f) + n) <==> f <= Offset(bs, m, k) < f + n
    ensures m == Lblk(bs, f) ==> Offset(bs, m, k) == f - Boff(bs, f) + k
  {
    var l, r := f / bs, f % bs;
    assert f == l * bs + r;
    if m < l { MulMono(bs, m + 1, l); assert (m + 1) * bs == m * bs + bs; }
    if m > l { MulMono(bs, l + 1, m); assert (l + 1) * bs == l * bs + bs; }
  }

  lemma WroteNone(fs: Fs, x: nat, pos: nat, ub: Block, drop: set<nat>)
    ensures WroteBut(fs, fs, x, pos, pos, ub, drop)
  {
    hide ByteIn, Mapped;
    forall y: nat, m: nat, k: nat ensures WroteByte(fs, fs, x, pos, pos, ub, drop, y, m, k) {}
  }

  lemma WroteMore(fs: Fs, was: Fs, now: Fs, x: nat, pos: nat, f: nat, n: nat, ub: Block, drop: set<nat>)
    requires fs.bs > 0 && pos <= f && f + n <= pos + |ub| && WroteBut(fs, was, x, pos, f, ub, drop)
      && Boff(fs.bs, f) + n <= fs.bs
    requires var l := Lblk(fs.bs, f);
      PartWritten(was, now, x, l, Boff(fs.bs, f), if l in drop then [] else ub[f - pos..][..n])
    ensures WroteBut(fs, now, x, pos, f + n, ub, drop)
  {
    hide ByteIn, Mapped, Lblk, Boff, Offset;
    var l, boff := Lblk(fs.bs, f), Boff(fs.bs, f);
    var g := f + n;
    forall y: nat, m: nat, k: nat ensures WroteByte(fs, now, x, pos, g, ub, drop, y, m, k) {
      assert WroteByte(fs, was, x, pos, f, ub, drop, y, m, k);
      assert PartByte(was, now, x, l, boff, if l in drop then [] else ub[f - pos..][..n], y, m, k);
      if k < fs.bs { RangeStep(fs.bs, f, n, m, k); }
    }
  }

  lemma OutsideAfter(fs: Fs, was: Fs, now: Fs, x: nat, pos: nat, f: nat, n: nat, ub: Block, drop: set<nat>)
    requires fs.bs > 0 && pos <= f && f + n <= pos + |ub| && WroteBut(fs, was, x, pos, f, ub, drop)
    requires Boff(fs.bs, f) + n <= fs.bs && PartOutside(was, now, x, Lblk(fs.bs, f), Boff(fs.bs, f), n)
    ensures Outside(fs, now, x, pos, pos + |ub|)
  {
    hide ByteIn, Mapped, Lblk, Boff, Offset;
    var l, boff := Lblk(fs.bs, f), Boff(fs.bs, f);
    var end := pos + |ub|;
    forall y: nat, m: nat, k: nat ensures OutsideByte(fs, now, x, pos, end, y, m, k) {
      assert WroteByte(fs, was, x, pos, f, ub, drop, y, m, k);
      assert OtherByteKept(was, now, x, l, boff, n, y, m, k);
      if k < fs.bs { RangeStep(fs.bs, f, n, m, k); }
    }
  }

  lemma WroteOutside(fs: Fs, now: Fs, x: nat, pos: nat, f: nat, ub: Block, drop: set<nat>)
    requires f <= pos + |ub| && WroteBut(fs, now, x, pos, f, ub, drop)
    ensures Outside(fs, now, x, pos, pos + |ub|)
  {
    hide ByteIn, Mapped;
    var end := pos + |ub|;
    forall y: nat, m: nat, k: nat
      ensures OutsideByte(fs, now, x, pos, end, y, m, k)
    {
      assert WroteByte(fs, now, x, pos, f, ub, drop, y, m, k);
    }
  }

  lemma WroteThen(fs: Fs, was: Fs, now: Fs, x: nat, pos: nat, ub: Block, drop: set<nat>)
    requires WroteBut(fs, was, x, pos, pos + |ub|, ub, drop) && SameBytes(was, now)
    ensures WroteBut(fs, now, x, pos, pos + |ub|, ub, drop)
  {
    hide ByteIn, Mapped;
    var end := pos + |ub|;
    forall y: nat, m: nat, k: nat ensures WroteByte(fs, now, x, pos, end, ub, drop, y, m, k) {
      assert WroteByte(fs, was, x, pos, end, ub, drop, y, m, k);
      assert ByteKept(was, now, y, m);
    }
  }

  function Resize(fs: Fs, x: nat, size: nat): Fs
    requires x in fs.inodes
  {
    fs.(inodes := fs.inodes[x := fs.inodes[x].(size := size)])
  }

  lemma ResizeOk(fs: Fs, x: nat, size: nat)
    requires Sound(fs) && CountsShape(fs) && x in fs.inodes
    ensures var fs' := Resize(fs, x, size);
      Sound(fs') && SameBytes(fs, fs') && CountsShape(fs') && (Counted(fs) ==> Counted(fs'))
    ensures SameBytes(fs, fs)
  {
    var fs' := Resize(fs, x, size);
    InodeCounts(fs, fs');
    assert ShapeOk(fs');
    SameBits(fs, fs');
    hide ShapeOk, IsUsed, CountsShape, Counted;
    forall y, t ensures SlotKept(fs, fs', y, t) {}
    SameSound(fs, fs');
    hide Sound, At, DataSlot;
    forall y, l ensures ByteKept(fs, fs', y, l) {
      if Mapped(fs, y, l) { assert SlotKept(fs, fs', y, DataSlot(fs, l)); BytesKept(fs, fs', y, l); }
    }
  }

  lemma GrewPart(fs: Fs, fs': Fs, x: nat, l: nat, boff: nat, n: nat)
    requires Grew(fs, fs')
    ensures PartOutside(fs, fs', x, l, boff, n)
  {
    hide ByteIn, Mapped, Sound;
    forall y: nat, m: nat, k: nat
      ensures OtherByteKept(fs, fs', x, l, boff, n, y, m, k)
    {
      assert ByteKept(fs, fs', y, m);
    }
  }

  lemma PatchIs(was: Block, boff: nat, part: Block, data: Block)
    requires boff + |part| <= |was| && (data == Patch(was, boff, part)
      || (boff == 0 && |part| == |was| && data == part))
    ensures data == Patch(was, boff, part)
  {
    if boff == 0 && |part| == |was| { assert Patch(was, 0, part) == part; }
  }

  /** The block after the write, or after a part of it. */
  lemma NewBlock(fs: Fs, mid: Fs, fs': Fs, x: nat, l: nat, data: Block)
    requires Grew(fs, mid) && Mapped(mid, x, l) && |data| == mid.bs
    requires At(mid, x, DataSlot(mid, l)) != 0 && At(mid, x, DataSlot(mid, l)) < |mid.blocks|
    requires fs' == DataWrite(mid, At(mid, x, DataSlot(mid, l)), data)
    ensures Sound(fs') && SizesKept(fs, fs') && fs'.bs == fs.bs && Mapped(fs', x, l)
    ensures forall y, m :: y != x || m != l ==> ByteKept(fs, fs', y, m)
    ensures forall k :: 0 <= k < fs.bs ==> ByteIn(fs', x, l, k) == data[k] as int
    ensures |mid.blocks[At(mid, x, DataSlot(mid, l))]| == fs.bs
    ensures Mapped(fs, x, l) ==> forall k :: 0 <= k < fs.bs ==>
      ByteIn(fs, x, l, k) == mid.blocks[At(mid, x, DataSlot(mid, l))][k] as int
  {
    hide ShapeOk, RefsOk, Unshared, At, DataSlot, IsUsed;
    DataWriteOk(mid, x, l, data);
    SlotOf(mid, x, l);
    hide Sound;
    forall y, m | y != x || m != l ensures ByteKept(fs, fs', y, m) {
      assert ByteKept(fs, mid, y, m) && ByteKept(mid, fs', y, m);
    }
    assert ByteKept(fs, mid, x, l);
  }

  lemma PutPart(fs: Fs, mid: Fs, fs': Fs, x: nat, l: nat, boff: nat, part: Block, data: Block)
    requires Grew(fs, mid) && Mapped(mid, x, l) && boff + |part| <= mid.bs
    requires var b := At(mid, x, DataSlot(mid, l));
             b != 0 && b < |mid.blocks| && |mid.blocks[b]| == mid.bs && data == Patch(mid.blocks[b], boff, part)
                 && fs' == DataWrite(mid, b, data)
    ensures Sound(fs') && SizesKept(fs, fs') && PartWritten(fs, fs', x, l, boff, part)
  {
    hide Grew, At, DataSlot, Sound, ByteIn, Mapped, SizesKept;
    NewBlock(fs, mid, fs', x, l, data);
    forall y: nat, m: nat, k: nat ensures PartByte(fs, fs', x, l, boff, part, y, m, k) {
      if y != x || m != l { assert ByteKept(fs, fs', y, m); }
    }
  }

  lemma TornPart(fs: Fs, mid: Fs, fs': Fs, x: nat, l: nat, boff: nat, part: Block, data: Block)
    requires Grew(fs, mid) && Mapped(mid, x, l) && boff + |part| <= mid.bs
    requires var b := At(mid, x, DataSlot(mid, l));
             b != 0 && b < |mid.blocks| && |mid.blocks[b]| == mid.bs && data == Patch(mid.blocks[b], boff, part)
                 && TornWrite(mid, fs', b, data)
    ensures Sound(fs') && SizesKept(fs, fs') && PartOutside(fs, fs', x, l, boff, |part|)
      && fs' == mid.(blocks := fs'.blocks)
  {
    var b := At(mid, x, DataSlot(mid, l));
    hide Grew, At, DataSlot, Sound, ByteIn, Mapped, SizesKept;
    var j: nat :| Torn(mid, fs', b, data, j);
    var mixed := C.Mixed(mid.blocks[b], data, j);
    NewBlock(fs, mid, fs', x, l, mixed);
    forall y: nat, m: nat, k: nat ensures OtherByteKept(fs, fs', x, l, boff, |part|, y, m, k) {
      if y != x || m != l {
        assert ByteKept(fs, fs', y, m);
      } else if k < fs.bs && !(boff <= k < boff + |part|) {
        MixedKeeps(mid.blocks[b], boff, part, j, k);
      }
    }
  }

  lemma MixedKeeps(was: Block, boff: nat, part: Block, j: nat, k: nat)
    requires boff + |part| <= |was| && C.SECTOR * j <= |was| && k < |was| && !(boff <= k < boff + |part|)
    ensures C.Mixed(was, Patch(was, boff, part), j)[k] == was[k]
  {
  }

  // ----- bytes by offset -----

  function Available(size: nat, pos: nat, count: nat): nat {
    if pos >= size then 0 else if count < size - pos then count else size - pos
  }

  function Lblk(bs: nat, off: nat): nat
    requires bs > 0
  {
    off / bs
  }

  function Boff(bs: nat, off: nat): (k: nat)
    requires bs > 0
    ensures k < bs
  {
    off % bs
  }

  /** The driver keeps logical block numbers in 32 bits. */
  function Index(bs: nat, off: nat): nat
    requires bs > 0
  {
    Lblk(bs, off) % TWO32
  }

  /** Offsets below end have logical block numbers of 32 bits. */
  predicate InReach(bs: nat, end: nat) { end <= TWO32 * bs }

  lemma IndexIs(bs: nat, off: nat, end: nat)
    requires bs > 0 && off < end && InReach(bs, end)
    ensures Index(bs, off) == Lblk(bs, off)
  {
    var q := off / bs;
    assert off == bs * q + off % bs;
    if q >= TWO32 { MulMono(bs, TWO32, q); assert false; }
  }

  /** What reading byte k of logical block l shows. */
  function Seen(fs: Fs, x: nat, l: nat, k: nat, bad: set<nat>): int
    requires Mapped(fs, x, l)
  {
    if l >= NDIR && l in bad then 0 else ByteIn(fs, x, l, k)
  }

  predicate GoodByte(fs: Fs, x: nat, off: nat, v: int, bad: set<nat>) {
    fs.bs > 0 && Mapped(fs, x, Lblk(fs.bs, off)) && v == Seen(fs, x, Lblk(fs.bs, off), Boff(fs.bs, off), bad)
  }

  /** out is what the file holds from pos on, with the indirect blocks in bad shown as holes. */
  ghost predicate GoodBytes(fs: Fs, x: nat, pos: nat, out: Block, bad: set<nat>) {
    forall k :: 0 <= k < |out| ==> GoodByte(fs, x, pos + k, out[k] as int, bad)
  }

  lemma NoBytes(fs: Fs, x: nat, pos: nat, bad: set<nat>)
    ensures GoodBytes(fs, x, pos, [], bad)
  {
  }

  /** Bytes of logical block l from byte boff on, as a read shows them. */
  ghost predicate PartOf(fs: Fs, x: nat, l: nat, boff: nat, part: Block, bad: set<nat>) {
    && Mapped(fs, x, l) && boff + |part| <= fs.bs
    && forall k :: 0 <= k < |part| ==> part[k] as int == Seen(fs, x, l, boff + k, bad)
  }

  /** Offsets that stay within one block. */
  lemma InBlock(bs: nat, f: nat, k: nat)
    requires bs > 0 && Boff(bs, f) + k < bs
    ensures Lblk(bs, f + k) == Lblk(bs, f) && Boff(bs, f + k) == Boff(bs, f) + k
  {
    var q, r := f / bs, f % bs;
    assert f + k == bs * q + (r + k);
    Quotient(f + k, bs, q, r + k);
  }

  lemma Quotient(a: nat, bs: nat, q: nat, r: nat)
    requires bs > 0 && r < bs && a == bs * q + r
    ensures a / bs == q && a % bs == r
  {
    var p := a / bs;
    assert a == bs * p + a % bs;
    if p < q { MulMono(bs, p + 1, q); assert false; }
    if p > q { MulMono(bs, q + 1, p); assert false; }
  }

  lemma MoreBytes(fs: Fs, x: nat, pos: nat, out: Block, part: Block, bad: set<nat>, n: nat)
    requires fs.bs > 0 && |out| < n && |out| + |part| <= n && InReach(fs.bs, pos + n) && GoodBytes(fs, x, pos, out, bad)
    requires PartOf(fs, x, Index(fs.bs, pos + |out|), Boff(fs.bs, pos + |out|), part, bad)
    ensures GoodBytes(fs, x, pos, out + part, bad)
  {
    hide ByteIn, Mapped, Index, Lblk, Boff, InReach;
    var f := pos + |out|;
    IndexIs(fs.bs, f, pos + n);
    forall k | 0 <= k < |out + part| ensures GoodByte(fs, x, pos + k, (out + part)[k] as int, bad) {
      if k < |out| { assert GoodByte(fs, x, pos + k, out[k] as int, bad); } else { InBlock(fs.bs, f, k - |out|); }
    }
  }

  lemma AtDirect(fs: Fs, x: nat, l: nat)
    requires ShapeOk(fs) && x in fs.inodes && l < NDIR
    ensures Mapped(fs, x, l) && At(fs, x, DataSlot(fs, l)) == fs.inodes[x].iblock[l]
  {
  }

  lemma AtLeaf1(fs: Fs, x: nat, l: nat)
    requires ShapeOk(fs) && x in fs.inodes && NDIR <= l < NDIR + Ptrs(fs)
    ensures Mapped(fs, x, l) && At(fs, x, DataSlot(fs, l)) == Entry(fs, fs.inodes[x].iblock[IND], l - NDIR)
  {
  }

  lemma AtLeaf2(fs: Fs, x: nat, l: nat)
    requires ShapeOk(fs) && x in fs.inodes && InDouble(fs, l)
    ensures Mapped(fs, x, l) && At(fs, x, DataSlot(fs, l))
      == Entry(fs, Entry(fs, fs.inodes[x].iblock[DIND], Row(fs, l)), Col(fs, l))
  {
    hide Entry, Row, Col;
  }

  lemma MadeDirect(fs: Fs, fs': Fs, x: nat, l: nat)
    requires Grew(fs, fs') && x in fs.inodes && l < NDIR
    ensures fs'.bs == fs.bs && Mapped(fs', x, l) && DataSlot(fs', l) == SlotAt(l)
  {
    SoundInode(fs', x);
    hide Sound, SameBytes;
  }

  lemma MadeLeaf1(fs: Fs, fs': Fs, x: nat, l: nat)
    requires Grew(fs, fs') && x in fs.inodes && NDIR <= l < NDIR + Ptrs(fs)
    ensures fs'.bs == fs.bs && Mapped(fs', x, l) && DataSlot(fs', l) == Leaf1(l - NDIR)
  {
    SoundInode(fs', x);
    hide Sound, SameBytes;
  }

  lemma MadeLeaf2(fs: Fs, fs': Fs, x: nat, l: nat)
    requires Grew(fs, fs') && x in fs.inodes && InDouble(fs, l)
    ensures fs'.bs == fs.bs && Mapped(fs', x, l) && DataSlot(fs', l) == Leaf2(Row(fs, l), Col(fs, l))
  {
    SoundInode(fs', x);
    hide Sound, SameBytes;
  }

  /** A torn write of a block that differs in one entry leaves the old block or the new one. */
  lemma TornEntry(fs: Fs, fs': Fs, b: nat, i: nat, v: nat)
    requires b < |fs.blocks| && 4 * i + 4 <= |fs.blocks[b]| && v < TWO32
    requires TornWrite(fs, fs', b, Patch(fs.blocks[b], 4 * i, Bytes32(v)))
    ensures fs' == fs || fs' == LinkEntry(fs, b, i, v)
  {
    var data := Patch(fs.blocks[b], 4 * i, Bytes32(v));
    var k: nat :| Torn(fs, fs', b, data, k);
    if C.SECTOR * k <= 4 * i {
      assert C.Mixed(fs.blocks[b], data, k) == fs.blocks[b];
      assert fs'.blocks == fs.blocks;
    } else {
      assert C.SECTOR * k >= 4 * i + 4;
      assert C.Mixed(fs.blocks[b], data, k) == data;
    }
  }

  lemma SoundInode(fs: Fs, x: nat)
    requires Sound(fs) && x in fs.inodes
    ensures |fs.inodes[x].iblock| == 15 && ShapeOk(fs) && forall s :: SlotOk(fs, s) ==> HasSlot(fs, x, s)
  {
  }

  lemma SoundOfGrew(fs: Fs, fs': Fs)
    requires Grew(fs, fs')
    ensures Sound(fs') && ShapeOk(fs')
  {
  }

  lemma InodeCounts(fs: Fs, fs': Fs)
    requires CountsShape(fs) && fs' == fs.(inodes := fs'.inodes)
    ensures CountsShape(fs') && (Counted(fs) ==> Counted(fs'))
  {
    ShapeKept(fs, fs');
    if Counted(fs) {
      forall g | 0 <= g < |fs'.free| ensures GroupCounted(fs', g) { assert GroupOk(fs, g) && GroupCounted(fs, g); }
    }
  }

  lemma SamePointer(fs: Fs, fs': Fs, x: nat, ps: Slot, i: nat)
    requires Sound(fs) && Quiet(fs, fs') && HasSlot(fs, x, ps) && IsPointer(ps) && At(fs, x, ps) != 0 && i < Ptrs(fs)
    ensures HasSlot(fs', x, ps) && At(fs', x, ps) == At(fs, x, ps)
      && Entry(fs', At(fs, x, ps), i) == Entry(fs, At(fs, x, ps), i)
    ensures i < Ptrs(fs')
  {
    QuietSound(fs, fs');
    assert SlotKept(fs, fs', x, ps);
    assert RefOk(fs, x, ps);
    hide Sound, Quiet, At, SameBytes;
    QuietEntry(fs, fs', At(fs, x, ps), i);
  }

  lemma LinkedSizes(fs: Fs, p: nat, i: nat, b: nat)
    requires p < |fs.blocks| && 4 * i + 4 <= |fs.blocks[p]| && b < TWO32
    ensures var fs' := LinkEntry(fs, p, i, b);
            SizesKept(fs, fs') && |fs'.blocks| == |fs.blocks| && fs' == fs.(blocks := fs'.blocks)
                && fs'.inodes == fs.inodes
  {
  }

  // ----- bits -----

  predicate SetBelow(bits: seq<bool>, n: nat) { forall k :: 0 <= k < |bits| && k < n ==> bits[k] }

  lemma UsedBelow(fs: Fs, k: nat)
    requires ShapeOk(fs) && k < |fs.bits| && SetBelow(fs.bits, k)
    ensures forall c :: fs.first <= c < fs.first + k ==> IsUsed(fs, c)
  {
  }

  predicate Flippable(fs: Fs, k: nat) { fs.per > 0 && k < |fs.bits| && k / fs.per < |fs.free| }

  /** Block b was free and is now allocated and counted. */
  ghost predicate Taken(fs: Fs, fs': Fs, b: nat) {
    fs.first <= b < |fs.blocks| && !IsUsed(fs, b) && Flippable(fs, b - fs.first) && fs' == Flip(fs, b - fs.first, true)
  }

  /** Bit k has become v or not, and the count has followed or not. */
  ghost predicate HalfFlip(fs: Fs, fs': Fs, k: nat, v: bool) {
    && Flippable(fs, k) && fs' == fs.(bits := fs'.bits, free := fs'.free)
    && (fs'.bits == fs.bits || fs'.bits == fs.bits[k := v]) && (fs'.free == fs.free || fs'.free == Flip(fs, k, v).free)
  }

  lemma QuietSame(fs: Fs)
    requires Sound(fs)
    ensures Quiet(fs, fs) && ShapeOk(fs)
  {
  }

  lemma ShapeKept(fs: Fs, fs': Fs)
    requires CountsShape(fs) && fs'.per == fs.per && |fs'.bits| == |fs.bits| && |fs'.free| == |fs.free|
    ensures CountsShape(fs')
  {
    forall g | 0 <= g < |fs'.free| ensures GroupOk(fs', g) { assert GroupOk(fs, g); }
  }

  lemma HalfQuiet(fs: Fs, fs': Fs, clean: bool)
    requires fs' == fs || exists k :: HalfFlip(fs, fs', k, true)
    requires CountsShape(fs) && ShapeOk(fs)
    ensures fs'.inodes == fs.inodes && (clean ==> Quiet(fs, fs'))
  {
    if k :| HalfFlip(fs, fs', k, true) { ShapeKept(fs, fs'); }
  }

  lemma TakenQuiet(fs: Fs, fs': Fs, b: nat)
    requires Sound(fs) && CountsShape(fs) && Taken(fs, fs', b)
    ensures Quiet(fs, fs') && CountsShape(fs') && ShapeOk(fs') && IsUsed(fs', b) && fs'.first <= b < |fs'.blocks|
    ensures Counted(fs) ==> Counted(fs')
  {
    hide RefsOk, Unshared, GroupCounted;
    ShapeKept(fs, fs');
    if Counted(fs) { FlipCounted(fs, b - fs.first, true); }
  }

  /** After the attempt to zero the new block. */
  lemma WrittenQuiet(fs: Fs, mid: Fs, fs': Fs, b: nat, ok: bool)
    requires Sound(fs) && Taken(fs, mid, b) && Quiet(fs, mid) && CountsShape(mid) && ShapeOk(mid)
    requires ok ==> fs' == mid.(blocks := mid.blocks[b := Zero(mid.bs)])
    requires !ok ==> fs' == mid || TornWrite(mid, fs', b, Zero(mid.bs))
    ensures Quiet(fs, fs') && CountsShape(fs') && ShapeOk(fs') && fs'.first == fs.first && fs'.bits == mid.bits
      && b < |fs'.blocks|
    ensures ok ==> Linkable(fs', b) && (Counted(mid) ==> Counted(fs'))
  {
    UnusedNoRef(fs, b);
    hide RefsOk, Unshared, CountsShape, Counted;
    assert |fs'.blocks| == |fs.blocks| && fs'.blocks[b] == fs'.blocks[b];
    assert forall c :: 0 <= c < |fs.blocks| && c != b ==> fs'.blocks[c] == fs.blocks[c];
    assert ShapeOk(fs');
    SameCounts(mid, fs');
    assert Quiet(fs, fs');
    if ok { LinkableNow(fs, fs', b); }
  }

  lemma SameCounts(fs: Fs, fs': Fs)
    requires CountsShape(fs) && fs' == fs.(blocks := fs'.blocks)
    ensures CountsShape(fs') && (Counted(fs) ==> Counted(fs'))
  {
    ShapeKept(fs, fs');
    if Counted(fs) {
      forall g | 0 <= g < |fs'.free| ensures GroupCounted(fs', g) { assert GroupOk(fs, g) && GroupCounted(fs, g); }
    }
  }

  lemma LinkableNow(fs: Fs, fs': Fs, b: nat)
    requires Sound(fs) && Quiet(fs, fs') && b != 0 && NoRef(fs, b) && IsUsed(fs', b) && fs'.first <= b
      && Zeros(fs'.blocks[b])
    ensures Linkable(fs', b)
  {
    QuietSound(fs, fs');
    hide Sound, At, SameBytes, Quiet;
    forall x, s | HasSlot(fs', x, s) ensures At(fs', x, s) != b { assert SlotKept(fs, fs', x, s); }
  }

  lemma FreedQuiet(fs: Fs, torn: Fs, fs': Fs, b: nat)
    requires Sound(fs) && Quiet(fs, torn) && CountsShape(torn) && !IsUsed(fs, b)
      && torn.first == fs.first <= b < |fs.blocks|
    requires fs' == torn || HalfFlip(torn, fs', b - fs.first, false)
    ensures Quiet(fs, fs') && CountsShape(fs')
  {
    hide RefsOk, Unshared;
    ShapeKept(torn, fs');
    hide CountsShape;
    assert ShapeOk(fs');
    forall c ensures BlockKept(fs, fs', c) { assert BlockKept(fs, torn, c); }
  }

  ghost predicate TornWrite(fs: Fs, fs': Fs, b: nat, data: Block) { exists k: nat :: Torn(fs, fs', b, data, k) }

  lemma TornAfter(fs: Fs, fs': Fs, b: nat, data: Block, k: nat)
    requires Torn(fs, fs', b, data, k)
    ensures TornWrite(fs, fs', b, data)
  {
  }

  /** The write of data to b stopped after k sectors. */
  ghost predicate Torn(fs: Fs, fs': Fs, b: nat, data: Block, k: nat) {
    && b < |fs.blocks| && |fs.blocks[b]| == |data| && C.SECTOR * k <= |data|
    && fs' == fs.(blocks := fs.blocks[b := C.Mixed(fs.blocks[b], data, k)])
  }

  // ----- when a read is the file -----

  /** The bytes of x from pos on, as they are. */
  ghost predicate TrueBytes(fs: Fs, x: nat, pos: nat, out: Block) { GoodBytes(fs, x, pos, out, {}) }

  /** Byte k of the range is not zero and lies behind a pointer block that cannot be read. */
  predicate LostByte(fs: Fs, x: nat, pos: nat, k: nat, bad: set<nat>) {
    && fs.bs > 0 && Mapped(fs, x, Lblk(fs.bs, pos + k)) && NDIR <= Lblk(fs.bs, pos + k) && Lblk(fs.bs, pos + k) in bad
    && ByteIn(fs, x, Lblk(fs.bs, pos + k), Boff(fs.bs, pos + k)) != 0
  }

  /** A read shows the file's bytes exactly when no nonzero byte of the range lies behind a pointer
      block that cannot be read. */
  lemma ReadTrueIff(fs: Fs, x: nat, pos: nat, out: Block, bad: set<nat>)
    requires GoodBytes(fs, x, pos, out, bad)
    ensures TrueBytes(fs, x, pos, out) <==> forall k :: 0 <= k < |out| ==> !LostByte(fs, x, pos, k, bad)
  {
    hide ByteIn, Lblk, Boff, Mapped;
    forall k | 0 <= k < |out| ensures GoodByte(fs, x, pos + k, out[k] as int, {}) <==> !LostByte(fs, x, pos, k, bad) {
      assert GoodByte(fs, x, pos + k, out[k] as int, bad);
    }
    if TrueBytes(fs, x, pos, out) {
      forall k | 0 <= k < |out|
        ensures !LostByte(fs, x, pos, k, bad)
      {
        assert GoodByte(fs, x, pos + k, out[k] as int, {});
      }
    }
  }

  /** A file of thirteen blocks whose last block, behind the indirect block 1, holds ones. */
  function Thirteen(): Fs {
    var ones: Block := seq(512, _ => 1);
    Fs(512, [Zero(512), Patch(Zero(512), 0, Bytes32(2)), ones], 1, 8, [true, true], [0],
       map[1 := Inode(13 * 512, seq(15, i => if i == IND then 1 else 0))])
  }

  /** Its bytes are ones from offset 6144 on, and a read that loses the indirect block shows 0. */
  lemma LostIsWrong()
    ensures var fs := Thirteen();
            Mapped(fs, 1, 12) && ByteIn(fs, 1, 12, 0) == 1 && GoodByte(fs, 1, 6144, 0, {12})
                && !GoodByte(fs, 1, 6144, 0, {})
  {
    var fs := Thirteen();
    Read32(Zero(512), 0, 2);
    assert fs.inodes[1].iblock[IND] == 1;
    assert DataSlot(fs, 12) == Leaf1(0);
    assert Entry(fs, 1, 0) == 2;
    assert At(fs, 1, Leaf1(0)) == 2;
  }

  // ----- what dropped writes do -----

  /** A first block whose write is dropped: success is reported, nothing changes, and the bytes are
      not there unless they were before. */
  lemma DroppedBlock(fs: Fs, x: nat, ub: Block)
    requires fs.bs > 0 && |ub| == fs.bs && Mapped(fs, x, 0)
    ensures WroteBut(fs, fs, x, 0, |ub|, ub, {0})
    ensures ByteIn(fs, x, 0, 0) != ub[0] as int ==> !Wrote(fs, fs, x, 0, ub)
  {
    hide ByteIn, Mapped;
    forall y: nat, m: nat, k: nat ensures WroteByte(fs, fs, x, 0, |ub|, ub, {0}, y, m, k) {
      if m > 0 { MulMono(fs.bs, 1, m); }
    }
    WriteTrueIff(fs, fs, x, 0, ub, {0});
    if ByteIn(fs, x, 0, 0) != ub[0] as int { assert DroppedByte(fs, x, 0, ub, {0}, 0, 0); }
  }

  /** A block of ones written over a hole: the write reports success and is lost. */
  lemma DroppedDataExample()
    ensures var fs, ones := Thirteen(), seq(512, _ => 1);
      WroteBut(fs, fs, 1, 0, 512, ones, {0}) && !Wrote(fs, fs, 1, 0, ones)
  {
    var fs := Thirteen();
    var ones: Block := seq(512, _ => 1);
    assert At(fs, 1, DataSlot(fs, 0)) == 0 && ByteIn(fs, 1, 0, 0) == 0;
    hide Thirteen, ByteIn, WroteBut, Wrote;
    DroppedBlock(fs, 1, ones);
  }

  /** b is the lowest free block. */
  predicate Lowest(fs: Fs, b: nat) {
    fs.first <= b < |fs.blocks| && !IsUsed(fs, b) && forall c :: fs.first <= c < b ==> IsUsed(fs, c)
  }

  /** When the bitmap write of an allocation is dropped, the next allocation hands out the same
      block. */
  lemma DroppedBitSharesBlock(fs: Fs, fs': Fs, b: nat, c: nat)
    requires Lowest(fs, b) && HalfFlip(fs, fs', b - fs.first, true) && fs'.bits == fs.bits && Lowest(fs', c)
    ensures c == b
  {
    assert IsUsed(fs', b) == IsUsed(fs, b) && IsUsed(fs', c) == IsUsed(fs, c);
  }
}
