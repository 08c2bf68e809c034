/** Walking, mapping, unmapping and copying over Sv39 page tables. Every operation is an exact
    change of the partial map from virtual page numbers to entries. */
module Sv39Vm {
  import opened Prelude
  import opened Sv39Tree

  const PAGE: nat := 4096
  const MAX_VPN: nat := 0x400_0000
  const MAX_VA: nat := 0x40_0000_0000
  const LIMIT: nat := 0x800_0000

  // ----- virtual page numbers -----

  /** The nine bits of a page number that index a table of the given level. */
  function Ix(level: nat, v: nat): (i: nat)
    ensures i < ENTRIES
  {
    (if level == 0 then v else if level == 1 then v / 512 else v / 0x4_0000) % 512
  }

  lemma IxInjective(v: nat, w: nat)
    requires v < LIMIT && w < LIMIT && Ix(2, v) == Ix(2, w) && Ix(1, v) == Ix(1, w) && Ix(0, v) == Ix(0, w)
    ensures v == w
  {
    Digits(v);
    Digits(w);
  }

  lemma Digits(v: nat)
    requires v < LIMIT
    ensures v == Ix(2, v) * 0x4_0000 + Ix(1, v) * 512 + Ix(0, v)
  {
    assert v / 512 / 512 == v / 0x4_0000;
  }

  /** The entry of page v in the tree below r. */
  function PteAt(m: Mem, r: nat, v: nat): nat { Leaf(m, r, Ix(2, v), Ix(1, v), Ix(0, v)) }

  /** The translation of page v. */
  function Trans(m: Mem, r: nat, v: nat): Option<nat> { if Valid(PteAt(m, r, v)) then Some(PteAt(m, r, v)) else None }

  /** The tables on the way to page v: level 2 is the top, level 0 holds the leaf entry. */
  function Path(v: nat, level: nat): (n: Node)
    ensures NodeOk(n)
  {
    if level >= 2 then Top else if level == 1 then Mid(Ix(2, v)) else Low(Ix(2, v), Ix(1, v))
  }

  function MakePte(ppn: nat, perm: nat): nat { ppn * 1024 + if perm % 2 == 1 then perm else perm + 1 }

  lemma MakePteIs(ppn: nat, perm: nat)
    requires perm < 1024
    ensures var e := MakePte(ppn, perm);
      Valid(e) && Ppn(e) == ppn && Flags(e) == if perm % 2 == 1 then perm else perm + 1
  {
  }

  predicate PteKept(m: Mem, m': Mem, q: nat, v: nat) { PteAt(m', q, v) == PteAt(m, q, v) }

  /** Page v of r has entry e; every other entry of every tree is as before. */
  ghost predicate OnePte(m: Mem, m': Mem, r: nat, v: nat, e: nat) {
    && m'.roots == m.roots && PteAt(m', r, v) == e
    && forall q: nat, w: nat :: q in m.roots && w < LIMIT && (q != r || w != v) ==> PteKept(m, m', q, w)
  }

  ghost predicate SamePtes(m: Mem, m': Mem) {
    m'.roots == m.roots && forall q: nat, w: nat :: q in m.roots && w < LIMIT ==> PteKept(m, m', q, w)
  }

  lemma LeavesPtes(m: Mem, m': Mem)
    requires SameLeaves(m, m')
    ensures SamePtes(m, m')
  {
    hide Leaf, Ix;
    forall q: nat, w: nat | q in m.roots && w < LIMIT
      ensures PteKept(m, m', q, w)
    {
      assert LeafKept(m, m', q, Ix(2, w), Ix(1, w), Ix(0, w));
    }
  }

  lemma LeafPte(m: Mem, m': Mem, r: nat, v: nat, e: nat)
    requires r in m.roots && v < LIMIT && OneLeaf(m, m', r, Ix(2, v), Ix(1, v), Ix(0, v), e)
    ensures OnePte(m, m', r, v, e)
  {
    hide Leaf, Ix;
    forall q: nat, w: nat | q in m.roots && w < LIMIT && (q != r || w != v) ensures PteKept(m, m', q, w) {
      if q == r && Ix(2, w) == Ix(2, v) && Ix(1, w) == Ix(1, v) && Ix(0, w) == Ix(0, v) { IxInjective(v, w); }
    }
  }

  class Vm {
    var m: Mem

    /** A free frame, other than frame 0. */
    method AllocFrame() returns (r: Option<nat>)
      ensures r.Some? ==> r.value != 0 && r.value !in m.tables && r.value !in m.pages
    {
      var f: nat := *;
      if f == 0 || f in m.tables || f in m.pages { return None; }
      r := Some(f);
    }

    /** The table that holds the leaf entry of va; with create, missing tables are made. */
    method Walk(root: nat, va: nat, create: bool) returns (r: Option<nat>)
      requires Sound(m) && root in m.roots
      modifies this
      ensures Sound(m) && SameLeaves(old(m), m) && m.pages.Keys == old(m).pages.Keys && m.pages == old(m).pages
      ensures old(m).tables.Keys <= m.tables.Keys
      ensures r.Some? ==> va <= MAX_VA && Frame(m, root, Path(va / PAGE, 0)) == Some(r.value)
      ensures !create ==> m == old(m) && (r.None? ==> va > MAX_VA || Frame(m, root, Path(va / PAGE, 0)).None?)
    {
      hide Sound, SameLeaves, Frame, Ix;
      LeavesSame(m);
      if va > MAX_VA { return None; }
      var v, pt, level := va / PAGE, root, 2;
      TopIs(m, root);
      while level > 0
        invariant 0 <= level <= 2 && Sound(m) && SameLeaves(old(m), m) && m.roots == old(m).roots
          && m.pages == old(m).pages
        invariant old(m).tables.Keys <= m.tables.Keys && (!create ==> m == old(m))
        invariant 0 <= pt && Frame(m, root, Path(v, level)) == Some(pt)
      {
        var idx := Ix(level, v);
        NodeTable(m, root, v, level, pt);
        var e := m.tables[pt][idx];
        if Valid(e) {
          pt := Ppn(e);
        } else {
          NoPath(m, root, v, level);
          if !create { return None; }
          var f := AllocFrame();
          if f.None? { return None; }
          Grow(old(m), m, root, v, level, pt, f.value);
          m := SetEntry(NewTable(m, f.value), pt, idx, f.value * 1024 + 1);
          pt := f.value;
        }
        level := level - 1;
      }
      r := Some(pt);
    }

    /** The physical address of va, or nothing: va2pa. */
    method Va2Pa(root: nat, va: nat) returns (r: Option<nat>)
      requires Sound(m) && root in m.roots
      ensures r == match Trans(m, root, va / PAGE) case None => None case Some(e) => Some(Ppn(e) * PAGE + va % PAGE)
    {
      hide Sound, Frame, Ix;
      var v, pt, level := va / PAGE, root, 2;
      TopIs(m, root);
      while level > 0
        invariant 0 <= level <= 2 && 0 <= pt && Frame(m, root, Path(v, level)) == Some(pt)
      {
        NodeTable(m, root, v, level, pt);
        var e := m.tables[pt][Ix(level, v)];
        if !Valid(e) {
          NoPath(m, root, v, level);
          NoTable(m, root, v);
          return None;
        }
        pt, level := Ppn(e), level - 1;
      }
      NodeTable(m, root, v, 0, pt);
      LeafIn(m, root, v, pt);
      var e := m.tables[pt][Ix(0, v)];
      r := if Valid(e) then Some(Ppn(e) * PAGE + va % PAGE) else None;
    }

    /** Sets the entry of page v, whose table is pt. */
    method SetPte(root: nat, v: nat, pt: nat, e: nat)
      requires Sound(m) && root in m.roots && v < LIMIT && Frame(m, root, Path(v, 0)) == Some(pt)
      modifies this
      ensures Sound(m) && OnePte(old(m), m, root, v, e) && m.pages == old(m).pages
        && m.tables.Keys == old(m).tables.Keys && m.roots == old(m).roots
    {
      hide Sound, Frame, Ix, Leaf, OneLeaf, OnePte;
      LeafOk(m, root, Ix(2, v), Ix(1, v), Ix(0, v), pt, e);
      m := SetEntry(m, pt, Ix(0, v), e);
      LeafPte(old(m), m, root, v, e);
    }

    /** mappages: on success exactly the n pages from va on are new, with consecutive frames from
        pa on; when tables run out a prefix of them is. Misuse and remapping halt the kernel. */
    method MapPages(root: nat, va: nat, size: nat, pa: nat, perm: nat) returns (r: MapResult)
      requires Sound(m) && root in m.roots && perm < 1024
      modifies this
      ensures Sound(m) && m.pages == old(m).pages && old(m).tables.Keys <= m.tables.Keys
      ensures r.done <= size / PAGE && (r.Mapped? ==> r.done == size / PAGE > 0)
      ensures MappedTo(old(m), m, root, va / PAGE, r.done, pa / PAGE, perm)
      ensures Vacant(old(m), root, va / PAGE, r.done)
      ensures va % PAGE != 0 || size % PAGE != 0 || size == 0 <==> r.Misuse?
      ensures r.NoMemory? || r.Remap? ==> r.done < size / PAGE
      ensures r.Remap? ==> Valid(PteAt(old(m), root, va / PAGE + r.done))
      ensures r.Mapped? ==> va / PAGE + r.done - 1 <= MAX_VPN
    {
      hide Sound, SameLeaves, MappedTo, PteAt, Frame, OnePte;
      MappedNone(m, root, va / PAGE, pa / PAGE, perm);
      if va % PAGE != 0 || size % PAGE != 0 || size == 0 { return Misuse(0); }
      var v, n, done := va / PAGE, size / PAGE, 0;
      while true
        invariant 0 <= done < n && Sound(m) && m.roots == old(m).roots && m.pages == old(m).pages
          && old(m).tables.Keys <= m.tables.Keys
        invariant MappedTo(old(m), m, root, v, done, pa / PAGE, perm) && Vacant(old(m), root, v, done)
        decreases n - done
      {
        ghost var was := m;
        PageOf(v + done);
        var pt := Walk(root, (v + done) * PAGE, true);
        LeavesPtes(was, m);
        MappedSame(old(m), was, m, root, v, done, pa / PAGE, perm);
        if pt.None? { return NoMemory(done); }
        ghost var mid := m;
        NodeTable(m, root, v + done, 0, pt.value);
        LeafIn(m, root, v + done, pt.value);
        NotYetMapped(old(m), m, root, v, done, pa / PAGE, perm);
        if Valid(m.tables[pt.value][Ix(0, v + done)]) { return Remap(done); }
        SetPte(root, v + done, pt.value, MakePte(pa / PAGE + done, perm));
        MappedMore(old(m), mid, m, root, v, done, pa / PAGE, perm);
        done := done + 1;
        if done == n { return Mapped(done); }
      }
    }

    /** pg_unmap: exactly the translations of the n pages from va on go; with do_free so do
        their frames. */
    method Unmap(root: nat, va: nat, n: nat, doFree: bool) returns (r: bool)
      requires Sound(m) && root in m.roots
      modifies this
      ensures Sound(m) && m.tables.Keys == old(m).tables.Keys && r == (va % PAGE == 0)
      ensures !r ==> m == old(m)
      ensures r ==> UnmappedTo(old(m), m, root, va / PAGE, n)
      ensures m.pages == if r && doFree then Released(old(m), root, va / PAGE, n) else old(m).pages
    {
      hide Sound, SameLeaves, UnmappedTo, PteAt, Frame, OnePte, Released;
      if va % PAGE != 0 { return false; }
      var v, k := va / PAGE, 0;
      UnmappedNone(m, root, v);
      while k < n
        invariant 0 <= k <= n && Sound(m) && m.roots == old(m).roots && m.tables.Keys == old(m).tables.Keys
        invariant UnmappedTo(old(m), m, root, v, k)
        invariant m.pages == if doFree then Released(old(m), root, v, k) else old(m).pages
      {
        PageOf(v + k);
        var pt := Walk(root, (v + k) * PAGE, false);
        if pt.None? {
          if v + k <= MAX_VPN { NoTable(m, root, v + k); }
          UnmappedSkip(old(m), m, root, v, k);
        } else {
          NodeTable(m, root, v + k, 0, pt.value);
          LeafIn(m, root, v + k, pt.value);
          var e := m.tables[pt.value][Ix(0, v + k)];
          if !Valid(e) {
            UnmappedSkip(old(m), m, root, v, k);
          } else {
            ghost var was := m;
            StillMapped(old(m), m, root, v, k);
            if doFree { m := FreePage(m, Ppn(e)); }
            FreeApart(was);
            PagesOk(was, m);
            SetPte(root, v + k, pt.value, 0);
            UnmappedMore(old(m), was, m, root, v, k);
          }
        }
        k := k + 1;
      }
      r := true;
    }

    /** vm_pagetbl_copy_asign: the mapped pages of src among the n from start on get private copies
        in dst. When memory runs out at page k, the pages before it keep their copies (mid) and
        page k of dst is unmapped and freed. */
    method Copy(src: nat, dst: nat, start: nat, sz: nat) returns (r: CopyResult, ghost mid: Mem)
      requires Sound(m) && src in m.roots && dst in m.roots
      modifies this
      ensures r.Copied? ==> Sound(m) && CopiedTo(old(m), m, src, dst, start % PAGE, start / PAGE, Pages(sz))
      ensures r.Copied? && start % PAGE != 0 ==> m == old(m)
      ensures r.OutOfMemory? ==>
        Sound(m) && r.at < Pages(sz) && CopiedTo(old(m), mid, src, dst, start % PAGE, start / PAGE, r.at)
      ensures r.OutOfMemory? ==>
        UnmappedTo(mid, m, dst, start / PAGE + r.at, 1) && m.pages == Released(mid, dst, start / PAGE + r.at, 1)
      ensures r.Halted? ==> start % PAGE != 0 || Valid(PteAt(old(m), dst, start / PAGE + r.at))
    {
      hide Sound, CopiedTo, PteAt, Frame, OnePte, UnmappedTo, Released, MappedTo, MakePte;
      var v, off, k := start / PAGE, start % PAGE, 0;
      ghost var m0 := m;
      mid := m;
      CopiedNone(m, src, dst, off, v);
      while k < Pages(sz)
        invariant 0 <= k <= Pages(sz) && Sound(m) && m.roots == m0.roots && CopiedTo(m0, m, src, dst, off, v, k)
        invariant start % PAGE != 0 ==> m == m0
      {
        AddressOf(start, k);
        var pt := Walk(src, start + k * PAGE, false);
        var e := 0;
        if pt.Some? {
          NodeTable(m, src, v + k, 0, pt.value);
          LeafIn(m, src, v + k, pt.value);
          e := m.tables[pt.value][Ix(0, v + k)];
        } else if start + k * PAGE <= MAX_VA {
          NoTable(m, src, v + k);
        }
        if !Valid(e) || Ppn(e) == 0 {
          CopySkip(m0, m, src, dst, off, v, k);
        } else {
          var f := AllocFrame();
          mid := m;
          if f.Some? {
            r := CopyPage(dst, start + k * PAGE, f.value, e, k);
            if r.Halted? { CopyTarget(m0, mid, src, dst, off, v, k); return; }
            if r.Copied? { CopyMore(m0, mid, m, src, dst, off, v, k, f.value, e); }
            if r.OutOfMemory? { CopySame(m0, mid, m, src, dst, off, v, k); }
          } else {
            r := OutOfMemory(k);
          }
          if r.OutOfMemory? {
            mid := m;
            var ok := Unmap(dst, start + k * PAGE, 1, true);
            if !ok { r := Halted(k); }
            return;
          }
        }
        k := k + 1;
      }
      r := Copied;
    }

    /** One page: fill the new frame f from the page that e maps, and map it into dst. */
    method CopyPage(dst: nat, va: nat, f: nat, e: nat, k: nat) returns (r: CopyResult)
      requires Sound(m) && dst in m.roots && f !in m.tables && f !in m.pages
      modifies this
      ensures r.Copied? ==> Sound(m) && CopyStep(old(m), m, dst, va / PAGE, f, e) && va % PAGE == 0
      ensures r.OutOfMemory? ==>
        Sound(m) && SamePtes(old(m), m) && m.pages == old(m).pages && old(m).tables.Keys <= m.tables.Keys
      ensures r.Copied? || r.at == k
      ensures r.Halted? ==> va % PAGE != 0 || Valid(PteAt(old(m), dst, va / PAGE))
    {
      hide Sound, PteAt, Frame, OnePte, MappedTo, MakePte;
      var chunk: Page := *;
      if Ppn(e) in m.pages { chunk := m.pages[Ppn(e)]; }
      m := AddPage(m, f, chunk);
      FreeApart(old(m));
      PagesOk(old(m), m);
      var was := m;
      PageSize(f);
      var res := MapPages(dst, va, PAGE, f * PAGE, Flags(e));
      match res
      case Mapped(_) =>
        MappedOne(was, m, dst, va / PAGE, f, Flags(e));
        OnePteFrom(old(m), was, m, dst, va / PAGE, MakePte(f, Flags(e)));
        r := Copied;
      case NoMemory(_) =>
        MappedZero(was, m, dst, va / PAGE, f, Flags(e));
        ghost var full := m;
        m := FreePage(m, f);
        FreeApart(full);
        PagesOk(full, m);
        SameVia(old(m), was, full, m);
        r := OutOfMemory(k);
      case _ => r := Halted(k);
    }
  }

  datatype CopyResult = Copied | OutOfMemory(at: nat) | Halted(at: nat)

  function Pages(sz: nat): nat { (sz + PAGE - 1) / PAGE }

  lemma PageSize(f: nat)
    ensures PAGE / PAGE == 1 && f * PAGE / PAGE == f && PAGE % PAGE == 0
  {
  }

  lemma AddressOf(start: nat, k: nat)
    ensures var va := start + k * PAGE;
            va / PAGE == start / PAGE + k && va % PAGE == start % PAGE && va == (start / PAGE + k) * PAGE + start % PAGE
  {
  }

  function AddPage(m: Mem, f: nat, c: Page): Mem { m.(pages := m.pages[f := c]) }

  lemma MappedOne(m: Mem, m': Mem, r: nat, v: nat, ppn: nat, perm: nat)
    requires MappedTo(m, m', r, v, 1, ppn, perm) && r in m.roots && v < LIMIT
    ensures OnePte(m, m', r, v, MakePte(ppn, perm))
  {
    hide PteAt, MakePte;
    assert MappedPte(m, m', r, v, 1, ppn, perm, r, v);
    forall q: nat, w: nat | q in m.roots && w < LIMIT && (q != r || w != v)
      ensures PteKept(m, m', q, w)
    {
      assert MappedPte(m, m', r, v, 1, ppn, perm, q, w);
    }
  }

  lemma MappedZero(m: Mem, m': Mem, r: nat, v: nat, ppn: nat, perm: nat)
    requires MappedTo(m, m', r, v, 0, ppn, perm)
    ensures SamePtes(m, m')
  {
    hide PteAt, MakePte;
    forall q: nat, w: nat | q in m.roots && w < LIMIT
      ensures PteKept(m, m', q, w)
    {
      assert MappedPte(m, m', r, v, 0, ppn, perm, q, w);
    }
  }

  lemma SameVia(m: Mem, was: Mem, full: Mem, m': Mem)
    requires SamePtes(was, full) && was.roots == m.roots && m'.roots == full.roots
    requires (forall q: nat, w: nat :: PteAt(was, q, w) == PteAt(m, q, w))
      && forall q: nat, w: nat :: PteAt(m', q, w) == PteAt(full, q, w)
    ensures SamePtes(m, m')
  {
    hide PteAt;
    forall q: nat, w: nat | q in m.roots && w < LIMIT ensures PteKept(m, m', q, w) { assert PteKept(was, full, q, w); }
  }

  lemma OnePteFrom(m: Mem, was: Mem, m': Mem, r: nat, v: nat, e: nat)
    requires OnePte(was, m', r, v, e) && was.roots == m.roots
      && forall q: nat, w: nat :: PteAt(was, q, w) == PteAt(m, q, w)
    ensures OnePte(m, m', r, v, e)
  {
    hide PteAt;
    forall q: nat, w: nat | q in m.roots && w < LIMIT && (q != r || w != v)
      ensures PteKept(m, m', q, w)
    {
      assert PteKept(was, m', q, w);
    }
  }

  // ----- copies -----

  /** The walk for the address v * PAGE + off of src finds a page to copy. */
  predicate CanCopy(m: Mem, src: nat, off: nat, v: nat) {
    v * PAGE + off <= MAX_VA && Trans(m, src, v).Some? && Ppn(Trans(m, src, v).value) != 0
  }

  /** Page v of dst, unmapped before, maps a new frame with the flags and the bytes of page v of src. */
  predicate IsCopy(m: Mem, m': Mem, src: nat, dst: nat, v: nat) {
    && Trans(m, src, v).Some? && Trans(m, dst, v).None? && Trans(m', dst, v).Some?
    && Flags(Trans(m', dst, v).value) == Flags(Trans(m, src, v).value)
    && var f, g := Ppn(Trans(m', dst, v).value), Ppn(Trans(m, src, v).value);
    f !in m.pages && f !in m.tables && f in m'.pages && (g in m.pages ==> m'.pages[f] == m.pages[g])
  }

  predicate CopyPte(m: Mem, m': Mem, src: nat, dst: nat, off: nat, lo: nat, n: nat, q: nat, v: nat) {
    if q == dst && lo <= v < lo + n && CanCopy(m, src, off, v) then IsCopy(m, m', src, dst, v)
        else Trans(m', q, v) == Trans(m, q, v)
  }

  /** Page v of dst is a copy that lies in frame f. */
  predicate CopyIn(m: Mem, m': Mem, src: nat, dst: nat, off: nat, lo: nat, n: nat, v: nat, f: nat) {
    lo <= v < lo + n && CanCopy(m, src, off, v) && Trans(m', dst, v).Some? && Ppn(Trans(m', dst, v).value) == f
  }

  predicate PageKept(m: Mem, m': Mem, f: nat) { f in m.pages ==> f in m'.pages && m'.pages[f] == m.pages[f] }

  /** Exactly the copyable pages lo..lo+n of src are copied to dst, every other translation and
      every old page is kept, and each new frame belongs to exactly one copy. */
  ghost predicate CopiedTo(m: Mem, m': Mem, src: nat, dst: nat, off: nat, lo: nat, n: nat) {
    && m'.roots == m.roots && m.tables.Keys <= m'.tables.Keys
    && (forall q: nat, v: nat :: q in m.roots && v < LIMIT ==> CopyPte(m, m', src, dst, off, lo, n, q, v))
    && (forall f: nat :: PageKept(m, m', f))
    && (forall f: nat :: f in m'.pages && f !in m.pages ==> exists v: nat :: CopyIn(m, m', src, dst, off, lo, n, v, f))
    && (forall v: nat, w: nat, f: nat ::
          CopyIn(m, m', src, dst, off, lo, n, v, f) && CopyIn(m, m', src, dst, off, lo, n, w, f) ==> v == w)
  }

  lemma CopiedNone(m: Mem, src: nat, dst: nat, off: nat, lo: nat)
    ensures CopiedTo(m, m, src, dst, off, lo, 0)
  {
    hide PteAt;
    forall q: nat, v: nat | q in m.roots && v < LIMIT ensures CopyPte(m, m, src, dst, off, lo, 0, q, v) {}
  }

  lemma CopySkip(m: Mem, m': Mem, src: nat, dst: nat, off: nat, lo: nat, n: nat)
    requires CopiedTo(m, m', src, dst, off, lo, n) && src in m.roots
    requires !CanCopy(m', src, off, lo + n)
    ensures CopiedTo(m, m', src, dst, off, lo, n + 1)
  {
    hide Trans, Flags;
    SourceKept(m, m', src, dst, off, lo, n);
    var n' := n + 1;
    forall q: nat, v: nat | q in m.roots && v < LIMIT
      ensures CopyPte(m, m', src, dst, off, lo, n', q, v)
    {
      assert CopyPte(m, m', src, dst, off, lo, n, q, v);
    }
    forall f: nat | f in m'.pages && f !in m.pages ensures exists v: nat :: CopyIn(m, m', src, dst, off, lo, n', v, f) {
      var v: nat :| CopyIn(m, m', src, dst, off, lo, n, v, f);
      assert CopyIn(m, m', src, dst, off, lo, n', v, f);
    }
    forall v: nat, w: nat, f: nat | CopyIn(m, m', src, dst, off, lo, n', v, f)
        && CopyIn(m, m', src, dst, off, lo, n', w, f)
      ensures v == w
    {
      assert CopyIn(m, m', src, dst, off, lo, n, v, f) && CopyIn(m, m', src, dst, off, lo, n, w, f);
    }
  }

  /** The next page of src still translates as it did before the copying. */
  lemma SourceKept(m: Mem, m': Mem, src: nat, dst: nat, off: nat, lo: nat, n: nat)
    requires CopiedTo(m, m', src, dst, off, lo, n) && src in m.roots
    ensures lo + n < LIMIT ==> Trans(m', src, lo + n) == Trans(m, src, lo + n)
  {
    hide Trans;
    if lo + n < LIMIT { assert CopyPte(m, m', src, dst, off, lo, n, src, lo + n); }
  }

  lemma CopyTarget(m: Mem, m': Mem, src: nat, dst: nat, off: nat, lo: nat, n: nat)
    requires CopiedTo(m, m', src, dst, off, lo, n) && dst in m.roots && lo + n < LIMIT
    ensures Valid(PteAt(m', dst, lo + n)) ==> Valid(PteAt(m, dst, lo + n))
    ensures !Valid(PteAt(m', dst, lo + n)) ==> !Valid(PteAt(m, dst, lo + n))
  {
    hide PteAt;
    assert CopyPte(m, m', src, dst, off, lo, n, dst, lo + n);
  }

  lemma CopySame(m: Mem, was: Mem, m': Mem, src: nat, dst: nat, off: nat, lo: nat, n: nat)
    requires CopiedTo(m, was, src, dst, off, lo, n) && dst in m.roots
    requires SamePtes(was, m') && m'.pages == was.pages && was.tables.Keys <= m'.tables.Keys
    ensures CopiedTo(m, m', src, dst, off, lo, n)
  {
    assert was.roots == m.roots;
    hide PteAt, Flags, CopiedTo;
    forall q: nat, v: nat | q in m.roots && v < LIMIT
      ensures Trans(m', q, v) == Trans(was, q, v)
    {
      assert PteKept(was, m', q, v);
    }
    CopySameTrans(m, was, m', src, dst, off, lo, n);
  }

  lemma CopySameTrans(m: Mem, was: Mem, m': Mem, src: nat, dst: nat, off: nat, lo: nat, n: nat)
    requires CopiedTo(m, was, src, dst, off, lo, n) && dst in m.roots && m'.roots == was.roots
    requires (forall q: nat, v: nat :: q in m.roots && v < LIMIT ==> Trans(m', q, v) == Trans(was, q, v))
      && m'.pages == was.pages && was.tables.Keys <= m'.tables.Keys
    ensures CopiedTo(m, m', src, dst, off, lo, n)
  {
    hide Trans, Flags;
    forall q: nat, v: nat | q in m.roots && v < LIMIT
      ensures CopyPte(m, m', src, dst, off, lo, n, q, v)
    {
      assert CopyPte(m, was, src, dst, off, lo, n, q, v);
    }
    forall f: nat ensures PageKept(m, m', f) { assert PageKept(m, was, f); }
    forall f: nat | f in m'.pages && f !in m.pages ensures exists v: nat :: CopyIn(m, m', src, dst, off, lo, n, v, f) {
      var v: nat :| CopyIn(m, was, src, dst, off, lo, n, v, f);
      assert CopyIn(m, m', src, dst, off, lo, n, v, f);
    }
    forall v: nat, w: nat, f: nat | CopyIn(m, m', src, dst, off, lo, n, v, f)
        && CopyIn(m, m', src, dst, off, lo, n, w, f)
      ensures v == w
    {
      assert CopyIn(m, was, src, dst, off, lo, n, v, f) && CopyIn(m, was, src, dst, off, lo, n, w, f);
    }
  }

  /** Page v of dst now maps the new frame f, which holds the bytes behind e. */
  ghost predicate CopyStep(m: Mem, m': Mem, dst: nat, v: nat, f: nat, e: nat) {
    && v < LIMIT && OnePte(m, m', dst, v, MakePte(f, Flags(e))) && !Valid(PteAt(m, dst, v))
    && m.tables.Keys <= m'.tables.Keys
    && f in m'.pages && m'.pages == m.pages[f := m'.pages[f]] && (Ppn(e) in m.pages ==> m'.pages[f] == m.pages[Ppn(e)])
  }

  lemma CopyMore(m: Mem, was: Mem, m': Mem, src: nat, dst: nat, off: nat, lo: nat, n: nat, f: nat, e: nat)
    requires CopiedTo(m, was, src, dst, off, lo, n) && src in m.roots && dst in m.roots && f !in was.pages
      && f !in was.tables
    requires CanCopy(was, src, off, lo + n) && e == PteAt(was, src, lo + n) && CopyStep(was, m', dst, lo + n, f, e)
    ensures CopiedTo(m, m', src, dst, off, lo, n + 1) && m'.roots == m.roots
  {
    assert m'.roots == m.roots;
    hide PteAt, Flags, MakePte, CopiedTo;
    StepTrans(was, m', dst, lo + n, f, e);
    SourceKept(m, was, src, dst, off, lo, n);
    CopyTarget(m, was, src, dst, off, lo, n);
    IsCopyNow(m, was, m', src, dst, off, lo, n, f, e);
    MoreFrames(m, was, m', src, dst, off, lo, n, f);
  }

  lemma StepTrans(m: Mem, m': Mem, dst: nat, v: nat, f: nat, e: nat)
    requires CopyStep(m, m', dst, v, f, e) && Valid(e)
    ensures Trans(m', dst, v).Some? && Ppn(Trans(m', dst, v).value) == f && Flags(Trans(m', dst, v).value) == Flags(e)
    ensures forall q: nat, w: nat :: q in m.roots && w < LIMIT && (q != dst || w != v) ==>
      Trans(m', q, w) == Trans(m, q, w)
  {
    hide PteAt;
    MakePteIs(f, Flags(e));
    assert Flags(e) % 2 == 1;
    forall q: nat, w: nat | q in m.roots && w < LIMIT && (q != dst || w != v)
      ensures Trans(m', q, w) == Trans(m, q, w)
    {
      assert PteKept(m, m', q, w);
    }
  }

  /** How the translations and the pages of m' come from those of was: page v of dst lies in the new frame f. */
  ghost predicate Stepped(was: Mem, m': Mem, dst: nat, v: nat, f: nat) {
    && m'.roots == was.roots && was.tables.Keys <= m'.tables.Keys && f !in was.pages && f !in was.tables
    && f in m'.pages && m'.pages == was.pages[f := m'.pages[f]]
    && Trans(m', dst, v).Some? && Ppn(Trans(m', dst, v).value) == f
    && (forall q: nat, w: nat :: q in was.roots && w < LIMIT && (q != dst || w != v) ==>
        Trans(m', q, w) == Trans(was, q, w))
  }

  lemma MorePte(m: Mem, was: Mem, m': Mem, src: nat, dst: nat, off: nat, lo: nat, n: nat, f: nat, q: nat, v: nat)
    requires CopiedTo(m, was, src, dst, off, lo, n) && Stepped(was, m', dst, lo + n, f) && q in m.roots && v < LIMIT
    requires IsCopy(m, m', src, dst, lo + n) && CanCopy(m, src, off, lo + n)
    ensures CopyPte(m, m', src, dst, off, lo, n + 1, q, v)
  {
    hide Trans, Flags;
    assert CopyPte(m, was, src, dst, off, lo, n, q, v);
  }

  lemma MoreUnique(m: Mem, was: Mem, m': Mem, src: nat, dst: nat, off: nat, lo: nat, n: nat, f: nat, v: nat)
    requires CopiedTo(m, was, src, dst, off, lo, n) && Stepped(was, m', dst, lo + n, f) && dst in m.roots
      && lo <= v < lo + n && CanCopy(m, src, off, v)
    ensures Trans(m', dst, v) == Trans(was, dst, v) && Trans(was, dst, v).Some? && Ppn(Trans(was, dst, v).value) != f
  {
    hide Trans, Flags;
    assert CopyPte(m, was, src, dst, off, lo, n, dst, v);
  }

  lemma MoreFrames(m: Mem, was: Mem, m': Mem, src: nat, dst: nat, off: nat, lo: nat, n: nat, f: nat)
    requires CopiedTo(m, was, src, dst, off, lo, n) && Stepped(was, m', dst, lo + n, f) && dst in m.roots
    requires IsCopy(m, m', src, dst, lo + n) && CanCopy(m, src, off, lo + n)
    ensures CopiedTo(m, m', src, dst, off, lo, n + 1)
  {
    hide Trans, Flags, IsCopy;
    var n' := n + 1;
    forall q: nat, v: nat | q in m.roots && v < LIMIT
      ensures CopyPte(m, m', src, dst, off, lo, n', q, v)
    {
      MorePte(m, was, m', src, dst, off, lo, n, f, q, v);
    }
    forall h: nat ensures PageKept(m, m', h) { assert PageKept(m, was, h); }
    forall h: nat | h in m'.pages && h !in m.pages ensures exists v: nat :: CopyIn(m, m', src, dst, off, lo, n', v, h) {
      if h == f {
        assert CopyIn(m, m', src, dst, off, lo, n', lo + n, h);
      } else {
        var v: nat :| CopyIn(m, was, src, dst, off, lo, n, v, h);
        MoreUnique(m, was, m', src, dst, off, lo, n, f, v);
        assert CopyIn(m, m', src, dst, off, lo, n', v, h);
      }
    }
    forall v: nat, w: nat, h: nat | CopyIn(m, m', src, dst, off, lo, n', v, h)
        && CopyIn(m, m', src, dst, off, lo, n', w, h)
      ensures v == w
    {
      if v != lo + n { MoreUnique(m, was, m', src, dst, off, lo, n, f, v); }
      if w != lo + n { MoreUnique(m, was, m', src, dst, off, lo, n, f, w); }
      if v != lo + n && w != lo + n {
        assert CopyIn(m, was, src, dst, off, lo, n, v, h) && CopyIn(m, was, src, dst, off, lo, n, w, h);
      }
    }
  }

  lemma IsCopyNow(m: Mem, was: Mem, m': Mem, src: nat, dst: nat, off: nat, lo: nat, n: nat, f: nat, e: nat)
    requires CopiedTo(m, was, src, dst, off, lo, n) && f !in was.pages && f !in was.tables
    requires lo + n < LIMIT && Trans(was, src, lo + n) == Some(e) == Trans(m, src, lo + n)
      && Trans(m, dst, lo + n).None?
    requires Trans(m', dst, lo + n).Some? && Ppn(Trans(m', dst, lo + n).value) == f
      && Flags(Trans(m', dst, lo + n).value) == Flags(e)
    requires f in m'.pages && (Ppn(e) in was.pages ==> m'.pages[f] == was.pages[Ppn(e)])
    ensures IsCopy(m, m', src, dst, lo + n)
  {
    hide Trans, Flags, Ppn;
    assert PageKept(m, was, f) && PageKept(m, was, Ppn(e));
  }

  /** Running out of memory at a page that dst does not map leaves exactly the copies before it:
      no frame leaks. */
  lemma FailedCopyKeepsPrefix(m: Mem, mid: Mem, m': Mem, src: nat, dst: nat, off: nat, lo: nat, n: nat)
    requires CopiedTo(m, mid, src, dst, off, lo, n) && dst in m.roots && lo + n < LIMIT && Trans(m, dst, lo + n).None?
    requires UnmappedTo(mid, m', dst, lo + n, 1) && m'.pages == Released(mid, dst, lo + n, 1)
      && mid.tables.Keys <= m'.tables.Keys
    ensures CopiedTo(m, m', src, dst, off, lo, n) && m'.pages == mid.pages
  {
    hide Trans, Flags;
    var at := lo + n;
    assert CopyPte(m, mid, src, dst, off, lo, n, dst, at);
    assert Released(mid, dst, at, 0) == mid.pages;
    forall q: nat, v: nat | q in m.roots && v < LIMIT
      ensures Trans(m', q, v) == Trans(mid, q, v)
    {
      assert UnmappedPte(mid, m', dst, at, 1, q, v);
    }
    CopySameTrans(m, mid, m', src, dst, off, lo, n);
  }

  datatype MapResult =
    | Mapped(done: nat)
    | NoMemory(done: nat)
    | Remap(done: nat)
    | Misuse(done: nat)

  lemma NoTable(m: Mem, root: nat, v: nat)
    requires Frame(m, root, Path(v, 0)).None?
    ensures PteAt(m, root, v) == 0 && Trans(m, root, v).None?
  {
    hide Ix;
  }

  lemma LeafIn(m: Mem, root: nat, v: nat, pt: nat)
    requires Frame(m, root, Path(v, 0)) == Some(pt)
    ensures PteAt(m, root, v) == Entry(m, pt, Ix(0, v))
  {
    hide Ix;
  }

  // ----- ranges of new pages -----

  /** Pages lo..lo+n of r have no valid entry. */
  ghost predicate Vacant(m: Mem, r: nat, lo: nat, n: nat) {
    forall v: nat :: lo <= v < lo + n ==> !Valid(PteAt(m, r, v))
  }

  predicate MappedPte(m: Mem, m': Mem, r: nat, lo: nat, n: nat, ppn: nat, perm: nat, q: nat, v: nat) {
    PteAt(m', q, v) == if q == r && lo <= v < lo + n then MakePte(ppn + (v - lo), perm) else PteAt(m, q, v)
  }

  /** Pages lo..lo+n of r map to the frames from ppn on; all else is as before. */
  ghost predicate MappedTo(m: Mem, m': Mem, r: nat, lo: nat, n: nat, ppn: nat, perm: nat) {
    m'.roots == m.roots && forall q: nat, v: nat :: q in m.roots && v < LIMIT ==>
        MappedPte(m, m', r, lo, n, ppn, perm, q, v)
  }

  lemma MappedNone(m: Mem, r: nat, lo: nat, ppn: nat, perm: nat)
    ensures MappedTo(m, m, r, lo, 0, ppn, perm)
  {
    hide PteAt;
    forall q: nat, v: nat | q in m.roots && v < LIMIT ensures MappedPte(m, m, r, lo, 0, ppn, perm, q, v) {}
  }

  lemma MappedSame(m: Mem, was: Mem, m': Mem, r: nat, lo: nat, n: nat, ppn: nat, perm: nat)
    requires MappedTo(m, was, r, lo, n, ppn, perm) && SamePtes(was, m')
    ensures MappedTo(m, m', r, lo, n, ppn, perm) && m'.roots == m.roots
  {
    hide PteAt, MakePte;
    forall q: nat, v: nat | q in m.roots && v < LIMIT ensures MappedPte(m, m', r, lo, n, ppn, perm, q, v) {
      assert MappedPte(m, was, r, lo, n, ppn, perm, q, v) && PteKept(was, m', q, v);
    }
  }

  lemma NotYetMapped(m: Mem, m': Mem, r: nat, lo: nat, n: nat, ppn: nat, perm: nat)
    requires MappedTo(m, m', r, lo, n, ppn, perm) && r in m.roots && lo + n < LIMIT
    ensures PteAt(m', r, lo + n) == PteAt(m, r, lo + n)
  {
    hide PteAt;
    assert MappedPte(m, m', r, lo, n, ppn, perm, r, lo + n);
  }

  lemma MappedMore(m: Mem, was: Mem, m': Mem, r: nat, lo: nat, n: nat, ppn: nat, perm: nat)
    requires MappedTo(m, was, r, lo, n, ppn, perm) && OnePte(was, m', r, lo + n, MakePte(ppn + n, perm))
    ensures MappedTo(m, m', r, lo, n + 1, ppn, perm)
  {
    hide PteAt, MakePte;
    var n' := n + 1;
    forall q: nat, v: nat | q in m.roots && v < LIMIT ensures MappedPte(m, m', r, lo, n', ppn, perm, q, v) {
      assert MappedPte(m, was, r, lo, n, ppn, perm, q, v);
      if q != r || v != lo + n { assert PteKept(was, m', q, v); }
    }
  }

  // ----- ranges of removed pages -----

  predicate InRange(lo: nat, n: nat, v: nat) { lo <= v < lo + n && v <= MAX_VPN }

  predicate UnmappedPte(m: Mem, m': Mem, r: nat, lo: nat, n: nat, q: nat, v: nat) {
    Trans(m', q, v) == if q == r && InRange(lo, n, v) then None else Trans(m, q, v)
  }

  /** Pages lo..lo+n of r have no translation; all other translations are as before. */
  ghost predicate UnmappedTo(m: Mem, m': Mem, r: nat, lo: nat, n: nat) {
    m'.roots == m.roots && forall q: nat, v: nat :: q in m.roots && v < LIMIT ==> UnmappedPte(m, m', r, lo, n, q, v)
  }

  lemma UnmappedNone(m: Mem, r: nat, lo: nat)
    ensures UnmappedTo(m, m, r, lo, 0) && Released(m, r, lo, 0) == m.pages
  {
    hide PteAt;
    forall q: nat, v: nat | q in m.roots && v < LIMIT ensures UnmappedPte(m, m, r, lo, 0, q, v) {}
  }

  /** The data frames after those behind pages lo..lo+n of r have been freed. */
  ghost function Released(m: Mem, r: nat, lo: nat, n: nat): map<nat, Page> {
    if n == 0 then m.pages
    else
      var rest := Released(m, r, lo, n - 1);
      if InRange(lo, n, lo + n - 1) && Trans(m, r, lo + n - 1).Some? then rest - {Ppn(Trans(m, r, lo + n - 1).value)}
          else rest
  }

  lemma UnmappedSkip(m: Mem, m': Mem, r: nat, lo: nat, n: nat)
    requires UnmappedTo(m, m', r, lo, n) && r in m.roots && (lo + n > MAX_VPN || Trans(m', r, lo + n).None?)
    ensures UnmappedTo(m, m', r, lo, n + 1) && Released(m, r, lo, n + 1) == Released(m, r, lo, n)
  {
    hide Trans;
    var n' := n + 1;
    if lo + n <= MAX_VPN { assert UnmappedPte(m, m', r, lo, n, r, lo + n); }
    forall q: nat, v: nat | q in m.roots && v < LIMIT
      ensures UnmappedPte(m, m', r, lo, n', q, v)
    {
      assert UnmappedPte(m, m', r, lo, n, q, v);
    }
  }

  lemma StillMapped(m: Mem, m': Mem, r: nat, lo: nat, n: nat)
    requires UnmappedTo(m, m', r, lo, n) && r in m.roots && lo + n <= MAX_VPN && Valid(PteAt(m', r, lo + n))
    ensures Trans(m, r, lo + n) == Some(PteAt(m', r, lo + n))
    ensures Released(m, r, lo, n + 1) == Released(m, r, lo, n) - {Ppn(PteAt(m', r, lo + n))}
  {
    hide PteAt;
    assert UnmappedPte(m, m', r, lo, n, r, lo + n);
  }

  lemma FreeApart(m: Mem)
    requires Sound(m)
    ensures m.pages.Keys !! m.tables.Keys
  {
  }

  lemma PageOf(v: nat)
    ensures v * PAGE / PAGE == v && (v * PAGE > MAX_VA <==> v > MAX_VPN)
  {
  }

  function FreePage(m: Mem, f: nat): Mem { m.(pages := m.pages - {f}) }

  lemma PagesOk(m: Mem, m': Mem)
    requires Sound(m) && m' == m.(pages := m'.pages) && m'.pages.Keys !! m.tables.Keys
    ensures Sound(m') && m'.tables.Keys == m.tables.Keys && (forall r, n :: Frame(m', r, n) == Frame(m, r, n))
      && (forall r, v: nat :: PteAt(m', r, v) == PteAt(m, r, v))
  {
    hide Ix;
    forall r, n | HasNode(m, r, n) ensures NodeKept(m, m', r, n) {}
    NodesSound(m, m');
  }

  lemma UnmappedMore(m: Mem, was: Mem, m': Mem, r: nat, lo: nat, n: nat)
    requires UnmappedTo(m, was, r, lo, n) && lo + n <= MAX_VPN
    requires exists mid: Mem ::
      && mid.roots == was.roots && (forall q, v: nat :: PteAt(mid, q, v) == PteAt(was, q, v))
      && OnePte(mid, m', r, lo + n, 0)
    ensures UnmappedTo(m, m', r, lo, n + 1)
  {
    hide PteAt;
    var n' := n + 1;
    var mid: Mem :| mid.roots == was.roots && (forall q, v: nat :: PteAt(mid, q, v) == PteAt(was, q, v))
        && OnePte(mid, m', r, lo + n, 0);
    forall q: nat, v: nat | q in m.roots && v < LIMIT ensures UnmappedPte(m, m', r, lo, n', q, v) {
      assert UnmappedPte(m, was, r, lo, n, q, v);
      if q != r || v != lo + n { assert PteKept(mid, m', q, v); }
    }
  }

  lemma LeavesSame(m: Mem)
    ensures SameLeaves(m, m)
  {
    hide Leaf;
  }

  lemma TopIs(m: Mem, root: nat)
    ensures Frame(m, root, Path(0, 2)) == Some(root) && forall v: nat :: Path(v, 2) == Top
  {
  }

  lemma NodeTable(m: Mem, root: nat, v: nat, level: nat, pt: nat)
    requires Sound(m) && root in m.roots && level <= 2 && Frame(m, root, Path(v, level)) == Some(pt)
    ensures pt in m.tables && |m.tables[pt]| == ENTRIES
    ensures level > 0 ==> Frame(m, root, Path(v, level - 1)) == Below(m, pt, Ix(level, v))
    ensures Entry(m, pt, Ix(level, v)) == m.tables[pt][Ix(level, v)]
  {
    hide Ix;
    assert HasNode(m, root, Path(v, level)) && FrameOk(m, root, Path(v, level));
  }

  lemma NoPath(m: Mem, root: nat, v: nat, level: nat)
    requires 0 < level <= 2 && Frame(m, root, Path(v, level - 1)).None?
    ensures Frame(m, root, Path(v, 0)).None?
  {
    hide Ix;
  }

  lemma Grow(m0: Mem, m: Mem, root: nat, v: nat, level: nat, pt: nat, f: nat)
    requires Sound(m) && SameLeaves(m0, m) && root in m.roots && 0 < level <= 2
      && Frame(m, root, Path(v, level)) == Some(pt)
    requires Frame(m, root, Path(v, level - 1)).None? && f !in m.tables && f !in m.pages && pt in m.tables
      && |m.tables[pt]| == ENTRIES
    ensures var m' := SetEntry(NewTable(m, f), pt, Ix(level, v), f * 1024 + 1);
            Sound(m') && SameLeaves(m0, m') && Frame(m', root, Path(v, level - 1)) == Some(f)
  {
    hide Sound, SameLeaves, Frame, Ix;
    NewTableOk(m, f);
    var mid := NewTable(m, f);
    var n := Path(v, level);
    assert HasNode(m, root, n) && HasNode(m, root, Path(v, level - 1));
    assert NodeKept(m, mid, root, n) && NodeKept(m, mid, root, Path(v, level - 1));
    assert ChildOf(n, Ix(level, v)) == Path(v, level - 1);
    LinkOk(mid, root, n, pt, Ix(level, v), f);
    SameLeavesTwice(m0, m, mid);
    SameLeavesTwice(m0, mid, SetEntry(mid, pt, Ix(level, v), f * 1024 + 1));
  }
}
