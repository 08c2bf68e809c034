/** The block map of ext2 inodes: twelve direct blocks, one indirect and one double indirect
    block. Every block number an inode holds sits in a slot; no two slots, of one inode or of
    two, hold the same block. */
module Ext2Map {

  import opened LeBytes

  const NDIR: nat := 12
  const IND: nat := 12
  const DIND: nat := 13

  datatype Inode = Inode(size: nat, iblock: seq<nat>)

  /** bits[k] is the bitmap bit of block first + k; free[g] the free count of the group of per
      blocks that starts at first + g * per. */
  datatype Fs = Fs(bs: nat, blocks: seq<Block>, first: nat, per: nat, bits: seq<bool>, free: seq<int>, inodes: map<nat,
      Inode>)

  function Ptrs(fs: Fs): nat { fs.bs / 4 }

  ghost predicate InodesOk(fs: Fs) {
    forall x :: x in fs.inodes ==>
      |fs.inodes[x].iblock| == 15 && forall i :: 0 <= i < 15 ==> fs.inodes[x].iblock[i] < TWO32
  }

  ghost predicate ShapeOk(fs: Fs) {
    && fs.bs > 0 && fs.bs % 512 == 0 && fs.per > 0 && 0 < |fs.blocks| < TWO32
    && (forall b :: 0 <= b < |fs.blocks| ==> |fs.blocks[b]| == fs.bs)
    && fs.first <= |fs.blocks| && |fs.bits| == |fs.blocks| - fs.first
    && InodesOk(fs)
  }

  predicate IsUsed(fs: Fs, b: nat) {
    b < |fs.blocks| && b - fs.first < |fs.bits| && (b < fs.first || fs.bits[b - fs.first])
  }

  // ----- slots -----

  datatype Slot = Direct(i: nat) | Ind | Dind | Leaf1(i: nat) | Mid(i: nat) | Leaf2(i: nat, j: nat)

  predicate SlotOk(fs: Fs, s: Slot) {
    match s
    case Direct(i) => i < NDIR
    case Leaf1(i) => i < Ptrs(fs)
    case Mid(i) => i < Ptrs(fs)
    case Leaf2(i, j) => i < Ptrs(fs) && j < Ptrs(fs)
    case _ => true
  }

  predicate IsData(s: Slot) { s.Direct? || s.Leaf1? || s.Leaf2? }

  /** Entry i of pointer block b; no block, no entry. */
  function Entry(fs: Fs, b: nat, i: nat): nat {
    if b == 0 || b >= |fs.blocks| || 4 * i + 4 > |fs.blocks[b]| then 0 else Le32(fs.blocks[b], 4 * i)
  }

  /** The block in a slot, 0 for none. */
  function At(fs: Fs, x: nat, s: Slot): nat
    requires x in fs.inodes && |fs.inodes[x].iblock| == 15 && SlotOk(fs, s)
  {
    var ib := fs.inodes[x].iblock;
    match s
    case Direct(i) => ib[i]
    case Ind => ib[IND]
    case Dind => ib[DIND]
    case Leaf1(i) => Entry(fs, ib[IND], i)
    case Mid(i) => Entry(fs, ib[DIND], i)
    case Leaf2(i, j) => Entry(fs, Entry(fs, ib[DIND], i), j)
  }

  predicate HasSlot(fs: Fs, x: nat, s: Slot) { x in fs.inodes && |fs.inodes[x].iblock| == 15 && SlotOk(fs, s) }

  /** A block in a slot is allocated. */
  predicate RefOk(fs: Fs, x: nat, s: Slot)
    requires HasSlot(fs, x, s)
  {
    At(fs, x, s) != 0 ==> IsUsed(fs, At(fs, x, s)) && fs.first <= At(fs, x, s)
  }

  predicate SameRef(fs: Fs, x: nat, s: Slot, y: nat, t: Slot)
    requires HasSlot(fs, x, s) && HasSlot(fs, y, t)
  {
    At(fs, x, s) == At(fs, y, t) != 0
  }

  ghost predicate RefsOk(fs: Fs) { forall x, s :: HasSlot(fs, x, s) ==> RefOk(fs, x, s) }

  /** No block is in two slots. */
  ghost predicate Unshared(fs: Fs) {
    forall x, s, y, t :: HasSlot(fs, x, s) && HasSlot(fs, y, t) && SameRef(fs, x, s, y, t) ==> x == y && s == t
  }

  ghost predicate Sound(fs: Fs) { ShapeOk(fs) && IsUsed(fs, 0) && RefsOk(fs) && Unshared(fs) }

  // ----- files as sparse byte arrays -----

  /** Number of logical blocks that an inode can map. */
  function Limit(fs: Fs): nat { NDIR + Ptrs(fs) + Ptrs(fs) * Ptrs(fs) }

  predicate InDouble(fs: Fs, l: nat) { NDIR + Ptrs(fs) <= l < Limit(fs) }

  /** Where logical block l sits in the double indirect tree. */
  function Row(fs: Fs, l: nat): (i: nat)
    requires InDouble(fs, l)
    ensures i < Ptrs(fs)
  {
    DivBound(l - NDIR - Ptrs(fs), Ptrs(fs));
    (l - NDIR - Ptrs(fs)) / Ptrs(fs)
  }

  function Col(fs: Fs, l: nat): (j: nat)
    requires InDouble(fs, l)
    ensures j < Ptrs(fs)
  {
    DivBound(l - NDIR - Ptrs(fs), Ptrs(fs));
    (l - NDIR - Ptrs(fs)) % Ptrs(fs)
  }

  lemma RowCol(fs: Fs, l: nat)
    requires InDouble(fs, l)
    ensures l == NDIR + Ptrs(fs) + Ptrs(fs) * Row(fs, l) + Col(fs, l)
  {
    DivBound(l - NDIR - Ptrs(fs), Ptrs(fs));
  }

  /** The slot of logical block l. */
  function DataSlot(fs: Fs, l: nat): (s: Slot)
    requires l < Limit(fs)
    ensures SlotOk(fs, s) && IsData(s)
  {
    if l < NDIR then Direct(l)
    else if l < NDIR + Ptrs(fs) then Leaf1(l - NDIR)
    else Leaf2(Row(fs, l), Col(fs, l))
  }

  lemma DivBound(off: nat, p: nat)
    requires off < p * p
    ensures p > 0 && off / p < p && off % p < p
  {
  }

  lemma DataSlotInjective(fs: Fs, l: nat, m: nat)
    requires l < Limit(fs) && m < Limit(fs) && DataSlot(fs, l) == DataSlot(fs, m)
    ensures l == m
  {
    hide Row, Col, Ptrs, Limit;
    if InDouble(fs, l) && InDouble(fs, m) {
      RowCol(fs, l);
      RowCol(fs, m);
    }
  }

  predicate Mapped(fs: Fs, x: nat, l: nat) { l < Limit(fs) && x in fs.inodes && |fs.inodes[x].iblock| == 15 }

  /** Byte k of logical block l of inode x: 0 in a hole. */
  function ByteIn(fs: Fs, x: nat, l: nat, k: nat): int
    requires Mapped(fs, x, l)
  {
    var b := At(fs, x, DataSlot(fs, l));
    if b == 0 || b >= |fs.blocks| || k >= |fs.blocks[b]| then 0 else fs.blocks[b][k] as int
  }

  // ----- changes -----

  predicate IsPointer(s: Slot) { s.Ind? || s.Dind? || s.Mid? }

  /** Block b is no pointer block of inode x. */
  ghost predicate NoPointer(fs: Fs, x: nat, b: nat) {
    forall s :: HasSlot(fs, x, s) && IsPointer(s) ==> At(fs, x, s) != b
  }

  /** No slot holds block b. */
  ghost predicate NoRef(fs: Fs, b: nat) {
    forall x, s :: HasSlot(fs, x, s) ==> At(fs, x, s) != b
  }

  /** Same inodes, same blocks but for the contents of b. */
  predicate OnlyBlock(fs: Fs, fs': Fs, b: nat) {
    && fs'.bs == fs.bs && fs'.inodes == fs.inodes && |fs'.blocks| == |fs.blocks|
    && forall c :: 0 <= c < |fs.blocks| && c != b ==> fs'.blocks[c] == fs.blocks[c]
  }

  lemma SameEntry(fs: Fs, fs': Fs, b: nat, c: nat, i: nat)
    requires OnlyBlock(fs, fs', b) && c != b
    ensures Entry(fs', c, i) == Entry(fs, c, i)
  {
  }

  /** The contents of a block that is no pointer block of x do not matter to x's slots. */
  lemma SameAt(fs: Fs, fs': Fs, b: nat, x: nat, s: Slot)
    requires OnlyBlock(fs, fs', b) && HasSlot(fs, x, s) && NoPointer(fs, x, b)
    ensures HasSlot(fs', x, s) && At(fs', x, s) == At(fs, x, s)
  {
    hide Entry, OnlyBlock;
    HasSame(fs, fs', b, x, s);
    var ib := fs.inodes[x].iblock;
    assert HasSlot(fs, x, Ind) && At(fs, x, Ind) != b;
    assert HasSlot(fs, x, Dind) && At(fs, x, Dind) != b;
    match s
    case Leaf1(i) => SameEntry(fs, fs', b, ib[IND], i);
    case Mid(i) => SameEntry(fs, fs', b, ib[DIND], i);
    case Leaf2(i, j) =>
      SameEntry(fs, fs', b, ib[DIND], i);
      assert HasSlot(fs, x, Mid(i)) && At(fs, x, Mid(i)) != b;
      SameEntry(fs, fs', b, Entry(fs, ib[DIND], i), j);
    case _ =>
  }

  lemma HasSame(fs: Fs, fs': Fs, b: nat, x: nat, s: Slot)
    requires OnlyBlock(fs, fs', b)
    ensures HasSlot(fs', x, s) == HasSlot(fs, x, s) && (x in fs.inodes ==> fs'.inodes[x] == fs.inodes[x])
      && fs'.inodes == fs.inodes
  {
  }

  /** A block that is not allocated is in no slot. */
  lemma UnusedNoRef(fs: Fs, b: nat)
    requires Sound(fs) && !IsUsed(fs, b)
    ensures b != 0 && NoRef(fs, b)
  {
    hide At, ShapeOk;
    forall x, s | HasSlot(fs, x, s) ensures At(fs, x, s) != b { assert RefOk(fs, x, s); }
  }

  /** A data block is no pointer block. */
  lemma DataNoPointer(fs: Fs, x: nat, s: Slot, y: nat)
    requires Sound(fs) && HasSlot(fs, x, s) && IsData(s) && At(fs, x, s) != 0
    ensures NoPointer(fs, y, At(fs, x, s))
  {
    hide At, ShapeOk;
    forall t | HasSlot(fs, y, t) && IsPointer(t) ensures At(fs, y, t) != At(fs, x, s) {
      assert !SameRef(fs, x, s, y, t);
    }
  }

  // ----- keeping the map sound -----

  predicate SlotKept(fs: Fs, fs': Fs, y: nat, t: Slot) {
    HasSlot(fs', y, t) == HasSlot(fs, y, t) && (HasSlot(fs, y, t) ==> At(fs', y, t) == At(fs, y, t))
  }

  ghost predicate SameSlots(fs: Fs, fs': Fs) { forall y, t :: SlotKept(fs, fs', y, t) }

  /** Slot s of x, which was empty, now holds b; nothing else changed. */
  ghost predicate OneSlot(fs: Fs, fs': Fs, x: nat, s: Slot, b: nat) {
    && HasSlot(fs, x, s) && HasSlot(fs', x, s) && At(fs, x, s) == 0 && At(fs', x, s) == b
    && forall y, t :: y != x || t != s ==> SlotKept(fs, fs', y, t)
  }

  ghost predicate StillUsed(fs: Fs, fs': Fs) { fs'.first == fs.first && forall b :: IsUsed(fs, b) ==> IsUsed(fs', b) }

  lemma SameSound(fs: Fs, fs': Fs)
    requires Sound(fs) && ShapeOk(fs') && SameSlots(fs, fs') && StillUsed(fs, fs')
    ensures Sound(fs')
  {
    hide At, ShapeOk, HasSlot, IsUsed;
    forall y, t | HasSlot(fs', y, t) ensures RefOk(fs', y, t) { assert SlotKept(fs, fs', y, t) && RefOk(fs, y, t); }
    forall x, s, y, t | HasSlot(fs', x, s) && HasSlot(fs', y, t) && SameRef(fs', x, s, y, t) ensures x == y && s == t {
      assert SlotKept(fs, fs', x, s) && SlotKept(fs, fs', y, t);
      assert SameRef(fs, x, s, y, t);
    }
  }

  lemma OneSound(fs: Fs, fs': Fs, x: nat, s: Slot, b: nat)
    requires Sound(fs) && ShapeOk(fs') && OneSlot(fs, fs', x, s, b) && StillUsed(fs, fs')
    requires b != 0 && NoRef(fs, b) && IsUsed(fs', b) && fs.first <= b
    ensures Sound(fs')
  {
    hide At, ShapeOk, HasSlot, IsUsed;
    forall y, t | HasSlot(fs', y, t) ensures RefOk(fs', y, t) {
      if y != x || t != s { assert SlotKept(fs, fs', y, t) && RefOk(fs, y, t); }
    }
    forall y, t, z, u | HasSlot(fs', y, t) && HasSlot(fs', z, u) && SameRef(fs', y, t, z, u) ensures y == z && t == u {
      assert (y != x || t != s) ==> SlotKept(fs, fs', y, t);
      assert (z != x || u != s) ==> SlotKept(fs, fs', z, u);
      if (y != x || t != s) && (z != x || u != s) { assert SameRef(fs, y, t, z, u); }
    }
  }

  // ----- contents -----

  ghost predicate ByteKept(fs: Fs, fs': Fs, y: nat, l: nat) {
    Mapped(fs, y, l) ==> Mapped(fs', y, l) && forall k: nat :: ByteIn(fs', y, l, k) == ByteIn(fs, y, l, k)
  }

  ghost predicate SameBytes(fs: Fs, fs': Fs) { fs'.bs == fs.bs && forall y, l :: ByteKept(fs, fs', y, l) }

  lemma SameBytesTwice(fs: Fs, fs': Fs, fs'': Fs)
    requires SameBytes(fs, fs') && SameBytes(fs', fs'')
    ensures SameBytes(fs, fs'')
  {
    hide ByteIn, Mapped;
    forall y, l ensures ByteKept(fs, fs'', y, l) {
      assert ByteKept(fs, fs', y, l);
      assert ByteKept(fs', fs'', y, l);
    }
  }

  predicate Zeros(b: Block) { forall k :: 0 <= k < |b| ==> b[k] == 0 }

  /** The slot of a logical block, and the block in it. */
  lemma SlotOf(fs: Fs, x: nat, l: nat)
    requires Sound(fs) && Mapped(fs, x, l)
    ensures var s := DataSlot(fs, l);
            HasSlot(fs, x, s) && IsData(s) && (At(fs, x, s) != 0 ==>
                At(fs, x, s) < |fs.blocks| && |fs.blocks[At(fs, x, s)]| == fs.bs)
  {
    hide At, DataSlot, Unshared;
    var s := DataSlot(fs, l);
    assert HasSlot(fs, x, s);
    assert RefOk(fs, x, s);
  }

  /** Slots kept and data blocks kept: bytes kept. */
  lemma BytesKept(fs: Fs, fs': Fs, y: nat, l: nat)
    requires Mapped(fs, y, l) && fs'.bs == fs.bs && |fs'.blocks| == |fs.blocks|
    requires SlotKept(fs, fs', y, DataSlot(fs, l))
    requires var b := At(fs, y, DataSlot(fs, l)); b < |fs.blocks| ==> b == 0 || fs'.blocks[b] == fs.blocks[b]
    ensures ByteKept(fs, fs', y, l)
  {
    hide At, DataSlot;
    assert HasSlot(fs', y, DataSlot(fs, l));
    SameDataSlot(fs, fs', l);
  }

  lemma SameDataSlot(fs: Fs, fs': Fs, l: nat)
    requires l < Limit(fs) && fs'.bs == fs.bs
    ensures l < Limit(fs') && DataSlot(fs', l) == DataSlot(fs, l)
  {
  }

  lemma NotMapped(fs: Fs, fs': Fs, y: nat, l: nat)
    requires !Mapped(fs, y, l)
    ensures ByteKept(fs, fs', y, l)
  {
  }

  // ----- linking a zero block into a slot -----

  /** A zero block b in slot s leaves all bytes as they are. */
  lemma LinkedBytes(fs: Fs, fs': Fs, x: nat, s: Slot, b: nat)
    requires Sound(fs) && OneSlot(fs, fs', x, s, b) && fs'.bs == fs.bs && |fs'.blocks| == |fs.blocks|
    requires b < |fs'.blocks| && Zeros(fs'.blocks[b])
    requires forall c :: 0 <= c < |fs.blocks| && fs'.blocks[c] != fs.blocks[c] ==>
      forall y, t :: HasSlot(fs, y, t) && IsData(t) ==> At(fs, y, t) != c
    ensures SameBytes(fs, fs')
  {
    hide At, IsUsed, ByteKept, DataSlot;
    forall y, l ensures ByteKept(fs, fs', y, l) {
      if !Mapped(fs, y, l) {
        NotMapped(fs, fs', y, l);
      } else {
        SlotOf(fs, y, l);
        var t := DataSlot(fs, l);
        if y != x || t != s {
          assert SlotKept(fs, fs', y, t);
          BytesKept(fs, fs', y, l);
        } else {
          ZeroByte(fs, fs', x, l, b);
        }
      }
    }
  }

  lemma ZeroByte(fs: Fs, fs': Fs, x: nat, l: nat, b: nat)
    requires Mapped(fs, x, l) && HasSlot(fs', x, DataSlot(fs, l)) && fs'.bs == fs.bs
    requires At(fs, x, DataSlot(fs, l)) == 0 && At(fs', x, DataSlot(fs, l)) == b < |fs'.blocks| && Zeros(fs'.blocks[b])
    ensures ByteKept(fs, fs', x, l)
  {
    hide At, DataSlot;
    SameDataSlot(fs, fs', l);
  }

  function SlotAt(k: nat): Slot
    requires k <= DIND
  {
    if k < NDIR then Direct(k) else if k == IND then Ind else Dind
  }

  function LinkInode(fs: Fs, x: nat, k: nat, b: nat): Fs
    requires x in fs.inodes && k < |fs.inodes[x].iblock|
  {
    fs.(inodes := fs.inodes[x := fs.inodes[x].(iblock := fs.inodes[x].iblock[k := b])])
  }

  lemma ZeroEntry(fs: Fs, b: nat, i: nat)
    requires b < |fs.blocks| && Zeros(fs.blocks[b])
    ensures Entry(fs, b, i) == 0
  {
  }

  /** What a block that may be linked into an empty slot must be. */
  ghost predicate Linkable(fs: Fs, b: nat) {
    b != 0 && fs.first <= b && IsUsed(fs, b) && NoRef(fs, b) && Zeros(fs.blocks[b])
  }

  lemma LinkInodeSlot(fs: Fs, x: nat, k: nat, b: nat, t: Slot)
    requires ShapeOk(fs) && x in fs.inodes && k <= DIND && fs.inodes[x].iblock[k] == 0 && Linkable(fs, b)
    requires t != SlotAt(k) && SlotOk(fs, t)
    ensures SlotKept(fs, LinkInode(fs, x, k, b), x, t)
  {
    hide ShapeOk, NoRef;
    ShapeInode(fs, x);
    var fs' := LinkInode(fs, x, k, b);
    match t
    case Leaf1(i) => ZeroEntry(fs', b, i);
    case Mid(i) => ZeroEntry(fs', b, i);
    case Leaf2(i, j) => ZeroEntry(fs', b, i);
    case _ =>
  }

  lemma ShapeInode(fs: Fs, x: nat)
    requires ShapeOk(fs) && x in fs.inodes
    ensures |fs.inodes[x].iblock| == 15 && forall s :: SlotOk(fs, s) ==> HasSlot(fs, x, s)
  {
  }

  lemma LinkInodeOk(fs: Fs, x: nat, k: nat, b: nat)
    requires Sound(fs) && x in fs.inodes && k <= DIND && fs.inodes[x].iblock[k] == 0 && Linkable(fs, b)
    ensures var fs' := LinkInode(fs, x, k, b); OneSlot(fs, fs', x, SlotAt(k), b) && Sound(fs') && SameBytes(fs, fs')
  {
    hide IsUsed, RefsOk, Unshared, NoRef;
    var fs' := LinkInode(fs, x, k, b);
    ShapeInode(fs, x);
    BelowCount(fs, b);
    assert ShapeOk(fs');
    hide ShapeOk;
    forall y, t | y != x || t != SlotAt(k) ensures SlotKept(fs, fs', y, t) {
      if y == x && SlotOk(fs, t) { LinkInodeSlot(fs, x, k, b, t); } else { OtherInode(fs, x, k, b, y, t); }
    }
    hide SlotKept;
    SameBits(fs, fs');
    OneSound(fs, fs', x, SlotAt(k), b);
    LinkedBytes(fs, fs', x, SlotAt(k), b);
  }

  lemma BelowCount(fs: Fs, b: nat)
    requires ShapeOk(fs) && IsUsed(fs, b)
    ensures b < |fs.blocks| < TWO32
  {
  }

  lemma OtherInode(fs: Fs, x: nat, k: nat, b: nat, y: nat, t: Slot)
    requires ShapeOk(fs) && x in fs.inodes && k <= DIND && (y != x || !SlotOk(fs, t))
    ensures SlotKept(fs, LinkInode(fs, x, k, b), y, t)
  {
    ShapeInode(fs, x);
    hide ShapeOk;
  }

  lemma SameBits(fs: Fs, fs': Fs)
    requires fs'.bits == fs.bits && fs'.first == fs.first && |fs'.blocks| == |fs.blocks|
    ensures StillUsed(fs, fs') && forall b :: IsUsed(fs', b) == IsUsed(fs, b)
  {
  }

  // ----- linking into a pointer block -----

  /** The slot whose number is entry i of the block in pointer slot ps. */
  function Child(ps: Slot, i: nat): Slot
    requires IsPointer(ps)
  {
    if ps.Ind? then Leaf1(i) else if ps.Dind? then Mid(i) else Leaf2(ps.i, i)
  }

  lemma ChildIs(fs: Fs, x: nat, ps: Slot, i: nat)
    requires HasSlot(fs, x, ps) && IsPointer(ps) && i < Ptrs(fs)
    ensures HasSlot(fs, x, Child(ps, i)) && At(fs, x, Child(ps, i)) == Entry(fs, At(fs, x, ps), i)
  {
  }

  function LinkEntry(fs: Fs, p: nat, i: nat, b: nat): Fs
    requires p < |fs.blocks| && 4 * i + 4 <= |fs.blocks[p]| && b < TWO32
  {
    fs.(blocks := fs.blocks[p := Patch(fs.blocks[p], 4 * i, Bytes32(b))])
  }

  lemma EntryAfter(fs: Fs, p: nat, i: nat, b: nat, q: nat, j: nat)
    requires p < |fs.blocks| && 4 * i + 4 <= |fs.blocks[p]| && b < TWO32 && p != 0
    ensures Entry(LinkEntry(fs, p, i, b), q, j) == if q == p && j == i then b else Entry(fs, q, j)
  {
    hide Le32, Bytes32, Patch;
    if q == p {
      if j == i { Read32(fs.blocks[p], 4 * i, b); }
      else if 4 * j + 4 <= |fs.blocks[p]| { Keep32(fs.blocks[p], 4 * i, Bytes32(b), 4 * j); }
    }
  }

  /** Slots of x itself after entry i of its pointer block p has become b. */
  lemma LinkEntrySlot(fs: Fs, x: nat, ps: Slot, i: nat, b: nat, t: Slot)
    requires Sound(fs) && HasSlot(fs, x, ps) && IsPointer(ps) && i < Ptrs(fs) && HasSlot(fs, x, t) && t != Child(ps, i)
    requires At(fs, x, ps) != 0 && At(fs, x, Child(ps, i)) == 0 && Linkable(fs, b)
    ensures PointerOk(fs, x, ps, i) && b < TWO32 && SlotKept(fs, LinkEntry(fs, At(fs, x, ps), i, b), x, t)
  {
    PointerShape(fs, x, ps, i);
    BelowCount(fs, b);
    var p := At(fs, x, ps);
    var fs' := LinkEntry(fs, p, i, b);
    var ib := fs.inodes[x].iblock;
    assert p != b by { assert At(fs, x, ps) != b; }
    OnlyHolder(fs, x, ps, Ind);
    OnlyHolder(fs, x, ps, Dind);
    if t.Leaf2? { OnlyHolder(fs, x, ps, Mid(t.i)); ZeroEntry(fs, b, t.j); }
    hide Sound, Linkable, Entry, LinkEntry;
    assert fs'.inodes == fs.inodes && fs'.bs == fs.bs by { LinkFrame(fs, p, i, b); }
    match t
    case Leaf1(j) => EntryAfter(fs, p, i, b, ib[IND], j);
    case Mid(j) => EntryAfter(fs, p, i, b, ib[DIND], j);
    case Leaf2(j, m) =>
      EntryAfter(fs, p, i, b, ib[DIND], j);
      EntryAfter(fs, p, i, b, Entry(fs, ib[DIND], j), m);
      EntryAfter(fs, p, i, b, b, m);
      NoEntry(fs, m);
    case _ =>
  }

  lemma NoEntry(fs: Fs, m: nat)
    ensures Entry(fs, 0, m) == 0
  {
  }

  lemma LinkFrame(fs: Fs, p: nat, i: nat, b: nat)
    requires p < |fs.blocks| && 4 * i + 4 <= |fs.blocks[p]| && b < TWO32
    ensures var fs' := LinkEntry(fs, p, i, b); fs'.inodes == fs.inodes && fs'.bs == fs.bs && OnlyBlock(fs, fs', p)
  {
  }

  /** The pointer block of ps is a block with room for entry i. */
  predicate PointerOk(fs: Fs, x: nat, ps: Slot, i: nat) {
    HasSlot(fs, x, ps) && At(fs, x, ps) < |fs.blocks| && 4 * i + 4 <= |fs.blocks[At(fs, x, ps)]|
  }

  lemma PointerShape(fs: Fs, x: nat, ps: Slot, i: nat)
    requires Sound(fs) && HasSlot(fs, x, ps) && At(fs, x, ps) != 0 && i < Ptrs(fs)
    ensures PointerOk(fs, x, ps, i)
  {
    hide Unshared;
    assert RefOk(fs, x, ps);
  }

  /** If slot t holds the same block as ps, it is ps. */
  lemma OnlyHolder(fs: Fs, x: nat, ps: Slot, t: Slot)
    requires Sound(fs) && HasSlot(fs, x, ps) && At(fs, x, ps) != 0 && HasSlot(fs, x, t)
    ensures At(fs, x, t) == At(fs, x, ps) ==> t == ps
  {
    hide At, ShapeOk, RefsOk;
    if At(fs, x, t) == At(fs, x, ps) { assert SameRef(fs, x, t, x, ps); }
  }

  lemma PointerElsewhere(fs: Fs, x: nat, ps: Slot, y: nat)
    requires Sound(fs) && HasSlot(fs, x, ps) && At(fs, x, ps) != 0 && y != x
    ensures NoPointer(fs, y, At(fs, x, ps))
  {
    hide At, ShapeOk, RefsOk;
    forall t | HasSlot(fs, y, t) && IsPointer(t)
      ensures At(fs, y, t) != At(fs, x, ps)
    {
      assert !SameRef(fs, y, t, x, ps);
    }
  }

  lemma LinkEntryOk(fs: Fs, x: nat, ps: Slot, i: nat, b: nat)
    requires Sound(fs) && HasSlot(fs, x, ps) && IsPointer(ps) && i < Ptrs(fs)
    requires At(fs, x, ps) != 0 && Entry(fs, At(fs, x, ps), i) == 0 && Linkable(fs, b)
    ensures PointerOk(fs, x, ps, i) && b < TWO32
    ensures var fs' := LinkEntry(fs, At(fs, x, ps), i, b);
            OneSlot(fs, fs', x, Child(ps, i), b) && Sound(fs') && SameBytes(fs, fs')
  {
    PointerShape(fs, x, ps, i);
    BelowCount(fs, b);
    ChildIs(fs, x, ps, i);
    var p, c := At(fs, x, ps), Child(ps, i);
    var fs' := LinkEntry(fs, p, i, b);
    LinkFrame(fs, p, i, b);
    LinkShape(fs, p, i, b);
    LinkEntryChild(fs, x, ps, i, b);
    hide Entry, IsUsed, RefsOk, Unshared, ShapeOk, OnlyBlock;
    forall y, t | y != x || t != c ensures SlotKept(fs, fs', y, t) {
      HasSame(fs, fs', p, y, t);
      if HasSlot(fs, y, t) {
        if y == x {
          LinkEntrySlot(fs, x, ps, i, b, t);
        } else {
          PointerElsewhere(fs, x, ps, y);
          SameAt(fs, fs', p, y, t);
        }
      }
    }
    hide SlotKept, LinkEntry;
    OneSound(fs, fs', x, c, b);
    LinkEntryBytes(fs, fs', x, ps, p, b, c);
  }

  lemma LinkShape(fs: Fs, p: nat, i: nat, b: nat)
    requires ShapeOk(fs) && p < |fs.blocks| && 4 * i + 4 <= |fs.blocks[p]| && b < TWO32
    ensures var fs' := LinkEntry(fs, p, i, b);
            ShapeOk(fs') && StillUsed(fs, fs') && |fs'.blocks| == |fs.blocks| && forall c ::
                IsUsed(fs', c) == IsUsed(fs, c)
  {
  }

  lemma LinkEntryChild(fs: Fs, x: nat, ps: Slot, i: nat, b: nat)
    requires Sound(fs) && HasSlot(fs, x, ps) && IsPointer(ps) && i < Ptrs(fs) && PointerOk(fs, x, ps, i) && b < TWO32
    requires At(fs, x, ps) != 0 && Linkable(fs, b)
    ensures var fs' := LinkEntry(fs, At(fs, x, ps), i, b);
      HasSlot(fs', x, Child(ps, i)) && At(fs', x, Child(ps, i)) == b
  {
    var p := At(fs, x, ps);
    OnlyHolder(fs, x, ps, Dind);
    hide Sound, Linkable, Entry;
    EntryAfter(fs, p, i, b, p, i);
    if ps.Mid? { EntryAfter(fs, p, i, b, fs.inodes[x].iblock[DIND], ps.i); }
  }

  lemma LinkEntryBytes(fs: Fs, fs': Fs, x: nat, ps: Slot, p: nat, b: nat, c: Slot)
    requires Sound(fs) && OneSlot(fs, fs', x, c, b) && OnlyBlock(fs, fs', p) && HasSlot(fs, x, ps) && IsPointer(ps)
    requires At(fs, x, ps) == p != 0 && Linkable(fs, b)
    ensures SameBytes(fs, fs')
  {
    hide At, RefsOk, ShapeOk;
    assert b != p;
    forall q | 0 <= q < |fs.blocks| && fs'.blocks[q] != fs.blocks[q]
      ensures forall y, t :: HasSlot(fs, y, t) && IsData(t) ==> At(fs, y, t) != q
    {
      forall y, t | HasSlot(fs, y, t) && IsData(t) ensures At(fs, y, t) != q { assert !SameRef(fs, y, t, x, ps); }
    }
    hide Unshared, NoRef;
    LinkedBytes(fs, fs', x, c, b);
  }

  // ----- writing a data block -----

  function DataWrite(fs: Fs, b: nat, data: Block): Fs
    requires b < |fs.blocks|
  {
    fs.(blocks := fs.blocks[b := data])
  }

  lemma DataWriteOk(fs: Fs, x: nat, l: nat, data: Block)
    requires Sound(fs) && Mapped(fs, x, l) && At(fs, x, DataSlot(fs, l)) != 0 && |data| == fs.bs
    ensures var b := At(fs, x, DataSlot(fs, l));
            b < |fs.blocks| && var fs' := DataWrite(fs, b, data);
            && Sound(fs') && SameSlots(fs, fs')
            && (forall y, m :: y != x || m != l ==> ByteKept(fs, fs', y, m))
            && Mapped(fs', x, l) && forall k :: 0 <= k < fs.bs ==> ByteIn(fs', x, l, k) == data[k] as int
  {
    var s := DataSlot(fs, l);
    SlotOf(fs, x, l);
    var b := At(fs, x, s);
    var fs' := DataWrite(fs, b, data);
    assert ShapeOk(fs');
    SameBits(fs, fs');
    assert OnlyBlock(fs, fs', b);
    hide At, ShapeOk, IsUsed, DataSlot, OnlyBlock, RefsOk;
    forall y, t ensures SlotKept(fs, fs', y, t) {
      HasSame(fs, fs', b, y, t);
      if HasSlot(fs, y, t) { DataNoPointer(fs, x, s, y); SameAt(fs, fs', b, y, t); }
    }
    SameSound(fs, fs');
    forall y, m | y != x || m != l ensures ByteKept(fs, fs', y, m) { OtherByte(fs, fs', x, l, b, data, y, m); }
    SameDataSlot(fs, fs', l);
    assert SlotKept(fs, fs', x, s);
  }

  lemma OtherByte(fs: Fs, fs': Fs, x: nat, l: nat, b: nat, data: Block, y: nat, m: nat)
    requires Sound(fs) && Mapped(fs, x, l) && HasSlot(fs, x, DataSlot(fs, l)) && At(fs, x, DataSlot(fs, l)) == b != 0
    requires b < |fs.blocks| && fs' == DataWrite(fs, b, data) && SameSlots(fs, fs') && (y != x || m != l)
    ensures ByteKept(fs, fs', y, m)
  {
    hide At, ShapeOk, IsUsed, DataSlot, RefsOk, ByteKept;
    if Mapped(fs, y, m) {
      SlotOf(fs, y, m);
      assert SlotKept(fs, fs', y, DataSlot(fs, m));
      if At(fs, y, DataSlot(fs, m)) == b {
        assert SameRef(fs, x, DataSlot(fs, l), y, DataSlot(fs, m));
        DataSlotInjective(fs, l, m);
        assert false;
      }
      BytesKept(fs, fs', y, m);
    } else {
      NotMapped(fs, fs', y, m);
    }
  }
}
