/** Block bitmap and free counts, and changes that leave every allocated block alone. */
module Ext2Alloc {

  import opened LeBytes
  import opened Ext2Map

  // ----- free counts -----

  /** Number of clear bits in bits[lo..hi]. */
  function Clear(bits: seq<bool>, lo: nat, hi: nat): nat
    requires lo <= hi <= |bits|
    decreases hi
  {
    if lo == hi then 0 else Clear(bits, lo, hi - 1) + if bits[hi - 1] then 0 else 1
  }

  lemma {:induction false} ClearFlip(bits: seq<bool>, lo: nat, hi: nat, k: nat, v: bool)
    requires lo <= hi <= |bits| && k < |bits| && bits[k] != v
    ensures Clear(bits[k := v], lo, hi) == Clear(bits, lo, hi) + if !(lo <= k < hi) then 0 else if v then -1 else 1
    decreases hi
  {
    if lo < hi { ClearFlip(bits, lo, hi - 1, k, v); }
  }

  function Groups(fs: Fs): nat
    requires fs.per > 0
  {
    (|fs.bits| + fs.per - 1) / fs.per
  }

  function GroupEnd(fs: Fs, g: nat): nat { if (g + 1) * fs.per < |fs.bits| then (g + 1) * fs.per else |fs.bits| }

  /** The bits of group g that stand for blocks. */
  function GroupClear(fs: Fs, g: nat): nat
    requires g * fs.per <= GroupEnd(fs, g) <= |fs.bits|
  {
    Clear(fs.bits, g * fs.per, GroupEnd(fs, g))
  }

  predicate GroupOk(fs: Fs, g: nat) { g < |fs.free| && g * fs.per <= GroupEnd(fs, g) <= |fs.bits| }

  ghost predicate CountsShape(fs: Fs) {
    fs.per > 0 && |fs.free| == Groups(fs) && forall g :: 0 <= g < |fs.free| ==> GroupOk(fs, g)
  }

  predicate GroupCounted(fs: Fs, g: nat)
    requires GroupOk(fs, g)
  {
    fs.free[g] == GroupClear(fs, g)
  }

  /** Every group's free count is its number of clear bits. */
  ghost predicate Counted(fs: Fs) {
    CountsShape(fs) && forall g :: 0 <= g < |fs.free| ==> GroupCounted(fs, g)
  }

  /** Bit k becomes v and the count of its group follows. */
  function Flip(fs: Fs, k: nat, v: bool): Fs
    requires fs.per > 0 && k < |fs.bits| && k / fs.per < |fs.free|
  {
    fs.(bits := fs.bits[k := v], free := fs.free[k / fs.per := fs.free[k / fs.per] + if v then -1 else 1])
  }

  lemma GroupOfBit(fs: Fs, k: nat)
    requires CountsShape(fs) && k < |fs.bits|
    ensures k / fs.per < |fs.free|
    ensures forall g :: 0 <= g < |fs.free| ==> (g * fs.per <= k < GroupEnd(fs, g) <==> g == k / fs.per)
  {
    var per, q := fs.per, k / fs.per;
    assert k == per * q + k % per;
    QuotBound(k, |fs.bits|, per);
    forall g | 0 <= g < |fs.free| ensures g * per <= k < GroupEnd(fs, g) <==> g == q {
      GroupSpan(g, q, k, per);
    }
  }

  lemma QuotBound(k: nat, n: nat, per: nat)
    requires k < n && per > 0
    ensures k / per < (n + per - 1) / per
  {
    var q, m := k / per, (n + per - 1) / per;
    assert k == per * q + k % per && n + per - 1 == per * m + (n + per - 1) % per;
    if m <= q {
      MulMono(per, m, q);
      assert false;
    }
  }

  lemma MulMono(p: nat, a: nat, b: nat)
    requires a <= b
    ensures p * a <= p * b
  {
  }

  lemma GroupSpan(g: nat, q: nat, k: nat, per: nat)
    requires per > 0 && q == k / per
    ensures g * per <= k < (g + 1) * per <==> g == q
  {
    assert k == per * q + k % per;
    if g < q { assert (g + 1) * per <= q * per; }
    if g > q { assert g * per >= (q + 1) * per; }
  }

  lemma FlipCounted(fs: Fs, k: nat, v: bool)
    requires Counted(fs) && k < |fs.bits| && fs.bits[k] != v
    ensures k / fs.per < |fs.free| && Counted(Flip(fs, k, v))
  {
    hide GroupOk, GroupCounted, GroupEnd;
    GroupOfBit(fs, k);
    var fs' := Flip(fs, k, v);
    forall g | 0 <= g < |fs'.free| ensures GroupOk(fs', g) && GroupCounted(fs', g) { FlipGroup(fs, k, v, g); }
  }

  lemma FlipGroup(fs: Fs, k: nat, v: bool, g: nat)
    requires fs.per > 0 && k < |fs.bits| && fs.bits[k] != v && k / fs.per < |fs.free| && GroupOk(fs, g)
      && GroupCounted(fs, g)
    requires g * fs.per <= k < GroupEnd(fs, g) <==> g == k / fs.per
    ensures GroupOk(Flip(fs, k, v), g) && GroupCounted(Flip(fs, k, v), g)
  {
    hide Clear;
    assert GroupEnd(Flip(fs, k, v), g) == GroupEnd(fs, g);
    ClearFlip(fs.bits, g * fs.per, GroupEnd(fs, g), k, v);
  }

  // ----- changes outside the allocated blocks -----

  predicate BlockKept(fs: Fs, fs': Fs, b: nat) {
    IsUsed(fs, b) ==> IsUsed(fs', b) && b < |fs'.blocks| && fs'.blocks[b] == fs.blocks[b]
  }

  /** Allocated blocks stay allocated and keep their contents; inodes stay. */
  ghost predicate Quiet(fs: Fs, fs': Fs) {
    && fs'.bs == fs.bs && fs'.first == fs.first && fs'.inodes == fs.inodes && |fs'.blocks| == |fs.blocks|
    && ShapeOk(fs')
    && forall b :: BlockKept(fs, fs', b)
  }

  lemma QuietEntry(fs: Fs, fs': Fs, b: nat, i: nat)
    requires Quiet(fs, fs') && (b == 0 || IsUsed(fs, b))
    ensures Entry(fs', b, i) == Entry(fs, b, i)
  {
    hide ShapeOk;
    assert BlockKept(fs, fs', b);
  }

  lemma QuietAt(fs: Fs, fs': Fs, x: nat, s: Slot)
    requires Sound(fs) && Quiet(fs, fs') && HasSlot(fs, x, s)
    ensures SlotKept(fs, fs', x, s)
  {
    hide ShapeOk, IsUsed, Unshared, Entry;
    assert HasSlot(fs, x, Ind) && RefOk(fs, x, Ind) && HasSlot(fs, x, Dind) && RefOk(fs, x, Dind);
    var ib := fs.inodes[x].iblock;
    match s
    case Leaf1(i) => QuietEntry(fs, fs', ib[IND], i);
    case Mid(i) => QuietEntry(fs, fs', ib[DIND], i);
    case Leaf2(i, j) =>
      assert HasSlot(fs, x, Mid(i)) && RefOk(fs, x, Mid(i));
      QuietEntry(fs, fs', ib[DIND], i);
      QuietEntry(fs, fs', Entry(fs, ib[DIND], i), j);
    case _ =>
  }

  lemma QuietSound(fs: Fs, fs': Fs)
    requires Sound(fs) && Quiet(fs, fs')
    ensures Sound(fs') && SameSlots(fs, fs') && SameBytes(fs, fs')
  {
    hide At, ShapeOk, IsUsed, ByteKept, DataSlot, Unshared;
    forall y, t ensures SlotKept(fs, fs', y, t) { if HasSlot(fs, y, t) { QuietAt(fs, fs', y, t); } }
    assert StillUsed(fs, fs') by { forall b ensures IsUsed(fs, b) ==> IsUsed(fs', b) { assert BlockKept(fs, fs', b); } }
    assert BlockKept(fs, fs', 0);
    SameSound(fs, fs');
    forall y, l ensures ByteKept(fs, fs', y, l) {
      if Mapped(fs, y, l) {
        SlotOf(fs, y, l);
        assert SlotKept(fs, fs', y, DataSlot(fs, l)) && RefOk(fs, y, DataSlot(fs, l));
        assert BlockKept(fs, fs', At(fs, y, DataSlot(fs, l)));
        BytesKept(fs, fs', y, l);
      } else {
        NotMapped(fs, fs', y, l);
      }
    }
  }
}
