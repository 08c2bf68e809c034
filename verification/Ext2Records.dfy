/** Directory blocks: variable-length records that tile a block. A record has an inode number,
    its own length, a name length, a type and a name. */
module Ext2Records {

  import opened LeBytes

  const HEAD: nat := 8

  /** One record; ino 0 marks a free slot. */
  datatype Ent = Ent(ino: nat, rec: nat, kind: Byte, name: Block)

  predicate HeadAt(b: Block, off: nat) { off + HEAD <= |b| }

  function InoAt(b: Block, off: nat): nat
    requires HeadAt(b, off)
  {
    Le32(b, off)
  }

  function RecAt(b: Block, off: nat): nat
    requires HeadAt(b, off)
  {
    Le16(b, off + 4)
  }

  function NameLenAt(b: Block, off: nat): (n: nat)
    requires HeadAt(b, off)
    ensures n < 256
  {
    b[off + 6]
  }

  /** The length of a record for a name of n bytes, rounded up to four. */
  function Need(n: nat): (r: nat)
    ensures HEAD + n <= r < HEAD + n + 4
  {
    (HEAD + n + 3) / 4 * 4
  }

  predicate RecOk(b: Block, off: nat, hi: nat) {
    HeadAt(b, off) && Need(NameLenAt(b, off)) <= RecAt(b, off) && off + RecAt(b, off) <= hi <= |b|
  }

  function EntAt(b: Block, off: nat): Ent
    requires HeadAt(b, off) && off + HEAD + NameLenAt(b, off) <= |b|
  {
    Ent(InoAt(b, off), RecAt(b, off), b[off + 7], b[off + HEAD..off + HEAD + NameLenAt(b, off)])
  }

  /** Records tile b[lo..hi] exactly. */
  predicate Span(b: Block, lo: nat, hi: nat)
    requires lo <= hi <= |b|
    decreases hi - lo
  {
    lo == hi || (RecOk(b, lo, hi) && Span(b, lo + RecAt(b, lo), hi))
  }

  /** The records of b[lo..hi]. */
  function List(b: Block, lo: nat, hi: nat): seq<Ent>
    requires lo <= hi <= |b| && Span(b, lo, hi)
    decreases hi - lo
  {
    if lo == hi then [] else [EntAt(b, lo)] + List(b, lo + RecAt(b, lo), hi)
  }

  lemma {:induction false} SpanJoin(b: Block, lo: nat, mid: nat, hi: nat)
    requires lo <= mid <= hi <= |b| && Span(b, lo, mid) && Span(b, mid, hi)
    ensures Span(b, lo, hi) && List(b, lo, hi) == List(b, lo, mid) + List(b, mid, hi)
    decreases mid - lo
  {
    hide EntAt, RecAt, NameLenAt, Need;
    if lo < mid {
      var next := lo + RecAt(b, lo);
      SpanJoin(b, next, mid, hi);
      assert List(b, lo, mid) == [EntAt(b, lo)] + List(b, next, mid);
      assert List(b, lo, hi) == [EntAt(b, lo)] + List(b, next, hi);
    }
  }

  predicate SameIn(b: Block, c: Block, lo: nat, hi: nat) {
    |b| == |c| && lo <= hi <= |b| && forall k :: lo <= k < hi ==> b[k] == c[k]
  }

  lemma SameRecord(b: Block, c: Block, lo: nat, hi: nat)
    requires SameIn(b, c, lo, hi) && lo < hi && RecOk(b, lo, hi)
    ensures RecOk(c, lo, hi) && RecAt(c, lo) == RecAt(b, lo) && EntAt(c, lo) == EntAt(b, lo)
  {
    var n := NameLenAt(b, lo);
    assert b[lo + HEAD..lo + HEAD + n] == c[lo + HEAD..lo + HEAD + n];
  }

  /** Records depend on their own bytes only. */
  lemma {:induction false} SpanFrame(b: Block, c: Block, lo: nat, hi: nat)
    requires SameIn(b, c, lo, hi) && Span(b, lo, hi)
    ensures Span(c, lo, hi) && List(c, lo, hi) == List(b, lo, hi)
    decreases hi - lo
  {
    if lo < hi {
      SameRecord(b, c, lo, hi);
      SpanFrame(b, c, lo + RecAt(b, lo), hi);
    }
  }

  /** A record boundary splits the list. */
  lemma {:induction false} SpanSplit(b: Block, lo: nat, mid: nat, hi: nat)
    requires lo <= mid <= hi <= |b| && Span(b, lo, hi) && Span(b, lo, mid)
    ensures Span(b, mid, hi)
    decreases mid - lo
  {
    if lo < mid { SpanSplit(b, lo + RecAt(b, lo), mid, hi); }
  }

  lemma OneRecord(b: Block, off: nat, hi: nat)
    requires RecOk(b, off, hi) && off + RecAt(b, off) == hi
    ensures Span(b, off, hi) && List(b, off, hi) == [EntAt(b, off)]
  {
  }

  /** The block with the bytes of one region replaced, region by region. */
  lemma Replaced(b: Block, c: Block, lo: nat, hi: nat)
    requires |b| == |c| && lo <= hi <= |b| && Span(b, 0, |b|) && Span(b, 0, lo) && Span(b, lo, hi)
    requires SameIn(b, c, 0, lo) && SameIn(b, c, hi, |b|) && Span(c, lo, hi)
    ensures Span(b, hi, |b|) && Span(c, 0, |c|)
    ensures List(b, 0, |b|) == List(b, 0, lo) + List(b, lo, hi) + List(b, hi, |b|)
    ensures List(c, 0, |c|) == List(b, 0, lo) + List(c, lo, hi) + List(b, hi, |b|)
  {
    hide Span, List;
    SpanSplit(b, 0, lo, |b|);
    SpanSplit(b, lo, hi, |b|);
    SpanFrame(b, c, 0, lo);
    SpanFrame(b, c, hi, |b|);
    SpanJoin(b, lo, hi, |b|);
    SpanJoin(b, 0, lo, |b|);
    SpanJoin(c, lo, hi, |b|);
    SpanJoin(c, 0, lo, |b|);
  }

  // ----- writing records -----

  /** A record head with its name. */
  function RecBytes(ino: nat, rec: nat, kind: Byte, name: Block): (r: Block)
    requires ino < TWO32 && rec < 0x1_0000 && |name| < 256
    ensures |r| == HEAD + |name|
  {
    Bytes32(ino) + Bytes16(rec) + [|name|, kind] + name
  }

  lemma RecWritten(b: Block, off: nat, ino: nat, rec: nat, kind: Byte, name: Block)
    requires ino < TWO32 && rec < 0x1_0000 && |name| < 256 && off + HEAD + |name| <= |b|
    ensures var c := Patch(b, off, RecBytes(ino, rec, kind, name));
            HeadAt(c, off) && NameLenAt(c, off) == |name| && off + HEAD + |name| <= |c| && RecAt(c, off) == rec
                && EntAt(c, off) == Ent(ino, rec, kind, name)
  {
    var r := RecBytes(ino, rec, kind, name);
    var c := Patch(b, off, r);
    Digits32(ino);
    assert forall k :: 0 <= k < |r| ==> c[off + k] == r[k];
    assert c[off] == r[0] && c[off + 1] == r[1] && c[off + 2] == r[2] && c[off + 3] == r[3];
    assert c[off + 4] == r[4] && c[off + 5] == r[5] && c[off + 6] == r[6] && c[off + 7] == r[7];
    assert r[0] == Bytes32(ino)[0] && r[1] == Bytes32(ino)[1] && r[2] == Bytes32(ino)[2] && r[3] == Bytes32(ino)[3];
    assert r[4] == Bytes16(rec)[0] && r[5] == Bytes16(rec)[1];
    assert c[off + HEAD..off + HEAD + |name|] == name;
  }

  // ----- live entries -----

  /** A name in a directory. */
  datatype Link = Link(name: Block, ino: nat, kind: Byte)

  function LinkOf(e: Ent): Link { Link(e.name, e.ino, e.kind) }

  /** The entries in use, in order. */
  function Live(list: seq<Ent>): seq<Link> {
    if list == [] then [] else (if list[0].ino == 0 then [] else [LinkOf(list[0])]) + Live(list[1..])
  }

  lemma {:induction false} LiveJoin(a: seq<Ent>, b: seq<Ent>)
    ensures Live(a + b) == Live(a) + Live(b)
  {
    if a == [] {
      assert a + b == b;
    } else {
      assert (a + b)[1..] == a[1..] + b;
      LiveJoin(a[1..], b);
    }
  }

  lemma LiveOne(e: Ent)
    ensures Live([e]) == if e.ino == 0 then [] else [LinkOf(e)]
  {
    assert [e][1..] == [];
  }

  lemma LiveThree(a: seq<Ent>, b: seq<Ent>, c: seq<Ent>)
    ensures Live(a + b + c) == Live(a) + Live(b) + Live(c)
  {
    LiveJoin(a + b, c);
    LiveJoin(a, b);
  }

  /** A directory block. */
  ghost predicate Tiled(b: Block) { Span(b, 0, |b|) }

  ghost function Links(b: Block): seq<Link>
    requires Tiled(b)
  {
    Live(List(b, 0, |b|))
  }

  lemma MultisetMid<T>(a: seq<T>, x: seq<T>, y: seq<T>, c: seq<T>)
    ensures multiset(a + x + c) + multiset(y) == multiset(a + y + c) + multiset(x)
  {
  }

  lemma Cancel<T>(a: multiset<T>, b: multiset<T>, x: multiset<T>, y: multiset<T>)
    requires a + x == b + (x + y)
    ensures a == b + y
  {
    forall e ensures a[e] == (b + y)[e] { assert (a + x)[e] == (b + (x + y))[e]; }
  }

  /** Replacing one region changes the links by what the region had and has. */
  lemma LinksReplaced(b: Block, c: Block, lo: nat, hi: nat)
    requires |b| == |c| && lo <= hi <= |b| && Tiled(b) && Span(b, 0, lo) && Span(b, lo, hi)
    requires SameIn(b, c, 0, lo) && SameIn(b, c, hi, |b|) && Span(c, lo, hi)
    ensures Tiled(c) && multiset(Links(c)) + multiset(Live(List(b, lo, hi)))
      == multiset(Links(b)) + multiset(Live(List(c, lo, hi)))
  {
    hide Span, List, Live;
    Replaced(b, c, lo, hi);
    LiveThree(List(b, 0, lo), List(b, lo, hi), List(b, hi, |b|));
    LiveThree(List(b, 0, lo), List(c, lo, hi), List(b, hi, |b|));
    MultisetMid(Live(List(b, 0, lo)), Live(List(b, lo, hi)), Live(List(c, lo, hi)), Live(List(b, hi, |b|)));
  }

  // ----- changes to one block -----

  predicate NameOk(name: Block) { |name| < 256 }

  /** A record boundary with a record. */
  ghost predicate Boundary(b: Block, off: nat) { off < |b| && Span(b, 0, off) && RecOk(b, off, |b|) }

  lemma BoundarySpan(b: Block, off: nat)
    requires Boundary(b, off)
    ensures off + RecAt(b, off) <= |b| && Span(b, off, off + RecAt(b, off))
      && List(b, off, off + RecAt(b, off)) == [EntAt(b, off)]
  {
    OneRecord(b, off, off + RecAt(b, off));
  }

  /** The free slot at off becomes an entry, and the rest of it, if large enough, a free slot. */
  function TakeFree(b: Block, off: nat, ino: nat, kind: Byte, name: Block): (c: Block)
    requires RecOk(b, off, |b|) && |b| < 0x1_0000 && ino < TWO32 && NameOk(name) && Need(|name|) <= RecAt(b, off)
  {
    var need, rec := Need(|name|), RecAt(b, off);
    if rec - need >= HEAD then
      Patch(Patch(b, off, RecBytes(ino, need, kind, name)), off + need, RecBytes(0, rec - need, 0, []))
    else
      Patch(b, off, RecBytes(ino, rec, kind, name))
  }

  lemma TakeFreeOk(b: Block, off: nat, ino: nat, kind: Byte, name: Block)
    requires Tiled(b) && Boundary(b, off) && |b| < 0x1_0000 && 0 < ino < TWO32 && NameOk(name)
    requires InoAt(b, off) == 0 && Need(|name|) <= RecAt(b, off)
    ensures var c := TakeFree(b, off, ino, kind, name);
            |c| == |b| && Tiled(c) && multiset(Links(c)) == multiset(Links(b)) + multiset{Link(name, ino, kind)}
  {
    hide Span, List, Live, TakeFree, RecOk, RecAt, InoAt;
    TakeFreeRegion(b, off, ino, kind, name);
    FreeRegion(b, off);
    LinksReplaced(b, TakeFree(b, off, ino, kind, name), off, off + RecAt(b, off));
  }

  lemma FreeRegion(b: Block, off: nat)
    requires Boundary(b, off) && InoAt(b, off) == 0
    ensures var hi := off + RecAt(b, off); hi <= |b| && Span(b, off, hi) && Live(List(b, off, hi)) == []
  {
    BoundarySpan(b, off);
    LiveOne(EntAt(b, off));
  }

  /** c differs from b in lo..hi only, where it has records with these live entries. */
  ghost predicate Region(b: Block, c: Block, lo: nat, hi: nat, links: seq<Link>) {
    && lo <= hi <= |b| == |c| && SameIn(b, c, 0, lo) && SameIn(b, c, hi, |b|)
    && Span(c, lo, hi) && Live(List(c, lo, hi)) == links
  }

  lemma TakeFreeRegion(b: Block, off: nat, ino: nat, kind: Byte, name: Block)
    requires RecOk(b, off, |b|) && |b| < 0x1_0000 && 0 < ino < TWO32 && NameOk(name) && Need(|name|) <= RecAt(b, off)
    ensures Region(b, TakeFree(b, off, ino, kind, name), off, off + RecAt(b, off), [Link(name, ino, kind)])
  {
    hide Span, List, Live, TakeFree, Region;
    if RecAt(b, off) - Need(|name|) >= HEAD {
      TakeSplit(b, off, ino, kind, name);
    } else {
      TakeWhole(b, off, ino, kind, name);
    }
  }

  lemma TakeSplit(b: Block, off: nat, ino: nat, kind: Byte, name: Block)
    requires RecOk(b, off, |b|) && |b| < 0x1_0000 && 0 < ino < TWO32 && NameOk(name)
      && Need(|name|) + HEAD <= RecAt(b, off)
    ensures Region(b, TakeFree(b, off, ino, kind, name), off, off + RecAt(b, off), [Link(name, ino, kind)])
  {
    hide Span, List, Live, RecBytes, Need, Le16, Le32, SameIn;
    NeedNone();
    var need, rec := Need(|name|), RecAt(b, off);
    TwoRecords(b, off, off + rec, need, ino, kind, name, 0, 0, []);
    LiveTwo(Ent(ino, need, kind, name), Ent(0, rec - need, 0, []));
    LiveOne(Ent(ino, need, kind, name));
    LiveOne(Ent(0, rec - need, 0, []));
  }

  lemma TakeWhole(b: Block, off: nat, ino: nat, kind: Byte, name: Block)
    requires RecOk(b, off, |b|) && |b| < 0x1_0000 && 0 < ino < TWO32 && NameOk(name)
      && Need(|name|) <= RecAt(b, off) < Need(|name|) + HEAD
    ensures Region(b, TakeFree(b, off, ino, kind, name), off, off + RecAt(b, off), [Link(name, ino, kind)])
  {
    hide Span, List, Live, RecBytes, Need, Le16, Le32, SameIn;
    NewRecord(b, off, off + RecAt(b, off), ino, kind, name);
    LiveOne(Ent(ino, RecAt(b, off), kind, name));
  }

  lemma LiveTwo(e: Ent, f: Ent)
    ensures Live([e, f]) == Live([e]) + Live([f])
  {
    assert [e, f] == [e] + [f];
    LiveJoin([e], [f]);
  }

  /** A record that fills b[lo..hi]. */
  lemma NewRecord(b: Block, lo: nat, hi: nat, ino: nat, kind: Byte, name: Block)
    requires lo + Need(|name|) <= hi <= |b| < 0x1_0000 && ino < TWO32 && NameOk(name)
    ensures var c := Patch(b, lo, RecBytes(ino, hi - lo, kind, name));
            SameIn(b, c, 0, lo) && SameIn(b, c, hi, |b|) && Span(c, lo, hi)
                && List(c, lo, hi) == [Ent(ino, hi - lo, kind, name)]
  {
    hide RecBytes;
    RecWritten(b, lo, ino, hi - lo, kind, name);
    OneRecord(Patch(b, lo, RecBytes(ino, hi - lo, kind, name)), lo, hi);
  }

  /** Two records that fill b[lo..hi], the first of length len. */
  lemma TwoRecords(b: Block, lo: nat, hi: nat, len: nat, ino: nat, kind: Byte, name: Block, ino': nat, kind': Byte,
      name': Block)
    requires Need(|name|) <= len && lo + len + Need(|name'|) <= hi <= |b| < 0x1_0000
    requires ino < TWO32 && NameOk(name) && ino' < TWO32 && NameOk(name')
    ensures var c := Patch(Patch(b, lo, RecBytes(ino, len, kind, name)), lo + len,
      RecBytes(ino', hi - lo - len, kind', name'));
            SameIn(b, c, 0, lo) && SameIn(b, c, hi, |b|) && Span(c, lo, hi)
            && List(c, lo, hi) == [Ent(ino, len, kind, name), Ent(ino', hi - lo - len, kind', name')]
  {
    hide RecBytes, Span, List, Need;
    var mid := Patch(b, lo, RecBytes(ino, len, kind, name));
    var c := Patch(mid, lo + len, RecBytes(ino', hi - lo - len, kind', name'));
    NewRecord(b, lo, lo + len, ino, kind, name);
    NewRecord(mid, lo + len, hi, ino', kind', name');
    SpanFrame(mid, c, lo, lo + len);
    SpanJoin(c, lo, lo + len, hi);
  }

  lemma NeedNone()
    ensures Need(0) == HEAD
  {
  }

  /** Changing a record's length. */
  lemma RecChanged(b: Block, off: nat, rec: nat)
    requires HeadAt(b, off) && off + HEAD + NameLenAt(b, off) <= |b| && rec < 0x1_0000
    ensures var c := Patch(b, off + 4, Bytes16(rec));
            NameLenAt(c, off) == NameLenAt(b, off) && RecAt(c, off) == rec
                && EntAt(c, off) == EntAt(b, off).(rec := rec)
  {
    hide Le32, Le16, Bytes16;
    var c := Patch(b, off + 4, Bytes16(rec));
    Keep32(b, off + 4, Bytes16(rec), off);
    Read16(b, off + 4, rec);
    assert c[off + 6] == b[off + 6] && c[off + 7] == b[off + 7];
    var n := NameLenAt(b, off);
    assert c[off + HEAD..off + HEAD + n] == b[off + HEAD..off + HEAD + n];
  }

  /** Marking a record free. */
  lemma InoCleared(b: Block, off: nat)
    requires HeadAt(b, off) && off + HEAD + NameLenAt(b, off) <= |b|
    ensures var c := Patch(b, off, Bytes32(0));
            NameLenAt(c, off) == NameLenAt(b, off) && RecAt(c, off) == RecAt(b, off)
                && EntAt(c, off) == EntAt(b, off).(ino := 0)
  {
    hide Le32, Le16, Bytes32;
    var c := Patch(b, off, Bytes32(0));
    Read32(b, off, 0);
    Keep16(b, off, Bytes32(0), off + 4);
    assert c[off + 6] == b[off + 6] && c[off + 7] == b[off + 7];
    var n := NameLenAt(b, off);
    assert c[off + HEAD..off + HEAD + n] == b[off + HEAD..off + HEAD + n];
  }

  /** The last record gives its slack to a new one. */
  function SplitLast(b: Block, off: nat, ino: nat, kind: Byte, name: Block): (c: Block)
    requires RecOk(b, off, |b|) && off + RecAt(b, off) == |b| < 0x1_0000 && ino < TWO32 && NameOk(name)
    requires Need(NameLenAt(b, off)) + Need(|name|) <= RecAt(b, off)
  {
    var used, rec := Need(NameLenAt(b, off)), RecAt(b, off);
    Patch(Patch(b, off + 4, Bytes16(used)), off + used, RecBytes(ino, rec - used, kind, name))
  }

  lemma SplitLastRegion(b: Block, off: nat, ino: nat, kind: Byte, name: Block)
    requires RecOk(b, off, |b|) && off + RecAt(b, off) == |b| < 0x1_0000 && 0 < ino < TWO32 && NameOk(name)
    requires Need(NameLenAt(b, off)) + Need(|name|) <= RecAt(b, off)
    ensures var c := SplitLast(b, off, ino, kind, name);
            |c| == |b| && SameIn(b, c, 0, off) && Span(c, off, |b|)
            && Live(List(c, off, |b|)) == Live([EntAt(b, off)]) + [Link(name, ino, kind)]
  {
    hide RecBytes, Live, Span, List, SplitLast, RecOk, EntAt, RecAt, Need;
    var used, rec := Need(NameLenAt(b, off)), RecAt(b, off);
    SplitLastList(b, off, ino, kind, name);
    LiveTwo(EntAt(b, off).(rec := used), Ent(ino, rec - used, kind, name));
    LiveOne(Ent(ino, rec - used, kind, name));
    LiveOne(EntAt(b, off).(rec := used));
    LiveOne(EntAt(b, off));
  }

  lemma SplitLastList(b: Block, off: nat, ino: nat, kind: Byte, name: Block)
    requires RecOk(b, off, |b|) && off + RecAt(b, off) == |b| < 0x1_0000 && ino < TWO32 && NameOk(name)
    requires Need(NameLenAt(b, off)) + Need(|name|) <= RecAt(b, off)
    ensures var c, used := SplitLast(b, off, ino, kind, name), Need(NameLenAt(b, off));
            |c| == |b| && SameIn(b, c, 0, off) && Span(c, off, |b|)
            && List(c, off, |b|) == [EntAt(b, off).(rec := used), Ent(ino, RecAt(b, off) - used, kind, name)]
  {
    hide RecBytes, Bytes16, Need, Span, List, Le16, Le32;
    var used := Need(NameLenAt(b, off));
    var mid := Patch(b, off + 4, Bytes16(used));
    var c := SplitLast(b, off, ino, kind, name);
    RecChanged(b, off, used);
    NewRecord(mid, off + used, |b|, ino, kind, name);
    SameRecord(mid, c, off, off + used);
    OneRecord(c, off, off + used);
    SpanJoin(c, off, off + used, |b|);
  }

  lemma SplitLastOk(b: Block, off: nat, ino: nat, kind: Byte, name: Block)
    requires Tiled(b) && Boundary(b, off) && off + RecAt(b, off) == |b| < 0x1_0000 && 0 < ino < TWO32 && NameOk(name)
    requires Need(NameLenAt(b, off)) + Need(|name|) <= RecAt(b, off)
    ensures var c := SplitLast(b, off, ino, kind, name);
            |c| == |b| && Tiled(c) && multiset(Links(c)) == multiset(Links(b)) + multiset{Link(name, ino, kind)}
  {
    hide Span, List, Live, SplitLast, RecOk, RecAt, EntAt;
    SplitLastRegion(b, off, ino, kind, name);
    BoundarySpan(b, off);
    LinksReplaced(b, SplitLast(b, off, ino, kind, name), off, |b|);
    var c := SplitLast(b, off, ino, kind, name);
    assert multiset(Live([EntAt(b, off)]) + [Link(name, ino, kind)])
        == multiset(Live([EntAt(b, off)])) + multiset{Link(name, ino, kind)};
    Cancel(multiset(Links(c)), multiset(Links(b)), multiset(Live([EntAt(b, off)])), multiset{Link(name, ino, kind)});
  }

  /** A whole block with one entry. */
  function OnlyEntry(bs: nat, ino: nat, kind: Byte, name: Block): (c: Block)
    requires Need(|name|) <= bs < 0x1_0000 && ino < TWO32 && NameOk(name)
  {
    Patch(seq(bs, _ => 0), 0, RecBytes(ino, bs, kind, name))
  }

  lemma OnlyEntryOk(bs: nat, ino: nat, kind: Byte, name: Block)
    requires Need(|name|) <= bs < 0x1_0000 && 0 < ino < TWO32 && NameOk(name)
    ensures var c := OnlyEntry(bs, ino, kind, name); |c| == bs && Tiled(c) && Links(c) == [Link(name, ino, kind)]
  {
    hide RecBytes, Live, Span, List;
    NewRecord(seq(bs, _ => 0), 0, bs, ino, kind, name);
    LiveOne(Ent(ino, bs, kind, name));
  }

  /** The entry at off, with prev the record before it, is removed. */
  function Unlink(b: Block, off: nat, prev: nat): (c: Block)
    requires RecOk(b, off, |b|) && |b| < 0x1_0000 && (off > 0 ==> RecOk(b, prev, off) && prev + RecAt(b, prev) == off)
  {
    if off == 0 then Patch(b, off, Bytes32(0))
    else Patch(Patch(b, prev + 4, Bytes16(RecAt(b, prev) + RecAt(b, off))), off, Bytes32(0))
  }

  lemma UnlinkFirst(b: Block, prev: nat)
    requires RecOk(b, 0, |b|) && |b| < 0x1_0000
    ensures var c, hi := Unlink(b, 0, prev), RecAt(b, 0);
            |c| == |b| && SameIn(b, c, hi, |b|) && Span(c, 0, hi) && Live(List(c, 0, hi)) == []
  {
    hide Bytes32;
    var c := Unlink(b, 0, prev);
    InoCleared(b, 0);
    OneRecord(c, 0, RecAt(b, 0));
    LiveOne(EntAt(c, 0));
  }

  lemma UnlinkLater(b: Block, off: nat, prev: nat)
    requires off > 0 && RecOk(b, off, |b|) && |b| < 0x1_0000 && RecOk(b, prev, off) && prev + RecAt(b, prev) == off
    ensures var c, hi := Unlink(b, off, prev), off + RecAt(b, off);
            |c| == |b| && SameIn(b, c, 0, prev) && SameIn(b, c, hi, |b|) && Span(c, prev, hi)
                && Live(List(c, prev, hi)) == Live([EntAt(b, prev)])
  {
    hide Bytes32, Bytes16, Le32, Le16, Live;
    var c, hi := Unlink(b, off, prev), off + RecAt(b, off);
    var mid := Patch(b, prev + 4, Bytes16(RecAt(b, prev) + RecAt(b, off)));
    RecChanged(b, prev, RecAt(b, prev) + RecAt(b, off));
    HeadKept(mid, c, prev, off);
    OneRecord(c, prev, hi);
    LiveOne(EntAt(c, prev));
    LiveOne(EntAt(b, prev));
  }

  lemma HeadKept(b: Block, c: Block, off: nat, end: nat)
    requires |b| == |c| && HeadAt(b, off) && off + HEAD + NameLenAt(b, off) <= end <= |b|
      && forall k :: off <= k < end ==> b[k] == c[k]
    ensures NameLenAt(c, off) == NameLenAt(b, off) && RecAt(c, off) == RecAt(b, off) && EntAt(c, off) == EntAt(b, off)
  {
    var n := NameLenAt(b, off);
    assert b[off + HEAD..off + HEAD + n] == c[off + HEAD..off + HEAD + n];
  }

  lemma UnlinkOk(b: Block, off: nat, prev: nat)
    requires Tiled(b) && Boundary(b, off) && |b| < 0x1_0000 && InoAt(b, off) != 0
    requires off > 0 ==> Boundary(b, prev) && prev + RecAt(b, prev) == off
    ensures off > 0 ==> RecOk(b, prev, off)
    ensures var c := Unlink(b, off, prev);
            |c| == |b| && Tiled(c) && multiset(Links(b)) == multiset(Links(c)) + multiset{LinkOf(EntAt(b, off))}
  {
    hide Span, List, Live, Unlink, RecAt, InoAt, EntAt;
    BoundarySpan(b, off);
    var c, hi := Unlink(b, off, prev), off + RecAt(b, off);
    InoIs(b, off);
    LiveOne(EntAt(b, off));
    if off == 0 {
      UnlinkFirst(b, prev);
      SameNone(b, c);
      LinksReplaced(b, c, 0, hi);
    } else {
      BoundarySpan(b, prev);
      UnlinkLater(b, off, prev);
      SpanJoin(b, prev, off, hi);
      LiveTwo(EntAt(b, prev), EntAt(b, off));
      LinksReplaced(b, c, prev, hi);
      var e := LinkOf(EntAt(b, off));
      assert multiset(Live([EntAt(b, prev)]) + [e]) == multiset(Live([EntAt(b, prev)])) + multiset{e};
      assert [EntAt(b, prev)] + [EntAt(b, off)] == [EntAt(b, prev), EntAt(b, off)];
      Cancel(multiset(Links(b)), multiset(Links(c)), multiset(Live([EntAt(b, prev)])), multiset{e});
    }
  }

  lemma InoIs(b: Block, off: nat)
    requires RecOk(b, off, |b|)
    ensures EntAt(b, off).ino == InoAt(b, off)
  {
  }

  lemma SameNone(b: Block, c: Block)
    requires |b| == |c|
    ensures SameIn(b, c, 0, 0) && Span(b, 0, 0)
  {
  }
}
