/** ext2 directories as finite collections of names over blocks of packed records: find, add,
    remove, and the cookie scan behind readdir. */
module Ext2Dir {
  import opened Prelude
  import opened LeBytes
  import opened Ext2Records
  import C = Ext2Cache
  import F = Ext2Files
  import M = Ext2Map

  predicate BsOk(bs: nat) { 512 <= bs < 0x1_0000 }

  ghost predicate BlockOk(bs: nat, b: Option<Block>) { b.Some? ==> |b.value| == bs && Tiled(b.value) }

  ghost function LinksIn(bs: nat, b: Option<Block>): seq<Link>
    requires BlockOk(bs, b)
  {
    if b.Some? then Links(b.value) else []
  }

  ghost predicate DirOk(bs: nat, blocks: seq<Option<Block>>) {
    BsOk(bs) && forall l :: 0 <= l < |blocks| ==> BlockOk(bs, blocks[l])
  }

  /** Every entry in use, block by block. */
  ghost function AllLinks(bs: nat, blocks: seq<Option<Block>>): seq<Link>
    requires DirOk(bs, blocks)
  {
    if blocks == [] then [] else LinksIn(bs, blocks[0]) + AllLinks(bs, blocks[1..])
  }

  ghost predicate NoName(links: seq<Link>, name: Block) { forall k :: 0 <= k < |links| ==> links[k].name != name }

  ghost predicate HasLink(links: seq<Link>, name: Block, ino: nat) {
    exists k :: 0 <= k < |links| && links[k].name == name && links[k].ino == ino
  }

  lemma {:induction false} AllJoin(bs: nat, a: seq<Option<Block>>, b: seq<Option<Block>>)
    requires DirOk(bs, a) && DirOk(bs, b)
    ensures DirOk(bs, a + b) && AllLinks(bs, a + b) == AllLinks(bs, a) + AllLinks(bs, b)
  {
    if a == [] {
      assert a + b == b;
    } else {
      assert (a + b)[1..] == a[1..] + b;
      AllJoin(bs, a[1..], b);
    }
  }

  lemma FirstOf(bs: nat, blocks: seq<Option<Block>>)
    requires DirOk(bs, blocks) && blocks != []
    ensures AllLinks(bs, blocks) == LinksIn(bs, blocks[0]) + AllLinks(bs, blocks[1..])
  {
  }

  lemma AllAt(bs: nat, blocks: seq<Option<Block>>, l: nat)
    requires DirOk(bs, blocks) && l < |blocks|
    ensures AllLinks(bs, blocks) == AllLinks(bs, blocks[..l]) + LinksIn(bs, blocks[l]) + AllLinks(bs, blocks[l + 1..])
  {
    hide BlockOk, LinksIn;
    assert blocks == blocks[..l] + blocks[l..];
    AllJoin(bs, blocks[..l], blocks[l..]);
    FirstOf(bs, blocks[l..]);
    assert blocks[l..][1..] == blocks[l + 1..];
  }

  /** Replacing one block changes the links by what it had and has. */
  lemma AllReplaced(bs: nat, blocks: seq<Option<Block>>, l: nat, c: Option<Block>)
    requires DirOk(bs, blocks) && l < |blocks| && BlockOk(bs, c)
    ensures var now := blocks[l := c];
            DirOk(bs, now) && multiset(AllLinks(bs, now)) + multiset(LinksIn(bs, blocks[l]))
                == multiset(AllLinks(bs, blocks)) + multiset(LinksIn(bs, c))
  {
    hide BlockOk, LinksIn;
    var now := blocks[l := c];
    AllAt(bs, blocks, l);
    AllAt(bs, now, l);
    assert now[..l] == blocks[..l] && now[l + 1..] == blocks[l + 1..];
    MultisetMid(AllLinks(bs, blocks[..l]), LinksIn(bs, blocks[l]), LinksIn(bs, c), AllLinks(bs, blocks[l + 1..]));
  }

  // ----- inside one block -----

  /** The name test of find and remove. */
  predicate IsEntry(b: Block, off: nat, name: Block)
    requires RecOk(b, off, |b|)
  {
    InoAt(b, off) != 0 && NameLenAt(b, off) == |name| && b[off + HEAD..off + HEAD + |name|] == name
  }

  lemma IsEntryLink(b: Block, off: nat, name: Block)
    requires RecOk(b, off, |b|)
    ensures IsEntry(b, off, name) <==> EntAt(b, off).ino != 0 && EntAt(b, off).name == name
  {
    var n := NameLenAt(b, off);
    if n == |name| { assert b[off + HEAD..off + HEAD + n] == b[off + HEAD..off + HEAD + |name|]; }
    assert |EntAt(b, off).name| == n;
  }

  /** The links before a boundary, one record further. */
  lemma NextRecord(b: Block, off: nat)
    requires Boundary(b, off)
    ensures var next := off + RecAt(b, off);
            next <= |b| && Span(b, 0, next) && Live(List(b, 0, next)) == Live(List(b, 0, off)) + Live([EntAt(b, off)])
                && RecAt(b, off) >= HEAD
  {
    hide Live;
    BoundarySpan(b, off);
    SpanJoin(b, 0, off, off + RecAt(b, off));
    LiveJoin(List(b, 0, off), [EntAt(b, off)]);
  }

  /** In a tiled block, whatever is not the end is a record. */
  lemma AtBoundary(b: Block, off: nat)
    requires Tiled(b) && off < |b| && Span(b, 0, off)
    ensures Boundary(b, off)
  {
    SpanSplit(b, 0, off, |b|);
  }

  /** The first entry of that name. */
  method SearchBlock(b: Block, name: Block) returns (r: Option<nat>)
    requires Tiled(b)
    ensures r.Some? ==> Boundary(b, r.value) && IsEntry(b, r.value, name)
    ensures r.None? ==> NoName(Links(b), name)
  {
    hide Span, List, Live, RecAt, EntAt, IsEntry, RecOk;
    var off := 0;
    SearchStart(b, name);
    while off < |b|
      invariant off <= |b| && Span(b, 0, off) && NoName(Live(List(b, 0, off)), name)
      decreases |b| - off
    {
      AtBoundary(b, off);
      NextRecord(b, off);
      SearchStep(b, off, name);
      if IsEntry(b, off, name) { return Some(off); }
      off := off + RecAt(b, off);
    }
    r := None;
  }

  lemma SearchStart(b: Block, name: Block)
    ensures Span(b, 0, 0) && NoName(Live(List(b, 0, 0)), name)
  {
  }

  lemma SearchStep(b: Block, off: nat, name: Block)
    requires Boundary(b, off) && NoName(Live(List(b, 0, off)), name)
    ensures !IsEntry(b, off, name) ==> NoName(Live(List(b, 0, off)) + Live([EntAt(b, off)]), name)
  {
    IsEntryLink(b, off, name);
    LiveOne(EntAt(b, off));
  }

  /** The record before the one at off. */
  method Previous(b: Block, off: nat) returns (prev: nat)
    requires Boundary(b, off) && Tiled(b)
    ensures off > 0 ==> Boundary(b, prev) && prev + RecAt(b, prev) == off
  {
    prev := 0;
    while prev < off
      invariant prev <= off && (off > 0 ==> prev < off) && Span(b, 0, prev) && Span(b, prev, off)
      decreases off - prev
    {
      PreviousStep(b, prev, off);
      var next := prev + RecAt(b, prev);
      if next == off { return; }
      prev := next;
    }
  }

  lemma PreviousStep(b: Block, prev: nat, off: nat)
    requires Tiled(b) && prev < off <= |b| && Span(b, 0, prev) && Span(b, prev, off)
    ensures Boundary(b, prev) && prev + RecAt(b, prev) <= off && Span(b, 0, prev + RecAt(b, prev))
      && Span(b, prev + RecAt(b, prev), off)
  {
    AtBoundary(b, prev);
    NextRecord(b, prev);
  }

  /** Room for a record of need bytes: a free slot, or slack after the last record. */
  method Room(b: Block, need: nat) returns (free: Option<nat>, last: nat)
    requires Tiled(b) && |b| > 0
    ensures free.Some? ==> Boundary(b, free.value) && InoAt(b, free.value) == 0 && need <= RecAt(b, free.value)
    ensures free.None? ==> Boundary(b, last) && last + RecAt(b, last) == |b| && NoSlot(b, need, |b|)
  {
    hide Span, List, Live, RecAt, InoAt;
    var off := 0;
    last := 0;
    NoSlotYet(b, need);
    SearchStart(b, []);
    while off < |b|
      invariant off <= |b| && Span(b, 0, off) && (off > 0 ==> Boundary(b, last) && last + RecAt(b, last) == off)
        && NoSlot(b, need, off)
      decreases |b| - off
    {
      AtBoundary(b, off);
      NextRecord(b, off);
      NoSlotStep(b, need, off);
      last := off;
      if InoAt(b, off) == 0 && need <= RecAt(b, off) { return Some(off), last; }
      off := off + RecAt(b, off);
    }
    free := None;
  }

  /** No free record before off has need bytes. */
  ghost predicate NoSlot(b: Block, need: nat, off: nat) {
    forall o :: 0 <= o < off && Boundary(b, o) && InoAt(b, o) == 0 ==> RecAt(b, o) < need
  }

  lemma NoSlotYet(b: Block, need: nat)
    ensures NoSlot(b, need, 0)
  {
  }

  lemma NoSlotStep(b: Block, need: nat, off: nat)
    requires Boundary(b, off) && NoSlot(b, need, off)
    ensures !(InoAt(b, off) == 0 && need <= RecAt(b, off)) ==> NoSlot(b, need, off + RecAt(b, off))
  {
    hide RecAt, InoAt;
    forall o | off < o < off + RecAt(b, off) && Boundary(b, o) ensures false { SpanSplit(b, 0, off, o); }
  }

  /** The last record of a block is where it ends. */
  lemma LastIs(b: Block, last: nat, o: nat)
    requires Boundary(b, last) && Boundary(b, o) && last + RecAt(b, last) == |b| == o + RecAt(b, o)
    ensures o == last
  {
    if o < last { SpanSplit(b, 0, o, last); } else if last < o { SpanSplit(b, 0, last, o); }
  }

  /** Neither a free record nor the slack of the last one has need bytes. */
  ghost predicate NoRoom(b: Block, need: nat) {
    && NoSlot(b, need, |b|)
    && forall o :: 0 <= o < |b| && Boundary(b, o) && o + RecAt(b, o) == |b| ==>
        RecAt(b, o) - Need(NameLenAt(b, o)) < need
  }

  lemma SlotFound(b: Block, need: nat, off: nat)
    requires Boundary(b, off) && InoAt(b, off) == 0 && need <= RecAt(b, off)
    ensures !NoSlot(b, need, |b|)
  {
  }

  /** Adds an entry to a block, exactly when there is room. */
  method AddIn(b: Block, name: Block, ino: nat, kind: Byte) returns (r: Option<Block>)
    requires Tiled(b) && HEAD <= |b| < 0x1_0000 && NameOk(name) && 0 < ino < TWO32
    ensures r.Some? ==>
      && |r.value| == |b| && Tiled(r.value)
      && multiset(Links(r.value)) == multiset(Links(b)) + multiset{Link(name, ino, kind)}
    ensures r.None? <==> NoRoom(b, Need(|name|))
  {
    hide Span, List, Live, Tiled, TakeFree, SplitLast, NoSlot;
    var need := Need(|name|);
    var free, last := Room(b, need);
    if free.Some? {
      assert !NoRoom(b, need) by { SlotFound(b, need, free.value); }
      TakeFreeOk(b, free.value, ino, kind, name);
      return Some(TakeFree(b, free.value, ino, kind, name));
    }
    var used := Need(NameLenAt(b, last));
    if RecAt(b, last) - used >= need {
      SplitLastOk(b, last, ino, kind, name);
      return Some(SplitLast(b, last, ino, kind, name));
    }
    forall o | 0 <= o < |b| && Boundary(b, o) && o + RecAt(b, o) == |b| ensures o == last { LastIs(b, last, o); }
    r := None;
  }

  // ----- the directory -----

  class Dir {
    var bs: nat

    /** None is a hole or a block of zeros: neither has records. */
    var blocks: seq<Option<Block>>

    ghost predicate Valid()
      reads this
    {
      DirOk(bs, blocks)
    }

    ghost function Names(): seq<Link>
      requires Valid()
      reads this
    {
      AllLinks(bs, blocks)
    }

    /** Reads logical block l; a block without records is Some(None), and so is a block whose
        pointer block cannot be read. */
    method GetBlock(l: nat, bad: set<nat>) returns (r: Option<Option<Block>>)
      requires l < |blocks|
      ensures r.Some? ==> r.value == Visible(blocks, bad)[l]
    {
      if Hidden(l, bad) { return Some(None); }
      var failed := Chance();
      r := if failed then None else Some(blocks[l]);
    }

    /** Writes logical block l; a failure leaves some sectors new, and a write that the cache drops
        reports success. */
    method PutBlock(l: nat, c: Block, drop: bool) returns (ok: bool)
      requires l < |blocks| && blocks[l].Some? && |blocks[l].value| == |c| == bs
      modifies `blocks
      ensures SameBut(old(blocks), blocks, l)
      ensures ok ==> blocks == if drop then old(blocks) else old(blocks)[l := Some(c)]
    {
      if drop { return true; }
      var failed := Chance();
      if failed {
        var k: nat := *;
        if C.SECTOR * k <= bs { blocks := blocks[l := Some(C.Mixed(blocks[l].value, c, k))]; }
        return false;
      }
      blocks := blocks[l := Some(c)];
      ok := true;
    }

    /** The inode of a name. The blocks in bad are those whose pointer block cannot be read: their
        entries are not found. */
    method Find(name: Block, bad: set<nat>) returns (failed: bool, r: Option<nat>)
      requires Valid()
      ensures !failed && r.Some? ==> HasLink(Names(), name, r.value)
      ensures !failed && r.None? ==> (NoName(Names(), name) <==> NoneHidden(bs, blocks, bad, name))
    {
      hide Tiled, Links, HasLink, InoAt, NoneHidden, DirOk, AllLinks;
      failed, r := false, None;
      ghost var seen := Visible(blocks, bad);
      VisibleOk(bs, blocks, bad);
      var l := 0;
      NoneYet(bs, seen, name);
      while l < |blocks|
        invariant 0 <= l <= |blocks| && DirOk(bs, seen[..l]) && NoName(AllLinks(bs, seen[..l]), name)
      {
        var b := GetBlock(l, bad);
        if b.None? { return true, None; }
        if b.value.Some? {
          SomeBlock(bs, seen, l);
          var off := SearchBlock(b.value.value, name);
          if off.Some? {
            FoundIn(bs, blocks, l, off.value, name);
            return false, Some(InoAt(b.value.value, off.value));
          }
        }
        NotIn(bs, seen, l, name);
        l := l + 1;
      }
      assert seen[..l] == seen;
      NotFoundMeans(bs, blocks, bad, name);
    }

    /** Adds a name. In an existing block the entry is there exactly when the cache has not dropped its
        write; a new block shows what reached it: the entry, zeros, what it held before, or nothing
        when the pointer to it was dropped. A failure leaves all blocks but one as they were. */
    method Add(name: Block, ino: nat, kind: Byte, bad: set<nat>, lost: Lost, stale: Option<Block>)
        returns (ok: bool)
      requires Valid() && NameOk(name) && 0 < ino < TWO32
      modifies `blocks
      ensures ok ==> |blocks| == |old(blocks)| || |blocks| == |old(blocks)| + 1
      ensures ok && |blocks| == |old(blocks)| ==> Valid() && (lost.entry ==> blocks == old(blocks))
      ensures ok && |blocks| == |old(blocks)| ==>
        (multiset(Names()) == multiset(old(Names())) + multiset{Link(name, ino, kind)} <==> !lost.entry)
      ensures ok && |blocks| > |old(blocks)| && !Astray(|old(blocks)|, lost) ==>
        GrewBy(bs, old(blocks), blocks, lost, stale, Link(name, ino, kind))
      ensures ok && !lost.entry && !lost.pointer && !lost.tables ==>
        Valid() && multiset(Names()) == multiset(old(Names())) + multiset{Link(name, ino, kind)}
      ensures !ok ==> OneTorn(old(blocks), blocks)
    {
      hide Tiled, Links, AllLinks, BlockOk, OnlyEntry, GrewBy;
      var full := Chance();
      if full { return false; }
      var l := 0;
      while l < |blocks|
        invariant 0 <= l <= |blocks| && blocks == old(blocks)
      {
        var b := GetBlock(l, bad);
        if b.None? { return false; }
        if b.value.Some? {
          SomeBlock(bs, blocks, l);
          var c := AddIn(b.value.value, name, ino, kind);
          if c.Some? {
            ok := PutBlock(l, c.value, lost.entry);
            if ok && !lost.entry { AddedIn(bs, old(blocks), l, c.value, Link(name, ino, kind)); }
            OneMoreDiffers(multiset(old(Names())), Link(name, ino, kind));
            return;
          }
        }
        l := l + 1;
      }
      var failed := Chance();
      if failed { return false; }
      RoomForName(bs, name);
      ok := true;
      if Astray(l, lost) {
        var any: seq<Option<Block>> := *;
        blocks := if |any| == l + 1 then any else blocks + [None];
        return;
      }
      Grown(bs, blocks, lost, stale, ino, kind, name);
      blocks := blocks + [NewBlock(l, lost, stale, OnlyEntry(bs, ino, kind, name))];
    }

    /** Removes the first visible entry of a name: the names are then the old ones without it, exactly
        when the cache has not dropped the write. A miss changes nothing, and means that the name is
        absent exactly when no block behind an unreadable pointer block has it. */
    method Remove(name: Block, bad: set<nat>, drop: bool) returns (ok: bool, ghost miss: bool, ghost gone: Link)
      requires Valid()
      modifies `blocks
      ensures ok ==> Valid() && gone.name == name && gone in old(Names())
      ensures ok && !drop ==> multiset(old(Names())) == multiset(Names()) + multiset{gone}
      ensures ok && drop ==> blocks == old(blocks)
      ensures miss ==>
        !ok && blocks == old(blocks) && (NoName(Names(), name) <==> NoneHidden(bs, blocks, bad, name))
      ensures !ok ==> OneTorn(old(blocks), blocks)
    {
      hide Tiled, Links, AllLinks, BlockOk, Unlink, NoneHidden, DirOk;
      ok, miss, gone := false, false, Link(name, 0, 0);
      ghost var seen := Visible(blocks, bad);
      VisibleOk(bs, blocks, bad);
      NoneYet(bs, seen, name);
      var l := 0;
      while l < |blocks|
        invariant 0 <= l <= |blocks| && blocks == old(blocks) && !miss
        invariant DirOk(bs, seen[..l]) && NoName(AllLinks(bs, seen[..l]), name)
      {
        var b := GetBlock(l, bad);
        if b.None? { return; }
        if b.value.Some? {
          SomeBlock(bs, blocks, l);
          var off := SearchBlock(b.value.value, name);
          if off.Some? {
            var prev := Previous(b.value.value, off.value);
            IsEntryLink(b.value.value, off.value, name);
            UnlinkOk(b.value.value, off.value, prev);
            gone := LinkOf(EntAt(b.value.value, off.value));
            LinkThere(bs, blocks, l, off.value);
            ok := PutBlock(l, Unlink(b.value.value, off.value, prev), drop);
            if ok && !drop { RemovedFrom(bs, old(blocks), l, Unlink(b.value.value, off.value, prev), gone); }
            return;
          }
        }
        NotIn(bs, seen, l, name);
        l := l + 1;
      }
      assert seen[..l] == seen;
      NotFoundMeans(bs, blocks, bad, name);
      miss := true;
    }

    /** readdir: the first entry in use at or after a cookie that is not in a block behind an unreadable
        pointer block, and the cookie after it. */
    method Scan(cookie: nat, bad: set<nat>) returns (failed: bool, r: Option<(Link, nat)>)
      requires Valid() && CookieOk(bs, blocks, cookie)
      ensures !failed && r.None? ==> HiddenIn(bs, blocks, bad, CookieIndex(bs, blocks, cookie), |Names()|)
      ensures !failed && r.Some? ==> ScanStep(bs, blocks, bad, cookie, r.value.0, r.value.1)
    {
      hide Tiled, AllLinks, BlockOk, DirOk, Span, List, Live, RecAt, InoAt, Need, F.Lblk, F.Boff, CookieOk, ScanStep,
        ScanAt, Follows, HiddenIn, CookieIndex;
      failed, r := false, None;
      DirBs(bs, blocks);
      ScanStart(bs, blocks, bad, cookie);
      var l: nat, start: nat := F.Lblk(bs, cookie), F.Boff(bs, cookie);
      while l < |blocks|
        invariant 0 <= l && 0 <= start && ScanAt(bs, blocks, bad, cookie, l, start)
        decreases |blocks| - l
      {
        var b := GetBlock(l, bad);
        if b.None? { return true, None; }
        if b.value.Some? {
          ScanSpan(bs, blocks, bad, cookie, l, start);
          var off := NextLive(b.value.value, start);
          if off.Some? {
            NextCookie(bs, blocks, bad, cookie, l, start, off.value);
            return false, Some((LinkOf(EntAt(b.value.value, off.value)),
                l * bs + off.value + RecAt(b.value.value, off.value)));
          }
        }
        ScanOn(bs, blocks, bad, cookie, l, start);
        l, start := l + 1, 0;
      }
      ScanEnd(bs, blocks, bad, cookie, l, start);
    }

    /** Repeated scans from cookie 0; scan number i cannot see the blocks in bads(i). They end, and list
        entries in order and at most once each; scan i lists the first one after the last listed that
        it can see. The listing is complete exactly when every scan k sees the block of entry k. */
    method ScanAll(bads: nat -> set<nat>) returns (failed: bool, out: seq<Link>, ghost at: seq<nat>)
      requires Valid()
      ensures !failed ==> Listed(bs, blocks, bads, at) && Picked(Names(), at, out)
      ensures !failed ==> (out == Names() <==> EachSeen(bs, blocks, bads))
    {
      hide DirOk, CookieOk, CookieIndex, AllLinks, HiddenIn, ListedAt, Home;
      out, at := [], [];
      var cookie := 0;
      FirstCookie(bs, blocks);
      while true
        invariant CookieOk(bs, blocks, cookie) && cookie <= |blocks| * bs && Picked(Names(), at, out)
        invariant CookieIndex(bs, blocks, cookie) == Next(at, |at|)
        invariant forall i :: 0 <= i < |at| ==> ListedAt(bs, blocks, bads, at, i)
        decreases |blocks| * bs - cookie
      {
        var r;
        failed, r := Scan(cookie, bads(|out|));
        if failed { return; }
        if r.None? {
          ListedIff(bs, blocks, bads, at, out);
          return;
        }
        ListedMore(bs, blocks, bads, at, cookie, r.value.0, r.value.1);
        out, cookie := out + [r.value.0], r.value.1;
        at := at + [CookieIndex(bs, blocks, cookie) - 1];
      }
    }
  }

  // ----- writes that are lost -----

  /** Which writes of one call the cache drops: that of the entry's block; the zeros of a block added
      to the directory; a pointer on the way to it; and the bitmap, descriptor and pointer-block
      writes on the way. */
  datatype Lost = Lost(entry: bool, zeros: bool, pointer: bool, tables: bool)

  /** The blocks are the same, but for one. */
  ghost predicate OneTorn(blocks: seq<Option<Block>>, now: seq<Option<Block>>) {
    now == blocks || exists l: nat :: SameBut(blocks, now, l)
  }

  ghost predicate SameBut(blocks: seq<Option<Block>>, now: seq<Option<Block>>, l: nat) {
    l < |now| == |blocks| && forall m :: 0 <= m < |now| && m != l ==> now[m] == blocks[m]
  }

  /** The way to logical block l may lead elsewhere: two new blocks can be one, or a pointer block can
      hold old pointers. */
  predicate Astray(l: nat, lost: Lost) { l >= M.NDIR && lost.tables }

  /** What a new logical block l shows that held stale before and is to hold c. */
  function NewBlock(l: nat, lost: Lost, stale: Option<Block>, c: Block): Option<Block> {
    if l >= M.NDIR && lost.pointer then None
    else if !lost.entry then Some(c)
    else if !lost.zeros then None
    else stale
  }

  /** The new block shows the one entry link. */
  ghost predicate Lands(bs: nat, l: nat, lost: Lost, stale: Option<Block>, link: Link) {
    && (l >= M.NDIR ==> !lost.pointer)
    && (lost.entry ==> lost.zeros && BlockOk(bs, stale) && LinksIn(bs, stale) == [link])
  }

  /** The directory has one more block. Its entries are the old ones and those the new block shows,
      which is just the new entry exactly when it lands. */
  ghost predicate GrewBy(bs: nat, blocks: seq<Option<Block>>, now: seq<Option<Block>>, lost: Lost,
      stale: Option<Block>, link: Link)
    requires DirOk(bs, blocks) && NameOk(link.name) && link.ino < TWO32
  {
    RoomForName(bs, link.name);
    var b := NewBlock(|blocks|, lost, stale, OnlyEntry(bs, link.ino, link.kind, link.name));
    && now == blocks + [b]
    && (DirOk(bs, now) <==> BlockOk(bs, b))
    && (DirOk(bs, now) ==> AllLinks(bs, now) == AllLinks(bs, blocks) + LinksIn(bs, b))
    && (DirOk(bs, now) && multiset(AllLinks(bs, now)) == multiset(AllLinks(bs, blocks)) + multiset{link} <==>
        Lands(bs, |blocks|, lost, stale, link))
  }

  lemma Grown(bs: nat, blocks: seq<Option<Block>>, lost: Lost, stale: Option<Block>, ino: nat, kind: Byte, name: Block)
    requires DirOk(bs, blocks) && NameOk(name) && 0 < ino < TWO32 && Need(|name|) <= bs < 0x1_0000
    ensures var now := blocks + [NewBlock(|blocks|, lost, stale, OnlyEntry(bs, ino, kind, name))];
      && GrewBy(bs, blocks, now, lost, stale, Link(name, ino, kind))
      && (!lost.entry && !lost.pointer ==>
          && DirOk(bs, now)
          && multiset(AllLinks(bs, now)) == multiset(AllLinks(bs, blocks)) + multiset{Link(name, ino, kind)})
  {
    OnlyEntryOk(bs, ino, kind, name);
    hide OnlyEntry, Tiled, Links, AllLinks;
    var c, link := OnlyEntry(bs, ino, kind, name), Link(name, ino, kind);
    var b := NewBlock(|blocks|, lost, stale, c);
    OneBlockMore(bs, blocks, b);
    if BlockOk(bs, b) {
      JoinedBy(AllLinks(bs, blocks), LinksIn(bs, b), link);
    }
    assert BlockOk(bs, Some(c)) && LinksIn(bs, Some(c)) == [link];
  }

  lemma OneBlockMore(bs: nat, blocks: seq<Option<Block>>, b: Option<Block>)
    requires DirOk(bs, blocks)
    ensures DirOk(bs, blocks + [b]) <==> BlockOk(bs, b)
    ensures BlockOk(bs, b) ==> AllLinks(bs, blocks + [b]) == AllLinks(bs, blocks) + LinksIn(bs, b)
  {
    hide BlockOk, LinksIn;
    if DirOk(bs, blocks + [b]) { assert (blocks + [b])[|blocks|] == b; }
    if BlockOk(bs, b) {
      var one := [b];
      AllJoin(bs, blocks, one);
      FirstOf(bs, one);
      assert one[1..] == [];
    }
  }

  /** Joining more to a gives a and link exactly when more is link. */
  lemma JoinedBy(a: seq<Link>, more: seq<Link>, link: Link)
    ensures multiset(a + more) == multiset(a) + multiset{link} <==> more == [link]
  {
    if multiset(a + more) == multiset(a) + multiset{link} {
      assert multiset(more) == multiset(a + more) - multiset(a) == multiset{link};
      assert |multiset(more)| == 1;
      assert more[0] in multiset(more);
    }
  }

  lemma OneMoreDiffers(links: multiset<Link>, link: Link)
    ensures links != links + multiset{link}
  {
    assert (links + multiset{link})[link] == links[link] + 1;
  }

  /** A directory of twelve blocks grows by one behind the indirect block: when the write of the pointer
      is dropped, the call succeeds and the entry is in no block. */
  lemma PointerLost(bs: nat, blocks: seq<Option<Block>>, stale: Option<Block>, c: Block)
    requires DirOk(bs, blocks) && |blocks| == 12
    ensures var now := blocks + [NewBlock(12, Lost(false, false, true, false), stale, c)];
      DirOk(bs, now) && AllLinks(bs, now) == AllLinks(bs, blocks)
  {
    OneBlockMore(bs, blocks, None);
  }

  /** When neither the zeros nor the entry reach a new block, the directory shows what it held before. */
  lemma StaleShown(bs: nat, blocks: seq<Option<Block>>, stale: Block, c: Block)
    requires DirOk(bs, blocks) && BlockOk(bs, Some(stale))
    ensures var now := blocks + [NewBlock(|blocks|, Lost(true, true, false, false), Some(stale), c)];
      DirOk(bs, now) && AllLinks(bs, now) == AllLinks(bs, blocks) + Links(stale)
  {
    OneBlockMore(bs, blocks, Some(stale));
  }

  // ----- blocks that cannot be found -----

  /** Logical block l is behind a pointer block that cannot be read. */
  predicate Hidden(l: nat, bad: set<nat>) { l >= M.NDIR && l in bad }

  /** The blocks as a walk sees them: those whose pointer block cannot be read look like holes. */
  function Visible(blocks: seq<Option<Block>>, bad: set<nat>): (r: seq<Option<Block>>)
    ensures |r| == |blocks|
  {
    seq(|blocks|, l requires 0 <= l < |blocks| => if Hidden(l, bad) then None else blocks[l])
  }

  lemma VisibleOk(bs: nat, blocks: seq<Option<Block>>, bad: set<nat>)
    requires DirOk(bs, blocks)
    ensures DirOk(bs, Visible(blocks, bad))
  {
    hide Tiled;
    forall l | 0 <= l < |blocks| ensures BlockOk(bs, Visible(blocks, bad)[l]) { assert BlockOk(bs, blocks[l]); }
  }

  /** No block behind an unreadable pointer block has an entry of that name. */
  ghost predicate NoneHidden(bs: nat, blocks: seq<Option<Block>>, bad: set<nat>, name: Block)
    requires DirOk(bs, blocks)
  {
    forall l :: 0 <= l < |blocks| && Hidden(l, bad) ==> NoName(LinksIn(bs, blocks[l]), name)
  }

  /** A name that is in no visible block is absent exactly when no hidden block has it. */
  lemma NotFoundMeans(bs: nat, blocks: seq<Option<Block>>, bad: set<nat>, name: Block)
    requires DirOk(bs, blocks) && DirOk(bs, Visible(blocks, bad)) && NoName(AllLinks(bs, Visible(blocks, bad)), name)
    ensures NoName(AllLinks(bs, blocks), name) <==> NoneHidden(bs, blocks, bad, name)
  {
    hide LinksIn, BlockOk;
    NamesByBlock(bs, blocks, name);
    NamesByBlock(bs, Visible(blocks, bad), name);
    forall l | 0 <= l < |blocks| && !Hidden(l, bad) ensures NoName(LinksIn(bs, blocks[l]), name) {
      assert Visible(blocks, bad)[l] == blocks[l];
    }
  }

  /** A name is absent exactly when it is absent from every block. */
  lemma {:induction false} NamesByBlock(bs: nat, blocks: seq<Option<Block>>, name: Block)
    requires DirOk(bs, blocks)
    ensures NoName(AllLinks(bs, blocks), name) <==>
      forall l :: 0 <= l < |blocks| ==> NoName(LinksIn(bs, blocks[l]), name)
  {
    hide LinksIn, BlockOk;
    if blocks != [] {
      NamesByBlock(bs, blocks[1..], name);
      var a, b := LinksIn(bs, blocks[0]), AllLinks(bs, blocks[1..]);
      assert AllLinks(bs, blocks) == a + b;
      NoNameJoin(a, b, name);
      forall l | 1 <= l < |blocks| ensures blocks[l] == blocks[1..][l - 1] {}
      if forall l :: 0 <= l < |blocks| ==> NoName(LinksIn(bs, blocks[l]), name) {
        forall l | 0 <= l < |blocks[1..]|
          ensures NoName(LinksIn(bs, blocks[1..][l]), name)
        {
          assert blocks[1..][l] == blocks[l + 1];
        }
      }
    }
  }

  lemma NoNameJoin(a: seq<Link>, b: seq<Link>, name: Block)
    ensures NoName(a + b, name) <==> NoName(a, name) && NoName(b, name)
  {
    if NoName(a + b, name) {
      forall k | 0 <= k < |a| ensures a[k].name != name { assert (a + b)[k] == a[k]; }
      forall k | 0 <= k < |b| ensures b[k].name != name { assert (a + b)[|a| + k] == b[k]; }
    }
  }

  /** Thirteen blocks, the last with one entry: when the first scan cannot read the indirect block, the
      listing ends successfully and is empty. */
  lemma HiddenExample(name: Block, ino: nat, kind: Byte, bads: nat -> set<nat>)
    requires NameOk(name) && 0 < ino < TWO32 && 12 in bads(0)
    ensures var blocks := seq(13, l => if l == 12 then Some(OnlyEntry(512, ino, kind, name)) else None);
      DirOk(512, blocks) && |AllLinks(512, blocks)| == 1 && Listed(512, blocks, bads, [])
  {
    var blocks := seq(13, l => if l == 12 then Some(OnlyEntry(512, ino, kind, name)) else None);
    RoomForName(512, name);
    OnlyEntryOk(512, ino, kind, name);
    hide OnlyEntry, Tiled, Links;
    NoneIn(512, blocks[..12]);
    assert blocks == blocks[..12] + [blocks[12]];
    OneBlockMore(512, blocks[..12], blocks[12]);
    HomeAt(512, blocks, 12, 0);
  }

  lemma {:induction false} NoneIn(bs: nat, blocks: seq<Option<Block>>)
    requires BsOk(bs) && forall l :: 0 <= l < |blocks| ==> blocks[l].None?
    ensures DirOk(bs, blocks) && AllLinks(bs, blocks) == []
  {
    if blocks != [] { NoneIn(bs, blocks[1..]); }
  }

  // ----- where entries are -----

  /** The logical block of entry k. */
  ghost function Home(bs: nat, blocks: seq<Option<Block>>, k: nat): nat
    requires DirOk(bs, blocks) && k < |AllLinks(bs, blocks)|
  {
    var n := |LinksIn(bs, blocks[0])|;
    if k < n then 0 else 1 + Home(bs, blocks[1..], k - n)
  }

  lemma {:induction false} HomeAt(bs: nat, blocks: seq<Option<Block>>, l: nat, k: nat)
    requires DirOk(bs, blocks) && l < |blocks|
    requires var n := |AllLinks(bs, blocks[..l])|; n <= k < n + |LinksIn(bs, blocks[l])|
    ensures k < |AllLinks(bs, blocks)| && Home(bs, blocks, k) == l
    decreases l
  {
    hide BlockOk, LinksIn;
    AllAt(bs, blocks, l);
    if l > 0 {
      FirstOf(bs, blocks[..l]);
      assert blocks[..l][1..] == blocks[1..][..l - 1] && blocks[..l][0] == blocks[0];
      HomeAt(bs, blocks[1..], l - 1, k - |LinksIn(bs, blocks[0])|);
    }
  }

  /** The entries i..j are all in blocks that cannot be found. */
  ghost predicate HiddenIn(bs: nat, blocks: seq<Option<Block>>, bad: set<nat>, i: nat, j: nat)
    requires DirOk(bs, blocks)
  {
    i <= j <= |AllLinks(bs, blocks)| && forall k: nat :: i <= k < j ==> Hidden(Home(bs, blocks, k), bad)
  }

  // ----- what a listing shows -----

  /** Where the scan after i listed entries starts. */
  function Next(at: seq<nat>, i: nat): nat
    requires i <= |at|
  {
    if i == 0 then 0 else at[i - 1] + 1
  }

  /** Scan i lists entry at[i], the first that it sees after entry at[i - 1]. */
  ghost predicate ListedAt(bs: nat, blocks: seq<Option<Block>>, bads: nat -> set<nat>, at: seq<nat>, i: nat)
    requires DirOk(bs, blocks) && i < |at|
  {
    && at[i] < |AllLinks(bs, blocks)| && HiddenIn(bs, blocks, bads(i), Next(at, i), at[i])
    && !Hidden(Home(bs, blocks, at[i]), bads(i))
  }

  /** The entries at are listed, and the last scan sees none. */
  ghost predicate Listed(bs: nat, blocks: seq<Option<Block>>, bads: nat -> set<nat>, at: seq<nat>)
    requires DirOk(bs, blocks)
  {
    && (forall i :: 0 <= i < |at| ==> ListedAt(bs, blocks, bads, at, i))
    && HiddenIn(bs, blocks, bads(|at|), Next(at, |at|), |AllLinks(bs, blocks)|)
  }

  ghost predicate Picked(names: seq<Link>, at: seq<nat>, out: seq<Link>) {
    |out| == |at| && forall i :: 0 <= i < |at| ==> at[i] < |names| && out[i] == names[at[i]]
  }

  /** Scan number k sees the block of entry k. */
  ghost predicate EachSeen(bs: nat, blocks: seq<Option<Block>>, bads: nat -> set<nat>)
    requires DirOk(bs, blocks)
  {
    forall k: nat :: k < |AllLinks(bs, blocks)| ==> !Hidden(Home(bs, blocks, k), bads(k))
  }

  /** A listing is complete exactly when each scan sees its entry. */
  lemma ListedIff(bs: nat, blocks: seq<Option<Block>>, bads: nat -> set<nat>, at: seq<nat>, out: seq<Link>)
    requires DirOk(bs, blocks) && Listed(bs, blocks, bads, at) && Picked(AllLinks(bs, blocks), at, out)
    ensures out == AllLinks(bs, blocks) <==> EachSeen(bs, blocks, bads)
  {
    hide DirOk, Home, AllLinks;
    var names := AllLinks(bs, blocks);
    if EachSeen(bs, blocks, bads) {
      forall i: nat | i < |at| ensures at[i] == i { InStep(bs, blocks, bads, at, i); }
      assert Next(at, |at|) == |at|;
    }
    if out == names {
      forall k: nat | k < |names| ensures !Hidden(Home(bs, blocks, k), bads(k)) {
        Ascending(bs, blocks, bads, at, k);
        assert ListedAt(bs, blocks, bads, at, k);
      }
    }
  }

  lemma {:induction false} InStep(bs: nat, blocks: seq<Option<Block>>, bads: nat -> set<nat>, at: seq<nat>, i: nat)
    requires DirOk(bs, blocks) && Listed(bs, blocks, bads, at) && EachSeen(bs, blocks, bads) && i < |at|
    ensures at[i] == i
  {
    hide DirOk, Home, AllLinks;
    if i > 0 { InStep(bs, blocks, bads, at, i - 1); }
    assert ListedAt(bs, blocks, bads, at, i);
    assert !Hidden(Home(bs, blocks, i), bads(i));
  }

  lemma {:induction false} AtLeast(bs: nat, blocks: seq<Option<Block>>, bads: nat -> set<nat>, at: seq<nat>, i: nat)
    requires DirOk(bs, blocks) && Listed(bs, blocks, bads, at) && i < |at|
    ensures at[i] >= i
  {
    hide DirOk, Home, AllLinks;
    assert ListedAt(bs, blocks, bads, at, i);
    if i > 0 { AtLeast(bs, blocks, bads, at, i - 1); }
  }

  /** As many positions as there are entries, in order: they are all of them. */
  lemma {:induction false} Ascending(bs: nat, blocks: seq<Option<Block>>, bads: nat -> set<nat>, at: seq<nat>, i: nat)
    requires DirOk(bs, blocks) && Listed(bs, blocks, bads, at) && |at| == |AllLinks(bs, blocks)| && i < |at|
    ensures at[i] == i
    decreases |at| - i
  {
    hide DirOk, Home, AllLinks;
    AtLeast(bs, blocks, bads, at, i);
    assert ListedAt(bs, blocks, bads, at, i);
    if i + 1 < |at| {
      Ascending(bs, blocks, bads, at, i + 1);
      assert ListedAt(bs, blocks, bads, at, i + 1);
    }
  }

  lemma ListedMore(bs: nat, blocks: seq<Option<Block>>, bads: nat -> set<nat>, at: seq<nat>, cookie: nat, link: Link,
      c: nat)
    requires DirOk(bs, blocks) && CookieOk(bs, blocks, cookie) && CookieIndex(bs, blocks, cookie) == Next(at, |at|)
    requires forall i :: 0 <= i < |at| ==> ListedAt(bs, blocks, bads, at, i)
    requires ScanStep(bs, blocks, bads(|at|), cookie, link, c)
    ensures CookieOk(bs, blocks, c) && CookieIndex(bs, blocks, c) > 0
    ensures var at' := at + [CookieIndex(bs, blocks, c) - 1];
      && (forall i :: 0 <= i < |at'| ==> ListedAt(bs, blocks, bads, at', i))
      && AllLinks(bs, blocks)[CookieIndex(bs, blocks, c) - 1] == link
  {
    hide DirOk, Home, AllLinks, CookieOk, CookieIndex, HiddenIn;
    var at' := at + [CookieIndex(bs, blocks, c) - 1];
    forall i | 0 <= i < |at'| ensures ListedAt(bs, blocks, bads, at', i) {
      assert Next(at', i) == Next(at, i);
      if i < |at| { assert ListedAt(bs, blocks, bads, at, i); }
    }
  }

  lemma LinkThere(bs: nat, blocks: seq<Option<Block>>, l: nat, off: nat)
    requires DirOk(bs, blocks) && l < |blocks| && blocks[l].Some? && Boundary(blocks[l].value, off)
      && InoAt(blocks[l].value, off) != 0
    ensures LinkOf(EntAt(blocks[l].value, off)) in AllLinks(bs, blocks)
  {
    EntryLinked(blocks[l].value, off);
    AllAt(bs, blocks, l);
    hide Links, AllLinks;
  }

  // ----- cookies -----

  /** off is a record boundary of logical block l. */
  ghost predicate PosOk(bs: nat, blocks: seq<Option<Block>>, l: nat, off: nat) {
    off < bs && (l < |blocks| && blocks[l].Some? ==> off <= |blocks[l].value| && Span(blocks[l].value, 0, off))
  }

  /** How many entries come before record off of block l. */
  ghost function Index(bs: nat, blocks: seq<Option<Block>>, l: nat, off: nat): nat
    requires DirOk(bs, blocks) && PosOk(bs, blocks, l, off)
  {
    if l >= |blocks| then |AllLinks(bs, blocks)|
    else |AllLinks(bs, blocks[..l])| + HeadIn(bs, blocks[l], off)
  }

  ghost function HeadIn(bs: nat, b: Option<Block>, off: nat): nat
    requires BlockOk(bs, b) && off <= bs && (b.Some? ==> Span(b.value, 0, off))
  {
    if b.None? then 0 else |Live(List(b.value, 0, off))|
  }

  ghost predicate CookieOk(bs: nat, blocks: seq<Option<Block>>, c: nat) {
    bs > 0 && PosOk(bs, blocks, F.Lblk(bs, c), F.Boff(bs, c))
  }

  ghost function CookieIndex(bs: nat, blocks: seq<Option<Block>>, c: nat): nat
    requires DirOk(bs, blocks) && CookieOk(bs, blocks, c)
  {
    Index(bs, blocks, F.Lblk(bs, c), F.Boff(bs, c))
  }

  /** The first record in use at or after a boundary. */
  method NextLive(b: Block, start: nat) returns (r: Option<nat>)
    requires Tiled(b) && start <= |b| && Span(b, 0, start) && Span(b, start, |b|)
    ensures r.None? ==> Live(List(b, start, |b|)) == []
    ensures r.Some? ==> Boundary(b, r.value) && start <= r.value && InoAt(b, r.value) != 0
    ensures r.Some? ==> Follows(b, start, r.value)
  {
    hide List, Live, RecAt, InoAt, EntAt;
    var off := start;
    while off < |b|
      invariant start <= off <= |b| && Span(b, 0, off) && Span(b, off, |b|)
        && Live(List(b, start, |b|)) == Live(List(b, off, |b|))
      decreases |b| - off
    {
      AtBoundary(b, off);
      NextRecord(b, off);
      HeadOf(b, off);
      if InoAt(b, off) != 0 { return Some(off); }
      off := off + RecAt(b, off);
    }
    r := None;
    NoRecords(b);
  }

  lemma NoRecords(b: Block)
    ensures Live(List(b, |b|, |b|)) == []
  {
  }

  /** The list from a boundary on starts with the record there. */
  lemma HeadOf(b: Block, off: nat)
    requires Boundary(b, off) && Span(b, off, |b|)
    ensures var next := off + RecAt(b, off);
            && next <= |b| && Span(b, next, |b|)
            && Live(List(b, off, |b|)) == (if InoAt(b, off) == 0 then [] else [LinkOf(EntAt(b, off))])
                + Live(List(b, next, |b|))
  {
    hide Live;
    var next := off + RecAt(b, off);
    assert List(b, off, |b|) == [EntAt(b, off)] + List(b, next, |b|);
    LiveJoin([EntAt(b, off)], List(b, next, |b|));
    LiveOne(EntAt(b, off));
  }

  /** The entries of a block before and after one of its boundaries. */
  lemma BlockSplit(bs: nat, b: Option<Block>, off: nat)
    requires BlockOk(bs, b) && b.Some? && off <= bs && Span(b.value, 0, off)
    ensures Span(b.value, off, bs)
    ensures LinksIn(bs, b) == Live(List(b.value, 0, off)) + Live(List(b.value, off, bs))
  {
    hide Live;
    SpanSplit(b.value, 0, off, bs);
    hide Span, List;
    SpanJoin(b.value, 0, off, bs);
    LiveJoin(List(b.value, 0, off), List(b.value, off, bs));
  }

  /** Block l + 1 starts after the entries of block l. */
  lemma NextStart(bs: nat, blocks: seq<Option<Block>>, l: nat)
    requires DirOk(bs, blocks) && l < |blocks|
    ensures PosOk(bs, blocks, l + 1, 0)
    ensures Index(bs, blocks, l + 1, 0) == |AllLinks(bs, blocks[..l])| + |LinksIn(bs, blocks[l])|
      <= |AllLinks(bs, blocks)|
  {
    AllAt(bs, blocks, l);
    PrefixMore(bs, blocks, l);
    if l + 1 < |blocks| {
      if blocks[l + 1].Some? { SearchStart(blocks[l + 1].value, []); }
      AllAt(bs, blocks, l + 1);
    } else {
      assert blocks[..l + 1] == blocks;
    }
  }

  lemma PrefixMore(bs: nat, blocks: seq<Option<Block>>, l: nat)
    requires DirOk(bs, blocks) && l < |blocks|
    ensures AllLinks(bs, blocks[..l + 1]) == AllLinks(bs, blocks[..l]) + LinksIn(bs, blocks[l])
  {
    hide BlockOk, LinksIn;
    assert blocks[..l + 1] == blocks[..l] + [blocks[l]];
    OneBlockMore(bs, blocks[..l], blocks[l]);
  }

  lemma FirstCookie(bs: nat, blocks: seq<Option<Block>>)
    requires DirOk(bs, blocks)
    ensures CookieOk(bs, blocks, 0) && CookieIndex(bs, blocks, 0) == 0
  {
    CookieAt(bs, 0, 0);
    hide F.Lblk, F.Boff;
    if blocks != [] && blocks[0].Some? { SearchStart(blocks[0].value, []); }
  }

  /** The cookie of a position, or of the start of the next block. */
  lemma CookieAt(bs: nat, l: nat, off: nat)
    requires bs > 0 && off < bs
    ensures F.Lblk(bs, l * bs + off) == l && F.Boff(bs, l * bs + off) == off
  {
    assert l * bs + off == bs * l + off;
    F.Quotient(l * bs + off, bs, l, off);
  }

  lemma CookieOrder(bs: nat, cookie: nat, l: nat, n: nat, start: nat, next: nat)
    requires bs > 0 && l < n && start < next <= bs
    requires l > F.Lblk(bs, cookie) || (l == F.Lblk(bs, cookie) && start == F.Boff(bs, cookie))
    ensures cookie < l * bs + next <= n * bs
  {
    var q := F.Lblk(bs, cookie);
    assert cookie == q * bs + F.Boff(bs, cookie);
    MulStep(q, l, bs);
    MulStep(l, n, bs);
  }

  lemma MulStep(a: nat, b: nat, bs: nat)
    ensures a < b ==> a * bs + bs <= b * bs
  {
    if a < b { assert (a + 1) * bs <= b * bs; }
  }

  /** Position next in block l, the end of the block being the start of the following one. */
  lemma AfterRecord(bs: nat, blocks: seq<Option<Block>>, l: nat, next: nat)
    requires DirOk(bs, blocks) && l < |blocks| && blocks[l].Some? && next <= |blocks[l].value| == bs
    requires Span(blocks[l].value, 0, next)
    ensures CookieOk(bs, blocks, l * bs + next)
    ensures CookieIndex(bs, blocks, l * bs + next) == |AllLinks(bs, blocks[..l])| + HeadIn(bs, blocks[l], next)
  {
    hide Span, List, Live, F.Lblk, F.Boff, AllLinks;
    if next < bs {
      CookieAt(bs, l, next);
    } else {
      CookieAt(bs, l + 1, 0);
      assert l * bs + bs == (l + 1) * bs + 0;
      NextStart(bs, blocks, l);
    }
  }

  /** The record at off of block l is next. */
  ghost predicate StepTo(bs: nat, blocks: seq<Option<Block>>, bad: set<nat>, cookie: nat, l: nat, b: Block, off: nat) {
    RecOk(b, off, |b|) && ScanStep(bs, blocks, bad, cookie, LinkOf(EntAt(b, off)), l * bs + off + RecAt(b, off))
  }

  /** Nothing that can be found is in use between cookie and record start of block l. */
  ghost predicate ScanAt(bs: nat, blocks: seq<Option<Block>>, bad: set<nat>, cookie: nat, l: nat, start: nat) {
    && DirOk(bs, blocks) && CookieOk(bs, blocks, cookie) && PosOk(bs, blocks, l, start)
    && HiddenIn(bs, blocks, bad, CookieIndex(bs, blocks, cookie), Index(bs, blocks, l, start))
    && (l > F.Lblk(bs, cookie) || (l == F.Lblk(bs, cookie) && start == F.Boff(bs, cookie)))
  }

  lemma ScanStart(bs: nat, blocks: seq<Option<Block>>, bad: set<nat>, cookie: nat)
    requires DirOk(bs, blocks) && CookieOk(bs, blocks, cookie)
    ensures ScanAt(bs, blocks, bad, cookie, F.Lblk(bs, cookie), F.Boff(bs, cookie))
  {
    hide F.Lblk, F.Boff;
    IndexBound(bs, blocks, F.Lblk(bs, cookie), F.Boff(bs, cookie));
  }

  lemma IndexBound(bs: nat, blocks: seq<Option<Block>>, l: nat, off: nat)
    requires DirOk(bs, blocks) && PosOk(bs, blocks, l, off)
    ensures Index(bs, blocks, l, off) <= |AllLinks(bs, blocks)|
  {
    if l < |blocks| {
      AllAt(bs, blocks, l);
      if blocks[l].Some? { BlockSplit(bs, blocks[l], off); }
    }
  }

  lemma ScanEnd(bs: nat, blocks: seq<Option<Block>>, bad: set<nat>, cookie: nat, l: nat, start: nat)
    requires ScanAt(bs, blocks, bad, cookie, l, start) && l >= |blocks|
    ensures HiddenIn(bs, blocks, bad, CookieIndex(bs, blocks, cookie), |AllLinks(bs, blocks)|)
  {
    hide HiddenIn, CookieIndex;
  }

  lemma ScanSpan(bs: nat, blocks: seq<Option<Block>>, bad: set<nat>, cookie: nat, l: nat, start: nat)
    requires ScanAt(bs, blocks, bad, cookie, l, start) && l < |blocks| && blocks[l].Some?
    ensures var b := blocks[l].value; |b| == bs && Tiled(b) && start <= |b| && Span(b, 0, start) && Span(b, start, |b|)
  {
    hide HiddenIn, CookieIndex, Index;
    BlockSplit(bs, blocks[l], start);
  }

  /** The entries from record start of block l on are none, or cannot be found. */
  lemma ScanOn(bs: nat, blocks: seq<Option<Block>>, bad: set<nat>, cookie: nat, l: nat, start: nat)
    requires ScanAt(bs, blocks, bad, cookie, l, start) && l < |blocks|
    requires !Hidden(l, bad) && blocks[l].Some? ==>
      start <= |blocks[l].value| && Span(blocks[l].value, start, |blocks[l].value|)
      && Live(List(blocks[l].value, start, |blocks[l].value|)) == []
    ensures ScanAt(bs, blocks, bad, cookie, l + 1, 0)
  {
    hide F.Lblk, F.Boff, CookieOk, CookieIndex, AllLinks, Span, List, Live;
    NextStart(bs, blocks, l);
    if blocks[l].Some? { BlockSplit(bs, blocks[l], start); }
    forall k: nat | Index(bs, blocks, l, start) <= k < Index(bs, blocks, l + 1, 0)
      ensures Hidden(Home(bs, blocks, k), bad)
    {
      HomeAt(bs, blocks, l, k);
    }
  }

  /** Cookie c comes after link, which is the first entry from cookie on that can be found. */
  ghost predicate ScanStep(bs: nat, blocks: seq<Option<Block>>, bad: set<nat>, cookie: nat, link: Link, c: nat) {
    && DirOk(bs, blocks) && CookieOk(bs, blocks, cookie) && CookieOk(bs, blocks, c) && cookie < c <= |blocks| * bs
    && 0 < CookieIndex(bs, blocks, c) <= |AllLinks(bs, blocks)|
    && var k := CookieIndex(bs, blocks, c) - 1;
       && HiddenIn(bs, blocks, bad, CookieIndex(bs, blocks, cookie), k)
       && AllLinks(bs, blocks)[k] == link && !Hidden(Home(bs, blocks, k), bad)
  }

  lemma NextCookie(bs: nat, blocks: seq<Option<Block>>, bad: set<nat>, cookie: nat, l: nat, start: nat, off: nat)
    requires ScanAt(bs, blocks, bad, cookie, l, start) && l < |blocks| && blocks[l].Some? && !Hidden(l, bad)
    requires Boundary(blocks[l].value, off) && start <= off && Follows(blocks[l].value, start, off)
    ensures StepTo(bs, blocks, bad, cookie, l, blocks[l].value, off)
  {
    hide Span, List, Live, F.Lblk, F.Boff, CookieIndex, CookieOk, AllLinks, PosOk, RecAt, EntAt, DirOk, Tiled, HiddenIn;
    var b := blocks[l].value;
    SomeBlock(bs, blocks, l);
    NextRecord(b, off);
    AfterRecord(bs, blocks, l, off + RecAt(b, off));
    CookieOrder(bs, cookie, l, |blocks|, start, off + RecAt(b, off));
    assert l * bs + off + RecAt(b, off) == l * bs + (off + RecAt(b, off));
    EntryIndex(bs, blocks, l, start, off);
    HomeAt(bs, blocks, l, Index(bs, blocks, l, start));
  }

  /** The entry at off is number Index(l, start), and the next one has the next number. */
  lemma EntryIndex(bs: nat, blocks: seq<Option<Block>>, l: nat, start: nat, off: nat)
    requires DirOk(bs, blocks) && l < |blocks| && blocks[l].Some? && PosOk(bs, blocks, l, start)
    requires Boundary(blocks[l].value, off) && start <= off && Follows(blocks[l].value, start, off)
    requires var next := off + RecAt(blocks[l].value, off);
      next <= |blocks[l].value| == bs && Span(blocks[l].value, 0, next)
    ensures HeadIn(bs, blocks[l], off + RecAt(blocks[l].value, off)) == HeadIn(bs, blocks[l], start) + 1
    ensures HeadIn(bs, blocks[l], start) < |LinksIn(bs, blocks[l])|
    ensures var k := Index(bs, blocks, l, start);
      k < |AllLinks(bs, blocks)| && AllLinks(bs, blocks)[k] == LinkOf(EntAt(blocks[l].value, off))
  {
    hide Span, List, Live, AllLinks, RecAt, EntAt;
    BlockSplit(bs, blocks[l], start);
    BlockSplit(bs, blocks[l], off + RecAt(blocks[l].value, off));
    AllAt(bs, blocks, l);
  }

  /** The entry at off is the first one in use from start on. */
  ghost predicate Follows(b: Block, start: nat, off: nat) {
    && start <= |b| && Span(b, start, |b|) && RecOk(b, off, |b|)
    && var next := off + RecAt(b, off);
       Span(b, next, |b|) && Live(List(b, start, |b|)) == [LinkOf(EntAt(b, off))] + Live(List(b, next, |b|))
  }

  lemma DirBs(bs: nat, blocks: seq<Option<Block>>)
    requires DirOk(bs, blocks)
    ensures bs > 0
  {
  }

  lemma SomeBlock(bs: nat, blocks: seq<Option<Block>>, l: nat)
    requires DirOk(bs, blocks) && l < |blocks| && blocks[l].Some?
    ensures |blocks[l].value| == bs && Tiled(blocks[l].value) && HEAD <= bs < 0x1_0000
  {
  }

  lemma RoomForName(bs: nat, name: Block)
    requires BsOk(bs) && NameOk(name)
    ensures Need(|name|) <= bs < 0x1_0000
  {
  }

  lemma AddedIn(bs: nat, blocks: seq<Option<Block>>, l: nat, c: Block, link: Link)
    requires DirOk(bs, blocks) && l < |blocks| && blocks[l].Some? && |c| == bs && Tiled(c) && Tiled(blocks[l].value)
    requires multiset(Links(c)) == multiset(Links(blocks[l].value)) + multiset{link}
    ensures var now := blocks[l := Some(c)];
      DirOk(bs, now) && multiset(AllLinks(bs, now)) == multiset(AllLinks(bs, blocks)) + multiset{link}
  {
    hide Tiled, Links, AllLinks;
    AllReplaced(bs, blocks, l, Some(c));
    Cancel(multiset(AllLinks(bs, blocks[l := Some(c)])), multiset(AllLinks(bs, blocks)),
        multiset(Links(blocks[l].value)), multiset{link});
  }

  lemma RemovedFrom(bs: nat, blocks: seq<Option<Block>>, l: nat, c: Block, link: Link)
    requires DirOk(bs, blocks) && l < |blocks| && blocks[l].Some? && |c| == bs && Tiled(c) && Tiled(blocks[l].value)
    requires multiset(Links(blocks[l].value)) == multiset(Links(c)) + multiset{link}
    ensures var now := blocks[l := Some(c)];
      DirOk(bs, now) && multiset(AllLinks(bs, blocks)) == multiset(AllLinks(bs, now)) + multiset{link}
  {
    hide Tiled, Links, AllLinks;
    AllReplaced(bs, blocks, l, Some(c));
    Cancel(multiset(AllLinks(bs, blocks)), multiset(AllLinks(bs, blocks[l := Some(c)])), multiset(Links(c)),
        multiset{link});
  }

  lemma NoneYet(bs: nat, blocks: seq<Option<Block>>, name: Block)
    requires DirOk(bs, blocks)
    ensures DirOk(bs, blocks[..0]) && NoName(AllLinks(bs, blocks[..0]), name)
  {
  }

  lemma NotIn(bs: nat, blocks: seq<Option<Block>>, l: nat, name: Block)
    requires DirOk(bs, blocks) && l < |blocks| && NoName(AllLinks(bs, blocks[..l]), name)
      && NoName(LinksIn(bs, blocks[l]), name)
    ensures DirOk(bs, blocks[..l + 1]) && NoName(AllLinks(bs, blocks[..l + 1]), name)
  {
    hide BlockOk, LinksIn;
    assert blocks[..l + 1] == blocks[..l] + [blocks[l]];
    AllJoin(bs, blocks[..l], [blocks[l]]);
    var one := [blocks[l]];
    FirstOf(bs, one);
    assert one[1..] == [];
  }

  /** An entry of a block is among the links. */
  lemma EntryLinked(b: Block, off: nat)
    requires Tiled(b) && Boundary(b, off) && InoAt(b, off) != 0
    ensures LinkOf(EntAt(b, off)) in Links(b)
  {
    hide Live;
    NextRecord(b, off);
    LiveOne(EntAt(b, off));
    var next := off + RecAt(b, off);
    hide Span, List;
    SpanSplit(b, 0, next, |b|);
    SpanJoin(b, 0, next, |b|);
    LiveJoin(List(b, 0, next), List(b, next, |b|));
    assert LinkOf(EntAt(b, off)) in Live([EntAt(b, off)]);
  }

  lemma FoundIn(bs: nat, blocks: seq<Option<Block>>, l: nat, off: nat, name: Block)
    requires DirOk(bs, blocks) && l < |blocks| && blocks[l].Some? && Boundary(blocks[l].value, off)
      && IsEntry(blocks[l].value, off, name)
    ensures HasLink(AllLinks(bs, blocks), name, InoAt(blocks[l].value, off))
  {
    var b := blocks[l].value;
    IsEntryLink(b, off, name);
    EntryLinked(b, off);
    AllAt(bs, blocks, l);
    hide Links, AllLinks;
    assert LinkOf(EntAt(b, off)) in AllLinks(bs, blocks);
  }

  // ----- the blocks of a directory file -----

  /** Logical block l of file x is v: zeros, or those bytes. */
  ghost predicate Shows(fs: M.Fs, x: nat, l: nat, v: Option<Block>) {
    && M.Mapped(fs, x, l) && (v.Some? ==> |v.value| == fs.bs)
    && forall k: nat :: k < fs.bs ==> M.ByteIn(fs, x, l, k) == if v.Some? then v.value[k] as int else 0
  }

  /** The first blocks of file x are those. */
  ghost predicate Backs(fs: M.Fs, x: nat, blocks: seq<Option<Block>>) {
    forall l :: 0 <= l < |blocks| ==> Shows(fs, x, l, blocks[l])
  }

  /** The growing step on the blocks of the file system: while no metadata write is dropped, the file
      has one more block, with the entry or, when its write is dropped, with what was there; the blocks
      of every other file are as before. */
  method Grow(e: F.Ext2, x: nat, n: nat, c: Block, drop: bool, ghost blocks: seq<Option<Block>>,
      ghost last: Option<Block>)
      returns (ok: bool)
    requires F.Shaped(e.fs) && (e.clean ==> M.Sound(e.fs)) && x in e.fs.inodes && |c| == e.fs.bs
    requires F.InReach(e.fs.bs, n * e.fs.bs + |c|)
    requires |blocks| == n && Backs(e.fs, x, blocks) && Shows(e.fs, x, n, last)
    modifies e
    ensures F.Shaped(e.fs) && (e.clean ==> M.Sound(e.fs))
    ensures e.clean && ok ==> Backs(e.fs, x, blocks + [if drop then last else Some(c)])
    ensures e.clean && ok ==>
      forall y: nat, l: nat, v :: y != x && Shows(old(e.fs), y, l, v) ==> Shows(e.fs, y, l, v)
  {
    hide M.Sound, F.WroteBut, M.Mapped, M.ByteIn;
    ok := e.WriteData(x, n * e.fs.bs, c, if drop then {n} else {});
    if e.clean && ok {
      GrewShows(old(e.fs), e.fs, x, c, drop, blocks, last);
    }
  }

  lemma GrewShows(fs: M.Fs, fs': M.Fs, x: nat, c: Block, drop: bool, blocks: seq<Option<Block>>, last: Option<Block>)
    requires Backs(fs, x, blocks) && Shows(fs, x, |blocks|, last) && |c| == fs.bs > 0
    requires var n := |blocks|;
      F.WroteBut(fs, fs', x, n * fs.bs, n * fs.bs + |c|, c, if drop then {n} else {})
    ensures Backs(fs', x, blocks + [if drop then last else Some(c)])
    ensures forall y: nat, l: nat, v :: y != x && Shows(fs, y, l, v) ==> Shows(fs', y, l, v)
  {
    hide M.Mapped, M.ByteIn;
    var n, d := |blocks|, if drop then {|blocks|} else {};
    var now := blocks + [if drop then last else Some(c)];
    forall l | 0 <= l <= n ensures Shows(fs', x, l, now[l]) {
      ShowsAfter(fs, fs', x, n, c, d, x, l, if l < n then blocks[l] else last);
    }
    forall y: nat, l: nat, v | y != x && Shows(fs, y, l, v) ensures Shows(fs', y, l, v) {
      ShowsAfter(fs, fs', x, n, c, d, y, l, v);
    }
  }

  lemma ShowsAfter(fs: M.Fs, fs': M.Fs, x: nat, n: nat, c: Block, d: set<nat>, y: nat, l: nat, v: Option<Block>)
    requires |c| == fs.bs > 0 && F.WroteBut(fs, fs', x, n * fs.bs, n * fs.bs + |c|, c, d) && Shows(fs, y, l, v)
    ensures Shows(fs', y, l, if y == x && l == n && n !in d then Some(c) else v)
  {
    hide M.Mapped, M.ByteIn;
    assert F.WroteByte(fs, fs', x, n * fs.bs, n * fs.bs + |c|, c, d, y, l, 0);
    forall k: nat | k < fs.bs
      ensures M.ByteIn(fs', y, l, k) ==
        if y == x && l == n && n !in d then c[k] as int else M.ByteIn(fs, y, l, k)
    {
      assert F.WroteByte(fs, fs', x, n * fs.bs, n * fs.bs + |c|, c, d, y, l, k);
      WhichBlock(fs.bs, n, l, k);
    }
  }

  lemma WhichBlock(bs: nat, n: nat, l: nat, k: nat)
    requires k < bs
    ensures n * bs <= F.Offset(bs, l, k) < n * bs + bs <==> l == n
  {
    MulStep(l, n, bs);
    MulStep(n, l, bs);
  }

  // ----- as a finite map -----

  /** Every name occurs once. */
  ghost predicate IsMap(links: multiset<Link>) {
    forall a, b :: a in links && b in links && a.name == b.name ==> a == b && links[a] == 1
  }

  /** The map holds ino under name. */
  ghost predicate MapsTo(links: multiset<Link>, name: Block, ino: nat) {
    exists a :: a in links && a.name == name && a.ino == ino
  }

  /** Adding an absent name is the map update name := ino. */
  lemma AddIsUpdate(links: multiset<Link>, now: multiset<Link>, link: Link)
    requires IsMap(links) && now == links + multiset{link} && forall a :: a in links ==> a.name != link.name
    ensures IsMap(now)
    ensures forall name, ino :: MapsTo(now, name, ino) <==>
      if name == link.name then ino == link.ino else MapsTo(links, name, ino)
  {
    forall name, ino
      ensures MapsTo(now, name, ino) <==> if name == link.name then ino == link.ino else MapsTo(links, name, ino)
    {
      if MapsTo(links, name, ino) { var a :| a in links && a.name == name && a.ino == ino; assert a in now; }
      if name == link.name && ino == link.ino { assert link in now; }
      if MapsTo(now, name, ino) { var a :| a in now && a.name == name && a.ino == ino; assert a == link || a in links; }
    }
  }

  /** Removing an entry of a name removes that name from the map and no other. */
  lemma RemoveIsDelete(links: multiset<Link>, now: multiset<Link>, gone: Link)
    requires IsMap(links) && links == now + multiset{gone}
    ensures IsMap(now)
    ensures forall name, ino :: MapsTo(now, name, ino) <==> name != gone.name && MapsTo(links, name, ino)
  {
    assert gone in links;
    forall a | a in now ensures a in links && a != gone { assert links[a] == now[a] + multiset{gone}[a]; }
    forall name, ino ensures MapsTo(now, name, ino) <==> name != gone.name && MapsTo(links, name, ino) {
      if name != gone.name && MapsTo(links, name, ino) {
        var a :| a in links && a.name == name && a.ino == ino;
        assert links[a] == now[a] + multiset{gone}[a];
        assert a in now;
      }
    }
  }
}
