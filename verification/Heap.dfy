/** The user heap: a doubly linked list of blocks that tile the memory obtained from sbrk. Headers
    are 48 bytes, payloads are 16-byte aligned, and neighbouring free blocks are merged. */
module Heap {
  const HDR: nat := 48
  const TWO31: nat := 0x8000_0000
  const TWO32: nat := 0x1_0000_0000
  const TWO64: nat := 0x1_0000_0000_0000_0000

  /** A block header; addresses are numbers and 0 is NULL. */
  datatype Header = Header(size: nat, free: bool, next: nat, prev: nat)

  type Headers = map<nat, Header>

  /** ALIGN_UP on size_t. */
  function AlignUp(x: nat): (r: nat)
    ensures r % 16 == 0
  {
    (x + 15) % TWO64 / 16 * 16
  }

  lemma AlignUpIs(x: nat)
    requires x + 15 < TWO64
    ensures x <= AlignUp(x) < x + 16
  {
  }

  // ----- the list tiles the heap -----

  function At(list: seq<nat>, i: int): nat { if 0 <= i < |list| then list[i] else 0 }

  function EndOf(list: seq<nat>, brk: nat, i: int): nat { if 0 <= i < |list| then list[i] else brk }

  /** Block i is linked to its neighbours and ends where the next one starts. */
  predicate NodeOk(h: Headers, list: seq<nat>, start: nat, brk: nat, i: nat)
    requires i < |list|
  {
    && list[i] in h && h[list[i]].size % 16 == 0
    && h[list[i]].next == At(list, i + 1) && h[list[i]].prev == At(list, i - 1)
    && list[i] + HDR + h[list[i]].size == EndOf(list, brk, i + 1)
  }

  ghost predicate Shape(h: Headers, list: seq<nat>, start: nat, brk: nat) {
    && start > 0 && start % 16 == 0 && start == EndOf(list, brk, 0)
    && forall i :: 0 <= i < |list| ==> NodeOk(h, list, start, brk, i)
  }

  /** Blocks follow each other without overlap. */
  lemma {:induction false} Ordered(h: Headers, list: seq<nat>, start: nat, brk: nat, i: nat, j: nat)
    requires Shape(h, list, start, brk) && i < j <= |list|
    ensures list[i] in h && start <= list[i] && list[i] + HDR + h[list[i]].size <= EndOf(list, brk, j)
    decreases j
  {
    assert NodeOk(h, list, start, brk, i);
    if j > i + 1 {
      Ordered(h, list, start, brk, i, j - 1);
      assert NodeOk(h, list, start, brk, j - 1);
    }
    if i > 0 { Ordered(h, list, start, brk, i - 1, i); }
  }

  lemma {:induction false} Aligned16(h: Headers, list: seq<nat>, start: nat, brk: nat, i: nat)
    requires Shape(h, list, start, brk) && i <= |list|
    ensures EndOf(list, brk, i) % 16 == 0
  {
    if i > 0 {
      Aligned16(h, list, start, brk, i - 1);
      assert NodeOk(h, list, start, brk, i - 1);
    }
  }

  lemma Distinct(h: Headers, list: seq<nat>, start: nat, brk: nat, i: nat, j: nat)
    requires Shape(h, list, start, brk) && i < |list| && j < |list| && list[i] == list[j]
    ensures i == j
  {
    if i < j { Ordered(h, list, start, brk, i, j); } else if j < i { Ordered(h, list, start, brk, j, i); }
  }

  // ----- who is in use -----

  predicate Free(h: Headers, list: seq<nat>, i: int) { 0 <= i < |list| && list[i] in h && h[list[i]].free }

  /** p is the payload of block i, which is in use. */
  predicate LiveAt(h: Headers, list: seq<nat>, p: nat, i: nat) {
    i < |list| && list[i] in h && p == list[i] + HDR && !h[list[i]].free
  }

  ghost predicate Live(h: Headers, list: seq<nat>, p: nat) { exists i: nat :: LiveAt(h, list, p, i) }

  function SizeOf(h: Headers, p: nat): nat { if p >= HDR && p - HDR in h then h[p - HDR].size else 0 }

  /** No two neighbours are free, except perhaps block x with its neighbours. */
  ghost predicate Merged(h: Headers, list: seq<nat>, x: int) {
    forall i: nat :: i + 1 < |list| && i != x && i + 1 != x ==> !(Free(h, list, i) && Free(h, list, i + 1))
  }

  /** The blocks in use are the same, but for gone and fresh. */
  ghost predicate SameLive(h: Headers, list: seq<nat>, h': Headers, list': seq<nat>) {
    && (forall p: nat :: Live(h', list', p) <==> Live(h, list, p))
    && (forall p: nat :: Live(h, list, p) ==> SizeOf(h', p) == SizeOf(h, p))
  }

  // ----- changing the flag of a block -----

  function SetFree(h: Headers, a: nat, f: bool): Headers
    requires a in h
  {
    h[a := h[a].(free := f)]
  }

  lemma FlagShape(h: Headers, list: seq<nat>, start: nat, brk: nat, x: nat, f: bool)
    requires Shape(h, list, start, brk) && x < |list|
    ensures list[x] in h && Shape(SetFree(h, list[x], f), list, start, brk)
    ensures forall i: nat :: i < |list| ==>
      Free(SetFree(h, list[x], f), list, i) == if i == x then f else Free(h, list, i)
    ensures forall p: nat :: SizeOf(SetFree(h, list[x], f), p) == SizeOf(h, p)
  {
    assert NodeOk(h, list, start, brk, x);
    var h' := SetFree(h, list[x], f);
    forall i | 0 <= i < |list|
      ensures NodeOk(h', list, start, brk, i) && (Free(h', list, i) == if i == x then f else Free(h, list, i))
    {
      assert NodeOk(h, list, start, brk, i);
      if list[i] == list[x] { Distinct(h, list, start, brk, i, x); }
    }
  }

  // ----- merging block i with its successor -----

  /** The headers after block i has swallowed block i + 1. */
  function Join(h: Headers, list: seq<nat>, i: nat): Headers
    requires i + 1 < |list| && list[i] in h && list[i + 1] in h
  {
    var a, b := list[i], list[i + 1];
    var h1 := h[a := h[a].(size := h[a].size + HDR + h[b].size, next := h[b].next)];
    if h[b].next != 0 && h[b].next in h1 then h1[h[b].next := h1[h[b].next].(prev := a)] else h1
  }

  function Drop(list: seq<nat>, i: nat): seq<nat>
    requires i < |list|
  {
    list[..i] + list[i + 1..]
  }

  lemma JoinShape(h: Headers, list: seq<nat>, start: nat, brk: nat, i: nat)
    requires Shape(h, list, start, brk) && i + 1 < |list|
    ensures list[i] in h && list[i + 1] in h && Shape(Join(h, list, i), Drop(list, i + 1), start, brk)
  {
    assert NodeOk(h, list, start, brk, i) && NodeOk(h, list, start, brk, i + 1);
    var h', list' := Join(h, list, i), Drop(list, i + 1);
    forall k | 0 <= k < |list'| ensures NodeOk(h', list', start, brk, k) { JoinNode(h, list, start, brk, i, k); }
  }

  lemma JoinNode(h: Headers, list: seq<nat>, start: nat, brk: nat, i: nat, k: nat)
    requires Shape(h, list, start, brk) && i + 1 < |list| && k < |list| - 1
    ensures list[i] in h && list[i + 1] in h && NodeOk(Join(h, list, i), Drop(list, i + 1), start, brk, k)
    ensures var a := Drop(list, i + 1)[k];
      a in Join(h, list, i) && (k == i || (a in h && Join(h, list, i)[a].size == h[a].size))
      && Join(h, list, i)[a].free == h[a].free
  {
    assert NodeOk(h, list, start, brk, i) && NodeOk(h, list, start, brk, i + 1);
    var h', list' := Join(h, list, i), Drop(list, i + 1);
    var o := if k <= i then k else k + 1;
    assert list'[k] == list[o];
    assert NodeOk(h, list, start, brk, o);
    if list[o] == list[i] { Distinct(h, list, start, brk, o, i); }
    if i + 2 < |list| {
      assert NodeOk(h, list, start, brk, i + 2);
      Ordered(h, list, start, brk, i, i + 2);
      if list[o] == list[i + 2] { Distinct(h, list, start, brk, o, i + 2); }
      Ordered(h, list, start, brk, i + 1, i + 2);
    }
  }

  /** Where block k of the shorter list comes from. */
  function From(i: nat, k: nat): nat { if k <= i then k else k + 1 }

  lemma JoinFree(h: Headers, list: seq<nat>, start: nat, brk: nat, i: nat)
    requires Shape(h, list, start, brk) && i + 1 < |list|
    ensures list[i] in h && list[i + 1] in h
    ensures forall k: nat :: k < |list| - 1 ==>
      Free(Join(h, list, i), Drop(list, i + 1), k) == Free(h, list, From(i, k))
  {
    assert NodeOk(h, list, start, brk, i) && NodeOk(h, list, start, brk, i + 1);
    var h', list' := Join(h, list, i), Drop(list, i + 1);
    forall k: nat | k < |list'| ensures Free(h', list', k) == Free(h, list, From(i, k)) {
      JoinNode(h, list, start, brk, i, k);
      assert list'[k] == list[From(i, k)] && NodeOk(h, list, start, brk, From(i, k));
    }
  }

  /** Joining two free blocks changes no block in use. */
  lemma JoinLive(h: Headers, list: seq<nat>, start: nat, brk: nat, i: nat)
    requires Shape(h, list, start, brk) && Free(h, list, i) && Free(h, list, i + 1)
    ensures SameLive(h, list, Join(h, list, i), Drop(list, i + 1))
  {
    JoinShape(h, list, start, brk, i);
    JoinFree(h, list, start, brk, i);
    var h', list' := Join(h, list, i), Drop(list, i + 1);
    forall p: nat ensures Live(h', list', p) <==> Live(h, list, p) {
      JoinKeeps(h, list, start, brk, i, p);
      JoinBrings(h, list, start, brk, i, p);
    }
    forall p: nat | Live(h, list, p) ensures SizeOf(h', p) == SizeOf(h, p) { JoinKeeps(h, list, start, brk, i, p); }
  }

  lemma JoinKeeps(h: Headers, list: seq<nat>, start: nat, brk: nat, i: nat, p: nat)
    requires Shape(h, list, start, brk) && Free(h, list, i) && Free(h, list, i + 1)
    ensures Live(h, list, p) ==>
      Live(Join(h, list, i), Drop(list, i + 1), p) && SizeOf(Join(h, list, i), p) == SizeOf(h, p)
  {
    var h', list' := Join(h, list, i), Drop(list, i + 1);
    if Live(h, list, p) {
      var o: nat :| LiveAt(h, list, p, o);
      var k: nat := if o <= i then o else o - 1;
      JoinNode(h, list, start, brk, i, k);
      assert list'[k] == list[o];
      assert LiveAt(h', list', p, k);
    }
  }

  lemma JoinBrings(h: Headers, list: seq<nat>, start: nat, brk: nat, i: nat, p: nat)
    requires Shape(h, list, start, brk) && Free(h, list, i) && Free(h, list, i + 1)
    ensures Live(Join(h, list, i), Drop(list, i + 1), p) ==> Live(h, list, p)
  {
    var h', list' := Join(h, list, i), Drop(list, i + 1);
    if Live(h', list', p) {
      var k: nat :| LiveAt(h', list', p, k);
      JoinNode(h, list, start, brk, i, k);
      var o := From(i, k);
      assert list'[k] == list[o] && NodeOk(h, list, start, brk, o);
      assert LiveAt(h, list, p, o);
    }
  }

  lemma JoinMerged(h: Headers, list: seq<nat>, start: nat, brk: nat, i: nat, x: int)
    requires Shape(h, list, start, brk) && i + 1 < |list| && Merged(h, list, x) && (x == i || x == i + 1)
    ensures list[i] in h && list[i + 1] in h && Merged(Join(h, list, i), Drop(list, i + 1), i)
  {
    JoinFree(h, list, start, brk, i);
    var h', list' := Join(h, list, i), Drop(list, i + 1);
    forall k: nat | k + 1 < |list'| && k != i && k + 1 != i ensures !(Free(h', list', k) && Free(h', list', k + 1)) {
      assert From(i, k + 1) == From(i, k) + 1;
      assert !(Free(h, list, From(i, k)) && Free(h, list, From(i, k) + 1));
    }
  }

  lemma SameLiveTwice(h: Headers, list: seq<nat>, h1: Headers, list1: seq<nat>, h2: Headers, list2: seq<nat>)
    requires SameLive(h, list, h1, list1) && SameLive(h1, list1, h2, list2)
    ensures SameLive(h, list, h2, list2)
  {
    hide Live;
  }

  // ----- the allocator -----

  /** What grow_heap asks of sbrk for a block of need bytes. */
  function TotalFor(need: nat): (r: nat)
    ensures r % 16 == 0
  {
    AlignUp((need + HDR) % TWO64)
  }

  /** The kernel takes the request as an int: its low 32 bits, with their sign. */
  function Delta(total: nat): int {
    var low := total % TWO32;
    if low < TWO31 then low else low - TWO32
  }

  /** Where a request puts the break. */
  function NewBreak(brk: nat, total: nat): nat { (brk + Delta(total)) % TWO64 }

  /** The bytes that a block for n bytes takes up with its header. */
  function Span(n: nat): nat { (n + 15) / 16 * 16 + HDR }

  /** Requests for which the kernel moves the break by the whole block: those that end within 64 bits
      and are the same number after the conversion to int. */
  predicate Served(brk: nat, n: nat) {
    brk + Span(n) < TWO64 && (Span(n) < TWO31 || Span(n) >= TWO64 - TWO31)
  }

  class Allocator {
    const start: nat
    var h: Headers
    var head: nat
    var tail: nat
    var brk: nat
    var mem: map<nat, int>
    ghost var list: seq<nat>

    /** Where the last block ends, by its header. */
    ghost var end: nat

    /** The blocks are linked, merged, and follow each other up to end. */
    ghost predicate Linked()
      reads this
    {
      Shape(h, list, start, end) && Merged(h, list, -1) && head == At(list, 0) && tail == At(list, |list| - 1)
    }

    /** Moreover the last block ends at the break: the blocks tile the heap. */
    ghost predicate Valid()
      reads this
    {
      Linked() && end == brk < TWO64
    }

    /** The heap before the first call: no block yet. */
    constructor (at: nat)
      requires 0 < at < TWO64 && at % 16 == 0
      ensures Valid() && list == []
    {
      start, brk := at, at;
      h, mem := map[], map[];
      head, tail := 0, 0;
      list := [];
      end := at;
    }

    /** sbrk: moves the break by the request as an int and returns where it was, or -1 when the break
        would fall below the start of the heap. */
    method Sbrk(total: nat) returns (r: int)
      requires brk < TWO64
      modifies `brk
      ensures brk < TWO64
      ensures if NewBreak(old(brk), total) < start then r == -1 && brk == old(brk)
              else r == old(brk) && brk == NewBreak(old(brk), total)
    {
      if (brk + Delta(total)) % TWO64 < start { return -1; }
      r := brk;
      brk := (brk + Delta(total)) % TWO64;
    }

    /** Gets memory for a block from sbrk. The new block ends at the break if and only if the kernel
        moved the break by all of it. */
    method GrowHeap(need: nat) returns (b: nat)
      requires Valid() && need % 16 == 0 && need < TWO64
      modifies this
      ensures mem == old(mem) && brk < TWO64 && (b == 0 ==> h == old(h) && list == old(list) && Valid())
      ensures b == 0 <==> NewBreak(old(brk), TotalFor(need)) < start
      ensures b != 0 ==> list == old(list) + [b] && b in h && h[b].size == need && Flags(old(h), old(list), h, list)
      ensures b != 0 ==>
        Shape(h, list, start, end) && SameLive(old(h), old(list), h, list) && head == At(list, 0) && tail == b
      ensures b != 0 ==> (end == brk <==> Served(old(brk), need))
    {
      hide NewBreak, Served, TotalFor;
      var total := AlignUp((need + HDR) % TWO64);
      TotalIs(need);
      BreakAbove(h, list, start, brk);
      GrownShape(h, list, start, brk, need);
      BreakMoves(brk, need);
      var p := Sbrk(total);
      if p == -1 { return 0; }
      b := p;
      h := h[b := Header((total - HDR) % TWO64, true, 0, tail)];
      if tail != 0 { h := h[tail := h[tail].(next := b)]; } else { head := b; }
      tail := b;
      list := list + [b];
      end := b + HDR + need;
    }

    /** malloc: the first free block that is large enough, or a new one. A new block is large enough
        and leaves the heap tiled if and only if the kernel serves the whole request, and then there
        always is a block. */
    method Malloc(n: nat) returns (p: nat, ghost grown: bool)
      requires Valid() && n < TWO64
      modifies this
      ensures Linked() && mem == old(mem) && (n == 0 ==> p == 0)
      ensures p == 0 ==> Valid() && SameLive(old(h), old(list), h, list)
      ensures p != 0 ==> p % 16 == 0 && OneMore(old(h), old(list), h, list, p)
      ensures p != 0 && !grown ==> Valid() && AlignUp(n) <= SizeOf(h, p)
      ensures p != 0 && grown ==> SizeOf(h, p) == AlignUp(n) && (Valid() <==> Served(old(brk), AlignUp(n)))
      ensures p != 0 && grown ==> (Valid() && n <= SizeOf(h, p) <==> Served(old(brk), n))
      ensures n > 0 && Served(old(brk), n) ==> p != 0 && Valid() && n <= SizeOf(h, p)
    {
      hide Shape, Merged, SameLive, NodeOk, AlignUp, OneMore, Served, NewBreak, TotalFor;
      SameLiveSelf(h, list);
      grown := false;
      if n == 0 { return 0, false; }
      var need := AlignUp(n);
      NeedIs(brk, n);
      var b := head;
      ghost var i := 0;
      while b != 0
        invariant 0 <= i <= |list| && b == At(list, i) && Valid()
        invariant h == old(h) && list == old(list) && mem == old(mem) && brk == old(brk)
        decreases |list| - i
      {
        Block(h, list, start, end, i);
        if h[b].free && h[b].size >= need {
          MergedAny(h, list, i);
          Taken(h, list, start, end, i);
          h := SetFree(h, b, false);
          return b + HDR, false;
        }
        b, i := h[b].next, i + 1;
      }
      BreakAbove(h, list, start, brk);
      if Served(brk, need) { ServedMoves(brk, start, need); }
      b := GrowHeap(need);
      if b == 0 { return 0, false; }
      grown := true;
      GrownMerged(old(h), old(list), h, list);
      Taken(h, list, start, end, |list| - 1);
      OneMoreAfter(old(h), old(list), h, list, SetFree(h, b, false), list, b + HDR);
      h := SetFree(h, b, false);
      p := b + HDR;
    }

    /** Block b = list[i] swallows the free block after it. */
    method Swallow(b: nat, ghost i: nat)
      requires Shape(h, list, start, end) && Merged(h, list, i) && i + 1 < |list| && b == list[i] && Free(h, list, i)
        && Free(h, list, i + 1)
      modifies this`h, this`list
      ensures Shape(h, list, start, end) && Merged(h, list, i) && |list| == |old(list)| - 1 && i < |list|
        && list[i] == b && Free(h, list, i)
      ensures SameLive(old(h), old(list), h, list)
      ensures i > 0 ==> list[i - 1] == old(list)[i - 1]
      ensures At(list, 0) == At(old(list), 0) && (i + 1 < |list| ==>
        At(list, |list| - 1) == At(old(list), |old(list)| - 1))
    {
      hide Shape, Merged, SameLive, NodeOk;
      Neighbours(h, list, start, end, i);
      JoinShape(h, list, start, end, i);
      JoinMerged(h, list, start, end, i, i);
      JoinLive(h, list, start, end, i);
      JoinFree(h, list, start, end, i);
      var next := h[b].next;
      ghost var joined := Join(h, list, i);
      h := h[b := h[b].(size := h[b].size + HDR + h[next].size)];
      h := h[b := h[b].(next := h[next].next)];
      if h[b].next != 0 { h := h[h[b].next := h[h[b].next].(prev := b)]; }
      assert h == joined;
      list := Drop(list, i + 1);
      assert Free(h, list, i);
    }

    /** The merging with the blocks after b = list[i]. */
    method MergeNext(b: nat, ghost i: nat)
      requires Shape(h, list, start, end) && Merged(h, list, i) && i < |list| && b == list[i] && Free(h, list, i)
      requires head == At(list, 0) && tail == At(list, |list| - 1)
      modifies this`h, this`list
      ensures Shape(h, list, start, end) && Merged(h, list, i) && i < |list| && b == list[i] && Free(h, list, i)
      ensures head == At(list, 0) && (i + 1 < |list| ==> tail == At(list, |list| - 1)) && !Free(h, list, i + 1)
      ensures SameLive(old(h), old(list), h, list)
    {
      hide Shape, Merged, SameLive, NodeOk;
      SameLiveSelf(h, list);
      Neighbours(h, list, start, end, i);
      while h[b].next != 0 && h[h[b].next].free
        invariant Shape(h, list, start, end) && Merged(h, list, i) && i < |list| && b == list[i] && Free(h, list, i)
          && SameLive(old(h), old(list), h, list)
        invariant Around(h, list, i) && head == At(list, 0) && (i + 1 < |list| ==> tail == At(list, |list| - 1))
        decreases |list|
      {
        ghost var h2, list2 := h, list;
        Swallow(b, i);
        SameLiveTwice(old(h), old(list), h2, list2, h, list);
        Neighbours(h, list, start, end, i);
      }
    }

    /** The merging with the block before b = list[i]. */
    method MergePrev(b: nat, ghost i: nat) returns (b': nat)
      requires Shape(h, list, start, end) && Merged(h, list, i) && i < |list| && b == list[i] && Free(h, list, i)
        && !Free(h, list, i + 1)
      requires head == At(list, 0) && (i + 1 < |list| ==> tail == At(list, |list| - 1))
      modifies this`h, this`list, this`tail
      ensures Shape(h, list, start, end) && Merged(h, list, -1) && b' in h && head == At(list, 0)
      ensures tail == At(list, |list| - 1) || (h[b'].next == 0 && b' == At(list, |list| - 1))
      ensures h[b'].next == 0 ==> b' == At(list, |list| - 1)
      ensures SameLive(old(h), old(list), h, list)
    {
      hide Shape, Merged, SameLive, NodeOk;
      SameLiveSelf(h, list);
      Neighbours(h, list, start, end, i);
      b' := b;
      if h[b].prev == 0 || !h[h[b].prev].free {
        AloneMerged(h, list, i);
        return;
      }
      JoinShape(h, list, start, end, i - 1);
      JoinLive(h, list, start, end, i - 1);
      EndsMerged(h, list, start, end, i);
      Neighbours(h, list, start, end, i - 1);
      ghost var joined := Join(h, list, i - 1);
      var prev, next := h[b].prev, h[b].next;
      h := h[prev := h[prev].(size := h[prev].size + HDR + h[b].size)];
      h := h[prev := h[prev].(next := next)];
      if next != 0 { h := h[next := h[next].(prev := prev)]; } else { tail := prev; }
      assert h == joined;
      list := Drop(list, i);
      b' := prev;
      Neighbours(h, list, start, end, i - 1);
    }

    /** free: the block becomes free and is merged with its free neighbours. */
    method FreeBlock(ptr: nat)
      requires Linked() && (ptr == 0 || Live(h, list, ptr))
      modifies this
      ensures Linked() && mem == old(mem) && brk == old(brk) && end == old(end)
      ensures ptr == 0 ==> SameLive(old(h), old(list), h, list)
      ensures ptr != 0 ==> OneLess(old(h), old(list), h, list, ptr)
    {
      hide Shape, Merged, SameLive, NodeOk, OneLess;
      SameLiveSelf(h, list);
      if ptr == 0 { return; }
      ghost var i: nat :| LiveAt(h, list, ptr, i);
      var b := ptr - HDR;
      Released(h, list, start, end, i);
      h := SetFree(h, b, true);
      ghost var h1, list1 := h, list;
      MergeNext(b, i);
      ghost var h2, list2 := h, list;
      b := MergePrev(b, i);
      if h[b].next == 0 { tail := b; }
      SameLiveTwice(h1, list1, h2, list2, h, list);
      OneLessAfter(old(h), old(list), h1, list1, h, list, ptr);
    }

    /** Copies k bytes from src to dst, in order. */
    method CopyBytes(dst: nat, src: nat, k: nat)
      modifies this`mem
      ensures dst + k <= src || src + k <= dst ==> forall i: nat :: i < k ==>
        ByteAt(mem, dst, i) == ByteAt(old(mem), src, i)
      ensures forall a: nat :: !(dst <= a < dst + k) ==> Byte(mem, a) == Byte(old(mem), a)
    {
      var i := 0;
      ghost var apart := dst + k <= src || src + k <= dst;
      while i < k
        invariant 0 <= i <= k
        invariant apart ==> forall j: nat :: j < i ==> ByteAt(mem, dst, j) == ByteAt(old(mem), src, j)
        invariant forall a: nat :: !(dst <= a < dst + i) ==> Byte(mem, a) == Byte(old(mem), a)
      {
        mem := mem[dst + i := Byte(mem, src + i)];
        i := i + 1;
      }
    }

    /** realloc: the block if it is large enough, else a larger one with the old contents. Requests
        that are not served in full may get a smaller block. */
    method Realloc(ptr: nat, n: nat) returns (r: nat)
      requires Valid() && n < TWO64 && (ptr == 0 || Live(h, list, ptr))
      modifies this
      ensures Linked() && (r == 0 || r == ptr || Served(old(brk), n) ==> Valid())
      ensures r == 0 || r == ptr || SizeOf(old(h), ptr) <= SizeOf(h, r) ==>
        Contents(old(h), old(list), ptr, old(mem), mem, r)
      ensures r == 0 ==> mem == old(mem)
      ensures r == 0 && (ptr == 0 || n > 0) ==> SameLive(old(h), old(list), h, list)
      ensures r != 0 && r == ptr ==> SameLive(old(h), old(list), h, list) && n <= SizeOf(h, r)
      ensures n == 0 ==> r == 0
      ensures ptr != 0 && n == 0 ==> OneLess(old(h), old(list), h, list, ptr)
      ensures ptr == 0 && r != 0 ==> OneMore(old(h), old(list), h, list, r)
      ensures ptr != 0 && r != 0 && r != ptr ==> Swapped(old(h), old(list), h, list, ptr, r) && SizeOf(old(h), ptr) < n
      ensures n > 0 && Served(old(brk), n) ==> r != 0 && n <= SizeOf(h, r)
      ensures ptr != 0 && r != 0 && r != ptr && SizeOf(old(h), ptr) <= SizeOf(h, r) ==>
                forall i: nat :: i < SizeOf(old(h), ptr) ==> ByteAt(mem, r, i) == ByteAt(old(mem), ptr, i)
    {
      hide Shape, Merged, SameLive, NodeOk, OneMore, OneLess, Swapped, Live, AlignUp, Served;
      SameLiveSelf(h, list);
      if ptr == 0 {
        ghost var grown;
        r, grown := Malloc(n);
        return;
      }
      if n == 0 {
        FreeBlock(ptr);
        return 0;
      }
      var b := ptr - HDR;
      LiveIn(h, list, ptr);
      if h[b].size >= n { return ptr; }
      ghost var grown;
      r, grown := Malloc(n);
      if r == 0 { return; }
      ghost var h1, list1 := h, list;
      StillLive(old(h), old(list), h, list, ptr, r);
      LiveIn(h, list, ptr);
      LiveApart(h, list, start, end, ptr, r);
      CopyBytes(r, ptr, h[b].size);
      if SizeOf(h, ptr) <= SizeOf(h, r) { OthersKept(old(h), old(list), h, list, start, end, ptr, r, old(mem), mem); }
      FreeBlock(ptr);
      SwappedFrom(old(h), old(list), h1, list1, h, list, ptr, r);
    }

    /** calloc: a zeroed block for nmemb * size bytes. A new block is large enough and leaves the heap
        tiled if and only if the kernel serves the whole product. */
    method Calloc(nmemb: nat, size: nat) returns (p: nat, ghost grown: bool)
      requires Valid() && nmemb < TWO64 && size < TWO64
      modifies this
      ensures Linked() && (p == 0 ==> Valid() && SameLive(old(h), old(list), h, list) && mem == old(mem))
      ensures p != 0 ==>
        && OneMore(old(h), old(list), h, list, p)
        && forall i: nat :: i < nmemb * size % TWO64 ==> ByteAt(mem, p, i) == 0
      ensures p != 0 && nmemb * size % TWO64 <= SizeOf(h, p) ==> Contents(old(h), old(list), 0, old(mem), mem, p)
      ensures p != 0 && grown ==> (Valid() && nmemb * size <= SizeOf(h, p) <==> Served(old(brk), nmemb * size))
      ensures nmemb * size > 0 && Served(old(brk), nmemb * size) ==> p != 0 && Valid() && nmemb * size <= SizeOf(h, p)
    {
      hide Shape, Merged, SameLive, NodeOk, OneMore, Live, SizeOf, ByteAt, AlignUp, Served;
      var product := nmemb * size;
      var total := product % TWO64;
      assert product < TWO64 ==> total == product;
      ServedFits(brk, product);
      p, grown := Malloc(total);
      if p == 0 { return; }
      if total > 0 { NeedIs(old(brk), total); }
      ZeroBytes(p, total);
      if total <= SizeOf(h, p) { CallocKept(old(h), old(list), h, list, start, end, p, old(mem), mem); }
    }

    method ZeroBytes(p: nat, k: nat)
      modifies this`mem
      ensures forall i: nat :: i < k ==> ByteAt(mem, p, i) == 0
      ensures forall a: nat :: !(p <= a < p + k) ==> Byte(mem, a) == Byte(old(mem), a)
    {
      var i := 0;
      while i < k
        invariant 0 <= i <= k
        invariant forall j: nat :: j < i ==> ByteAt(mem, p, j) == 0
        invariant forall a: nat :: !(p <= a < p + i) ==> Byte(mem, a) == Byte(old(mem), a)
      {
        ghost var was := mem;
        mem := mem[p + i := 0];
        forall j: nat | j <= i
          ensures ByteAt(mem, p, j) == 0
        {
          assert ByteAt(was, p, j) == ByteAt(mem, p, j) || j == i;
        }
        i := i + 1;
      }
    }
  }

  function Byte(mem: map<nat, int>, a: nat): int { if a in mem then mem[a] else 0 }

  function ByteAt(mem: map<nat, int>, p: nat, i: nat): int { Byte(mem, p + i) }

  /** The bytes of block q are the same. */
  predicate BytesKept(h: Headers, mem: map<nat, int>, mem': map<nat, int>, q: nat) {
    forall a: nat :: q <= a < q + SizeOf(h, q) ==> Byte(mem', a) == Byte(mem, a)
  }

  /** Every block in use keeps its bytes; ptr itself may be gone when the result is another block. */
  ghost predicate Contents(h: Headers, list: seq<nat>, ptr: nat, mem: map<nat, int>, mem': map<nat, int>, r: nat) {
    forall q: nat :: Live(h, list, q) && (q != ptr || r == ptr) ==> BytesKept(h, mem, mem', q)
  }

  /** Block r is in use in place of block p. */
  ghost predicate Swapped(h: Headers, list: seq<nat>, h': Headers, list': seq<nat>, p: nat, r: nat) {
    && !Live(h, list, r) && (forall q: nat :: Live(h', list', q) <==> (Live(h, list, q) && q != p) || q == r)
    && (forall q: nat :: Live(h, list, q) && q != p ==> SizeOf(h', q) == SizeOf(h, q))
  }

  lemma LiveIn(h: Headers, list: seq<nat>, p: nat)
    requires Live(h, list, p)
    ensures p >= HDR && p - HDR in h && h[p - HDR].size == SizeOf(h, p)
  {
  }

  lemma StillLive(h: Headers, list: seq<nat>, h': Headers, list': seq<nat>, p: nat, r: nat)
    requires Live(h, list, p) && OneMore(h, list, h', list', r)
    ensures Live(h', list', p) && Live(h', list', r) && p != r && SizeOf(h', p) == SizeOf(h, p) && !Live(h, list, r)
  {
  }

  /** Two blocks in use share no byte. */
  lemma LiveApart(h: Headers, list: seq<nat>, start: nat, brk: nat, p: nat, q: nat)
    requires Shape(h, list, start, brk) && Live(h, list, p) && Live(h, list, q) && p != q
    ensures p + SizeOf(h, p) <= q || q + SizeOf(h, q) <= p
  {
    var i: nat :| LiveAt(h, list, p, i);
    var j: nat :| LiveAt(h, list, q, j);
    if i < j { Ordered(h, list, start, brk, i, j); } else { Ordered(h, list, start, brk, j, i); }
  }

  lemma OthersKept(h: Headers, list: seq<nat>, h': Headers, list': seq<nat>, start: nat, brk: nat, p: nat, r: nat,
      mem: map<nat, int>, mem': map<nat, int>)
    requires Live(h, list, p) && OneMore(h, list, h', list', r) && Shape(h', list', start, brk)
      && SizeOf(h', p) <= SizeOf(h', r)
    requires forall a: nat :: !(r <= a < r + SizeOf(h', p)) ==> Byte(mem', a) == Byte(mem, a)
    ensures Contents(h, list, p, mem, mem', r)
  {
    forall q: nat | Live(h, list, q) && (q != p || r == p) ensures BytesKept(h, mem, mem', q) {
      StillLive(h, list, h', list', q, r);
      LiveApart(h', list', start, brk, q, r);
    }
  }

  lemma CallocKept(h: Headers, list: seq<nat>, h': Headers, list': seq<nat>, start: nat, brk: nat, r: nat, mem: map<nat,
      int>, mem': map<nat, int>)
    requires OneMore(h, list, h', list', r) && Shape(h', list', start, brk)
    requires forall a: nat :: !(r <= a < r + SizeOf(h', r)) ==> Byte(mem', a) == Byte(mem, a)
    ensures Contents(h, list, 0, mem, mem', r)
  {
    forall q: nat | Live(h, list, q) && (q != 0 || r == 0) ensures BytesKept(h, mem, mem', q) {
      StillLive(h, list, h', list', q, r);
      LiveApart(h', list', start, brk, q, r);
    }
  }

  lemma SwappedFrom(h: Headers, list: seq<nat>, h1: Headers, list1: seq<nat>, h2: Headers, list2: seq<nat>, p: nat,
      r: nat)
    requires Live(h, list, p) && OneMore(h, list, h1, list1, r) && OneLess(h1, list1, h2, list2, p)
    ensures Swapped(h, list, h2, list2, p, r) && SizeOf(h2, r) == SizeOf(h1, r)
  {
    hide SizeOf;
    assert p != r && Live(h1, list1, r) && Live(h2, list2, r);
  }

  /** What the links of block i say. */
  ghost predicate Around(h: Headers, list: seq<nat>, i: nat) {
    && i < |list| && list[i] in h && h[list[i]].next == At(list, i + 1) && h[list[i]].prev == At(list, i - 1)
    && (i + 1 < |list| ==> list[i + 1] in h && list[i + 1] != 0 && list[i + 1] != list[i])
    && (i > 0 ==> list[i - 1] in h && list[i - 1] != 0 && list[i - 1] != list[i])
    && (i + 2 < |list| ==> list[i + 2] in h && list[i + 2] != 0 && list[i + 2] != list[i] && list[i + 2] != list[i + 1])
    && (i + 1 < |list| ==> h[list[i + 1]].next == At(list, i + 2))
  }

  lemma Neighbours(h: Headers, list: seq<nat>, start: nat, brk: nat, i: nat)
    requires Shape(h, list, start, brk) && i < |list|
    ensures Around(h, list, i)
  {
    BreakAbove(h, list, start, brk);
    assert NodeOk(h, list, start, brk, i);
    if i + 1 < |list| { assert NodeOk(h, list, start, brk, i + 1); Ordered(h, list, start, brk, i, i + 1); }
    if i > 0 { assert NodeOk(h, list, start, brk, i - 1); Ordered(h, list, start, brk, i - 1, i); }
    if i + 2 < |list| {
      assert NodeOk(h, list, start, brk, i + 2);
      Ordered(h, list, start, brk, i, i + 2);
      Ordered(h, list, start, brk, i + 1, i + 2);
    }
  }

  /** With no free neighbour, everything is merged. */
  lemma AloneMerged(h: Headers, list: seq<nat>, i: nat)
    requires Merged(h, list, i) && i < |list| && !Free(h, list, i + 1) && !Free(h, list, i - 1)
    ensures Merged(h, list, -1)
  {
    forall k: nat | k + 1 < |list| ensures !(Free(h, list, k) && Free(h, list, k + 1)) {
      if k != i && k + 1 != i { assert !(Free(h, list, k) && Free(h, list, k + 1)); }
    }
  }

  /** After block i - 1 has swallowed block i, whose successor is not free, everything is merged. */
  lemma EndsMerged(h: Headers, list: seq<nat>, start: nat, brk: nat, i: nat)
    requires Shape(h, list, start, brk) && 0 < i < |list| && Merged(h, list, i) && !Free(h, list, i + 1)
      && Free(h, list, i - 1)
    ensures list[i - 1] in h && list[i] in h && Merged(Join(h, list, i - 1), Drop(list, i), -1)
  {
    JoinFree(h, list, start, brk, i - 1);
    JoinMerged(h, list, start, brk, i - 1, i);
    var h', list' := Join(h, list, i - 1), Drop(list, i);
    if i > 1 { assert !(Free(h, list, i - 2) && Free(h, list, i - 1)); }
    assert i - 1 > 0 ==> Free(h', list', i - 2) == Free(h, list, From(i - 1, i - 2));
    assert i < |list'| ==> Free(h', list', i) == Free(h, list, From(i - 1, i));
    AloneMerged(h', list', i - 1);
  }

  lemma OneLessAfter(h: Headers, list: seq<nat>, h1: Headers, list1: seq<nat>, h2: Headers, list2: seq<nat>, p: nat)
    requires OneLess(h, list, h1, list1, p) && SameLive(h1, list1, h2, list2)
    ensures OneLess(h, list, h2, list2, p)
  {
    hide Live, SizeOf;
  }

  /** The blocks in use are the same and p, which was not in use. */
  ghost predicate OneMore(h: Headers, list: seq<nat>, h': Headers, list': seq<nat>, p: nat) {
    && !Live(h, list, p) && (forall q: nat :: Live(h', list', q) <==> Live(h, list, q) || q == p)
    && (forall q: nat :: Live(h, list, q) ==> SizeOf(h', q) == SizeOf(h, q))
  }

  /** The blocks in use are the same but for p. */
  ghost predicate OneLess(h: Headers, list: seq<nat>, h': Headers, list': seq<nat>, p: nat) {
    && (forall q: nat :: Live(h', list', q) <==> Live(h, list, q) && q != p)
    && (forall q: nat :: Live(h', list', q) ==> SizeOf(h', q) == SizeOf(h, q))
  }

  lemma SameLiveSelf(h: Headers, list: seq<nat>)
    ensures SameLive(h, list, h, list)
  {
  }

  lemma NeedIs(brk: nat, n: nat)
    requires 0 < n < TWO64
    ensures AlignUp(n) < TWO64 && AlignUp(n) % 16 == 0 && AlignUp(n) < n + 16
      && (Served(brk, n) <==> n <= AlignUp(n) && Served(brk, AlignUp(n)))
  {
    if n + 15 < TWO64 {
      AlignUpIs(n);
      assert AlignUp(n) == (n + 15) / 16 * 16;
      assert Span(AlignUp(n)) == Span(n);
    } else {
      assert AlignUp(n) == 0;
      assert Span(n) >= TWO64;
    }
  }

  lemma ServedFits(brk: nat, n: nat)
    ensures Served(brk, n) ==> n < TWO64
  {
  }

  /** What is served is granted: the break goes up. */
  lemma ServedMoves(brk: nat, start: nat, need: nat)
    requires Served(brk, need) && need % 16 == 0 && need < TWO64 && start <= brk < TWO64
    ensures NewBreak(brk, TotalFor(need)) >= start
  {
    hide NewBreak, TotalFor;
    BreakMoves(brk, need);
  }

  /** The break moves by the block and its header exactly when the request is served. */
  lemma BreakMoves(brk: nat, need: nat)
    requires brk < TWO64 && need % 16 == 0 && need < TWO64
    ensures NewBreak(brk, TotalFor(need)) == brk + HDR + need <==> Served(brk, need)
  {
    hide AlignUp;
    TotalIs(need);
    var t, d := need + HDR, Delta(TotalFor(need));
    assert Span(need) == t;
    DeltaIs(TotalFor(need));
    WrapIs(brk + d);
  }

  /** The conversion to int keeps a 64-bit number, as a signed one, exactly within 31 bits. */
  lemma DeltaIs(total: nat)
    requires total < TWO64
    ensures 0 - TWO31 <= Delta(total) < TWO31
    ensures Delta(total) == total <==> total < TWO31
    ensures Delta(total) == total - TWO64 <==> total >= TWO64 - TWO31
  {
  }

  lemma WrapIs(x: int)
    requires 0 - TWO64 <= x < 2 * TWO64
    ensures x % TWO64 == if x < 0 then x + TWO64 else if x < TWO64 then x else x - TWO64
  {
  }

  lemma Block(h: Headers, list: seq<nat>, start: nat, brk: nat, i: nat)
    requires Shape(h, list, start, brk) && i <= |list| && At(list, i) != 0
    ensures i < |list| && list[i] in h && h[list[i]].next == At(list, i + 1) && h[list[i]].prev == At(list, i - 1)
    ensures forall k :: 0 <= k < |list| ==> list[k] != 0
  {
    assert NodeOk(h, list, start, brk, i);
    BreakAbove(h, list, start, brk);
  }

  lemma MergedAny(h: Headers, list: seq<nat>, x: int)
    requires Merged(h, list, -1)
    ensures Merged(h, list, x)
  {
  }

  lemma GrownMerged(h: Headers, list: seq<nat>, h': Headers, list': seq<nat>)
    requires Merged(h, list, -1) && Flags(h, list, h', list')
    ensures Merged(h', list', |list'| - 1)
  {
    forall i: nat | i + 1 < |list'| && i != |list| && i + 1 != |list|
      ensures !(Free(h', list', i) && Free(h', list', i + 1))
    {
      assert !(Free(h, list, i) && Free(h, list, i + 1));
    }
  }

  lemma Taken(h: Headers, list: seq<nat>, start: nat, brk: nat, x: nat)
    requires Shape(h, list, start, brk) && Merged(h, list, x) && Free(h, list, x)
    ensures var h' := SetFree(h, list[x], false);
            && Shape(h', list, start, brk) && Merged(h', list, -1) && OneMore(h, list, h', list, list[x] + HDR)
            && (list[x] + HDR) % 16 == 0
            && SizeOf(h', list[x] + HDR) == h[list[x]].size
  {
    FlagShape(h, list, start, brk, x, false);
    Aligned16(h, list, start, brk, x);
    var h', p := SetFree(h, list[x], false), list[x] + HDR;
    forall i: nat | i + 1 < |list|
      ensures !(Free(h', list, i) && Free(h', list, i + 1))
    {
      assert Free(h', list, i) == if i == x then false else Free(h, list, i);
    }
    forall q: nat
      ensures Live(h', list, q) <==> Live(h, list, q) || q == p
    {
      FlagLive(h, list, start, brk, x, false, q);
    }
    FlagLive(h, list, start, brk, x, false, p);
  }

  lemma Released(h: Headers, list: seq<nat>, start: nat, brk: nat, x: nat)
    requires Shape(h, list, start, brk) && Merged(h, list, -1) && x < |list| && LiveAt(h, list, list[x] + HDR, x)
    ensures var h' := SetFree(h, list[x], true);
            && Shape(h', list, start, brk) && Merged(h', list, x) && OneLess(h, list, h', list, list[x] + HDR)
            && Free(h', list, x)
  {
    FlagShape(h, list, start, brk, x, true);
    var h', p := SetFree(h, list[x], true), list[x] + HDR;
    forall i: nat | i + 1 < |list| && i != x && i + 1 != x
      ensures !(Free(h', list, i) && Free(h', list, i + 1))
    {
      assert !(Free(h, list, i) && Free(h, list, i + 1));
    }
    forall q: nat
      ensures Live(h', list, q) <==> Live(h, list, q) && q != p
    {
      FlagLive(h, list, start, brk, x, true, q);
    }
  }

  lemma FlagLive(h: Headers, list: seq<nat>, start: nat, brk: nat, x: nat, f: bool, q: nat)
    requires Shape(h, list, start, brk) && x < |list| && list[x] in h
    ensures q != list[x] + HDR ==> (Live(SetFree(h, list[x], f), list, q) <==> Live(h, list, q))
    ensures q == list[x] + HDR ==>
      (Live(SetFree(h, list[x], f), list, q) <==> !f) && (Live(h, list, q) <==> !h[list[x]].free)
  {
    var h' := SetFree(h, list[x], f);
    if q == list[x] + HDR {
      if !f { assert LiveAt(h', list, q, x); }
      if !h[list[x]].free { assert LiveAt(h, list, q, x); }
    } else {
      if Live(h, list, q) { var i: nat :| LiveAt(h, list, q, i); assert LiveAt(h', list, q, i); }
      if Live(h', list, q) { var i: nat :| LiveAt(h', list, q, i); assert LiveAt(h, list, q, i); }
    }
  }

  lemma OneMoreAfter(h: Headers, list: seq<nat>, h1: Headers, list1: seq<nat>, h2: Headers, list2: seq<nat>, p: nat)
    requires SameLive(h, list, h1, list1) && OneMore(h1, list1, h2, list2, p)
    ensures OneMore(h, list, h2, list2, p)
  {
    hide Live, SizeOf;
  }

  lemma TotalIs(need: nat)
    requires need % 16 == 0 && need < TWO64
    ensures TotalFor(need) == AlignUp((need + HDR) % TWO64) < TWO64 && (TotalFor(need) - HDR) % TWO64 == need
    ensures TotalFor(need) == if need + HDR < TWO64 then need + HDR else need + HDR - TWO64
  {
  }

  /** The last block is old and the break is above every block. */
  lemma BreakAbove(h: Headers, list: seq<nat>, start: nat, brk: nat)
    requires Shape(h, list, start, brk)
    ensures 0 < start <= brk && (list != [] ==> list[|list| - 1] in h && list[|list| - 1] != 0)
      && forall i :: 0 <= i < |list| ==> 0 < list[i] < brk
  {
    forall i | 0 <= i < |list|
      ensures start <= list[i] < brk && list[i] in h
    {
      Ordered(h, list, start, brk, i, |list|);
    }
  }

  /** The headers with a new block of the given size at b. */
  function Extended(h: Headers, tail: nat, b: nat, size: nat): Headers {
    var h1 := h[b := Header(size, true, 0, tail)];
    if tail != 0 && tail in h1 then h1[tail := h1[tail].(next := b)] else h1
  }

  /** The old blocks keep their flags, and the one added is free. */
  ghost predicate Flags(h: Headers, list: seq<nat>, h': Headers, list': seq<nat>) {
    |list'| == |list| + 1 && forall i: nat :: i < |list'| ==>
        Free(h', list', i) == if i == |list| then true else Free(h, list, i)
  }

  lemma GrownShape(h: Headers, list: seq<nat>, start: nat, brk: nat, size: nat)
    requires Shape(h, list, start, brk) && size % 16 == 0
    ensures var h', list' := Extended(h, At(list, |list| - 1), brk, size), list + [brk];
            Shape(h', list', start, brk + HDR + size) && Flags(h, list, h', list') && SameLive(h, list, h', list')
  {
    BreakAbove(h, list, start, brk);
    var n := |list|;
    var h', list', end := Extended(h, At(list, n - 1), brk, size), list + [brk], brk + HDR + size;
    forall i: nat | i < n
      ensures list[i] in h' && NodeOk(h, list, start, brk, i)
      ensures h'[list[i]] == h[list[i]].(next := if i == n - 1 then brk else h[list[i]].next)
    {
      assert NodeOk(h, list, start, brk, i);
      if list[i] == list[n - 1] { Distinct(h, list, start, brk, i, n - 1); }
    }
    assert h'[brk].size == size && h'[brk].free && list'[n] == brk;
    forall i: nat | i <= n ensures NodeOk(h', list', start, end, i) {}
    forall p: nat ensures Live(h', list', p) <==> Live(h, list, p) { GrownLive(h, list, h', p, brk); }
    forall p: nat | Live(h, list, p) ensures SizeOf(h', p) == SizeOf(h, p) { var i: nat :| LiveAt(h, list, p, i); }
  }

  /** A request of 2^64 - 1 bytes is rounded to none: an empty heap gets a block of no bytes. */
  lemma WrapToNothing()
    ensures AlignUp(TWO64 - 1) == 0 && AlignUp(HDR) == HDR
      && Shape(Extended(map[], 0, 4096, 0), [4096], 4096, 4096 + HDR)
  {
    GrownShape(map[], [], 4096, 4096, 0);
    var none: seq<nat> := [];
    assert none + [4096] == [4096];
  }

  /** For 2^64 - 48 bytes the break does not move, wherever it is. */
  lemma WrapPastBreak(brk: nat)
    requires brk < TWO64
    ensures AlignUp(TWO64 - 48) == TWO64 - 48 && NewBreak(brk, TotalFor(TWO64 - 48)) == brk
  {
  }

  /** For 2^64 - 4096 bytes the break goes down by 4048: after a block of 8192 bytes the call succeeds,
      and the next block of 16 bytes lies inside the first. */
  lemma ShrinksHeap(start: nat)
    requires start + HDR + 8192 < TWO64
    ensures var brk := start + HDR + 8192; var down := NewBreak(brk, TotalFor(AlignUp(TWO64 - 4096)));
      && down == brk - 4048 >= start && start + HDR < down && down + Span(16) < brk
      && !Served(brk, TWO64 - 4096)
  {
    assert TotalFor(AlignUp(TWO64 - 4096)) == TWO64 - 4048;
    assert Delta(TWO64 - 4048) == -4048;
  }

  /** For 2^32 bytes the break goes up by 48, the header alone. */
  lemma CutTo32Bits(brk: nat)
    requires brk + HDR < TWO64
    ensures NewBreak(brk, TotalFor(AlignUp(TWO32))) == brk + HDR && !Served(brk, TWO32)
  {
    assert TotalFor(AlignUp(TWO32)) == TWO32 + HDR;
  }

  /** Requests up to 2^31 - 64 bytes are served until the break comes within 2 GiB of 2^64, and none
      from there to 2^63 is. */
  lemma ServedBelow(brk: nat, n: nat)
    requires brk <= TWO64 - TWO31
    ensures n <= TWO31 - 64 ==> Served(brk, n)
    ensures TWO31 - 64 < n < TWO64 - TWO31 - 64 ==> !Served(brk, n)
  {
  }

  lemma GrownLive(h: Headers, list: seq<nat>, h': Headers, p: nat, b: nat)
    requires b in h' && h'[b].free
      && forall i :: 0 <= i < |list| ==> list[i] in h && list[i] in h' && h'[list[i]].free == h[list[i]].free
    ensures Live(h', list + [b], p) <==> Live(h, list, p)
  {
    var list' := list + [b];
    if Live(h, list, p) {
      var i: nat :| LiveAt(h, list, p, i);
      assert LiveAt(h', list', p, i);
    }
    if Live(h', list', p) {
      var i: nat :| LiveAt(h', list', p, i);
      assert LiveAt(h, list, p, i);
    }
  }
}
