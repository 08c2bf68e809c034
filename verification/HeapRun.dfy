/** A program that uses the heap sees independent buffers: a block keeps what was stored in it until
    it is freed, whatever other blocks come and go. */
module HeapRun {

  import opened Heap

  /** Buffers by address, with their contents. */
  type Buffers = map<nat, seq<int>>

  datatype Op = Alloc(n: nat) | Release(p: nat) | Resize(p: nat, n: nat) | Store(p: nat, i: nat, v: int)
      | Fetch(p: nat, i: nat)

  /** What a correct program may ask while the break is at brk. */
  predicate MayAsk(op: Op, bufs: Buffers, brk: nat) {
    match op
    case Alloc(n) => Served(brk, n)
    case Release(p) => p == 0 || p in bufs
    case Resize(p, n) => Served(brk, n) && (p == 0 || p in bufs)
    case Store(p, i, _) => p in bufs && i < |bufs[p]|
    case Fetch(p, i) => p in bufs && i < |bufs[p]|
  }

  /** Buffer r is new and has at least n bytes. */
  predicate NewBuffer(bufs: Buffers, bufs': Buffers, r: int, n: nat) {
    r > 0 && r !in bufs && r in bufs' && n <= |bufs'[r]| && bufs' == bufs[r := bufs'[r]]
  }

  /** The specification: r is the result and bufs' are the buffers afterwards. */
  predicate Step(bufs: Buffers, op: Op, r: int, bufs': Buffers) {
    match op
    case Alloc(n) => if n == 0 then r == 0 && bufs' == bufs else NewBuffer(bufs, bufs', r, n)
    case Release(p) => r == 0 && bufs' == bufs - {p}
    case Resize(p, n) =>
      if n == 0 then r == 0 && bufs' == bufs - {p}
      else if p == 0 then NewBuffer(bufs, bufs', r, n)
      else if r == p then bufs' == bufs && p in bufs && n <= |bufs[p]|
      else NewBuffer(bufs - {p}, bufs', r, n) && r !in bufs && p in bufs && bufs[p] <= bufs'[r]
    case Store(p, i, v) => r == 0 && p in bufs && i < |bufs[p]| && bufs' == bufs[p := bufs[p][i := v]]
    case Fetch(p, i) => p in bufs && i < |bufs[p]| && r == bufs[p][i] && bufs' == bufs
  }

  /** The bytes of block p. */
  function Bytes(h: Headers, mem: map<nat, int>, p: nat): seq<int> {
    seq(SizeOf(h, p), i requires i >= 0 => ByteAt(mem, p, i))
  }

  /** The buffers are the blocks in use and their bytes. */
  ghost predicate Agrees(h: Headers, list: seq<nat>, mem: map<nat, int>, bufs: Buffers) {
    forall p: nat :: (p in bufs <==> Live(h, list, p)) && (p in bufs ==> bufs[p] == Bytes(h, mem, p))
  }

  lemma BytesSame(h: Headers, h': Headers, mem: map<nat, int>, mem': map<nat, int>, p: nat)
    requires SizeOf(h', p) == SizeOf(h, p) && BytesKept(h, mem, mem', p)
    ensures Bytes(h', mem', p) == Bytes(h, mem, p)
  {
    forall i: nat | i < SizeOf(h, p)
      ensures ByteAt(mem', p, i) == ByteAt(mem, p, i)
    {
      assert Byte(mem', p + i) == Byte(mem, p + i);
    }
  }

  lemma SameBuffers(h: Headers, list: seq<nat>, h': Headers, list': seq<nat>, mem: map<nat, int>, mem': map<nat, int>,
      bufs: Buffers)
    requires Agrees(h, list, mem, bufs) && SameLive(h, list, h', list')
      && forall q: nat :: Live(h, list, q) ==> BytesKept(h, mem, mem', q)
    ensures Agrees(h', list', mem', bufs)
  {
    hide Live, Bytes, BytesKept;
    forall p: nat | p in bufs ensures bufs[p] == Bytes(h', mem', p) { BytesSame(h, h', mem, mem', p); }
  }

  lemma MoreBuffers(h: Headers, list: seq<nat>, h': Headers, list': seq<nat>, mem: map<nat, int>, mem': map<nat, int>,
      bufs: Buffers, r: nat)
    requires Agrees(h, list, mem, bufs) && OneMore(h, list, h', list', r)
      && forall q: nat :: Live(h, list, q) ==> BytesKept(h, mem, mem', q)
    ensures Agrees(h', list', mem', bufs[r := Bytes(h', mem', r)]) && r !in bufs
  {
    hide Live, Bytes, BytesKept;
    forall p: nat | p in bufs ensures bufs[p] == Bytes(h', mem', p) { BytesSame(h, h', mem, mem', p); }
  }

  lemma LessBuffers(h: Headers, list: seq<nat>, h': Headers, list': seq<nat>, mem: map<nat, int>, mem': map<nat, int>,
      bufs: Buffers, r: nat)
    requires Agrees(h, list, mem, bufs) && OneLess(h, list, h', list', r)
      && forall q: nat :: Live(h, list, q) && q != r ==> BytesKept(h, mem, mem', q)
    ensures Agrees(h', list', mem', bufs - {r})
  {
    hide Live, Bytes, BytesKept;
    forall p: nat | p in bufs && p != r ensures bufs[p] == Bytes(h', mem', p) { BytesSame(h, h', mem, mem', p); }
  }

  lemma SwapBuffers(h: Headers, list: seq<nat>, h': Headers, list': seq<nat>, mem: map<nat, int>, mem': map<nat, int>,
      bufs: Buffers, o: nat, r: nat)
    requires Agrees(h, list, mem, bufs) && Swapped(h, list, h', list', o, r)
      && forall q: nat :: Live(h, list, q) && q != o ==> BytesKept(h, mem, mem', q)
    ensures Agrees(h', list', mem', (bufs - {o})[r := Bytes(h', mem', r)]) && r !in bufs
  {
    hide Live, Bytes, BytesKept;
    forall p: nat | p in bufs && p != o ensures bufs[p] == Bytes(h', mem', p) { BytesSame(h, h', mem, mem', p); }
  }

  lemma NothingChanged(h: Headers, list: seq<nat>, mem: map<nat, int>)
    ensures forall q: nat :: Live(h, list, q) ==> BytesKept(h, mem, mem, q)
  {
  }

  lemma StoreBuffers(h: Headers, list: seq<nat>, start: nat, brk: nat, mem: map<nat, int>, bufs: Buffers, p: nat,
      i: nat, v: int)
    requires Shape(h, list, start, brk) && Agrees(h, list, mem, bufs) && p in bufs && i < |bufs[p]|
    ensures Agrees(h, list, mem[p + i := v], bufs[p := bufs[p][i := v]])
  {
    var mem', bufs' := mem[p + i := v], bufs[p := bufs[p][i := v]];
    forall q: nat | q in bufs ensures bufs'[q] == Bytes(h, mem', q) {
      if q == p {
        assert forall j: nat :: j < SizeOf(h, p) ==> bufs[p][j] == ByteAt(mem, p, j);
        forall j: nat | j < SizeOf(h, p) ensures bufs'[p][j] == ByteAt(mem', p, j) {}
      } else {
        LiveApart(h, list, start, brk, p, q);
        BytesSame(h, h, mem, mem', q);
      }
    }
  }

  class Program {
    const heap: Allocator
    ghost var bufs: Buffers

    constructor (a: Allocator)
      requires a.Valid() && a.list == []
      ensures heap == a && Valid() && bufs == map[]
    {
      heap := a;
      bufs := map[];
    }

    ghost predicate Valid()
      reads this, heap
    {
      heap.Valid() && Agrees(heap.h, heap.list, heap.mem, bufs)
    }

    /** One operation refines its specification on independent buffers. */
    method Perform(op: Op) returns (r: int)
      requires Valid() && MayAsk(op, bufs, heap.brk)
      modifies this, heap
      ensures Valid() && Step(old(bufs), op, r, bufs)
    {
      match op
      case Alloc(n) => r := DoAlloc(n);
      case Release(p) => DoRelease(p); r := 0;
      case Resize(p, n) => r := DoResize(p, n);
      case Store(p, i, v) =>
        StoreBuffers(heap.h, heap.list, heap.start, heap.brk, heap.mem, bufs, p, i, v);
        heap.mem := heap.mem[p + i := v];
        bufs := bufs[p := bufs[p][i := v]];
        r := 0;
      case Fetch(p, i) =>
        assert bufs[p] == Bytes(heap.h, heap.mem, p);
        r := Byte(heap.mem, p + i);
    }

    method DoAlloc(n: nat) returns (r: int)
      requires Valid() && Served(heap.brk, n)
      modifies this, heap
      ensures Valid() && Step(old(bufs), Alloc(n), r, bufs)
    {
      hide Agrees, OneMore, SameLive, Live, Bytes, Shape, Merged, Served;
      ServedFits(heap.brk, n);
      ghost var h, list, mem := heap.h, heap.list, heap.mem;
      NothingChanged(h, list, mem);
      ghost var grown;
      r, grown := heap.Malloc(n);
      if r == 0 {
        SameBuffers(h, list, heap.h, heap.list, mem, heap.mem, bufs);
      } else {
        MoreBuffers(h, list, heap.h, heap.list, mem, heap.mem, bufs, r);
        BytesLength(heap.h, heap.mem, r);
        bufs := bufs[r := Bytes(heap.h, heap.mem, r)];
      }
    }

    method DoRelease(p: nat)
      requires Valid() && (p == 0 || p in bufs)
      modifies this, heap
      ensures Valid() && bufs == old(bufs) - {p}
    {
      ghost var h, list, mem := heap.h, heap.list, heap.mem;
      NoNull(h, list, heap.start, heap.brk);
      assert p in bufs ==> Live(h, list, p);
      assert !Live(h, list, 0);
      hide Agrees, OneLess, SameLive, Live, Bytes, Shape, Merged;
      NothingChanged(h, list, mem);
      heap.FreeBlock(p);
      if p == 0 {
        SameBuffers(h, list, heap.h, heap.list, mem, heap.mem, bufs);
      } else {
        LessBuffers(h, list, heap.h, heap.list, mem, heap.mem, bufs, p);
      }
      bufs := bufs - {p};
    }

    method DoResize(p: nat, n: nat) returns (r: int)
      requires Valid() && Served(heap.brk, n) && (p == 0 || p in bufs)
      modifies this, heap
      ensures Valid() && Step(old(bufs), Resize(p, n), r, bufs)
    {
      hide Agrees, OneLess, OneMore, Swapped, SameLive, Live, Bytes, Shape, Merged, BytesKept, Served;
      ServedFits(heap.brk, n);
      ghost var h, list, mem := heap.h, heap.list, heap.mem;
      NoNull(h, list, heap.start, heap.brk);
      InUse(h, list, mem, bufs, p);
      InUse(h, list, mem, bufs, 0);
      r := heap.Realloc(p, n);
      BytesLength(heap.h, heap.mem, r);
      if p == 0 && n == 0 {
        NothingChanged(h, list, mem);
        SameBuffers(h, list, heap.h, heap.list, mem, heap.mem, bufs);
      } else if n == 0 {
        LessBuffers(h, list, heap.h, heap.list, mem, heap.mem, bufs, p);
        bufs := bufs - {p};
      } else if p == 0 {
        MoreBuffers(h, list, heap.h, heap.list, mem, heap.mem, bufs, r);
        bufs := bufs[r := Bytes(heap.h, heap.mem, r)];
        assert Step(old(bufs), Resize(p, n), r, bufs);
      } else if r == p {
        SameBuffers(h, list, heap.h, heap.list, mem, heap.mem, bufs);
        InUse(heap.h, heap.list, heap.mem, bufs, p);
        assert Step(old(bufs), Resize(p, n), r, bufs);
      } else {
        SwapBuffers(h, list, heap.h, heap.list, mem, heap.mem, bufs, p, r);
        Prefix(h, heap.h, mem, heap.mem, p, r);
        bufs := (bufs - {p})[r := Bytes(heap.h, heap.mem, r)];
        assert NewBuffer(old(bufs) - {p}, bufs, r, n);
        assert Step(old(bufs), Resize(p, n), r, bufs);
      }
    }
  }

  lemma InUse(h: Headers, list: seq<nat>, mem: map<nat, int>, bufs: Buffers, p: nat)
    requires Agrees(h, list, mem, bufs)
    ensures p in bufs <==> Live(h, list, p)
    ensures p in bufs ==> bufs[p] == Bytes(h, mem, p) && |bufs[p]| == SizeOf(h, p)
  {
  }

  lemma Prefix(h: Headers, h': Headers, mem: map<nat, int>, mem': map<nat, int>, p: nat, r: nat)
    requires SizeOf(h, p) <= SizeOf(h', r)
      && forall i: nat :: i < SizeOf(h, p) ==> ByteAt(mem', r, i) == ByteAt(mem, p, i)
    ensures Bytes(h, mem, p) <= Bytes(h', mem', r)
  {
  }

  lemma BytesLength(h: Headers, mem: map<nat, int>, p: nat)
    ensures |Bytes(h, mem, p)| == SizeOf(h, p)
  {
  }

  /** No block in use is at NULL. */
  lemma NoNull(h: Headers, list: seq<nat>, start: nat, brk: nat)
    requires Shape(h, list, start, brk)
    ensures !Live(h, list, 0)
  {
  }
}
