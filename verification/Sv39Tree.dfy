/** Sv39 page tables: trees of 512-entry tables in physical frames, three levels deep. A page
    table entry is ppn * 1024 + flags, and its lowest flag says that it is valid. */
module Sv39Tree {
  import opened Prelude

  const ENTRIES: nat := 512

  type Page = seq<int>

  /** Frames used as tables, frames used as data pages, and the top tables. */
  datatype Mem = Mem(tables: map<nat, seq<nat>>, pages: map<nat, Page>, roots: set<nat>)

  predicate Valid(pte: nat) { pte % 2 == 1 }

  function Ppn(pte: nat): nat { pte / 1024 }

  function Flags(pte: nat): nat { pte % 1024 }

  /** Entry i of the table in frame f. */
  function Entry(m: Mem, f: nat, i: nat): nat {
    if f in m.tables && i < |m.tables[f]| then m.tables[f][i] else 0
  }

  /** The table that entry i of frame f points to. */
  function Below(m: Mem, f: nat, i: nat): Option<nat> {
    if Valid(Entry(m, f, i)) then Some(Ppn(Entry(m, f, i))) else None
  }

  /** A table of a tree, by the indices that lead to it. */
  datatype Node = Top | Mid(i: nat) | Low(i: nat, j: nat)

  predicate NodeOk(n: Node) {
    match n
    case Top => true
    case Mid(i) => i < ENTRIES
    case Low(i, j) => i < ENTRIES && j < ENTRIES
  }

  function Frame(m: Mem, r: nat, n: Node): Option<nat> {
    match n
    case Top => Some(r)
    case Mid(i) => Below(m, r, i)
    case Low(i, j) => if Below(m, r, i).None? then None else Below(m, Below(m, r, i).value, j)
  }

  /** The leaf entry that indices i, j, k lead to, 0 if there is no table. */
  function Leaf(m: Mem, r: nat, i: nat, j: nat, k: nat): nat {
    if Frame(m, r, Low(i, j)).None? then 0 else Entry(m, Frame(m, r, Low(i, j)).value, k)
  }

  predicate HasNode(m: Mem, r: nat, n: Node) { r in m.roots && NodeOk(n) }

  predicate FrameOk(m: Mem, r: nat, n: Node) { Frame(m, r, n).Some? ==> Frame(m, r, n).value in m.tables }

  predicate SameFrame(m: Mem, r: nat, n: Node, q: nat, o: Node) {
    Frame(m, r, n).Some? && Frame(m, r, n) == Frame(m, q, o)
  }

  ghost predicate TablesOk(m: Mem) {
    (forall f :: f in m.tables ==> |m.tables[f]| == ENTRIES) && m.tables.Keys !! m.pages.Keys
  }

  /** Every table of a tree is a table frame, and no frame is two tables, of one tree or two. */
  ghost predicate Sound(m: Mem) {
    && TablesOk(m)
    && (forall r, n :: HasNode(m, r, n) ==> FrameOk(m, r, n))
    && (forall r, n, q, o :: HasNode(m, r, n) && HasNode(m, q, o) && SameFrame(m, r, n, q, o) ==> r == q && n == o)
  }

  // ----- what stays -----

  predicate NodeKept(m: Mem, m': Mem, r: nat, n: Node) { Frame(m', r, n) == Frame(m, r, n) }

  predicate LeafKept(m: Mem, m': Mem, r: nat, i: nat, j: nat, k: nat) { Leaf(m', r, i, j, k) == Leaf(m, r, i, j, k) }

  ghost predicate SameLeaves(m: Mem, m': Mem) {
    m'.roots == m.roots && forall r: nat, i: nat, j: nat, k: nat :: r in m.roots && i < ENTRIES && j < ENTRIES ==>
        LeafKept(m, m', r, i, j, k)
  }

  lemma SameLeavesTwice(m: Mem, m': Mem, m'': Mem)
    requires SameLeaves(m, m') && SameLeaves(m', m'')
    ensures SameLeaves(m, m'')
  {
    hide Leaf;
    forall r: nat, i: nat, j: nat, k: nat | r in m.roots && i < ENTRIES && j < ENTRIES
      ensures LeafKept(m, m'', r, i, j, k)
    {
      assert LeafKept(m, m', r, i, j, k) && LeafKept(m', m'', r, i, j, k);
    }
  }

  /** Frames that no tree uses. */
  ghost predicate NoRef(m: Mem, f: nat) { forall r, n :: HasNode(m, r, n) ==> Frame(m, r, n) != Some(f) }

  lemma OutsideNoRef(m: Mem, f: nat)
    requires Sound(m) && f !in m.tables
    ensures NoRef(m, f)
  {
    hide Frame;
    forall r, n | HasNode(m, r, n) ensures Frame(m, r, n) != Some(f) { assert FrameOk(m, r, n); }
  }

  /** Same tables but for frame f. */
  predicate OnlyTable(m: Mem, m': Mem, f: nat) {
    && m'.roots == m.roots && (forall g :: g in m.tables && g != f ==> g in m'.tables && m'.tables[g] == m.tables[g])
    && (forall g :: g in m'.tables && g != f ==> g in m.tables)
  }

  lemma SameEntry(m: Mem, m': Mem, f: nat, g: nat, i: nat)
    requires OnlyTable(m, m', f) && g != f
    ensures Entry(m', g, i) == Entry(m, g, i)
  {
  }

  /** A frame that a tree does not use does not matter to it. */
  lemma SameNode(m: Mem, m': Mem, f: nat, r: nat, n: Node)
    requires OnlyTable(m, m', f) && HasNode(m, r, n) && (forall o :: HasNode(m, r, o) ==> Frame(m, r, o) != Some(f))
    ensures NodeKept(m, m', r, n) && forall k: nat :: n.Low? ==> LeafKept(m, m', r, n.i, n.j, k)
  {
    hide Entry, OnlyTable;
    assert HasNode(m, r, Top) && Frame(m, r, Top) == Some(r);
    match n
    case Top =>
    case Mid(i) => SameEntry(m, m', f, r, i);
    case Low(i, j) =>
      SameEntry(m, m', f, r, i);
      assert HasNode(m, r, Mid(i));
      var mid := Frame(m, r, Mid(i));
      if mid.Some? { SameEntry(m, m', f, mid.value, j); }
      var low := Frame(m, r, Low(i, j));
      forall k: nat ensures LeafKept(m, m', r, i, j, k) {
        if low.Some? { SameEntry(m, m', f, low.value, k); }
      }
  }

  lemma NodesSound(m: Mem, m': Mem)
    requires Sound(m) && TablesOk(m') && m'.roots == m.roots && (forall g :: g in m.tables ==> g in m'.tables)
    requires forall r, n :: HasNode(m, r, n) ==> NodeKept(m, m', r, n)
    ensures Sound(m')
  {
    hide Frame;
    forall r, n | HasNode(m', r, n)
      ensures FrameOk(m', r, n)
    {
      assert HasNode(m, r, n) && NodeKept(m, m', r, n) && FrameOk(m, r, n);
    }
    forall r, n, q, o | HasNode(m', r, n) && HasNode(m', q, o) && SameFrame(m', r, n, q, o) ensures r == q && n == o {
      assert HasNode(m, r, n) && HasNode(m, q, o) && NodeKept(m, m', r, n) && NodeKept(m, m', q, o);
      assert SameFrame(m, r, n, q, o);
    }
  }

  // ----- a fresh table -----

  function Empty(): (t: seq<nat>)
    ensures |t| == ENTRIES && forall i :: 0 <= i < ENTRIES ==> t[i] == 0
  {
    seq(ENTRIES, _ => 0)
  }

  function NewTable(m: Mem, f: nat): Mem { m.(tables := m.tables[f := Empty()]) }

  lemma NewTableOk(m: Mem, f: nat)
    requires Sound(m) && f !in m.tables && f !in m.pages
    ensures var m' := NewTable(m, f);
      Sound(m') && SameLeaves(m, m') && NoRef(m', f) && (forall r, n :: HasNode(m, r, n) ==> NodeKept(m, m', r, n))
  {
    var m' := NewTable(m, f);
    OutsideNoRef(m, f);
    assert OnlyTable(m, m', f);
    assert TablesOk(m');
    hide Frame, Leaf, OnlyTable, TablesOk;
    forall r, n | HasNode(m, r, n) ensures NodeKept(m, m', r, n) { SameNode(m, m', f, r, n); }
    NodesSound(m, m');
    forall r: nat, i: nat, j: nat, k: nat | r in m.roots && i < ENTRIES && j < ENTRIES
      ensures LeafKept(m, m', r, i, j, k)
    {
      assert HasNode(m, r, Low(i, j));
      SameNode(m, m', f, r, Low(i, j));
    }
    forall r, n | HasNode(m', r, n)
      ensures Frame(m', r, n) != Some(f)
    {
      assert HasNode(m, r, n) && NodeKept(m, m', r, n);
    }
  }

  // ----- changing one entry -----

  function Replace(t: seq<nat>, i: nat, v: nat): seq<nat>
    requires i < |t|
  {
    t[i := v]
  }

  function SetEntry(m: Mem, f: nat, i: nat, v: nat): Mem
    requires f in m.tables && i < |m.tables[f]|
  {
    m.(tables := m.tables[f := Replace(m.tables[f], i, v)])
  }

  lemma EntryAfter(m: Mem, f: nat, i: nat, v: nat, g: nat, j: nat)
    requires f in m.tables && i < |m.tables[f]|
    ensures Entry(SetEntry(m, f, i, v), g, j) == if g == f && j == i then v else Entry(m, g, j)
  {
  }

  /** The node that entry idx of node n leads to. */
  function ChildOf(n: Node, idx: nat): Node
    requires !n.Low?
  {
    if n.Top? then Mid(idx) else Low(n.i, idx)
  }

  lemma OnlyHolder(m: Mem, r: nat, n: Node, q: nat, o: Node)
    requires Sound(m) && HasNode(m, r, n) && Frame(m, r, n).Some? && HasNode(m, q, o)
    ensures Frame(m, q, o) == Frame(m, r, n) ==> q == r && o == n
  {
    hide Frame;
    if Frame(m, q, o) == Frame(m, r, n) { assert SameFrame(m, r, n, q, o); }
  }

  /** The entry that points to table f. */
  lemma TableEntry(f: nat)
    ensures Valid(f * 1024 + 1) && Ppn(f * 1024 + 1) == f
  {
    OddDouble(512 * f);
  }

  lemma OddDouble(k: nat)
    ensures (2 * k + 1) % 2 == 1
  {
  }

  /** The table p of node n is whole, is not f, and belongs to no other node of the tree. */
  lemma LinkPlace(m: Mem, r: nat, n: Node, p: nat, f: nat, o: Node)
    requires Sound(m) && HasNode(m, r, n) && Frame(m, r, n) == Some(p) && NoRef(m, f) && HasNode(m, r, o)
    ensures p in m.tables && |m.tables[p]| == ENTRIES && p != f
    ensures Frame(m, r, o) == Some(p) ==> o == n
  {
    hide Frame, Ppn, Valid, Entry;
    assert FrameOk(m, r, n);
    OnlyHolder(m, r, n, r, o);
  }

  /** Nodes of tree r after an invalid entry idx of its node n has come to point to the empty
      table f. */
  lemma LinkedNode(m: Mem, r: nat, n: Node, p: nat, idx: nat, f: nat, o: Node)
    requires Sound(m) && HasNode(m, r, n) && !n.Low? && idx < ENTRIES && Frame(m, r, n) == Some(p)
      && Frame(m, r, ChildOf(n, idx)).None?
    requires f in m.tables && m.tables[f] == Empty() && NoRef(m, f) && HasNode(m, r, o)
    ensures p in m.tables && |m.tables[p]| == ENTRIES
    ensures Frame(SetEntry(m, p, idx, f * 1024 + 1), r, o) == if o == ChildOf(n, idx) then Some(f) else Frame(m, r, o)
  {
    hide Sound, NoRef, Entry, SetEntry, Valid, Ppn;
    TableEntry(f);
    LinkPlace(m, r, n, p, f, Top);
    if o.Low? { LinkPlace(m, r, n, p, f, Mid(o.i)); }
    match o
    case Top =>
    case Mid(i) => EntryAfter(m, p, idx, f * 1024 + 1, r, i);
    case Low(i, j) =>
      EntryAfter(m, p, idx, f * 1024 + 1, r, i);
      EntryAfter(m, p, idx, f * 1024 + 1, f, j);
      EmptyEntry(m, f, j);
      if Below(m, r, i).Some? { EntryAfter(m, p, idx, f * 1024 + 1, Below(m, r, i).value, j); }
  }

  lemma EmptyEntry(m: Mem, f: nat, j: nat)
    requires f in m.tables && m.tables[f] == Empty()
    ensures Entry(m, f, j) == 0 && !Valid(0)
  {
  }

  lemma LinkedTables(m: Mem, p: nat, idx: nat, v: nat)
    requires TablesOk(m) && p in m.tables && idx < |m.tables[p]|
    ensures var m' := SetEntry(m, p, idx, v);
      TablesOk(m') && OnlyTable(m, m', p) && m'.tables.Keys == m.tables.Keys && m'.pages == m.pages
  {
  }

  /** Linking an empty table below a node changes that one node and no leaf. */
  lemma LinkOk(m: Mem, r: nat, n: Node, p: nat, idx: nat, f: nat)
    requires Sound(m) && HasNode(m, r, n) && !n.Low? && idx < ENTRIES && Frame(m, r, n) == Some(p)
      && Frame(m, r, ChildOf(n, idx)).None?
    requires f in m.tables && m.tables[f] == Empty() && NoRef(m, f)
    ensures p in m.tables && idx < |m.tables[p]|
    ensures var m' := SetEntry(m, p, idx, f * 1024 + 1);
            && Sound(m') && SameLeaves(m, m') && Frame(m', r, ChildOf(n, idx)) == Some(f)
            && (forall q, o :: HasNode(m, q, o) && (q != r || o != ChildOf(n, idx)) ==> NodeKept(m, m', q, o))
  {
    assert FrameOk(m, r, n);
    assert HasNode(m, r, ChildOf(n, idx));
    var c, m' := ChildOf(n, idx), SetEntry(m, p, idx, f * 1024 + 1);
    LinkedTables(m, p, idx, f * 1024 + 1);
    forall q, o | HasNode(m, q, o) ensures Frame(m', q, o) == if q == r && o == c then Some(f) else Frame(m, q, o) {
      if q == r { LinkedNode(m, r, n, p, idx, f, o); } else { OtherTree(m, m', r, n, p, q); SameNode(m, m', p, q, o); }
    }
    LinkSound(m, m', r, c, f);
    LinkLeaves(m, m', r, n, p, idx, f);
  }

  lemma OtherTree(m: Mem, m': Mem, r: nat, n: Node, p: nat, q: nat)
    requires Sound(m) && HasNode(m, r, n) && Frame(m, r, n) == Some(p) && q != r
    ensures forall o :: HasNode(m, q, o) ==> Frame(m, q, o) != Some(p)
  {
    hide Frame;
    forall o | HasNode(m, q, o) ensures Frame(m, q, o) != Some(p) { OnlyHolder(m, r, n, q, o); }
  }

  lemma LinkSound(m: Mem, m': Mem, r: nat, c: Node, f: nat)
    requires Sound(m) && TablesOk(m') && m'.roots == m.roots && m'.tables.Keys == m.tables.Keys && HasNode(m, r, c)
    requires f in m.tables && NoRef(m, f)
    requires forall q, o :: HasNode(m, q, o) ==> Frame(m', q, o) == if q == r && o == c then Some(f) else Frame(m, q, o)
    ensures Sound(m')
  {
    hide Frame;
    forall q, o | HasNode(m', q, o) ensures FrameOk(m', q, o) { assert HasNode(m, q, o) && FrameOk(m, q, o); }
    forall q, o, t, u | HasNode(m', q, o) && HasNode(m', t, u) && SameFrame(m', q, o, t, u) ensures q == t && o == u {
      assert HasNode(m, q, o) && HasNode(m, t, u);
      if !(q == r && o == c) && !(t == r && u == c) { assert SameFrame(m, q, o, t, u); }
    }
  }

  lemma LinkLeaves(m: Mem, m': Mem, r: nat, n: Node, p: nat, idx: nat, f: nat)
    requires Sound(m) && HasNode(m, r, n) && !n.Low? && idx < ENTRIES && Frame(m, r, n) == Some(p)
      && Frame(m, r, ChildOf(n, idx)).None?
    requires f in m.tables && m.tables[f] == Empty() && NoRef(m, f) && OnlyTable(m, m', p)
      && m'.tables.Keys == m.tables.Keys
    requires forall q, o :: HasNode(m, q, o) ==>
      Frame(m', q, o) == if q == r && o == ChildOf(n, idx) then Some(f) else Frame(m, q, o)
    ensures SameLeaves(m, m')
  {
    assert p != f by { assert Frame(m, r, n) != Some(f); }
    hide Frame, Entry;
    forall q: nat, i: nat, j: nat, k: nat | q in m.roots && i < ENTRIES && j < ENTRIES
      ensures LeafKept(m, m', q, i, j, k)
    {
      assert HasNode(m, q, Low(i, j));
      if q == r && Low(i, j) == ChildOf(n, idx) {
        SameEntry(m, m', p, f, k);
        EmptyEntry(m, f, k);
      } else if Frame(m, q, Low(i, j)).Some? {
        OnlyHolder(m, r, n, q, Low(i, j));
        SameEntry(m, m', p, Frame(m, q, Low(i, j)).value, k);
      }
    }
  }

  /** Setting a leaf entry changes that leaf and no table. */
  lemma LeafOk(m: Mem, r: nat, i: nat, j: nat, k: nat, p: nat, v: nat)
    requires Sound(m) && r in m.roots && i < ENTRIES && j < ENTRIES && k < ENTRIES && Frame(m, r, Low(i, j)) == Some(p)
    ensures p in m.tables && k < |m.tables[p]|
    ensures var m' := SetEntry(m, p, k, v);
            && Sound(m') && OneLeaf(m, m', r, i, j, k, v) && (forall q, o :: HasNode(m, q, o) ==> NodeKept(m, m', q, o))
  {
    var n := Low(i, j);
    assert HasNode(m, r, n) && FrameOk(m, r, n);
    var m' := SetEntry(m, p, k, v);
    LinkedTables(m, p, k, v);
    forall q, o | HasNode(m, q, o) ensures NodeKept(m, m', q, o) { LeafNode(m, m', r, n, p, q, o); }
    NodesSound(m, m');
    hide Frame, Entry, Sound;
    forall q: nat, x: nat, y: nat, z: nat | q in m.roots && x < ENTRIES && y < ENTRIES
      ensures Leaf(m', q, x, y, z) == if q == r && x == i && y == j && z == k then v else Leaf(m, q, x, y, z)
    {
      assert HasNode(m, q, Low(x, y)) && NodeKept(m, m', q, Low(x, y));
      OnlyHolder(m, r, n, q, Low(x, y));
      if Frame(m, q, Low(x, y)).Some? { EntryAfter(m, p, k, v, Frame(m, q, Low(x, y)).value, z); }
    }
  }

  /** Nodes above the leaf tables do not look into them. */
  lemma LeafNode(m: Mem, m': Mem, r: nat, n: Node, p: nat, q: nat, o: Node)
    requires Sound(m) && HasNode(m, r, n) && n.Low? && Frame(m, r, n) == Some(p) && OnlyTable(m, m', p)
      && HasNode(m, q, o)
    ensures NodeKept(m, m', q, o)
  {
    OnlyHolder(m, r, n, q, Top);
    if o.Low? { OnlyHolder(m, r, n, q, Mid(o.i)); }
    hide Sound, Entry, OnlyTable;
    match o
    case Top =>
    case Mid(i) => SameEntry(m, m', p, q, i);
    case Low(i, j) =>
      SameEntry(m, m', p, q, i);
      if Below(m, q, i).Some? { SameEntry(m, m', p, Below(m, q, i).value, j); }
  }

  ghost predicate OneLeaf(m: Mem, m': Mem, r: nat, i: nat, j: nat, k: nat, v: nat) {
    m'.roots == m.roots && forall q: nat, x: nat, y: nat, z: nat :: q in m.roots && x < ENTRIES && y < ENTRIES ==>
      Leaf(m', q, x, y, z) == if q == r && x == i && y == j && z == k then v else Leaf(m, q, x, y, z)
  }
}
