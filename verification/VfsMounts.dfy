/** What mounting and unmounting do to the mount tree and to the inodes of a super block. */
module VfsMounts {
  import opened Prelude
  import opened PathNorm
  import opened VfsRefs
  import opened VfsShape

  // ----- the tree -----

  /** mnt as first child of p. */
  function Linked(mounts: map<nat, Mount>, p: nat, m: nat, mnt: Mount): map<nat, Mount>
    requires p in mounts
  {
    mounts[p := mounts[p].(child := [m] + mounts[p].child)][m := mnt]
  }

  function Without(list: seq<nat>, m: nat): seq<nat> {
    if list == [] then [] else if list[0] == m then list[1..] else [list[0]] + Without(list[1..], m)
  }

  /** The tree without leaf m. */
  function Unlinked(mounts: map<nat, Mount>, p: nat, m: nat): map<nat, Mount>
    requires p in mounts
  {
    mounts[p := mounts[p].(child := Without(mounts[p].child, m))] - {m}
  }

  lemma DistinctCons(m: nat, list: seq<nat>)
    requires Distinct(list) && m !in list
    ensures Distinct([m] + list)
  {
    var all := [m] + list;
    forall j, k | 0 <= j < k < |all| ensures all[j] != all[k] {
      if j > 0 { assert list[j - 1] != list[k - 1]; }
    }
  }

  lemma LinkedOk(mounts: map<nat, Mount>, root: Option<nat>, next: nat, p: nat, mnt: Mount)
    requires MountsOk(mounts, root, next) && p in mounts && mnt.parent == Some(p) && mnt.child == []
      && root != Some(next)
    requires forall m :: m in mounts ==> mounts[m].sb != mnt.sb
    ensures MountsOk(Linked(mounts, p, next, mnt), root, next + 1) && next !in mounts
  {
    hide MountOk;
    Unissued(mounts, root, next);
    var now := Linked(mounts, p, next, mnt);
    forall m | m in now ensures MountOk(now, root, next + 1, m) { LinkedKeeps(mounts, root, next, p, mnt, m); }
  }

  lemma Unissued(mounts: map<nat, Mount>, root: Option<nat>, next: nat)
    requires MountsOk(mounts, root, next)
    ensures next !in mounts
  {
    if next in mounts { assert false; }
  }

  lemma LinkedKeeps(mounts: map<nat, Mount>, root: Option<nat>, next: nat, p: nat, mnt: Mount, m: nat)
    requires MountsOk(mounts, root, next) && p in mounts && mnt.parent == Some(p) && mnt.child == [] && next !in mounts
    requires root != Some(next) && (m in mounts || m == next)
    ensures MountOk(Linked(mounts, p, next, mnt), root, next + 1, m)
  {
    assert MountOk(mounts, root, next, p);
    if m != next { assert MountOk(mounts, root, next, m); }
    hide MountsOk, Distinct, ListOk, UpOk;
    DistinctNone();
    if m == p {
      NotListed(mounts, p, next);
      DistinctCons(next, mounts[p].child);
    }
    LinkedList(mounts, next, p, mnt, m);
    LinkedUp(mounts, root, next, p, mnt, m);
  }

  lemma NotListed(mounts: map<nat, Mount>, p: nat, next: nat)
    requires p in mounts && ListOk(mounts, p, mounts[p].child) && next !in mounts
    ensures next !in mounts[p].child
  {
  }

  lemma LinkedList(mounts: map<nat, Mount>, next: nat, p: nat, mnt: Mount, m: nat)
    requires p in mounts && p < next && mnt.parent == Some(p) && mnt.child == [] && next !in mounts
      && (m in mounts || m == next)
    requires m in mounts ==> ListOk(mounts, m, mounts[m].child)
    ensures var now := Linked(mounts, p, next, mnt); ListOk(now, m, now[m].child)
  {
    var now := Linked(mounts, p, next, mnt);
    forall c | c in now[m].child ensures ChildOk(now, m, c) {
      if c != next { assert ChildOk(mounts, m, c); }
    }
  }

  lemma LinkedUp(mounts: map<nat, Mount>, root: Option<nat>, next: nat, p: nat, mnt: Mount, m: nat)
    requires p in mounts && mnt.parent == Some(p) && next !in mounts && root != Some(next) && (m in mounts || m == next)
    requires m in mounts ==> UpOk(mounts, root, m)
    ensures UpOk(Linked(mounts, p, next, mnt), root, m)
  {
    assert next in Linked(mounts, p, next, mnt)[p].child;
  }

  lemma DistinctNone()
    ensures Distinct([])
  {
  }

  lemma {:induction false} WithoutOk(list: seq<nat>, m: nat)
    requires Distinct(list)
    ensures forall x :: x in Without(list, m) <==> x in list && x != m
    ensures Distinct(Without(list, m))
  {
    if list != [] {
      var rest := list[1..];
      assert forall x :: x in list <==> x == list[0] || x in rest;
      assert Distinct(rest) && list[0] !in rest;
      if list[0] != m {
        WithoutOk(rest, m);
        DistinctCons(list[0], Without(rest, m));
      }
    }
  }

  lemma UnlinkedOk(mounts: map<nat, Mount>, root: Option<nat>, next: nat, p: nat, m: nat)
    requires MountsOk(mounts, root, next) && m in mounts && mounts[m].parent == Some(p) && p in mounts
      && mounts[m].child == []
    ensures MountsOk(Unlinked(mounts, p, m), root, next)
  {
    hide MountOk;
    LeafLinked(mounts, root, next, p, m);
    hide Without;
    var now := Unlinked(mounts, p, m);
    forall x | x in now ensures MountOk(now, root, next, x) { UnlinkedKeeps(mounts, root, next, p, m, x); }
  }

  lemma LeafLinked(mounts: map<nat, Mount>, root: Option<nat>, next: nat, p: nat, m: nat)
    requires MountsOk(mounts, root, next) && m in mounts && mounts[m].parent == Some(p) && p in mounts
    ensures root != Some(m) && p != m
  {
    assert MountOk(mounts, root, next, m) && MountOk(mounts, root, next, p);
    hide MountsOk;
    ParentOlder(mounts, root, p, m);
  }

  lemma UnlinkedKeeps(mounts: map<nat, Mount>, root: Option<nat>, next: nat, p: nat, m: nat, x: nat)
    requires MountsOk(mounts, root, next) && m in mounts && mounts[m].parent == Some(p) && p in mounts
      && mounts[m].child == []
    requires x in mounts && x != m
    ensures MountOk(Unlinked(mounts, p, m), root, next, x)
  {
    assert MountOk(mounts, root, next, x) && MountOk(mounts, root, next, p) && MountOk(mounts, root, next, m);
    hide MountsOk, Distinct, Without, UpOk, ListOk;
    WithoutOk(mounts[p].child, m);
    ParentOlder(mounts, root, p, m);
    UnlinkedList(mounts, p, m, x);
    UnlinkedUp(mounts, root, p, m, x);
  }

  lemma ParentOlder(mounts: map<nat, Mount>, root: Option<nat>, p: nat, m: nat)
    requires m in mounts && p in mounts && UpOk(mounts, root, m) && mounts[m].parent == Some(p)
      && ListOk(mounts, p, mounts[p].child)
    ensures p < m
  {
    assert ChildOk(mounts, p, m);
  }

  lemma UnlinkedList(mounts: map<nat, Mount>, p: nat, m: nat, x: nat)
    requires m in mounts && p in mounts && p != m && mounts[m].parent == Some(p) && x in mounts && x != m
    requires ListOk(mounts, x, mounts[x].child) && Distinct(mounts[p].child)
    ensures var now := Unlinked(mounts, p, m); ListOk(now, x, now[x].child)
  {
    hide Distinct, Without;
    WithoutOk(mounts[p].child, m);
    var now := Unlinked(mounts, p, m);
    forall c | c in now[x].child ensures ChildOk(now, x, c) {
      assert c in mounts[x].child;
      assert ChildOk(mounts, x, c);
    }
  }

  lemma UnlinkedUp(mounts: map<nat, Mount>, root: Option<nat>, p: nat, m: nat, x: nat)
    requires m in mounts && p in mounts && mounts[m].child == [] && x in mounts && x != m && Distinct(mounts[p].child)
    requires UpOk(mounts, root, x) && p != m
    ensures UpOk(Unlinked(mounts, p, m), root, x)
  {
    hide Distinct, Without;
    WithoutOk(mounts[p].child, m);
  }

  /** Taking a leaf out of its parent's list and putting it back in front. */
  lemma RelinkedOk(mounts: map<nat, Mount>, root: Option<nat>, next: nat, p: nat, m: nat)
    requires MountsOk(mounts, root, next) && m in mounts && mounts[m].parent == Some(p) && p in mounts
    ensures MountsOk(mounts[p := mounts[p].(child := [m] + Without(mounts[p].child, m))], root, next)
  {
    hide MountOk;
    var now := mounts[p := mounts[p].(child := [m] + Without(mounts[p].child, m))];
    forall x | x in now ensures MountOk(now, root, next, x) { RelinkedKeeps(mounts, root, next, p, m, x); }
  }

  lemma RelinkedKeeps(mounts: map<nat, Mount>, root: Option<nat>, next: nat, p: nat, m: nat, x: nat)
    requires MountsOk(mounts, root, next) && m in mounts && mounts[m].parent == Some(p) && p in mounts && x in mounts
    ensures MountOk(mounts[p := mounts[p].(child := [m] + Without(mounts[p].child, m))], root, next, x)
  {
    assert MountOk(mounts, root, next, x) && MountOk(mounts, root, next, p) && MountOk(mounts, root, next, m);
    hide MountsOk, Distinct, Without, ListOk;
    WithoutOk(mounts[p].child, m);
    DistinctCons(m, Without(mounts[p].child, m));
    SameList(mounts, p, x, [m] + Without(mounts[p].child, m));
  }

  /** A list with the same members is as good. */
  lemma SameList(mounts: map<nat, Mount>, p: nat, x: nat, list: seq<nat>)
    requires p in mounts && x in mounts && ListOk(mounts, x, mounts[x].child)
    requires forall c :: c in list <==> c in mounts[p].child
    ensures var now := mounts[p := mounts[p].(child := list)]; ListOk(now, x, now[x].child)
  {
    var now := mounts[p := mounts[p].(child := list)];
    forall c | c in now[x].child ensures ChildOk(now, x, c) { assert ChildOk(mounts, x, c); }
  }

  // ----- super blocks -----

  lemma ChildStays(s: State, s': State, mounts: map<nat, Mount>, mounts': map<nat, Mount>, b: nat, p: nat)
    requires MountedAt(s, mounts, b, p)
    requires forall m :: m in mounts ==>
      m in mounts' && mounts'[m].sb == mounts[m].sb && mounts'[m].parent == mounts[m].parent
    requires forall x :: x in s.roots ==> x in s'.roots && s'.roots[x] == s.roots[x]
    ensures MountedAt(s', mounts', b, p)
  {
    var m :| m in mounts && mounts[m].sb == b && IsChildOf(s, mounts, mounts[m], p);
    assert IsChildOf(s', mounts', mounts'[m], p);
  }

  /** Super block b with root i is mounted and its root cached under k. */
  lemma SbMounted(s: State, s': State, mounts: map<nat, Mount>, mounts': map<nat, Mount>, k: Key, i: nat, b: nat)
    requires Balanced(s) && SbOk(s, mounts) && Balanced(s') && Evolves(s, s')
    requires k !in s.cache && s'.cache == s.cache[k := i] && k.name == "/"
    requires b >= s.nextSb && s'.roots == s.roots[b := i] && i in s'.inodes && s'.inodes[i].sb == b
    requires k.parent.Dir? ==> k.parent.i in s'.inodes && MountedAt(s', mounts', b, k.parent.i)
    requires forall m :: m in mounts ==>
      m in mounts' && mounts'[m].sb == mounts[m].sb && mounts'[m].parent == mounts[m].parent
    ensures SbOk(s', mounts')
  {
    hide Balanced, MountedAt;
    forall x ensures EntryOk(s', mounts', x) {
      if x in s.cache && x.parent.Dir? {
        EntryLive(s, x);
        EntryLive(s', x);
        assert EntryOk(s, mounts, x);
        SbBelow(s, s.cache[x]);
        var c := s.inodes[s.cache[x]].sb;
        if x.name == "/" && c in s.roots {
          RootsOld(s, b);
          ChildStays(s, s', mounts, mounts', c, x.parent.i);
        }
      }
    }
    forall x ensures RootOk(s', x) {
      if x in s.roots { RootLive(s, x); RootLive(s', x); assert RootOk(s, x); SbBelow(s, s.roots[x]); }
    }
  }

  lemma SbBelow(s: State, i: nat)
    requires Balanced(s) && i in s.inodes
    ensures s.inodes[i].sb < s.nextSb
  {
    assert InodeOk(s, i);
  }

  lemma RootsOld(s: State, b: nat)
    requires Balanced(s) && (forall x :: RootOk(s, x)) && b >= s.nextSb
    ensures b !in s.roots
  {
    assert RootOk(s, b);
    if b in s.roots { SbBelow(s, s.roots[b]); assert false; }
  }

  /** The leaf m, with super block b, is unmounted. */
  lemma SbUnmounted(s: State, s': State, mounts: map<nat, Mount>, root: Option<nat>, next: nat, p: nat, m: nat)
    requires Balanced(s) && SbOk(s, mounts) && Balanced(s') && Evolves(s, s') && MountsOk(mounts, root, next)
    requires m in mounts && p in mounts && mounts[m].parent == Some(p) && mounts[m].child == []
    requires s'.roots == s.roots - {mounts[m].sb}
    requires forall k :: k in s'.cache ==> k in s.cache && s'.cache[k] == s.cache[k]
    ensures SbOk(s', Unlinked(mounts, p, m))
  {
    hide Balanced, MountsOk;
    forall k ensures EntryOk(s', Unlinked(mounts, p, m), k) {
      if k in s'.cache && k.parent.Dir? {
        EntryLive(s, k);
        EntryLive(s', k);
        assert EntryOk(s, mounts, k);
        var b := s.inodes[s.cache[k]].sb;
        if k.name == "/" && b in s'.roots { LeafGone(s, s', mounts, root, next, p, m, b, k.parent.i); }
      }
    }
    forall b ensures RootOk(s', b) {
      if b in s'.roots { RootLive(s, b); RootLive(s', b); assert RootOk(s, b); }
    }
  }

  lemma LeafGone(s: State, s': State, mounts: map<nat, Mount>, root: Option<nat>, next: nat, p: nat, m: nat, b: nat,
      i: nat)
    requires MountsOk(mounts, root, next) && MountedAt(s, mounts, b, i)
    requires m in mounts && p in mounts && mounts[m].parent == Some(p) && mounts[m].child == []
    requires s'.roots == s.roots - {mounts[m].sb} && b != mounts[m].sb
    ensures MountedAt(s', Unlinked(mounts, p, m), b, i)
  {
    hide MountsOk, Without;
    var now := Unlinked(mounts, p, m);
    var x :| x in mounts && mounts[x].sb == b && IsChildOf(s, mounts, mounts[x], i);
    LeafIsNoParent(mounts, root, next, m, x);
    assert x in now && now[x].sb == b && IsChildOf(s', now, now[x], i);
  }

  lemma LeafIsNoParent(mounts: map<nat, Mount>, root: Option<nat>, next: nat, m: nat, x: nat)
    requires MountsOk(mounts, root, next) && m in mounts && mounts[m].child == [] && x in mounts
      && mounts[x].parent.Some?
    ensures var y := mounts[x].parent.value; y in mounts && y != m && mounts[y].sb != mounts[m].sb
  {
    assert MountOk(mounts, root, next, x);
  }

  // ----- emptying the cache of a super block -----

  /** Cached keys whose inode is on super block b. */
  ghost function OfSb(s: State, b: nat): set<Key> {
    set k | k in s.cache && s.cache[k] in s.inodes && s.inodes[s.cache[k]].sb == b
  }

  lemma OfSbDrop(s: State, s': State, k: Key, b: nat)
    requires Balanced(s) && Balanced(s') && Evolves(s, s') && k in OfSb(s, b) && s'.cache == s.cache - {k}
    ensures OfSb(s', b) == OfSb(s, b) - {k}
  {
    hide Balanced;
    forall x | x in s'.cache ensures x in OfSb(s', b) <==> x in OfSb(s, b) {
      EntryLive(s, x);
      EntryLive(s', x);
    }
  }

  /** No task uses super block b. */
  ghost predicate Idle(s: State, b: nat) {
    && (forall t :: t in s.cwd && s.cwd[t] in s.inodes ==> s.inodes[s.cwd[t]].sb != b)
    && (forall d :: d in s.ofile && s.ofile[d] in s.files ==> !FileOn(s, s.ofile[d], b))
  }

  predicate FileOn(s: State, f: nat, b: nat) {
    f in s.files && s.files[f].inode.Some? && s.files[f].inode.value in s.inodes
        && s.inodes[s.files[f].inode.value].sb == b
  }

  /** Every cached inode's super block is alive. */
  ghost predicate NoStale(s: State) {
    forall k :: k in s.cache && s.cache[k] in s.inodes ==> s.inodes[s.cache[k]].sb in s.roots
  }

  ghost predicate NoneLeft(s: State, b: nat) {
    forall i :: i in s.inodes ==> s.inodes[i].sb != b
  }

  /** With nothing cached, opened, used as working directory or held, no inode of the super
      block is left. */
  lemma Emptied(s: State, mounts: map<nat, Mount>, b: nat)
    requires Balanced(s) && SbOk(s, mounts) && NoStale(s) && Idle(s, b) && b !in s.roots
    requires OfSb(s, b) == {} && s.holds == multiset{} && s.fholds == multiset{}
    requires forall m :: m in mounts ==> mounts[m].sb in s.roots
    ensures NoneLeft(s, b)
  {
    hide Balanced, SbOk, Idle;
    forall i | i in s.inodes ensures s.inodes[i].sb != b {
      if s.inodes[i].sb == b {
        NotCachedThere(s, mounts, b, i);
        NotUsedThere(s, b, i);
        NotRoot(s, mounts, b, i);
        NoRefs(s, i);
        assert false;
      }
    }
  }

  lemma NoRefs(s: State, i: nat)
    requires Balanced(s) && s.holds == multiset{}
    requires Hits(s.cache, i) == 0 && Hits(ParentsOf(s.cache), i) == 0 && Hits(InodesOf(s.files), i) == 0
      && Hits(s.cwd, i) == 0 && Hits(s.roots, i) == 0
    ensures i !in s.inodes
  {
    assert InodeOk(s, i);
  }

  lemma NotCachedThere(s: State, mounts: map<nat, Mount>, b: nat, i: nat)
    requires Balanced(s) && SbOk(s, mounts) && NoStale(s) && b !in s.roots && OfSb(s, b) == {} && i in s.inodes
      && s.inodes[i].sb == b
    ensures Hits(s.cache, i) == 0 && Hits(ParentsOf(s.cache), i) == 0
  {
    hide Balanced, Hits, EntryOk;
    forall k | k in s.cache ensures s.cache[k] != i { assert k !in OfSb(s, b); }
    HitsNone(s.cache, i);
    forall k | k in ParentsOf(s.cache) ensures ParentsOf(s.cache)[k] != i {
      EntryLive(s, k);
      ParentElsewhere(s, mounts, b, k);
    }
    HitsNone(ParentsOf(s.cache), i);
  }

  lemma ParentElsewhere(s: State, mounts: map<nat, Mount>, b: nat, k: Key)
    requires EntryOk(s, mounts, k) && k in s.cache && k.parent.Dir? && s.cache[k] in s.inodes
    requires NoStale(s) && b !in s.roots && OfSb(s, b) == {} && (forall x :: RootOk(s, x))
    ensures k.parent.i in s.inodes && s.inodes[k.parent.i].sb != b
  {
    var c := s.inodes[s.cache[k]].sb;
    if k.name == "/" {
      var m :| m in mounts && mounts[m].sb == c && IsChildOf(s, mounts, mounts[m], k.parent.i);
      assert RootOk(s, mounts[mounts[m].parent.value].sb);
    } else {
      assert k !in OfSb(s, b);
    }
  }

  lemma NotUsedThere(s: State, b: nat, i: nat)
    requires Balanced(s) && Idle(s, b) && s.fholds == multiset{} && i in s.inodes && s.inodes[i].sb == b
    ensures Hits(s.cwd, i) == 0 && Hits(InodesOf(s.files), i) == 0
  {
    HitsNone(s.cwd, i);
    forall f | f in InodesOf(s.files) ensures InodesOf(s.files)[f] != i {
      assert FileOk(s, f);
      Referenced(s, f);
      var d :| d in s.ofile && s.ofile[d] == f;
      assert !FileOn(s, s.ofile[d], b);
    }
    HitsNone(InodesOf(s.files), i);
  }

  lemma Referenced(s: State, f: nat)
    requires Hits(s.ofile, f) > 0
    ensures exists d :: d in s.ofile && s.ofile[d] == f
  {
    var hits := set d | d in s.ofile && s.ofile[d] == f;
    if hits == {} { assert false; }
    var d :| d in hits;
  }

  lemma NotRoot(s: State, mounts: map<nat, Mount>, b: nat, i: nat)
    requires SbOk(s, mounts) && b !in s.roots && i in s.inodes && s.inodes[i].sb == b
    ensures Hits(s.roots, i) == 0
  {
    forall x | x in s.roots ensures s.roots[x] != i { assert RootOk(s, x); }
    HitsNone(s.roots, i);
  }

  // ----- mounts below a mount -----

  predicate Below(mounts: map<nat, Mount>, m: nat, node: nat)
    decreases m
  {
    && m in mounts && mounts[m].parent.Some? && mounts[m].parent.value < m
    && (mounts[m].parent.value == node || Below(mounts, mounts[m].parent.value, node))
  }

  /** Whatever is below node is a child of node or below one. */
  lemma {:induction false} BelowVia(mounts: map<nat, Mount>, root: Option<nat>, next: nat, m: nat, node: nat)
    requires MountsOk(mounts, root, next) && node in mounts && Below(mounts, m, node)
    ensures exists c :: c in mounts[node].child && (m == c || Below(mounts, m, c))
    decreases m
  {
    assert MountOk(mounts, root, next, m);
    var p := mounts[m].parent.value;
    if p == node {
      assert m in mounts[node].child;
    } else {
      BelowVia(mounts, root, next, p, node);
      var c :| c in mounts[node].child && (p == c || Below(mounts, p, c));
      assert Below(mounts, m, c);
    }
  }

  /** Path differs for a child c and everything below it. */
  ghost predicate NoneAt(mounts: map<nat, Mount>, c: nat, path: string) {
    c in mounts && mounts[c].path != path && forall m :: Below(mounts, m, c) ==> mounts[m].path != path
  }

  lemma NoneBelow(mounts: map<nat, Mount>, root: Option<nat>, next: nat, node: nat, path: string)
    requires MountsOk(mounts, root, next) && node in mounts
      && forall c :: c in mounts[node].child ==> NoneAt(mounts, c, path)
    ensures forall m :: Below(mounts, m, node) ==> mounts[m].path != path
  {
    forall m | Below(mounts, m, node) ensures mounts[m].path != path {
      BelowVia(mounts, root, next, m, node);
      var c :| c in mounts[node].child && (m == c || Below(mounts, m, c));
      assert NoneAt(mounts, c, path);
    }
  }
}
