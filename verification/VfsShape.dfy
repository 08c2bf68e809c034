/** The mount tree and what ties inodes, super blocks and cache keys together. */
module VfsShape {
  import opened Prelude
  import opened PathNorm
  import opened VfsRefs

  datatype Mount = Mount(path: string, sb: nat, parent: Option<nat>, child: seq<nat>)

  /** Inodes that were there keep everything but their count; others are new. */
  ghost predicate Evolves(s: State, s': State) {
    && s.nextIno <= s'.nextIno
    && forall i :: i in s'.inodes ==>
        (i in s.inodes && s'.inodes[i].(refcount := 0) == s.inodes[i].(refcount := 0)) || s.nextIno <= i
  }

  lemma EvolvesTwice(s: State, s': State, s'': State)
    requires Evolves(s, s') && Evolves(s', s'')
    ensures Evolves(s, s'')
  {
  }

  /** b is mounted below the super block whose root is p. */
  ghost predicate MountedAt(s: State, mounts: map<nat, Mount>, b: nat, p: nat) {
    exists m :: m in mounts && mounts[m].sb == b && IsChildOf(s, mounts, mounts[m], p)
  }

  predicate IsChildOf(s: State, mounts: map<nat, Mount>, mnt: Mount, p: nat) {
    && mnt.parent.Some? && mnt.parent.value in mounts
    && mounts[mnt.parent.value].sb in s.roots && s.roots[mounts[mnt.parent.value].sb] == p
  }

  ghost predicate MountedOrGone(s: State, mounts: map<nat, Mount>, b: nat, p: nat) {
    b in s.roots ==> MountedAt(s, mounts, b, p)
  }

  /** A cached inode is on its directory's super block, or is the root of one mounted there. */
  ghost predicate EntryOk(s: State, mounts: map<nat, Mount>, k: Key) {
    k in s.cache && k.parent.Dir? ==>
      && s.cache[k] in s.inodes && k.parent.i in s.inodes
      && if k.name == "/" then MountedOrGone(s, mounts, s.inodes[s.cache[k]].sb, k.parent.i)
         else s.inodes[s.cache[k]].sb == s.inodes[k.parent.i].sb
  }

  ghost predicate RootOk(s: State, b: nat) {
    b in s.roots ==> s.roots[b] in s.inodes && s.inodes[s.roots[b]].sb == b
  }

  ghost predicate SbOk(s: State, mounts: map<nat, Mount>) {
    && (forall k :: EntryOk(s, mounts, k))
    && (forall b :: RootOk(s, b))
  }

  predicate Distinct(list: seq<nat>) {
    forall j, k :: 0 <= j < k < |list| ==> list[j] != list[k]
  }

  /** c is below m, and younger, so the tree has no cycle. */
  predicate ChildOk(mounts: map<nat, Mount>, m: nat, c: nat) {
    m < c && c in mounts && mounts[c].parent == Some(m)
  }

  predicate ListOk(mounts: map<nat, Mount>, m: nat, list: seq<nat>) {
    forall c :: c in list ==> ChildOk(mounts, m, c)
  }

  predicate UpOk(mounts: map<nat, Mount>, root: Option<nat>, m: nat)
    requires m in mounts
  {
    var mnt := mounts[m];
    && (mnt.parent.None? <==> root == Some(m)) && (mnt.parent.None? ==> mnt.path == "/")
    && (mnt.parent.Some? ==> mnt.parent.value in mounts && m in mounts[mnt.parent.value].child)
  }

  predicate MountOk(mounts: map<nat, Mount>, root: Option<nat>, next: nat, m: nat)
    requires m in mounts
  {
    m < next && ListOk(mounts, m, mounts[m].child) && Distinct(mounts[m].child) && UpOk(mounts, root, m)
  }

  ghost predicate MountsOk(mounts: map<nat, Mount>, root: Option<nat>, next: nat) {
    && (forall m :: m in mounts ==> MountOk(mounts, root, next, m))
    && (root.Some? ==> root.value in mounts)
    && (forall m, n :: m in mounts && n in mounts && mounts[m].sb == mounts[n].sb ==> m == n)
  }

  /** Every mount's super block is alive. */
  ghost predicate SupersOk(s: State, mounts: map<nat, Mount>) {
    forall m :: m in mounts ==> mounts[m].sb in s.roots
  }

  lemma EntryLive(s: State, k: Key)
    requires Balanced(s) && k in s.cache
    ensures s.cache[k] in s.inodes && s.cache[k] < s.nextIno && s.inodes[s.cache[k]].key == k
    ensures k.parent.Dir? ==> k.parent.i in s.inodes && k.parent.i < s.nextIno
  {
    OwnedIsLive(s);
    assert KeyOk(s, k);
    assert InodeOk(s, s.cache[k]);
    if k.parent.Dir? { assert InodeOk(s, k.parent.i); }
  }

  lemma RootLive(s: State, b: nat)
    requires Balanced(s) && b in s.roots
    ensures s.roots[b] in s.inodes && s.roots[b] < s.nextIno
  {
    OwnedIsLive(s);
    assert InodeOk(s, s.roots[b]);
  }

  /** Losing cache entries and unreferenced inodes keeps the rest in order. */
  lemma SbKept(s: State, s': State, mounts: map<nat, Mount>)
    requires Balanced(s) && SbOk(s, mounts) && Balanced(s') && Evolves(s, s') && s'.roots == s.roots
    requires forall k :: k in s'.cache ==> k in s.cache && s'.cache[k] == s.cache[k]
    ensures SbOk(s', mounts)
  {
    hide Balanced;
    forall k ensures EntryOk(s', mounts, k) {
      if k in s'.cache && k.parent.Dir? { EntryKept(s, s', mounts, k); }
    }
    forall b ensures RootOk(s', b) {
      if b in s'.roots { RootLive(s, b); RootLive(s', b); assert RootOk(s, b); }
    }
  }

  lemma EntryKept(s: State, s': State, mounts: map<nat, Mount>, k: Key)
    requires Balanced(s) && EntryOk(s, mounts, k) && Balanced(s') && Evolves(s, s') && s'.roots == s.roots
    requires k in s'.cache && k in s.cache && s'.cache[k] == s.cache[k] && k.parent.Dir?
    ensures EntryOk(s', mounts, k)
  {
    hide Balanced;
    EntryLive(s, k);
    EntryLive(s', k);
    var b := s.inodes[s.cache[k]].sb;
    if k.name == "/" && b in s.roots {
      var m :| m in mounts && mounts[m].sb == b && IsChildOf(s, mounts, mounts[m], k.parent.i);
      assert IsChildOf(s', mounts, mounts[m], k.parent.i);
    }
  }

  /** A new entry below a directory of the same super block. */
  lemma SbAdded(s: State, s': State, mounts: map<nat, Mount>, k: Key, i: nat)
    requires Balanced(s) && SbOk(s, mounts) && Balanced(s') && Evolves(s, s') && s'.roots == s.roots
    requires s'.cache == s.cache[k := i] && k !in s.cache && k.parent.Dir? && k.name != "/"
    requires i in s'.inodes && k.parent.i in s'.inodes && s'.inodes[i].sb == s'.inodes[k.parent.i].sb
    ensures SbOk(s', mounts)
  {
    hide Balanced;
    forall x ensures EntryOk(s', mounts, x) {
      if x in s.cache && x.parent.Dir? { EntryKept(s, s', mounts, x); }
    }
    forall b ensures RootOk(s', b) {
      if b in s'.roots { RootLive(s, b); RootLive(s', b); assert RootOk(s, b); }
    }
  }

  /** Changing counts and dropping inodes is an evolution. */
  lemma CountEvolves(s: State, s': State, i: nat, n: nat)
    requires i in s.inodes && s'.nextIno == s.nextIno
    requires s'.inodes == s.inodes || s'.inodes == s.inodes - {i}
      || s'.inodes == s.inodes[i := s.inodes[i].(refcount := n)]
    ensures Evolves(s, s')
  {
  }
}
