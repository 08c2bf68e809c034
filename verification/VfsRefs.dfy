/** Who owns references to in-memory inodes and open files, and the law that counts equal owners.
    Objects are named by numbers that are never issued twice, so a destroyed object cannot be
    confused with a later one. */
module VfsRefs {
  import opened Prelude
  import opened PathNorm

  /** `cache_key.parent`: a directory inode, or the sentinel of the root of the mount tree. */
  datatype Parent = Special | Dir(i: nat)

  datatype Key = Key(parent: Parent, name: string)

  datatype Inode = Inode(refcount: nat, sb: nat, isDir: bool, key: Key)

  datatype File = File(refcount: nat, inode: Option<nat>)

  const NTASKS: nat := 128
  const NOFILE: nat := 64

  type TaskId = t: nat | t < NTASKS
  type FdNo = n: nat | n < NOFILE

  datatype Fd = Fd(task: TaskId, n: FdNo)

  /** Everything that holds a reference. holds and fholds are the references that code in
      progress has taken and not yet given back or handed over. */
  datatype State = State(
    inodes: map<nat, Inode>, nextIno: nat, nextSb: nat, freed: multiset<nat>,
    cache: map<Key, nat>, files: map<nat, File>, nextFile: nat, ffreed: multiset<nat>,
    cwd: map<TaskId, nat>, ofile: map<Fd, nat>, roots: map<nat, nat>,
    holds: multiset<nat>, fholds: multiset<nat>)

  // ----- counting -----

  /** Number of entries of m that point to i. */
  ghost function Hits<K(!new)>(m: map<K, nat>, i: nat): nat {
    |set k | k in m && m[k] == i|
  }

  lemma HitsPut<K(!new)>(m: map<K, nat>, k: K, j: nat, i: nat)
    requires k !in m
    ensures Hits(m[k := j], i) == Hits(m, i) + if i == j then 1 else 0
  {
    var m' := m[k := j];
    var was, now := set x | x in m && m[x] == i, set x | x in m' && m'[x] == i;
    if i == j { assert now == was + {k}; } else { assert now == was; }
  }

  lemma HitsDrop<K(!new)>(m: map<K, nat>, k: K, i: nat)
    requires k in m
    ensures Hits(m, i) == Hits(m - {k}, i) + if i == m[k] then 1 else 0
  {
    assert (m - {k})[k := m[k]] == m;
    HitsPut(m - {k}, k, m[k], i);
  }

  lemma HitsSome<K(!new)>(m: map<K, nat>, k: K)
    requires k in m
    ensures Hits(m, m[k]) > 0
  {
    var hits := set x | x in m && m[x] == m[k];
    assert k in hits;
  }

  lemma HitsNone<K(!new)>(m: map<K, nat>, i: nat)
    requires forall k :: k in m ==> m[k] != i
    ensures Hits(m, i) == 0
  {
    assert (set x | x in m && m[x] == i) == {};
  }

  /** The directory that each cached key keeps alive. */
  ghost function ParentsOf(cache: map<Key, nat>): map<Key, nat> {
    map k | k in cache && k.parent.Dir? :: k.parent.i
  }

  /** The inode that each open file keeps alive. */
  ghost function InodesOf(files: map<nat, File>): map<nat, nat> {
    map f | f in files && files[f].inode.Some? :: files[f].inode.value
  }

  lemma ParentsPut(cache: map<Key, nat>, k: Key, i: nat)
    requires k !in cache
    ensures k !in ParentsOf(cache)
    ensures ParentsOf(cache[k := i]) == if k.parent.Dir? then ParentsOf(cache)[k := k.parent.i] else ParentsOf(cache)
  {
  }

  lemma ParentsDrop(cache: map<Key, nat>, k: Key)
    requires k in cache
    ensures k.parent.Dir? ==> k in ParentsOf(cache) && ParentsOf(cache)[k] == k.parent.i
    ensures ParentsOf(cache - {k}) == if k.parent.Dir? then ParentsOf(cache) - {k} else ParentsOf(cache)
  {
  }

  lemma InodesPut(files: map<nat, File>, f: nat, file: File)
    requires f !in files
    ensures f !in InodesOf(files)
    ensures InodesOf(files[f := file]) == if file.inode.Some? then InodesOf(files)[f := file.inode.value]
      else InodesOf(files)
  {
  }

  lemma InodesDrop(files: map<nat, File>, f: nat)
    requires f in files
    ensures files[f].inode.Some? ==> f in InodesOf(files) && InodesOf(files)[f] == files[f].inode.value
    ensures InodesOf(files - {f}) == if files[f].inode.Some? then InodesOf(files) - {f} else InodesOf(files)
  {
  }

  lemma InodesSame(files: map<nat, File>, f: nat, n: nat)
    requires f in files
    ensures InodesOf(files[f := files[f].(refcount := n)]) == InodesOf(files)
  {
  }

  /** Owners of inode i. */
  ghost function Refs(s: State, i: nat): nat {
    Hits(s.cache, i) + Hits(ParentsOf(s.cache), i) + Hits(InodesOf(s.files), i) + Hits(s.cwd, i) + Hits(s.roots, i)
    + s.holds[i]
  }

  /** Owners of file f. */
  ghost function FileRefs(s: State, f: nat): nat { Hits(s.ofile, f) + s.fholds[f] }

  function Count(inodes: map<nat, Inode>, i: nat): nat { if i in inodes then inodes[i].refcount else 0 }

  function FileCount(files: map<nat, File>, f: nat): nat { if f in files then files[f].refcount else 0 }

  /** The life of inode i: not yet made, alive with a positive count equal to its number of
      owners, or destroyed once and without owners. */
  ghost predicate InodeOk(s: State, i: nat) {
    && Count(s.inodes, i) == Refs(s, i)
    && (i in s.inodes ==> s.inodes[i].refcount > 0)
    && (i in s.inodes ==> s.freed[i] == 0 && i < s.nextIno && s.inodes[i].sb < s.nextSb)
    && (i !in s.inodes ==> s.freed[i] == if i < s.nextIno then 1 else 0)
  }

  ghost predicate FileOk(s: State, f: nat) {
    && FileCount(s.files, f) == FileRefs(s, f)
    && (f in s.files ==> s.files[f].refcount > 0)
    && (f in s.files ==> s.ffreed[f] == 0 && f < s.nextFile)
    && (f !in s.files ==> s.ffreed[f] == if f < s.nextFile then 1 else 0)
  }

  /** A cached inode remembers the key it is cached under. */
  ghost predicate KeyOk(s: State, k: Key) {
    k in s.cache ==> s.cache[k] in s.inodes && s.inodes[s.cache[k]].key == k
  }

  ghost predicate Balanced(s: State) {
    && (forall i :: InodeOk(s, i))
    && (forall f :: FileOk(s, f))
    && (forall k :: KeyOk(s, k))
  }

  // ----- what owners may rely on -----

  lemma HeldIsLive(s: State, i: nat)
    requires Balanced(s) && i in s.holds
    ensures i in s.inodes && s.inodes[i].refcount > 0
  {
    assert InodeOk(s, i);
  }

  /** Whatever is referenced is alive. */
  lemma OwnedIsLive(s: State)
    requires Balanced(s)
    ensures forall k :: k in s.cache ==> s.cache[k] in s.inodes && (k.parent.Dir? ==> k.parent.i in s.inodes)
    ensures forall t :: t in s.cwd ==> s.cwd[t] in s.inodes
    ensures forall b :: b in s.roots ==> s.roots[b] in s.inodes
    ensures forall f :: f in s.files && s.files[f].inode.Some? ==> s.files[f].inode.value in s.inodes
    ensures forall d :: d in s.ofile ==> s.ofile[d] in s.files
  {
    forall k | k in s.cache ensures s.cache[k] in s.inodes && (k.parent.Dir? ==> k.parent.i in s.inodes) {
      HitsSome(s.cache, k);
      assert InodeOk(s, s.cache[k]);
      if k.parent.Dir? { HitsSome(ParentsOf(s.cache), k); assert InodeOk(s, k.parent.i); }
    }
    forall t | t in s.cwd ensures s.cwd[t] in s.inodes { HitsSome(s.cwd, t); assert InodeOk(s, s.cwd[t]); }
    forall b | b in s.roots ensures s.roots[b] in s.inodes { HitsSome(s.roots, b); assert InodeOk(s, s.roots[b]); }
    forall f | f in s.files && s.files[f].inode.Some? ensures s.files[f].inode.value in s.inodes {
      HitsSome(InodesOf(s.files), f);
      assert InodeOk(s, s.files[f].inode.value);
    }
    forall d | d in s.ofile ensures s.ofile[d] in s.files { HitsSome(s.ofile, d); assert FileOk(s, s.ofile[d]); }
  }

  // ----- elementary changes -----

  /** One reference more or less to inode i, taken or given back by code in progress. */
  lemma GetBalanced(s: State, s': State, i: nat)
    requires Balanced(s) && i in s.inodes
    requires s' == s.(inodes := s.inodes[i := s.inodes[i].(refcount := s.inodes[i].refcount + 1)], holds :=
      s.holds + multiset{i})
    ensures Balanced(s')
  {
    hide Hits, ParentsOf, InodesOf;
    forall j ensures InodeOk(s', j) { assert InodeOk(s, j); }
    forall f ensures FileOk(s', f) { assert FileOk(s, f); }
    forall k ensures KeyOk(s', k) { assert KeyOk(s, k); }
  }

  lemma PutBalanced(s: State, s': State, i: nat)
    requires Balanced(s) && i in s.holds && i in s.inodes && s.inodes[i].refcount > 1
    requires s' == s.(inodes := s.inodes[i := s.inodes[i].(refcount := s.inodes[i].refcount - 1)], holds :=
      s.holds - multiset{i})
    ensures Balanced(s')
  {
    hide Hits, ParentsOf, InodesOf;
    forall j ensures InodeOk(s', j) { assert InodeOk(s, j); }
    forall f ensures FileOk(s', f) { assert FileOk(s, f); }
    forall k ensures KeyOk(s', k) { assert KeyOk(s, k); }
  }

  /** The last reference goes: nothing else can refer to i. */
  lemma DestroyBalanced(s: State, s': State, i: nat)
    requires Balanced(s) && i in s.holds && i in s.inodes && s.inodes[i].refcount == 1
    requires s' == s.(inodes := s.inodes - {i}, holds := s.holds - multiset{i}, freed := s.freed + multiset{i})
    ensures Balanced(s')
  {
    hide Hits, ParentsOf, InodesOf;
    forall j ensures InodeOk(s', j) { assert InodeOk(s, j); }
    forall f ensures FileOk(s', f) { assert FileOk(s, f); }
    assert InodeOk(s, i);
    forall k ensures KeyOk(s', k) {
      assert KeyOk(s, k);
      if k in s.cache && s.cache[k] == i { HitsSome(s.cache, k); assert false; }
    }
  }

  /** A file system hands out a new inode with one reference. */
  lemma NewBalanced(s: State, s': State, x: Inode)
    requires Balanced(s) && x.refcount == 1 && x.sb < s.nextSb
    requires s' == s.(inodes := s.inodes[s.nextIno := x], nextIno := s.nextIno + 1, holds :=
      s.holds + multiset{s.nextIno})
    ensures Balanced(s') && s.nextIno !in s.inodes
  {
    hide Hits, ParentsOf, InodesOf;
    assert InodeOk(s, s.nextIno);
    forall j ensures InodeOk(s', j) { assert InodeOk(s, j); }
    forall f ensures FileOk(s', f) { assert FileOk(s, f); }
    forall k ensures KeyOk(s', k) { assert KeyOk(s, k); }
  }

  /** Changing anything but the count and, for a cached inode, the key. */
  lemma StampBalanced(s: State, s': State, i: nat, x: Inode)
    requires Balanced(s) && i in s.inodes && x.refcount == s.inodes[i].refcount && x.sb == s.inodes[i].sb
    requires x.key == s.inodes[i].key || forall k :: k in s.cache ==> s.cache[k] != i
    requires s' == s.(inodes := s.inodes[i := x])
    ensures Balanced(s')
  {
    hide Hits, ParentsOf, InodesOf;
    forall j ensures InodeOk(s', j) { assert InodeOk(s, j); }
    forall f ensures FileOk(s', f) { assert FileOk(s, f); }
    forall k ensures KeyOk(s', k) { assert KeyOk(s, k); }
  }

  function ParentHold(k: Key): multiset<nat> { if k.parent.Dir? then multiset{k.parent.i} else multiset{} }

  lemma CacheAddRefs(s: State, s': State, k: Key, i: nat, j: nat)
    requires k !in s.cache && multiset{i} + ParentHold(k) <= s.holds
    requires s' == s.(cache := s.cache[k := i], holds := s.holds - multiset{i} - ParentHold(k))
    ensures Refs(s', j) == Refs(s, j)
  {
    hide Hits, ParentsOf, InodesOf;
    ParentsPut(s.cache, k, i);
    HitsPut(s.cache, k, i, j);
    if k.parent.Dir? { HitsPut(ParentsOf(s.cache), k, k.parent.i, j); }
  }

  lemma CacheDropRefs(s: State, s': State, k: Key, j: nat)
    requires k in s.cache
    requires s' == s.(cache := s.cache - {k}, holds := s.holds + multiset{s.cache[k]} + ParentHold(k))
    ensures Refs(s', j) == Refs(s, j)
  {
    hide Hits, ParentsOf, InodesOf;
    ParentsDrop(s.cache, k);
    HitsDrop(s.cache, k, j);
    if k.parent.Dir? { HitsDrop(ParentsOf(s.cache), k, j); }
  }

  /** The cache takes over a reference to i and one to its directory. */
  lemma CacheAddBalanced(s: State, s': State, k: Key, i: nat)
    requires Balanced(s) && k !in s.cache && i in s.inodes && s.inodes[i].key == k
    requires multiset{i} + ParentHold(k) <= s.holds
    requires s' == s.(cache := s.cache[k := i], holds := s.holds - multiset{i} - ParentHold(k))
    ensures Balanced(s')
  {
    hide Hits, ParentsOf, InodesOf, Refs;
    forall j ensures InodeOk(s', j) { assert InodeOk(s, j); CacheAddRefs(s, s', k, i, j); }
    forall f ensures FileOk(s', f) { assert FileOk(s, f); }
    forall x ensures KeyOk(s', x) { assert KeyOk(s, x); }
  }

  /** Removing an entry gives both references back to the code that removes it. */
  lemma CacheDropBalanced(s: State, s': State, k: Key)
    requires Balanced(s) && k in s.cache
    requires s' == s.(cache := s.cache - {k}, holds := s.holds + multiset{s.cache[k]} + ParentHold(k))
    ensures Balanced(s')
  {
    hide Hits, ParentsOf, InodesOf, Refs;
    forall j ensures InodeOk(s', j) { assert InodeOk(s, j); CacheDropRefs(s, s', k, j); }
    forall f ensures FileOk(s', f) { assert FileOk(s, f); }
    forall x ensures KeyOk(s', x) { assert KeyOk(s, x); }
  }

  /** A new super block number. */
  lemma SuperBalanced(s: State, s': State)
    requires Balanced(s) && s' == s.(nextSb := s.nextSb + 1)
    ensures Balanced(s')
  {
    hide Hits, ParentsOf, InodesOf;
    forall j ensures InodeOk(s', j) { assert InodeOk(s, j); }
    forall f ensures FileOk(s', f) { assert FileOk(s, f); }
    forall k ensures KeyOk(s', k) { assert KeyOk(s, k); }
  }

  /** A working directory, or a super block's root, takes over or gives back a reference. */
  lemma CwdSetBalanced(s: State, s': State, t: TaskId, i: nat)
    requires Balanced(s) && t !in s.cwd && i in s.holds
    requires s' == s.(cwd := s.cwd[t := i], holds := s.holds - multiset{i})
    ensures Balanced(s')
  {
    hide Hits, ParentsOf, InodesOf;
    forall j ensures InodeOk(s', j) { assert InodeOk(s, j); HitsPut(s.cwd, t, i, j); }
    forall f ensures FileOk(s', f) { assert FileOk(s, f); }
    forall k ensures KeyOk(s', k) { assert KeyOk(s, k); }
  }

  lemma CwdDropBalanced(s: State, s': State, t: TaskId)
    requires Balanced(s) && t in s.cwd
    requires s' == s.(cwd := s.cwd - {t}, holds := s.holds + multiset{s.cwd[t]})
    ensures Balanced(s')
  {
    hide Hits, ParentsOf, InodesOf;
    forall j ensures InodeOk(s', j) { assert InodeOk(s, j); HitsDrop(s.cwd, t, j); }
    forall f ensures FileOk(s', f) { assert FileOk(s, f); }
    forall k ensures KeyOk(s', k) { assert KeyOk(s, k); }
  }

  lemma RootSetBalanced(s: State, s': State, b: nat, i: nat)
    requires Balanced(s) && b !in s.roots && i in s.holds
    requires s' == s.(roots := s.roots[b := i], holds := s.holds - multiset{i})
    ensures Balanced(s')
  {
    hide Hits, ParentsOf, InodesOf;
    forall j ensures InodeOk(s', j) { assert InodeOk(s, j); HitsPut(s.roots, b, i, j); }
    forall f ensures FileOk(s', f) { assert FileOk(s, f); }
    forall k ensures KeyOk(s', k) { assert KeyOk(s, k); }
  }

  lemma RootDropBalanced(s: State, s': State, b: nat)
    requires Balanced(s) && b in s.roots
    requires s' == s.(roots := s.roots - {b}, holds := s.holds + multiset{s.roots[b]})
    ensures Balanced(s')
  {
    hide Hits, ParentsOf, InodesOf;
    forall j ensures InodeOk(s', j) { assert InodeOk(s, j); HitsDrop(s.roots, b, j); }
    forall f ensures FileOk(s', f) { assert FileOk(s, f); }
    forall k ensures KeyOk(s', k) { assert KeyOk(s, k); }
  }

  function InodeHold(x: Option<nat>): multiset<nat> { if x.Some? then multiset{x.value} else multiset{} }

  lemma FileNewRefs(s: State, s': State, inode: Option<nat>, j: nat)
    requires s.nextFile !in s.files && InodeHold(inode) <= s.holds
    requires s' == s.(files := s.files[s.nextFile := File(1, inode)], nextFile := s.nextFile + 1,
                      holds := s.holds - InodeHold(inode), fholds := s.fholds + multiset{s.nextFile})
    ensures Refs(s', j) == Refs(s, j)
  {
    hide Hits, ParentsOf, InodesOf;
    InodesPut(s.files, s.nextFile, File(1, inode));
    if inode.Some? { HitsPut(InodesOf(s.files), s.nextFile, inode.value, j); }
  }

  lemma FileDropRefs(s: State, s': State, f: nat, j: nat)
    requires f in s.files && f in s.fholds
    requires s' == s.(files := s.files - {f}, fholds := s.fholds - multiset{f}, ffreed := s.ffreed + multiset{f},
                      holds := s.holds + InodeHold(s.files[f].inode))
    ensures Refs(s', j) == Refs(s, j)
  {
    hide Hits, ParentsOf, InodesOf;
    InodesDrop(s.files, f);
    if s.files[f].inode.Some? { HitsDrop(InodesOf(s.files), f, j); }
  }

  /** A new file takes over the reference to its inode; the code that makes it holds the file. */
  lemma FileNewBalanced(s: State, s': State, inode: Option<nat>)
    requires Balanced(s) && InodeHold(inode) <= s.holds
    requires s' == s.(files := s.files[s.nextFile := File(1, inode)], nextFile := s.nextFile + 1,
                      holds := s.holds - InodeHold(inode), fholds := s.fholds + multiset{s.nextFile})
    ensures Balanced(s') && s.nextFile !in s.files
  {
    hide Hits, ParentsOf, InodesOf, Refs;
    assert FileOk(s, s.nextFile);
    forall j ensures InodeOk(s', j) { assert InodeOk(s, j); FileNewRefs(s, s', inode, j); }
    forall g ensures FileOk(s', g) { assert FileOk(s, g); }
    forall k ensures KeyOk(s', k) { assert KeyOk(s, k); }
  }

  /** A file whose last reference goes gives its inode's reference back. */
  lemma FileDropBalanced(s: State, s': State, f: nat)
    requires Balanced(s) && f in s.fholds && f in s.files && s.files[f].refcount == 1
    requires s' == s.(files := s.files - {f}, fholds := s.fholds - multiset{f}, ffreed := s.ffreed + multiset{f},
                      holds := s.holds + InodeHold(s.files[f].inode))
    ensures Balanced(s')
  {
    hide Hits, ParentsOf, InodesOf, Refs;
    forall j ensures InodeOk(s', j) { assert InodeOk(s, j); FileDropRefs(s, s', f, j); }
    forall g ensures FileOk(s', g) { assert FileOk(s, g); }
    forall k ensures KeyOk(s', k) { assert KeyOk(s, k); }
  }

  lemma FileCountBalanced(s: State, s': State, f: nat, n: nat, fholds: multiset<nat>)
    requires Balanced(s) && f in s.files && n > 0
    requires s' == s.(files := s.files[f := s.files[f].(refcount := n)], fholds := fholds)
    requires (n == s.files[f].refcount + 1 && fholds == s.fholds + multiset{f}) ||
             (n + 1 == s.files[f].refcount && f in s.fholds && fholds == s.fholds - multiset{f})
    ensures Balanced(s')
  {
    hide Hits, ParentsOf, InodesOf;
    InodesSame(s.files, f, n);
    forall j ensures InodeOk(s', j) { assert InodeOk(s, j); }
    forall g ensures FileOk(s', g) { assert FileOk(s, g); }
    forall k ensures KeyOk(s', k) { assert KeyOk(s, k); }
  }

  /** A descriptor takes over or gives back a reference to a file. */
  lemma FdSetBalanced(s: State, s': State, d: Fd, f: nat)
    requires Balanced(s) && d !in s.ofile && f in s.fholds
    requires s' == s.(ofile := s.ofile[d := f], fholds := s.fholds - multiset{f})
    ensures Balanced(s')
  {
    hide Hits, ParentsOf, InodesOf;
    forall j ensures InodeOk(s', j) { assert InodeOk(s, j); }
    forall g ensures FileOk(s', g) { assert FileOk(s, g); HitsPut(s.ofile, d, f, g); }
    forall k ensures KeyOk(s', k) { assert KeyOk(s, k); }
  }

  lemma FdDropBalanced(s: State, s': State, d: Fd)
    requires Balanced(s) && d in s.ofile
    requires s' == s.(ofile := s.ofile - {d}, fholds := s.fholds + multiset{s.ofile[d]})
    ensures Balanced(s')
  {
    hide Hits, ParentsOf, InodesOf;
    forall j ensures InodeOk(s', j) { assert InodeOk(s, j); }
    forall g ensures FileOk(s', g) { assert FileOk(s, g); HitsDrop(s.ofile, d, g); }
    forall k ensures KeyOk(s', k) { assert KeyOk(s, k); }
  }
}
