/** Inode life cycle, inode cache, path lookup, create, mkdir, unlink and rmdir. */
module VfsOps {
  import opened Prelude
  import opened PathNorm
  import opened VfsRefs
  import opened VfsShape
  import opened VfsMounts

  const MAX_PATH: nat := 128

  /** The cached walk from inode i along names ends at r. */
  predicate Leads(cache: map<Key, nat>, i: nat, names: seq<string>, r: nat)
    decreases |names|
  {
    if names == [] then r == i else
    Key(Dir(i), names[0]) in cache && Leads(cache, cache[Key(Dir(i), names[0])], names[1..], r)
  }

  predicate Extends(cache: map<Key, nat>, cache': map<Key, nat>) {
    forall k :: k in cache ==> k in cache' && cache'[k] == cache[k]
  }

  lemma {:induction false} LeadsOn(cache: map<Key, nat>, cache': map<Key, nat>, i: nat, names: seq<string>, r: nat)
    requires Leads(cache, i, names, r) && Extends(cache, cache')
    ensures Leads(cache', i, names, r)
    decreases |names|
  {
    if names != [] { LeadsOn(cache, cache', cache[Key(Dir(i), names[0])], names[1..], r); }
  }

  lemma {:induction false} LeadsSnoc(cache: map<Key, nat>, i: nat, names: seq<string>, c: nat, name: string, r: nat)
    requires Leads(cache, i, names, c) && Key(Dir(c), name) in cache && cache[Key(Dir(c), name)] == r
    ensures Leads(cache, i, names + [name], r)
    decreases |names|
  {
    if names == [] {
      assert [name][1..] == [];
      assert names + [name] == [name];
    } else {
      assert (names + [name])[1..] == names[1..] + [name];
      LeadsSnoc(cache, cache[Key(Dir(i), names[0])], names[1..], c, name, r);
    }
  }

  /** A change of inodes, cache entries and held inode references only. */
  ghost predicate InodesOnly(s: State, s': State) {
    && Evolves(s, s')
    && s'.files == s.files && s'.nextFile == s.nextFile && s'.ffreed == s.ffreed && s'.fholds == s.fholds
    && s'.cwd == s.cwd && s'.ofile == s.ofile && s'.roots == s.roots
  }

  lemma OnlyTwice(s: State, s': State, s'': State)
    requires InodesOnly(s, s') && InodesOnly(s', s'')
    ensures InodesOnly(s, s'')
  {
    hide Evolves;
    EvolvesTwice(s, s', s'');
  }

  /** The effect of putting inode i into the cache under its key. */
  ghost predicate Inserted(s: State, s': State, i: nat)
    requires i in s.inodes
  {
    var k, inode := s.inodes[i].key, s.inodes[i];
    && k !in s.cache
    && s' == s.(cache := s.cache[k := i], inodes := s.inodes[i := inode.(refcount := inode.refcount + 1)],
                holds := s.holds - ParentHold(k))
  }

  lemma InsertedBy(s: State, was: State, s': State, i: nat)
    requires i in s.inodes && ParentHold(s.inodes[i].key) <= s.holds && s.inodes[i].key !in s.cache
    requires was == s.(inodes := s.inodes[i := s.inodes[i].(refcount := s.inodes[i].refcount + 1)], holds :=
      s.holds + multiset{i})
    requires s' == was.(cache := was.cache[s.inodes[i].key := i], holds :=
      was.holds - multiset{i} - ParentHold(s.inodes[i].key))
    ensures Inserted(s, s', i)
  {
    TakenBack(s.holds, i, ParentHold(s.inodes[i].key));
  }

  lemma InsertedOnly(s: State, s': State, i: nat)
    requires i in s.inodes && Inserted(s, s', i)
    ensures InodesOnly(s, s') && Extends(s.cache, s'.cache)
  {
  }

  class Vfs {
    var s: State
    var mounts: map<nat, Mount>
    var rootMnt: Option<nat>
    var nextMnt: nat
    var cwdPath: map<TaskId, string>

    /** Counts equal owners; super blocks, mounts and cached keys fit together. */
    ghost predicate Valid()
      reads this
    {
      && Balanced(s) && SbOk(s, mounts) && MountsOk(mounts, rootMnt, nextMnt) && SupersOk(s, mounts)
      && (forall t :: t in cwdPath ==> NoNul(cwdPath[t]) && (cwdPath[t] == "" || cwdPath[t][0] == '/'))
    }

    constructor ()
      ensures Valid() && s.holds == multiset{} && s.fholds == multiset{}
    {
      s := State(map[], 0, 0, multiset{}, map[], map[], 0, multiset{}, map[], map[], map[], multiset{}, multiset{});
      mounts, rootMnt, nextMnt, cwdPath := map[], None, 0, map[];
      new;
      EmptyBalanced(s);
    }

    // ----- inode references -----

    method InodeGet(i: nat)
      requires Balanced(s) && i in s.inodes
      modifies `s
      ensures Balanced(s) && InodesOnly(old(s), s)
      ensures s == old(s).(inodes := old(s).inodes[i := old(s).inodes[i].(refcount := old(s).inodes[i].refcount + 1)],
                           holds := old(s).holds + multiset{i})
    {
      hide Balanced;
      ghost var was := s;
      s := s.(inodes := s.inodes[i := s.inodes[i].(refcount := s.inodes[i].refcount + 1)], holds :=
          s.holds + multiset{i});
      GetBalanced(was, s, i);
    }

    /** Gives one reference back; the last one destroys the inode. */
    method InodePut(i: nat)
      requires i in s.inodes
      modifies `s
      ensures InodesOnly(old(s), s)
      ensures s == old(s).(inodes := s.inodes, freed := s.freed, holds := old(s).holds - multiset{i})
      ensures old(s).inodes[i].refcount > 1 ==>
                s.inodes == old(s).inodes[i := old(s).inodes[i].(refcount := old(s).inodes[i].refcount - 1)]
                    && s.freed == old(s).freed
      ensures old(s).inodes[i].refcount == 1 ==>
        s.inodes == old(s).inodes - {i} && s.freed == old(s).freed + multiset{i}
      ensures Balanced(old(s)) && i in old(s).holds ==> Balanced(s)
    {
      hide Balanced;
      ghost var was := s;
      s := s.(holds := s.holds - multiset{i});
      if s.inodes[i].refcount == 0 {
        if Balanced(was) && i in was.holds { HeldIsLive(was, i); assert false; }
        return;
      }
      if s.inodes[i].refcount == 1 {
        s := s.(inodes := s.inodes - {i}, freed := s.freed + multiset{i});
        if Balanced(was) && i in was.holds { DestroyBalanced(was, s, i); }
      } else {
        s := s.(inodes := s.inodes[i := s.inodes[i].(refcount := s.inodes[i].refcount - 1)]);
        if Balanced(was) && i in was.holds { PutBalanced(was, s, i); }
      }
    }

    /** inode_put by code that owns the reference. */
    method Release(i: nat)
      requires Valid() && i in s.holds
      modifies `s
      ensures Valid() && InodesOnly(old(s), s) && s.cache == old(s).cache && s.holds == old(s).holds - multiset{i}
    {
      hide Balanced, SbOk, MountsOk;
      HeldIsLive(s, i);
      InodePut(i);
      SbKept(old(s), s, mounts);
    }

    // ----- inode cache -----

    method CacheFind(parent: nat, name: string) returns (r: Option<nat>)
      requires Valid()
      modifies `s
      ensures Valid() && InodesOnly(old(s), s) && s.cache == old(s).cache
      ensures r.Some? ==> Key(Dir(parent), name) in s.cache && s.cache[Key(Dir(parent), name)] == r.value
      ensures r.Some? ==> s.holds == old(s).holds + multiset{r.value}
      ensures r.None? ==> s == old(s)
    {
      hide Balanced, SbOk, MountsOk;
      r := None;
      if name == "" { return; }
      var full := Chance();
      if full || |name| >= MAX_PATH { return; }
      var k := Key(Dir(parent), name);
      if k in s.cache {
        EntryLive(s, k);
        InodeGet(s.cache[k]);
        r := Some(s.cache[k]);
        SbKept(old(s), s, mounts);
      }
    }

    /** The cache takes a reference of its own to i, and takes over the caller's reference to
        the directory in i's key. */
    method CacheInsert(i: nat) returns (ok: bool)
      requires Balanced(s) && i in s.inodes && ParentHold(s.inodes[i].key) <= s.holds
      modifies `s
      ensures Balanced(s) && (if ok then Inserted(old(s), s, i) else s == old(s))
    {
      hide Balanced, Inserted, InodesOnly;
      if s.inodes[i].key.name == "" { return false; }
      var k := s.inodes[i].key;
      LivePositive(s, i);
      InodeGet(i);
      var full := Chance();
      ok := !full && k !in s.cache;
      ghost var was := s;
      if ok {
        TakenBack(old(s).holds, i, ParentHold(k));
        s := s.(cache := s.cache[k := i], holds := s.holds - multiset{i} - ParentHold(k));
        CacheAddBalanced(was, s, k, i);
        InsertedBy(old(s), was, s, i);
      } else {
        InodePut(i);
        GetPut(old(s).inodes, old(s).holds, i);
      }
    }

    /** Drops the cache entry of i, if there is one, with the two references it owned. */
    method CacheRemove(i: nat)
      requires Balanced(s) && i in s.inodes && (s.inodes[i].key in s.cache ==> s.cache[s.inodes[i].key] == i)
      modifies `s
      ensures Balanced(s) && InodesOnly(old(s), s) && s.holds == old(s).holds
      ensures s.cache == old(s).cache - {old(s).inodes[i].key}
    {
      hide Balanced, Evolves, ParentHold;
      CountEvolves(s, s, i, 0);
      var k := s.inodes[i].key;
      if k !in s.cache { return; }
      GivenBack(s.holds, i, k);
      s := s.(cache := s.cache - {k}, holds := s.holds + multiset{i} + ParentHold(k));
      CacheDropBalanced(old(s), s, k);
      CountEvolves(old(s), s, i, 0);
      ghost var s1 := s;
      InodePut(i);
      OnlyTwice(old(s), s1, s);
      if k.parent.Dir? {
        ghost var s2 := s;
        HeldIsLive(s2, k.parent.i);
        InodePut(k.parent.i);
        OnlyTwice(old(s), s2, s);
      }
    }

    // ----- walking a path -----

    /** A file system's lookup, create or mkdir: refuses, or hands out a new inode of dir's
        super block with one reference. */
    method FsMake(dir: nat) returns (r: Option<nat>)
      requires Valid() && dir in s.inodes
      modifies `s
      ensures Valid() && InodesOnly(old(s), s) && s.cache == old(s).cache
      ensures r.None? ==> s == old(s)
      ensures r.Some? ==>
        r.value == old(s).nextIno && Fresh(old(s), s, dir, r.value) && s.holds == old(s).holds + multiset{r.value}
    {
      hide Balanced, SbOk, MountsOk;
      var refused := Chance();
      if refused { return None; }
      var isDir := Chance();
      var x := Inode(1, s.inodes[dir].sb, isDir, Key(Special, ""));
      r := Some(s.nextIno);
      s := s.(inodes := s.inodes[s.nextIno := x], nextIno := s.nextIno + 1, holds := s.holds + multiset{s.nextIno});
      DirLive(old(s), dir);
      NewBalanced(old(s), s, x);
      SbKept(old(s), s, mounts);
    }

    /** Caches the new inode next as dir's entry name; on failure next is given back. */
    method Adopt(next: nat, dir: nat, name: string, ghost from: State) returns (ok: bool)
      requires Valid() && InodesOnly(from, s) && from.nextIno <= next && NotCached(s, next)
      requires dir in s.holds && next in s.holds && dir in s.inodes && next in s.inodes && dir != next
      requires s.inodes[next].sb == s.inodes[dir].sb && name != "/"
      modifies `s
      ensures Valid() && InodesOnly(from, s)
      ensures ok ==> Key(Dir(dir), name) !in old(s).cache && s.cache == old(s).cache[Key(Dir(dir), name) := next]
      ensures ok ==> s.holds == old(s).holds
      ensures !ok ==> s.cache == old(s).cache && s.holds == old(s).holds - multiset{next}
    {
      hide Balanced, SbOk, MountsOk, InodesOnly, NotCached;
      var k := Key(Dir(dir), name);
      s := s.(inodes := s.inodes[next := s.inodes[next].(key := k)]);
      ghost var s1 := s;
      Stamped(from, old(s), s1, next, k, mounts);
      InodeGet(dir);
      ghost var s2 := s;
      OnlyTwice(from, s1, s2);
      ok := CacheInsert(next);
      if ok {
        InsertedOnly(s2, s, next);
        OnlyTwice(from, s2, s);
        AdoptShape(s1, s2, s, mounts, next, dir);
      } else {
        SbKept(s1, s, mounts);
        Release(dir);
        OnlyTwice(from, s2, s);
        ghost var s3 := s;
        Release(next);
        OnlyTwice(from, s3, s);
      }
    }

    /** Asks the file system for the entry name of dir and caches it. */
    method MakeFresh(dir: nat, name: string) returns (r: Option<nat>)
      requires Valid() && dir in s.holds && name != "/"
      modifies `s
      ensures Valid() && InodesOnly(old(s), s) && Extends(old(s).cache, s.cache)
      ensures s.holds == old(s).holds + InodeHold(r)
      ensures r.Some? ==> EntryIs(s, dir, name, r.value) && Key(Dir(dir), name) !in old(s).cache
    {
      hide Balanced, SbOk, MountsOk, InodesOnly, Extends, InodeHold;
      WalkStart(s.cache, 0, []);
      HandOver(s.holds, 0, None);
      HeldIsLive(s, dir);
      r := FsMake(dir);
      if r.Some? {
        HandOver(old(s).holds, r.value, r);
        HandOver(old(s).holds, r.value, None);
        var ok := Adopt(r.value, dir, name, old(s));
        if ok { AddedExtends(old(s).cache, Key(Dir(dir), name), r.value); } else { r := None; }
      }
    }

    /** One component: the cached entry, or the file system's answer, which is then cached. */
    method Enter(current: nat, name: string) returns (r: Option<nat>)
      requires Valid() && current in s.holds && name != "/"
      modifies `s
      ensures Valid() && InodesOnly(old(s), s) && Extends(old(s).cache, s.cache)
      ensures r.None? ==> s.holds == old(s).holds
      ensures r.Some? ==> s.holds == old(s).holds + multiset{r.value}
      ensures r.Some? ==> Key(Dir(current), name) in s.cache && s.cache[Key(Dir(current), name)] == r.value
    {
      hide Balanced, SbOk, MountsOk, InodesOnly;
      OnlySame(s);
      var denied := Chance();
      if denied { return None; }
      r := CacheFind(current, name);
      if r.Some? { return; }
      var unsupported := Chance();
      if unsupported { return None; }
      r := MakeFresh(current, name);
      HandOver(old(s).holds, 0, r);
    }

    /** Moves the caller's reference from current to the entry name below it. */
    method StepInto(current: nat, name: string) returns (r: Option<nat>)
      requires Valid() && current in s.holds && name != "/"
      modifies `s
      ensures Valid() && InodesOnly(old(s), s) && Extends(old(s).cache, s.cache)
      ensures s.holds == old(s).holds - multiset{current} + InodeHold(r)
      ensures r.Some? ==> Key(Dir(current), name) in s.cache && s.cache[Key(Dir(current), name)] == r.value
    {
      hide Balanced, SbOk, MountsOk, InodesOnly, Extends;
      r := None;
      OnlySame(s);
      WalkStart(s.cache, current, []);
      if |name| < MAX_PATH { r := Enter(current, name); }
      ghost var was := s;
      Release(current);
      OnlyTwice(old(s), was, s);
    }

    /** Walks the components of path[from..], starting at an inode the caller hands over. */
    method WalkFrom(start: nat, path: string, from: nat) returns (r: Option<nat>)
      requires Valid() && start in s.holds && from <= |path|
      modifies `s
      ensures Valid() && InodesOnly(old(s), s) && Extends(old(s).cache, s.cache)
      ensures s.holds == old(s).holds - multiset{start} + InodeHold(r)
      ensures r.Some? ==> Leads(s.cache, start, Segments(path[from..]), r.value)
    {
      hide Balanced, SbOk, MountsOk, InodesOnly, Segments, Walked, Extends, InodeHold;
      var current, p := start, from;
      ghost var rest, all := s.holds - multiset{start}, Segments(path[from..]);
      OnlySame(s);
      WalkStart(s.cache, start, all);
      while p < |path|
        invariant from <= p <= |path| && Valid() && InodesOnly(old(s), s) && Extends(old(s).cache, s.cache)
        invariant s.holds == rest + multiset{current}
        invariant Walked(s.cache, start, current, Segments(path[p..]), all)
      {
        if path[p] == '/' {
          OneSlash(path, p);
          p := p + 1;
          continue;
        }
        var end := NameAt(path, p);
        ghost var was := s;
        var next := StepInto(current, path[p..end]);
        HandOver(rest, current, next);
        OnlyTwice(old(s), was, s);
        ExtendsTwice(old(s).cache, was.cache, s.cache);
        if next.None? { return None; }
        WalkOn(was.cache, s.cache, start, current, path[p..end], next.value, Segments(path[end..]), all);
        current := next.value;
        p := end;
        if p < |path| { OneSlash(path, p); p := p + 1; }
      }
      WalkEnd(s.cache, start, current, path[p..], all);
      r := Some(current);
      HandOver(rest, current, r);
    }

    /** The deepest mount that covers an absolute path. */
    method FindMount(path: string) returns (r: Option<nat>)
      requires MountsOk(mounts, rootMnt, nextMnt)
      ensures r.Some? <==> path != "" && path[0] == '/' && rootMnt.Some?
      ensures r.Some? ==> r.value in mounts && Covers(mounts, path, r.value)
    {
      if path == "" || path[0] != '/' || rootMnt.None? { return None; }
      var m := rootMnt.value;
      assert MountOk(mounts, rootMnt, nextMnt, m);
      while true
        invariant m in mounts && m < nextMnt && |mounts[m].path| <= |path|
        invariant mounts[m].parent.None? || PathMatch(mounts[m].path, path)
        decreases nextMnt - m
      {
        assert MountOk(mounts, rootMnt, nextMnt, m);
        var list, j := mounts[m].child, 0;
        while j < |list| && !(list[j] in mounts && PathMatch(mounts[list[j]].path, path))
          invariant j <= |list|
            && forall x :: 0 <= x < j ==> list[x] in mounts && !PathMatch(mounts[list[x]].path, path)
        {
          j := j + 1;
        }
        if j == |list| { return Some(m); }
        assert list[j] in list && ChildOk(mounts, m, list[j]);
        assert MountOk(mounts, rootMnt, nextMnt, list[j]);
        m := list[j];
      }
    }

    /** Takes a reference to start and walks path[from..] from there. */
    method WalkHeld(start: nat, path: string, from: nat) returns (r: Option<nat>)
      requires Valid() && start in s.inodes && from <= |path|
      modifies `s
      ensures Valid() && InodesOnly(old(s), s) && Extends(old(s).cache, s.cache)
      ensures s.holds == old(s).holds + InodeHold(r)
      ensures r.Some? ==> Leads(s.cache, start, Segments(path[from..]), r.value)
    {
      hide Balanced, SbOk, MountsOk, InodesOnly, Segments, Extends, InodeHold, Leads;
      InodeGet(start);
      WalkStart(s.cache, start, []);
      OnlyEvolves(old(s), s);
      SbKept(old(s), s, mounts);
      ghost var was := s;
      var p := from;
      if p < |path| && path[p] == '/' { OneSlash(path, p); p := p + 1; }
      var full := Chance();
      HandOver(old(s).holds, start, None);
      if p < |path| && full {
        Release(start);
        OnlyTwice(old(s), was, s);
        return None;
      }
      r := WalkFrom(start, path, p);
      OnlyTwice(old(s), was, s);
      HandOver(old(s).holds, start, r);
    }

    /** vfs_lookup_impl: the walk starts at the covering mount's root, or at the working directory. */
    method LookupImpl(t: TaskId, path: string) returns (r: Option<nat>)
      requires Valid()
      modifies `s
      ensures Valid() && InodesOnly(old(s), s) && Extends(old(s).cache, s.cache)
      ensures s.holds == old(s).holds + InodeHold(r)
      ensures r.Some? && path != "" && path[0] == '/' ==> Resolves(s, mounts, path, r.value)
    {
      hide Balanced, SbOk, MountsOk, InodesOnly, Segments, Extends, InodeHold, Leads, Covers, Resolves;
      OnlySame(s);
      WalkStart(s.cache, 0, []);
      HandOver(s.holds, 0, None);
      if path != "" && path[0] == '/' {
        var m := FindMount(path);
        if m.None? { return None; }
        var mnt := mounts[m.value];
        RootLive(s, mnt.sb);
        CoversFits(mounts, path, m.value);
        r := WalkHeld(s.roots[mnt.sb], path, |mnt.path|);
        OnlyEvolves(old(s), s);
        if r.Some? { ResolvesBy(s, mounts, path, m.value, r.value); }
      } else if t in s.cwd {
        CwdLive(s, t);
        r := WalkHeld(s.cwd[t], path, 0);
      } else {
        r := None;
      }
    }

    // ----- paths as callers give them -----

    method Normalise(t: TaskId, path: string) returns (r: Option<string>)
      requires Valid() && NoNul(path)
      ensures r.Some? ==>
        r.value == Text(cwdPath, t, path) && 0 < |r.value| < MAX_PATH && r.value[0] == '/' && NoNul(r.value)
    {
      hide Balanced, SbOk, MountsOk, Normalised;
      r := BuildPath(path, CwdText(cwdPath, t));
    }

    method Lookup(t: TaskId, path: string) returns (r: Option<nat>)
      requires Valid() && NoNul(path)
      modifies `s
      ensures Valid() && InodesOnly(old(s), s) && Extends(old(s).cache, s.cache)
      ensures s.holds == old(s).holds + InodeHold(r)
      ensures r.Some? ==> Resolves(s, mounts, Text(cwdPath, t, path), r.value)
    {
      hide Balanced, SbOk, MountsOk, InodesOnly, Extends, InodeHold, Resolves, Normalised;
      OnlySame(s);
      WalkStart(s.cache, 0, []);
      HandOver(s.holds, 0, None);
      var text := Normalise(t, path);
      if text.None? { return None; }
      r := LookupImpl(t, text.value);
    }

    /** The directory of path, held, and the last component. */
    method LookupParent(t: TaskId, path: string) returns (r: Option<nat>, name: string)
      requires Valid() && NoNul(path)
      modifies `s
      ensures Valid() && InodesOnly(old(s), s) && Extends(old(s).cache, s.cache)
      ensures s.holds == old(s).holds + InodeHold(r)
      ensures r.Some? ==> name == BaseName(Text(cwdPath, t, path)) && IsSegment(name)
      ensures r.Some? ==> Resolves(s, mounts, Text(cwdPath, t, DirName(Text(cwdPath, t, path))), r.value)
    {
      hide Balanced, SbOk, MountsOk, InodesOnly, Extends, Resolves, Normalised, InodeHold, BaseName, DirName;
      OnlySame(s);
      WalkStart(s.cache, 0, []);
      HandOver(s.holds, 0, None);
      r, name := None, "";
      var text := Normalise(t, path);
      if text.Some? {
        var dir;
        dir, name := SplitLast(text.value);
        DirNoNul(text.value);
        var full := Chance();
        if name != "" && |name| < MAX_PATH && !full { r := Lookup(t, dir); }
      }
    }

    // ----- create, mkdir, unlink, rmdir -----

    /** The second look at the cache, under the metadata lock. */
    method Exists(parent: nat, name: string) returns (b: bool)
      requires Valid()
      modifies `s
      ensures Valid() && InodesOnly(old(s), s) && s.cache == old(s).cache && s.holds == old(s).holds
    {
      hide Balanced, SbOk, MountsOk, InodesOnly;
      OnlySame(s);
      var exist := CacheFind(parent, name);
      b := exist.Some?;
      if b {
        ghost var was := s;
        HandOver(old(s).holds, exist.value, None);
        Release(exist.value);
        OnlyTwice(old(s), was, s);
      }
    }

    /** Makes and caches a new entry of directory parent; fails if one is cached already. */
    method MakeIn(parent: nat, name: string) returns (r: Option<nat>)
      requires Valid() && parent in s.holds && IsSegment(name)
      modifies `s
      ensures Valid() && InodesOnly(old(s), s) && Extends(old(s).cache, s.cache)
      ensures s.holds == old(s).holds + InodeHold(r)
      ensures r.Some? ==> EntryIs(s, parent, name, r.value) && Key(Dir(parent), name) !in old(s).cache
    {
      hide Balanced, SbOk, MountsOk, InodesOnly, Extends, InodeHold;
      WalkStart(s.cache, 0, []);
      HandOver(s.holds, 0, None);
      var exist := Exists(parent, name);
      var refused := Chance();
      HeldIsLive(s, parent);
      r := None;
      if !exist && !refused && s.inodes[parent].isDir {
        ghost var was := s;
        r := MakeFresh(parent, name);
        OnlyTwice(old(s), was, s);
      }
    }

    /** Looks the directory up and makes the entry; both references are the caller's. */
    method MakePath(t: TaskId, path: string) returns (parent: Option<nat>, r: Option<nat>)
      requires Valid() && NoNul(path)
      modifies `s
      ensures Valid() && InodesOnly(old(s), s) && Extends(old(s).cache, s.cache)
      ensures s.holds == old(s).holds + InodeHold(parent) + InodeHold(r) && (r.Some? ==> parent.Some?)
      ensures r.Some? ==>
        EntryAt(s, mounts, Text(cwdPath, t, DirName(Text(cwdPath, t, path))), BaseName(Text(cwdPath, t, path)), r.value)
    {
      hide Balanced, SbOk, MountsOk, InodesOnly, Extends, InodeHold, EntryIs, EntryAt, Normalised, Resolves, DirName,
        BaseName;
      var name;
      r := None;
      parent, name := LookupParent(t, path);
      HandOver(old(s).holds, 0, parent);
      HandOver(old(s).holds + InodeHold(parent), 0, None);
      if parent.Some? {
        ghost var was := s;
        r := MakeIn(parent.value, name);
        OnlyTwice(old(s), was, s);
        ExtendsTwice(old(s).cache, was.cache, s.cache);
        if r.Some? {
          EntryThere(was, s, mounts, Text(cwdPath, t, DirName(Text(cwdPath, t, path))), parent.value, name, r.value);
        }
      }
    }

    /** Creates a file; the caller gets a reference to the new inode. */
    method Create(t: TaskId, path: string) returns (r: Option<nat>)
      requires Valid() && NoNul(path)
      modifies `s
      ensures Valid() && InodesOnly(old(s), s) && Extends(old(s).cache, s.cache)
      ensures s.holds == old(s).holds + InodeHold(r)
      ensures r.Some? ==>
        EntryAt(s, mounts, Text(cwdPath, t, DirName(Text(cwdPath, t, path))), BaseName(Text(cwdPath, t, path)), r.value)
    {
      hide Balanced, SbOk, MountsOk, InodesOnly, Extends, InodeHold, EntryIs, EntryAt, Normalised, Resolves, DirName,
        BaseName;
      var parent;
      parent, r := MakePath(t, path);
      MakeHolds(old(s).holds, parent, r);
      if r.Some? { Regrip(r.value); }
      if parent.Some? {
        ghost var was := s;
        Release(parent.value);
        OnlyTwice(old(s), was, s);
        if r.Some? {
          EntryStays(was, s, mounts, Text(cwdPath, t, DirName(Text(cwdPath, t, path))),
              BaseName(Text(cwdPath, t, path)), r.value);
        }
      }
    }

    /** Takes a reference for the caller and gives the file system's back. */
    method Regrip(i: nat)
      requires Valid() && i in s.holds
      modifies `s
      ensures Valid() && s == old(s)
    {
      hide Balanced, SbOk, MountsOk;
      HeldIsLive(s, i);
      InodeGet(i);
      InodePut(i);
      GetPut(old(s).inodes, old(s).holds, i);
    }

    method Mkdir(t: TaskId, path: string) returns (ok: bool)
      requires Valid() && NoNul(path)
      modifies `s
      ensures Valid() && InodesOnly(old(s), s) && Extends(old(s).cache, s.cache) && s.holds == old(s).holds
      ensures ok ==>
        exists i :: EntryAt(s, mounts, Text(cwdPath, t, DirName(Text(cwdPath, t, path))),
        BaseName(Text(cwdPath, t, path)), i)
    {
      hide Balanced, SbOk, MountsOk, InodesOnly, Extends, InodeHold, EntryIs, EntryAt, Normalised, Resolves, DirName,
        BaseName;
      var parent, r := MakePath(t, path);
      MakeHolds(old(s).holds, parent, r);
      ok := r.Some?;
      ghost var s1 := s;
      if ok {
        Release(r.value);
        OnlyTwice(old(s), s1, s);
        EntryStays(s1, s, mounts, Text(cwdPath, t, DirName(Text(cwdPath, t, path))), BaseName(Text(cwdPath, t, path)),
            r.value);
      }
      if parent.Some? {
        ghost var s2 := s;
        Release(parent.value);
        OnlyTwice(old(s), s2, s);
        if ok {
          EntryStays(s2, s, mounts, Text(cwdPath, t, DirName(Text(cwdPath, t, path))), BaseName(Text(cwdPath, t, path)),
              r.value);
        }
      }
    }

    /** Removes the cached entry name of parent, if it is of the wanted kind and the file
        system agrees. */
    method RemoveIn(parent: nat, name: string, wantDir: bool) returns (ok: bool)
      requires Valid() && parent in s.holds
      modifies `s
      ensures Valid() && InodesOnly(old(s), s) && s.holds == old(s).holds
      ensures ok ==> Key(Dir(parent), name) in old(s).cache && s.cache == old(s).cache - {Key(Dir(parent), name)}
      ensures !ok ==> s.cache == old(s).cache
    {
      hide Balanced, SbOk, MountsOk, InodesOnly;
      OnlySame(s);
      var found := CacheFind(parent, name);
      if found.None? { return false; }
      ghost var s1 := s;
      EntryLive(s, Key(Dir(parent), name));
      var refused := Chance();
      ok := s.inodes[found.value].isDir == wantDir && !refused;
      if ok {
        CacheRemove(found.value);
        OnlyTwice(old(s), s1, s);
        OnlyEvolves(s1, s);
        SbKept(s1, s, mounts);
      }
      ghost var s2 := s;
      HandOver(old(s).holds, found.value, None);
      Release(found.value);
      OnlyTwice(old(s), s2, s);
    }

    /** unlink (wantDir false) and rmdir (wantDir true). */
    method Remove(t: TaskId, path: string, wantDir: bool) returns (ok: bool, dir: nat, ghost mid: State)
      requires Valid() && NoNul(path)
      modifies `s
      ensures Valid() && InodesOnly(old(s), s) && s.holds == old(s).holds
      ensures !ok ==> Extends(old(s).cache, s.cache)
      ensures ok ==>
        && Extends(old(s).cache, mid.cache)
        && Resolves(mid, mounts, Text(cwdPath, t, DirName(Text(cwdPath, t, path))), dir)
      ensures ok ==> var k := Key(Dir(dir), BaseName(Text(cwdPath, t, path)));
        k in mid.cache && s.cache == mid.cache - {k}
    {
      hide Balanced, SbOk, MountsOk, InodesOnly, Normalised, Resolves, DirName, BaseName, InodeHold;
      var parent, name := LookupParent(t, path);
      HandOver(old(s).holds, 0, parent);
      ok, dir, mid := false, 0, s;
      if parent.Some? {
        dir := parent.value;
        var refused := Chance();
        HeldIsLive(s, dir);
        ghost var s1 := s;
        if !refused && s.inodes[dir].isDir {
          ok := RemoveIn(dir, name, wantDir);
          OnlyTwice(old(s), s1, s);
        }
        ghost var s2 := s;
        HandOver(old(s).holds, dir, None);
        Release(dir);
        OnlyTwice(old(s), s2, s);
      }
    }

    // ----- open files -----

    method FileGet(f: nat)
      requires Valid() && f in s.files
      modifies `s
      ensures Valid()
      ensures s == old(s).(files := old(s).files[f := old(s).files[f].(refcount := old(s).files[f].refcount + 1)],
                           fholds := old(s).fholds + multiset{f})
    {
      hide Balanced, MountsOk;
      s := s.(files := s.files[f := s.files[f].(refcount := s.files[f].refcount + 1)], fholds :=
          s.fholds + multiset{f});
      FileCountBalanced(old(s), s, f, s.files[f].refcount, s.fholds);
      SbKept(old(s), s, mounts);
    }

    /** The file's last reference goes, and with it the file's reference to its inode. */
    method FileDestroy(f: nat)
      requires Valid() && f in s.fholds && f in s.files && s.files[f].refcount == 1
      modifies `s
      ensures Valid() && CacheKept(old(s), s)
      ensures s.fholds == old(s).fholds - multiset{f} && s.holds == old(s).holds
      ensures s.ofile == old(s).ofile && s.cwd == old(s).cwd
    {
      hide Balanced, SbOk, MountsOk, Evolves;
      var inode := s.files[f].inode;
      s := s.(files := s.files - {f}, fholds := s.fholds - multiset{f}, ffreed := s.ffreed + multiset{f},
              holds := s.holds + InodeHold(inode));
      FileDropBalanced(old(s), s, f);
      SameEvolves(old(s), s);
      SbKept(old(s), s, mounts);
      if inode.Some? {
        ghost var was := s;
        HandOver(old(s).holds, inode.value, None);
        Release(inode.value);
        OnlyEvolves(was, s);
        EvolvesTwice(old(s), was, s);
      }
    }

    /** Gives one reference to a file back; the last one closes it and drops its inode. */
    method FilePut(f: nat)
      requires Valid() && f in s.fholds
      modifies `s
      ensures Valid() && CacheKept(old(s), s)
      ensures s.fholds == old(s).fholds - multiset{f} && s.holds == old(s).holds
      ensures s.ofile == old(s).ofile && s.cwd == old(s).cwd
    {
      hide Balanced, SbOk, MountsOk, Evolves;
      FileHeldIsLive(s, f);
      if s.files[f].refcount == 1 {
        FileDestroy(f);
      } else {
        s := s.(files := s.files[f := s.files[f].(refcount := s.files[f].refcount - 1)], fholds :=
            s.fholds - multiset{f});
        FileCountBalanced(old(s), s, f, s.files[f].refcount, s.fholds);
        SameEvolves(old(s), s);
        SbKept(old(s), s, mounts);
      }
    }

    // ----- descriptors -----

    /** The lowest free descriptor of task t. */
    method FreeFd(t: TaskId) returns (r: Option<FdNo>)
      ensures r.Some? ==> Fd(t, r.value) !in s.ofile && forall j :: 0 <= j < r.value ==> Fd(t, j) in s.ofile
      ensures r.None? ==> forall j :: 0 <= j < NOFILE ==> Fd(t, j) in s.ofile
    {
      for i := 0 to NOFILE
        invariant forall j :: 0 <= j < i ==> Fd(t, j) in s.ofile
      {
        if Fd(t, i) !in s.ofile { return Some(i); }
      }
      r := None;
    }

    /** A free descriptor takes over a held reference to file f. */
    method FdSet(d: Fd, f: nat)
      requires Valid() && d !in s.ofile && f in s.fholds
      modifies `s
      ensures Valid() && s == old(s).(ofile := old(s).ofile[d := f], fholds := old(s).fholds - multiset{f})
    {
      hide Balanced, MountsOk;
      s := s.(ofile := s.ofile[d := f], fholds := s.fholds - multiset{f});
      FdSetBalanced(old(s), s, d, f);
      SbKept(old(s), s, mounts);
    }

    method FdDrop(d: Fd)
      requires Valid() && d in s.ofile
      modifies `s
      ensures Valid() && s == old(s).(ofile := old(s).ofile - {d}, fholds := old(s).fholds + multiset{old(s).ofile[d]})
    {
      hide Balanced, MountsOk;
      s := s.(ofile := s.ofile - {d}, fholds := s.fholds + multiset{s.ofile[d]});
      FdDropBalanced(old(s), s, d);
      SbKept(old(s), s, mounts);
    }

    /** Shares file f with descriptor d. */
    method FdShare(d: Fd, f: nat)
      requires Valid() && d !in s.ofile && f in s.files
      modifies `s
      ensures Valid() && CacheKept(old(s), s) && s.ofile == old(s).ofile[d := f]
      ensures s.holds == old(s).holds && s.fholds == old(s).fholds && s.cwd == old(s).cwd
        && s.files.Keys == old(s).files.Keys
    {
      hide Balanced, SbOk, MountsOk, Evolves;
      FileGet(f);
      FdSet(d, f);
      SameEvolves(old(s), s);
      assert old(s).fholds + multiset{f} - multiset{f} == old(s).fholds;
    }

    /** A new file over inode, whose held reference it takes over, behind a free descriptor. */
    method OpenNew(t: TaskId, inode: Option<nat>) returns (r: Option<FdNo>)
      requires Valid() && InodeHold(inode) <= s.holds
      modifies `s
      ensures Valid() && CacheKept(old(s), s) && s.holds == old(s).holds - InodeHold(inode)
      ensures s.fholds == old(s).fholds && s.cwd == old(s).cwd
      ensures r.None? ==> s.ofile == old(s).ofile
      ensures r.Some? ==> Opened(old(s), s, Fd(t, r.value), inode)
    {
      hide Balanced, SbOk, MountsOk, Evolves, InodeHold;
      var full := Chance();
      var n := FreeFd(t);
      if full || n.None? {
        DropHeld(inode);
        return None;
      }
      var f := s.nextFile;
      s := s.(files := s.files[f := File(1, inode)], nextFile := f + 1, holds := s.holds - InodeHold(inode), fholds :=
          s.fholds + multiset{f});
      FileNewBalanced(old(s), s, inode);
      SameEvolves(old(s), s);
      SbKept(old(s), s, mounts);
      FdSet(Fd(t, n.value), f);
      SameEvolves(old(s), s);
      assert old(s).fholds + multiset{f} - multiset{f} == old(s).fholds;
      r := n;
    }

    method DropHeld(inode: Option<nat>)
      requires Valid() && InodeHold(inode) <= s.holds
      modifies `s
      ensures Valid() && InodesOnly(old(s), s) && s.cache == old(s).cache && s.holds == old(s).holds - InodeHold(inode)
    {
      hide Balanced, SbOk, MountsOk, InodesOnly;
      OnlySame(s);
      if inode.Some? {
        assert inode.value in InodeHold(inode);
        Release(inode.value);
      }
    }

    /** dup: the lowest free descriptor shares the file. */
    method Dup(t: TaskId, oldfd: nat) returns (r: Option<FdNo>)
      requires Valid()
      modifies `s
      ensures Valid() && s.holds == old(s).holds && s.fholds == old(s).fholds && s.cwd == old(s).cwd
      ensures r.None? ==> s.ofile == old(s).ofile
      ensures r.Some? ==> oldfd < NOFILE && Fd(t, oldfd) in old(s).ofile && Fd(t, r.value) !in old(s).ofile
                          && s.ofile == old(s).ofile[Fd(t, r.value) := old(s).ofile[Fd(t, oldfd)]]
    {
      hide Balanced, SbOk, MountsOk, Evolves;
      if oldfd >= NOFILE || Fd(t, oldfd) !in s.ofile { return None; }
      var f := s.ofile[Fd(t, oldfd)];
      FdLive(s, Fd(t, oldfd));
      FileGet(f);
      r := FreeFd(t);
      if r.Some? { FdShare(Fd(t, r.value), f); }
      FilePut(f);
      assert old(s).fholds + multiset{f} - multiset{f} == old(s).fholds;
    }

    method FdClose(t: TaskId, fd: nat) returns (ok: bool)
      requires Valid()
      modifies `s
      ensures Valid() && CacheKept(old(s), s) && s.holds == old(s).holds && s.fholds == old(s).fholds
        && s.cwd == old(s).cwd
      ensures ok == (fd < NOFILE && Fd(t, fd) in old(s).ofile)
      ensures s.ofile == if ok then old(s).ofile - {Fd(t, fd)} else old(s).ofile
    {
      hide Balanced, SbOk, MountsOk, Evolves;
      SameEvolves(s, s);
      if fd >= NOFILE || Fd(t, fd) !in s.ofile { return false; }
      var f := s.ofile[Fd(t, fd)];
      FdDrop(Fd(t, fd));
      SameEvolves(old(s), s);
      ghost var was := s;
      FilePut(f);
      EvolvesTwice(old(s), was, s);
      assert old(s).fholds + multiset{f} - multiset{f} == old(s).fholds;
      ok := true;
    }

    // ----- open -----

    /** The inode to open, looked up or created. */
    method Target(t: TaskId, path: string, creat: bool, excl: bool) returns (r: Option<nat>)
      requires Valid() && NoNul(path)
      modifies `s
      ensures Valid() && InodesOnly(old(s), s) && Extends(old(s).cache, s.cache)
      ensures s.holds == old(s).holds + InodeHold(r)
      ensures r.Some? ==> Named(s, mounts, cwdPath, t, path, r.value)
    {
      hide Balanced, SbOk, MountsOk, InodesOnly, Extends, InodeHold, EntryAt, Resolves, Normalised, DirName, BaseName;
      r := Lookup(t, path);
      ghost var was := s;
      HandOver(old(s).holds, 0, r);
      if creat && r.None? {
        r := Create(t, path);
        OnlyTwice(old(s), was, s);
        ExtendsTwice(old(s).cache, was.cache, s.cache);
      } else if creat && excl {
        HandOver(old(s).holds, r.value, None);
        Release(r.value);
        OnlyTwice(old(s), was, s);
        r := None;
      }
    }

    /** Directory flag, access mode, permission and truncation. */
    method MayOpen(i: nat, flags: Flags) returns (ok: bool)
      requires i in s.inodes
      ensures ok ==>
        (flags.directory ==> s.inodes[i].isDir) && flags.access < 3 && (flags.trunc ==> flags.access != RDONLY)
    {
      if flags.directory && !s.inodes[i].isDir { return false; }
      if flags.access >= 3 { return false; }
      var denied := Chance();
      if denied || (flags.trunc && flags.access == RDONLY) { return false; }
      var failed := Chance();
      ok := !(flags.trunc && failed);
    }

    /** Opens an inode whose reference the caller hands over. */
    method OpenInode(t: TaskId, i: nat, flags: Flags) returns (r: Option<FdNo>)
      requires Valid() && i in s.holds
      modifies `s
      ensures Valid() && CacheKept(old(s), s)
      ensures s.holds == old(s).holds - multiset{i} && s.fholds == old(s).fholds && s.cwd == old(s).cwd
      ensures r.None? ==> s.ofile == old(s).ofile
      ensures r.Some? ==> Opened(old(s), s, Fd(t, r.value), Some(i))
    {
      hide Balanced, SbOk, MountsOk, Evolves;
      HeldIsLive(s, i);
      var ok := MayOpen(i, flags);
      if ok {
        r := OpenNew(t, Some(i));
      } else {
        Release(i);
        r := None;
      }
    }

    method OpenPath(t: TaskId, path: string, flags: Flags) returns (r: Option<FdNo>)
      requires Valid() && NoNul(path)
      modifies `s
      ensures Valid() && Evolves(old(s), s) && Extends(old(s).cache, s.cache)
      ensures s.holds == old(s).holds && s.fholds == old(s).fholds && s.cwd == old(s).cwd
      ensures r.None? ==> s.ofile == old(s).ofile
      ensures r.Some? ==>
        exists i :: Opened(old(s), s, Fd(t, r.value), Some(i)) && Named(s, mounts, cwdPath, t, path, i)
    {
      hide Balanced, SbOk, MountsOk, Extends, Evolves, InodeHold, Named, InodesOnly;
      var i := Target(t, path, flags.creat, flags.excl);
      HandOver(old(s).holds, 0, i);
      ghost var was := s;
      OnlyFrame(old(s), s);
      r := None;
      if i.Some? {
        HandOver(old(s).holds, i.value, None);
        r := OpenInode(t, i.value, flags);
        EvolvesTwice(old(s), was, s);
        if r.Some? {
          NamedStays(was, s, mounts, cwdPath, t, path, i.value);
          assert Opened(old(s), s, Fd(t, r.value), Some(i.value));
        }
      }
    }

    method Open(t: TaskId, path: string, flags: Flags) returns (r: Option<FdNo>)
      requires Valid() && NoNul(path)
      modifies `s
      ensures Valid() && Evolves(old(s), s) && Extends(old(s).cache, s.cache)
      ensures s.holds == old(s).holds && s.fholds == old(s).fholds && s.cwd == old(s).cwd
      ensures r.None? ==> s.ofile == old(s).ofile
      ensures r.Some? ==> OpenedPath(old(s), s, mounts, cwdPath, t, path, Fd(t, r.value))
    {
      hide Balanced, SbOk, MountsOk, Extends, Evolves, InodeHold, Named, Opened;
      if !IsDevice(path) {
        r := OpenPath(t, path, flags);
        return;
      }
      WalkStart(s.cache, 0, []);
      SameEvolves(s, s);
      NoHold(s.holds);
      var missing := Chance();
      r := None;
      if !missing { r := OpenNew(t, None); }
    }

    // ----- tasks -----

    method CwdSet(t: TaskId, i: nat)
      requires Valid() && t !in s.cwd && i in s.holds
      modifies `s
      ensures Valid() && s == old(s).(cwd := old(s).cwd[t := i], holds := old(s).holds - multiset{i})
    {
      hide Balanced, MountsOk;
      s := s.(cwd := s.cwd[t := i], holds := s.holds - multiset{i});
      CwdSetBalanced(old(s), s, t, i);
      SbKept(old(s), s, mounts);
    }

    /** Forgets the working directory of t and gives its reference back. */
    method CwdForget(t: TaskId)
      requires Valid()
      modifies `s
      ensures Valid() && CacheKept(old(s), s) && s.cwd == old(s).cwd - {t}
      ensures s.holds == old(s).holds && s.fholds == old(s).fholds && s.ofile == old(s).ofile && s.files == old(s).files
    {
      hide Balanced, SbOk, MountsOk, CacheKept, InodesOnly;
      SettleSame(s);
      if t in s.cwd {
        var i := s.cwd[t];
        s := s.(cwd := s.cwd - {t}, holds := s.holds + multiset{i});
        CwdDropBalanced(old(s), s, t);
        Settle(old(s), s, mounts);
        ghost var was := s;
        HandOver(old(s).holds, i, None);
        Release(i);
        OnlyFrame(was, s);
        OnlyKept(old(s), was, s);
      }
    }

    /** The working directory of t becomes i, whose reference the caller hands over. */
    method CwdReplace(t: TaskId, i: nat)
      requires Valid() && i in s.holds
      modifies `s
      ensures Valid() && s.cwd == old(s).cwd[t := i] && s.holds == old(s).holds - multiset{i}
      ensures s.fholds == old(s).fholds && s.ofile == old(s).ofile && s.cache == old(s).cache && s.roots == old(s).roots
    {
      hide Balanced, SbOk, MountsOk, Evolves;
      CwdForget(t);
      CwdSet(t, i);
    }

    method BuildPath(path: string, cwd: string) returns (r: Option<string>)
      requires NoNul(path) && NoNul(cwd) && (cwd == "" || cwd[0] == '/')
      ensures r.Some? ==>
        r.value == Normalised(Some(path), Some(cwd)) && 0 < |r.value| < MAX_PATH && r.value[0] == '/' && NoNul(r.value)
    {
      hide Normalised;
      var full := Chance();
      if full { return None; }
      var buf := new char[BUFSZ];
      BuildUserPath(buf, Some(path), Some(cwd));
      NormalisedAbsolute(path, cwd);
      var text := CStr(buf[..]);
      r := if text == "" || |text| >= MAX_PATH then None else Some(text);
    }

    method SetCwd(t: TaskId, path: string) returns (ok: bool)
      requires Valid() && NoNul(path)
      modifies `s, `cwdPath
      ensures Valid() && s.holds == old(s).holds && s.fholds == old(s).fholds && s.ofile == old(s).ofile
      ensures !ok ==> s.cwd == old(s).cwd && cwdPath == old(cwdPath)
      ensures ok ==>
        t in s.cwd && s.cwd == old(s).cwd[t := s.cwd[t]] && t in cwdPath && cwdPath == old(cwdPath)[t := cwdPath[t]]
      ensures ok ==> cwdPath[t] == Normalised(Some(path), Some(if t in old(cwdPath) then old(cwdPath)[t] else ""))
      ensures ok ==> Resolves(s, mounts, Text(old(cwdPath), t, cwdPath[t]), s.cwd[t])
    {
      hide Balanced, SbOk, MountsOk, Extends, Evolves, InodeHold, Resolves, Normalised;
      ok := false;
      var text := BuildPath(path, if t in cwdPath then cwdPath[t] else "");
      if text.Some? {
        var i := Lookup(t, text.value);
        HandOver(old(s).holds, 0, i);
        if i.Some? {
          HeldIsLive(s, i.value);
          HandOver(old(s).holds, i.value, None);
          ok := s.inodes[i.value].isDir;
          if ok {
            ghost var was := s;
            CwdReplace(t, i.value);
            SameCache(was, s, mounts, Text(cwdPath, t, text.value), i.value);
            cwdPath := cwdPath[t := text.value];
          } else {
            Release(i.value);
          }
        }
      }
    }

    /** exit_fs: closes every descriptor of t and forgets its working directory. */
    method ExitFs(t: TaskId)
      requires Valid()
      modifies `s, `cwdPath
      ensures Valid() && CacheKept(old(s), s) && s.holds == old(s).holds && s.fholds == old(s).fholds
      ensures s.cwd == old(s).cwd - {t} && t in cwdPath && cwdPath == old(cwdPath)[t := ""]
      ensures s.ofile == map d | d in old(s).ofile && d.task != t :: old(s).ofile[d]
    {
      hide Balanced, SbOk, MountsOk, Evolves;
      SameEvolves(s, s);
      var i := 0;
      while i < NOFILE
        invariant 0 <= i <= NOFILE && Valid() && CacheKept(old(s), s) && s.holds == old(s).holds
          && s.fholds == old(s).fholds
        invariant s.cwd == old(s).cwd && cwdPath == old(cwdPath)
        invariant forall d :: d in s.ofile <==> d in old(s).ofile && (d.task != t || d.n >= i)
        invariant forall d :: d in s.ofile ==> s.ofile[d] == old(s).ofile[d]
      {
        ghost var was := s;
        var _ := FdClose(t, i);
        EvolvesTwice(old(s), was, s);
        i := i + 1;
      }
      ghost var was := s;
      CwdForget(t);
      EvolvesTwice(old(s), was, s);
      cwdPath := cwdPath[t := ""];
    }

    /** The file-system part of fork: the child shares the working directory and every open
        file of its father. */
    method ForkFs(father: TaskId, child: TaskId)
      requires Valid() && child != father && child !in s.cwd && (forall d :: d in s.ofile ==> d.task != child)
      modifies `s, `cwdPath
      ensures Valid() && CacheKept(old(s), s) && s.holds == old(s).holds && s.fholds == old(s).fholds
      ensures s.cwd == if father in old(s).cwd then old(s).cwd[child := old(s).cwd[father]] else old(s).cwd
      ensures cwdPath == old(cwdPath)[child := if father in old(cwdPath) then old(cwdPath)[father] else ""]
      ensures forall d: Fd :: d.task != child ==>
        (d in s.ofile <==> d in old(s).ofile) && (d in s.ofile ==> s.ofile[d] == old(s).ofile[d])
      ensures forall n: FdNo :: Fd(child, n) in s.ofile <==> Fd(father, n) in old(s).ofile
      ensures forall n: FdNo :: Fd(child, n) in s.ofile ==> s.ofile[Fd(child, n)] == old(s).ofile[Fd(father, n)]
    {
      hide Balanced, SbOk, MountsOk, Evolves;
      ForkCwd(father, child);
      cwdPath := cwdPath[child := if father in cwdPath then cwdPath[father] else ""];
      var i := 0;
      while i < NOFILE
        invariant 0 <= i <= NOFILE && Valid() && CacheKept(old(s), s) && s.holds == old(s).holds
          && s.fholds == old(s).fholds
        invariant s.cwd == if father in old(s).cwd then old(s).cwd[child := old(s).cwd[father]] else old(s).cwd
        invariant cwdPath == old(cwdPath)[child := if father in old(cwdPath) then old(cwdPath)[father] else ""]
        invariant forall d: Fd :: d.task != child ==>
          (d in s.ofile <==> d in old(s).ofile) && (d in s.ofile ==> s.ofile[d] == old(s).ofile[d])
        invariant forall n: FdNo :: Fd(child, n) in s.ofile <==> n < i && Fd(father, n) in old(s).ofile
        invariant forall n: FdNo :: Fd(child, n) in s.ofile ==> s.ofile[Fd(child, n)] == old(s).ofile[Fd(father, n)]
      {
        if Fd(father, i) in s.ofile {
          ghost var was := s;
          FdLive(s, Fd(father, i));
          FdShare(Fd(child, i), s.ofile[Fd(father, i)]);
          EvolvesTwice(old(s), was, s);
        }
        i := i + 1;
      }
    }

    /** The child's working directory, with a reference of its own. */
    method ForkCwd(father: TaskId, child: TaskId)
      requires Valid() && child !in s.cwd
      modifies `s
      ensures Valid() && CacheKept(old(s), s) && s.holds == old(s).holds && s.fholds == old(s).fholds
        && s.ofile == old(s).ofile
      ensures s.cwd == if father in old(s).cwd then old(s).cwd[child := old(s).cwd[father]] else old(s).cwd
    {
      hide Balanced, SbOk, MountsOk, CacheKept, InodesOnly;
      if father !in s.cwd {
        SettleSame(s);
        return;
      }
      var i := s.cwd[father];
      CwdLive(s, father);
      InodeGet(i);
      s := s.(cwd := s.cwd[child := i], holds := s.holds - multiset{i});
      HandOver(old(s).holds, i, None);
      CwdShared(old(s), s, mounts, i, child);
    }

    // ----- mount -----

    /** get_super: refuses, or makes a super block that owns a new root inode. */
    method GetSuper() returns (b: Option<nat>)
      requires Balanced(s) && SbOk(s, mounts)
      modifies `s
      ensures Balanced(s) && TasksKept(old(s), s) && s.cache == old(s).cache && s.holds == old(s).holds
      ensures b.None? ==> s == old(s)
      ensures b.Some? ==> b.value == old(s).nextSb && SuperMade(old(s), s, b.value)
    {
      hide Balanced, SbOk, Evolves;
      CountSame(s);
      var refused := Chance();
      if refused { return None; }
      NewRoot(s, mounts);
      var i := s.nextIno;
      b := Some(s.nextSb);
      s := s.(nextSb := s.nextSb + 1);
      ghost var s1 := s;
      SuperBalanced(old(s), s1);
      s := s.(inodes := s.inodes[i := RootInode(b.value)], nextIno := i + 1, holds := s.holds + multiset{i});
      NewBalanced(s1, s, RootInode(b.value));
      ghost var s2 := s;
      s := s.(roots := s.roots[b.value := i], holds := s.holds - multiset{i});
      RootSetBalanced(s2, s, b.value, i);
      SuperFacts(old(s), s, b.value);
    }

    /** kill_sb: gives back the root and frees the super block. */
    method KillSb(b: nat)
      requires Balanced(s) && b in s.roots
      modifies `s
      ensures Balanced(s) && TasksKept(old(s), s) && s.cache == old(s).cache && s.holds == old(s).holds
      ensures s.roots == old(s).roots - {b}
    {
      hide Balanced, Evolves;
      var i := s.roots[b];
      s := s.(roots := s.roots - {b}, holds := s.holds + multiset{i});
      RootDropBalanced(old(s), s, b);
      SameEvolves(old(s), s);
      HandOver(old(s).holds, i, None);
      ghost var was := s;
      HeldIsLive(s, i);
      InodePut(i);
      EvolvesTwice(old(s), was, s);
    }

    /** Caches the root of super block b under parent; a directory parent is referenced. */
    method CacheRoot(b: nat, parent: Parent, ghost from: State) returns (ok: bool)
      requires Balanced(s) && TasksKept(from, s) && b in s.roots && s.roots[b] in s.inodes && NotCached(s, s.roots[b])
      requires from.nextIno <= s.roots[b] && (parent.Dir? ==> parent.i in s.inodes && parent.i < from.nextIno)
      modifies `s
      ensures Balanced(s) && TasksKept(from, s) && s.roots == old(s).roots && s.holds == old(s).holds
      ensures !ok ==> s.cache == old(s).cache
      ensures ok ==> Key(parent, "/") !in old(s).cache && s.cache == old(s).cache[Key(parent, "/") := s.roots[b]]
      ensures s.roots[b] in s.inodes && s.inodes[s.roots[b]].sb == old(s).inodes[s.roots[b]].sb
      ensures s.inodes[s.roots[b]].key == Key(parent, "/")
    {
      hide Balanced, Evolves, NotCached;
      var i, k := s.roots[b], Key(parent, "/");
      ghost var s0 := s;
      s := s.(inodes := s.inodes[i := s.inodes[i].(key := k)]);
      StampRoot(from, s0, s, i, k);
      ghost var s1 := s;
      SameEvolves(s1, s1);
      if parent.Dir? { InodeGet(parent.i); }
      ghost var s2 := s;
      ParentHeld(s1.holds, k);
      EvolvesTwice(from, s1, s2);
      ok := CacheInsert(i);
      if ok {
        InsertedOnly(s2, s, i);
        EvolvesTwice(from, s2, s);
      } else if parent.Dir? {
        HeldIsLive(s, parent.i);
        InodePut(parent.i);
        EvolvesTwice(from, s2, s);
      }
    }

    /** Undoes a mount that failed: the root leaves the cache, if it is there, and the super
        block goes. */
    method Abandon(b: nat, cached: bool, ghost from: State)
      requires Balanced(s) && TasksKept(from, s) && Balanced(from) && SbOk(from, mounts) && b !in from.roots
      requires b in s.roots && s.roots == from.roots[b := s.roots[b]] && s.roots[b] in s.inodes && s.holds == from.holds
      requires var k := s.inodes[s.roots[b]].key;
               if cached then k !in from.cache && s.cache == from.cache[k := s.roots[b]] else s.cache == from.cache
      modifies `s
      ensures Balanced(s) && SbOk(s, mounts) && TasksKept(from, s) && s.cache == from.cache && s.roots == from.roots
        && s.holds == from.holds
    {
      hide Balanced, SbOk, Evolves;
      if cached {
        ghost var s0 := s;
        CacheRemove(s.roots[b]);
        EvolvesTwice(from, s0, s);
        assert s.cache == from.cache;
      }
      ghost var s1 := s;
      KillSb(b);
      EvolvesTwice(from, s1, s);
      assert s.roots == from.roots;
      SbKept(from, s, mounts);
    }

    /** mount: a new super block appears below the mount that covers target, or as the root. */
    method Mount(target: string) returns (ok: bool)
      requires Valid()
      modifies `s, `mounts, `rootMnt, `nextMnt
      ensures Valid() && TasksKept(old(s), s) && s.holds == old(s).holds
      ensures !ok ==>
        mounts == old(mounts) && rootMnt == old(rootMnt) && s.cache == old(s).cache && s.roots == old(s).roots
      ensures ok ==> Grown(old(mounts), mounts, old(nextMnt), target) && mounts[old(nextMnt)].sb !in old(s).roots
      ensures ok ==> (target == "/" <==> rootMnt == Some(old(nextMnt)))
    {
      hide Balanced, SbOk, MountsOk, Evolves;
      CountSame(s);
      var parent: Option<nat> := None;
      var b := GetSuper();
      if b.None? { return false; }
      ghost var s1 := s;
      FreshSuper(old(s), mounts);
      if target != "/" {
        parent := FindMount(target);
        if parent.None? {
          Abandon(b.value, false, old(s));
          return false;
        }
      }
      ok := MountAt(b.value, target, parent, old(s));
    }

    method MountAt(b: nat, target: string, parent: Option<nat>, ghost from: State) returns (ok: bool)
      requires MountsOk(mounts, rootMnt, nextMnt) && SupersOk(from, mounts) && Balanced(from) && SbOk(from, mounts)
      requires Balanced(s) && TasksKept(from, s) && s.cache == from.cache && s.holds == from.holds && b >= from.nextSb
        && SuperMade(from, s, b)
      requires b !in from.roots && from.nextIno !in from.inodes
      requires if target == "/" then parent.None? else parent.Some? && parent.value in mounts
      requires forall t :: t in cwdPath ==> NoNul(cwdPath[t]) && (cwdPath[t] == "" || cwdPath[t][0] == '/')
      modifies `s, `mounts, `rootMnt, `nextMnt
      ensures Valid() && TasksKept(from, s) && s.holds == from.holds
      ensures !ok ==> mounts == old(mounts) && rootMnt == old(rootMnt) && s.cache == from.cache && s.roots == from.roots
      ensures ok ==> Grown(old(mounts), mounts, old(nextMnt), target) && mounts[old(nextMnt)].sb == b
      ensures ok ==> (target == "/" <==> rootMnt == Some(old(nextMnt)))
    {
      hide Balanced, SbOk, MountsOk, Evolves, NotCached;
      var key := Special;
      if parent.Some? {
        key := Dir(s.roots[mounts[parent.value].sb]);
        MountRootLive(from, s, mounts, parent.value, b);
      }
      var cached := CacheRoot(b, key, from);
      var full := Chance();
      if !cached || full || (parent.None? && rootMnt.Some?) {
        Abandon(b, cached, from);
        return false;
      }
      var mnt := VfsShape.Mount(target, b, parent, []);
      if parent.Some? {
        MountedBelow(from, s, mounts, rootMnt, nextMnt, parent.value, mnt, key.i);
        mounts := Linked(mounts, parent.value, nextMnt, mnt);
      } else {
        MountedTop(from, s, mounts, rootMnt, nextMnt, mnt);
        mounts := mounts[nextMnt := mnt];
        rootMnt := Some(nextMnt);
      }
      nextMnt := nextMnt + 1;
      ok := true;
    }

    // ----- umount -----

    /** The mount below node whose path is exactly path. */
    method FindExact(node: nat, path: string) returns (r: Option<nat>)
      requires MountsOk(mounts, rootMnt, nextMnt) && node in mounts
      ensures r.Some? ==> r.value in mounts && Below(mounts, r.value, node) && mounts[r.value].path == path
      ensures r.None? ==> forall m :: Below(mounts, m, node) ==> mounts[m].path != path
      decreases nextMnt - node
    {
      assert MountOk(mounts, rootMnt, nextMnt, node);
      hide MountsOk;
      var list := mounts[node].child;
      for j := 0 to |list|
        invariant forall x :: 0 <= x < j ==> NoneAt(mounts, list[x], path)
      {
        var c := list[j];
        assert c in list;
        assert ChildOk(mounts, node, c);
        ChildIssued(mounts, rootMnt, nextMnt, c);
        if mounts[c].path == path { return Some(c); }
        r := FindExact(c, path);
        if r.Some? {
          BelowTwice(mounts, r.value, c, node);
          return;
        }
      }
      r := None;
      forall c | c in list ensures NoneAt(mounts, c, path) {
        var x :| 0 <= x < |list| && list[x] == c;
      }
      NoneBelow(mounts, rootMnt, nextMnt, node, path);
    }

    /** Whether any task's working directory or open file is on super block b. */
    method Busy(b: nat) returns (busy: bool)
      requires Balanced(s)
      ensures busy == !Idle(s, b)
    {
      OwnedIsLive(s);
      hide Balanced;
      for t := 0 to NTASKS
        invariant forall u: TaskId :: u < t && u in s.cwd ==> s.inodes[s.cwd[u]].sb != b
        invariant forall d: Fd :: d.task < t && d in s.ofile ==> !FileOn(s, s.ofile[d], b)
      {
        if t in s.cwd && s.inodes[s.cwd[t]].sb == b { return true; }
        for j := 0 to NOFILE
          invariant forall n: FdNo :: n < j && Fd(t, n) in s.ofile ==> !FileOn(s, s.ofile[Fd(t, n)], b)
        {
          if Fd(t, j) in s.ofile && FileOn(s, s.ofile[Fd(t, j)], b) { return true; }
        }
        assert forall d: Fd :: d.task == t ==> d == Fd(t, d.n);
      }
      busy := false;
    }

    /** At most CACHE_SIZE cached inodes of super block b, in some order. */
    method Collect(b: nat) returns (victims: seq<nat>)
      requires Balanced(s)
      ensures Victims(s, b, victims) && |victims| == Capped(|OfSb(s, b)|)
    {
      hide Balanced, Gathered, Victims;
      victims := [];
      var todo := s.cache.Keys;
      GatherNone(s, b);
      while todo != {}
        invariant todo <= s.cache.Keys && Gathered(s, b, victims, todo)
        decreases todo
      {
        var k :| k in todo;
        EntryLive(s, k);
        GatherOne(s, b, victims, todo, k);
        if |victims| < CACHE_SIZE && s.inodes[s.cache[k]].sb == b { victims := victims + [s.cache[k]]; }
        todo := todo - {k};
      }
      GatherAll(s, b, victims);
    }

    /** Removes the collected inodes from the cache, one after the other. */
    method RemoveAll(b: nat, victims: seq<nat>)
      requires Balanced(s) && Victims(s, b, victims)
      modifies `s
      ensures Balanced(s) && InodesOnly(old(s), s) && s.holds == old(s).holds && Extends(s.cache, old(s).cache)
      ensures |OfSb(s, b)| == |OfSb(old(s), b)| - |victims|
    {
      hide Balanced, InodesOnly, OfSb;
      OnlySame(s);
      var n := 0;
      while n < |victims|
        invariant 0 <= n <= |victims| && Balanced(s) && InodesOnly(old(s), s) && s.holds == old(s).holds
          && Extends(s.cache, old(s).cache)
        invariant Victims(s, b, victims[n..]) && |OfSb(s, b)| == |OfSb(old(s), b)| - n
      {
        ghost var was := s;
        assert victims[n..][0] == victims[n];
        CacheRemove(victims[n]);
        OnlyTwice(old(s), was, s);
        OneVictimLess(was, s, b, victims[n..]);
        assert victims[n..][1..] == victims[n + 1..];
        n := n + 1;
      }
    }

    /** Up to eight rounds of collecting and removing. */
    method Purge(b: nat)
      requires Balanced(s)
      modifies `s
      ensures Balanced(s) && InodesOnly(old(s), s) && s.holds == old(s).holds && Extends(s.cache, old(s).cache)
      ensures |OfSb(s, b)| == Leftover(|OfSb(old(s), b)|)
    {
      hide Balanced, InodesOnly, OfSb;
      OnlySame(s);
      var retry := 0;
      while retry < ROUNDS
        invariant 0 <= retry <= ROUNDS && Balanced(s) && InodesOnly(old(s), s) && s.holds == old(s).holds
          && Extends(s.cache, old(s).cache)
        invariant |OfSb(s, b)| == if |OfSb(old(s), b)| <= retry * CACHE_SIZE then 0
          else |OfSb(old(s), b)| - retry * CACHE_SIZE
      {
        var victims := Collect(b);
        if |victims| == 0 { break; }
        ghost var was := s;
        RemoveAll(b, victims);
        OnlyTwice(old(s), was, s);
        retry := retry + 1;
      }
    }

    /** umount: a leaf of the mount tree that no task uses goes, with the cached inodes of its
        super block, of which eight rounds can remove at most ROUNDS * CACHE_SIZE. */
    method Umount(target: string) returns (ok: bool, sb: nat)
      requires Valid()
      modifies `s, `mounts
      ensures Valid() && TasksKept(old(s), s) && s.holds == old(s).holds
      ensures !ok ==> s == old(s) && mounts.Keys == old(mounts).Keys
      ensures ok ==>
        target != "/" && Shrunk(old(mounts), mounts, target, sb) && s.roots == old(s).roots - {sb} && Idle(old(s), sb)
      ensures ok ==> |OfSb(s, sb)| == Leftover(|OfSb(old(s), sb)|)
      ensures
        && ok && Leftover(|OfSb(old(s), sb)|) == 0 && NoStale(old(s))
        && s.holds == multiset{} && s.fholds == multiset{} ==>
        NoneLeft(s, sb) && NoStale(s)
    {
      hide Balanced, SbOk, MountsOk, Evolves, Idle, OfSb, NoneLeft, NoStale, Leftover;
      ok, sb := false, 0;
      CountSame(s);
      if target == "" || target[0] != '/' || target == "/" || rootMnt.None? { return; }
      RootIn(mounts, rootMnt, nextMnt);
      var found := FindExact(rootMnt.value, target);
      if found.None? { return; }
      var m := found.value;
      var p := mounts[m].parent.value;
      LeafFacts(s, mounts, rootMnt, nextMnt, m);
      sb := mounts[m].sb;
      var busy := Busy(sb);
      if mounts[m].child != [] || busy { return; }
      var full := Chance();
      if full {
        RelinkedFacts(s, mounts, rootMnt, nextMnt, p, m);
        mounts := mounts[p := mounts[p].(child := [m] + Without(mounts[p].child, m))];
        return;
      }
      Purge(sb);
      OnlyTasks(old(s), s);
      ghost var was := s;
      KillSb(sb);
      EvolvesTwice(old(s), was, s);
      SameOfSb(was, s, sb);
      UnmountFacts(old(s), s, mounts, rootMnt, nextMnt, p, m);
      mounts := Unlinked(mounts, p, m);
      ok := true;
      if NoStale(old(s)) && |OfSb(s, sb)| == 0 && s.holds == multiset{} && s.fholds == multiset{} {
        LeftNothing(old(s), s, mounts, sb);
      }
    }

    // ----- whole runs -----

    /** One system call. */
    method Call(call: Syscall)
      requires Valid() && CallOk(call)
      modifies this
      ensures Valid() && s.holds == old(s).holds && s.fholds == old(s).fholds
    {
      hide Balanced, SbOk, MountsOk, Evolves, InodesOnly, Extends, EntryAt, OpenedPath, Shrunk, Grown, Idle, OfSb,
        Normalised, Resolves;
      match call {
        case Stat(t, path) =>
          var r := Lookup(t, path);
          HandOver(old(s).holds, 0, r);
          OnlyFrame(old(s), s);
          if r.Some? { Seen(r.value); }
        case OpenCall(t, path, flags) => var _ := Open(t, path, flags);
        case Close(t, fd) => var _ := FdClose(t, fd);
        case DupCall(t, fd) => var _ := Dup(t, fd);
        case MkdirCall(t, path) =>
          var _ := Mkdir(t, path);
          OnlyFrame(old(s), s);
        case RemoveCall(t, path, wantDir) =>
          var _, _, _ := Remove(t, path, wantDir);
          OnlyFrame(old(s), s);
        case Chdir(t, path) => var _ := SetCwd(t, path);
        case Fork(father, child) =>
          if child != father && child !in s.cwd && (forall d :: d in s.ofile ==> d.task != child) {
            ForkFs(father, child);
          }
        case Exit(t) => ExitFs(t);
        case MountCall(target) => var _ := Mount(target);
        case UmountCall(target) => var _, _ := Umount(target);
      }
    }

    method Seen(i: nat)
      requires Valid() && i in s.holds
      modifies `s
      ensures Valid() && s.holds == old(s).holds - multiset{i} && s.fholds == old(s).fholds
    {
      hide Balanced, SbOk, MountsOk, InodesOnly;
      Release(i);
      OnlyFrame(old(s), s);
    }

    /** Reference conservation over any sequence of system calls, whether they succeed or fail:
        every count equals the number of owners, everything an owner refers to is alive, and
        every inode ever made is alive or was destroyed once. */
    method Run(calls: seq<Syscall>)
      requires Valid() && s.holds == multiset{} && s.fholds == multiset{}
        && forall k :: 0 <= k < |calls| ==> CallOk(calls[k])
      modifies this
      ensures Valid() && s.holds == multiset{} && s.fholds == multiset{}
      ensures forall i :: i in s.inodes ==> 0 < s.inodes[i].refcount == Owners(s, i)
      ensures forall f :: f in s.files ==> 0 < s.files[f].refcount == Hits(s.ofile, f)
      ensures forall k :: k in s.cache ==> s.cache[k] in s.inodes && (k.parent.Dir? ==> k.parent.i in s.inodes)
      ensures forall i :: 0 <= i < s.nextIno ==> (i in s.inodes <==> s.freed[i] == 0) && s.freed[i] <= 1
    {
      hide Balanced, SbOk, MountsOk, CallOk;
      var n := 0;
      while n < |calls|
        invariant 0 <= n <= |calls| && Valid() && s.holds == multiset{} && s.fholds == multiset{}
      {
        Call(calls[n]);
        n := n + 1;
      }
      Conserved(s);
    }
  }

  datatype Syscall =
    | Stat(t: TaskId, path: string)
    | OpenCall(t: TaskId, path: string, flags: Flags)
    | Close(t: TaskId, fd: nat)
    | DupCall(t: TaskId, fd: nat)
    | MkdirCall(t: TaskId, path: string)
    | RemoveCall(t: TaskId, path: string, wantDir: bool)
    | Chdir(t: TaskId, path: string)
    | Fork(father: TaskId, child: TaskId)
    | Exit(t: TaskId)
    | MountCall(target: string)
    | UmountCall(target: string)

  /** Paths are C strings. */
  predicate CallOk(call: Syscall) {
    match call
    case Stat(_, path) => NoNul(path)
    case OpenCall(_, path, _) => NoNul(path)
    case MkdirCall(_, path) => NoNul(path)
    case RemoveCall(_, path, _) => NoNul(path)
    case Chdir(_, path) => NoNul(path)
    case _ => true
  }

  /** Cache entry, cached children, open files, working directories and super block roots. */
  ghost function Owners(s: State, i: nat): nat {
    Hits(s.cache, i) + Hits(ParentsOf(s.cache), i) + Hits(InodesOf(s.files), i) + Hits(s.cwd, i) + Hits(s.roots, i)
  }

  lemma Conserved(s: State)
    requires Balanced(s) && s.holds == multiset{} && s.fholds == multiset{}
    ensures forall i :: i in s.inodes ==> 0 < s.inodes[i].refcount == Owners(s, i)
    ensures forall f :: f in s.files ==> 0 < s.files[f].refcount == Hits(s.ofile, f)
    ensures forall k :: k in s.cache ==> s.cache[k] in s.inodes && (k.parent.Dir? ==> k.parent.i in s.inodes)
    ensures forall i :: 0 <= i < s.nextIno ==> (i in s.inodes <==> s.freed[i] == 0) && s.freed[i] <= 1
  {
    hide Hits, ParentsOf, InodesOf;
    OwnedIsLive(s);
    forall i | i in s.inodes ensures 0 < s.inodes[i].refcount == Owners(s, i) { assert InodeOk(s, i); }
    forall f | f in s.files ensures 0 < s.files[f].refcount == Hits(s.ofile, f) { assert FileOk(s, f); }
    forall i | 0 <= i < s.nextIno
      ensures (i in s.inodes <==> s.freed[i] == 0) && s.freed[i] <= 1
    {
      assert InodeOk(s, i);
    }
  }

  /** What eight rounds leave of n cached inodes. */
  function Leftover(n: nat): nat { if n <= ROUNDS * CACHE_SIZE then 0 else n - ROUNDS * CACHE_SIZE }

  /** One mount less: the one with path target and super block b. */
  ghost predicate Shrunk(mounts: map<nat, Mount>, mounts': map<nat, Mount>, target: string, b: nat) {
    exists m :: m in mounts && mounts[m].path == target && mounts[m].sb == b && mounts[m].child == []
        && mounts'.Keys == mounts.Keys - {m}
  }

  lemma RootIn(mounts: map<nat, Mount>, root: Option<nat>, next: nat)
    requires MountsOk(mounts, root, next) && root.Some?
    ensures root.value in mounts
  {
  }

  lemma LeafFacts(s: State, mounts: map<nat, Mount>, root: Option<nat>, next: nat, m: nat)
    requires MountsOk(mounts, root, next) && SupersOk(s, mounts) && m in mounts && mounts[m].parent.Some?
    ensures mounts[m].parent.value in mounts && mounts[m].sb in s.roots
  {
    assert MountOk(mounts, root, next, m);
  }

  lemma RelinkedFacts(s: State, mounts: map<nat, Mount>, root: Option<nat>, next: nat, p: nat, m: nat)
    requires Balanced(s) && SbOk(s, mounts) && MountsOk(mounts, root, next) && SupersOk(s, mounts)
    requires m in mounts && mounts[m].parent == Some(p) && p in mounts
    ensures var now := mounts[p := mounts[p].(child := [m] + Without(mounts[p].child, m))];
            SbOk(s, now) && MountsOk(now, root, next) && SupersOk(s, now)
  {
    hide Balanced, MountsOk, MountedAt, Without;
    RelinkedOk(mounts, root, next, p, m);
    var now := mounts[p := mounts[p].(child := [m] + Without(mounts[p].child, m))];
    forall k ensures EntryOk(s, now, k) {
      assert EntryOk(s, mounts, k);
      if k in s.cache && k.parent.Dir? && k.name == "/" && s.inodes[s.cache[k]].sb in s.roots {
        ChildStays(s, s, mounts, now, s.inodes[s.cache[k]].sb, k.parent.i);
      }
    }
  }

  lemma OnlyTasks(s: State, s': State)
    requires InodesOnly(s, s')
    ensures TasksKept(s, s') && s'.roots == s.roots
  {
  }

  lemma SameOfSb(s: State, s': State, b: nat)
    requires Balanced(s) && Balanced(s') && Evolves(s, s') && s'.cache == s.cache
    ensures OfSb(s', b) == OfSb(s, b)
  {
    hide Balanced;
    forall k | k in s.cache ensures k in OfSb(s', b) <==> k in OfSb(s, b) {
      EntryLive(s, k);
      EntryLive(s', k);
    }
  }

  lemma UnmountFacts(s: State, s': State, mounts: map<nat, Mount>, root: Option<nat>, next: nat, p: nat, m: nat)
    requires Balanced(s) && SbOk(s, mounts) && MountsOk(mounts, root, next) && SupersOk(s, mounts)
    requires Balanced(s') && Evolves(s, s') && Extends(s'.cache, s.cache)
    requires m in mounts && p in mounts && mounts[m].parent == Some(p) && mounts[m].child == []
    requires s'.roots == s.roots - {mounts[m].sb}
    ensures var now := Unlinked(mounts, p, m);
            SbOk(s', now) && MountsOk(now, root, next) && SupersOk(s', now)
                && Shrunk(mounts, now, mounts[m].path, mounts[m].sb)
  {
    hide Balanced, SbOk, Evolves, MountsOk;
    UniqueSb(mounts, root, next, m);
    SbUnmounted(s, s', mounts, root, next, p, m);
    UnlinkedOk(mounts, root, next, p, m);
    hide Extends;
    ShrunkBy(mounts, p, m);
    SupersLess(s, s', mounts, p, m);
  }

  lemma ShrunkBy(mounts: map<nat, Mount>, p: nat, m: nat)
    requires m in mounts && p in mounts && p != m && mounts[m].child == []
    ensures Shrunk(mounts, Unlinked(mounts, p, m), mounts[m].path, mounts[m].sb)
  {
    assert Unlinked(mounts, p, m).Keys == mounts.Keys - {m};
  }

  lemma SupersLess(s: State, s': State, mounts: map<nat, Mount>, p: nat, m: nat)
    requires m in mounts && p in mounts && SupersOk(s, mounts) && s'.roots == s.roots - {mounts[m].sb}
    requires forall x :: x in mounts && x != m ==> mounts[x].sb != mounts[m].sb
    ensures SupersOk(s', Unlinked(mounts, p, m))
  {
  }

  lemma UniqueSb(mounts: map<nat, Mount>, root: Option<nat>, next: nat, m: nat)
    requires MountsOk(mounts, root, next) && m in mounts
    ensures forall x :: x in mounts && x != m ==> mounts[x].sb != mounts[m].sb
    ensures mounts[m].parent.Some? ==> mounts[m].parent.value != m
  {
    assert MountOk(mounts, root, next, m);
  }

  /** After an unmount that emptied the cache, nothing of the super block is left. */
  lemma LeftNothing(s: State, s': State, mounts: map<nat, Mount>, b: nat)
    requires Balanced(s) && NoStale(s) && Idle(s, b) && Balanced(s') && TasksKept(s, s') && Extends(s'.cache, s.cache)
    requires SbOk(s', mounts) && SupersOk(s', mounts) && s'.roots == s.roots - {b} && |OfSb(s', b)| == 0
    requires s'.holds == multiset{} && s'.fholds == multiset{}
    ensures NoneLeft(s', b) && NoStale(s')
  {
    hide Balanced, SbOk;
    assert OfSb(s', b) == {};
    forall k | k in s'.cache && s'.cache[k] in s'.inodes ensures s'.inodes[s'.cache[k]].sb in s'.roots {
      EntryLive(s, k);
      EntryLive(s', k);
      assert k !in OfSb(s', b);
    }
    StillIdle(s, s', b);
    Emptied(s', mounts, b);
  }

  lemma StillIdle(s: State, s': State, b: nat)
    requires Balanced(s) && Idle(s, b) && Balanced(s') && TasksKept(s, s')
    ensures Idle(s', b)
  {
    UsedOld(s);
    hide Balanced;
    forall d | d in s'.ofile && s'.ofile[d] in s'.files ensures !FileOn(s', s'.ofile[d], b) {
      assert !FileOn(s, s.ofile[d], b);
    }
  }

  lemma UsedOld(s: State)
    requires Balanced(s)
    ensures forall t :: t in s.cwd ==> s.cwd[t] in s.inodes && s.cwd[t] < s.nextIno
    ensures forall f :: f in s.files && s.files[f].inode.Some? ==>
      s.files[f].inode.value in s.inodes && s.files[f].inode.value < s.nextIno
  {
    OwnedIsLive(s);
    forall i | i in s.inodes ensures i < s.nextIno { assert InodeOk(s, i); }
  }

  const CACHE_SIZE: nat := 128
  const ROUNDS: nat := 8

  /** Distinct cached inodes of super block b. */
  ghost predicate Victims(s: State, b: nat, victims: seq<nat>) {
    && (forall j :: 0 <= j < |victims| ==> Victim(s, b, victims[j]))
    && (forall j, k :: 0 <= j < k < |victims| ==> victims[j] != victims[k])
  }

  predicate Victim(s: State, b: nat, i: nat) {
    i in s.inodes && s.inodes[i].sb == b && s.inodes[i].key in s.cache && s.cache[s.inodes[i].key] == i
  }

  function Capped(n: nat): nat { if n < CACHE_SIZE then n else CACHE_SIZE }

  /** The victims found among the keys that are not in todo. */
  ghost predicate Gathered(s: State, b: nat, victims: seq<nat>, todo: set<Key>) {
    && Victims(s, b, victims) && |victims| == Capped(|OfSb(s, b) - todo|)
    && forall j :: 0 <= j < |victims| ==> s.inodes[victims[j]].key !in todo
  }

  lemma GatherNone(s: State, b: nat)
    ensures Gathered(s, b, [], s.cache.Keys)
  {
    assert OfSb(s, b) - s.cache.Keys == {};
  }

  lemma GatherAll(s: State, b: nat, victims: seq<nat>)
    requires Gathered(s, b, victims, {})
    ensures Victims(s, b, victims) && |victims| == Capped(|OfSb(s, b)|)
  {
    assert OfSb(s, b) - {} == OfSb(s, b);
  }

  lemma GatherOne(s: State, b: nat, victims: seq<nat>, todo: set<Key>, k: Key)
    requires Gathered(s, b, victims, todo) && k in todo && k in s.cache && s.cache[k] in s.inodes
      && s.inodes[s.cache[k]].key == k
    ensures var i := s.cache[k];
            Gathered(s, b, if |victims| < CACHE_SIZE && s.inodes[i].sb == b then victims + [i] else victims, todo - {k})
  {
    var was, now := OfSb(s, b) - todo, OfSb(s, b) - (todo - {k});
    if s.inodes[s.cache[k]].sb == b {
      assert now == was + {k};
    } else {
      assert now == was;
    }
  }

  lemma OneVictimLess(s: State, s': State, b: nat, victims: seq<nat>)
    requires Balanced(s) && Balanced(s') && InodesOnly(s, s') && victims != [] && Victims(s, b, victims)
    requires s'.cache == s.cache - {s.inodes[victims[0]].key}
    ensures Victims(s', b, victims[1..]) && |OfSb(s', b)| == |OfSb(s, b)| - 1 && Extends(s'.cache, s.cache)
  {
    hide Balanced;
    var k := s.inodes[victims[0]].key;
    assert k in OfSb(s, b);
    OfSbDrop(s, s', k, b);
    forall j | 0 <= j < |victims[1..]| ensures Victim(s', b, victims[1..][j]) {
      var i := victims[j + 1];
      assert Victim(s, b, i) && Victim(s, b, victims[0]);
      EntryLive(s', s.inodes[i].key);
      EntryLive(s, s.inodes[i].key);
    }
  }

  lemma ChildIssued(mounts: map<nat, Mount>, root: Option<nat>, next: nat, c: nat)
    requires MountsOk(mounts, root, next) && c in mounts
    ensures c < next
  {
    assert MountOk(mounts, root, next, c);
  }

  lemma {:induction false} BelowTwice(mounts: map<nat, Mount>, m: nat, c: nat, node: nat)
    requires Below(mounts, m, c) && c in mounts && mounts[c].parent == Some(node) && node < c
    ensures Below(mounts, m, node)
    decreases m
  {
    if mounts[m].parent.value != c { BelowTwice(mounts, mounts[m].parent.value, c, node); }
  }

  /** One mount more, with path target; the others keep path, super block and parent. */
  ghost predicate Grown(mounts: map<nat, Mount>, mounts': map<nat, Mount>, m: nat, target: string) {
    && m !in mounts && mounts'.Keys == mounts.Keys + {m} && mounts'[m].path == target
    && forall x :: x in mounts ==> mounts'[x].(child := []) == mounts[x].(child := [])
  }

  lemma FreshSuper(s: State, mounts: map<nat, Mount>)
    requires Balanced(s) && SbOk(s, mounts)
    ensures s.nextSb !in s.roots && s.nextIno !in s.inodes
  {
    hide Balanced;
    NewRoot(s, mounts);
  }

  lemma MountRootLive(from: State, s: State, mounts: map<nat, Mount>, p: nat, b: nat)
    requires Balanced(from) && Balanced(s) && SupersOk(from, mounts) && p in mounts && b !in from.roots
    requires b in s.roots && s.roots == from.roots[b := s.roots[b]]
    ensures mounts[p].sb in s.roots && s.roots[mounts[p].sb] in s.inodes && s.roots[mounts[p].sb] < from.nextIno
    ensures mounts[p].sb in from.roots && from.roots[mounts[p].sb] == s.roots[mounts[p].sb]
  {
    hide Balanced;
    RootLive(from, mounts[p].sb);
    RootLive(s, mounts[p].sb);
  }

  /** What a mount below p leaves. */
  lemma MountedBelow(from: State, s: State, mounts: map<nat, Mount>, root: Option<nat>, next: nat, p: nat, mnt: Mount,
      i: nat)
    requires MountsOk(mounts, root, next) && SupersOk(from, mounts) && Balanced(from) && SbOk(from, mounts)
    requires Balanced(s) && Evolves(from, s) && mnt.sb >= from.nextSb && mnt.sb !in from.roots && mnt.parent == Some(p)
      && mnt.child == [] && p in mounts
    requires mnt.sb in s.roots && s.roots == from.roots[mnt.sb := s.roots[mnt.sb]]
    requires mounts[p].sb in from.roots && from.roots[mounts[p].sb] == i
    requires s.roots[mnt.sb] in s.inodes && s.inodes[s.roots[mnt.sb]].sb == mnt.sb
    requires Key(Dir(i), "/") !in from.cache && s.cache == from.cache[Key(Dir(i), "/") := s.roots[mnt.sb]]
    ensures var now := Linked(mounts, p, next, mnt);
            MountsOk(now, root, next + 1) && SbOk(s, now) && SupersOk(s, now) && Grown(mounts, now, next, mnt.path)
                && root != Some(next)
  {
    hide Balanced, SbOk, Evolves, MountsOk, Grown;
    GrownBelow(from, mounts, root, next, p, mnt);
    var now := Linked(mounts, p, next, mnt);
    RootLive(s, mounts[p].sb);
    assert IsChildOf(s, now, now[next], i);
    assert MountedAt(s, now, mnt.sb, i);
    hide IsChildOf, MountedAt;
    SbMounted(from, s, mounts, now, Key(Dir(i), "/"), s.roots[mnt.sb], mnt.sb);
  }

  lemma GrownBelow(from: State, mounts: map<nat, Mount>, root: Option<nat>, next: nat, p: nat, mnt: Mount)
    requires MountsOk(mounts, root, next) && SupersOk(from, mounts) && mnt.sb !in from.roots && mnt.parent == Some(p)
      && mnt.child == [] && p in mounts
    ensures var now := Linked(mounts, p, next, mnt);
            MountsOk(now, root, next + 1) && Grown(mounts, now, next, mnt.path) && root != Some(next) && next !in mounts
  {
    hide MountOk;
    Unissued(mounts, root, next);
    LinkedOk(mounts, root, next, p, mnt);
  }

  /** What the root mount leaves. */
  lemma MountedTop(from: State, s: State, mounts: map<nat, Mount>, root: Option<nat>, next: nat, mnt: Mount)
    requires MountsOk(mounts, root, next) && SupersOk(from, mounts) && Balanced(from) && SbOk(from, mounts)
      && root.None?
    requires Balanced(s) && Evolves(from, s) && mnt.sb >= from.nextSb && mnt.sb !in from.roots && mnt.parent.None?
      && mnt.child == [] && mnt.path == "/"
    requires mnt.sb in s.roots && s.roots == from.roots[mnt.sb := s.roots[mnt.sb]]
    requires s.roots[mnt.sb] in s.inodes && s.inodes[s.roots[mnt.sb]].sb == mnt.sb
    requires Key(Special, "/") !in from.cache && s.cache == from.cache[Key(Special, "/") := s.roots[mnt.sb]]
    ensures var now := mounts[next := mnt];
            MountsOk(now, Some(next), next + 1) && SbOk(s, now) && SupersOk(s, now)
                && Grown(mounts, now, next, mnt.path)
  {
    hide Balanced, SbOk, Evolves, MountsOk, Grown;
    var now := mounts[next := mnt];
    GrownTop(from, mounts, root, next, mnt);
    SbMounted(from, s, mounts, now, Key(Special, "/"), s.roots[mnt.sb], mnt.sb);
  }

  lemma GrownTop(from: State, mounts: map<nat, Mount>, root: Option<nat>, next: nat, mnt: Mount)
    requires MountsOk(mounts, root, next) && SupersOk(from, mounts) && root.None? && mnt.sb !in from.roots
    requires mnt.parent.None? && mnt.child == [] && mnt.path == "/"
    ensures var now := mounts[next := mnt];
      MountsOk(now, Some(next), next + 1) && Grown(mounts, now, next, mnt.path) && next !in mounts
  {
    hide MountOk;
    Unissued(mounts, root, next);
    var now := mounts[next := mnt];
    forall m | m in now ensures MountOk(now, Some(next), next + 1, m) {
      if m in mounts { TopKeeps(mounts, root, next, mnt, m); } else { TopOk(mounts, next, mnt); }
    }
  }

  lemma TopOk(mounts: map<nat, Mount>, next: nat, mnt: Mount)
    requires mnt.parent.None? && mnt.child == [] && mnt.path == "/"
    ensures MountOk(mounts[next := mnt], Some(next), next + 1, next)
  {
  }

  lemma TopKeeps(mounts: map<nat, Mount>, root: Option<nat>, next: nat, mnt: Mount, m: nat)
    requires MountsOk(mounts, root, next) && root.None? && next !in mounts && m in mounts
    ensures MountOk(mounts[next := mnt], Some(next), next + 1, m)
  {
    assert MountOk(mounts, root, next, m);
    hide MountsOk, Distinct;
    forall c | c in mounts[m].child ensures ChildOk(mounts[next := mnt], m, c) { assert ChildOk(mounts, m, c); }
  }

  lemma SettleSame(s: State)
    ensures CacheKept(s, s)
  {
  }

  /** Changes that leave inodes, cache and super blocks alone. */
  lemma Settle(s: State, s': State, mounts: map<nat, Mount>)
    requires Balanced(s) && SbOk(s, mounts) && Balanced(s')
    requires s'.inodes == s.inodes && s'.nextIno == s.nextIno && s'.cache == s.cache && s'.roots == s.roots
    ensures SbOk(s', mounts) && CacheKept(s, s')
  {
    hide Balanced, SbOk;
    SbKept(s, s', mounts);
  }

  lemma OnlyKept(s: State, s': State, s'': State)
    requires CacheKept(s, s') && InodesOnly(s', s'') && s''.cache == s'.cache
    ensures CacheKept(s, s'')
  {
    hide Evolves;
    EvolvesTwice(s, s', s'');
  }

  lemma CwdShared(s: State, s': State, mounts: map<nat, Mount>, i: nat, child: TaskId)
    requires Balanced(s) && SbOk(s, mounts) && i in s.inodes && child !in s.cwd
    requires s' == s.(inodes := s.inodes[i := s.inodes[i].(refcount := s.inodes[i].refcount + 1)],
                      cwd := s.cwd[child := i], holds := s.holds + multiset{i} - multiset{i})
    ensures Balanced(s') && SbOk(s', mounts) && CacheKept(s, s')
  {
    hide Balanced, SbOk;
    var mid := s.(inodes := s.inodes[i := s.inodes[i].(refcount := s.inodes[i].refcount + 1)], holds :=
        s.holds + multiset{i});
    GetBalanced(s, mid, i);
    CwdSetBalanced(mid, s', child, i);
    CountEvolves(s, s', i, s.inodes[i].refcount + 1);
    SbKept(s, s', mounts);
  }

  lemma CountSame(s: State)
    ensures Evolves(s, s)
  {
  }

  lemma NewRoot(s: State, mounts: map<nat, Mount>)
    requires Balanced(s) && SbOk(s, mounts)
    ensures s.nextSb !in s.roots && NotCached(s, s.nextIno) && s.nextIno !in s.inodes
  {
    hide Balanced;
    NotYetCached(s);
    RootsOld(s, s.nextSb);
  }

  function RootInode(b: nat): Inode { Inode(1, b, true, Key(Special, "")) }

  lemma SuperFacts(s: State, s': State, b: nat)
    requires b == s.nextSb && s.nextIno !in s.inodes && NotCached(s, s.nextIno)
    requires s' == s.(nextSb := s.nextSb + 1, inodes := s.inodes[s.nextIno := RootInode(b)], nextIno := s.nextIno + 1,
                      roots := s.roots[b := s.nextIno], holds := s.holds + multiset{s.nextIno} - multiset{s.nextIno})
    ensures TasksKept(s, s') && SuperMade(s, s', b) && s'.holds == s.holds
  {
    NewEvolves(s, s', RootInode(b));
  }

  lemma NewEvolves(s: State, s': State, x: Inode)
    requires s'.inodes == s.inodes[s.nextIno := x] && s'.nextIno == s.nextIno + 1
    ensures Evolves(s, s')
  {
  }

  lemma StampRoot(from: State, s: State, s': State, i: nat, k: Key)
    requires Balanced(s) && Evolves(from, s) && i in s.inodes && from.nextIno <= i && NotCached(s, i)
    requires s' == s.(inodes := s.inodes[i := s.inodes[i].(key := k)])
    ensures Balanced(s') && Evolves(from, s')
  {
    hide Balanced;
    StampBalanced(s, s', i, s'.inodes[i]);
  }

  lemma ParentHeld(h: multiset<nat>, k: Key)
    ensures ParentHold(k) <= h + ParentHold(k) && h + ParentHold(k) - ParentHold(k) == h
    ensures k.parent.Special? ==> h + ParentHold(k) == h
    ensures k.parent.Dir? ==> h + ParentHold(k) == h + multiset{k.parent.i} && k.parent.i in h + ParentHold(k)
  {
  }

  lemma NotYetCached(s: State)
    requires Balanced(s)
    ensures NotCached(s, s.nextIno) && s.nextIno !in s.inodes
  {
    assert InodeOk(s, s.nextIno);
    forall k | k in s.cache ensures s.cache[k] != s.nextIno { EntryLive(s, k); }
  }

  /** Inodes, cache, super blocks and held inode references may change, files and tasks not. */
  ghost predicate TasksKept(s: State, s': State) {
    && Evolves(s, s')
    && s'.files == s.files && s'.fholds == s.fholds && s'.cwd == s.cwd && s'.ofile == s.ofile
  }

  ghost predicate SuperMade(s: State, s': State, b: nat) {
    && s'.roots == s.roots[b := s.nextIno] && s.nextIno in s'.inodes
    && s'.inodes[s.nextIno].sb == b && NotCached(s', s.nextIno)
  }

  lemma OnlyFrame(s: State, s': State)
    requires InodesOnly(s, s')
    ensures Evolves(s, s') && s'.roots == s.roots && s'.cwd == s.cwd && s'.ofile == s.ofile && s'.fholds == s.fholds
      && s'.files == s.files
  {
  }

  const RDONLY: nat := 0

  datatype Flags = Flags(creat: bool, excl: bool, directory: bool, trunc: bool, access: nat)

  /** The test that vfs_open makes for device paths: five characters. */
  predicate IsDevice(path: string) { |path| >= 5 && path[..5] == "/dev/" }

  /** The cache knows path, as task t means it, as inode i. */
  ghost predicate Named(s: State, mounts: map<nat, Mount>, cwdPath: map<TaskId, string>, t: TaskId, path: string,
      i: nat) {
    || Resolves(s, mounts, Text(cwdPath, t, path), i)
    || EntryAt(s, mounts, Text(cwdPath, t, DirName(Text(cwdPath, t, path))), BaseName(Text(cwdPath, t, path)), i)
  }

  ghost predicate OpenedPath(s: State, s': State, mounts: map<nat, Mount>, cwdPath: map<TaskId, string>, t: TaskId,
      path: string, d: Fd) {
    if IsDevice(path) then Opened(s, s', d, None)
    else exists i :: Opened(s, s', d, Some(i)) && Named(s', mounts, cwdPath, t, path, i)
  }

  lemma NamedStays(s: State, s': State, mounts: map<nat, Mount>, cwdPath: map<TaskId, string>, t: TaskId, path: string,
      i: nat)
    requires Named(s, mounts, cwdPath, t, path, i) && s'.cache == s.cache && s'.roots == s.roots
    ensures Named(s', mounts, cwdPath, t, path, i)
  {
    hide Resolves, Normalised;
    var dir := Text(cwdPath, t, DirName(Text(cwdPath, t, path)));
    if Resolves(s, mounts, Text(cwdPath, t, path), i) {
      ResolvesOn(s, s', mounts, Text(cwdPath, t, path), i);
    } else {
      var name := BaseName(Text(cwdPath, t, path));
      var p :| Resolves(s, mounts, dir, p) && EntryIs(s, p, name, i);
      ResolvesOn(s, s', mounts, dir, p);
      assert EntryIs(s', p, name, i);
    }
  }

  lemma NoHold(h: multiset<nat>)
    ensures InodeHold(None) <= h && h - InodeHold(None) == h
  {
  }

  /** d is a new descriptor of a new file over inode. */
  ghost predicate Opened(s: State, s': State, d: Fd, inode: Option<nat>) {
    && d !in s.ofile && d in s'.ofile && s'.ofile == s.ofile[d := s'.ofile[d]]
    && s'.ofile[d] !in s.files && s'.ofile[d] in s'.files && s'.files[s'.ofile[d]].inode == inode
  }

  lemma FdLive(s: State, d: Fd)
    requires Balanced(s) && d in s.ofile
    ensures s.ofile[d] in s.files
  {
    OwnedIsLive(s);
  }

  lemma SameEvolves(s: State, s': State)
    requires s'.inodes == s.inodes && s'.nextIno == s.nextIno
    ensures Evolves(s, s')
  {
  }

  /** Cache and super blocks stay, inodes only come and go. */
  ghost predicate CacheKept(s: State, s': State) { Evolves(s, s') && s'.cache == s.cache && s'.roots == s.roots }

  lemma SameCache(s: State, s': State, mounts: map<nat, Mount>, path: string, r: nat)
    requires Resolves(s, mounts, path, r) && s'.cache == s.cache && s'.roots == s.roots
    ensures Resolves(s', mounts, path, r)
  {
    hide Resolves;
    ResolvesOn(s, s', mounts, path, r);
  }

  lemma FileHeldIsLive(s: State, f: nat)
    requires Balanced(s) && f in s.fholds
    ensures f in s.files && s.files[f].refcount > 0
  {
    assert FileOk(s, f);
  }

  /** i is cached as dir's entry name. */
  predicate EntryIs(s: State, dir: nat, name: string, i: nat) {
    Key(Dir(dir), name) in s.cache && s.cache[Key(Dir(dir), name)] == i
  }

  /** i is cached as entry name of the directory that the cache resolves dir to. */
  ghost predicate EntryAt(s: State, mounts: map<nat, Mount>, dir: string, name: string, i: nat) {
    exists p :: Resolves(s, mounts, dir, p) && EntryIs(s, p, name, i)
  }

  lemma AddedExtends(cache: map<Key, nat>, k: Key, i: nat)
    requires k !in cache
    ensures Extends(cache, cache[k := i])
  {
  }

  lemma MakeHolds(h: multiset<nat>, parent: Option<nat>, r: Option<nat>)
    ensures var all := h + InodeHold(parent) + InodeHold(r);
            && (parent.Some? ==> parent.value in all && all - multiset{parent.value} == h + InodeHold(r))
            && (parent.None? ==> all == h + InodeHold(r))
            && (r.Some? ==> r.value in all && all - multiset{r.value} == h + InodeHold(parent))
            && (r.None? ==> all == h + InodeHold(parent))
    ensures parent.Some? ==>
      parent.value in h + InodeHold(parent) && h + InodeHold(parent) - multiset{parent.value} == h
    ensures parent.None? ==> h + InodeHold(parent) == h
    ensures r.None? ==> h + InodeHold(r) == h
  {
  }

  lemma ResolvesOn(s: State, s': State, mounts: map<nat, Mount>, path: string, r: nat)
    requires Resolves(s, mounts, path, r) && s'.roots == s.roots && Extends(s.cache, s'.cache)
    ensures Resolves(s', mounts, path, r)
  {
    hide Covers, Segments, Leads;
    var m :| m in mounts && Covers(mounts, path, m) && LeadsFrom(s, mounts[m], path, r);
    LeadsOn(s.cache, s'.cache, s.roots[mounts[m].sb], Segments(path[|mounts[m].path|..]), r);
    assert LeadsFrom(s', mounts[m], path, r);
  }

  lemma EntryThere(s: State, s': State, mounts: map<nat, Mount>, dir: string, p: nat, name: string, i: nat)
    requires Resolves(s, mounts, dir, p) && InodesOnly(s, s') && Extends(s.cache, s'.cache) && EntryIs(s', p, name, i)
    ensures EntryAt(s', mounts, dir, name, i)
  {
    hide Resolves;
    ResolvesOn(s, s', mounts, dir, p);
  }

  lemma EntryStays(s: State, s': State, mounts: map<nat, Mount>, dir: string, name: string, i: nat)
    requires EntryAt(s, mounts, dir, name, i) && InodesOnly(s, s') && s'.cache == s.cache
    ensures EntryAt(s', mounts, dir, name, i)
  {
    hide Resolves;
    var p :| Resolves(s, mounts, dir, p) && EntryIs(s, p, name, i);
    ResolvesOn(s, s', mounts, dir, p);
    assert EntryIs(s', p, name, i);
  }

  // ----- paths as tasks mean them -----

  function CwdText(cwdPath: map<TaskId, string>, t: TaskId): string {
    if t !in cwdPath || cwdPath[t] == "" then "/" else cwdPath[t]
  }

  /** The absolute path that task t means. */
  function Text(cwdPath: map<TaskId, string>, t: TaskId, path: string): string {
    Normalised(Some(path), Some(CwdText(cwdPath, t)))
  }

  // ----- splitting off the last component -----

  /** Position of the last '/', or -1. */
  function LastSlash(s: string): (k: int)
    ensures -1 <= k < |s| && (k >= 0 ==> s[k] == '/')
    ensures forall j :: k < j < |s| ==> s[j] != '/'
  {
    if s == "" then -1 else if s[|s| - 1] == '/' then |s| - 1 else LastSlash(s[..|s| - 1])
  }

  function BaseName(text: string): string {
    var trimmed := TrimSlashes(text);
    trimmed[LastSlash(trimmed) + 1..]
  }

  function DirName(text: string): string {
    var trimmed := TrimSlashes(text);
    if LastSlash(trimmed) <= 0 then "/" else trimmed[..LastSlash(trimmed)]
  }

  lemma DirNoNul(text: string)
    requires NoNul(text)
    ensures NoNul(DirName(text)) && '/' !in BaseName(text)
  {
    if text != "" { TrimPrefix(text); }
  }

  method SplitLast(path: string) returns (dir: string, name: string)
    requires path != "" && path[0] == '/'
    ensures name == BaseName(path) && dir == DirName(path) && '/' !in name
  {
    var len := |path|;
    assert path[..len] == path;
    while len > 1 && path[len - 1] == '/'
      invariant 0 < len <= |path| && TrimSlashes(path[..len]) == TrimSlashes(path)
    {
      assert path[..len][..len - 1] == path[..len - 1];
      len := len - 1;
    }
    ghost var trimmed := path[..len];
    assert TrimSlashes(path) == trimmed;
    var i := len - 1;
    while path[i] != '/'
      invariant 0 <= i < len && forall j :: i < j < len ==> path[j] != '/'
      decreases i
    {
      i := i - 1;
    }
    assert LastSlash(trimmed) == i by { LastSlashIs(trimmed, i); }
    name := path[i + 1..len];
    assert name == trimmed[i + 1..];
    dir := if i == 0 then "/" else path[..i];
    assert i > 0 ==> dir == trimmed[..i];
  }

  lemma LastSlashIs(s: string, k: nat)
    requires k < |s| && s[k] == '/' && forall j :: k < j < |s| ==> s[j] != '/'
    ensures LastSlash(s) == k
  {
    if LastSlash(s) < k { assert false; }
  }

  /** `mount_path_match`: mp is path, or a directory prefix of it. */
  predicate PathMatch(mp: string, path: string) {
    |mp| <= |path| && path[..|mp|] == mp && (|mp| == |path| || path[|mp|] == '/')
  }

  /** m covers path and no mount below m does. */
  ghost predicate Covers(mounts: map<nat, Mount>, path: string, m: nat)
    requires m in mounts
  {
    && |mounts[m].path| <= |path| && (mounts[m].parent.None? || PathMatch(mounts[m].path, path))
    && forall j :: 0 <= j < |mounts[m].child| && mounts[m].child[j] in mounts ==>
        !PathMatch(mounts[mounts[m].child[j]].path, path)
  }

  lemma CoversFits(mounts: map<nat, Mount>, path: string, m: nat)
    requires m in mounts && Covers(mounts, path, m)
    ensures |mounts[m].path| <= |path|
  {
  }

  /** The cache leads from the root of the mount that covers path to r. */
  ghost predicate Resolves(s: State, mounts: map<nat, Mount>, path: string, r: nat) {
    exists m :: m in mounts && Covers(mounts, path, m) && LeadsFrom(s, mounts[m], path, r)
  }

  predicate LeadsFrom(s: State, mnt: Mount, path: string, r: nat) {
    && mnt.sb in s.roots && |mnt.path| <= |path|
    && Leads(s.cache, s.roots[mnt.sb], Segments(path[|mnt.path|..]), r)
  }

  lemma ResolvesBy(s: State, mounts: map<nat, Mount>, path: string, m: nat, r: nat)
    requires m in mounts && Covers(mounts, path, m) && LeadsFrom(s, mounts[m], path, r)
    ensures Resolves(s, mounts, path, r)
  {
  }

  lemma CwdLive(s: State, t: TaskId)
    requires Balanced(s) && t in s.cwd
    ensures s.cwd[t] in s.inodes
  {
    OwnedIsLive(s);
  }

  /** The walk has come from start to current with the names rest still ahead. */
  ghost predicate Walked(cache: map<Key, nat>, start: nat, current: nat, rest: seq<string>, all: seq<string>) {
    |rest| <= |all| && all[|all| - |rest|..] == rest && Leads(cache, start, all[..|all| - |rest|], current)
  }

  lemma HandOver(rest: multiset<nat>, i: nat, r: Option<nat>)
    ensures rest + multiset{i} - multiset{i} + InodeHold(r) == rest + InodeHold(r)
    ensures r.Some? ==> rest + InodeHold(r) == rest + multiset{r.value}
    ensures r.None? ==> rest + InodeHold(r) == rest
  {
  }

  lemma OnlySame(s: State)
    ensures InodesOnly(s, s)
  {
  }

  lemma WalkStart(cache: map<Key, nat>, start: nat, all: seq<string>)
    ensures Walked(cache, start, start, all, all) && Extends(cache, cache)
  {
  }

  lemma OneSlash(path: string, p: nat)
    requires p < |path| && path[p] == '/'
    ensures Segments(path[p..]) == Segments(path[p + 1..])
  {
    hide Segments;
    SkipSlashes(path[p..], 1);
    assert path[p..][1..] == path[p + 1..];
  }

  lemma WalkEnd(cache: map<Key, nat>, start: nat, current: nat, rest: string, all: seq<string>)
    requires rest == "" && Walked(cache, start, current, Segments(rest), all)
    ensures Leads(cache, start, all, current)
  {
    NoSegment(rest);
    assert all[..|all|] == all;
  }

  lemma ExtendsTwice(a: map<Key, nat>, b: map<Key, nat>, c: map<Key, nat>)
    requires Extends(a, b) && Extends(b, c)
    ensures Extends(a, c)
  {
  }

  lemma WalkOn(b: map<Key, nat>, c: map<Key, nat>, start: nat, current: nat, name: string, next: nat, rest: seq<string>,
      all: seq<string>)
    requires Extends(b, c) && Walked(b, start, current, [name] + rest, all)
    requires Key(Dir(current), name) in c && c[Key(Dir(current), name)] == next
    ensures Walked(c, start, next, rest, all)
  {
    var done := all[..|all| - |rest| - 1];
    LeadsOn(b, c, start, done, current);
    LeadsSnoc(c, start, done, current, name, next);
    assert all[|all| - |rest| - 1] == name by { assert all[|all| - |rest| - 1..][0] == name; }
    assert done + [name] == all[..|all| - |rest|];
    assert all[|all| - |rest|..] == ([name] + rest)[1..];
  }

  ghost predicate NotCached(s: State, i: nat) { forall k :: k in s.cache ==> s.cache[k] != i }

  /** i is a new inode on dir's super block. */
  ghost predicate Fresh(s: State, s': State, dir: nat, i: nat) {
    && i !in s.inodes && i in s'.inodes && dir in s'.inodes && i != dir
    && s'.inodes[i].sb == s'.inodes[dir].sb && NotCached(s', i)
  }

  lemma DirLive(s: State, dir: nat)
    requires Balanced(s) && dir in s.inodes
    ensures dir < s.nextIno && NotCached(s, s.nextIno) && s.nextIno !in s.inodes && s.inodes[dir].sb < s.nextSb
  {
    assert InodeOk(s, dir) && InodeOk(s, s.nextIno);
    forall k | k in s.cache ensures s.cache[k] != s.nextIno { EntryLive(s, k); }
  }

  lemma Stamped(from: State, s: State, s': State, next: nat, k: Key, mounts: map<nat, Mount>)
    requires Balanced(s) && SbOk(s, mounts) && InodesOnly(from, s) && from.nextIno <= next && NotCached(s, next)
      && next in s.inodes
    requires s' == s.(inodes := s.inodes[next := s.inodes[next].(key := k)])
    ensures Balanced(s') && SbOk(s', mounts) && InodesOnly(from, s')
  {
    hide Balanced;
    StampBalanced(s, s', next, s'.inodes[next]);
    forall x ensures EntryOk(s', mounts, x) {
      assert EntryOk(s, mounts, x);
      if x in s.cache && x.parent.Dir? && x.name == "/" && s.inodes[s.cache[x]].sb in s.roots {
        var b := s.inodes[s.cache[x]].sb;
        var m :| m in mounts && mounts[m].sb == b && IsChildOf(s, mounts, mounts[m], x.parent.i);
        assert IsChildOf(s', mounts, mounts[m], x.parent.i);
      }
    }
    forall b ensures RootOk(s', b) { assert RootOk(s, b); }
  }

  lemma AdoptShape(s1: State, s2: State, s3: State, mounts: map<nat, Mount>, next: nat, dir: nat)
    requires Balanced(s1) && SbOk(s1, mounts) && Balanced(s3) && InodesOnly(s1, s2) && InodesOnly(s2, s3)
    requires s2.cache == s1.cache && next in s2.inodes && Inserted(s2, s3, next)
    requires s2.inodes[next].key.parent == Dir(dir) && s2.inodes[next].key.name != "/"
    requires dir in s3.inodes && s3.inodes[next].sb == s3.inodes[dir].sb
    ensures SbOk(s3, mounts)
  {
    hide Balanced, SbOk, InodesOnly;
    OnlyTwice(s1, s2, s3);
    OnlyEvolves(s1, s3);
    SbAdded(s1, s3, mounts, s2.inodes[next].key, next);
  }

  lemma OnlyEvolves(s: State, s': State)
    requires InodesOnly(s, s')
    ensures Evolves(s, s') && s'.roots == s.roots
  {
  }

  lemma GivenBack(holds: multiset<nat>, i: nat, k: Key)
    ensures var h := holds + multiset{i} + ParentHold(k) - multiset{i};
            if k.parent.Dir? then k.parent.i in h && h - multiset{k.parent.i} == holds else h == holds
  {
  }

  lemma TakenBack(holds: multiset<nat>, i: nat, more: multiset<nat>)
    requires more <= holds
    ensures multiset{i} + more <= holds + multiset{i}
    ensures holds + multiset{i} - multiset{i} - more == holds - more
  {
  }

  lemma GetPut(inodes: map<nat, Inode>, holds: multiset<nat>, i: nat)
    requires i in inodes
    ensures holds + multiset{i} - multiset{i} == holds
    ensures var up := inodes[i].(refcount := inodes[i].refcount + 1);
            inodes[i := up][i := up.(refcount := up.refcount - 1)] == inodes
  {
  }

  lemma LivePositive(s: State, i: nat)
    requires Balanced(s) && i in s.inodes
    ensures s.inodes[i].refcount > 0
  {
    assert InodeOk(s, i);
  }

  lemma EmptyBalanced(s: State)
    requires s.inodes == map[] && s.cache == map[] && s.files == map[] && s.cwd == map[] && s.ofile == map[]
      && s.roots == map[]
    requires s.freed == multiset{} && s.ffreed == multiset{} && s.holds == multiset{} && s.fholds == multiset{}
    requires s.nextIno == 0 && s.nextFile == 0
    ensures Balanced(s)
  {
    forall i ensures InodeOk(s, i) {
      HitsNone(s.cache, i);
      HitsNone(ParentsOf(s.cache), i);
      HitsNone(InodesOf(s.files), i);
      HitsNone(s.cwd, i);
      HitsNone(s.roots, i);
    }
    forall f ensures FileOk(s, f) { HitsNone(s.ofile, f); }
  }
}
