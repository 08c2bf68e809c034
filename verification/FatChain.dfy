/** Cluster chains of a FAT32 volume: allocation, the guarded walks, appending, and cutting or
    growing a file to a size. Reads and writes of the table may fail at any point; a failed write
    leaves the entry as it was. */
module FatChain {
  import opened Prelude

  const EOF_MARK: nat := 0x0FFF_FFF8
  const BAD_MARK: nat := 0x0FFF_FFF7

  predicate IsEnd(v: nat) { v >= EOF_MARK || v == BAD_MARK || v == 0 }

  predicate IsCluster(fat: seq<nat>, c: nat) { 2 <= c < |fat| && c < EOF_MARK }

  // ----- chains -----

  predicate InRange(fat: seq<nat>, cs: seq<nat>) { forall i :: 0 <= i < |cs| ==> 2 <= cs[i] < |fat| }

  predicate Distinct(cs: seq<nat>) { forall i, j :: 0 <= i < j < |cs| ==> cs[i] != cs[j] }

  /** The entry of cluster cs[i] names cluster cs[i + 1]. */
  predicate Next(fat: seq<nat>, cs: seq<nat>, i: nat)
    requires InRange(fat, cs) && i + 1 < |cs|
  {
    fat[cs[i]] == cs[i + 1]
  }

  /** The clusters cs are linked in order; the last one is marked as the end. */
  predicate Linked(fat: seq<nat>, cs: seq<nat>)
    requires InRange(fat, cs)
  {
    && (forall i :: 0 <= i < |cs| - 1 ==> Next(fat, cs, i))
    && (cs != [] ==> fat[cs[|cs| - 1]] >= EOF_MARK)
  }

  /** cs is the chain that starts at cluster first; 0 starts the empty chain. */
  predicate Chain(fat: seq<nat>, first: nat, cs: seq<nat>) {
    && InRange(fat, cs) && Distinct(cs) && Linked(fat, cs)
    && first == if cs == [] then 0 else cs[0]
  }

  /** Cluster numbers are below the special marks, as in every FAT32 volume. */
  predicate Geometry(fat: seq<nat>) { 2 < |fat| <= BAD_MARK }

  lemma ChainFits(fat: seq<nat>, first: nat, cs: seq<nat>)
    requires Chain(fat, first, cs) && 2 <= |fat|
    ensures |cs| <= |fat| - 2
  {
    Pigeonhole(cs, |fat|);
  }

  lemma {:induction false} Pigeonhole(cs: seq<nat>, n: nat)
    requires Distinct(cs) && 2 <= n && forall i :: 0 <= i < |cs| ==> 2 <= cs[i] < n
    ensures |cs| <= n - 2
  {
    var used := set i | 0 <= i < |cs| :: cs[i];
    assert used <= Numbers(n);
    SeqCard(cs);
    Subset(used, Numbers(n));
  }

  lemma Subset(a: set<nat>, b: set<nat>)
    requires a <= b
    ensures |a| <= |b|
  {
    assert a + (b - a) == b;
  }

  /** The cluster numbers below n. */
  ghost function Numbers(n: nat): (r: set<nat>)
    requires 2 <= n
    ensures |r| == n - 2 && forall c :: c in r <==> 2 <= c < n
  {
    if n == 2 then {} else Numbers(n - 1) + {n - 1}
  }

  lemma {:induction false} SeqCard(cs: seq<nat>)
    requires Distinct(cs)
    ensures |set i | 0 <= i < |cs| :: cs[i]| == |cs|
  {
    if cs != [] {
      var k := |cs| - 1;
      var rest := cs[..k];
      SeqCard(rest);
      var a, b := set i | 0 <= i < |rest| :: rest[i], set i | 0 <= i < |cs| :: cs[i];
      forall x | x in b ensures x in a + {cs[k]} {
        var i :| 0 <= i < |cs| && cs[i] == x;
        if i < k { assert rest[i] == x; }
      }
      forall x | x in a ensures x in b && x != cs[k] {
        var i :| 0 <= i < |rest| && rest[i] == x;
        assert cs[i] == x;
      }
      assert b == a + {cs[k]};
    }
  }

  /** Table entries used by the chain are not free. */
  lemma ChainUsed(fat: seq<nat>, first: nat, cs: seq<nat>, i: nat)
    requires Geometry(fat) && Chain(fat, first, cs) && i < |cs|
    ensures fat[cs[i]] == if i == |cs| - 1 then fat[cs[|cs| - 1]] else cs[i + 1]
    ensures fat[cs[i]] != 0 && IsCluster(fat, cs[i]) && (IsEnd(fat[cs[i]]) <==> i == |cs| - 1)
  {
    if i < |cs| - 1 { assert Next(fat, cs, i); }
  }

  /** A chain only depends on the entries of its own clusters. */
  lemma ChainKept(fat: seq<nat>, fat': seq<nat>, first: nat, cs: seq<nat>)
    requires Chain(fat, first, cs) && |fat'| == |fat|
    requires forall i :: 0 <= i < |cs| ==> fat'[cs[i]] == fat[cs[i]]
    ensures Chain(fat', first, cs)
  {
    forall i | 0 <= i < |cs| - 1 ensures Next(fat', cs, i) { assert Next(fat, cs, i); }
  }

  // ----- cutting -----

  /** The table with the clusters of cs free. */
  function Freed(fat: seq<nat>, cs: seq<nat>): (r: seq<nat>)
    ensures |r| == |fat| && forall c :: 0 <= c < |fat| ==> r[c] == if c in cs then 0 else fat[c]
  {
    seq(|fat|, c requires 0 <= c < |fat| => if c in cs then 0 else fat[c])
  }

  lemma FreedOne(fat: seq<nat>, cs: seq<nat>, k: nat)
    requires k < |cs| && InRange(fat, cs)
    ensures Freed(fat, cs[..k])[cs[k] := 0] == Freed(fat, cs[..k + 1])
  {
    assert cs[..k + 1] == cs[..k] + [cs[k]];
  }

  /** Cutting a chain to its first n clusters: the last of them is marked, the rest is free. */
  function Cut(fat: seq<nat>, cs: seq<nat>, n: nat): (r: seq<nat>)
    requires 0 < n < |cs| && InRange(fat, cs)
  {
    Freed(fat[cs[n - 1] := EOF_MARK], cs[n..])
  }

  lemma CutChain(fat: seq<nat>, first: nat, cs: seq<nat>, n: nat)
    requires Chain(fat, first, cs) && 0 < n < |cs|
    ensures Chain(Cut(fat, cs, n), first, cs[..n])
    ensures Chain(fat[cs[n - 1] := EOF_MARK], first, cs[..n]) && Chain(fat[cs[n - 1] := EOF_MARK], cs[n], cs[n..])
  {
    var mid := fat[cs[n - 1] := EOF_MARK];
    var a, b := cs[..n], cs[n..];
    forall i | 0 <= i < |b| - 1 ensures Next(mid, b, i) { assert Next(fat, cs, n + i); }
    forall i | 0 <= i < n - 1 ensures Next(mid, a, i) { assert Next(fat, cs, i); }
    forall i | 0 <= i < n ensures a[i] !in b {}
    ChainKept(mid, Cut(fat, cs, n), first, cs[..n]);
  }

  // ----- growing -----

  /** The clusters added were free and are used now; the first good of them hang after tail in
      order. Nothing that was in use has changed but the entry of tail. */
  predicate Grown(fat: seq<nat>, fat': seq<nat>, tail: nat, added: seq<nat>, good: nat) {
    && |fat'| == |fat| && InRange(fat, added) && Distinct(added) && good <= |added| && (tail == 0 || 2 <= tail < |fat|)
    && (forall i :: 0 <= i < |added| ==> fat[added[i]] == 0 && fat'[added[i]] != 0)
    && (forall c :: 0 <= c < |fat| && fat[c] != 0 && (c != tail || c == 0) ==> fat'[c] == fat[c])
    && (tail != 0 ==> fat'[tail] == if good > 0 then added[0] else fat[tail])
    && (forall i :: 0 <= i < good - 1 ==> Next(fat', added, i))
    && (good > 0 ==> fat'[added[good - 1]] == EOF_MARK)
    && (tail == 0 && added != [] ==> good > 0)
  }

  /** No other entry has changed. */
  predicate OnlyThese(fat: seq<nat>, fat': seq<nat>, tail: nat, added: seq<nat>) {
    |fat'| == |fat| && forall c :: 0 <= c < |fat| && (c != tail || c == 0) && c !in added ==> fat'[c] == fat[c]
  }

  lemma GrownChain(fat: seq<nat>, fat': seq<nat>, first: nat, cs: seq<nat>, tail: nat, added: seq<nat>, good: nat)
    requires Geometry(fat) && Chain(fat, first, cs) && tail == (if cs == [] then 0 else cs[|cs| - 1])
    requires Grown(fat, fat', tail, added, good)
    ensures Chain(fat', if cs == [] && added != [] then added[0] else first, cs + added[..good])
  {
    forall i | 0 <= i < |cs| ensures fat[cs[i]] != 0 { ChainUsed(fat, first, cs, i); }
    forall i | 0 <= i < |cs| - 1 ensures Next(fat', cs, i) { assert Next(fat, cs, i) && cs[i] != tail; }
    var more := added[..good];
    forall i | 0 <= i < good - 1 ensures Next(fat', more, i) { assert Next(fat', added, i); }
    Join(fat', cs, more);
  }

  lemma Join(fat: seq<nat>, a: seq<nat>, b: seq<nat>)
    requires InRange(fat, a) && InRange(fat, b) && Distinct(a) && Distinct(b)
      && forall i, j :: 0 <= i < |a| && 0 <= j < |b| ==> a[i] != b[j]
    requires forall i :: 0 <= i < |a| - 1 ==> Next(fat, a, i)
    requires a != [] ==> if b == [] then fat[a[|a| - 1]] >= EOF_MARK else fat[a[|a| - 1]] == b[0]
    requires Linked(fat, b)
    ensures InRange(fat, a + b) && Distinct(a + b) && Linked(fat, a + b)
  {
    var all, k := a + b, |a|;
    forall i | 0 <= i < |all| - 1 ensures Next(fat, all, i) {
      if i >= k { assert Next(fat, b, i - k); } else if i < k - 1 { assert Next(fat, a, i); }
    }
  }

  // ----- the volume -----

  datatype AllocResult = Got(c: nat) | Full | IoError

  function Zeros(n: nat): seq<nat> { seq(n, _ => 0) }

  /** Entries and contents of clusters in use are as before. */
  predicate UsedKept(fat: seq<nat>, fat': seq<nat>, data: seq<seq<seq<nat>>>, data': seq<seq<seq<nat>>>) {
    |fat| == |fat'| == |data| == |data'|
        && forall c :: 0 <= c < |fat| && fat[c] != 0 ==> fat'[c] == fat[c] && data'[c] == data[c]
  }

  class Volume {
    const sectorBytes: nat
    const perCluster: nat
    var fat: seq<nat>
    var data: seq<seq<seq<nat>>>
    var first: map<nat, nat>
    var size: map<nat, nat>
    ghost var chains: map<nat, seq<nat>>

    predicate Sized()
      reads this
    {
      2 < |fat| == |data| && forall c :: 0 <= c < |data| ==> |data[c]| == perCluster
    }

    /** A cluster of zeros. */
    function Blank(): seq<seq<nat>> { seq(perCluster, _ => Zeros(sectorBytes)) }

    method Get(c: nat) returns (r: Option<nat>)
      ensures r.Some? ==> 2 <= c < |fat| && r.value == fat[c]
    {
      if c < 2 || c >= |fat| { return None; }
      var fail := Chance();
      r := if fail then None else Some(fat[c]);
    }

    method Set(c: nat, v: nat) returns (ok: bool)
      modifies `fat
      ensures ok ==> 2 <= c < |fat| && |fat| == |old(fat)| && fat == old(fat)[c := v]
      ensures !ok ==> fat == old(fat)
    {
      if c < 2 || c >= |fat| { return false; }
      var fail := Chance();
      if fail { return false; }
      fat := fat[c := v];
      ok := true;
    }

    /** Writes zeros to every sector of cluster c. */
    method Clear(c: nat) returns (ok: bool)
      requires Sized() && c < |fat|
      modifies `data
      ensures Sized() && |data| == |old(data)| && forall d :: 0 <= d < |data| && d != c ==> data[d] == old(data)[d]
      ensures ok ==> data[c] == Blank()
    {
      var i := 0;
      while i < perCluster
        invariant 0 <= i <= perCluster && Sized() && |data| == |old(data)|
        invariant forall d :: 0 <= d < |data| && d != c ==> data[d] == old(data)[d]
        invariant forall j :: 0 <= j < i ==> data[c][j] == Zeros(sectorBytes)
      {
        var fail := Chance();
        if fail { return false; }
        data := data[c := data[c][i := Zeros(sectorBytes)]];
        i := i + 1;
      }
      ok := true;
    }

    /** The first free cluster, marked as the end of a chain and cleared. */
    method Alloc() returns (r: AllocResult)
      requires Sized()
      modifies `fat, `data
      ensures Sized() && UsedKept(old(fat), fat, old(data), data)
      ensures r.Got? ==>
        2 <= r.c < |old(fat)| && old(fat)[r.c] == 0 && fat == old(fat)[r.c := EOF_MARK] && data[r.c] == Blank()
      ensures r.Got? ==> forall d :: 2 <= d < r.c ==> old(fat)[d] != 0
      ensures r.Got? ==> forall d :: 0 <= d < |data| && d != r.c ==> data[d] == old(data)[d]
      ensures r.Full? ==> fat == old(fat) && data == old(data) && forall d :: 2 <= d < |fat| ==> fat[d] != 0
    {
      var noMemory := Chance();
      if noMemory { return IoError; }
      var c := 2;
      while c < |fat|
        invariant 2 <= c <= |fat| && fat == old(fat) && data == old(data)
        invariant forall d :: 2 <= d < c ==> fat[d] != 0
      {
        var v := Get(c);
        if v.None? { return IoError; }
        if v.value == 0 {
          var ok := Set(c, EOF_MARK);
          if !ok { return IoError; }
          ok := Clear(c);
          if !ok {
            ok := Set(c, 0);
            return IoError;
          }
          return Got(c);
        }
        c := c + 1;
      }
      r := Full;
    }

    /** The number of clusters from start on, when the reads with numbers in bad fail. It stops on
        every table; on a chain it counts the clusters before the first failing read. */
    method ChainLen(start: nat, bad: set<nat>, ghost cs: seq<nat>) returns (n: nat)
      requires 2 < |fat|
      ensures n <= |fat| - 2
      ensures Geometry(fat) && Chain(fat, start, cs) ==> n == FirstIn(bad, 0, |cs|)
    {
      hide Chain;
      ghost var chained := Geometry(fat) && Chain(fat, start, cs);
      if chained { ChainFits(fat, start, cs); ChainStart(fat, start, cs); }
      var c := start;
      n := 0;
      while IsCluster(fat, c) && n < |fat| - 2
        invariant 0 <= n <= |fat| - 2 && (forall i :: 0 <= i < n ==> i !in bad)
        invariant chained ==> n <= |cs| && (if n < |cs| then c == cs[n] else !IsCluster(fat, c))
        decreases |fat| - n
      {
        if chained { ChainUsed(fat, start, cs, n); }
        if n in bad { break; }
        var next := fat[c];
        n := n + 1;
        if IsEnd(next) { break; }
        c := next;
      }
      if chained {
        if n < |cs| { ChainUsed(fat, start, cs, n); }
        FirstIs(bad, 0, |cs|, n);
      }
    }

    /** Frees the clusters from start on. It stops on every table and only frees; on a chain it
        frees the clusters in order, all of them unless a read or write fails. */
    method FreeChain(start: nat, ghost cs: seq<nat>) returns (ok: bool, ghost k: nat)
      requires 2 < |fat|
      modifies `fat
      ensures |fat| == |old(fat)| && forall c :: 0 <= c < |fat| ==> fat[c] == old(fat)[c] || fat[c] == 0
      ensures Geometry(old(fat)) && Chain(old(fat), start, cs) ==>
        k <= |cs| && fat == Freed(old(fat), cs[..k]) && (ok ==> k == |cs|)
    {
      hide Chain, Freed;
      ghost var chained := Geometry(fat) && Chain(fat, start, cs);
      if chained { ChainFits(fat, start, cs); ChainStart(fat, start, cs); FreedNone(fat, cs); }
      var c, guard := start, 0;
      k := 0;
      while IsCluster(fat, c) && guard < |fat| - 2
        invariant |fat| == |old(fat)| && forall d :: 0 <= d < |fat| ==> fat[d] == old(fat)[d] || fat[d] == 0
        invariant 0 <= guard <= |fat| - 2
        invariant chained ==>
          k == guard <= |cs| && fat == Freed(old(fat), cs[..k]) && (if k < |cs| then c == cs[k] else !IsCluster(fat, c))
        decreases |fat| - guard
      {
        guard := guard + 1;
        if chained { ChainUsed(old(fat), start, cs, k); NotYetFreed(old(fat), start, cs, k); }
        var next := Get(c);
        if next.None? { return false, k; }
        var done := Set(c, 0);
        if !done { return false, k; }
        if chained { FreedOne(old(fat), cs, k); }
        k := k + 1;
        if IsEnd(next.value) { break; }
        c := next.value;
      }
      ok := true;
      if chained && k < |cs| { ChainUsed(old(fat), start, cs, k); }
    }

    /** Allocates n clusters and hangs them after tail one by one. The link writes with numbers in
        lost fail unnoticed: the clusters after the first of them are in use but not in the chain. */
    method Append(head: nat, tail: nat, n: nat, lost: set<nat>)
        returns (ok: bool, head': nat, ghost added: seq<nat>, ghost good: nat)
      requires Sized() && Geometry(fat) && (tail != 0 ==> 2 <= tail < |fat| && fat[tail] >= EOF_MARK)
      modifies `fat, `data
      ensures Sized() && Grown(old(fat), fat, tail, added, good)
        && good == FirstIn(lost, if tail == 0 then 1 else 0, |added|)
      ensures ok ==>
        && |added| == n && OnlyThese(old(fat), fat, tail, added)
        && forall c :: c in added ==> c < |data| && data[c] == Blank()
      ensures forall c :: 0 <= c < |fat| && old(fat)[c] != 0 ==> data[c] == old(data)[c]
      ensures head' == if tail == 0 && added != [] then added[0] else head
    {
      hide Grown, OnlyThese, Blank;
      var i, last := 0, tail;
      head', added, good := head, [], 0;
      GrownNone(fat, tail);
      while i < n
        invariant 0 <= i <= n && i == |added| && Sized() && |fat| == |old(fat)|
          && Grown(old(fat), fat, tail, added, good)
        invariant OnlyThese(old(fat), fat, tail, added) && forall c :: c in added ==> c < |data| && data[c] == Blank()
        invariant forall c :: 0 <= c < |fat| && old(fat)[c] != 0 ==> data[c] == old(data)[c]
        invariant last == (if added == [] then tail else added[|added| - 1])
          && (last != 0 ==> 2 <= last < |fat| && fat[last] >= EOF_MARK)
        invariant head' == if tail == 0 && added != [] then added[0] else head
        invariant good == FirstIn(lost, if tail == 0 then 1 else 0, i)
      {
        ghost var was := fat;
        UsedStays(old(fat), was, tail, added, good);
        var a := Alloc();
        if !a.Got? {
          GrownKept(old(fat), was, fat, tail, added, good);
          return false, head', added, good;
        }
        ghost var linked := last == 0 || i !in lost;
        if last == 0 { head' := a.c; } else if i !in lost { fat := fat[last := a.c]; }
        LastLinked(old(fat), was, tail, added, good);
        FirstMore(lost, if tail == 0 then 1 else 0, i);
        GrownMore(old(fat), was, fat, tail, added, good, a.c, linked);
        good := if linked && good == i then good + 1 else good;
        added := added + [a.c];
        last := a.c;
        i := i + 1;
      }
      ok := true;
    }

    ghost predicate Valid()
      reads this
    {
      perCluster * sectorBytes > 0 && Sized() && Geometry(fat) && Owned(fat, first, chains) && Apart(chains)
    }

    /** Files other than f keep their chains, and clusters in use keep their contents. */
    twostate predicate Bystanders(f: nat)
      reads this
    {
      && Sized() && f in old(chains) && f in chains && f in first && |fat| == |old(fat)| == |old(data)|
      && chains == old(chains)[f := chains[f]] && first == old(first)[f := first[f]]
      && (forall g :: g in chains && g != f ==> g in first && Chain(fat, first[g], chains[g]))
      && (forall c :: 0 <= c < |fat| && old(fat)[c] != 0 ==> data[c] == old(data)[c])
    }

    /** Frees the whole chain of f. A failure after the first freed cluster leaves f naming a free
        cluster. */
    method Release(f: nat) returns (ok: bool, ghost broken: bool)
      requires Valid() && f in first
      modifies `fat, `first, `chains
      ensures Bystanders(f) && (broken || Valid())
      ensures ok ==> !broken && chains[f] == [] && fat == Freed(old(fat), old(chains)[f])
      ensures broken ==> first[f] == old(first)[f] < |fat| && fat[first[f]] == 0
    {
      hide Owned, Apart, Freed, Chain;
      OwnedChain(fat, first, chains, f);
      ghost var cs, k := chains[f], 0;
      FreedNone(fat, cs);
      ok, broken := true, false;
      if first[f] != 0 { ok, k := FreeChain(first[f], cs); }
      FreedLocal(old(fat), cs, k);
      OthersOwned(old(fat), fat, first, chains, f);
      FreedFirst(old(fat), first[f], cs, k);
      if !ok { return false, k > 0; }
      assert cs[..k] == cs;
      first, chains := first[f := 0], chains[f := []];
      EmptyChain(fat);
      OwnerChanged(old(fat), fat, old(first), old(chains), f, 0, []);
    }

    /** Keeps the first n clusters of f and frees the others. */
    method Shorten(f: nat, n: nat) returns (ok: bool)
      requires Valid() && f in first && 0 < n < |chains[f]|
      modifies `fat, `chains
      ensures Bystanders(f) && Valid()
      ensures ok ==> chains[f] == old(chains)[f][..n] && fat == Cut(old(fat), old(chains)[f], n)
    {
      hide Owned, Apart, Freed, Chain, Local, FromFree;
      OwnedChain(fat, first, chains, f);
      ghost var cs := chains[f];
      LocalSame(fat, cs);
      OthersOwned(fat, fat, first, chains, f);
      var c, i := first[f], 0;
      while i < n - 1
        modifies {}
        invariant 0 <= i <= n - 1 && c == cs[i]
      {
        ChainUsed(fat, first[f], cs, i);
        var next := Get(c);
        if next.None? { return false; }
        c := next.value;
        i := i + 1;
      }
      ChainUsed(fat, first[f], cs, n - 1);
      CutChain(fat, first[f], cs, n);
      var next := Get(c);
      if next.None? { return false; }
      ok := Set(c, EOF_MARK);
      if !ok { return; }
      ghost var mid, k := fat, 0;
      ok, k := FreeChain(next.value, cs[n..]);
      CutPart(old(fat), mid, first[f], cs, n, k);
      chains := chains[f := cs[..n]];
      OwnerChanged(old(fat), fat, old(first), old(chains), f, first[f], cs[..n]);
      OthersOwned(old(fat), fat, old(first), old(chains), f);
      if ok { assert cs[n..][..k] == cs[n..]; }
    }

    /** The last cluster of the chain cs that starts at head. */
    method FindTail(head: nat, ghost cs: seq<nat>) returns (r: Option<nat>)
      requires Geometry(fat) && Chain(fat, head, cs)
      ensures r.Some? ==> r.value == (if cs == [] then 0 else cs[|cs| - 1])
      ensures r.Some? && r.value != 0 ==> 2 <= r.value < |fat| && fat[r.value] >= EOF_MARK
    {
      hide Chain;
      ChainStart(fat, head, cs);
      var tail := head;
      ghost var i := 0;
      while IsCluster(fat, tail)
        invariant 0 <= i <= |cs| && (if cs == [] then tail == 0 else i < |cs| && tail == cs[i])
        decreases |cs| - i
      {
        ChainUsed(fat, head, cs, i);
        var next := Get(tail);
        if next.None? { return None; }
        if IsEnd(next.value) { ChainEnd(fat, head, cs); return Some(tail); }
        tail, i := next.value, i + 1;
      }
      if cs != [] { ChainUsed(fat, head, cs, i); }
      r := if head != 0 then None else Some(tail);
    }

    /** Appends n clusters to the chain of f. */
    method Extend(f: nat, n: nat, lost: set<nat>) returns (ok: bool, ghost added: seq<nat>, ghost good: nat)
      requires Valid() && f in first
      modifies `fat, `data, `first, `chains
      ensures Bystanders(f) && Valid()
      ensures ok ==> |added| == n && ExtendedBy(old(fat), fat, old(chains)[f], chains[f], added, good)
      ensures ok ==> good == FirstIn(lost, if old(chains)[f] == [] then 1 else 0, n)
      ensures ok ==> forall c :: c in added ==> c < |data| && data[c] == Blank()
    {
      hide Owned, Apart, Chain, Grown, OnlyThese, Blank, FromFree, Local;
      OwnedChain(fat, first, chains, f);
      ghost var cs := chains[f];
      LocalSame(fat, cs);
      OthersOwned(fat, fat, first, chains, f);
      var tail := FindTail(first[f], cs);
      if tail.None? { return false, [], 0; }
      var head;
      ok, head, added, good := Append(first[f], tail.value, n, lost);
      GrownChain(old(fat), fat, first[f], cs, tail.value, added, good);
      GrownLocal(old(fat), fat, cs, tail.value, added, good);
      if ok { first := first[f := head]; }
      if ok || cs != [] {
        chains := chains[f := cs + added[..good]];
      } else {
        EmptyChain(fat);
      }
      OwnerChanged(old(fat), fat, old(first), old(chains), f, first[f], chains[f]);
      OthersOwned(old(fat), fat, old(first), old(chains), f);
      assert chains == old(chains)[f := chains[f]] && first == old(first)[f := first[f]];
    }

    /** Sets the size of file f and with it the number of its clusters. The counting reads in
        io.badReads and the link writes in io.badLinks fail, and neither is reported. */
    method Truncate(f: nat, regular: bool, newSize: nat, io: Io) returns (ok: bool, ghost x: Outcome)
      requires Valid() && f in first
      modifies this
      ensures Bystanders(f) && (x.broken || Valid())
      ensures ok ==> regular && newSize <= 0xFFFF_FFFF && size == old(size)[f := newSize] && !x.broken
      ensures ok ==>
        Resized(old(fat), fat, old(chains)[f], chains[f], Clusters(newSize, perCluster * sectorBytes), io, x.added)
      ensures ok ==> (|chains[f]| == Clusters(newSize, perCluster * sectorBytes)
                      <==> Exact(|old(chains)[f]|, Clusters(newSize, perCluster * sectorBytes), io))
      ensures ok ==> forall c :: c in x.added ==> c < |data| && data[c] == Blank()
      ensures x.broken ==>
        !ok && Clusters(newSize, perCluster * sectorBytes) == 0 && first[f] == old(first)[f] < |fat|
        && fat[first[f]] == 0
    {
      hide Owned, Apart, Chain, Freed, Cut, ExtendedBy, Blank, Local, Clusters, Exact, FirstIn;
      x := Outcome([], false);
      OwnedChain(fat, first, chains, f);
      LocalSame(fat, chains[f]);
      OthersOwned(fat, fat, first, chains, f);
      if !regular || newSize > 0xFFFF_FFFF { return false, x; }
      var newN, oldN := Clusters(newSize, perCluster * sectorBytes), 0;
      FirstBound(io.badReads, 0, |chains[f]|);
      if first[f] != 0 { oldN := ChainLen(first[f], io.badReads, chains[f]); }
      ok := true;
      if newN == 0 {
        ghost var broken;
        ok, broken := Release(f);
        x := x.(broken := broken);
      } else if newN > oldN {
        ghost var added, good;
        ok, added, good := Extend(f, newN - oldN, io.badLinks);
        x := x.(added := added);
      } else if newN < oldN {
        ok := Shorten(f, newN);
      }
      if !ok { return; }
      ExactIff(old(fat), fat, old(chains)[f], chains[f], newN, io, x.added);
      size := size[f := newSize];
      var failed := Chance();
      ok := !failed;
    }
  }

  /** Which counting reads and which link writes fail, by number. */
  datatype Io = Io(badReads: set<nat>, badLinks: set<nat>)

  /** What a call leaves: the clusters it added; broken says that the file still names a cluster
      that is free. */
  datatype Outcome = Outcome(added: seq<nat>, broken: bool)

  /** The least number of lo..hi in s, or hi. */
  function FirstIn(s: set<nat>, lo: nat, hi: nat): nat
    decreases hi - lo
  {
    if lo >= hi || lo in s then if lo >= hi then hi else lo else FirstIn(s, lo + 1, hi)
  }

  lemma {:induction false} FirstIs(s: set<nat>, lo: nat, hi: nat, n: nat)
    requires lo <= n <= hi && (forall i :: lo <= i < n ==> i !in s) && (n == hi || n in s)
    ensures FirstIn(s, lo, hi) == n
    decreases hi - lo
  {
    if lo < n { FirstIs(s, lo + 1, hi, n); }
  }

  lemma {:induction false} FirstBound(s: set<nat>, lo: nat, hi: nat)
    ensures FirstIn(s, lo, hi) <= hi && (FirstIn(s, lo, hi) < hi ==>
      FirstIn(s, lo, hi) in s && lo <= FirstIn(s, lo, hi))
    ensures FirstIn(s, lo, hi) == hi <==> forall i :: lo <= i < hi ==> i !in s
    decreases hi - lo
  {
    if lo < hi && lo !in s { FirstBound(s, lo + 1, hi); }
  }

  lemma {:induction false} FirstMore(s: set<nat>, lo: nat, hi: nat)
    ensures FirstIn(s, lo, hi + 1) == if FirstIn(s, lo, hi) == hi && (hi < lo || hi !in s) then hi + 1
      else FirstIn(s, lo, hi)
    decreases hi - lo
  {
    if lo < hi && lo !in s { FirstMore(s, lo + 1, hi); }
  }

  lemma LastLinked(fat: seq<nat>, was: seq<nat>, tail: nat, added: seq<nat>, good: nat)
    requires Grown(fat, was, tail, added, good)
    ensures good <= |added| && ((if added == [] then tail else added[|added| - 1]) == 0 <==> tail == 0 && added == [])
  {
  }

  /** The clusters that a file of the given size needs. */
  function Clusters(size: nat, bytes: nat): nat
    requires bytes > 0
  {
    (size + bytes - 1) / bytes
  }

  /** How a successful call changes the table and the chain cs of the file. */
  ghost predicate Resized(fat: seq<nat>, fat': seq<nat>, cs: seq<nat>, cs': seq<nat>, n: nat, io: Io, added: seq<nat>) {
    InRange(fat, cs) &&
    var counted := FirstIn(io.badReads, 0, |cs|);
    if n == 0 then cs' == [] && fat' == Freed(fat, cs)
    else if n > counted then |added| == n - counted
        && ExtendedBy(fat, fat', cs, cs', added, Links(|cs|, n - counted, io))
    else if n == counted then cs' == cs && fat' == fat
    else counted <= |cs| && cs' == cs[..n] && fat' == Cut(fat, cs, n)
  }

  /** How many of m clusters appended to a chain of len clusters come to hang in it; the first
      cluster of an empty chain needs no link. */
  function Links(len: nat, m: nat, io: Io): nat { FirstIn(io.badLinks, if len == 0 then 1 else 0, m) }

  /** When a success gives a chain of len clusters exactly n: nothing is left, the chain is cut, all
      of it was counted and is enough, or as many clusters were not counted as were not linked. */
  predicate Exact(len: nat, n: nat, io: Io) {
    var counted := FirstIn(io.badReads, 0, len);
    n == 0 || n < counted || n == counted == len || (n > counted
        && len - counted == (n - counted) - Links(len, n - counted, io))
  }

  /** A successful call gives the file exactly n clusters if and only if Exact says so; in every case
      the old clusters come first and in order. */
  lemma ExactIff(fat: seq<nat>, fat': seq<nat>, cs: seq<nat>, cs': seq<nat>, n: nat, io: Io, added: seq<nat>)
    requires Resized(fat, fat', cs, cs', n, io, added)
    ensures |cs'| == n <==> Exact(|cs|, n, io)
    ensures cs' <= cs || cs <= cs'
  {
    hide Grown, OnlyThese, Freed, InRange;
    FirstBound(io.badReads, 0, |cs|);
    var m := n - FirstIn(io.badReads, 0, |cs|);
    if m > 0 { GrownGood(fat, fat', cs, added, Links(|cs|, m, io)); }
  }

  lemma GrownGood(fat: seq<nat>, fat': seq<nat>, cs: seq<nat>, added: seq<nat>, good: nat)
    ensures Grown(fat, fat', if cs == [] then 0 else cs[|cs| - 1], added, good) ==> good <= |added|
  {
  }

  /** When every counting read works, a success is exact if and only if nothing is appended or no
      link write fails; when no link write fails either, it always is. */
  lemma ExactWhenCounted(len: nat, n: nat, io: Io)
    requires forall i :: 0 <= i < len ==> i !in io.badReads
    ensures Exact(len, n, io) <==>
      n <= len || forall i :: (if len == 0 then 1 else 0) <= i < n - len ==> i !in io.badLinks
  {
    FirstBound(io.badReads, 0, len);
    if n > len { FirstBound(io.badLinks, if len == 0 then 1 else 0, n - len); }
  }

  /** One unlinked cluster: the call succeeds and the file keeps one cluster instead of two. */
  lemma LostLinkExample()
    ensures var fat, fat' := [0, 0, EOF_MARK, 0], [0, 0, EOF_MARK, EOF_MARK];
            && Resized(fat, fat', [2], [2], 2, Io({}, {0}), [3]) && Chain(fat', 2, [2]) && Chain(fat', 3, [3])
            && !Exact(1, 2, Io({}, {0}))
  {
    var fat: seq<nat>, fat': seq<nat> := [0, 0, EOF_MARK, 0], [0, 0, EOF_MARK, EOF_MARK];
    FirstIs({}, 0, 1, 1);
    FirstIs({0}, 0, 1, 0);
    var none: seq<nat> := [3][..0];
    assert [2] + none == [2];
    assert Grown(fat, fat', 2, [3], 0);
  }

  /** A count cut short after one cluster of two: growing to two clusters gives three, and a call
      for one cluster succeeds and leaves two. */
  lemma ShortCountExample()
    ensures var fat, fat' := [0, 0, 3, EOF_MARK, 0], [0, 0, 3, 4, EOF_MARK];
            && Resized(fat, fat', [2, 3], [2, 3, 4], 2, Io({1}, {}), [4]) && Chain(fat', 2, [2, 3, 4])
            && !Exact(2, 2, Io({1}, {}))
            && Resized(fat, fat, [2, 3], [2, 3], 1, Io({1}, {}), []) && !Exact(2, 1, Io({1}, {}))
  {
    var fat: seq<nat>, fat': seq<nat> := [0, 0, 3, EOF_MARK, 0], [0, 0, 3, 4, EOF_MARK];
    FirstIs({1}, 0, 2, 1);
    FirstIs({}, 0, 1, 1);
    var cs: seq<nat>, more: seq<nat> := [2, 3], [4];
    assert cs + more[..1] == [2, 3, 4];
    assert Grown(fat, fat', 3, more, 1);
    assert Next(fat', [2, 3, 4], 0) && Next(fat', [2, 3, 4], 1);
  }

  /** The free clusters. */
  ghost function Free(fat: seq<nat>): set<nat>
    requires 2 <= |fat|
  {
    set c | c in Numbers(|fat|) && fat[c] == 0
  }

  ghost function Elements(cs: seq<nat>): set<nat> { set i | 0 <= i < |cs| :: cs[i] }

  /** Clusters are conserved: what the file loses becomes free, and what it gains was free. */
  lemma Conserved(fat: seq<nat>, fat': seq<nat>, first: nat, cs: seq<nat>, cs': seq<nat>, n: nat, io: Io,
      added: seq<nat>)
    requires Geometry(fat) && Chain(fat, first, cs) && Resized(fat, fat', cs, cs', n, io, added)
    requires var m := n - FirstIn(io.badReads, 0, |cs|); m > 0 ==> Links(|cs|, m, io) == m
    ensures |fat'| == |fat| && |Free(fat')| + |cs'| == |Free(fat)| + |cs|
  {
    forall i | 0 <= i < |cs| ensures fat[cs[i]] != 0 { ChainUsed(fat, first, cs, i); }
    hide Chain, Next, FirstIn;
    var counted := FirstIn(io.badReads, 0, |cs|);
    if n == 0 {
      FreedSet(fat, fat', cs);
    } else if n > counted {
      GrownSet(fat, fat', cs, if cs == [] then 0 else cs[|cs| - 1], added, Links(|cs|, n - counted, io));
    } else if n < counted {
      var mid := fat[cs[n - 1] := EOF_MARK];
      assert Free(mid) == Free(fat);
      ChainDistinct(fat, first, cs);
      forall i | 0 <= i < |cs| - n ensures mid[cs[n..][i]] != 0 {}
      FreedSet(mid, fat', cs[n..]);
    }
  }

  lemma ChainDistinct(fat: seq<nat>, first: nat, cs: seq<nat>)
    requires Chain(fat, first, cs)
    ensures Distinct(cs)
  {
  }

  lemma FreedSet(fat: seq<nat>, fat': seq<nat>, cs: seq<nat>)
    requires 2 <= |fat| && InRange(fat, cs) && Distinct(cs) && (forall i :: 0 <= i < |cs| ==> fat[cs[i]] != 0)
      && fat' == Freed(fat, cs)
    ensures |Free(fat')| == |Free(fat)| + |cs|
  {
    SeqCard(cs);
    assert Free(fat') == Free(fat) + Elements(cs);
    assert Free(fat) !! Elements(cs);
  }

  lemma GrownSet(fat: seq<nat>, fat': seq<nat>, cs: seq<nat>, tail: nat, added: seq<nat>, good: nat)
    requires 2 <= |fat| && Grown(fat, fat', tail, added, good) && OnlyThese(fat, fat', tail, added)
      && (tail != 0 ==> fat[tail] != 0)
    ensures |fat'| == |fat| && |Free(fat')| + |added| == |Free(fat)|
  {
    SeqCard(added);
    UsedStays(fat, fat', tail, added, good);
    assert Free(fat) == Free(fat') + Elements(added);
    assert Free(fat') !! Elements(added);
  }

  lemma ChainEnd(fat: seq<nat>, first: nat, cs: seq<nat>)
    requires Chain(fat, first, cs) && cs != []
    ensures fat[cs[|cs| - 1]] >= EOF_MARK
  {
  }

  lemma LocalSame(fat: seq<nat>, cs: seq<nat>)
    ensures Local(fat, fat, cs)
  {
  }

  /** Every file's chain starts at its first cluster. */
  ghost predicate Owned(fat: seq<nat>, first: map<nat, nat>, chains: map<nat, seq<nat>>) {
    first.Keys == chains.Keys && forall f :: f in chains ==> Chain(fat, first[f], chains[f])
  }

  /** No cluster is in two chains. */
  ghost predicate Apart(chains: map<nat, seq<nat>>) {
    forall f, g, i, j :: f in chains && g in chains && f != g && 0 <= i < |chains[f]| && 0 <= j < |chains[g]| ==>
        chains[f][i] != chains[g][j]
  }

  /** Only entries of cs and of free clusters have changed. */
  ghost predicate Local(fat: seq<nat>, fat': seq<nat>, cs: seq<nat>) {
    |fat'| == |fat| && forall c :: 0 <= c < |fat| && fat'[c] != fat[c] ==> c in cs || fat[c] == 0
  }

  /** The clusters of cs' are clusters of cs or were free. */
  ghost predicate FromFree(fat: seq<nat>, cs: seq<nat>, cs': seq<nat>) {
    forall i :: 0 <= i < |cs'| ==> cs'[i] in cs || (cs'[i] < |fat| && fat[cs'[i]] == 0)
  }

  lemma OwnedChain(fat: seq<nat>, first: map<nat, nat>, chains: map<nat, seq<nat>>, f: nat)
    requires Owned(fat, first, chains) && f in first && 2 <= |fat|
    ensures f in chains && Chain(fat, first[f], chains[f]) && (first[f] == 0 <==> chains[f] == [])
      && InRange(fat, chains[f])
    ensures chains[f] != [] ==> first[f] == chains[f][0]
  {
  }

  lemma EmptyChain(fat: seq<nat>)
    ensures Chain(fat, 0, [])
  {
  }

  lemma OthersOwned(fat: seq<nat>, fat': seq<nat>, first: map<nat, nat>, chains: map<nat, seq<nat>>, f: nat)
    requires Geometry(fat) && Owned(fat, first, chains) && Apart(chains) && f in chains && Local(fat, fat', chains[f])
    ensures forall g :: g in chains && g != f ==> g in first && Chain(fat', first[g], chains[g])
  {
    hide Chain;
    forall g | g in chains && g != f ensures Chain(fat', first[g], chains[g]) {
      var cs := chains[g];
      OwnedChain(fat, first, chains, g);
      forall i | 0 <= i < |cs| ensures fat'[cs[i]] == fat[cs[i]] { ChainUsed(fat, first[g], cs, i); }
      ChainKept(fat, fat', first[g], cs);
    }
  }

  lemma OwnerChanged(fat: seq<nat>, fat': seq<nat>, first: map<nat, nat>, chains: map<nat, seq<nat>>, f: nat, head: nat,
      cs: seq<nat>)
    requires Geometry(fat) && Owned(fat, first, chains) && Apart(chains) && f in chains && Local(fat, fat', chains[f])
    requires Chain(fat', head, cs) && FromFree(fat, chains[f], cs)
    ensures Owned(fat', first[f := head], chains[f := cs]) && Apart(chains[f := cs]) && Geometry(fat')
  {
    OthersOwned(fat, fat', first, chains, f);
    hide Chain;
    forall g, i, j | g in chains && g != f && 0 <= i < |cs| && 0 <= j < |chains[g]| ensures cs[i] != chains[g][j] {
      OwnedChain(fat, first, chains, g);
      ChainUsed(fat, first[g], chains[g], j);
    }
  }

  lemma FreedLocal(fat: seq<nat>, cs: seq<nat>, k: nat)
    requires k <= |cs|
    ensures Local(fat, Freed(fat, cs[..k]), cs)
  {
  }

  lemma FreedFirst(fat: seq<nat>, first: nat, cs: seq<nat>, k: nat)
    requires Chain(fat, first, cs) && k <= |cs|
    ensures k > 0 ==> first < |fat| && Freed(fat, cs[..k])[first] == 0
    ensures k == 0 ==> Freed(fat, cs[..k]) == fat
  {
    if k > 0 { assert cs[..k][0] == first; }
  }

  /** Freeing the first k clusters behind a cut. */
  lemma CutPart(fat: seq<nat>, mid: seq<nat>, first: nat, cs: seq<nat>, n: nat, k: nat)
    requires Chain(fat, first, cs) && 0 < n < |cs| && mid == fat[cs[n - 1] := EOF_MARK] && k <= |cs| - n
    ensures var fat' := Freed(mid, cs[n..][..k]);
      Local(fat, fat', cs) && Chain(fat', first, cs[..n]) && FromFree(fat, cs, cs[..n])
  {
    var a, b := cs[..n], cs[n..][..k];
    CutChain(fat, first, cs, n);
    forall i | 0 <= i < n ensures a[i] !in b {}
    ChainKept(mid, Freed(mid, b), first, a);
    assert cs[n - 1] in cs;
    forall c | c in b ensures c in cs {}
  }

  /** The chain cs has become cs': the first good of the added clusters follow it. */
  ghost predicate ExtendedBy(fat: seq<nat>, fat': seq<nat>, cs: seq<nat>, cs': seq<nat>, added: seq<nat>, good: nat) {
    var tail := if cs == [] then 0 else cs[|cs| - 1];
    Grown(fat, fat', tail, added, good) && OnlyThese(fat, fat', tail, added) && cs' == cs + added[..good]
  }

  lemma GrownLocal(fat: seq<nat>, fat': seq<nat>, cs: seq<nat>, tail: nat, added: seq<nat>, good: nat)
    requires Grown(fat, fat', tail, added, good) && tail == if cs == [] then 0 else cs[|cs| - 1]
    ensures Local(fat, fat', cs) && good <= |added| && FromFree(fat, cs, cs + added[..good]) && FromFree(fat, cs, [])
  {
    forall i | |cs| <= i < |cs| + good ensures (cs + added[..good])[i] == added[i - |cs|] {}
  }

  lemma ChainStart(fat: seq<nat>, first: nat, cs: seq<nat>)
    requires Chain(fat, first, cs)
    ensures cs != [] ==> first == cs[0]
    ensures cs == [] ==> first == 0
  {
  }

  lemma FreedNone(fat: seq<nat>, cs: seq<nat>)
    ensures Freed(fat, cs[..0]) == fat
  {
  }

  lemma NotYetFreed(fat: seq<nat>, first: nat, cs: seq<nat>, k: nat)
    requires Chain(fat, first, cs) && k < |cs|
    ensures InRange(fat, cs) && 2 <= cs[k] < |fat| && Freed(fat, cs[..k])[cs[k]] == fat[cs[k]]
  {
  }

  lemma GrownKept(fat: seq<nat>, was: seq<nat>, fat': seq<nat>, tail: nat, added: seq<nat>, good: nat)
    requires Grown(fat, was, tail, added, good) && |fat'| == |was| && (tail != 0 ==> fat[tail] >= EOF_MARK)
    requires forall c :: 0 <= c < |was| && was[c] != 0 ==> fat'[c] == was[c]
    ensures Grown(fat, fat', tail, added, good)
  {
    forall i | 0 <= i < good - 1 ensures Next(fat', added, i) { assert Next(was, added, i); }
  }

  lemma GrownNone(fat: seq<nat>, tail: nat)
    requires tail == 0 || 2 <= tail < |fat|
    ensures Grown(fat, fat, tail, [], 0) && OnlyThese(fat, fat, tail, [])
  {
  }

  lemma UsedStays(fat: seq<nat>, was: seq<nat>, tail: nat, added: seq<nat>, good: nat)
    requires Grown(fat, was, tail, added, good)
    ensures |was| == |fat| && forall c :: 0 <= c < |fat| && fat[c] != 0 ==> was[c] != 0
    ensures forall c :: c in added ==> 2 <= c < |was| && was[c] != 0
  {
    if good > 0 { assert added[0] >= 2; }
  }

  lemma GrownMore(fat: seq<nat>, was: seq<nat>, fat': seq<nat>, tail: nat, added: seq<nat>, good: nat, c: nat,
      linked: bool)
    requires Grown(fat, was, tail, added, good) && OnlyThese(fat, was, tail, added) && 2 <= c < |fat| == |was|
      && was[c] == 0
    requires tail != 0 ==> fat[tail] >= EOF_MARK
    requires var last := if added == [] then tail else added[|added| - 1];
             (last == 0 ==> linked) && (last != 0 ==> last < |was| && was[last] >= EOF_MARK) &&
             fat' == if last != 0 && linked then was[c := EOF_MARK][last := c] else was[c := EOF_MARK]
    ensures var good' := if linked && good == |added| then good + 1 else good;
            Grown(fat, fat', tail, added + [c], good') && OnlyThese(fat, fat', tail, added + [c])
    ensures |fat'| == |fat| && fat'[c] == EOF_MARK
  {
    hide Grown;
    GrownAlloc(fat, was, tail, added, good, c);
    UsedStays(fat, was, tail, added, good);
    var mid, last := was[c := EOF_MARK], if added == [] then tail else added[|added| - 1];
    if added != [] { assert last in added; }
    if last != 0 && linked {
      if good == |added| { GrownLink(fat, mid, tail, added, c); } else { GrownLoose(fat, mid, tail, added, good, c); }
    }
  }

  lemma GrownAlloc(fat: seq<nat>, was: seq<nat>, tail: nat, added: seq<nat>, good: nat, c: nat)
    requires Grown(fat, was, tail, added, good) && OnlyThese(fat, was, tail, added) && 2 <= c < |fat| && was[c] == 0
    requires tail != 0 ==> fat[tail] >= EOF_MARK
    ensures Grown(fat, was[c := EOF_MARK], tail, added + [c], if tail == 0 && added == [] then 1 else good)
    ensures good <= |added| && (tail == 0 && added != [] ==> good > 0)
  {
    var fat', added' := was[c := EOF_MARK], added + [c];
    assert fat[c] == 0 && c !in added;
    forall i | 0 <= i < good - 1 ensures Next(fat', added', i) { assert Next(was, added, i); }
  }

  lemma GrownLink(fat: seq<nat>, mid: seq<nat>, tail: nat, added: seq<nat>, c: nat)
    requires Grown(fat, mid, tail, added + [c], |added|) && (added != [] || tail != 0)
      && (tail != 0 ==> fat[tail] >= EOF_MARK)
    requires c < |mid| && mid[c] == EOF_MARK
    ensures var last := if added == [] then tail else added[|added| - 1];
            Grown(fat, mid[last := c], tail, added + [c], |added| + 1)
  {
    var n := |added|;
    var last, added' := if added == [] then tail else added[n - 1], added + [c];
    var fat' := mid[last := c];
    if n > 0 { assert added'[n - 1] == last; }
    assert added'[n] == c;
    forall i | 0 <= i < n ensures Next(fat', added', i) {
      if i < n - 1 { assert Next(mid, added', i); }
    }
  }

  lemma GrownLoose(fat: seq<nat>, mid: seq<nat>, tail: nat, added: seq<nat>, good: nat, c: nat)
    requires Grown(fat, mid, tail, added + [c], good) && good < |added| && added[|added| - 1] < |mid|
      && (tail != 0 ==> fat[tail] >= EOF_MARK)
    ensures Grown(fat, mid[added[|added| - 1] := c], tail, added + [c], good)
  {
    var n := |added|;
    var added' := added + [c];
    var last := added'[n - 1];
    assert added'[n] == c && last == added[n - 1];
    var fat' := mid[last := c];
    forall i | 0 <= i < good - 1 ensures Next(fat', added', i) { assert Next(mid, added', i); }
  }
}
