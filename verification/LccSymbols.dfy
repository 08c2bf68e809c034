/** The linker's table of global definitions: a strong definition replaces a weak one, the first
    weak one stands otherwise, and two strong ones are an error. */
module LccSymbols {
  import opened Prelude

  datatype Def = Def(name: string, addr: int, strong: bool)

  predicate Unique(v: seq<Def>) { forall i, j :: 0 <= i < j < |v| ==> v[i].name != v[j].name }

  /** Among the first k definitions, defs[i] is the one that counts for its name. */
  predicate Wins(defs: seq<Def>, k: nat, i: nat)
    requires k <= |defs|
  {
    i < k && (defs[i].strong || OnlyWeak(defs, k, i))
  }

  /** All of the first k definitions of that name are weak, and defs[i] is the first of them. */
  predicate OnlyWeak(defs: seq<Def>, k: nat, i: nat)
    requires i < k <= |defs|
  {
    forall j :: 0 <= j < k && defs[j].name == defs[i].name ==> !defs[j].strong && i <= j
  }

  predicate Clash(defs: seq<Def>, i: nat, j: nat)
    requires i < |defs| && j < |defs|
  {
    defs[i].name == defs[j].name && defs[i].strong && defs[j].strong
  }

  /** No name has two strong definitions among the first k. */
  predicate Consistent(defs: seq<Def>, k: nat)
    requires k <= |defs|
  {
    forall i, j :: 0 <= i < j < k ==> !Clash(defs, i, j)
  }

  predicate Named(v: seq<Def>, name: string) { exists e :: e in v && e.name == name }

  /** The table v holds exactly the definitions that count. */
  ghost predicate Table(v: seq<Def>, defs: seq<Def>, k: nat)
    requires k <= |defs|
  {
    && Unique(v)
    && (forall i: nat :: Wins(defs, k, i) ==> defs[i] in v)
    && (forall e :: e in v ==> exists i: nat :: Wins(defs, k, i) && e == defs[i])
    && (forall i :: 0 <= i < k ==> Named(v, defs[i].name))
  }

  /** gdef_find: the address of a name. */
  method Find(v: seq<Def>, name: string) returns (r: Option<int>)
    requires Unique(v)
    ensures forall e :: e in v && e.name == name ==> r == Some(e.addr)
    ensures r.None? <==> !Named(v, name)
  {
    var i := 0;
    while i < |v|
      invariant 0 <= i <= |v| && forall j :: 0 <= j < i ==> v[j].name != name
    {
      if v[i].name == name { return Some(v[i].addr); }
      i := i + 1;
    }
    r := None;
  }

  /** gdef_add: enters a definition, or finds a duplicate. */
  method Add(v: seq<Def>, d: Def) returns (v': seq<Def>, ok: bool)
    requires Unique(v)
    ensures ok <==> !exists e :: e in v && e.name == d.name && e.strong && d.strong
    ensures ok ==> Unique(v')
    ensures !ok ==> v' == v
    ensures ok && !Named(v, d.name) ==> v' == v + [d]
    ensures ok ==> forall i :: 0 <= i < |v| && v[i].name == d.name ==> v' == if d.strong then v[i := d] else v
  {
    var i := 0;
    while i < |v|
      invariant 0 <= i <= |v| && forall j :: 0 <= j < i ==> v[j].name != d.name
    {
      if v[i].name == d.name {
        if d.strong && v[i].strong { return v, false; }
        return if d.strong then v[i := d] else v, true;
      }
      i := i + 1;
    }
    return v + [d], true;
  }

  /** Enters all definitions in order. */
  method Collect(defs: seq<Def>) returns (v: seq<Def>, ok: bool)
    ensures ok <==> Consistent(defs, |defs|)
    ensures ok ==> Table(v, defs, |defs|)
  {
    v := [];
    var k := 0;
    while k < |defs|
      invariant 0 <= k <= |defs| && Table(v, defs, k) && Consistent(defs, k)
    {
      ghost var was := v;
      v, ok := Add(v, defs[k]);
      if !ok {
        StrongClash(was, defs, k);
        return;
      }
      NoClash(was, defs, k);
      Entered(was, v, defs, k);
      k := k + 1;
    }
    ok := true;
  }

  lemma StrongClash(v: seq<Def>, defs: seq<Def>, k: nat)
    requires k < |defs| && Table(v, defs, k)
      && exists e :: e in v && e.name == defs[k].name && e.strong && defs[k].strong
    ensures !Consistent(defs, |defs|)
  {
    var e :| e in v && e.name == defs[k].name && e.strong && defs[k].strong;
    var i: nat :| Wins(defs, k, i) && e == defs[i];
    assert Clash(defs, i, k);
  }

  lemma NoClash(v: seq<Def>, defs: seq<Def>, k: nat)
    requires k < |defs| && Table(v, defs, k) && Consistent(defs, k) && !exists e ::
      e in v && e.name == defs[k].name && e.strong && defs[k].strong
    ensures Consistent(defs, k + 1)
  {
    forall i, j | 0 <= i < j < k + 1 ensures !Clash(defs, i, j) {
      assert defs[i].strong && j == k ==> Wins(defs, k, i);
    }
  }

  lemma Entered(v: seq<Def>, v': seq<Def>, defs: seq<Def>, k: nat)
    requires k < |defs| && Table(v, defs, k) && Consistent(defs, k + 1) && Unique(v')
    requires !Named(v, defs[k].name) ==> v' == v + [defs[k]]
    requires forall i :: 0 <= i < |v| && v[i].name == defs[k].name ==>
      v' == if defs[k].strong then v[i := defs[k]] else v
    ensures Table(v', defs, k + 1)
  {
    var d := defs[k];
    if !Named(v, d.name) {
      EnteredNew(v, defs, k);
    } else {
      var e :| e in v && e.name == d.name;
      var at :| 0 <= at < |v| && v[at] == e;
      if d.strong { EnteredStrong(v, defs, k, at); } else { EnteredWeak(v, defs, k, at); }
    }
  }

  lemma EnteredNew(v: seq<Def>, defs: seq<Def>, k: nat)
    requires k < |defs| && Table(v, defs, k) && !Named(v, defs[k].name)
    ensures Table(v + [defs[k]], defs, k + 1)
  {
    var d, v', k' := defs[k], v + [defs[k]], k + 1;
    forall i | 0 <= i < k ensures defs[i].name != d.name { assert Named(v, defs[i].name); }
    forall i: nat | i < k ensures Wins(defs, k', i) <==> Wins(defs, k, i) {}
    assert Wins(defs, k', k);
    forall e | e in v' ensures exists i: nat :: Wins(defs, k', i) && e == defs[i] {
      if e in v {
        var i: nat :| Wins(defs, k, i) && e == defs[i];
        assert Wins(defs, k', i);
      } else {
        assert e == defs[k];
      }
    }
    forall i | 0 <= i < k' ensures Named(v', defs[i].name) { NamedAt(v, v', defs, k, i); }
    assert Unique(v') by { forall i | 0 <= i < |v| ensures v[i].name != d.name { assert v[i] in v; } }
  }

  lemma NamedAt(v: seq<Def>, v': seq<Def>, defs: seq<Def>, k: nat, i: nat)
    requires k < |defs| && Table(v, defs, k) && i <= k && v' == v + [defs[k]]
    ensures Named(v', defs[i].name)
  {
    if i == k { assert v'[|v|] in v'; } else {
      var e :| e in v && e.name == defs[i].name;
      assert e in v';
    }
  }

  /** A later definition of another name, or a weak one, takes nothing from defs[i]. */
  lemma WinsStill(defs: seq<Def>, k: nat, i: nat)
    requires i < k < |defs| && (!defs[k].strong || defs[i].name != defs[k].name)
    ensures Wins(defs, k + 1, i) <==> Wins(defs, k, i)
  {
  }

  /** A later strong definition takes the name. */
  lemma WinsNoMore(defs: seq<Def>, k: nat, i: nat)
    requires i < k < |defs| && defs[k].strong && defs[i].name == defs[k].name && !Clash(defs, i, k)
    ensures !Wins(defs, k + 1, i) && Wins(defs, k + 1, k)
  {
  }

  lemma LosesLate(defs: seq<Def>, k: nat, i: nat)
    requires i < k < |defs| && !defs[k].strong && defs[i].name == defs[k].name
    ensures !Wins(defs, k + 1, k)
  {
  }

  lemma EnteredWeak(v: seq<Def>, defs: seq<Def>, k: nat, at: nat)
    requires k < |defs| && Table(v, defs, k) && at < |v| && v[at].name == defs[k].name && !defs[k].strong
    ensures Table(v, defs, k + 1)
  {
    hide OnlyWeak, Named;
    var k' := k + 1;
    assert v[at] in v;
    var w: nat :| Wins(defs, k, w) && v[at] == defs[w];
    LosesLate(defs, k, w);
    forall i: nat | i < k ensures Wins(defs, k', i) <==> Wins(defs, k, i) { WinsStill(defs, k, i); }
    forall i: nat | Wins(defs, k', i) ensures defs[i] in v {}
    forall e | e in v ensures exists i: nat :: Wins(defs, k', i) && e == defs[i] {
      var i: nat :| Wins(defs, k, i) && e == defs[i];
    }
    assert Named(v, defs[w].name);
  }

  lemma EnteredStrong(v: seq<Def>, defs: seq<Def>, k: nat, at: nat)
    requires k < |defs| && Table(v, defs, k) && Consistent(defs, k + 1) && at < |v| && v[at].name == defs[k].name
      && defs[k].strong
    ensures Table(v[at := defs[k]], defs, k + 1)
  {
    var d, v', k' := defs[k], v[at := defs[k]], k + 1;
    assert v'[at] == d && Wins(defs, k', k);
    forall i: nat | i < k ensures Wins(defs, k', i) <==> Wins(defs, k, i) && defs[i].name != d.name {
      if defs[i].name == d.name {
        assert !Clash(defs, i, k);
        WinsNoMore(defs, k, i);
      } else {
        WinsStill(defs, k, i);
      }
    }
    forall i: nat | Wins(defs, k', i) ensures i <= k {}
    hide OnlyWeak;
    forall i: nat | Wins(defs, k', i) ensures defs[i] in v' {
      if i < k { InAfter(v, at, d, defs[i]); }
    }
    forall e | e in v' ensures exists i: nat :: Wins(defs, k', i) && e == defs[i] {
      if e != d {
        InBefore(v, at, d, e);
        var i: nat :| Wins(defs, k, i) && e == defs[i];
      }
    }
    forall i | 0 <= i < k' ensures Named(v', defs[i].name) { NamedAfter(v, defs, k, at, i); }
  }

  lemma NamedAfter(v: seq<Def>, defs: seq<Def>, k: nat, at: nat, i: nat)
    requires k < |defs| && Table(v, defs, k) && at < |v| && v[at].name == defs[k].name && i <= k
    ensures Named(v[at := defs[k]], defs[i].name)
  {
    var d, v' := defs[k], v[at := defs[k]];
    assert v'[at] == d && d in v';
    if defs[i].name != d.name {
      var e :| e in v && e.name == defs[i].name;
      InAfter(v, at, d, e);
    }
  }

  lemma InAfter(v: seq<Def>, at: nat, d: Def, e: Def)
    requires at < |v| && e in v && e.name != v[at].name
    ensures e in v[at := d]
  {
    var j :| 0 <= j < |v| && v[j] == e;
    assert v[at := d][j] == e;
  }

  lemma InBefore(v: seq<Def>, at: nat, d: Def, e: Def)
    requires at < |v| && Unique(v) && e in v[at := d] && e != d && v[at].name == d.name
    ensures e in v && e.name != d.name
  {
    var j :| 0 <= j < |v| && v[at := d][j] == e;
    assert j != at && v[j] == e;
  }

  /** What a lookup in a collected table means: the strong definition of the name, or else the first
      weak one, or nothing when there is none. */
  lemma LookupMeans(v: seq<Def>, defs: seq<Def>, name: string, r: Option<int>, i: nat)
    requires Table(v, defs, |defs|) && i < |defs| && defs[i].name == name
    requires (forall e :: e in v && e.name == name ==> r == Some(e.addr)) && (r.None? <==> !Named(v, name))
    ensures r.Some?
    ensures defs[i].strong ==> r.value == defs[i].addr
    ensures OnlyWeak(defs, |defs|, i) ==> r.value == defs[i].addr
  {
    assert Named(v, defs[i].name);
    if Wins(defs, |defs|, i) { assert defs[i] in v; }
  }
}
