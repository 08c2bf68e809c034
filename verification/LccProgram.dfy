/** The linker as a whole: layout, the symbol table and the relocations together. The sections,
    relocations and symbols of all objects are taken in the order in which the linker visits them. */
module LccProgram {
  import opened Prelude
  import opened LeBytes
  import opened RvMachine
  import opened LccReloc
  import opened LccLink
  import opened LccLayout
  import S = LccSymbols

  /** Where a symbol is defined. */
  datatype Place = Undefined | Absolute(v: nat) | InSection(sec: nat, v: nat)

  datatype Bind = Local | Global | Weak

  datatype Symbol = Symbol(name: string, place: Place, bind: Bind)

  /** A relocation as it stands in an object. */
  datatype Rela = Rela(kind: Kind, at: nat, sym: Symbol, A: int)

  datatype Program = Program(secs: seq<Section>, relas: seq<seq<Rela>>, syms: seq<Symbol>)

  // ----- symbols -----

  /** symbol_address. */
  function AddressOf(addr: seq<nat>, p: Place): nat {
    match p
    case Undefined => 0
    case Absolute(v) => v
    case InSection(i, v) => if i < |addr| then addr[i] + v else 0
  }

  predicate Defines(s: Symbol) { s.bind != Local && s.place != Undefined }

  /** The definitions that the linker collects. */
  function Defs(syms: seq<Symbol>, addr: seq<nat>): seq<S.Def> {
    if syms == [] then []
    else
      var s := syms[|syms| - 1];
      Defs(syms[..|syms| - 1], addr)
      + if Defines(s) then [S.Def(s.name, AddressOf(addr, s.place), s.bind == Global)] else []
  }

  method Definitions(syms: seq<Symbol>, addr: seq<nat>) returns (defs: seq<S.Def>)
    ensures defs == Defs(syms, addr)
  {
    defs := [];
    var k := 0;
    while k < |syms|
      invariant 0 <= k <= |syms| && defs == Defs(syms[..k], addr)
    {
      assert syms[..k + 1][..k] == syms[..k];
      if Defines(syms[k]) {
        defs := defs + [S.Def(syms[k].name, AddressOf(addr, syms[k].place), syms[k].bind == Global)];
      }
      k := k + 1;
    }
    assert syms[..k] == syms;
  }

  /** The address of the last definition of _start, or 0. */
  function StartOf(defs: seq<S.Def>): int {
    if defs == [] then 0
    else if defs[|defs| - 1].name == "_start" then defs[|defs| - 1].addr
    else StartOf(defs[..|defs| - 1])
  }

  method FindStart(defs: seq<S.Def>) returns (a: int)
    ensures a == StartOf(defs)
  {
    a := 0;
    var k := 0;
    while k < |defs|
      invariant 0 <= k <= |defs| && a == StartOf(defs[..k])
    {
      assert defs[..k + 1][..k] == defs[..k];
      if defs[k].name == "_start" { a := defs[k].addr; }
      k := k + 1;
    }
    assert defs[..k] == defs;
  }

  /** Symbol s stands for address a: its own, or that of the definition that counts for its name. */
  ghost predicate Resolves(defs: seq<S.Def>, addr: seq<nat>, s: Symbol, a: int) {
    if s.place != Undefined then a == AddressOf(addr, s.place)
    else exists w: nat :: S.Wins(defs, |defs|, w) && defs[w].name == s.name && a == defs[w].addr
  }

  predicate Known(defs: seq<S.Def>, s: Symbol) { s.place != Undefined || S.Named(defs, s.name) }

  /** In a consistent table one definition counts for a name. */
  lemma WinsOnce(defs: seq<S.Def>, i: nat, j: nat)
    requires S.Consistent(defs, |defs|) && S.Wins(defs, |defs|, i) && S.Wins(defs, |defs|, j)
      && defs[i].name == defs[j].name
    ensures i == j
  {
    assert S.Clash(defs, i, j) <==> S.Clash(defs, j, i);
  }

  /** resolve_symbol, against the collected table v. */
  method Resolve(v: seq<S.Def>, ghost defs: seq<S.Def>, addr: seq<nat>, s: Symbol) returns (a: Option<int>)
    requires S.Table(v, defs, |defs|)
    ensures a.Some? <==> Known(defs, s)
    ensures a.Some? ==> Resolves(defs, addr, s, a.value)
  {
    if s.place != Undefined { return Some(AddressOf(addr, s.place)); }
    a := S.Find(v, s.name);
    TableKnows(v, defs, s.name);
    if a.Some? {
      var e :| e in v && e.name == s.name;
      ghost var w: nat :| S.Wins(defs, |defs|, w) && e == defs[w];
    }
  }

  lemma TableKnows(v: seq<S.Def>, defs: seq<S.Def>, name: string)
    requires S.Table(v, defs, |defs|)
    ensures S.Named(v, name) <==> S.Named(defs, name)
  {
    if S.Named(defs, name) {
      var e :| e in defs && e.name == name;
      var i :| 0 <= i < |defs| && defs[i] == e;
      assert S.Named(v, defs[i].name);
    }
    if S.Named(v, name) {
      var e :| e in v && e.name == name;
      var i: nat :| S.Wins(defs, |defs|, i) && e == defs[i];
      assert defs[i] in defs;
    }
  }

  // ----- relocations -----

  /** Relocations without a symbol to look up. */
  predicate Needs(r: Rela) { r.kind != NONE }

  /** rs are the relocations with the addresses of their symbols. */
  ghost predicate ResolvedAs(defs: seq<S.Def>, addr: seq<nat>, relas: seq<Rela>, rs: seq<Reloc>) {
    |rs| == |relas| && forall k :: 0 <= k < |rs| ==> ResolvedOne(defs, addr, relas[k], rs[k])
  }

  ghost predicate ResolvedOne(defs: seq<S.Def>, addr: seq<nat>, rela: Rela, r: Reloc) {
    && r == Reloc(rela.kind, rela.at, r.S, rela.A)
    && (Needs(rela) ==> Resolves(defs, addr, rela.sym, r.S))
  }

  method ResolveAll(v: seq<S.Def>, ghost defs: seq<S.Def>, addr: seq<nat>, relas: seq<Rela>)
      returns (rs: seq<Reloc>, ok: bool)
    requires S.Table(v, defs, |defs|)
    ensures ok <==> forall k :: 0 <= k < |relas| && Needs(relas[k]) ==> Known(defs, relas[k].sym)
    ensures ok ==> ResolvedAs(defs, addr, relas, rs)
  {
    hide S.Table, Resolves;
    rs := [];
    var k := 0;
    while k < |relas|
      invariant 0 <= k <= |relas| && |rs| == k
      invariant forall j :: 0 <= j < k ==> ResolvedOne(defs, addr, relas[j], rs[j])
      invariant forall j :: 0 <= j < k && Needs(relas[j]) ==> Known(defs, relas[j].sym)
    {
      var a: Option<int> := Some(0);
      if Needs(relas[k]) {
        a := Resolve(v, defs, addr, relas[k].sym);
        if a.None? { return rs, false; }
      }
      rs := rs + [Reloc(relas[k].kind, relas[k].at, a.value, relas[k].A)];
      k := k + 1;
    }
    ok := true;
  }

  /** A relocation without its symbol's address. */
  function Bare(r: Rela): Reloc { Reloc(r.kind, r.at, 0, r.A) }

  /** What the linker takes for granted: sections hold their bytes, and relocations patch disjoint
      places inside loaded sections that have bytes. */
  ghost predicate Sane(p: Program) {
    && |p.relas| == |p.secs|
    && (forall i :: 0 <= i < |p.secs| ==> WellFormed(p.secs[i]))
    && (forall i, k :: 0 <= i < |p.secs| && HasBytes(p.secs[i]) && 0 <= k < |p.relas[i]| ==>
          p.relas[i][k].at + Width(p.relas[i][k].kind) <= p.secs[i].size)
    && (forall i, j, k :: 0 <= i < |p.secs| && HasBytes(p.secs[i]) && 0 <= j < k < |p.relas[i]| ==>
          Clear(Bare(p.relas[i][j]), Bare(p.relas[i][k])))
    && (forall i :: 0 <= i < |p.secs| && p.secs[i].role == Bss ==> p.relas[i] == [])
  }

  predicate HasBytes(s: Section) { s.role == Text || s.role == Data }

  // ----- one section -----

  /** now are the bytes of section i with the relocations rs applied. */
  ghost predicate SectionLinked(p: Program, addr: seq<nat>, i: nat, rs: seq<Reloc>, now: Block)
    requires i < |p.secs| == |p.relas| == |addr|
  {
    && |now| == |p.secs[i].bytes| && ResolvedAs(Defs(p.syms, addr), addr, p.relas[i], rs)
    && (forall k :: 0 <= k < |rs| ==> Applied(rs, addr[i], 0, p.secs[i].bytes, now, rs[k]))
    && (forall q :: 0 <= q < |now| && !Covered(rs, 0, q) ==> now[q] == p.secs[i].bytes[q])
  }

  /** The part of an image that starts at base where section i lies. */
  function Part(p: Program, addr: seq<nat>, base: nat, b: Block, i: nat): Block
    requires i < |p.secs| == |addr| && base <= addr[i] && addr[i] + p.secs[i].size <= base + |b|
  {
    b[addr[i] - base..addr[i] - base + p.secs[i].size]
  }

  /** The sections of a role lie inside the image. */
  ghost predicate Holds(p: Program, addr: seq<nat>, role: Role, base: nat, n: nat) {
    && |p.secs| == |p.relas| == |addr|
    && (forall i :: 0 <= i < |p.secs| && p.secs[i].role == role ==>
          base <= addr[i] && addr[i] + p.secs[i].size <= base + n && |p.secs[i].bytes| == p.secs[i].size)
    && (forall i, j ::
          0 <= i < |p.secs| && 0 <= j < |p.secs| && i != j && p.secs[i].role == role == p.secs[j].role ==>
          Disjoint(p.secs, addr, i, j))
  }

  /** The first m sections of a role are linked in the image b, the others are still as they were. */
  ghost predicate Progress(p: Program, addr: seq<nat>, role: Role, base: nat, b: Block, rss: seq<seq<Reloc>>)
    requires Holds(p, addr, role, base, |b|) && |rss| <= |p.secs|
  {
    && (forall i :: 0 <= i < |rss| && p.secs[i].role == role ==>
          SectionLinked(p, addr, i, rss[i], Part(p, addr, base, b, i)))
    && (forall i :: |rss| <= i < |p.secs| && p.secs[i].role == role ==>
          Part(p, addr, base, b, i) == p.secs[i].bytes)
  }

  lemma SliceOf(b: Block, off: nat, n: nat, at: nat, w: nat)
    requires at + w <= n && off + n <= |b|
    ensures b[off..off + n][at..at + w] == b[off + at..off + at + w]
  {
    var c := b[off..off + n];
    var x, y := c[at..at + w], b[off + at..off + at + w];
    forall k | 0 <= k < w ensures x[k] == y[k] { assert c[at + k] == b[off + (at + k)]; }
  }

  lemma AppliedPart(rs: seq<Reloc>, base: int, off: nat, b: Block, b': Block, n: nat, r: Reloc)
    requires Applied(rs, base, off, b, b', r) && off + n <= |b| == |b'| && r.at + Width(r.kind) <= n
    ensures Applied(rs, base, 0, b[off..off + n], b'[off..off + n], r)
  {
    hide Patched, Value;
    SliceOf(b, off, n, r.at, Width(r.kind));
    SliceOf(b', off, n, r.at, Width(r.kind));
  }

  /** Relocating section i links it and leaves every other section of the image alone. */
  lemma ProgressMore(p: Program, addr: seq<nat>, role: Role, base: nat, b: Block, b': Block, rss: seq<seq<Reloc>>,
      rs: seq<Reloc>)
    requires Sane(p) && HasRole(role) && Holds(p, addr, role, base, |b|) && |rss| < |p.secs| && |b'| == |b|
    requires Progress(p, addr, role, base, b, rss) && p.secs[|rss|].role == role
    requires ResolvedAs(Defs(p.syms, addr), addr, p.relas[|rss|], rs)
    requires var off := addr[|rss|] - base;
      && (forall k :: 0 <= k < |rs| ==> Applied(rs, addr[|rss|], off, b, b', rs[k]))
      && (forall q :: 0 <= q < |b| && !Covered(rs, off, q) ==> b'[q] == b[q])
    ensures Progress(p, addr, role, base, b', rss + [rs])
  {
    hide Applied, ResolvedOne;
    var i, off := |rss|, addr[|rss|] - base;
    var was, now := Part(p, addr, base, b, i), Part(p, addr, base, b', i);
    assert was == p.secs[i].bytes;
    forall k | 0 <= k < |rs| ensures Applied(rs, addr[i], 0, was, now, rs[k]) {
      PlaceOf(p, addr, i, rs, k);
      AppliedPart(rs, addr[i], off, b, b', p.secs[i].size, rs[k]);
    }
    forall q | 0 <= q < |now| && !Covered(rs, 0, q) ensures now[q] == was[q] {
      NotCovered(rs, off, q);
    }
    forall j | 0 <= j < |p.secs| && p.secs[j].role == role && j != i
      ensures Part(p, addr, base, b', j) == Part(p, addr, base, b, j)
    {
      OtherPart(p, addr, role, base, b, b', i, j, rs);
    }
  }

  predicate HasRole(role: Role) { role == Text || role == Data }

  lemma PlaceOf(p: Program, addr: seq<nat>, i: nat, rs: seq<Reloc>, k: nat)
    requires Sane(p) && i < |p.secs| && HasBytes(p.secs[i])
    requires ResolvedAs(Defs(p.syms, addr), addr, p.relas[i], rs) && k < |rs|
    ensures rs[k].at + Width(rs[k].kind) <= p.secs[i].size
  {
    assert ResolvedOne(Defs(p.syms, addr), addr, p.relas[i][k], rs[k]);
    hide ResolvedOne, Defs;
  }

  lemma NotCovered(rs: seq<Reloc>, off: nat, q: nat)
    requires !Covered(rs, 0, q)
    ensures !Covered(rs, off, off + q)
  {
  }

  lemma OtherPart(p: Program, addr: seq<nat>, role: Role, base: nat, b: Block, b': Block, i: nat, j: nat,
      rs: seq<Reloc>)
    requires Sane(p) && HasRole(role) && Holds(p, addr, role, base, |b|) && |b'| == |b|
    requires i < |p.secs| && j < |p.secs| && i != j && p.secs[i].role == role && p.secs[j].role == role
    requires ResolvedAs(Defs(p.syms, addr), addr, p.relas[i], rs)
    requires forall q :: 0 <= q < |b| && !Covered(rs, addr[i] - base, q) ==> b'[q] == b[q]
    ensures Part(p, addr, base, b', j) == Part(p, addr, base, b, j)
  {
    hide ResolvedAs, Defs;
    assert Disjoint(p.secs, addr, i, j);
    forall q | addr[j] - base <= q < addr[j] - base + p.secs[j].size ensures b'[q] == b[q] {
      if Covered(rs, addr[i] - base, q) {
        var k :| 0 <= k < |rs|
          && addr[i] - base + rs[k].at <= q < addr[i] - base + rs[k].at + Width(rs[k].kind);
        PlaceOf(p, addr, i, rs, k);
        assert false;
      }
    }
  }

  // ----- linking -----

  /** How linking ends. */
  datatype Outcome = Linked | Duplicate | BadStart | UndefinedIn(sec: nat) | RefusedIn(sec: nat)

  /** The addresses of the sections, the images of text and data, and the resolved relocations. */
  datatype Output = Output(addr: seq<nat>, dataBase: nat, text: Block, data: Block, rss: seq<seq<Reloc>>)

  /** The bytes of section i in the images. */
  function Final(p: Program, o: Output, i: nat): Block
    requires i < |p.secs| == |o.addr|
  {
    var base, b := if p.secs[i].role == Text then TEXT_BASE else o.dataBase,
                   if p.secs[i].role == Text then o.text else o.data;
    if base <= o.addr[i] && o.addr[i] + p.secs[i].size <= base + |b| then Part(p, o.addr, base, b, i) else []
  }

  /** No two loaded sections overlap. */
  ghost predicate NoOverlap(secs: seq<Section>, addr: seq<nat>) {
    && |addr| == |secs|
    && forall i, j ::
         0 <= i < |secs| && 0 <= j < |secs| && i != j && secs[i].role != Dropped && secs[j].role != Dropped ==>
         Disjoint(secs, addr, i, j)
  }

  /** Every loaded section is in the images with its relocations applied, and no two overlap. */
  ghost predicate Good(p: Program, o: Output)
    requires |p.relas| == |p.secs|
  {
    && |o.addr| == |o.rss| == |p.secs|
    && (forall i :: 0 <= i < |p.secs| && HasBytes(p.secs[i]) ==>
          SectionLinked(p, o.addr, i, o.rss[i], Final(p, o, i)))
    && NoOverlap(p.secs, o.addr)
  }

  /** Why a link fails. */
  ghost predicate Explains(p: Program, addr: seq<nat>, r: Outcome)
    requires |p.relas| == |p.secs| == |addr|
  {
    var defs := Defs(p.syms, addr);
    match r
    case Linked => S.Consistent(defs, |defs|) && StartOf(defs) == TEXT_BASE
    case Duplicate => !S.Consistent(defs, |defs|)
    case BadStart => StartOf(defs) != TEXT_BASE
    case UndefinedIn(i) => i < |p.secs| && HasBytes(p.secs[i]) && exists k ::
      0 <= k < |p.relas[i]| && Needs(p.relas[i][k]) && !Known(defs, p.relas[i][k].sym)
    case RefusedIn(i) => i < |p.secs| && HasBytes(p.secs[i]) && exists rs, k ::
      ResolvedAs(defs, addr, p.relas[i], rs) && 0 <= k < |rs| && Value(rs, addr[i], rs[k]).None?
  }

  lemma SaneParts(p: Program)
    requires Sane(p)
    ensures |p.relas| == |p.secs| && forall i :: 0 <= i < |p.secs| ==> WellFormed(p.secs[i])
  {
  }

  /** Filled images hold the sections as they were. */
  lemma InPlace(p: Program, addr: seq<nat>, role: Role, base: nat, end: nat, b: Block)
    requires Sane(p) && HasRole(role) && Placed(p.secs, addr, role, base, end, |p.secs|) && |b| == end - base
    requires forall i :: 0 <= i < |p.secs| && p.secs[i].role == role ==>
      b[addr[i] - base..addr[i] - base + p.secs[i].size] == p.secs[i].bytes
    ensures Holds(p, addr, role, base, |b|) && Progress(p, addr, role, base, b, [])
  {
    hide Aligned, Log;
    forall i | 0 <= i < |p.secs| && p.secs[i].role == role ensures |p.secs[i].bytes| == p.secs[i].size {
      assert WellFormed(p.secs[i]);
    }
  }

  /** A section of another role changes nothing in this image. */
  lemma SkipRole(p: Program, addr: seq<nat>, role: Role, base: nat, b: Block, rss: seq<seq<Reloc>>, rs: seq<Reloc>)
    requires Holds(p, addr, role, base, |b|) && |rss| < |p.secs| && p.secs[|rss|].role != role
    requires Progress(p, addr, role, base, b, rss)
    ensures Progress(p, addr, role, base, b, rss + [rs])
  {
    hide SectionLinked, Part;
  }

  /** The relocations of a section are apart and inside its image. */
  lemma Ready(p: Program, addr: seq<nat>, role: Role, base: nat, b: Block, i: nat, rs: seq<Reloc>)
    requires Sane(p) && HasRole(role) && Holds(p, addr, role, base, |b|) && i < |p.secs| && p.secs[i].role == role
    requires ResolvedAs(Defs(p.syms, addr), addr, p.relas[i], rs)
    ensures Apart(rs) && forall k :: 0 <= k < |rs| ==> Inside(b, addr[i] - base, rs[k])
  {
    var defs := Defs(p.syms, addr);
    hide Defs, Resolves;
    forall j, k | 0 <= j < k < |rs| ensures Clear(rs[j], rs[k]) {
      assert ResolvedOne(defs, addr, p.relas[i][j], rs[j]) && ResolvedOne(defs, addr, p.relas[i][k], rs[k]);
      assert Clear(Bare(p.relas[i][j]), Bare(p.relas[i][k]));
    }
    forall k | 0 <= k < |rs| ensures Inside(b, addr[i] - base, rs[k]) { PlaceOf(p, addr, i, rs, k); }
  }

  /** Applies the relocations of the next section, which has the given role. */
  method RelocateIn(p: Program, addr: seq<nat>, role: Role, base: nat, img: Image, ghost rss: seq<seq<Reloc>>, i: nat,
      rs: seq<Reloc>)
      returns (ok: bool)
    requires Sane(p) && HasRole(role) && Holds(p, addr, role, base, |img.bytes|)
    requires i == |rss| < |p.secs| && p.secs[i].role == role && Progress(p, addr, role, base, img.bytes, rss)
    requires ResolvedAs(Defs(p.syms, addr), addr, p.relas[i], rs)
    modifies img
    ensures |img.bytes| == |old(img.bytes)|
    ensures ok ==> Progress(p, addr, role, base, img.bytes, rss + [rs])
    ensures !ok ==> Explains(p, addr, RefusedIn(i))
  {
    hide Sane, Progress, ResolvedAs, Defs, Value, Applied, Covered, Apart;
    Ready(p, addr, role, base, img.bytes, i, rs);
    ok := img.ApplyAll(rs, addr[i], addr[i] - base);
    if ok { ProgressMore(p, addr, role, base, old(img.bytes), img.bytes, rss, rs); }
  }

  /** With every section done, the images are as they should be. */
  lemma Finished(p: Program, o: Output)
    requires |o.rss| == |p.secs| && Holds(p, o.addr, Text, TEXT_BASE, |o.text|)
    requires Holds(p, o.addr, Data, o.dataBase, |o.data|)
    requires Progress(p, o.addr, Text, TEXT_BASE, o.text, o.rss)
    requires Progress(p, o.addr, Data, o.dataBase, o.data, o.rss)
    requires NoOverlap(p.secs, o.addr)
    ensures Good(p, o)
  {
    hide SectionLinked, Part;
  }

  /** Links a program: lays it out, collects the definitions, and relocates section by section. */
  method Link(p: Program) returns (r: Outcome, o: Output)
    requires Sane(p)
    ensures |o.addr| == |p.secs| && Explains(p, o.addr, r)
    ensures r.Linked? ==> Good(p, o)
  {
    hide Sane, Placed, Progress, Defs, S.Consistent, S.Table, ResolvedAs, Aligned, Holds, StartOf, Known, Good;
    SaneParts(p);
    var addr, textEnd, dataBase, dataEnd, bssEnd := Layout(p.secs);
    var t := Fill(p.secs, addr, Text, TEXT_BASE, textEnd);
    var d := Fill(p.secs, addr, Data, dataBase, dataEnd);
    o := Output(addr, dataBase, t, d, []);
    var defs := Definitions(p.syms, addr);
    var v, ok := S.Collect(defs);
    if !ok { return Duplicate, o; }
    var start := FindStart(defs);
    if start != TEXT_BASE { return BadStart, o; }
    InPlace(p, addr, Text, TEXT_BASE, textEnd, t);
    InPlace(p, addr, Data, dataBase, dataEnd, d);
    var text := new Image(t);
    var data := new Image(d);
    var i, rss := 0, [];
    while i < |p.secs|
      invariant 0 <= i == |rss| <= |p.secs| && |text.bytes| == |t| && |data.bytes| == |d|
      invariant Progress(p, addr, Text, TEXT_BASE, text.bytes, rss)
      invariant Progress(p, addr, Data, dataBase, data.bytes, rss)
    {
      var rs: seq<Reloc> := [];
      if HasBytes(p.secs[i]) {
        rs, ok := ResolveAll(v, defs, addr, p.relas[i]);
        if !ok { return UndefinedIn(i), o; }
        if p.secs[i].role == Text {
          ok := RelocateIn(p, addr, Text, TEXT_BASE, text, rss, i, rs);
        } else {
          ok := RelocateIn(p, addr, Data, dataBase, data, rss, i, rs);
        }
        if !ok { return RefusedIn(i), o; }
      }
      if p.secs[i].role != Text { SkipRole(p, addr, Text, TEXT_BASE, text.bytes, rss, rs); }
      if p.secs[i].role != Data { SkipRole(p, addr, Data, dataBase, data.bytes, rss, rs); }
      rss := rss + [rs];
      i := i + 1;
    }
    o := Output(addr, dataBase, text.bytes, data.bytes, rss);
    r := Linked;
    Finished(p, o);
  }

  // ----- what the linked program does -----

  /** Every call in a linked program has a target, which is its symbol's own address or the one where
      the definition that counts for its name was laid out; the call goes there, plus its addend,
      exactly when the distance is reachable. */
  lemma CallArrives(p: Program, o: Output, i: nat, k: nat) returns (a: int)
    requires Sane(p) && Good(p, o) && Explains(p, o.addr, Linked)
    requires i < |p.secs| && HasBytes(p.secs[i]) && k < |p.relas[i]| && p.relas[i][k].kind == CALL
    ensures forall x :: Resolves(Defs(p.syms, o.addr), o.addr, p.relas[i][k].sym, x) <==> x == a
    ensures var c, at, target := Final(p, o, i), p.relas[i][k].at, a + p.relas[i][k].A;
      && at + 8 <= |c|
      && (o.addr[i] + at + ImmU(Insn(c, at)) + ImmI(Insn(c, at + 4)) == target <==>
          Reachable(target - (o.addr[i] + at)))
  {
    hide Sane, Insn, ImmU, ImmI, LccReloc.Reachable, Final, Defs, Covered, Applied, Resolves;
    SaneParts(p);
    var defs, rs, c := Defs(p.syms, o.addr), o.rss[i], Final(p, o, i);
    assert SectionLinked(p, o.addr, i, rs, c);
    assert ResolvedOne(defs, o.addr, p.relas[i][k], rs[k]);
    a := rs[k].S;
    forall x | Resolves(defs, o.addr, p.relas[i][k].sym, x) ensures x == a {
      ResolvesOnce(defs, o.addr, p.relas[i][k].sym, x, a);
    }
    CallReaches(rs, o.addr[i], 0, p.secs[i].bytes, c, rs[k]);
    CallAfter(rs, o.addr[i], 0, p.secs[i].bytes, c, rs[k]);
  }

  /** In a consistent table a symbol stands for one address. */
  lemma ResolvesOnce(defs: seq<S.Def>, addr: seq<nat>, s: Symbol, a: int, b: int)
    requires S.Consistent(defs, |defs|) && Resolves(defs, addr, s, a) && Resolves(defs, addr, s, b)
    ensures a == b
  {
    hide S.Consistent;
    if s.place == Undefined {
      var i: nat :| S.Wins(defs, |defs|, i) && defs[i].name == s.name && a == defs[i].addr;
      var j: nat :| S.Wins(defs, |defs|, j) && defs[j].name == s.name && b == defs[j].addr;
      WinsOnce(defs, i, j);
    }
  }

  predicate DefIs(d: S.Def, addr: seq<nat>, s: Symbol) {
    Defines(s) && d == S.Def(s.name, AddressOf(addr, s.place), s.bind == Global)
  }

  /** A definition's address is where its section was laid out. */
  lemma {:induction false} DefinedAt(syms: seq<Symbol>, addr: seq<nat>, w: nat)
    requires w < |Defs(syms, addr)|
    ensures exists j :: 0 <= j < |syms| && DefIs(Defs(syms, addr)[w], addr, syms[j])
  {
    var n := |syms| - 1;
    if w < |Defs(syms[..n], addr)| {
      DefinedAt(syms[..n], addr, w);
      var j :| 0 <= j < n && DefIs(Defs(syms[..n], addr)[w], addr, syms[..n][j]);
      assert syms[..n][j] == syms[j];
    } else {
      assert DefIs(Defs(syms, addr)[w], addr, syms[n]);
    }
  }
}
