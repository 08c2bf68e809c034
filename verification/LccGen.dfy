/** The code generator: slot assignment, recursive emission into the text, label and fix-up
    vectors, and patching of local jumps. Each method is proved against the functions of
    LccCode. */
module LccGen {
  import opened Prelude
  import opened Rv64
  import opened RvMachine
  import opened MiniC
  import opened LccCode
  import opened LccText
  import opened LccLabels

  // ----- stack slots -----

  /** Declared symbols in the order in which slots are assigned. */
  function Decls(s: Stmt): seq<Symbol> {
    match s
    case Decl(sym, _) => [sym]
    case Block(body) => BlockDecls(body)
    case If(_, s1, s2) => Decls(s1) + (if s2.Some? then Decls(s2.value) else [])
    case While(_, s1) => Decls(s1)
    case For(init, _, _, s1) => (if init.Some? then Decls(init.value) else []) + Decls(s1)
    case _ => []
  }

  function BlockDecls(body: seq<Stmt>): seq<Symbol> {
    if body == [] then [] else Decls(body[0]) + BlockDecls(body[1..])
  }

  function SlotOff(k: int): int { -24 - k * 8 }

  /** Slots after giving the symbols in ds the slots k, k + 1, ... */
  function Assigned(sl: Slots, ds: seq<Symbol>, k: int): Slots
    decreases |ds|
  {
    if ds == [] then sl else Assigned(sl[ds[0] := SlotOff(k)], ds[1..], k + 1)
  }

  lemma {:induction false} AssignedConcat(sl: Slots, xs: seq<Symbol>, ys: seq<Symbol>, k: int)
    ensures Assigned(sl, xs + ys, k) == Assigned(Assigned(sl, xs, k), ys, k + |xs|)
    decreases |xs|
  {
    if xs == [] {
      assert xs + ys == ys;
    } else {
      assert (xs + ys)[1..] == xs[1..] + ys;
      AssignedConcat(sl[xs[0] := SlotOff(k)], xs[1..], ys, k + 1);
    }
  }

  ghost predicate Distinct(ds: seq<Symbol>) {
    forall i, j :: 0 <= i < j < |ds| ==> ds[i] != ds[j]
  }

  /** Distinct symbols get distinct slots, numbered in order. */
  lemma {:induction false} AssignedSlots(sl: Slots, ds: seq<Symbol>, k: int)
    requires Distinct(ds)
    ensures forall i :: 0 <= i < |ds| ==> ds[i] in Assigned(sl, ds, k) && Assigned(sl, ds, k)[ds[i]] == SlotOff(k + i)
    ensures forall s :: s in sl && s !in ds ==> s in Assigned(sl, ds, k) && Assigned(sl, ds, k)[s] == sl[s]
    ensures forall s :: s in Assigned(sl, ds, k) ==> s in sl || s in ds
    decreases |ds|
  {
    if ds != [] {
      var sl1, rest := sl[ds[0] := SlotOff(k)], ds[1..];
      AssignedSlots(sl1, rest, k + 1);
      assert ds[0] !in rest;
      forall i | 0 <= i < |ds|
        ensures ds[i] in Assigned(sl, ds, k) && Assigned(sl, ds, k)[ds[i]] == SlotOff(k + i)
      {
        if i > 0 { assert ds[i] == rest[i - 1]; }
      }
      forall s | s in rest ensures s in ds {
      }
    }
  }

  // ----- appending piece by piece -----

  lemma AppendIns(o: Out, i: Instr)
    ensures Append(o, [Ins(i)], [], 0) == o.(words := o.words + [Encode(i)])
  {
    hide Encode;
    assert Templates([Ins(i)]) == [Encode(i)];
    assert FixesOf([Ins(i)], |o.words|) == [] by { assert [Ins(i)][1..] == []; }
  }

  lemma AppendBranch(o: Out, it: Item)
    requires !it.Ins?
    ensures Append(o, [it], [], 0)
         == o.(words := o.words + [Template(it)], fixes := o.fixes + [FixOf(it, |o.words|)])
  {
    hide Template;
    assert Templates([it]) == [Template(it)];
    assert FixesOf([it], |o.words|) == [FixOf(it, |o.words|)] by { assert [it][1..] == []; }
  }

  lemma AppendDef(o: Out, d: LabelDef)
    ensures Append(o, [], [d], 0) == o.(labels := o.labels + [d])
  {
  }

  lemma AppendNew(o: Out, k: int)
    ensures Append(o, [], [], k) == o.(next := o.next + k)
  {
  }

  lemma AppendPlus(o: Out, xs: seq<Item>, dx: seq<LabelDef>, cx: int, ys: seq<Item>)
    ensures Append(Append(o, xs, dx, cx), ys, [], 0) == Append(o, xs + ys, dx, cx)
  {
    hide Append;
    AppendAppend(o, xs, dx, cx, ys, [], 0);
    assert dx + [] == dx;
  }

  lemma AppendLabel(o: Out, xs: seq<Item>, dx: seq<LabelDef>, cx: int, d: LabelDef)
    ensures Append(Append(o, xs, dx, cx), [], [d], 0) == Append(o, xs, dx + [d], cx)
  {
    hide Append;
    AppendAppend(o, xs, dx, cx, [], [d], 0);
    assert xs + [] == xs;
  }

  lemma AppendAfterNew(o: Out, k: int, xs: seq<Item>, dx: seq<LabelDef>, cx: int)
    ensures Append(Append(o, [], [], k), xs, dx, cx) == Append(o, xs, dx, k + cx)
  {
    hide Append;
    AppendAppend(o, [], [], k, xs, dx, cx);
    assert [] + xs == xs && [] + dx == dx;
  }

  lemma AppendSize(o: Out, xs: seq<Item>, dx: seq<LabelDef>, cx: int)
    ensures |Append(o, xs, dx, cx).words| == |o.words| + |xs|
    ensures Append(o, xs, dx, cx).next == o.next + cx
  {
  }

  // ----- looking labels up -----

  function FindLabel(defs: seq<LabelDef>, id: int): Option<int> {
    if defs == [] then None
    else if defs[0].id == id then Some(defs[0].off)
    else FindLabel(defs[1..], id)
  }

  function MapOf(defs: seq<LabelDef>): LabelMap {
    if defs == [] then map[] else MapOf(defs[1..])[defs[0].id := defs[0].off]
  }

  lemma {:induction false} FindIsMap(defs: seq<LabelDef>, id: int)
    ensures FindLabel(defs, id) == if id in MapOf(defs) then Some(MapOf(defs)[id]) else None
    ensures id in MapOf(defs) <==> id in Ids(defs)
    decreases |defs|
  {
    if defs != [] {
      FindIsMap(defs[1..], id);
      IdsConcat([defs[0]], defs[1..]);
      IdsOne(defs[0]);
      assert defs == [defs[0]] + defs[1..];
    }
  }

  /** With unique ids the first definition is the definition. */
  lemma {:induction false} UniqueLabelsIn(defs: seq<LabelDef>)
    requires Uniq(defs)
    ensures LabelsIn(defs, MapOf(defs))
    decreases |defs|
  {
    if defs != [] {
      var rest := defs[1..];
      forall i, j | 0 <= i < j < |rest| ensures rest[i].id != rest[j].id {
        assert rest[i] == defs[i + 1] && rest[j] == defs[j + 1];
      }
      UniqueLabelsIn(rest);
      forall k | 0 <= k < |defs| ensures defs[k].id in MapOf(defs) && MapOf(defs)[defs[k].id] == defs[k].off {
        if k > 0 { assert defs[k] == rest[k - 1]; }
      }
    }
  }

  // ----- patching -----

  /** The word that replaces `was` at byte offset `at` when its label is at `target`. */
  function PatchWord(was: int, f: Fix, target: int): int {
    var d := target - f.off;
    if f.kind == 1 then RvJ(d, 0)
    else RvB(d, was / 0x10_0000 % 32, was / 0x8000 % 32, was / 0x1000 % 8)
  }

  function PatchAll(words: seq<int>, fixes: seq<Fix>, lm: LabelMap): seq<int>
    requires forall f :: f in fixes ==> 0 <= f.off / 4 < |words|
    decreases |fixes|
  {
    if fixes == [] then words else
    var f := fixes[0];
    PatchAll(words[f.off / 4 := PatchWord(words[f.off / 4], f, Target(lm, f.lab))], fixes[1..], lm)
  }

  function ResolvedWords(items: seq<Item>, p: nat, lm: LabelMap): (w: seq<int>)
    ensures |w| == |items|
  {
    seq(|items|, k requires 0 <= k < |items| => Encode(Resolve(items[k], p + k, lm)))
  }

  /** Patching a placeholder gives the encoding of the resolved branch. */
  lemma PatchTemplate(it: Item, q: nat, lm: LabelMap)
    requires !it.Ins?
    ensures PatchWord(Template(it), FixOf(it, q), Target(lm, it.lab)) == Encode(Resolve(it, q, lm))
  {
    if it.Beqz? {
      assert RvB(0, 0, 10, 0) == 0x5_0063;
    } else if it.Bnez? {
      assert RvB(0, 0, 10, 1) == 0x5_1063;
    }
  }

  lemma {:induction false} FixesInside(items: seq<Item>, p: nat, f: Fix)
    requires f in FixesOf(items, p)
    ensures f.off % 4 == 0 && p <= f.off / 4 < p + |items|
    ensures exists k :: 0 <= k < |items| && !items[k].Ins? && items[k].lab == f.lab
    decreases |items|
  {
    if items != [] {
      if f in FixesOf(items[1..], p + 1) {
        FixesInside(items[1..], p + 1, f);
        var k :| 0 <= k < |items[1..]| && !items[1..][k].Ins? && items[1..][k].lab == f.lab;
        assert items[k + 1] == items[1..][k];
      } else {
        assert f == FixOf(items[0], p);
      }
    }
  }

  lemma {:induction false} PatchAllResolves(pre: seq<int>, items: seq<Item>, lm: LabelMap)
    requires forall f :: f in FixesOf(items, |pre|) ==> 0 <= f.off / 4 < |pre + Templates(items)|
    ensures PatchAll(pre + Templates(items), FixesOf(items, |pre|), lm) == pre + ResolvedWords(items, |pre|, lm)
    decreases |items|
  {
    hide Template, Encode, PatchWord;
    if items == [] {
    } else {
      var it, rest, p := items[0], items[1..], |pre|;
      var words := pre + Templates(items);
      var w := Encode(Resolve(it, p, lm));
      assert words == pre + [Template(it)] + Templates(rest);
      assert pre + ResolvedWords(items, p, lm) == pre + [w] + ResolvedWords(rest, p + 1, lm);
      forall f | f in FixesOf(rest, p + 1) ensures 0 <= f.off / 4 < |pre + [w] + Templates(rest)| {
        FixesInside(rest, p + 1, f);
      }
      PatchAllResolves(pre + [w], rest, lm);
      if it.Ins? {
        TemplateIns(it);
        assert Resolve(it, p, lm) == it.i;
        assert words == pre + [w] + Templates(rest);
        assert FixesOf(items, p) == FixesOf(rest, p + 1);
      } else {
        PatchTemplate(it, p, lm);
        var fs := FixesOf(items, p);
        assert fs[0] == FixOf(it, p) && fs[1..] == FixesOf(rest, p + 1);
        assert words[p] == Template(it);
        assert words[p := w] == pre + [w] + Templates(rest);
      }
    }
  }

  lemma TemplateIns(it: Item)
    requires it.Ins?
    ensures Template(it) == Encode(it.i)
  {
  }

  // ----- whole functions -----

  function AlignUp16(x: nat): nat { (x + 15) / 16 * 16 }

  /** Locals of a function in slot order. */
  function Locals(f: Function): seq<Symbol> { f.params + Decls(f.body) }

  function FrameSize(f: Function): nat { AlignUp16(16 + |Locals(f)| * 8) }

  function FrameSlots(f: Function): Slots { Assigned(map[], Locals(f), 0) }

  function Prologue(frame: int): seq<Item> {
    [Ins(I(ADDI, SP, SP, -frame)), Ins(Store(8, RA, SP, frame - 8)),
     Ins(Store(8, FP, SP, frame - 16)), Ins(I(ADDI, FP, SP, frame))]
  }

  function Epilogue(frame: int): seq<Item> {
    [Ins(I(ADDI, SP, FP, -frame)), Ins(Load(8, FP, SP, frame - 16)), Ins(Load(8, RA, SP, frame - 8)),
     Ins(I(ADDI, SP, SP, frame)), Ins(Jalr(ZERO, RA, 0))]
  }

  const MAX_ARGS: nat := 8

  /** Incoming argument registers are stored into the parameters' slots. */
  function ParamCode(params: seq<Symbol>, sl: Slots, a: nat): seq<Item>
    requires a + |params| <= MAX_ARGS
    decreases |params|
  {
    if params == [] then []
    else [Ins(Store(8, 10 + a, FP, Off(sl, params[0])))] + ParamCode(params[1..], sl, a + 1)
  }

  function BodyTargets(n: int): Targets { Targets(-1, -1, n) }

  function EntryCode(f: Function, sl: Slots): seq<Item>
    requires |f.params| <= MAX_ARGS
  {
    Prologue(FrameSize(f)) + ParamCode(f.params, sl, 0)
  }

  /** All the code of a function whose return label is n. */
  function FunctionCode(f: Function, sl: Slots, n: int): seq<Item>
    requires |f.params| <= MAX_ARGS
  {
    EntryCode(f, sl) + StmtCode(f.body, sl, n + 1, BodyTargets(n)) + LiCode(A0, 0) + Epilogue(FrameSize(f))
  }

  function ReturnAt(f: Function, sl: Slots, p: nat, n: int): nat
    requires |f.params| <= MAX_ARGS
  {
    p + |EntryCode(f, sl)| + |StmtCode(f.body, sl, n + 1, BodyTargets(n))| + |LiCode(A0, 0)|
  }

  function FunctionLabels(f: Function, sl: Slots, p: nat, n: int): seq<LabelDef>
    requires |f.params| <= MAX_ARGS
  {
    StmtLabels(f.body, sl, p + |EntryCode(f, sl)|, n + 1, BodyTargets(n)) +
    [LabelDef(n, 4 * ReturnAt(f, sl, p, n))]
  }

  lemma {:induction false} ParamCodeIns(params: seq<Symbol>, sl: Slots, a: nat)
    requires a + |params| <= MAX_ARGS
    ensures |ParamCode(params, sl, a)| == |params|
    ensures forall k :: 0 <= k < |params| ==>
              ParamCode(params, sl, a)[k] == Ins(Store(8, 10 + a + k, FP, Off(sl, params[k])))
    decreases |params|
  {
    if params != [] { ParamCodeIns(params[1..], sl, a + 1); }
  }

  /** A function binds each of its labels once and jumps only to its own labels. */
  lemma FunctionClosed(f: Function, sl: Slots, p: nat, n: int)
    requires |f.params| <= MAX_ARGS && JumpsOk(f.body, false)
    ensures Closed(FunctionCode(f, sl, n), FunctionLabels(f, sl, p, n), {})
  {
    hide Closed, Ids, StmtCode, StmtLabels, LiCode;
    var entry, t := EntryCode(f, sl), BodyTargets(n);
    var cb, lb := StmtCode(f.body, sl, n + 1, t), StmtLabels(f.body, sl, p + |entry|, n + 1, t);
    var li, ep, d := LiCode(A0, 0), Epilogue(FrameSize(f)), LabelDef(n, 4 * ReturnAt(f, sl, p, n));
    ParamCodeIns(f.params, sl, 0);
    assert UsesOnly(entry, {n});
    ClosedPlain(entry, {n});
    StmtClosed(f.body, sl, p + |entry|, n + 1, t, false);
    ClosedConcat(entry, [], cb, lb, {n});
    assert [] + lb == lb;
    LiUsesNone(A0, 0, {n});
    ClosedPlus(entry + cb, lb, li, {n});
    ClosedPlus(entry + cb + li, lb, ep, {n});
    ClosedBind(entry + cb + li + ep, lb, d, {n});
    assert {n} - {n} == {};
  }

  /** Every fix-up of closed code finds its label. */
  lemma ClosedResolves(items: seq<Item>, defs: seq<LabelDef>, p: nat, f: Fix)
    requires Closed(items, defs, {}) && f in FixesOf(items, p)
    ensures f.lab in MapOf(defs) && f.off % 4 == 0 && p <= f.off / 4 < p + |items|
  {
    hide MapOf, Ids, FixesOf;
    FixesInside(items, p, f);
    FindIsMap(defs, f.lab);
  }
}
