/** Every label id is bound at most once, and every jump refers to a bound label or to an
    enclosing target, so looking a label up by its first definition finds the only one. */
module LccLabels {
  import opened Prelude
  import opened Rv64
  import opened RvMachine
  import opened MiniC
  import opened LccCode

  ghost function Ids(defs: seq<LabelDef>): set<int> {
    set k | 0 <= k < |defs| :: defs[k].id
  }

  ghost predicate Uniq(defs: seq<LabelDef>) {
    forall i, j :: 0 <= i < j < |defs| ==> defs[i].id != defs[j].id
  }

  ghost predicate Within(ids: set<int>, lo: int, hi: int) {
    forall i :: i in ids ==> lo <= i < hi
  }

  ghost predicate UsesOnly(items: seq<Item>, ids: set<int>) {
    forall k :: 0 <= k < |items| && !items[k].Ins? ==> items[k].lab in ids
  }

  lemma IdsConcat(xs: seq<LabelDef>, ys: seq<LabelDef>)
    ensures Ids(xs + ys) == Ids(xs) + Ids(ys)
    ensures Uniq(xs) && Uniq(ys) && Ids(xs) !! Ids(ys) ==> Uniq(xs + ys)
  {
    var zs := xs + ys;
    forall i | i in Ids(xs) + Ids(ys) ensures i in Ids(zs) {
      if i in Ids(xs) {
        var k :| 0 <= k < |xs| && xs[k].id == i;
        assert zs[k].id == i;
      } else {
        var k :| 0 <= k < |ys| && ys[k].id == i;
        assert zs[|xs| + k].id == i;
      }
    }
    forall i | i in Ids(zs) ensures i in Ids(xs) + Ids(ys) {
      var k :| 0 <= k < |zs| && zs[k].id == i;
      if k < |xs| { assert xs[k].id == i; } else { assert ys[k - |xs|].id == i; }
    }
    if Uniq(xs) && Uniq(ys) && Ids(xs) !! Ids(ys) {
      forall i, j | 0 <= i < j < |zs| ensures zs[i].id != zs[j].id {
        if i < |xs| <= j {
          assert zs[i].id in Ids(xs) && zs[j].id in Ids(ys) by {
            assert xs[i].id == zs[i].id && ys[j - |xs|].id == zs[j].id;
          }
        }
      }
    }
  }

  lemma IdsOne(l: LabelDef)
    ensures Ids([l]) == {l.id} && Uniq([l])
  {
    assert [l][0].id in Ids([l]);
  }

  lemma UsesConcat(xs: seq<Item>, ys: seq<Item>, ids: set<int>)
    requires UsesOnly(xs, ids) && UsesOnly(ys, ids)
    ensures UsesOnly(xs + ys, ids)
  {
  }

  lemma UsesMore(xs: seq<Item>, ids: set<int>, more: set<int>)
    requires UsesOnly(xs, ids) && ids <= more
    ensures UsesOnly(xs, more)
  {
  }

  lemma {:induction false} LiUsesNone(rd: Reg, x: int, ids: set<int>)
    ensures UsesOnly(LiCode(rd, x), ids)
    decreases Magnitude(x)
  {
    if !FitsI(x) { LiUsesNone(rd, x / 4096, ids); }
  }

  // ----- sequences of fragments -----

  /** A fragment of output that binds each id once and jumps only inside itself or to `outer`. */
  ghost predicate Closed(items: seq<Item>, defs: seq<LabelDef>, outer: set<int>) {
    Uniq(defs) && UsesOnly(items, Ids(defs) + outer)
  }

  lemma ClosedConcat(xs: seq<Item>, dx: seq<LabelDef>, ys: seq<Item>, dy: seq<LabelDef>, outer: set<int>)
    requires Closed(xs, dx, outer) && Closed(ys, dy, outer) && Ids(dx) !! Ids(dy)
    ensures Closed(xs + ys, dx + dy, outer) && Ids(dx + dy) == Ids(dx) + Ids(dy)
  {
    hide Uniq, UsesOnly, Ids;
    IdsConcat(dx, dy);
    UsesMore(xs, Ids(dx) + outer, Ids(dx + dy) + outer);
    UsesMore(ys, Ids(dy) + outer, Ids(dx + dy) + outer);
    UsesConcat(xs, ys, Ids(dx + dy) + outer);
  }

  lemma ClosedPlus(xs: seq<Item>, dx: seq<LabelDef>, ys: seq<Item>, outer: set<int>)
    requires Closed(xs, dx, outer) && UsesOnly(ys, outer)
    ensures Closed(xs + ys, dx, outer)
  {
    hide Uniq, Ids;
  }

  lemma ClosedMore(xs: seq<Item>, dx: seq<LabelDef>, outer: set<int>, outer': set<int>)
    requires Closed(xs, dx, outer) && outer <= outer'
    ensures Closed(xs, dx, outer')
  {
    hide Uniq, Ids;
  }

  lemma ClosedPlain(items: seq<Item>, outer: set<int>)
    requires UsesOnly(items, outer)
    ensures Closed(items, [], outer) && Ids([]) == {}
  {
  }

  /** A label of the surrounding scope is bound here. */
  lemma ClosedBind(xs: seq<Item>, dx: seq<LabelDef>, l: LabelDef, outer: set<int>)
    requires Closed(xs, dx, outer) && l.id !in Ids(dx)
    ensures Closed(xs, dx + [l], outer - {l.id}) && Ids(dx + [l]) == Ids(dx) + {l.id}
    ensures Closed(xs, dx + [l], outer)
  {
    hide Uniq, Ids;
    IdsOne(l);
    IdsConcat(dx, [l]);
  }

  lemma Apart(xs: set<int>, ys: set<int>, lo: int, mid: int, hi: int)
    requires Within(xs, lo, mid) && Within(ys, mid, hi)
    ensures xs !! ys
  {
    forall i | i in xs ensures i !in ys {
    }
  }

  // ----- expressions -----

  lemma {:induction false} ExprClosed(e: Expr, sl: Slots, p: nat, n: int)
    ensures Closed(ExprCode(e, sl, n), ExprLabels(e, sl, p, n), {})
    ensures Within(Ids(ExprLabels(e, sl, p, n)), n, n + LabelsOf(e))
    decreases e, 1
  {
    hide Closed, LiCode, Ids;
    match e {
      case Int(v) =>
        LiUsesNone(A0, v, {});
        ClosedPlain(LiCode(A0, v), {});
      case Var(s) => ClosedPlain(ExprCode(e, sl, n), {});
      case Unary(op, a) =>
        ExprClosed(a, sl, p, n);
        ClosedPlus(ExprCode(a, sl, n), ExprLabels(a, sl, p, n), UnaryCode(op), {});
      case Binary(op, a, b) => BinaryClosed(e, sl, p, n);
      case LogAnd(a, b) => ShortClosed(e, sl, p, n);
      case LogOr(a, b) => ShortClosed(e, sl, p, n);
      case Assign(s, b) => AssignClosed(e, sl, p, n);
      case Cond(a, b, c) => CondClosed(e, sl, p, n);
    }
  }

  lemma AssignClosed(e: Expr, sl: Slots, p: nat, n: int)
    requires e.Assign?
    ensures Closed(ExprCode(e, sl, n), ExprLabels(e, sl, p, n), {})
    ensures Within(Ids(ExprLabels(e, sl, p, n)), n, n + LabelsOf(e))
    decreases e, 0
  {
    hide Closed, Ids, AssignShape;
    ExprClosed(e.b, sl, p + 3, n);
    AssignShapeClosed(e.sym, Off(sl, e.sym), ExprCode(e.b, sl, n), ExprLabels(e.b, sl, p + 3, n));
  }

  lemma AssignShapeClosed(s: Symbol, off: int, cb: seq<Item>, lb: seq<LabelDef>)
    requires Closed(cb, lb, {})
    ensures Closed(AssignShape(s, off, cb), lb, {})
  {
    hide Closed, Ids;
    var pre, post := [Ins(I(ADDI, A0, FP, off))] + Push(A0), [Ins(Store(s.size, A0, T0, 0))];
    ClosedPlain(pre, {});
    ClosedConcat(pre, [], cb, lb, {});
    assert [] + lb == lb;
    ClosedPlus(pre + cb, lb, Pop(T0), {});
    ClosedPlus(pre + cb + Pop(T0), lb, post, {});
  }

  lemma BinaryClosed(e: Expr, sl: Slots, p: nat, n: int)
    requires e.Binary?
    ensures Closed(ExprCode(e, sl, n), ExprLabels(e, sl, p, n), {})
    ensures Within(Ids(ExprLabels(e, sl, p, n)), n, n + LabelsOf(e))
    decreases e, 0
  {
    hide Closed, Ids, Within, BinaryShape, ExprCode, ExprLabels;
    BinaryUnfold(e, sl, p, n);
    var nb := n + LabelsOf(e.a);
    var ca, cb := ExprCode(e.a, sl, n), ExprCode(e.b, sl, nb);
    ExprClosed(e.a, sl, p, n);
    ExprClosed(e.b, sl, p + |ca| + 2, nb);
    BinaryShapeClosed(ca, ExprLabels(e.a, sl, p, n), cb, ExprLabels(e.b, sl, p + |ca| + 2, nb), e.bop,
                      n, nb, nb + LabelsOf(e.b));
  }

  lemma BinaryShapeClosed(ca: seq<Item>, la: seq<LabelDef>, cb: seq<Item>, lb: seq<LabelDef>, op: BinOp,
                          n: int, nb: int, hi: int)
    requires Closed(ca, la, {}) && Within(Ids(la), n, nb) && Closed(cb, lb, {}) && Within(Ids(lb), nb, hi)
    requires n <= nb <= hi
    ensures Closed(BinaryShape(ca, cb, op), la + lb, {}) && Within(Ids(la + lb), n, hi)
  {
    hide Closed, Ids;
    ClosedPlus(ca, la, Push(A0), {});
    Apart(Ids(la), Ids(lb), n, nb, hi);
    ClosedConcat(ca + Push(A0), la, cb, lb, {});
    ClosedPlus(ca + Push(A0) + cb, la + lb, Pop(T0), {});
    ClosedPlus(ca + Push(A0) + cb + Pop(T0), la + lb, OpCode(op), {});
  }

  lemma ShortClosed(e: Expr, sl: Slots, p: nat, n: int)
    requires e.LogAnd? || e.LogOr?
    ensures Closed(ExprCode(e, sl, n), ExprLabels(e, sl, p, n), {})
    ensures Within(Ids(ExprLabels(e, sl, p, n)), n, n + LabelsOf(e))
    decreases e, 0
  {
    hide Closed, Ids, Within, ShortShape, ShortDefs, ExprCode, ExprLabels;
    ShortUnfold(e, sl, p, n);
    var nb, v := n + 2 + LabelsOf(e.a), if e.LogAnd? then 0 else 1;
    var ca, cb := ExprCode(e.a, sl, n + 2), ExprCode(e.b, sl, nb);
    var pb := p + |ca| + 1;
    ExprClosed(e.a, sl, p, n + 2);
    ExprClosed(e.b, sl, pb, nb);
    ShortShapeClosed(ca, ExprLabels(e.a, sl, p, n + 2), cb, ExprLabels(e.b, sl, pb, nb),
                     if e.LogAnd? then Beqz(n) else Bnez(n), v, n, pb + ArmAfter(cb), nb, nb + LabelsOf(e.b));
  }

  lemma ShortShapeClosed(ca: seq<Item>, la: seq<LabelDef>, cb: seq<Item>, lb: seq<LabelDef>, br: Item, v: int,
                         n: int, px: int, nb: int, hi: int)
    requires !br.Ins? && br.lab == n && n + 2 <= nb <= hi
    requires Closed(ca, la, {}) && Within(Ids(la), n + 2, nb)
    requires Closed(cb, lb, {}) && Within(Ids(lb), nb, hi)
    ensures Closed(ShortShape(ca, cb, br, v, n), ShortDefs(la, lb, n, px), {})
    ensures Within(Ids(ShortDefs(la, lb, n, px)), n, hi)
  {
    hide Closed, LiCode, Ids;
    var l1, l2 := LabelDef(n, 4 * px), LabelDef(n + 1, 4 * (px + 1));
    var i1, i2, j, out := LiCode(A0, 1 - v), LiCode(A0, v), [Jump(n + 1)], {n, n + 1};
    LiUsesNone(A0, 1 - v, out);
    LiUsesNone(A0, v, out);
    ClosedMore(ca, la, {}, out);
    ClosedMore(cb, lb, {}, out);
    ClosedPlus(ca, la, [br], out);
    Apart(Ids(la), Ids(lb), n + 2, nb, hi);
    ClosedConcat(ca + [br], la, cb, lb, out);
    ClosedPlus(ca + [br] + cb, la + lb, [br], out);
    ClosedPlus(ca + [br] + cb + [br], la + lb, i1, out);
    ClosedPlus(ca + [br] + cb + [br] + i1, la + lb, j, out);
    ClosedPlus(ca + [br] + cb + [br] + i1 + j, la + lb, i2, out);
    var code := ShortShape(ca, cb, br, v, n);
    ClosedBind(code, la + lb, l1, out);
    ClosedBind(code, la + lb + [l1], l2, out - {n});
    assert out - {n} - {n + 1} == {};
  }

  lemma CondClosed(e: Expr, sl: Slots, p: nat, n: int)
    requires e.Cond?
    ensures Closed(ExprCode(e, sl, n), ExprLabels(e, sl, p, n), {})
    ensures Within(Ids(ExprLabels(e, sl, p, n)), n, n + LabelsOf(e))
    decreases e, 0
  {
    hide Closed, Ids, Within, CondShape, CondDefs, ExprCode, ExprLabels;
    CondUnfold(e, sl, p, n);
    var nb := n + 2 + LabelsOf(e.a);
    var nc := nb + LabelsOf(e.b);
    var ca, cb, cc := ExprCode(e.a, sl, n + 2), ExprCode(e.b, sl, nb), ExprCode(e.c, sl, nc);
    var pb := p + |ca| + 1;
    var pc := pb + |cb| + 1;
    ExprClosed(e.a, sl, p, n + 2);
    ExprClosed(e.b, sl, pb, nb);
    ExprClosed(e.c, sl, pc, nc);
    CondShapeClosed(ca, ExprLabels(e.a, sl, p, n + 2), cb, ExprLabels(e.b, sl, pb, nb),
                    cc, ExprLabels(e.c, sl, pc, nc), n, pc, pc + |cc|, {}, nb, nc, nc + LabelsOf(e.c));
  }

  lemma CondShapeClosed(ca: seq<Item>, la: seq<LabelDef>, cb: seq<Item>, lb: seq<LabelDef>,
                        cc: seq<Item>, lc: seq<LabelDef>, n: int, pc: int, pe: int, outer: set<int>,
                        nb: int, nc: int, hi: int)
    requires n + 2 <= nb <= nc <= hi
    requires Closed(ca, la, {}) && Within(Ids(la), n + 2, nb)
    requires Closed(cb, lb, outer) && Within(Ids(lb), nb, nc)
    requires Closed(cc, lc, outer) && Within(Ids(lc), nc, hi)
    ensures Closed(CondShape(ca, cb, cc, n), CondDefs(la, lb, lc, n, pc, pe), outer)
    ensures Within(Ids(CondDefs(la, lb, lc, n, pc, pe)), n, hi)
  {
    hide Closed, Ids;
    var l1, l2, out := LabelDef(n, 4 * pc), LabelDef(n + 1, 4 * pe), outer + {n, n + 1};
    ClosedMore(ca, la, {}, out);
    ClosedMore(cb, lb, outer, out);
    ClosedMore(cc, lc, outer, out);
    ClosedPlus(ca, la, [Beqz(n)], out);
    Apart(Ids(la), Ids(lb), n + 2, nb, nc);
    ClosedConcat(ca + [Beqz(n)], la, cb, lb, out);
    ClosedPlus(ca + [Beqz(n)] + cb, la + lb, [Jump(n + 1)], out);
    var code := ca + [Beqz(n)] + cb + [Jump(n + 1)];
    ClosedBind(code, la + lb, l1, out);
    Apart(Ids(la + lb + [l1]), Ids(lc), n, nc, hi);
    ClosedConcat(code, la + lb + [l1], cc, lc, out);
    ClosedBind(code + cc, la + lb + [l1] + lc, l2, out);
    ClosedDrop(code + cc, la + lb + [l1] + lc + [l2], n, out);
    ClosedDrop(code + cc, la + lb + [l1] + lc + [l2], n + 1, out - {n});
    ClosedMore(code + cc, la + lb + [l1] + lc + [l2], out - {n} - {n + 1}, outer);
  }

  /** An id that is bound inside need not be listed outside. */
  lemma ClosedDrop(xs: seq<Item>, dx: seq<LabelDef>, id: int, outer: set<int>)
    requires Closed(xs, dx, outer) && id in Ids(dx)
    ensures Closed(xs, dx, outer - {id})
  {
    hide Uniq, Ids;
    assert Ids(dx) + outer == Ids(dx) + (outer - {id});
  }

  // ----- statements -----

  /** Targets that a statement may jump to. */
  function Outer(t: Targets, inLoop: bool): set<int> {
    if inLoop then {t.ret, t.brk, t.cont} else {t.ret}
  }

  lemma OptClosed(e: Option<Expr>, sl: Slots, p: nat, n: int, outer: set<int>)
    ensures Closed(OptCode(e, sl, n), OptLabels(e, sl, p, n), outer)
    ensures Within(Ids(OptLabels(e, sl, p, n)), n, n + OptCount(e))
  {
    hide Closed, Ids, ExprCode, ExprLabels;
    if e.Some? {
      ExprClosed(e.value, sl, p, n);
      ClosedMore(ExprCode(e.value, sl, n), ExprLabels(e.value, sl, p, n), {}, outer);
    } else {
      ClosedPlain([], outer);
    }
  }

  lemma TestClosed(e: Option<Expr>, sl: Slots, p: nat, n: int, exit: int, outer: set<int>)
    requires exit in outer
    ensures Closed(TestCode(e, sl, n, exit), OptLabels(e, sl, p, n), outer)
  {
    hide Closed, Ids, ExprCode, ExprLabels;
    OptClosed(e, sl, p, n, outer);
    if e.Some? {
      ClosedPlus(ExprCode(e.value, sl, n), ExprLabels(e.value, sl, p, n), [Beqz(exit)], outer);
    }
  }

  lemma {:induction false} StmtClosed(s: Stmt, sl: Slots, p: nat, n: int, t: Targets, inLoop: bool)
    requires JumpsOk(s, inLoop)
    ensures Closed(StmtCode(s, sl, n, t), StmtLabels(s, sl, p, n, t), Outer(t, inLoop))
    ensures Within(Ids(StmtLabels(s, sl, p, n, t)), n, n + StmtCount(s))
    decreases s, 1
  {
    hide Closed, Ids, LiCode, ExprCode, ExprLabels;
    var out := Outer(t, inLoop);
    match s {
      case Block(body) => BlockClosed(body, sl, p, n, t, inLoop);
      case Decl(sym, init) =>
        OptClosed(init, sl, p, n, out);
        if init.Some? {
          ClosedPlus(ExprCode(init.value, sl, n), ExprLabels(init.value, sl, p, n),
                     [Ins(Store(sym.size, A0, FP, Off(sl, sym)))], out);
        }
      case ExprStmt(e) => OptClosed(Some(e), sl, p, n, out);
      case If(_, _, _) => IfClosed(s, sl, p, n, t, inLoop);
      case While(_, _) => WhileClosed(s, sl, p, n, t, inLoop);
      case For(_, _, _, _) => ForClosed(s, sl, p, n, t, inLoop);
      case Return(result) =>
        OptClosed(result, sl, p, n, out);
        if result.Some? {
          ClosedPlus(ExprCode(result.value, sl, n), ExprLabels(result.value, sl, p, n), [Jump(t.ret)], out);
        } else {
          LiUsesNone(A0, 0, out);
          ClosedPlain(LiCode(A0, 0), out);
          ClosedPlus(LiCode(A0, 0), [], [Jump(t.ret)], out);
        }
      case Break => ClosedPlain([Jump(t.brk)], out);
      case Continue => ClosedPlain([Jump(t.cont)], out);
    }
  }

  lemma {:induction false} BlockClosed(body: seq<Stmt>, sl: Slots, p: nat, n: int, t: Targets, inLoop: bool)
    requires BlockJumpsOk(body, inLoop)
    ensures Closed(BlockCode(body, sl, n, t), BlockLabels(body, sl, p, n, t), Outer(t, inLoop))
    ensures Within(Ids(BlockLabels(body, sl, p, n, t)), n, n + BlockCount(body))
    decreases body, 1
  {
    hide Closed, Ids, StmtCode, StmtLabels;
    if body == [] {
      ClosedPlain([], Outer(t, inLoop));
    } else {
      var s, n1 := body[0], n + StmtCount(body[0]);
      var c1 := StmtCode(s, sl, n, t);
      var l1, l2 := StmtLabels(s, sl, p, n, t), BlockLabels(body[1..], sl, p + |c1|, n1, t);
      StmtClosed(s, sl, p, n, t, inLoop);
      BlockClosed(body[1..], sl, p + |c1|, n1, t, inLoop);
      Apart(Ids(l1), Ids(l2), n, n1, n1 + BlockCount(body[1..]));
      ClosedConcat(c1, l1, BlockCode(body[1..], sl, n1, t), l2, Outer(t, inLoop));
    }
  }

  lemma IfClosed(s: Stmt, sl: Slots, p: nat, n: int, t: Targets, inLoop: bool)
    requires s.If? && JumpsOk(s, inLoop)
    ensures Closed(StmtCode(s, sl, n, t), StmtLabels(s, sl, p, n, t), Outer(t, inLoop))
    ensures Within(Ids(StmtLabels(s, sl, p, n, t)), n, n + StmtCount(s))
    decreases s, 0
  {
    hide Closed, Ids, Within, CondShape, CondDefs, IfShape, IfDefs, ExprCode, ExprLabels;
    var n1, out := n + 2 + LabelsOf(s.e), Outer(t, inLoop);
    var n2 := n1 + StmtCount(s.s1);
    var ce, c1 := ExprCode(s.e, sl, n + 2), StmtCode(s.s1, sl, n1, t);
    var p1 := p + |ce| + 1;
    var p2 := p1 + |c1|;
    var le, l1 := ExprLabels(s.e, sl, p, n + 2), StmtLabels(s.s1, sl, p1, n1, t);
    ExprClosed(s.e, sl, p, n + 2);
    StmtClosed(s.s1, sl, p1, n1, t, inLoop);
    if s.s2.Some? {
      var c2 := StmtCode(s.s2.value, sl, n2, t);
      StmtClosed(s.s2.value, sl, p2 + 1, n2, t, inLoop);
      CondShapeClosed(ce, le, c1, l1, c2, StmtLabels(s.s2.value, sl, p2 + 1, n2, t), n, p2 + 1, p2 + 1 + |c2|,
                      out, n1, n2, n2 + StmtCount(s.s2.value));
    } else {
      IfShapeClosed(ce, le, c1, l1, n, p2, out, n1, n2);
    }
  }

  lemma IfShapeClosed(ce: seq<Item>, le: seq<LabelDef>, c1: seq<Item>, l1: seq<LabelDef>, n: int, pe: int,
                      outer: set<int>, n1: int, hi: int)
    requires n + 2 <= n1 <= hi
    requires Closed(ce, le, {}) && Within(Ids(le), n + 2, n1)
    requires Closed(c1, l1, outer) && Within(Ids(l1), n1, hi)
    ensures Closed(IfShape(ce, c1, n), IfDefs(le, l1, n, pe), outer)
    ensures Within(Ids(IfDefs(le, l1, n, pe)), n, hi)
  {
    hide Closed, Ids;
    var l, out := LabelDef(n, 4 * pe), outer + {n};
    ClosedMore(ce, le, {}, out);
    ClosedMore(c1, l1, outer, out);
    ClosedPlus(ce, le, [Beqz(n)], out);
    Apart(Ids(le), Ids(l1), n + 2, n1, hi);
    ClosedConcat(ce + [Beqz(n)], le, c1, l1, out);
    ClosedBind(ce + [Beqz(n)] + c1, le + l1, l, out);
    ClosedMore(ce + [Beqz(n)] + c1, le + l1 + [l], out - {n}, outer);
  }

  lemma WhileClosed(s: Stmt, sl: Slots, p: nat, n: int, t: Targets, inLoop: bool)
    requires s.While? && JumpsOk(s, inLoop)
    ensures Closed(StmtCode(s, sl, n, t), StmtLabels(s, sl, p, n, t), Outer(t, inLoop))
    ensures Within(Ids(StmtLabels(s, sl, p, n, t)), n, n + StmtCount(s))
    decreases s, 0
  {
    hide Closed, Ids, Within, WhileShape, WhileDefs, ExprCode, ExprLabels;
    var n1, t1 := n + 2 + LabelsOf(s.e), Targets(n + 1, n, t.ret);
    var ce, c1 := ExprCode(s.e, sl, n + 2), StmtCode(s.s1, sl, n1, t1);
    var p1 := p + |ce| + 1;
    ExprClosed(s.e, sl, p, n + 2);
    StmtClosed(s.s1, sl, p1, n1, t1, true);
    WhileShapeClosed(ce, ExprLabels(s.e, sl, p, n + 2), c1, StmtLabels(s.s1, sl, p1, n1, t1), n, p,
                     p1 + |c1| + 1, t.ret, n1, n1 + StmtCount(s.s1));
    ClosedMore(StmtCode(s, sl, n, t), StmtLabels(s, sl, p, n, t), {t.ret}, Outer(t, inLoop));
  }

  lemma WhileShapeClosed(ce: seq<Item>, le: seq<LabelDef>, c1: seq<Item>, l1: seq<LabelDef>, n: int, pt: int, pe: int,
                         ret: int, n1: int, hi: int)
    requires n + 2 <= n1 <= hi
    requires Closed(ce, le, {}) && Within(Ids(le), n + 2, n1)
    requires Closed(c1, l1, {ret, n + 1, n}) && Within(Ids(l1), n1, hi)
    ensures Closed(WhileShape(ce, c1, n), WhileDefs(le, l1, n, pt, pe), {ret})
    ensures Within(Ids(WhileDefs(le, l1, n, pt, pe)), n, hi)
  {
    hide Closed, Ids;
    var d0, d1, out := LabelDef(n, 4 * pt), LabelDef(n + 1, 4 * pe), {ret, n + 1, n};
    ClosedPlain([], out);
    ClosedBind([], [], d0, out);
    assert [] + [d0] == [d0] && [] + ce == ce;
    ClosedMore(ce, le, {}, out);
    ClosedConcat([], [d0], ce, le, out);
    ClosedPlus(ce, [d0] + le, [Beqz(n + 1)], out);
    Apart(Ids([d0] + le), Ids(l1), n, n1, hi);
    ClosedConcat(ce + [Beqz(n + 1)], [d0] + le, c1, l1, out);
    ClosedPlus(ce + [Beqz(n + 1)] + c1, [d0] + le + l1, [Jump(n)], out);
    var code, defs := WhileShape(ce, c1, n), [d0] + le + l1;
    ClosedBind(code, defs, d1, out);
    ClosedDrop(code, defs + [d1], n, out);
    ClosedDrop(code, defs + [d1], n + 1, out - {n});
    ClosedMore(code, defs + [d1], out - {n} - {n + 1}, {ret});
  }

  lemma ForClosed(s: Stmt, sl: Slots, p: nat, n: int, t: Targets, inLoop: bool)
    requires s.For? && JumpsOk(s, inLoop)
    ensures Closed(StmtCode(s, sl, n, t), StmtLabels(s, sl, p, n, t), Outer(t, inLoop))
    ensures Within(Ids(StmtLabels(s, sl, p, n, t)), n, n + StmtCount(s))
    decreases s, 0
  {
    hide Closed, Ids, ForShape, ForDefs, ExprCode, ExprLabels, TestCode;
    var t1 := Targets(n + 2, n + 1, t.ret);
    var ni := n + 3 + (if s.init1.Some? then StmtCount(s.init1.value) else 0);
    var n1 := ni + OptCount(s.cond);
    var n2 := n1 + StmtCount(s.s1);
    var ci := if s.init1.Some? then StmtCode(s.init1.value, sl, n + 3, t) else [];
    var li := if s.init1.Some? then StmtLabels(s.init1.value, sl, p, n + 3, t) else [];
    var ct, c1, c2 := TestCode(s.cond, sl, ni, n + 2), StmtCode(s.s1, sl, n1, t1), OptCode(s.step, sl, n2);
    var pt := p + |ci|;
    var p1 := pt + |ct|;
    var p2 := p1 + |c1|;
    var out := Outer(t, inLoop);
    var inner := {t.ret, n + 2, n + 1, n};
    if s.init1.Some? {
      StmtClosed(s.init1.value, sl, p, n + 3, t, inLoop);
    } else {
      ClosedPlain([], out);
    }
    OptClosed(s.cond, sl, pt, ni, inner);
    TestClosed(s.cond, sl, pt, ni, n + 2, inner);
    StmtClosed(s.s1, sl, p1, n1, t1, true);
    ClosedMore(c1, StmtLabels(s.s1, sl, p1, n1, t1), {t.ret, n + 2, n + 1}, inner);
    OptClosed(s.step, sl, p2, n2, inner);
    ForShapeClosed(ci, li, ct, OptLabels(s.cond, sl, pt, ni), c1, StmtLabels(s.s1, sl, p1, n1, t1),
                   c2, OptLabels(s.step, sl, p2, n2), n, pt, p2, p2 + |c2| + 1, t.ret, out, ni, n1, n2,
                   n2 + OptCount(s.step));
  }

  lemma ForShapeClosed(ci: seq<Item>, li: seq<LabelDef>, ct: seq<Item>, lt: seq<LabelDef>,
                       c1: seq<Item>, l1: seq<LabelDef>, c2: seq<Item>, l2: seq<LabelDef>,
                       n: int, pt: int, p2: int, pe: int, ret: int, outer: set<int>,
                       ni: int, n1: int, n2: int, hi: int)
    requires n + 3 <= ni <= n1 <= n2 <= hi && ret in outer
    requires Closed(ci, li, outer) && Within(Ids(li), n + 3, ni)
    requires Closed(ct, lt, {ret, n + 2, n + 1, n}) && Within(Ids(lt), ni, n1)
    requires Closed(c1, l1, {ret, n + 2, n + 1, n}) && Within(Ids(l1), n1, n2)
    requires Closed(c2, l2, {ret, n + 2, n + 1, n}) && Within(Ids(l2), n2, hi)
    ensures Closed(ForShape(ci, ct, c1, c2, n), ForDefs(li, lt, l1, l2, n, pt, p2, pe), outer)
    ensures Within(Ids(ForDefs(li, lt, l1, l2, n, pt, p2, pe)), n, hi)
  {
    hide Closed, Ids;
    var d0, d1, d2 := LabelDef(n, 4 * pt), LabelDef(n + 1, 4 * p2), LabelDef(n + 2, 4 * pe);
    var inner, out := {ret, n + 2, n + 1, n}, outer + {n + 2, n + 1, n};
    ClosedMore(ci, li, outer, out);
    ClosedMore(ct, lt, inner, out);
    ClosedMore(c1, l1, inner, out);
    ClosedMore(c2, l2, inner, out);
    ClosedBind(ci, li, d0, out);
    Apart(Ids(li + [d0]), Ids(lt), n, ni, n1);
    ClosedConcat(ci, li + [d0], ct, lt, out);
    Apart(Ids(li + [d0] + lt), Ids(l1), n, n1, n2);
    ClosedConcat(ci + ct, li + [d0] + lt, c1, l1, out);
    var x := li + [d0] + lt + l1;
    ClosedBind(ci + ct + c1, x, d1, out);
    Apart(Ids(x + [d1]), Ids(l2), n, n2, hi);
    ClosedConcat(ci + ct + c1, x + [d1], c2, l2, out);
    ClosedPlus(ci + ct + c1 + c2, x + [d1] + l2, [Jump(n)], out);
    var code, defs := ForShape(ci, ct, c1, c2, n), x + [d1] + l2 + [d2];
    ClosedBind(code, x + [d1] + l2, d2, out);
    ClosedDrop(code, defs, n, out);
    ClosedDrop(code, defs, n + 1, out - {n});
    ClosedDrop(code, defs, n + 2, out - {n} - {n + 1});
    ClosedMore(code, defs, out - {n} - {n + 1} - {n + 2}, outer);
  }
}
