/** The generator object: it appends to its vectors exactly what LccCode says. */
module LccCodeGen {
  import opened Prelude
  import opened Rv64
  import opened RvMachine
  import opened MiniC
  import opened LccCode
  import opened LccText
  import opened LccLabels
  import opened LccGen

  const MAX_LOOPS: nat := 128

  function LoopNest(s: Stmt): nat {
    match s
    case Block(body) => BlockNest(body)
    case If(_, s1, s2) =>
      var a, b := LoopNest(s1), if s2.Some? then LoopNest(s2.value) else 0;
      if a < b then b else a
    case While(_, s1) => 1 + LoopNest(s1)
    case For(init, _, _, s1) =>
      var a, b := 1 + LoopNest(s1), if init.Some? then LoopNest(init.value) else 0;
      if a < b then b else a
    case _ => 0
  }

  function BlockNest(body: seq<Stmt>): nat {
    if body == [] then 0 else
    var a, b := LoopNest(body[0]), BlockNest(body[1..]);
    if a < b then b else a
  }

  class CodeGen {
    var text: seq<int>
    var labels: seq<LabelDef>
    var fixes: seq<Fix>
    var nextLabel: int
    var loopBreak: seq<int>
    var loopContinue: seq<int>
    var returnLabel: int
    var slots: Slots

    constructor ()
      ensures Valid() && View() == Out([], [], [], 0) && slots == map[]
    {
      text, labels, fixes, nextLabel := [], [], [], 0;
      loopBreak, loopContinue, returnLabel, slots := [], [], -1, map[];
    }

    ghost predicate Valid()
      reads this
    {
      |text| % 4 == 0 && |loopBreak| == |loopContinue| <= MAX_LOOPS
    }

    ghost function View(): (o: Out)
      reads this
    {
      Out(Words(text), labels, fixes, nextLabel)
    }

    /** Where `break`, `continue` and `return` go at this point. */
    function Here(): Targets
      reads this
    {
      if |loopBreak| == 0 || |loopContinue| == 0 then Targets(-1, -1, returnLabel)
      else Targets(loopBreak[|loopBreak| - 1], loopContinue[|loopContinue| - 1], returnLabel)
    }

    // ----- single words, labels, fix-ups -----

    method Emit32(x: int)
      requires Valid() && IsWord32(x)
      modifies `text
      ensures Valid() && View() == old(View()).(words := old(View()).words + [x])
    {
      WordsAppend(text, x);
      text := text + Wr32(x);
    }

    method Emit(i: Instr)
      requires Valid()
      modifies `text
      ensures Valid() && View() == Append(old(View()), [Ins(i)], [], 0)
    {
      hide Encode, Append, IsWord32, Words;
      ghost var v := View();
      EncodeIsWord(i);
      Emit32(Encode(i));
      AppendIns(v, i);
    }

    method NewLabel() returns (id: int)
      requires Valid()
      modifies `nextLabel
      ensures Valid() && id == old(nextLabel) && nextLabel == id + 1
      ensures View() == Append(old(View()), [], [], 1)
    {
      ghost var v := View();
      AppendNew(v, 1);
      id := nextLabel;
      nextLabel := nextLabel + 1;
    }

    /** Binds a label to the current offset. */
    method Bind(id: int)
      requires Valid()
      modifies `labels
      ensures Valid()
      ensures View() == Append(old(View()), [], [LabelDef(id, 4 * |old(View()).words|)], 0)
    {
      ghost var v := View();
      AppendDef(v, LabelDef(id, |text|));
      labels := labels + [LabelDef(id, |text|)];
    }

    /** Records a fix-up and emits the unresolved branch or jump. */
    method EmitBranch(it: Item)
      requires Valid() && !it.Ins?
      modifies `text, `fixes
      ensures Valid() && View() == Append(old(View()), [it], [], 0)
    {
      hide Append, Words;
      ghost var v := View();
      AppendBranch(v, it);
      TemplateIsWord(it);
      fixes := fixes + [Fix(|text|, it.lab, if it.Jump? then 1 else if it.Beqz? then 2 else 3)];
      Emit32(if it.Jump? then RvJ(0, 0) else RvB(0, 0, 10, if it.Beqz? then 0 else 1));
    }

    method PushReg(r: Reg)
      requires Valid()
      modifies `text
      ensures Valid() && View() == Append(old(View()), Push(r), [], 0)
    {
      hide Append;
      ghost var v := View();
      Emit(I(ADDI, SP, SP, -8));
      Emit(Store(8, r, SP, 0));
      AppendPlus(v, [Ins(I(ADDI, SP, SP, -8))], [], 0, [Ins(Store(8, r, SP, 0))]);
      assert Push(r) == [Ins(I(ADDI, SP, SP, -8))] + [Ins(Store(8, r, SP, 0))];
    }

    method PopReg(r: Reg)
      requires Valid()
      modifies `text
      ensures Valid() && View() == Append(old(View()), Pop(r), [], 0)
    {
      hide Append;
      ghost var v := View();
      Emit(Load(8, r, SP, 0));
      Emit(I(ADDI, SP, SP, 8));
      AppendPlus(v, [Ins(Load(8, r, SP, 0))], [], 0, [Ins(I(ADDI, SP, SP, 8))]);
      assert Pop(r) == [Ins(Load(8, r, SP, 0))] + [Ins(I(ADDI, SP, SP, 8))];
    }

    method EmitLi(rd: Reg, x: int)
      requires Valid()
      modifies `text
      ensures Valid() && View() == Append(old(View()), LiCode(rd, x), [], 0)
      decreases Magnitude(x)
    {
      hide Append;
      ghost var v := View();
      if -2048 <= x <= 2047 {
        Emit(I(ADDI, rd, ZERO, x));
      } else {
        var hi := x / 4096;
        var lo := x - hi * 4096;
        EmitLi(rd, hi);
        Emit(I(SLLI, rd, rd, 12));
        AppendPlus(v, LiCode(rd, hi), [], 0, [Ins(I(SLLI, rd, rd, 12))]);
        if lo != 0 {
          EmitRaw(RvI(lo, rd, 0, rd, 0x13), I(ADDI, rd, rd, LowDigit(x)));
          AppendPlus(v, LiCode(rd, hi) + [Ins(I(SLLI, rd, rd, 12))], [], 0, [Ins(I(ADDI, rd, rd, LowDigit(x)))]);
        } else {
          assert LiCode(rd, x) == LiCode(rd, hi) + [Ins(I(SLLI, rd, rd, 12))];
        }
      }
    }

    /** A word whose immediate the encoder truncated. */
    method EmitRaw(x: int, ghost i: Instr)
      requires Valid() && x == Encode(i)
      modifies `text
      ensures Valid() && View() == Append(old(View()), [Ins(i)], [], 0)
    {
      hide Encode, Append, IsWord32, Words;
      ghost var v := View();
      EncodeIsWord(i);
      Emit32(x);
      AppendIns(v, i);
    }

    // ----- expressions -----

    method EmitOp(op: BinOp)
      requires Valid()
      modifies `text
      ensures Valid() && View() == Append(old(View()), OpCode(op), [], 0)
    {
      hide Append;
      ghost var v := View();
      match op {
        case Add => Emit(R(ADD, A0, T0, A0));
        case Sub => Emit(R(SUB, A0, T0, A0));
        case Mul => Emit(R(MUL, A0, T0, A0));
        case Div => Emit(R(DIV, A0, T0, A0));
        case Mod => Emit(R(REM, A0, T0, A0));
        case BAnd => Emit(R(AND, A0, T0, A0));
        case BOr => Emit(R(OR, A0, T0, A0));
        case BXor => Emit(R(XOR, A0, T0, A0));
        case Shl => Emit(R(SLL, A0, T0, A0));
        case Shr => Emit(R(SRL, A0, T0, A0));
        case Lt => Emit(R(SLT, A0, T0, A0));
        case Gt => Emit(R(SLT, A0, A0, T0));
        case Le => EmitTwo(R(SLT, A0, A0, T0), I(XORI, A0, A0, 1));
        case Ge => EmitTwo(R(SLT, A0, T0, A0), I(XORI, A0, A0, 1));
        case Eq => EmitTwo(R(XOR, A0, T0, A0), I(SLTIU, A0, A0, 1));
        case Ne => EmitTwo(R(XOR, A0, T0, A0), R(SLTU, A0, ZERO, A0));
      }
    }

    method EmitTwo(i: Instr, j: Instr)
      requires Valid()
      modifies `text
      ensures Valid() && View() == Append(old(View()), [Ins(i), Ins(j)], [], 0)
    {
      hide Append;
      ghost var v := View();
      Emit(i);
      Emit(j);
      AppendPlus(v, [Ins(i)], [], 0, [Ins(j)]);
      assert [Ins(i)] + [Ins(j)] == [Ins(i), Ins(j)];
    }

    method GenUnary(op: UnOp)
      requires Valid()
      modifies `text
      ensures Valid() && View() == Append(old(View()), UnaryCode(op), [], 0)
    {
      AppendNothing(View());
      hide Append;
      match op {
        case Plus =>
        case Minus => Emit(R(SUB, A0, ZERO, A0));
        case Not => Emit(I(SLTIU, A0, A0, 1));
        case Compl => Emit(I(XORI, A0, A0, -1));
      }
    }

    method GenExpr(e: Expr)
      requires Valid()
      modifies `text, `labels, `fixes, `nextLabel
      ensures Valid()
      ensures View() == Append(old(View()), ExprCode(e, slots, old(nextLabel)),
                               ExprLabels(e, slots, |old(View()).words|, old(nextLabel)), LabelsOf(e))
      ensures nextLabel == old(nextLabel) + LabelsOf(e)
      decreases e, 1
    {
      AppendSize(View(), ExprCode(e, slots, nextLabel), ExprLabels(e, slots, |View().words|, nextLabel), LabelsOf(e));
      hide Append, Words, LiCode, BinaryShape, AssignShape, ShortShape, CondShape, ShortDefs, CondDefs, UnaryCode;
      ghost var v, n := View(), nextLabel;
      match e {
        case Int(x) => EmitLi(A0, x);
        case Var(s) => Emit(Load(s.size, A0, FP, Off(slots, s)));
        case Unary(op, a) =>
          GenExpr(a);
          GenUnary(op);
          AppendPlus(v, ExprCode(a, slots, n), ExprLabels(a, slots, |v.words|, n), LabelsOf(a), UnaryCode(op));
        case Binary(_, _, _) => GenBinary(e);
        case LogAnd(_, _) => GenShort(e);
        case LogOr(_, _) => GenShort(e);
        case Assign(_, _) => GenAssign(e);
        case Cond(_, _, _) => GenCond(e);
      }
    }

    method GenBinary(e: Expr)
      requires Valid() && e.Binary?
      modifies `text, `labels, `fixes, `nextLabel
      ensures Valid()
      ensures View() == Append(old(View()), ExprCode(e, slots, old(nextLabel)),
                               ExprLabels(e, slots, |old(View()).words|, old(nextLabel)), LabelsOf(e))
      ensures nextLabel == old(nextLabel) + LabelsOf(e)
      decreases e, 0
    {
      hide Append, ExprCode, ExprLabels, OpCode, View, Valid, LabelsOf;
      ghost var v, n := View(), nextLabel;
      ghost var p, nb := |v.words|, n + LabelsOf(e.a);
      ghost var ca, la := ExprCode(e.a, slots, n), ExprLabels(e.a, slots, p, n);
      ghost var cb, lb := ExprCode(e.b, slots, nb), ExprLabels(e.b, slots, p + |ca| + 2, nb);
      BinaryUnfold(e, slots, p, n);
      GenExpr(e.a);
      AppendSize(v, ca, la, LabelsOf(e.a));
      PushReg(A0);
      AppendPlus(v, ca, la, LabelsOf(e.a), Push(A0));
      AppendSize(v, ca + Push(A0), la, LabelsOf(e.a));
      GenExpr(e.b);
      AppendAppend(v, ca + Push(A0), la, LabelsOf(e.a), cb, lb, LabelsOf(e.b));
      PopReg(T0);
      AppendPlus(v, ca + Push(A0) + cb, la + lb, LabelsOf(e), Pop(T0));
      EmitOp(e.bop);
      AppendPlus(v, ca + Push(A0) + cb + Pop(T0), la + lb, LabelsOf(e), OpCode(e.bop));
    }

    method GenAssign(e: Expr)
      requires Valid() && e.Assign?
      modifies `text, `labels, `fixes, `nextLabel
      ensures Valid()
      ensures View() == Append(old(View()), ExprCode(e, slots, old(nextLabel)),
                               ExprLabels(e, slots, |old(View()).words|, old(nextLabel)), LabelsOf(e))
      ensures nextLabel == old(nextLabel) + LabelsOf(e)
      decreases e, 0
    {
      hide Append, View, Valid;
      ghost var v, n := View(), nextLabel;
      ghost var p, k := |v.words|, LabelsOf(e.b);
      ghost var cb, lb := ExprCode(e.b, slots, n), ExprLabels(e.b, slots, p + 3, n);
      var addr, st := I(ADDI, A0, FP, Off(slots, e.sym)), Store(e.sym.size, A0, T0, 0);
      ghost var pre := [Ins(addr)] + Push(A0);
      Emit(addr);
      PushReg(A0);
      AppendPlus(v, [Ins(addr)], [], 0, Push(A0));
      AppendSize(v, pre, [], 0);
      GenExpr(e.b);
      AppendAppend(v, pre, [], 0, cb, lb, k);
      assert [] + lb == lb;
      PopReg(T0);
      AppendPlus(v, pre + cb, lb, k, Pop(T0));
      Emit(st);
      AppendPlus(v, pre + cb + Pop(T0), lb, k, [Ins(st)]);
    }

    method GenShort(e: Expr)
      requires Valid() && (e.LogAnd? || e.LogOr?)
      modifies `text, `labels, `fixes, `nextLabel
      ensures Valid()
      ensures View() == Append(old(View()), ExprCode(e, slots, old(nextLabel)),
                               ExprLabels(e, slots, |old(View()).words|, old(nextLabel)), LabelsOf(e))
      ensures nextLabel == old(nextLabel) + LabelsOf(e)
      decreases e, 0
    {
      hide Append, ExprCode, ExprLabels, LiCode, ShortShape, ShortDefs, View, Valid, LabelsOf;
      ghost var v, n := View(), nextLabel;
      ghost var p, nb := |v.words|, n + 2 + LabelsOf(e.a);
      ghost var ca, cb := ExprCode(e.a, slots, n + 2), ExprCode(e.b, slots, nb);
      ghost var la, lb := ExprLabels(e.a, slots, p, n + 2), ExprLabels(e.b, slots, p + |ca| + 1, nb);
      ShortUnfold(e, slots, p, n);
      var x := if e.LogAnd? then 1 else 0;
      ghost var br := if e.LogAnd? then Beqz(n) else Bnez(n);
      ShortAppend(v, ca, la, LabelsOf(e.a), cb, lb, LabelsOf(e.b), br, 1 - x, n);
      var lx := NewLabel();
      var le := NewLabel();
      GenExpr(e.a);
      EmitBranch(if e.LogAnd? then Beqz(lx) else Bnez(lx));
      GenExpr(e.b);
      EmitBranch(if e.LogAnd? then Beqz(lx) else Bnez(lx));
      EmitLi(A0, x);
      EmitBranch(Jump(le));
      Bind(lx);
      EmitLi(A0, 1 - x);
      Bind(le);
    }

    method GenCond(e: Expr)
      requires Valid() && e.Cond?
      modifies `text, `labels, `fixes, `nextLabel
      ensures Valid()
      ensures View() == Append(old(View()), ExprCode(e, slots, old(nextLabel)),
                               ExprLabels(e, slots, |old(View()).words|, old(nextLabel)), LabelsOf(e))
      ensures nextLabel == old(nextLabel) + LabelsOf(e)
      decreases e, 0
    {
      hide Append, ExprCode, ExprLabels, CondShape, CondDefs, View, Valid, LabelsOf;
      ghost var v, n := View(), nextLabel;
      ghost var p, nb, nc := |v.words|, n + 2 + LabelsOf(e.a), n + 2 + LabelsOf(e.a) + LabelsOf(e.b);
      ghost var ca, cb, cc := ExprCode(e.a, slots, n + 2), ExprCode(e.b, slots, nb), ExprCode(e.c, slots, nc);
      ghost var la, lb := ExprLabels(e.a, slots, p, n + 2), ExprLabels(e.b, slots, p + |ca| + 1, nb);
      ghost var lc := ExprLabels(e.c, slots, p + |ca| + 1 + |cb| + 1, nc);
      CondUnfold(e, slots, p, n);
      CondAppend(v, ca, la, LabelsOf(e.a), cb, lb, LabelsOf(e.b), cc, lc, LabelsOf(e.c), n);
      var ln := NewLabel();
      var le := NewLabel();
      ghost var v2 := View();
      GenExpr(e.a);
      EmitBranch(Beqz(ln));
      ghost var v4 := View();
      assert v4 == Append(Append(v2, ca, la, LabelsOf(e.a)), [Beqz(n)], [], 0);
      GenExpr(e.b);
      EmitBranch(Jump(le));
      ghost var v6 := View();
      assert v6 == Append(Append(v4, cb, lb, LabelsOf(e.b)), [Jump(n + 1)], [], 0);
      Bind(ln);
      ghost var v7 := View();
      GenExpr(e.c);
      assert View() == Append(v7, cc, lc, LabelsOf(e.c));
      Bind(le);
    }
  
    // ----- statements -----

    method EnterLoop(brk: int, cont: int)
      requires Valid() && |loopBreak| < MAX_LOOPS
      modifies `loopBreak, `loopContinue
      ensures Valid() && View() == old(View()) && Here() == Targets(brk, cont, returnLabel)
      ensures loopBreak == old(loopBreak) + [brk] && loopContinue == old(loopContinue) + [cont]
    {
      loopBreak, loopContinue := loopBreak + [brk], loopContinue + [cont];
    }

    method LeaveLoop()
      requires Valid() && |loopBreak| > 0
      modifies `loopBreak, `loopContinue
      ensures Valid() && View() == old(View())
      ensures loopBreak == old(loopBreak)[..|old(loopBreak)| - 1]
      ensures loopContinue == old(loopContinue)[..|old(loopContinue)| - 1]
    {
      loopBreak, loopContinue := loopBreak[..|loopBreak| - 1], loopContinue[..|loopContinue| - 1];
    }

    method GenStmt(s: Stmt)
      requires Valid() && |loopBreak| + LoopNest(s) <= MAX_LOOPS
      modifies `text, `labels, `fixes, `nextLabel, `loopBreak, `loopContinue
      ensures Valid() && loopBreak == old(loopBreak) && loopContinue == old(loopContinue)
      ensures View() == Append(old(View()), StmtCode(s, slots, old(nextLabel), old(Here())),
                               StmtLabels(s, slots, |old(View()).words|, old(nextLabel), old(Here())), StmtCount(s))
      ensures nextLabel == old(nextLabel) + StmtCount(s)
      decreases s, 1
    {
      AppendNothing(View());
      hide Append, ExprCode, ExprLabels, LabelsOf, LiCode, View, Words;
      hide CondShape, CondDefs, IfShape, IfDefs, WhileShape, WhileDefs, ForShape, ForDefs;
      ghost var v, n, t, p := View(), nextLabel, Here(), |View().words|;
      match s {
        case Block(body) => GenBlock(body);
        case Decl(sym, init) =>
          if init.Some? {
            GenExpr(init.value);
            var st := Store(sym.size, A0, FP, Off(slots, sym));
            Emit(st);
            AppendPlus(v, ExprCode(init.value, slots, n), ExprLabels(init.value, slots, p, n),
                       LabelsOf(init.value), [Ins(st)]);
          }
        case ExprStmt(e) => GenExpr(e);
        case If(_, _, _) => GenIf(s);
        case While(_, _) => GenWhile(s);
        case For(_, _, _, _) => GenFor(s);
        case Return(result) =>
          if result.Some? {
            GenExpr(result.value);
            EmitBranch(Jump(returnLabel));
            AppendPlus(v, ExprCode(result.value, slots, n), ExprLabels(result.value, slots, p, n),
                       LabelsOf(result.value), [Jump(returnLabel)]);
          } else {
            EmitLi(A0, 0);
            EmitBranch(Jump(returnLabel));
            AppendPlus(v, LiCode(A0, 0), [], 0, [Jump(returnLabel)]);
          }
        case Break =>
          EmitBranch(Jump(if |loopBreak| != 0 then loopBreak[|loopBreak| - 1] else -1));
        case Continue =>
          EmitBranch(Jump(if |loopBreak| != 0 then loopContinue[|loopContinue| - 1] else -1));
      }
    }

    method GenBlock(body: seq<Stmt>)
      requires Valid() && |loopBreak| + BlockNest(body) <= MAX_LOOPS
      modifies `text, `labels, `fixes, `nextLabel, `loopBreak, `loopContinue
      ensures Valid() && loopBreak == old(loopBreak) && loopContinue == old(loopContinue)
      ensures View() == Append(old(View()), BlockCode(body, slots, old(nextLabel), old(Here())),
                               BlockLabels(body, slots, |old(View()).words|, old(nextLabel), old(Here())),
                                   BlockCount(body))
      ensures nextLabel == old(nextLabel) + BlockCount(body)
      decreases body, 0
    {
      hide Append, View, StmtCode, StmtLabels, StmtCount;
      ghost var v, n, t, p := View(), nextLabel, Here(), |View().words|;
      ghost var all := Append(v, BlockCode(body, slots, n, t), BlockLabels(body, slots, p, n, t), BlockCount(body));
      var i := 0;
      assert body[0..] == body;
      while i < |body|
        invariant 0 <= i <= |body| && Valid()
        invariant loopBreak == old(loopBreak) && loopContinue == old(loopContinue)
        invariant |loopBreak| + BlockNest(body[i..]) <= MAX_LOOPS
        invariant nextLabel + BlockCount(body[i..]) == n + BlockCount(body)
        invariant Append(View(), BlockCode(body[i..], slots, nextLabel, t),
                         BlockLabels(body[i..], slots, |View().words|, nextLabel, t), BlockCount(body[i..])) == all
      {
        ghost var v1, n1, p1, s, rest := View(), nextLabel, |View().words|, body[i], body[i + 1..];
        assert body[i..][0] == s && body[i..][1..] == rest;
        GenStmt(body[i]);
        ghost var c1, l1, k1 := StmtCode(s, slots, n1, t), StmtLabels(s, slots, p1, n1, t), StmtCount(s);
        AppendSize(v1, c1, l1, k1);
        AppendAppend(v1, c1, l1, k1, BlockCode(rest, slots, n1 + k1, t),
                     BlockLabels(rest, slots, p1 + |c1|, n1 + k1, t), BlockCount(rest));
        i := i + 1;
      }
      assert body[i..] == [];
      AppendNothing(View());
    }

    method GenIf(s: Stmt)
      requires Valid() && s.If? && |loopBreak| + LoopNest(s) <= MAX_LOOPS
      modifies `text, `labels, `fixes, `nextLabel, `loopBreak, `loopContinue
      ensures Valid() && loopBreak == old(loopBreak) && loopContinue == old(loopContinue)
      ensures View() == Append(old(View()), StmtCode(s, slots, old(nextLabel), old(Here())),
                               StmtLabels(s, slots, |old(View()).words|, old(nextLabel), old(Here())), StmtCount(s))
      ensures nextLabel == old(nextLabel) + StmtCount(s)
      decreases s, 0
    {
      hide Append, View, StmtCode, StmtLabels, StmtCount, ExprCode, ExprLabels, LabelsOf;
      hide CondShape, CondDefs, IfShape, IfDefs, Valid;
      ghost var v, n, t, p := View(), nextLabel, Here(), |View().words|;
      ghost var n1, ke := n + 2 + LabelsOf(s.e), LabelsOf(s.e);
      ghost var ce, c1, k1 := ExprCode(s.e, slots, n + 2), StmtCode(s.s1, slots, n1, t), StmtCount(s.s1);
      ghost var p1 := p + |ce| + 1;
      ghost var le, l1 := ExprLabels(s.e, slots, p, n + 2), StmtLabels(s.s1, slots, p1, n1, t);
      IfUnfold(s, slots, p, n, t);
      var ln := NewLabel();
      var lx := NewLabel();
      ghost var v2 := View();
      NewAppend(v, ce, le, ke);
      GenExpr(s.e);
      EmitBranch(Beqz(ln));
      ghost var v4 := View();
      assert v4 == Append(Append(v2, ce, le, ke), [Beqz(n)], [], 0);
      if s.s2.Some? {
        ghost var n2 := n1 + k1;
        ghost var c2, l2, k2 := StmtCode(s.s2.value, slots, n2, t),
                                StmtLabels(s.s2.value, slots, p1 + |c1| + 1, n2, t), StmtCount(s.s2.value);
        CondAppend(v, ce, le, ke, c1, l1, k1, c2, l2, k2, n);
        GenStmt(s.s1);
        EmitBranch(Jump(lx));
        ghost var v6 := View();
        assert v6 == Append(Append(v4, c1, l1, k1), [Jump(n + 1)], [], 0);
        Bind(ln);
        ghost var v7 := View();
        GenStmt(s.s2.value);
        assert View() == Append(v7, c2, l2, k2);
        Bind(lx);
      } else {
        IfAppend(v, ce, le, ke, c1, l1, k1, n);
        GenStmt(s.s1);
        assert View() == Append(v4, c1, l1, k1);
        Bind(ln);
      }
    }

    /** The body of a loop, with its labels on the loop stack. */
    method GenLoopBody(s: Stmt, brk: int, cont: int)
      requires Valid() && |loopBreak| + 1 + LoopNest(s) <= MAX_LOOPS
      modifies `text, `labels, `fixes, `nextLabel, `loopBreak, `loopContinue
      ensures Valid() && loopBreak == old(loopBreak) && loopContinue == old(loopContinue)
      ensures var t := Targets(brk, cont, returnLabel);
              View() == Append(old(View()), StmtCode(s, slots, old(nextLabel), t),
                               StmtLabels(s, slots, |old(View()).words|, old(nextLabel), t), StmtCount(s))
      ensures nextLabel == old(nextLabel) + StmtCount(s)
      decreases s, 2
    {
      hide Append, View, StmtCode, StmtLabels, StmtCount;
      EnterLoop(brk, cont);
      GenStmt(s);
      LeaveLoop();
    }

    method GenWhile(s: Stmt)
      requires Valid() && s.While? && |loopBreak| + LoopNest(s) <= MAX_LOOPS
      modifies `text, `labels, `fixes, `nextLabel, `loopBreak, `loopContinue
      ensures Valid() && loopBreak == old(loopBreak) && loopContinue == old(loopContinue)
      ensures View() == Append(old(View()), StmtCode(s, slots, old(nextLabel), old(Here())),
                               StmtLabels(s, slots, |old(View()).words|, old(nextLabel), old(Here())), StmtCount(s))
      ensures nextLabel == old(nextLabel) + StmtCount(s)
      decreases s, 0
    {
      hide Append, View, StmtCode, StmtLabels, StmtCount, ExprCode, ExprLabels, LabelsOf, WhileShape, WhileDefs, Valid;
      ghost var v, n, t, p := View(), nextLabel, Here(), |View().words|;
      ghost var t1, n1, ke := Targets(n + 1, n, t.ret), n + 2 + LabelsOf(s.e), LabelsOf(s.e);
      ghost var ce, c1, k1 := ExprCode(s.e, slots, n + 2), StmtCode(s.s1, slots, n1, t1), StmtCount(s.s1);
      ghost var le, l1 := ExprLabels(s.e, slots, p, n + 2), StmtLabels(s.s1, slots, p + |ce| + 1, n1, t1);
      WhileUnfold(s, slots, p, n, t);
      WhileAppend(v, ce, le, ke, c1, l1, k1, n);
      var lc := NewLabel();
      var lx := NewLabel();
      Bind(lc);
      ghost var v3 := View();
      GenExpr(s.e);
      EmitBranch(Beqz(lx));
      ghost var v5 := View();
      assert v5 == Append(Append(v3, ce, le, ke), [Beqz(n + 1)], [], 0);
      GenLoopBody(s.s1, lx, lc);
      assert View() == Append(v5, c1, l1, k1);
      EmitBranch(Jump(lc));
      Bind(lx);
    }

    method GenFor(s: Stmt)
      requires Valid() && s.For? && |loopBreak| + LoopNest(s) <= MAX_LOOPS
      modifies `text, `labels, `fixes, `nextLabel, `loopBreak, `loopContinue
      ensures Valid() && loopBreak == old(loopBreak) && loopContinue == old(loopContinue)
      ensures View() == Append(old(View()), StmtCode(s, slots, old(nextLabel), old(Here())),
                               StmtLabels(s, slots, |old(View()).words|, old(nextLabel), old(Here())), StmtCount(s))
      ensures nextLabel == old(nextLabel) + StmtCount(s)
      decreases s, 0
    {
      hide Append, View, StmtCode, StmtLabels, StmtCount, ExprCode, ExprLabels, LabelsOf, ForShape, ForDefs, Valid;
      hide TestCode, OptCode, OptLabels, OptCount, InitCode, InitLabels, InitCount;
      ghost var v, n, t, p := View(), nextLabel, Here(), |View().words|;
      ghost var t1, ki, kt, k1, k2 := Targets(n + 2, n + 1, t.ret), InitCount(s.init1), OptCount(s.cond),
          StmtCount(s.s1), OptCount(s.step);
      ghost var ni := n + 3 + ki;
      ghost var n1 := ni + kt;
      ghost var n2 := n1 + k1;
      ghost var ci, ct := InitCode(s.init1, slots, n + 3, t), TestCode(s.cond, slots, ni, n + 2);
      ghost var c1, c2 := StmtCode(s.s1, slots, n1, t1), OptCode(s.step, slots, n2);
      ghost var pt := p + |ci|;
      ghost var p1 := pt + |ct|;
      ghost var p2 := p1 + |c1|;
      ghost var li, lt := InitLabels(s.init1, slots, p, n + 3, t), OptLabels(s.cond, slots, pt, ni);
      ghost var l1, l2 := StmtLabels(s.s1, slots, p1, n1, t1), OptLabels(s.step, slots, p2, n2);
      ForUnfold(s, slots, p, n, t);
      ForAppend(v, ci, li, ki, ct, lt, kt, c1, l1, k1, c2, l2, k2, n);
      var lc := NewLabel();
      var ls := NewLabel();
      var lx := NewLabel();
      ghost var v3 := View();
      GenInit(s.init1);
      assert View() == Append(v3, ci, li, ki);
      Bind(lc);
      ghost var v5 := View();
      GenTest(s.cond, lx);
      ghost var v6 := View();
      assert v6 == Append(v5, ct, lt, kt);
      GenLoopBody(s.s1, lx, ls);
      assert View() == Append(v6, c1, l1, k1);
      Bind(ls);
      ghost var v8 := View();
      GenOpt(s.step);
      assert View() == Append(v8, c2, l2, k2);
      EmitBranch(Jump(lc));
      Bind(lx);
    }

    method GenInit(s: Option<Stmt>)
      requires Valid() && (s.Some? ==> |loopBreak| + LoopNest(s.value) <= MAX_LOOPS)
      modifies `text, `labels, `fixes, `nextLabel, `loopBreak, `loopContinue
      ensures Valid() && loopBreak == old(loopBreak) && loopContinue == old(loopContinue)
      ensures View() == Append(old(View()), InitCode(s, slots, old(nextLabel), old(Here())),
                               InitLabels(s, slots, |old(View()).words|, old(nextLabel), old(Here())), InitCount(s))
      ensures nextLabel == old(nextLabel) + InitCount(s)
      decreases s, 2
    {
      AppendNothing(View());
      hide Append, View, StmtCode, StmtLabels, StmtCount;
      if s.Some? { GenStmt(s.value); }
    }

    method GenOpt(e: Option<Expr>)
      requires Valid()
      modifies `text, `labels, `fixes, `nextLabel
      ensures Valid()
      ensures View() == Append(old(View()), OptCode(e, slots, old(nextLabel)),
                               OptLabels(e, slots, |old(View()).words|, old(nextLabel)), OptCount(e))
      ensures nextLabel == old(nextLabel) + OptCount(e)
    {
      AppendNothing(View());
      hide Append, View, ExprCode, ExprLabels, LabelsOf;
      if e.Some? { GenExpr(e.value); }
    }

    method GenTest(e: Option<Expr>, exit: int)
      requires Valid()
      modifies `text, `labels, `fixes, `nextLabel
      ensures Valid()
      ensures View() == Append(old(View()), TestCode(e, slots, old(nextLabel), exit),
                               OptLabels(e, slots, |old(View()).words|, old(nextLabel)), OptCount(e))
      ensures nextLabel == old(nextLabel) + OptCount(e)
    {
      AppendNothing(View());
      hide Append, View, ExprCode, ExprLabels, LabelsOf;
      if e.Some? {
        ghost var v, n := View(), nextLabel;
        GenExpr(e.value);
        EmitBranch(Beqz(exit));
        AppendPlus(v, ExprCode(e.value, slots, n), ExprLabels(e.value, slots, |v.words|, n), LabelsOf(e.value),
            [Beqz(exit)]);
      }
    }
  
    // ----- stack slots -----

    method AssignLocals(s: Stmt, slot: nat) returns (slot': nat)
      modifies `slots
      ensures slots == Assigned(old(slots), Decls(s), slot) && slot' == slot + |Decls(s)|
      decreases s, 0
    {
      ghost var sl := slots;
      slot' := slot;
      match s {
        case Decl(sym, _) =>
          slots := slots[sym := SlotOff(slot)];
          slot' := slot + 1;
          assert [sym][1..] == [];
        case Block(body) => slot' := AssignBlock(body, slot);
        case If(_, s1, s2) =>
          slot' := AssignLocals(s1, slot);
          if s2.Some? {
            slot' := AssignLocals(s2.value, slot');
            AssignedConcat(sl, Decls(s1), Decls(s2.value), slot);
          } else {
            assert Decls(s1) + [] == Decls(s1);
          }
        case While(_, s1) => slot' := AssignLocals(s1, slot);
        case For(init, _, _, s1) =>
          if init.Some? {
            slot' := AssignLocals(init.value, slot);
            AssignedConcat(sl, Decls(init.value), Decls(s1), slot);
          } else {
            assert [] + Decls(s1) == Decls(s1);
          }
          slot' := AssignLocals(s1, slot');
        case _ =>
      }
    }

    method AssignBlock(body: seq<Stmt>, slot: nat) returns (slot': nat)
      modifies `slots
      ensures slots == Assigned(old(slots), BlockDecls(body), slot) && slot' == slot + |BlockDecls(body)|
      decreases body, 0
    {
      hide Decls;
      slot' := slot;
      var i := 0;
      assert body[0..] == body;
      while i < |body|
        invariant 0 <= i <= |body|
        invariant Assigned(slots, BlockDecls(body[i..]), slot') == Assigned(old(slots), BlockDecls(body), slot)
        invariant slot' + |BlockDecls(body[i..])| == slot + |BlockDecls(body)|
      {
        assert body[i..][0] == body[i] && body[i..][1..] == body[i + 1..];
        AssignedConcat(slots, Decls(body[i]), BlockDecls(body[i + 1..]), slot');
        slot' := AssignLocals(body[i], slot');
        i := i + 1;
      }
    }

    method AssignParams(params: seq<Symbol>)
      modifies `slots
      ensures slots == Assigned(old(slots), params, 0)
    {
      var i := 0;
      assert params[0..] == params;
      while i < |params|
        invariant 0 <= i <= |params|
        invariant Assigned(slots, params[i..], i) == Assigned(old(slots), params, 0)
      {
        assert params[i..][0] == params[i] && params[i..][1..] == params[i + 1..];
        slots := slots[params[i] := SlotOff(i)];
        i := i + 1;
      }
    }

    // ----- patching -----

    method LabelOff(id: int) returns (off: Option<int>)
      ensures off == if id in MapOf(labels) then Some(MapOf(labels)[id]) else None
    {
      FindIsMap(labels, id);
      var i := 0;
      assert labels[0..] == labels;
      while i < |labels|
        invariant 0 <= i <= |labels|
        invariant FindLabel(labels[i..], id) == FindLabel(labels, id)
      {
        if labels[i].id == id { return Some(labels[i].off); }
        assert labels[i..][1..] == labels[i + 1..];
        i := i + 1;
      }
      return None;
    }

    /** Rewrites one branch in place. */
    method PatchAt(f: Fix, target: int)
      requires Valid() && f.off % 4 == 0 && 0 <= f.off / 4 < |View().words|
      modifies `text
      ensures Valid()
      ensures View() == old(View()).(words := old(View()).words[f.off / 4 :=
        PatchWord(old(View()).words[f.off / 4], f, target)])
    {
      hide PatchWord, IsWord32;
      var at := f.off;
      var ins := PatchWord(Rd32(text, at), f, target);
      PatchIsWord(Rd32(text, at), f, target);
      WordsOverwrite(text, at, ins);
      text := Overwrite(text, at, ins);
    }

    /** false stands for the "unresolved local label" exit. */
    method PatchLocalJumps() returns (ok: bool)
      requires Valid()
      requires forall f :: f in fixes ==> f.off % 4 == 0 && 0 <= f.off / 4 < |View().words|
      modifies `text
      ensures Valid() && |View().words| == |old(View()).words|
      ensures ok == forall f :: f in fixes ==> f.lab in MapOf(labels)
      ensures ok ==> View().words == PatchAll(old(View()).words, fixes, MapOf(labels))
    {
      hide MapOf, PatchWord, Words;
      ghost var w0, lm := View().words, MapOf(labels);
      var i := 0;
      assert fixes[0..] == fixes;
      while i < |fixes|
        invariant 0 <= i <= |fixes| && Valid() && |View().words| == |w0|
        invariant forall f :: f in fixes[i..] ==> 0 <= f.off / 4 < |View().words|
        invariant forall k :: 0 <= k < i ==> fixes[k].lab in lm
        invariant PatchAll(View().words, fixes[i..], lm) == PatchAll(w0, fixes, lm)
      {
        var f := fixes[i];
        assert f in fixes;
        var target := LabelOff(f.lab);
        if target.None? { return false; }
        assert fixes[i..][0] == f && fixes[i..][1..] == fixes[i + 1..];
        PatchAt(f, target.value);
        i := i + 1;
      }
      assert fixes[i..] == [];
      return true;
    }

    // ----- whole functions -----

    method EmitAll(items: seq<Item>)
      requires Valid() && forall k :: 0 <= k < |items| ==> items[k].Ins?
      modifies `text
      ensures Valid() && View() == Append(old(View()), items, [], 0)
    {
      AppendNothing(View());
      hide Append, View;
      ghost var v := View();
      var i := 0;
      while i < |items|
        invariant 0 <= i <= |items| && Valid()
        invariant View() == Append(v, items[..i], [], 0)
      {
        Emit(items[i].i);
        AppendPlus(v, items[..i], [], 0, [items[i]]);
        assert items[..i + 1] == items[..i] + [items[i]];
        i := i + 1;
      }
      assert items[..i] == items;
    }

    /** One function: slots, prologue, body, epilogue, then the fix-ups of its own labels. */
    method GenFunction(f: Function) returns (ok: bool)
      requires Valid() && |f.params| <= MAX_ARGS && LoopNest(f.body) <= MAX_LOOPS
      requires JumpsOk(f.body, false)
      modifies this
      ensures Valid() && ok
      ensures slots == FrameSlots(f)
      ensures labels == FunctionLabels(f, slots, |old(View()).words|, old(nextLabel)) && Uniq(labels)
      ensures View().words == old(View()).words +
                ResolvedWords(FunctionCode(f, slots, old(nextLabel)), |old(View()).words|, MapOf(labels))
    {
      hide FixesOf, PatchAll, MapOf, Assigned, FunctionCode, FunctionLabels, Closed, Templates, ResolvedWords, Uniq;
      ghost var v, n := View(), nextLabel;
      ghost var p := |v.words|;
      slots := map[];  // symbols of other functions do not occur in f
      AssignParams(f.params);
      var count := AssignLocals(f.body, |f.params|);
      AssignedConcat(map[], f.params, Decls(f.body), 0);
      labels, fixes := [], [];
      GenCode(f, AlignUp16(16 + count * 8));
      ghost var items, lm := FunctionCode(f, slots, n), MapOf(labels);
      FunctionClosed(f, slots, p, n);
      assert [] + FunctionLabels(f, slots, p, n) == FunctionLabels(f, slots, p, n);
      assert [] + FixesOf(items, p) == FixesOf(items, p);
      forall x | x in fixes ensures x.off % 4 == 0 && 0 <= x.off / 4 < |View().words| && x.lab in lm {
        ClosedResolves(items, labels, p, x);
      }
      ok := PatchLocalJumps();
      PatchAllResolves(v.words, items, lm);
      ClosedUniq(items, labels);
    }

    method GenCode(f: Function, frame: nat)
      requires Valid() && |f.params| <= MAX_ARGS && LoopNest(f.body) <= MAX_LOOPS
      requires frame == FrameSize(f)
      modifies this
      ensures Valid() && slots == old(slots)
      ensures View() == Append(old(View()), FunctionCode(f, slots, old(nextLabel)),
                               FunctionLabels(f, slots, |old(View()).words|, old(nextLabel)), 1 + StmtCount(f.body))
    {
      hide Append, View, StmtCode, StmtLabels, StmtCount, LiCode;
      ghost var v, n, p := View(), nextLabel, |View().words|;
      ghost var entry, t := EntryCode(f, slots), BodyTargets(n);
      ghost var cb, lb, k := StmtCode(f.body, slots, n + 1, t), StmtLabels(f.body, slots, p + |entry|, n + 1, t),
          1 + StmtCount(f.body);
      EmitEntry(f, frame);
      StartFunction();
      ghost var none: seq<LabelDef> := [];
      AppendAppend(v, entry, none, 0, [], none, 1);
      assert entry + [] == entry && none + none == none;
      AppendSize(v, entry, [], 1);
      GenStmt(f.body);
      AppendAppend(v, entry, [], 1, cb, lb, StmtCount(f.body));
      assert [] + lb == lb;
      EmitLi(A0, 0);
      AppendPlus(v, entry + cb, lb, k, LiCode(A0, 0));
      AppendSize(v, entry + cb + LiCode(A0, 0), lb, k);
      Bind(returnLabel);
      ghost var defs := FunctionLabels(f, slots, p, n);
      AppendLabel(v, entry + cb + LiCode(A0, 0), lb, k, LabelDef(n, 4 * ReturnAt(f, slots, p, n)));
      EmitAll(Epilogue(frame));
      AppendPlus(v, entry + cb + LiCode(A0, 0), defs, k, Epilogue(frame));
    }

    method StartFunction()
      requires Valid()
      modifies `nextLabel, `returnLabel, `loopBreak, `loopContinue
      ensures Valid() && returnLabel == old(nextLabel) && nextLabel == returnLabel + 1
      ensures loopBreak == [] && Here() == BodyTargets(returnLabel)
      ensures View() == Append(old(View()), [], [], 1)
    {
      returnLabel := NewLabel();
      loopBreak, loopContinue := [], [];
    }

    method EmitEntry(f: Function, frame: nat)
      requires Valid() && |f.params| <= MAX_ARGS && frame == FrameSize(f)
      modifies `text
      ensures Valid() && View() == Append(old(View()), EntryCode(f, slots), [], 0)
    {
      hide Append, View;
      ghost var v := View();
      EmitAll(Prologue(frame));
      var i := 0;
      assert f.params[0..] == f.params;
      ghost var v1 := View();
      assert [] + ParamCode(f.params, slots, 0) == ParamCode(f.params, slots, 0);
      while i < |f.params|
        invariant 0 <= i <= |f.params| && Valid()
        invariant Append(View(), ParamCode(f.params[i..], slots, i), [], 0)
          == Append(v1, ParamCode(f.params, slots, 0), [], 0)
      {
        ghost var v2 := View();
        assert f.params[i..][0] == f.params[i] && f.params[i..][1..] == f.params[i + 1..];
        var st := Store(8, 10 + i, FP, Off(slots, f.params[i]));
        Emit(st);
        AppendPlus(v2, [Ins(st)], [], 0, ParamCode(f.params[i + 1..], slots, i + 1));
        i := i + 1;
      }
      assert f.params[i..] == [];
      AppendNothing(View());
      AppendPlus(v, Prologue(frame), [], 0, ParamCode(f.params, slots, 0));
    }
  }

  lemma ClosedUniq(items: seq<Item>, defs: seq<LabelDef>)
    requires Closed(items, defs, {})
    ensures Uniq(defs)
  {
  }

  lemma PatchIsWord(was: int, f: Fix, target: int)
    ensures IsWord32(PatchWord(was, f, target))
  {
  }

  // ----- what the statements of a generator method append together -----

  lemma NewAppend(v: Out, xs: seq<Item>, dx: seq<LabelDef>, k: int)
    ensures var v2 := Append(Append(v, [], [], 1), [], [], 1);
            && |v2.words| == |v.words| && v2.next == v.next + 2
            && Append(v2, xs, dx, k) == Append(v, xs, dx, 2 + k)
  {
    hide Append;
    AppendAfterNew(v, 1, [], [], 1);
    AppendSize(v, [], [], 2);
    AppendAfterNew(v, 2, xs, dx, k);
  }

  lemma ShortAppend(v: Out, ca: seq<Item>, la: seq<LabelDef>, ka: int, cb: seq<Item>, lb: seq<LabelDef>, kb: int,
                    br: Item, x: int, n: int)
    requires 0 <= x <= 1
    ensures var v2 := Append(Append(v, [], [], 1), [], [], 1);
            var v4 := Append(Append(v2, ca, la, ka), [br], [], 0);
            var v6 := Append(Append(v4, cb, lb, kb), [br], [], 0);
            var v8 := Append(Append(v6, LiCode(A0, 1 - x), [], 0), [Jump(n + 1)], [], 0);
            var v9 := Append(v8, [], [LabelDef(n, 4 * |v8.words|)], 0);
            var va := Append(v9, LiCode(A0, x), [], 0);
            && |v2.words| == |v.words| && v2.next == v.next + 2
            && |v4.words| == |v.words| + |ca| + 1 && v4.next == v.next + 2 + ka
            && Append(va, [], [LabelDef(n + 1, 4 * |va.words|)], 0)
            == Append(v, ShortShape(ca, cb, br, x, n),
                      ShortDefs(la, lb, n, |v.words| + |ca| + 1 + ArmAfter(cb)), 2 + ka + kb)
  {
    hide Append, LiCode;
    var k, px := 2 + ka + kb, |v.words| + |ca| + 1 + ArmAfter(cb);
    LiSmall(x);
    LiSmall(1 - x);
    NewAppend(v, ca, la, ka);
    AppendPlus(v, ca, la, 2 + ka, [br]);
    AppendSize(v, ca + [br], la, 2 + ka);
    AppendAppend(v, ca + [br], la, 2 + ka, cb, lb, kb);
    AppendPlus(v, ca + [br] + cb, la + lb, k, [br]);
    AppendPlus(v, ca + [br] + cb + [br], la + lb, k, LiCode(A0, 1 - x));
    AppendPlus(v, ca + [br] + cb + [br] + LiCode(A0, 1 - x), la + lb, k, [Jump(n + 1)]);
    var c6 := ca + [br] + cb + [br] + LiCode(A0, 1 - x) + [Jump(n + 1)];
    AppendSize(v, c6, la + lb, k);
    AppendLabel(v, c6, la + lb, k, LabelDef(n, 4 * px));
    var l6 := la + lb + [LabelDef(n, 4 * px)];
    AppendPlus(v, c6, l6, k, LiCode(A0, x));
    AppendSize(v, c6 + LiCode(A0, x), l6, k);
    AppendLabel(v, c6 + LiCode(A0, x), l6, k, LabelDef(n + 1, 4 * (px + 1)));
  }

  lemma CondAppend(v: Out, ca: seq<Item>, la: seq<LabelDef>, ka: int, cb: seq<Item>, lb: seq<LabelDef>, kb: int,
                   cc: seq<Item>, lc: seq<LabelDef>, kc: int, n: int)
    ensures var v2 := Append(Append(v, [], [], 1), [], [], 1);
            var v4 := Append(Append(v2, ca, la, ka), [Beqz(n)], [], 0);
            var v6 := Append(Append(v4, cb, lb, kb), [Jump(n + 1)], [], 0);
            var v7 := Append(v6, [], [LabelDef(n, 4 * |v6.words|)], 0);
            var v8 := Append(v7, cc, lc, kc);
            && |v2.words| == |v.words| && v2.next == v.next + 2
            && |v4.words| == |v.words| + |ca| + 1 && v4.next == v.next + 2 + ka
            && |v7.words| == |v.words| + |ca| + 1 + |cb| + 1 && v7.next == v.next + 2 + ka + kb
            && Append(v8, [], [LabelDef(n + 1, 4 * |v8.words|)], 0)
            == Append(v, CondShape(ca, cb, cc, n),
                      CondDefs(la, lb, lc, n, |v7.words|, |v7.words| + |cc|), 2 + ka + kb + kc)
  {
    hide Append;
    var pc := |v.words| + |ca| + 1 + |cb| + 1;
    NewAppend(v, ca, la, ka);
    AppendPlus(v, ca, la, 2 + ka, [Beqz(n)]);
    AppendSize(v, ca + [Beqz(n)], la, 2 + ka);
    AppendAppend(v, ca + [Beqz(n)], la, 2 + ka, cb, lb, kb);
    AppendPlus(v, ca + [Beqz(n)] + cb, la + lb, 2 + ka + kb, [Jump(n + 1)]);
    var c4, l4 := ca + [Beqz(n)] + cb + [Jump(n + 1)], la + lb + [LabelDef(n, 4 * pc)];
    AppendSize(v, c4, la + lb, 2 + ka + kb);
    AppendLabel(v, c4, la + lb, 2 + ka + kb, LabelDef(n, 4 * pc));
    AppendSize(v, c4, l4, 2 + ka + kb);
    AppendAppend(v, c4, l4, 2 + ka + kb, cc, lc, kc);
    AppendSize(v, c4 + cc, l4 + lc, 2 + ka + kb + kc);
    AppendLabel(v, c4 + cc, l4 + lc, 2 + ka + kb + kc, LabelDef(n + 1, 4 * (pc + |cc|)));
  }

  lemma IfAppend(v: Out, ce: seq<Item>, le: seq<LabelDef>, ke: int, c1: seq<Item>, l1: seq<LabelDef>, k1: int, n: int)
    ensures var v2 := Append(Append(v, [], [], 1), [], [], 1);
            var v4 := Append(Append(v2, ce, le, ke), [Beqz(n)], [], 0);
            var v5 := Append(v4, c1, l1, k1);
            && |v4.words| == |v.words| + |ce| + 1
            && Append(v5, [], [LabelDef(n, 4 * |v5.words|)], 0)
            == Append(v, IfShape(ce, c1, n), IfDefs(le, l1, n, |v.words| + |ce| + 1 + |c1|), 2 + ke + k1)
  {
    hide Append;
    var pe := |v.words| + |ce| + 1 + |c1|;
    NewAppend(v, ce, le, ke);
    AppendPlus(v, ce, le, 2 + ke, [Beqz(n)]);
    AppendSize(v, ce + [Beqz(n)], le, 2 + ke);
    AppendAppend(v, ce + [Beqz(n)], le, 2 + ke, c1, l1, k1);
    AppendSize(v, ce + [Beqz(n)] + c1, le + l1, 2 + ke + k1);
    AppendLabel(v, ce + [Beqz(n)] + c1, le + l1, 2 + ke + k1, LabelDef(n, 4 * pe));
  }

  lemma WhileAppend(v: Out, ce: seq<Item>, le: seq<LabelDef>, ke: int, c1: seq<Item>, l1: seq<LabelDef>, k1: int,
      n: int)
    ensures var v2 := Append(Append(v, [], [], 1), [], [], 1);
            var v3 := Append(v2, [], [LabelDef(n, 4 * |v2.words|)], 0);
            var v5 := Append(Append(v3, ce, le, ke), [Beqz(n + 1)], [], 0);
            var v7 := Append(Append(v5, c1, l1, k1), [Jump(n)], [], 0);
            && |v2.words| == |v.words| && |v3.words| == |v.words|
            && |v5.words| == |v.words| + |ce| + 1
            && Append(v7, [], [LabelDef(n + 1, 4 * |v7.words|)], 0)
            == Append(v, WhileShape(ce, c1, n),
                      WhileDefs(le, l1, n, |v.words|, |v.words| + |ce| + 1 + |c1| + 1), 2 + ke + k1)
  {
    hide Append;
    var p, k := |v.words|, 2 + ke + k1;
    var d0, d1 := LabelDef(n, 4 * p), LabelDef(n + 1, 4 * (p + |ce| + 1 + |c1| + 1));
    NewAppend(v, [], [d0], 0);
    AppendSize(v, [], [d0], 2);
    AppendAppend(v, [], [d0], 2, ce, le, ke);
    assert [] + ce == ce;
    AppendPlus(v, ce, [d0] + le, 2 + ke, [Beqz(n + 1)]);
    AppendSize(v, ce + [Beqz(n + 1)], [d0] + le, 2 + ke);
    AppendAppend(v, ce + [Beqz(n + 1)], [d0] + le, 2 + ke, c1, l1, k1);
    AppendPlus(v, ce + [Beqz(n + 1)] + c1, [d0] + le + l1, k, [Jump(n)]);
    AppendSize(v, ce + [Beqz(n + 1)] + c1 + [Jump(n)], [d0] + le + l1, k);
    AppendLabel(v, ce + [Beqz(n + 1)] + c1 + [Jump(n)], [d0] + le + l1, k, d1);
  }

  lemma ForAppend(v: Out, ci: seq<Item>, li: seq<LabelDef>, ki: int, ct: seq<Item>, lt: seq<LabelDef>, kt: int,
                  c1: seq<Item>, l1: seq<LabelDef>, k1: int, c2: seq<Item>, l2: seq<LabelDef>, k2: int, n: int)
    ensures var v3 := Append(Append(Append(v, [], [], 1), [], [], 1), [], [], 1);
            var v4 := Append(v3, ci, li, ki);
            var v5 := Append(v4, [], [LabelDef(n, 4 * |v4.words|)], 0);
            var v6 := Append(v5, ct, lt, kt);
            var v7 := Append(v6, c1, l1, k1);
            var v8 := Append(v7, [], [LabelDef(n + 1, 4 * |v7.words|)], 0);
            var va := Append(Append(v8, c2, l2, k2), [Jump(n)], [], 0);
            var pt := |v.words| + |ci|;
            var p1 := pt + |ct|;
            var p2 := p1 + |c1|;
            && |v3.words| == |v.words| && |v5.words| == pt && |v6.words| == p1 && |v8.words| == p2
            && Append(va, [], [LabelDef(n + 2, 4 * |va.words|)], 0)
            == Append(v, ForShape(ci, ct, c1, c2, n), ForDefs(li, lt, l1, l2, n, pt, p2, p2 + |c2| + 1),
                      3 + ki + kt + k1 + k2)
  {
    hide Append;
    var pt := |v.words| + |ci|;
    var p2 := pt + |ct| + |c1|;
    var d0, d1, d2 := LabelDef(n, 4 * pt), LabelDef(n + 1, 4 * p2), LabelDef(n + 2, 4 * (p2 + |c2| + 1));
    NewAppend(v, [], [], 1);
    AppendSize(v, [], [], 3);
    AppendAfterNew(v, 3, ci, li, ki);
    AppendSize(v, ci, li, 3 + ki);
    AppendLabel(v, ci, li, 3 + ki, d0);
    AppendSize(v, ci, li + [d0], 3 + ki);
    AppendAppend(v, ci, li + [d0], 3 + ki, ct, lt, kt);
    AppendSize(v, ci + ct, li + [d0] + lt, 3 + ki + kt);
    AppendAppend(v, ci + ct, li + [d0] + lt, 3 + ki + kt, c1, l1, k1);
    var c, l, k := ci + ct + c1, li + [d0] + lt + l1, 3 + ki + kt + k1;
    AppendSize(v, c, l, k);
    AppendLabel(v, c, l, k, d1);
    AppendSize(v, c, l + [d1], k);
    AppendAppend(v, c, l + [d1], k, c2, l2, k2);
    AppendPlus(v, c + c2, l + [d1] + l2, k + k2, [Jump(n)]);
    AppendSize(v, c + c2 + [Jump(n)], l + [d1] + l2, k + k2);
    AppendLabel(v, c + c2 + [Jump(n)], l + [d1] + l2, k + k2, d2);
  }

  lemma TemplateIsWord(it: Item)
    ensures IsWord32(Template(it))
  {
    if it.Ins? { EncodeIsWord(it.i); }
  }

  lemma LiSmall(x: int)
    requires 0 <= x <= 1
    ensures |LiCode(A0, x)| == 1
  {
  }
}
