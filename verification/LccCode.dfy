/** What the code generator emits, as a function of the tree: instructions, branches to
    numbered labels, and the offset each label is bound to. Labels are numbered from n in the
    order in which they are created; p is the index of the first emitted word. */
module LccCode {
  import opened Prelude
  import opened Rv64
  import opened RvMachine
  import opened MiniC

  const ZERO: Reg := 0
  const RA: Reg := 1
  const SP: Reg := 2
  const T0: Reg := 5
  const FP: Reg := 8
  const A0: Reg := 10

  datatype Item =
    | Ins(i: Instr)
    | Jump(lab: int)  // fix-up kind 1
    | Beqz(lab: int)  // fix-up kind 2
    | Bnez(lab: int)  // fix-up kind 3

  datatype LabelDef = LabelDef(id: int, off: int)

  /** Stack offsets of the locals, relative to the frame pointer. */
  type Slots = map<Symbol, int>

  function Off(sl: Slots, s: Symbol): int {
    if s in sl then sl[s] else 0
  }

  function Push(r: Reg): seq<Item> {
    [Ins(I(ADDI, SP, SP, -8)), Ins(Store(8, r, SP, 0))]
  }

  function Pop(r: Reg): seq<Item> {
    [Ins(Load(8, r, SP, 0)), Ins(I(ADDI, SP, SP, 8))]
  }

  // ----- constants -----

  /** The low digit as `addi` reads it back from its 12-bit field. */
  function LowDigit(x: int): int {
    SignExtend(x % 4096, 4096)
  }

  function Magnitude(x: int): nat { if x < 0 then -x else x }

  function LiCode(rd: Reg, x: int): seq<Item>
    decreases Magnitude(x)
  {
    if FitsI(x) then [Ins(I(ADDI, rd, ZERO, x))] else
    LiCode(rd, x / 4096) + [Ins(I(SLLI, rd, rd, 12))] +
    (if x % 4096 != 0 then [Ins(I(ADDI, rd, rd, LowDigit(x)))] else [])
  }

  /** Every 12-bit digit below the leading one is under 2048. */
  predicate LiExact(x: int)
    decreases Magnitude(x)
  {
    FitsI(x) || (x % 4096 < 2048 && LiExact(x / 4096))
  }

  // ----- expressions -----

  function OpCode(op: BinOp): seq<Item> {
    match op
    case Add => [Ins(R(ADD, A0, T0, A0))]
    case Sub => [Ins(R(SUB, A0, T0, A0))]
    case Mul => [Ins(R(MUL, A0, T0, A0))]
    case Div => [Ins(R(DIV, A0, T0, A0))]
    case Mod => [Ins(R(REM, A0, T0, A0))]
    case BAnd => [Ins(R(AND, A0, T0, A0))]
    case BOr => [Ins(R(OR, A0, T0, A0))]
    case BXor => [Ins(R(XOR, A0, T0, A0))]
    case Shl => [Ins(R(SLL, A0, T0, A0))]
    case Shr => [Ins(R(SRL, A0, T0, A0))]
    case Lt => [Ins(R(SLT, A0, T0, A0))]
    case Gt => [Ins(R(SLT, A0, A0, T0))]
    case Le => [Ins(R(SLT, A0, A0, T0)), Ins(I(XORI, A0, A0, 1))]
    case Ge => [Ins(R(SLT, A0, T0, A0)), Ins(I(XORI, A0, A0, 1))]
    case Eq => [Ins(R(XOR, A0, T0, A0)), Ins(I(SLTIU, A0, A0, 1))]
    case Ne => [Ins(R(XOR, A0, T0, A0)), Ins(R(SLTU, A0, ZERO, A0))]
  }

  function UnaryCode(op: UnOp): seq<Item> {
    match op
    case Plus => []
    case Minus => [Ins(R(SUB, A0, ZERO, A0))]
    case Not => [Ins(I(SLTIU, A0, A0, 1))]
    case Compl => [Ins(I(XORI, A0, A0, -1))]
  }

  /** Labels created inside e. */
  function LabelsOf(e: Expr): nat {
    match e
    case Int(_) => 0
    case Var(_) => 0
    case Unary(_, a) => LabelsOf(a)
    case Binary(_, a, b) => LabelsOf(a) + LabelsOf(b)
    case LogAnd(a, b) => 2 + LabelsOf(a) + LabelsOf(b)
    case LogOr(a, b) => 2 + LabelsOf(a) + LabelsOf(b)
    case Assign(_, b) => LabelsOf(b)
    case Cond(a, b, c) => 2 + LabelsOf(a) + LabelsOf(b) + LabelsOf(c)
  }

  // The shapes of compound code and of the labels it binds, in terms of its parts.

  function BinaryShape(ca: seq<Item>, cb: seq<Item>, op: BinOp): seq<Item> {
    ca + Push(A0) + cb + Pop(T0) + OpCode(op)
  }

  function AssignShape(s: Symbol, off: int, cb: seq<Item>): seq<Item> {
    [Ins(I(ADDI, A0, FP, off))] + Push(A0) + cb + Pop(T0) + [Ins(Store(s.size, A0, T0, 0))]
  }

  /** `&&` and `||`: br leaves for the arm that loads v when an operand decides. */
  function ShortShape(ca: seq<Item>, cb: seq<Item>, br: Item, v: int, n: int): seq<Item> {
    (ca + [br] + cb + [br]) + LiCode(A0, 1 - v) + [Jump(n + 1)] + LiCode(A0, v)
  }

  function ShortDefs(la: seq<LabelDef>, lb: seq<LabelDef>, n: int, px: int): seq<LabelDef> {
    la + lb + [LabelDef(n, 4 * px)] + [LabelDef(n + 1, 4 * (px + 1))]
  }

  /** Words from the start of b to the exit arm of a short-circuit operator. */
  function ArmAfter(cb: seq<Item>): nat { |cb| + 3 }

  /** `?:`, and `if` with an `else`. */
  function CondShape(ca: seq<Item>, cb: seq<Item>, cc: seq<Item>, n: int): seq<Item> {
    (ca + [Beqz(n)]) + cb + [Jump(n + 1)] + cc
  }

  function CondDefs(la: seq<LabelDef>, lb: seq<LabelDef>, lc: seq<LabelDef>, n: int, pc: int, pe: int): seq<LabelDef> {
    (la + lb) + [LabelDef(n, 4 * pc)] + lc + [LabelDef(n + 1, 4 * pe)]
  }

  function ExprCode(e: Expr, sl: Slots, n: int): seq<Item> {
    match e
    case Int(v) => LiCode(A0, v)
    case Var(s) => [Ins(Load(s.size, A0, FP, Off(sl, s)))]
    case Unary(op, a) => ExprCode(a, sl, n) + UnaryCode(op)
    case Binary(op, a, b) => BinaryShape(ExprCode(a, sl, n), ExprCode(b, sl, n + LabelsOf(a)), op)
    case LogAnd(a, b) =>
      ShortShape(ExprCode(a, sl, n + 2), ExprCode(b, sl, n + 2 + LabelsOf(a)), Beqz(n), 0, n)
    case LogOr(a, b) =>
      ShortShape(ExprCode(a, sl, n + 2), ExprCode(b, sl, n + 2 + LabelsOf(a)), Bnez(n), 1, n)
    case Assign(s, b) => AssignShape(s, Off(sl, s), ExprCode(b, sl, n))
    case Cond(a, b, c) =>
      CondShape(ExprCode(a, sl, n + 2), ExprCode(b, sl, n + 2 + LabelsOf(a)),
                ExprCode(c, sl, n + 2 + LabelsOf(a) + LabelsOf(b)), n)
  }

  function ExprLabels(e: Expr, sl: Slots, p: nat, n: int): seq<LabelDef> {
    match e
    case Int(_) => []
    case Var(_) => []
    case Unary(_, a) => ExprLabels(a, sl, p, n)
    case Binary(_, a, b) =>
      ExprLabels(a, sl, p, n) +
      ExprLabels(b, sl, p + |ExprCode(a, sl, n)| + 2, n + LabelsOf(a))
    case LogAnd(a, b) =>
      var nb, pb := n + 2 + LabelsOf(a), p + |ExprCode(a, sl, n + 2)| + 1;
      ShortDefs(ExprLabels(a, sl, p, n + 2), ExprLabels(b, sl, pb, nb), n, pb + ArmAfter(ExprCode(b, sl, nb)))
    case LogOr(a, b) =>
      var nb, pb := n + 2 + LabelsOf(a), p + |ExprCode(a, sl, n + 2)| + 1;
      ShortDefs(ExprLabels(a, sl, p, n + 2), ExprLabels(b, sl, pb, nb), n, pb + ArmAfter(ExprCode(b, sl, nb)))
    case Assign(_, b) => ExprLabels(b, sl, p + 3, n)
    case Cond(a, b, c) =>
      var nb, nc := n + 2 + LabelsOf(a), n + 2 + LabelsOf(a) + LabelsOf(b);
      var pb := p + |ExprCode(a, sl, n + 2)| + 1;
      var pc := pb + |ExprCode(b, sl, nb)| + 1;
      CondDefs(ExprLabels(a, sl, p, n + 2), ExprLabels(b, sl, pb, nb), ExprLabels(c, sl, pc, nc),
               n, pc, pc + |ExprCode(c, sl, nc)|)
  }

  // One unfolding of the code of a compound expression.

  lemma BinaryUnfold(e: Expr, sl: Slots, p: nat, n: int)
    requires e.Binary?
    ensures LabelsOf(e) == LabelsOf(e.a) + LabelsOf(e.b)
    ensures ExprCode(e, sl, n) == BinaryShape(ExprCode(e.a, sl, n), ExprCode(e.b, sl, n + LabelsOf(e.a)), e.bop)
    ensures ExprLabels(e, sl, p, n) ==
            ExprLabels(e.a, sl, p, n) + ExprLabels(e.b, sl, p + |ExprCode(e.a, sl, n)| + 2, n + LabelsOf(e.a))
  {
    hide BinaryShape, LiCode, UnaryCode, ShortShape, CondShape, AssignShape, ShortDefs, CondDefs;
  }

  lemma ShortUnfold(e: Expr, sl: Slots, p: nat, n: int)
    requires e.LogAnd? || e.LogOr?
    ensures LabelsOf(e) == 2 + LabelsOf(e.a) + LabelsOf(e.b)
    ensures var nb, pb := n + 2 + LabelsOf(e.a), p + |ExprCode(e.a, sl, n + 2)| + 1;
            var ca, cb := ExprCode(e.a, sl, n + 2), ExprCode(e.b, sl, nb);
            && ExprCode(e, sl, n) ==
               ShortShape(ca, cb, if e.LogAnd? then Beqz(n) else Bnez(n), if e.LogAnd? then 0 else 1, n)
            && ExprLabels(e, sl, p, n) ==
               ShortDefs(ExprLabels(e.a, sl, p, n + 2), ExprLabels(e.b, sl, pb, nb), n, pb + ArmAfter(cb))
  {
    hide BinaryShape, LiCode, UnaryCode, ShortShape, CondShape, AssignShape, ShortDefs, CondDefs;
  }

  lemma CondUnfold(e: Expr, sl: Slots, p: nat, n: int)
    requires e.Cond?
    ensures LabelsOf(e) == 2 + LabelsOf(e.a) + LabelsOf(e.b) + LabelsOf(e.c)
    ensures var nb, nc := n + 2 + LabelsOf(e.a), n + 2 + LabelsOf(e.a) + LabelsOf(e.b);
            var ca, cb, cc := ExprCode(e.a, sl, n + 2), ExprCode(e.b, sl, nb), ExprCode(e.c, sl, nc);
            var pb := p + |ca| + 1;
            var pc := pb + |cb| + 1;
            && ExprCode(e, sl, n) == CondShape(ca, cb, cc, n)
            && ExprLabels(e, sl, p, n) ==
               CondDefs(ExprLabels(e.a, sl, p, n + 2), ExprLabels(e.b, sl, pb, nb), ExprLabels(e.c, sl, pc, nc),
                        n, pc, pc + |cc|)
  {
    hide BinaryShape, LiCode, UnaryCode, ShortShape, CondShape, AssignShape, ShortDefs, CondDefs;
  }

  // ----- statements -----

  /** Labels that `break`, `continue` and `return` jump to; -1 outside a loop. */
  datatype Targets = Targets(brk: int, cont: int, ret: int)

  function OptCode(e: Option<Expr>, sl: Slots, n: int): seq<Item> {
    if e.Some? then ExprCode(e.value, sl, n) else []
  }

  function OptLabels(e: Option<Expr>, sl: Slots, p: nat, n: int): seq<LabelDef> {
    if e.Some? then ExprLabels(e.value, sl, p, n) else []
  }

  function OptCount(e: Option<Expr>): nat {
    if e.Some? then LabelsOf(e.value) else 0
  }

  /** The loop test: nothing when absent, else the condition and its exit branch. */
  function TestCode(e: Option<Expr>, sl: Slots, n: int, exit: int): seq<Item> {
    if e.Some? then ExprCode(e.value, sl, n) + [Beqz(exit)] else []
  }

  function IfShape(ce: seq<Item>, c1: seq<Item>, n: int): seq<Item> {
    ce + [Beqz(n)] + c1
  }

  function IfDefs(le: seq<LabelDef>, l1: seq<LabelDef>, n: int, pe: int): seq<LabelDef> {
    le + l1 + [LabelDef(n, 4 * pe)]
  }

  function WhileShape(ce: seq<Item>, c1: seq<Item>, n: int): seq<Item> {
    ce + [Beqz(n + 1)] + c1 + [Jump(n)]
  }

  function WhileDefs(le: seq<LabelDef>, l1: seq<LabelDef>, n: int, p: int, pe: int): seq<LabelDef> {
    [LabelDef(n, 4 * p)] + le + l1 + [LabelDef(n + 1, 4 * pe)]
  }

  function ForShape(ci: seq<Item>, ct: seq<Item>, c1: seq<Item>, c2: seq<Item>, n: int): seq<Item> {
    (ci + ct) + c1 + c2 + [Jump(n)]
  }

  function ForDefs(li: seq<LabelDef>, lt: seq<LabelDef>, l1: seq<LabelDef>, l2: seq<LabelDef>,
                   n: int, pt: int, p2: int, pe: int): seq<LabelDef> {
    (li + [LabelDef(n, 4 * pt)] + lt + l1) + [LabelDef(n + 1, 4 * p2)] + l2 + [LabelDef(n + 2, 4 * pe)]
  }

  function StmtCount(s: Stmt): nat {
    match s
    case Block(body) => BlockCount(body)
    case Decl(_, init) => OptCount(init)
    case ExprStmt(e) => LabelsOf(e)
    case If(e, s1, s2) =>
      2 + LabelsOf(e) + StmtCount(s1) + (if s2.Some? then StmtCount(s2.value) else 0)
    case While(e, s1) => 2 + LabelsOf(e) + StmtCount(s1)
    case For(init, cond, step, s1) =>
      3 + (if init.Some? then StmtCount(init.value) else 0) + OptCount(cond) + StmtCount(s1) + OptCount(step)
    case Return(result) => OptCount(result)
    case Break => 0
    case Continue => 0
  }

  function BlockCount(body: seq<Stmt>): nat {
    if body == [] then 0 else StmtCount(body[0]) + BlockCount(body[1..])
  }

  function StmtCode(s: Stmt, sl: Slots, n: int, t: Targets): seq<Item>
    decreases s, 0
  {
    match s
    case Block(body) => BlockCode(body, sl, n, t)
    case Decl(sym, init) =>
      if init.None? then [] else
      ExprCode(init.value, sl, n) + [Ins(Store(sym.size, A0, FP, Off(sl, sym)))]
    case ExprStmt(e) => ExprCode(e, sl, n)
    case If(e, s1, s2) =>
      var n1 := n + 2 + LabelsOf(e);
      var ce, c1 := ExprCode(e, sl, n + 2), StmtCode(s1, sl, n1, t);
      if s2.Some? then CondShape(ce, c1, StmtCode(s2.value, sl, n1 + StmtCount(s1), t), n)
      else IfShape(ce, c1, n)
    case While(e, s1) =>
      WhileShape(ExprCode(e, sl, n + 2), StmtCode(s1, sl, n + 2 + LabelsOf(e), Targets(n + 1, n, t.ret)), n)
    case For(init, cond, step, s1) =>
      var ni := n + 3 + (if init.Some? then StmtCount(init.value) else 0);
      ForShape(if init.Some? then StmtCode(init.value, sl, n + 3, t) else [],
               TestCode(cond, sl, ni, n + 2),
               StmtCode(s1, sl, ni + OptCount(cond), Targets(n + 2, n + 1, t.ret)),
               OptCode(step, sl, ni + OptCount(cond) + StmtCount(s1)), n)
    case Return(result) =>
      (if result.Some? then ExprCode(result.value, sl, n) else LiCode(A0, 0)) + [Jump(t.ret)]
    case Break => [Jump(t.brk)]
    case Continue => [Jump(t.cont)]
  }

  function BlockCode(body: seq<Stmt>, sl: Slots, n: int, t: Targets): seq<Item>
    decreases body, 0
  {
    if body == [] then [] else
    StmtCode(body[0], sl, n, t) + BlockCode(body[1..], sl, n + StmtCount(body[0]), t)
  }

  function StmtLabels(s: Stmt, sl: Slots, p: nat, n: int, t: Targets): seq<LabelDef>
    decreases s, 0
  {
    match s
    case Block(body) => BlockLabels(body, sl, p, n, t)
    case Decl(_, init) => OptLabels(init, sl, p, n)
    case ExprStmt(e) => ExprLabels(e, sl, p, n)
    case If(e, s1, s2) =>
      var n1 := n + 2 + LabelsOf(e);
      var p1 := p + |ExprCode(e, sl, n + 2)| + 1;
      var p2 := p1 + |StmtCode(s1, sl, n1, t)|;
      var le, l1 := ExprLabels(e, sl, p, n + 2), StmtLabels(s1, sl, p1, n1, t);
      if s2.Some? then
        var n2 := n1 + StmtCount(s1);
        CondDefs(le, l1, StmtLabels(s2.value, sl, p2 + 1, n2, t),
                 n, p2 + 1, p2 + 1 + |StmtCode(s2.value, sl, n2, t)|)
      else
        IfDefs(le, l1, n, p2)
    case While(e, s1) =>
      var t1 := Targets(n + 1, n, t.ret);
      var n1 := n + 2 + LabelsOf(e);
      var p1 := p + |ExprCode(e, sl, n + 2)| + 1;
      WhileDefs(ExprLabels(e, sl, p, n + 2), StmtLabels(s1, sl, p1, n1, t1), n, p,
                p1 + |StmtCode(s1, sl, n1, t1)| + 1)
    case For(init, cond, step, s1) =>
      var t1 := Targets(n + 2, n + 1, t.ret);
      var ni := n + 3 + (if init.Some? then StmtCount(init.value) else 0);
      var n1 := ni + OptCount(cond);
      var n2 := n1 + StmtCount(s1);
      var pt := p + (if init.Some? then |StmtCode(init.value, sl, n + 3, t)| else 0);
      var p1 := pt + |TestCode(cond, sl, ni, n + 2)|;
      var p2 := p1 + |StmtCode(s1, sl, n1, t1)|;
      ForDefs(if init.Some? then StmtLabels(init.value, sl, p, n + 3, t) else [],
              OptLabels(cond, sl, pt, ni), StmtLabels(s1, sl, p1, n1, t1), OptLabels(step, sl, p2, n2),
              n, pt, p2, p2 + |OptCode(step, sl, n2)| + 1)
    case Return(result) => OptLabels(result, sl, p, n)
    case Break => []
    case Continue => []
  }

  function BlockLabels(body: seq<Stmt>, sl: Slots, p: nat, n: int, t: Targets): seq<LabelDef>
    decreases body, 0
  {
    if body == [] then [] else
    StmtLabels(body[0], sl, p, n, t) +
    BlockLabels(body[1..], sl, p + |StmtCode(body[0], sl, n, t)|, n + StmtCount(body[0]), t)
  }

  // One unfolding of the code of a compound statement.

  lemma IfUnfold(s: Stmt, sl: Slots, p: nat, n: int, t: Targets)
    requires s.If?
    ensures var n1 := n + 2 + LabelsOf(s.e);
            var ce, c1 := ExprCode(s.e, sl, n + 2), StmtCode(s.s1, sl, n1, t);
            var p1 := p + |ce| + 1;
            var p2 := p1 + |c1|;
            var le, l1 := ExprLabels(s.e, sl, p, n + 2), StmtLabels(s.s1, sl, p1, n1, t);
            if s.s2.Some? then
              var n2 := n1 + StmtCount(s.s1);
              var c2 := StmtCode(s.s2.value, sl, n2, t);
              && StmtCode(s, sl, n, t) == CondShape(ce, c1, c2, n)
              && StmtLabels(s, sl, p, n, t) ==
                 CondDefs(le, l1, StmtLabels(s.s2.value, sl, p2 + 1, n2, t), n, p2 + 1, p2 + 1 + |c2|)
              && StmtCount(s) == 2 + LabelsOf(s.e) + StmtCount(s.s1) + StmtCount(s.s2.value)
            else
              && StmtCode(s, sl, n, t) == IfShape(ce, c1, n)
              && StmtLabels(s, sl, p, n, t) == IfDefs(le, l1, n, p2)
              && StmtCount(s) == 2 + LabelsOf(s.e) + StmtCount(s.s1)
  {
    hide ExprCode, ExprLabels, LabelsOf, CondShape, CondDefs, IfShape, IfDefs, WhileShape, WhileDefs, ForShape, ForDefs;
  }

  lemma WhileUnfold(s: Stmt, sl: Slots, p: nat, n: int, t: Targets)
    requires s.While?
    ensures var t1, n1 := Targets(n + 1, n, t.ret), n + 2 + LabelsOf(s.e);
            var ce, c1 := ExprCode(s.e, sl, n + 2), StmtCode(s.s1, sl, n1, t1);
            var p1 := p + |ce| + 1;
            && StmtCode(s, sl, n, t) == WhileShape(ce, c1, n)
            && StmtLabels(s, sl, p, n, t) ==
               WhileDefs(ExprLabels(s.e, sl, p, n + 2), StmtLabels(s.s1, sl, p1, n1, t1), n, p, p1 + |c1| + 1)
            && StmtCount(s) == 2 + LabelsOf(s.e) + StmtCount(s.s1)
  {
    hide ExprCode, ExprLabels, LabelsOf, CondShape, CondDefs, IfShape, IfDefs, WhileShape, WhileDefs, ForShape, ForDefs;
  }

  function InitCode(s: Option<Stmt>, sl: Slots, n: int, t: Targets): seq<Item> {
    if s.Some? then StmtCode(s.value, sl, n, t) else []
  }

  function InitLabels(s: Option<Stmt>, sl: Slots, p: nat, n: int, t: Targets): seq<LabelDef> {
    if s.Some? then StmtLabels(s.value, sl, p, n, t) else []
  }

  function InitCount(s: Option<Stmt>): nat {
    if s.Some? then StmtCount(s.value) else 0
  }

  lemma ForUnfold(s: Stmt, sl: Slots, p: nat, n: int, t: Targets)
    requires s.For?
    ensures var t1, ni := Targets(n + 2, n + 1, t.ret), n + 3 + InitCount(s.init1);
            var n1 := ni + OptCount(s.cond);
            var n2 := n1 + StmtCount(s.s1);
            var ci, ct := InitCode(s.init1, sl, n + 3, t), TestCode(s.cond, sl, ni, n + 2);
            var c1, c2 := StmtCode(s.s1, sl, n1, t1), OptCode(s.step, sl, n2);
            var pt := p + |ci|;
            var p1 := pt + |ct|;
            var p2 := p1 + |c1|;
            && StmtCode(s, sl, n, t) == ForShape(ci, ct, c1, c2, n)
            && StmtLabels(s, sl, p, n, t) ==
               ForDefs(InitLabels(s.init1, sl, p, n + 3, t), OptLabels(s.cond, sl, pt, ni),
                       StmtLabels(s.s1, sl, p1, n1, t1), OptLabels(s.step, sl, p2, n2),
                       n, pt, p2, p2 + |c2| + 1)
            && StmtCount(s) == 3 + InitCount(s.init1) + OptCount(s.cond) + StmtCount(s.s1) + OptCount(s.step)
  {
    hide ExprCode, ExprLabels, LabelsOf, CondShape, CondDefs, IfShape, IfDefs, WhileShape, WhileDefs, ForShape, ForDefs;
    hide OptCode, OptLabels, OptCount, TestCode;
  }

  // ----- resolved code -----

  type LabelMap = map<int, int>

  function Target(lm: LabelMap, id: int): int {
    if id in lm then lm[id] else 0
  }

  /** Word q holding this item once labels have offsets. */
  function Resolve(it: Item, q: nat, lm: LabelMap): Instr {
    match it
    case Ins(i) => i
    case Jump(l) => Jal(ZERO, Target(lm, l) - 4 * q)
    case Beqz(l) => Branch(false, A0, ZERO, Target(lm, l) - 4 * q)
    case Bnez(l) => Branch(true, A0, ZERO, Target(lm, l) - 4 * q)
  }

  predicate CodeAt(prog: seq<Instr>, p: nat, items: seq<Item>, lm: LabelMap) {
    && p + |items| <= |prog|
    && forall k :: 0 <= k < |items| ==> prog[p + k] == Resolve(items[k], p + k, lm)
  }

  predicate LabelsIn(defs: seq<LabelDef>, lm: LabelMap) {
    forall k :: 0 <= k < |defs| ==> defs[k].id in lm && lm[defs[k].id] == defs[k].off
  }

  lemma CodeAtSplit(prog: seq<Instr>, p: nat, xs: seq<Item>, ys: seq<Item>, lm: LabelMap)
    requires CodeAt(prog, p, xs + ys, lm)
    ensures CodeAt(prog, p, xs, lm) && CodeAt(prog, p + |xs|, ys, lm)
  {
    forall k | 0 <= k < |xs| ensures prog[p + k] == Resolve(xs[k], p + k, lm) {
      assert (xs + ys)[k] == xs[k];
    }
    forall k | 0 <= k < |ys| ensures prog[p + |xs| + k] == Resolve(ys[k], p + |xs| + k, lm) {
      assert (xs + ys)[|xs| + k] == ys[k];
    }
  }

  lemma LabelsInSplit(xs: seq<LabelDef>, ys: seq<LabelDef>, lm: LabelMap)
    requires LabelsIn(xs + ys, lm)
    ensures LabelsIn(xs, lm) && LabelsIn(ys, lm)
  {
    forall k | 0 <= k < |xs| ensures xs[k].id in lm && lm[xs[k].id] == xs[k].off {
      assert (xs + ys)[k] == xs[k];
    }
    forall k | 0 <= k < |ys| ensures ys[k].id in lm && lm[ys[k].id] == ys[k].off {
      assert (xs + ys)[|xs| + k] == ys[k];
    }
  }

  lemma CodeAtSplit4(prog: seq<Instr>, p: nat, ws: seq<Item>, xs: seq<Item>, ys: seq<Item>, zs: seq<Item>,
                     lm: LabelMap)
    requires CodeAt(prog, p, ws + xs + ys + zs, lm)
    ensures CodeAt(prog, p, ws, lm) && CodeAt(prog, p + |ws|, xs, lm)
    ensures CodeAt(prog, p + |ws| + |xs|, ys, lm) && CodeAt(prog, p + |ws| + |xs| + |ys|, zs, lm)
  {
    hide CodeAt;
    CodeAtSplit(prog, p, ws + xs + ys, zs, lm);
    CodeAtSplit(prog, p, ws + xs, ys, lm);
    CodeAtSplit(prog, p, ws, xs, lm);
  }

  lemma LabelsInSplit4(ws: seq<LabelDef>, xs: seq<LabelDef>, ys: seq<LabelDef>, zs: seq<LabelDef>, lm: LabelMap)
    requires LabelsIn(ws + xs + ys + zs, lm)
    ensures LabelsIn(ws, lm) && LabelsIn(xs, lm) && LabelsIn(ys, lm) && LabelsIn(zs, lm)
  {
    hide LabelsIn;
    LabelsInSplit(ws + xs + ys, zs, lm);
    LabelsInSplit(ws + xs, ys, lm);
    LabelsInSplit(ws, xs, lm);
  }
}
