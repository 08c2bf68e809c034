/** Expression code preserves meaning: running it leaves the value in a0, restores sp, and
    changes only scratch stack below sp and the assigned locals. */
module LccExprSim {
  import opened Rv64
  import opened RvMachine
  import opened MiniC
  import opened LccCode
  import opened LccConst

  // ----- machine states that represent source states -----

  /** Locals lie between sp and the saved registers, one 8-byte slot each. */
  ghost predicate Frame(sl: Slots, fp: int, sp: int) {
    && 0 <= sp <= fp < TWO63
    && (forall s :: s in sl ==> sp <= fp + sl[s] && sl[s] <= -24)
    && (forall s, t :: s in sl && t in sl && s != t ==> sl[s] + 8 <= sl[t] || sl[t] + 8 <= sl[s])
  }

  ghost predicate Match(sl: Slots, fp: int, mem: Mem, env: Env) {
    forall s :: s in sl ==> s in env && env[s] == LoadSigned(mem, fp + sl[s], s.size)
  }

  ghost predicate OutsideSlots(sl: Slots, fp: int, a: int) {
    forall s :: s in sl ==> a < fp + sl[s] || fp + sl[s] + s.size <= a
  }

  /** m holds env, with d more 8-byte stack cells available. */
  ghost predicate Ready(sl: Slots, fp: int, d: int, m: Machine, env: Env) {
    && Frame(sl, fp, Get(m, SP))
    && Get(m, FP) == fp
    && 8 * d <= Get(m, SP)
    && Match(sl, fp, m.mem, env)
  }

  ghost predicate SameRegs(m: Machine, m': Machine) {
    forall r: Reg :: r != T0 && r != A0 ==> m'.regs[r] == m.regs[r]
  }

  ghost predicate SameMem(sl: Slots, fp: int, lo: int, hi: int, mem: Mem, mem': Mem) {
    forall a :: (a < lo || hi <= a) && OutsideSlots(sl, fp, a) ==> ByteAt(mem', a) == ByteAt(mem, a)
  }

  /** Only t0, a0, d stack cells below sp and the locals may differ. */
  ghost predicate Kept(sl: Slots, fp: int, d: int, m: Machine, m': Machine) {
    SameRegs(m, m') && SameMem(sl, fp, Get(m, SP) - 8 * d, Get(m, SP), m.mem, m'.mem)
  }

  function Max(x: nat, y: nat): nat { if x < y then y else x }

  /** Stack cells that the code of e pushes at most. */
  function Depth(e: Expr): nat {
    match e
    case Int(_) => 0
    case Var(_) => 0
    case Unary(_, a) => Depth(a)
    case Binary(_, a, b) => Max(Depth(a), 1 + Depth(b))
    case LogAnd(a, b) => Max(Depth(a), Depth(b))
    case LogOr(a, b) => Max(Depth(a), Depth(b))
    case Assign(_, b) => 1 + Depth(b)
    case Cond(a, b, c) => Max(Depth(a), Max(Depth(b), Depth(c)))
  }

  predicate ConstsExact(e: Expr) {
    match e
    case Int(v) => LiExact(v)
    case Var(_) => true
    case Unary(_, a) => ConstsExact(a)
    case Binary(_, a, b) => ConstsExact(a) && ConstsExact(b)
    case LogAnd(a, b) => ConstsExact(a) && ConstsExact(b)
    case LogOr(a, b) => ConstsExact(a) && ConstsExact(b)
    case Assign(_, b) => ConstsExact(b)
    case Cond(a, b, c) => ConstsExact(a) && ConstsExact(b) && ConstsExact(c)
  }

  /** e can be compiled against these slots. */
  predicate Compilable(e: Expr, sl: Slots) {
    ExprScoped(e, sl.Keys) && ConstsExact(e)
  }

  // ----- memory and frame facts -----

  lemma MatchSame(sl: Slots, fp: int, mem: Mem, mem': Mem, env: Env)
    requires Match(sl, fp, mem, env)
    requires forall s, a :: s in sl && fp + sl[s] <= a < fp + sl[s] + s.size ==>
               ByteAt(mem', a) == ByteAt(mem, a)
    ensures Match(sl, fp, mem', env)
  {
    hide Convert, Fetch;
    forall s | s in sl ensures s in env && env[s] == LoadSigned(mem', fp + sl[s], s.size) {
      FetchSame(mem, mem', fp + sl[s], s.size);
    }
  }

  lemma MatchAssign(sl: Slots, fp: int, sp: int, mem: Mem, env: Env, s: Symbol, v: Word)
    requires Frame(sl, fp, sp) && Match(sl, fp, mem, env) && s in sl
    ensures Match(sl, fp, Put(mem, fp + sl[s], s.size, v), env[s := Convert(s.size, v)])
  {
    hide Convert, Fetch, Put, ByteAt;
    var mem', a := Put(mem, fp + sl[s], s.size, v), fp + sl[s];
    LoadAfterStore(mem, a, s.size, v);
    forall t | t in sl && t != s ensures env[t] == LoadSigned(mem', fp + sl[t], t.size) {
      forall x | fp + sl[t] <= x < fp + sl[t] + t.size ensures ByteAt(mem', x) == ByteAt(mem, x) {
        PutOther(mem, a, s.size, v, x);
      }
      FetchSame(mem, mem', fp + sl[t], t.size);
    }
  }

  lemma PutSlotSame(sl: Slots, fp: int, mem: Mem, s: Symbol, v: Word, lo: int, hi: int)
    requires s in sl
    ensures SameMem(sl, fp, lo, hi, mem, Put(mem, fp + sl[s], s.size, v))
  {
    hide Put, ByteAt;
    forall a | OutsideSlots(sl, fp, a)
      ensures ByteAt(Put(mem, fp + sl[s], s.size, v), a) == ByteAt(mem, a)
    {
      PutOther(mem, fp + sl[s], s.size, v, a);
    }
  }

  lemma KeptTrans(sl: Slots, fp: int, d: int, a: Machine, b: Machine, c: Machine)
    requires Kept(sl, fp, d, a, b) && Kept(sl, fp, d, b, c)
    ensures Kept(sl, fp, d, a, c)
  {
    assert Get(b, SP) == Get(a, SP);
  }

  lemma KeptMore(sl: Slots, fp: int, d: int, d': int, a: Machine, b: Machine)
    requires Kept(sl, fp, d, a, b) && d <= d'
    ensures Kept(sl, fp, d', a, b)
  {
  }

  // ----- single instructions -----

  lemma StepItem(prog: seq<Instr>, p: nat, items: seq<Item>, lm: LabelMap, k: nat, m: Machine)
    requires CodeAt(prog, p, items, lm) && k < |items| && m.pc == 4 * (p + k)
    ensures Reaches(prog, m, Exec(Resolve(items[k], p + k, lm), m))
  {
    ReachesStep(prog, m, p + k);
  }

  lemma ExecAddi(m: Machine, rd: Reg, rs1: Reg, imm: int)
    requires rd != 0 && -TWO63 <= Get(m, rs1) + imm < TWO63
    ensures Exec(I(ADDI, rd, rs1, imm), m) == Machine(m.pc + 4, m.regs[rd := Get(m, rs1) + imm], m.mem)
  {
  }

  lemma ExecLoad(m: Machine, n: Size, rd: Reg, rs1: Reg, imm: int)
    requires rd != 0 && -TWO63 <= Get(m, rs1) + imm < TWO63
    ensures Exec(Load(n, rd, rs1, imm), m)
         == Machine(m.pc + 4, m.regs[rd := LoadSigned(m.mem, Get(m, rs1) + imm, n)], m.mem)
  {
    hide LoadSigned;
  }

  lemma ExecStore(m: Machine, n: Size, rs2: Reg, rs1: Reg, imm: int)
    requires -TWO63 <= Get(m, rs1) + imm < TWO63
    ensures Exec(Store(n, rs2, rs1, imm), m)
         == Machine(m.pc + 4, m.regs, Put(m.mem, Get(m, rs1) + imm, n, Get(m, rs2)))
  {
    hide Put;
  }

  lemma PushSim(prog: seq<Instr>, p: nat, lm: LabelMap, sl: Slots, fp: int, d: nat, m: Machine, env: Env)
    returns (m': Machine)
    requires CodeAt(prog, p, Push(A0), lm) && m.pc == 4 * p
    requires Ready(sl, fp, d, m, env) && d >= 1
    ensures Reaches(prog, m, m') && m'.pc == 4 * (p + 2)
    ensures m'.regs == m.regs[SP := Get(m, SP) - 8]
    ensures m'.mem == Put(m.mem, Get(m, SP) - 8, 8, Get(m, A0))
    ensures Ready(sl, fp, d - 1, m', env)
    ensures LoadSigned(m'.mem, Get(m', SP), 8) == Get(m, A0)
  {
    hide Exec, Put, LoadSigned, ByteAt, Wrap, Reaches;
    var sp := Get(m, SP);
    var m1 := Exec(I(ADDI, SP, SP, -8), m);
    StepItem(prog, p, Push(A0), lm, 0, m);
    ExecAddi(m, SP, SP, -8);
    m' := Exec(Store(8, A0, SP, 0), m1);
    StepItem(prog, p, Push(A0), lm, 1, m1);
    ExecStore(m1, 8, A0, SP, 0);
    ReachesTrans(prog, m, m1, m');
    LoadAfterStore(m.mem, sp - 8, 8, Get(m, A0));
    Convert8Self(Get(m, A0));
    forall s, a | s in sl && fp + sl[s] <= a < fp + sl[s] + s.size
      ensures ByteAt(m'.mem, a) == ByteAt(m.mem, a)
    {
      PutOther(m.mem, sp - 8, 8, Get(m, A0), a);
    }
    MatchSame(sl, fp, m.mem, m'.mem, env);
  }

  lemma Convert8Self(v: Word)
    ensures Convert(8, v) == v
  {
  }

  lemma PopSim(prog: seq<Instr>, p: nat, lm: LabelMap, m: Machine) returns (m': Machine)
    requires CodeAt(prog, p, Pop(T0), lm) && m.pc == 4 * p && 0 <= Get(m, SP) < TWO63 - 8
    ensures Reaches(prog, m, m') && m'.pc == 4 * (p + 2) && m'.mem == m.mem
    ensures m'.regs == m.regs[T0 := LoadSigned(m.mem, Get(m, SP), 8)][SP := Get(m, SP) + 8]
  {
    hide Exec, LoadSigned, Reaches;
    var m1 := Exec(Load(8, T0, SP, 0), m);
    StepItem(prog, p, Pop(T0), lm, 0, m);
    ExecLoad(m, 8, T0, SP, 0);
    m' := Exec(I(ADDI, SP, SP, 8), m1);
    StepItem(prog, p, Pop(T0), lm, 1, m1);
    ExecAddi(m1, SP, SP, 8);
    ReachesTrans(prog, m, m1, m');
  }

  /** The operator instructions turn (t0, a0) into the source operator's value. */
  lemma OpSim(prog: seq<Instr>, p: nat, lm: LabelMap, op: BinOp, m: Machine) returns (m': Machine)
    requires CodeAt(prog, p, OpCode(op), lm) && m.pc == 4 * p
    ensures Reaches(prog, m, m') && m'.pc == 4 * (p + |OpCode(op)|) && m'.mem == m.mem
    ensures m'.regs == m.regs[A0 := BinaryValue(op, Get(m, T0), Get(m, A0))]
  {
    hide Reaches, Wrap, Bitwise, TruncDiv, Unsigned, Pow2;
    var m1 := Exec(OpCode(op)[0].i, m);
    StepItem(prog, p, OpCode(op), lm, 0, m);
    m' := m1;
    if |OpCode(op)| == 2 {
      assert m1.pc == 4 * (p + 1);
      m' := Exec(OpCode(op)[1].i, m1);
      StepItem(prog, p, OpCode(op), lm, 1, m1);
      ReachesTrans(prog, m, m1, m');
      ComparisonValue(op, Get(m, T0), Get(m, A0));
      assert m'.regs == m.regs[A0 := Get(m', A0)];
    }
  }

  /** The two-instruction comparisons. */
  lemma ComparisonValue(op: BinOp, x: Word, y: Word)
    ensures AluImm(XORI, Alu(SLT, y, x), 1) == BinaryValue(Le, x, y)
    ensures AluImm(XORI, Alu(SLT, x, y), 1) == BinaryValue(Ge, x, y)
    ensures AluImm(SLTIU, Alu(XOR, x, y), 1) == BinaryValue(Eq, x, y)
    ensures Alu(SLTU, 0, Alu(XOR, x, y)) == BinaryValue(Ne, x, y)
  {
    hide Bitwise;
    XorOne(Truth(y < x));
    XorOne(Truth(x < y));
    XorZero(x, y);
    WrapUnique(1, 1, 0);
  }

  lemma UnarySim(prog: seq<Instr>, p: nat, lm: LabelMap, op: UnOp, m: Machine) returns (m': Machine)
    requires CodeAt(prog, p, UnaryCode(op), lm) && m.pc == 4 * p
    ensures Reaches(prog, m, m') && m'.pc == 4 * (p + |UnaryCode(op)|) && m'.mem == m.mem
    ensures m'.regs == m.regs[A0 := UnaryValue(op, Get(m, A0))]
  {
    hide Reaches, Bitwise;
    if op == Plus {
      ReachesRefl(prog, m);
      m' := m;
      assert m.regs == m.regs[A0 := m.regs[A0]];
    } else {
      StepItem(prog, p, UnaryCode(op), lm, 0, m);
      m' := Exec(UnaryCode(op)[0].i, m);
      XorOnes(Get(m, A0));
    }
  }

  lemma {:induction false} LiSim(prog: seq<Instr>, p: nat, lm: LabelMap, x: Word, m: Machine)
    returns (m': Machine)
    requires CodeAt(prog, p, LiCode(A0, x), lm) && m.pc == 4 * p
    ensures Reaches(prog, m, m') && m'.pc == 4 * (p + |LiCode(A0, x)|) && m'.mem == m.mem
    ensures m'.regs == m.regs[A0 := LiValue(x)]
    decreases Magnitude(x)
  {
    hide Reaches, Wrap, Pow2, CodeAt;
    if FitsI(x) {
      ExecAddi(m, A0, ZERO, x);
      StepItem(prog, p, LiCode(A0, x), lm, 0, m);
      m' := Exec(I(ADDI, A0, ZERO, x), m);
    } else {
      var hi, shift := LiCode(A0, x / 4096), [Ins(I(SLLI, A0, A0, 12))];
      var low := if x % 4096 != 0 then [Ins(I(ADDI, A0, A0, LowDigit(x)))] else [];
      CodeAtSplit(prog, p, hi + shift, low, lm);
      CodeAtSplit(prog, p, hi, shift, lm);
      var m1 := LiSim(prog, p, lm, x / 4096, m);
      StepItem(prog, p + |hi|, shift, lm, 0, m1);
      var m2 := Exec(I(SLLI, A0, A0, 12), m1);
      ReachesTrans(prog, m, m1, m2);
      m' := m2;
      if x % 4096 != 0 {
        StepItem(prog, p + |hi| + 1, low, lm, 0, m2);
        m' := Exec(I(ADDI, A0, A0, LowDigit(x)), m2);
        ReachesTrans(prog, m, m2, m');
      }
      assert m'.regs == m.regs[A0 := LiValue(x)];
    }
  }

  // ----- compound expressions -----

  datatype Ctx = Ctx(prog: seq<Instr>, lm: LabelMap, sl: Slots, fp: int)

  /** The resolved code of e stands at word p. */
  ghost predicate ExprHere(c: Ctx, e: Expr, n: int, p: nat) {
    && CodeAt(c.prog, p, ExprCode(e, c.sl, n), c.lm)
    && LabelsIn(ExprLabels(e, c.sl, p, n), c.lm)
    && Compilable(e, c.sl)
  }

  /** From m the machine gets to m' at word q, holding the result r. */
  ghost predicate ExprDone(c: Ctx, d: int, m: Machine, m': Machine, q: int, r: Evaluated) {
    && Reaches(c.prog, m, m')
    && m'.pc == 4 * q
    && Get(m', A0) == r.value
    && Match(c.sl, c.fp, m'.mem, r.env)
    && Kept(c.sl, c.fp, d, m, m')
  }

  lemma ReadyKept(c: Ctx, d: int, d': int, m: Machine, m': Machine, env: Env, env': Env)
    requires Ready(c.sl, c.fp, d, m, env) && Kept(c.sl, c.fp, d', m, m') && Match(c.sl, c.fp, m'.mem, env')
    ensures Ready(c.sl, c.fp, d, m', env')
  {
    hide Match, SameMem;
  }

  /** One expression followed by a state in which more code runs. */
  lemma DoneThen(c: Ctx, d: int, m: Machine, m1: Machine, q1: int, r1: Evaluated,
                 d2: int, m2: Machine, q2: int, r2: Evaluated)
    requires ExprDone(c, d, m, m1, q1, r1) && ExprDone(c, d2, m1, m2, q2, r2) && d2 <= d
    ensures ExprDone(c, d, m, m2, q2, r2)
  {
    hide Match, Reaches;
    ReachesTrans(c.prog, m, m1, m2);
    KeptMore(c.sl, c.fp, d2, d, m1, m2);
    KeptTrans(c.sl, c.fp, d, m, m1, m2);
  }

  /** A branch or jump item only moves the pc. */
  lemma BranchSim(c: Ctx, p: nat, it: Item, m: Machine) returns (m': Machine)
    requires CodeAt(c.prog, p, [it], c.lm) && m.pc == 4 * p && !it.Ins?
    ensures Reaches(c.prog, m, m') && p < |c.prog| && m' == Exec(c.prog[p], m)
    ensures var taken := it.Jump? || (it.Beqz? <==> Get(m, A0) == 0);
            m' == m.(pc := if taken then Target(c.lm, it.lab) else 4 * (p + 1))
  {
    hide Reaches;
    StepItem(c.prog, p, [it], c.lm, 0, m);
    m' := Exec(Resolve(it, p, c.lm), m);
  }

  /** A state that differs from an expression's end only in the pc. */
  lemma DoneMoved(c: Ctx, d: int, m: Machine, m1: Machine, q1: int, r: Evaluated, m2: Machine, q2: int)
    requires ExprDone(c, d, m, m1, q1, r) && Reaches(c.prog, m1, m2)
    requires m2 == m1.(pc := 4 * q2)
    ensures ExprDone(c, d, m, m2, q2, r)
  {
    hide Match, Reaches;
    ReachesTrans(c.prog, m, m1, m2);
  }

  lemma DoneValue(c: Ctx, d: int, m: Machine, m1: Machine, q1: int, r1: Evaluated,
                  m2: Machine, q2: int, v: Word)
    requires ExprDone(c, d, m, m1, q1, r1) && Reaches(c.prog, m1, m2)
    requires m2.pc == 4 * q2 && m2.mem == m1.mem && m2.regs == m1.regs[A0 := v]
    ensures ExprDone(c, d, m, m2, q2, Evaluated(v, r1.env))
  {
    hide Match, Reaches;
    ReachesTrans(c.prog, m, m1, m2);
  }

  lemma LabelTarget(l: LabelDef, lm: LabelMap)
    requires LabelsIn([l], lm)
    ensures Target(lm, l.id) == l.off
  {
    assert [l][0] == l;
  }

  lemma BinaryCodeAt(prog: seq<Instr>, p: nat, lm: LabelMap, ca: seq<Item>, cb: seq<Item>, op: BinOp)
    requires CodeAt(prog, p, BinaryShape(ca, cb, op), lm)
    ensures CodeAt(prog, p, ca, lm) && CodeAt(prog, p + |ca|, Push(A0), lm)
    ensures CodeAt(prog, p + |ca| + 2, cb, lm) && CodeAt(prog, p + |ca| + 2 + |cb|, Pop(T0), lm)
    ensures CodeAt(prog, p + |ca| + 2 + |cb| + 2, OpCode(op), lm)
    ensures |BinaryShape(ca, cb, op)| == |ca| + 2 + |cb| + 2 + |OpCode(op)|
  {
    hide CodeAt, OpCode;
    CodeAtSplit4(prog, p, ca + Push(A0), cb, Pop(T0), OpCode(op), lm);
    CodeAtSplit(prog, p, ca, Push(A0), lm);
  }

  lemma BinaryParts(c: Ctx, e: Expr, n: int, p: nat)
    requires e.Binary? && ExprHere(c, e, n, p)
    ensures var nb, pa := n + LabelsOf(e.a), p + |ExprCode(e.a, c.sl, n)|;
            var pe := pa + 2 + |ExprCode(e.b, c.sl, nb)|;
            && ExprHere(c, e.a, n, p)
            && CodeAt(c.prog, pa, Push(A0), c.lm)
            && ExprHere(c, e.b, nb, pa + 2)
            && CodeAt(c.prog, pe, Pop(T0), c.lm)
            && CodeAt(c.prog, pe + 2, OpCode(e.bop), c.lm)
            && pe + 2 + |OpCode(e.bop)| == p + |ExprCode(e, c.sl, n)|
  {
    hide CodeAt, LabelsIn, OpCode, BinaryShape, ExprCode, ExprLabels;
    BinaryUnfold(e, c.sl, p, n);
    var nb := n + LabelsOf(e.a);
    var ca, cb := ExprCode(e.a, c.sl, n), ExprCode(e.b, c.sl, nb);
    BinaryCodeAt(c.prog, p, c.lm, ca, cb, e.bop);
    LabelsInSplit(ExprLabels(e.a, c.sl, p, n), ExprLabels(e.b, c.sl, p + |ca| + 2, nb), c.lm);
  }

  lemma BinarySim(c: Ctx, e: Expr, n: int, p: nat, m: Machine, env: Env) returns (m': Machine)
    requires e.Binary? && ExprHere(c, e, n, p) && m.pc == 4 * p
    requires Ready(c.sl, c.fp, Depth(e), m, env)
    ensures ExprDone(c, Depth(e), m, m', p + |ExprCode(e, c.sl, n)|, Eval(e, env))
    decreases e, 0
  {
    hide Match, Reaches, Frame, CodeAt, SameMem, ExprHere, ExprCode, OpCode, BinaryValue, Put, LoadSigned;
    var Binary(op, a, b) := e;
    var nb, pa := n + LabelsOf(a), p + |ExprCode(a, c.sl, n)|;
    var pe := pa + 2 + |ExprCode(b, c.sl, nb)|;
    BinaryParts(c, e, n, p);
    var ra := Eval(a, env);
    var rb := Eval(b, ra.env);
    var m1 := ExprSim(c, a, n, p, m, env);
    ReadyKept(c, Depth(e), Depth(a), m, m1, env, ra.env);
    var m2 := PushSim(c.prog, pa, c.lm, c.sl, c.fp, Depth(e), m1, ra.env);
    var m3 := ExprSim(c, b, nb, pa + 2, m2, ra.env);
    SpBelow(c, m1, ra.env, Depth(e));
    PoppedValue(c, Depth(b), m1, m2, m3, ra.env);
    var m4 := PopSim(c.prog, pe, c.lm, m3);
    m' := OpSim(c.prog, pe + 2, c.lm, op, m4);
    ReachesTrans(c.prog, m3, m4, m');
    ReachesTrans(c.prog, m2, m3, m');
    ReachesTrans(c.prog, m1, m2, m');
    ReachesTrans(c.prog, m, m1, m');
    SameMemRefl(c.sl, c.fp, m3.mem);
    PushedKept(c, Depth(e), Depth(b), m1, m2, m3, m');
    KeptMore(c.sl, c.fp, Depth(a), Depth(e), m, m1);
    KeptTrans(c.sl, c.fp, Depth(e), m, m1, m');
  }

  lemma SpBelow(c: Ctx, m: Machine, env: Env, d: int)
    requires Ready(c.sl, c.fp, d, m, env) && d >= 1
    ensures 8 <= Get(m, SP) < TWO63
  {
  }

  /** The pushed cell survives the code that runs above it. */
  lemma PoppedValue(c: Ctx, d: nat, m1: Machine, m2: Machine, m3: Machine, env: Env)
    requires Ready(c.sl, c.fp, 1, m1, env)
    requires m2.regs == m1.regs[SP := Get(m1, SP) - 8]
    requires Kept(c.sl, c.fp, d, m2, m3)
    ensures LoadSigned(m3.mem, Get(m1, SP) - 8, 8) == LoadSigned(m2.mem, Get(m1, SP) - 8, 8)
    ensures Get(m3, SP) == Get(m1, SP) - 8
  {
    hide Convert, ByteAt, Fetch;
    var sp := Get(m1, SP);
    forall x | sp - 8 <= x < sp ensures ByteAt(m3.mem, x) == ByteAt(m2.mem, x) {
      assert OutsideSlots(c.sl, c.fp, x);
    }
    FetchSame(m2.mem, m3.mem, sp - 8, 8);
  }

  /** Push, inner code and pop together keep what the whole may not touch. */
  lemma PushedKept(c: Ctx, d: nat, d': nat, m1: Machine, m2: Machine, m3: Machine, m4: Machine)
    requires 1 + d' <= d && 8 <= Get(m1, SP)
    requires m2.regs == m1.regs[SP := Get(m1, SP) - 8]
    requires m2.mem == Put(m1.mem, Get(m1, SP) - 8, 8, Get(m1, A0))
    requires Kept(c.sl, c.fp, d', m2, m3)
    requires SameMem(c.sl, c.fp, 0, 0, m3.mem, m4.mem)
    requires forall r: Reg :: r != T0 && r != A0 && r != SP ==> m4.regs[r] == m3.regs[r]
    requires Get(m4, SP) == Get(m1, SP)
    ensures Kept(c.sl, c.fp, d, m1, m4)
  {
    hide ByteAt, Put, OutsideSlots;
    var sp := Get(m1, SP);
    forall a | (a < sp - 8 * d || sp <= a) && OutsideSlots(c.sl, c.fp, a)
      ensures ByteAt(m4.mem, a) == ByteAt(m1.mem, a)
    {
      PutOther(m1.mem, sp - 8, 8, Get(m1, A0), a);
    }
  }

  lemma AssignCodeAt(prog: seq<Instr>, p: nat, lm: LabelMap, s: Symbol, off: int, cb: seq<Item>)
    requires CodeAt(prog, p, AssignShape(s, off, cb), lm)
    ensures CodeAt(prog, p, [Ins(I(ADDI, A0, FP, off))], lm) && CodeAt(prog, p + 1, Push(A0), lm)
    ensures CodeAt(prog, p + 3, cb, lm) && CodeAt(prog, p + 3 + |cb|, Pop(T0), lm)
    ensures CodeAt(prog, p + 3 + |cb| + 2, [Ins(Store(s.size, A0, T0, 0))], lm)
    ensures |AssignShape(s, off, cb)| == 3 + |cb| + 3
  {
    hide CodeAt;
    var addr, st := [Ins(I(ADDI, A0, FP, off))], [Ins(Store(s.size, A0, T0, 0))];
    CodeAtSplit4(prog, p, addr + Push(A0), cb, Pop(T0), st, lm);
    CodeAtSplit(prog, p, addr, Push(A0), lm);
  }

  /** `addi a0, s0, off` leaves the address of a local in a0. */
  lemma AddressSim(c: Ctx, s: Symbol, p: nat, d: int, m: Machine, env: Env) returns (m': Machine)
    requires s in c.sl && CodeAt(c.prog, p, [Ins(I(ADDI, A0, FP, c.sl[s]))], c.lm) && m.pc == 4 * p
    requires Ready(c.sl, c.fp, d, m, env)
    ensures Reaches(c.prog, m, m') && m'.pc == 4 * (p + 1) && m'.mem == m.mem
    ensures 0 <= c.fp + c.sl[s] < TWO63 && m'.regs == m.regs[A0 := c.fp + c.sl[s]]
    ensures Ready(c.sl, c.fp, d, m', env)
  {
    hide Match, Reaches, CodeAt, Exec;
    StepItem(c.prog, p, [Ins(I(ADDI, A0, FP, c.sl[s]))], c.lm, 0, m);
    ExecAddi(m, A0, FP, c.sl[s]);
    m' := Exec(I(ADDI, A0, FP, c.sl[s]), m);
  }

  lemma StoreSim(c: Ctx, s: Symbol, p: nat, m: Machine, env: Env, sp: int) returns (m': Machine)
    requires s in c.sl && CodeAt(c.prog, p, [Ins(Store(s.size, A0, T0, 0))], c.lm) && m.pc == 4 * p
    requires Get(m, T0) == c.fp + c.sl[s] && Frame(c.sl, c.fp, sp) && Match(c.sl, c.fp, m.mem, env)
    ensures Reaches(c.prog, m, m') && m'.pc == 4 * (p + 1) && m'.regs == m.regs
    ensures Match(c.sl, c.fp, m'.mem, env[s := Convert(s.size, Get(m, A0))])
    ensures SameMem(c.sl, c.fp, 0, 0, m.mem, m'.mem)
  {
    hide Match, Reaches, CodeAt, Exec, Put, Convert, Frame, SameMem;
    StepItem(c.prog, p, [Ins(Store(s.size, A0, T0, 0))], c.lm, 0, m);
    ExecStore(m, s.size, A0, T0, 0);
    m' := Exec(Store(s.size, A0, T0, 0), m);
    MatchAssign(c.sl, c.fp, sp, m.mem, env, s, Get(m, A0));
    PutSlotSame(c.sl, c.fp, m.mem, s, Get(m, A0), 0, 0);
  }

  lemma AssignSim(c: Ctx, e: Expr, n: int, p: nat, m: Machine, env: Env) returns (m': Machine)
    requires e.Assign? && ExprHere(c, e, n, p) && m.pc == 4 * p
    requires Ready(c.sl, c.fp, Depth(e), m, env)
    ensures ExprDone(c, Depth(e), m, m', p + |ExprCode(e, c.sl, n)|, Eval(e, env))
    decreases e, 0
  {
    hide Match, Reaches, Frame, CodeAt, SameMem, AssignShape, Put, LoadSigned, Convert, LabelsIn;
    var Assign(s, b) := e;
    var pe, d := p + 3 + |ExprCode(b, c.sl, n)|, Depth(e);
    AssignCodeAt(c.prog, p, c.lm, s, c.sl[s], ExprCode(b, c.sl, n));
    var m1 := AddressSim(c, s, p, d, m, env);
    var m2 := PushSim(c.prog, p + 1, c.lm, c.sl, c.fp, d, m1, env);
    var m3 := ExprSim(c, b, n, p + 3, m2, env);
    var rb := Eval(b, env);
    SpBelow(c, m1, env, d);
    PoppedValue(c, Depth(b), m1, m2, m3, env);
    var m4 := PopSim(c.prog, pe, c.lm, m3);
    m' := StoreSim(c, s, pe + 2, m4, rb.env, Get(m, SP));
    ReachesTrans(c.prog, m3, m4, m');
    ReachesTrans(c.prog, m2, m3, m');
    ReachesTrans(c.prog, m1, m2, m');
    ReachesTrans(c.prog, m, m1, m');
    PushedKept(c, d, Depth(b), m1, m2, m3, m');
    KeptFrom(c, d, m, m1, m');
  }

  lemma SameMemRefl(sl: Slots, fp: int, mem: Mem)
    ensures SameMem(sl, fp, 0, 0, mem, mem)
  {
  }

  lemma KeptFrom(c: Ctx, d: int, m: Machine, m1: Machine, m2: Machine)
    requires SameRegs(m, m1) && m1.mem == m.mem && Kept(c.sl, c.fp, d, m1, m2)
    ensures Kept(c.sl, c.fp, d, m, m2)
  {
    hide ByteAt, OutsideSlots;
  }

  /** The end of a short-circuit operator: load a truth value and leave. */
  lemma ArmSim(c: Ctx, q: nat, v: Word, d: int, m: Machine, m1: Machine, r: Evaluated) returns (m': Machine)
    requires 0 <= v <= 1 && CodeAt(c.prog, q, LiCode(A0, v), c.lm)
    requires ExprDone(c, d, m, m1, q, r)
    ensures ExprDone(c, d, m, m', q + 1, Evaluated(v, r.env))
  {
    hide ExprDone, CodeAt, Reaches;
    m' := DoneLi(c, q, v, d, m, m1, r);
  }

  lemma DoneLi(c: Ctx, q: nat, v: Word, d: int, m: Machine, m1: Machine, r: Evaluated) returns (m': Machine)
    requires CodeAt(c.prog, q, LiCode(A0, v), c.lm) && LiExact(v)
    requires ExprDone(c, d, m, m1, q, r)
    ensures ExprDone(c, d, m, m', q + |LiCode(A0, v)|, Evaluated(v, r.env))
  {
    hide CodeAt, Reaches, Match, Kept, LiCode, LiExact;
    m' := LiSim(c.prog, q, c.lm, v, m1);
    LiExactIff(v);
    DoneValue(c, d, m, m1, q, r, m', q + |LiCode(A0, v)|, v);
  }

  function ShortBranch(e: Expr, n: int): Item {
    if e.LogAnd? then Beqz(n) else Bnez(n)
  }

  /** Value of e when an operand decides it: 0 for `&&`, 1 for `||`. */
  function ShortValue(e: Expr): Word { if e.LogAnd? then 0 else 1 }

  predicate Decides(e: Expr, v: Word) { (v == 0) == e.LogAnd? }

  lemma ShortCodeAt(prog: seq<Instr>, p: nat, lm: LabelMap, ca: seq<Item>, cb: seq<Item>, br: Item, v: int, n: int)
    requires 0 <= v <= 1 && CodeAt(prog, p, ShortShape(ca, cb, br, v, n), lm)
    ensures var pb := p + |ca| + 1 + |cb|;
            && CodeAt(prog, p, ca, lm) && CodeAt(prog, p + |ca|, [br], lm)
            && CodeAt(prog, p + |ca| + 1, cb, lm) && CodeAt(prog, pb, [br], lm)
            && CodeAt(prog, pb + 1, LiCode(A0, 1 - v), lm) && CodeAt(prog, pb + 2, [Jump(n + 1)], lm)
            && CodeAt(prog, pb + 3, LiCode(A0, v), lm)
            && p + |ShortShape(ca, cb, br, v, n)| == pb + 4
  {
    hide CodeAt;
    CodeAtSplit4(prog, p, ca + [br] + cb + [br], LiCode(A0, 1 - v), [Jump(n + 1)], LiCode(A0, v), lm);
    CodeAtSplit4(prog, p, ca, [br], cb, [br], lm);
  }

  lemma ShortDefsIn(la: seq<LabelDef>, lb: seq<LabelDef>, n: int, px: int, lm: LabelMap)
    requires LabelsIn(ShortDefs(la, lb, n, px), lm)
    ensures LabelsIn(la, lm) && LabelsIn(lb, lm) && Target(lm, n) == 4 * px && Target(lm, n + 1) == 4 * (px + 1)
  {
    hide LabelsIn, Target;
    LabelsInSplit4(la, lb, [LabelDef(n, 4 * px)], [LabelDef(n + 1, 4 * (px + 1))], lm);
    LabelTarget(LabelDef(n, 4 * px), lm);
    LabelTarget(LabelDef(n + 1, 4 * (px + 1)), lm);
  }

  /** The pieces of a short-circuit operator and where they stand. */
  lemma ShortParts(c: Ctx, e: Expr, n: int, p: nat)
    requires (e.LogAnd? || e.LogOr?) && ExprHere(c, e, n, p)
    ensures var nb := n + 2 + LabelsOf(e.a);
            var pa := p + |ExprCode(e.a, c.sl, n + 2)|;
            var pb := pa + 1 + |ExprCode(e.b, c.sl, nb)|;
            && ExprHere(c, e.a, n + 2, p)
            && CodeAt(c.prog, pa, [ShortBranch(e, n)], c.lm)
            && ExprHere(c, e.b, nb, pa + 1)
            && CodeAt(c.prog, pb, [ShortBranch(e, n)], c.lm)
            && CodeAt(c.prog, pb + 1, LiCode(A0, 1 - ShortValue(e)), c.lm)
            && CodeAt(c.prog, pb + 2, [Jump(n + 1)], c.lm)
            && CodeAt(c.prog, pb + 3, LiCode(A0, ShortValue(e)), c.lm)
            && Target(c.lm, n) == 4 * (pb + 3) && Target(c.lm, n + 1) == 4 * (pb + 4)
            && pb + 4 == p + |ExprCode(e, c.sl, n)|
  {
    hide CodeAt, LabelsIn, Target, ShortShape, ShortDefs, LiCode, ExprCode, ExprLabels;
    ShortUnfold(e, c.sl, p, n);
    var nb := n + 2 + LabelsOf(e.a);
    var ca, cb := ExprCode(e.a, c.sl, n + 2), ExprCode(e.b, c.sl, nb);
    ShortCodeAt(c.prog, p, c.lm, ca, cb, ShortBranch(e, n), ShortValue(e), n);
    ShortDefsIn(ExprLabels(e.a, c.sl, p, n + 2), ExprLabels(e.b, c.sl, p + |ca| + 1, nb), n,
                p + |ca| + 1 + ArmAfter(cb), c.lm);
  }

  lemma ShortSim(c: Ctx, e: Expr, n: int, p: nat, m: Machine, env: Env) returns (m': Machine)
    requires (e.LogAnd? || e.LogOr?) && ExprHere(c, e, n, p) && m.pc == 4 * p
    requires Ready(c.sl, c.fp, Depth(e), m, env)
    ensures ExprDone(c, Depth(e), m, m', p + |ExprCode(e, c.sl, n)|, Eval(e, env))
    decreases e, 0
  {
    hide Match, Reaches, Frame, CodeAt, ExprHere, SameMem, ExprCode, ExprLabels, SameRegs, Kept;
    var d, v := Depth(e), ShortValue(e);
    var nb := n + 2 + LabelsOf(e.a);
    var pa := p + |ExprCode(e.a, c.sl, n + 2)|;
    var pb := pa + 1 + |ExprCode(e.b, c.sl, nb)|;
    ShortParts(c, e, n, p);
    var ra := Eval(e.a, env);
    var m1 := ExprSim(c, e.a, n + 2, p, m, env);
    KeptMore(c.sl, c.fp, Depth(e.a), d, m, m1);
    var m2 := BranchSim(c, pa, ShortBranch(e, n), m1);
    if Decides(e, ra.value) {
      DoneMoved(c, d, m, m1, pa, ra, m2, pb + 3);
      m' := ArmSim(c, pb + 3, v, d, m, m2, ra);
    } else {
      DoneMoved(c, d, m, m1, pa, ra, m2, pa + 1);
      ReadyKept(c, d, d, m, m2, env, ra.env);
      var rb := Eval(e.b, ra.env);
      var m3 := ExprSim(c, e.b, nb, pa + 1, m2, ra.env);
      DoneThen(c, d, m, m2, pa + 1, ra, Depth(e.b), m3, pb, rb);
      var m4 := BranchSim(c, pb, ShortBranch(e, n), m3);
      if Decides(e, rb.value) {
        DoneMoved(c, d, m, m3, pb, rb, m4, pb + 3);
        m' := ArmSim(c, pb + 3, v, d, m, m4, rb);
      } else {
        DoneMoved(c, d, m, m3, pb, rb, m4, pb + 1);
        var m5 := ArmSim(c, pb + 1, 1 - v, d, m, m4, rb);
        m' := BranchSim(c, pb + 2, Jump(n + 1), m5);
        DoneMoved(c, d, m, m5, pb + 2, Evaluated(1 - v, rb.env), m', pb + 4);
      }
    }
  }

  lemma CondCodeAt(prog: seq<Instr>, p: nat, lm: LabelMap, ca: seq<Item>, cb: seq<Item>, cc: seq<Item>, n: int)
    requires CodeAt(prog, p, CondShape(ca, cb, cc, n), lm)
    ensures CodeAt(prog, p, ca, lm) && CodeAt(prog, p + |ca|, [Beqz(n)], lm)
    ensures CodeAt(prog, p + |ca| + 1, cb, lm) && CodeAt(prog, p + |ca| + 1 + |cb|, [Jump(n + 1)], lm)
    ensures CodeAt(prog, p + |ca| + 1 + |cb| + 1, cc, lm)
    ensures |CondShape(ca, cb, cc, n)| == |ca| + 1 + |cb| + 1 + |cc|
  {
    hide CodeAt;
    CodeAtSplit4(prog, p, ca + [Beqz(n)], cb, [Jump(n + 1)], cc, lm);
    CodeAtSplit(prog, p, ca, [Beqz(n)], lm);
  }

  lemma CondDefsIn(la: seq<LabelDef>, lb: seq<LabelDef>, lc: seq<LabelDef>, n: int, pc: int, pe: int, lm: LabelMap)
    requires LabelsIn(CondDefs(la, lb, lc, n, pc, pe), lm)
    ensures LabelsIn(la, lm) && LabelsIn(lb, lm) && LabelsIn(lc, lm)
    ensures Target(lm, n) == 4 * pc && Target(lm, n + 1) == 4 * pe
  {
    hide LabelsIn, Target;
    LabelsInSplit4(la + lb, [LabelDef(n, 4 * pc)], lc, [LabelDef(n + 1, 4 * pe)], lm);
    LabelsInSplit(la, lb, lm);
    LabelTarget(LabelDef(n, 4 * pc), lm);
    LabelTarget(LabelDef(n + 1, 4 * pe), lm);
  }

  lemma CondParts(c: Ctx, e: Expr, n: int, p: nat)
    requires e.Cond? && ExprHere(c, e, n, p)
    ensures var nb, nc := n + 2 + LabelsOf(e.a), n + 2 + LabelsOf(e.a) + LabelsOf(e.b);
            var pa := p + |ExprCode(e.a, c.sl, n + 2)|;
            var pb := pa + 1 + |ExprCode(e.b, c.sl, nb)|;
            var pe := pb + 1 + |ExprCode(e.c, c.sl, nc)|;
            && ExprHere(c, e.a, n + 2, p)
            && CodeAt(c.prog, pa, [Beqz(n)], c.lm)
            && ExprHere(c, e.b, nb, pa + 1)
            && CodeAt(c.prog, pb, [Jump(n + 1)], c.lm)
            && ExprHere(c, e.c, nc, pb + 1)
            && Target(c.lm, n) == 4 * (pb + 1) && Target(c.lm, n + 1) == 4 * pe
            && pe == p + |ExprCode(e, c.sl, n)|
  {
    hide CodeAt, LabelsIn, Target, CondShape, CondDefs, ExprCode, ExprLabels;
    CondUnfold(e, c.sl, p, n);
    var nb, nc := n + 2 + LabelsOf(e.a), n + 2 + LabelsOf(e.a) + LabelsOf(e.b);
    var ca, cb, cc := ExprCode(e.a, c.sl, n + 2), ExprCode(e.b, c.sl, nb), ExprCode(e.c, c.sl, nc);
    CondCodeAt(c.prog, p, c.lm, ca, cb, cc, n);
    var pb := p + |ca| + 1;
    var pc := pb + |cb| + 1;
    CondDefsIn(ExprLabels(e.a, c.sl, p, n + 2), ExprLabels(e.b, c.sl, pb, nb), ExprLabels(e.c, c.sl, pc, nc),
               n, pc, pc + |cc|, c.lm);
  }

  lemma CondSim(c: Ctx, e: Expr, n: int, p: nat, m: Machine, env: Env) returns (m': Machine)
    requires e.Cond? && ExprHere(c, e, n, p) && m.pc == 4 * p
    requires Ready(c.sl, c.fp, Depth(e), m, env)
    ensures ExprDone(c, Depth(e), m, m', p + |ExprCode(e, c.sl, n)|, Eval(e, env))
    decreases e, 0
  {
    hide Match, Reaches, Frame, CodeAt, ExprHere, SameMem, ExprCode, ExprLabels, SameRegs, Kept;
    var d := Depth(e);
    var nb, nc := n + 2 + LabelsOf(e.a), n + 2 + LabelsOf(e.a) + LabelsOf(e.b);
    var pa := p + |ExprCode(e.a, c.sl, n + 2)|;
    var pb := pa + 1 + |ExprCode(e.b, c.sl, nb)|;
    var pe := pb + 1 + |ExprCode(e.c, c.sl, nc)|;
    CondParts(c, e, n, p);
    var ra := Eval(e.a, env);
    var m1 := ExprSim(c, e.a, n + 2, p, m, env);
    KeptMore(c.sl, c.fp, Depth(e.a), d, m, m1);
    var m2 := BranchSim(c, pa, Beqz(n), m1);
    if ra.value != 0 {
      DoneMoved(c, d, m, m1, pa, ra, m2, pa + 1);
      ReadyKept(c, d, d, m, m2, env, ra.env);
      var m3 := ExprSim(c, e.b, nb, pa + 1, m2, ra.env);
      DoneThen(c, d, m, m2, pa + 1, ra, Depth(e.b), m3, pb, Eval(e.b, ra.env));
      m' := BranchSim(c, pb, Jump(n + 1), m3);
      DoneMoved(c, d, m, m3, pb, Eval(e.b, ra.env), m', pe);
    } else {
      DoneMoved(c, d, m, m1, pa, ra, m2, pb + 1);
      ReadyKept(c, d, d, m, m2, env, ra.env);
      m' := ExprSim(c, e.c, nc, pb + 1, m2, ra.env);
      DoneThen(c, d, m, m2, pb + 1, ra, Depth(e.c), m', pe, Eval(e.c, ra.env));
    }
  }

  lemma DoneHere(c: Ctx, d: int, m: Machine, env: Env, q: int)
    requires Ready(c.sl, c.fp, d, m, env) && m.pc == 4 * q
    ensures ExprDone(c, d, m, m, q, Evaluated(Get(m, A0), env))
  {
    hide Reaches;
    ReachesRefl(c.prog, m);
  }

  lemma VarSim(c: Ctx, e: Expr, n: int, p: nat, m: Machine, env: Env) returns (m': Machine)
    requires e.Var? && ExprHere(c, e, n, p) && m.pc == 4 * p
    requires Ready(c.sl, c.fp, 0, m, env)
    ensures ExprDone(c, 0, m, m', p + |ExprCode(e, c.sl, n)|, Eval(e, env))
  {
    hide Reaches, CodeAt, LoadSigned, Exec, SameMem;
    var s := e.sym;
    StepItem(c.prog, p, ExprCode(e, c.sl, n), c.lm, 0, m);
    ExecLoad(m, s.size, A0, FP, c.sl[s]);
    m' := Exec(Load(s.size, A0, FP, c.sl[s]), m);
    DoneHere(c, 0, m, env, p);
    DoneValue(c, 0, m, m, p, Evaluated(Get(m, A0), env), m', p + 1, Lookup(env, s));
  }

  lemma UnaryExprSim(c: Ctx, e: Expr, n: int, p: nat, m: Machine, env: Env) returns (m': Machine)
    requires e.Unary? && ExprHere(c, e, n, p) && m.pc == 4 * p
    requires Ready(c.sl, c.fp, Depth(e), m, env)
    ensures ExprDone(c, Depth(e), m, m', p + |ExprCode(e, c.sl, n)|, Eval(e, env))
    decreases e, 0
  {
    hide Match, Reaches, Frame, CodeAt, LabelsIn, SameMem, SameRegs, UnaryValue, UnaryCode;
    var Unary(op, a) := e;
    var ca := ExprCode(a, c.sl, n);
    CodeAtSplit(c.prog, p, ca, UnaryCode(op), c.lm);
    var ra := Eval(a, env);
    var m1 := ExprSim(c, a, n, p, m, env);
    m' := UnarySim(c.prog, p + |ca|, c.lm, op, m1);
    DoneValue(c, Depth(e), m, m1, p + |ca|, ra, m', p + |ca| + |UnaryCode(op)|, UnaryValue(op, ra.value));
  }

  /** Expression compilation preserves meaning. */
  lemma {:induction false} ExprSim(c: Ctx, e: Expr, n: int, p: nat, m: Machine, env: Env)
    returns (m': Machine)
    requires ExprHere(c, e, n, p) && m.pc == 4 * p
    requires Ready(c.sl, c.fp, Depth(e), m, env)
    ensures ExprDone(c, Depth(e), m, m', p + |ExprCode(e, c.sl, n)|, Eval(e, env))
    decreases e, 1
  {
    hide Match, Reaches, Frame, CodeAt, LabelsIn, SameMem, SameRegs, LiCode, Kept, LiExact;
    match e {
      case Int(v) =>
        DoneHere(c, 0, m, env, p);
        m' := DoneLi(c, p, v, 0, m, m, Evaluated(Get(m, A0), env));
      case Var(_) => m' := VarSim(c, e, n, p, m, env);
      case Unary(_, _) => m' := UnaryExprSim(c, e, n, p, m, env);
      case Binary(_, _, _) => m' := BinarySim(c, e, n, p, m, env);
      case LogAnd(_, _) => m' := ShortSim(c, e, n, p, m, env);
      case LogOr(_, _) => m' := ShortSim(c, e, n, p, m, env);
      case Assign(_, _) => m' := AssignSim(c, e, n, p, m, env);
      case Cond(_, _, _) => m' := CondSim(c, e, n, p, m, env);
    }
  }
}
