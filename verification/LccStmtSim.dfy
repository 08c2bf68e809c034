/** Statement code preserves meaning, in both directions: a run that ends at source level is
    followed by the machine to the matching label, and a run that does not end keeps the
    machine running. */
module LccStmtSim {
  import opened Prelude
  import opened Rv64
  import opened RvMachine
  import opened MiniC
  import opened LccCode
  import opened LccExprSim

  function OptDepth(e: Option<Expr>): nat {
    if e.Some? then Depth(e.value) else 0
  }

  /** Stack cells that the statement's code pushes at most. */
  function StmtDepth(s: Stmt): nat {
    match s
    case Block(body) => BlockDepth(body)
    case Decl(_, init) => OptDepth(init)
    case ExprStmt(e) => Depth(e)
    case If(e, s1, s2) => Max(Depth(e), Max(StmtDepth(s1), if s2.Some? then StmtDepth(s2.value) else 0))
    case While(e, s1) => Max(Depth(e), StmtDepth(s1))
    case For(init, cond, step, s1) =>
      Max(Max(OptDepth(cond), OptDepth(step)),
          Max(StmtDepth(s1), if init.Some? then StmtDepth(init.value) else 0))
    case Return(result) => OptDepth(result)
    case Break => 0
    case Continue => 0
  }

  function BlockDepth(body: seq<Stmt>): nat {
    if body == [] then 0 else Max(StmtDepth(body[0]), BlockDepth(body[1..]))
  }

  predicate OptOk(e: Option<Expr>, sl: Slots) {
    e.Some? ==> Compilable(e.value, sl)
  }

  /** Every variable has a slot and every constant can be materialised. */
  predicate StmtOk(s: Stmt, sl: Slots) {
    match s
    case Block(body) => BlockOk(body, sl)
    case Decl(sym, init) => sym in sl && OptOk(init, sl)
    case ExprStmt(e) => Compilable(e, sl)
    case If(e, s1, s2) => Compilable(e, sl) && StmtOk(s1, sl) && (s2.Some? ==> StmtOk(s2.value, sl))
    case While(e, s1) => Compilable(e, sl) && StmtOk(s1, sl)
    case For(init, cond, step, s1) =>
      && (init.Some? ==> StmtOk(init.value, sl))
      && OptOk(cond, sl) && OptOk(step, sl) && StmtOk(s1, sl)
    case Return(result) => OptOk(result, sl)
    case Break => true
    case Continue => true
  }

  predicate BlockOk(body: seq<Stmt>, sl: Slots) {
    body != [] ==> StmtOk(body[0], sl) && BlockOk(body[1..], sl)
  }

  // ----- states of a statement run -----

  ghost predicate StmtHere(c: Ctx, t: Targets, s: Stmt, n: int, p: nat) {
    && CodeAt(c.prog, p, StmtCode(s, c.sl, n, t), c.lm)
    && LabelsIn(StmtLabels(s, c.sl, p, n, t), c.lm)
    && StmtOk(s, c.sl)
  }

  ghost predicate BlockHere(c: Ctx, t: Targets, body: seq<Stmt>, n: int, p: nat) {
    && CodeAt(c.prog, p, BlockCode(body, c.sl, n, t), c.lm)
    && LabelsIn(BlockLabels(body, c.sl, p, n, t), c.lm)
    && BlockOk(body, c.sl)
  }

  ghost predicate OptHere(c: Ctx, e: Option<Expr>, n: int, p: nat) {
    e.Some? ==> ExprHere(c, e.value, n, p)
  }

  /** Where each way of ending puts the machine. */
  ghost predicate Landed(c: Ctx, t: Targets, q: int, out: Outcome, m: Machine) {
    match out
    case Normal => m.pc == 4 * q
    case Broke => m.pc == Target(c.lm, t.brk)
    case Continued => m.pc == Target(c.lm, t.cont)
    case Returned(v) => m.pc == Target(c.lm, t.ret) && Get(m, A0) == v
  }

  ghost predicate RunsAtLeast(prog: seq<Instr>, m: Machine, k: int) {
    exists n: nat :: n >= k && Iterate(Stepper(prog), m, n).Some?
  }

  /** The machine's side of a source run r: the same ending in m', or at least fuel steps. */
  ghost predicate Follows(c: Ctx, t: Targets, d: int, m: Machine, m': Machine, q: int,
                          fuel: nat, r: Option<Done>) {
    if r.None? then RunsAtLeast(c.prog, m, fuel) else
    && Reaches(c.prog, m, m')
    && Landed(c, t, q, r.value.out, m')
    && Match(c.sl, c.fp, m'.mem, r.value.env)
    && Kept(c.sl, c.fp, d, m, m')
  }

  // ----- composition -----

  lemma RunsAfter(prog: seq<Instr>, a: Machine, b: Machine, k: int)
    requires Reaches(prog, a, b) && RunsAtLeast(prog, b, k)
    ensures RunsAtLeast(prog, a, k)
  {
    var j: nat :| Iterate(Stepper(prog), a, j) == Some(b);
    var n: nat :| n >= k && Iterate(Stepper(prog), b, n).Some?;
    IterateAdd(Stepper(prog), a, j, n);
    assert j + n >= k;
  }

  lemma RunsStep(prog: seq<Instr>, a: Machine, p: nat, k: int)
    requires p < |prog| && a.pc == 4 * p && RunsAtLeast(prog, Exec(prog[p], a), k)
    ensures RunsAtLeast(prog, a, k + 1)
  {
    hide Exec;
    var b := Exec(prog[p], a);
    var n: nat :| n >= k && Iterate(Stepper(prog), b, n).Some?;
    assert Stepper(prog)(a) == Some(b);
    assert Iterate(Stepper(prog), a, n + 1) == Iterate(Stepper(prog), b, n);
  }

  lemma RunsFewer(prog: seq<Instr>, m: Machine, k: int, k': int)
    requires RunsAtLeast(prog, m, k) && k' <= k
    ensures RunsAtLeast(prog, m, k')
  {
    var n: nat :| n >= k && Iterate(Stepper(prog), m, n).Some?;
    assert n >= k';
  }

  /** What runs after an expression decides the whole. */
  lemma FollowsAfter(c: Ctx, t: Targets, d: int, d1: int, m: Machine, m1: Machine, m': Machine, q: int,
                     fuel: nat, r: Option<Done>)
    requires Reaches(c.prog, m, m1) && Kept(c.sl, c.fp, d1, m, m1) && d1 <= d
    requires Follows(c, t, d, m1, m', q, fuel, r)
    ensures Follows(c, t, d, m, m', q, fuel, r)
  {
    hide Reaches, RunsAtLeast, Match;
    if r.None? {
      RunsAfter(c.prog, m, m1, fuel);
    } else {
      ReachesTrans(c.prog, m, m1, m');
      KeptMore(c.sl, c.fp, d1, d, m, m1);
      KeptTrans(c.sl, c.fp, d, m, m1, m');
    }
  }

  lemma FollowsMore(c: Ctx, t: Targets, d: int, d': int, m: Machine, m': Machine, q: int,
                    fuel: nat, r: Option<Done>)
    requires Follows(c, t, d, m, m', q, fuel, r) && d <= d'
    ensures Follows(c, t, d', m, m', q, fuel, r)
  {
    hide Reaches, RunsAtLeast, Match;
    if r.Some? { KeptMore(c.sl, c.fp, d, d', m, m'); }
  }

  /** A normal ending that only has to move on to word q'. */
  lemma FollowsMoved(c: Ctx, t: Targets, d: int, m: Machine, m1: Machine, q: int, fuel: nat, r: Option<Done>,
                     m2: Machine, q': int)
    requires Follows(c, t, d, m, m1, q, fuel, r)
    requires r.Some? && r.value.out == Normal ==> Reaches(c.prog, m1, m2) && m2 == m1.(pc := 4 * q')
    requires r.Some? && r.value.out != Normal ==> m2 == m1
    ensures Follows(c, t, d, m, m2, q', fuel, r)
  {
    hide Reaches, RunsAtLeast, Match;
    if r.Some? && r.value.out == Normal { ReachesTrans(c.prog, m, m1, m2); }
  }

  /** An expression's end as a normal statement ending. */
  lemma DoneFollows(c: Ctx, t: Targets, d: int, m: Machine, m': Machine, q: int, fuel: nat, r: Evaluated)
    requires ExprDone(c, d, m, m', q, r)
    ensures Follows(c, t, d, m, m', q, fuel, Some(Done(Normal, r.env)))
  {
    hide Reaches, RunsAtLeast, Match, Kept;
  }

  // ----- simple statements -----

  lemma DeclSim(c: Ctx, t: Targets, s: Stmt, n: int, p: nat, m: Machine, env: Env, fuel: nat)
    returns (m': Machine)
    requires s.Decl? && StmtHere(c, t, s, n, p) && m.pc == 4 * p
    requires Ready(c.sl, c.fp, StmtDepth(s), m, env)
    ensures Follows(c, t, StmtDepth(s), m, m', p + |StmtCode(s, c.sl, n, t)|, fuel, ExecStmt(s, env, fuel))
  {
    hide Reaches, RunsAtLeast, Match, CodeAt, LabelsIn, SameMem, Frame, Convert;
    var d := StmtDepth(s);
    if s.init.None? {
      m' := m;
      DoneHere(c, d, m, env, p);
      DoneFollows(c, t, d, m, m, p, fuel, Evaluated(Get(m, A0), env));
    } else {
      var e, sym := s.init.value, s.sym;
      var ce, st := ExprCode(e, c.sl, n), [Ins(Store(sym.size, A0, FP, Off(c.sl, sym)))];
      CodeAtSplit(c.prog, p, ce, st, c.lm);
      var m1 := ExprSim(c, e, n, p, m, env);
      var r := Eval(e, env);
      ReadyKept(c, d, d, m, m1, env, r.env);
      m' := LocalStoreSim(c, sym, p + |ce|, d, m1, r.env);
      ReachesTrans(c.prog, m, m1, m');
      StoredKept(c, d, m, m1, m');
    }
  }

  lemma LocalStoreSim(c: Ctx, s: Symbol, p: nat, d: int, m: Machine, env: Env) returns (m': Machine)
    requires s in c.sl && CodeAt(c.prog, p, [Ins(Store(s.size, A0, FP, c.sl[s]))], c.lm) && m.pc == 4 * p
    requires Ready(c.sl, c.fp, d, m, env)
    ensures Reaches(c.prog, m, m') && m'.pc == 4 * (p + 1) && m'.regs == m.regs
    ensures Match(c.sl, c.fp, m'.mem, env[s := Convert(s.size, Get(m, A0))])
    ensures SameMem(c.sl, c.fp, 0, 0, m.mem, m'.mem)
  {
    hide Match, Reaches, CodeAt, Exec, Put, Convert, SameMem;
    StepItem(c.prog, p, [Ins(Store(s.size, A0, FP, c.sl[s]))], c.lm, 0, m);
    ExecStore(m, s.size, A0, FP, c.sl[s]);
    m' := Exec(Store(s.size, A0, FP, c.sl[s]), m);
    MatchAssign(c.sl, c.fp, Get(m, SP), m.mem, env, s, Get(m, A0));
    PutSlotSame(c.sl, c.fp, m.mem, s, Get(m, A0), 0, 0);
  }

  lemma StoredKept(c: Ctx, d: nat, m: Machine, m1: Machine, m2: Machine)
    requires Kept(c.sl, c.fp, d, m, m1) && m2.regs == m1.regs
    requires SameMem(c.sl, c.fp, 0, 0, m1.mem, m2.mem)
    ensures Kept(c.sl, c.fp, d, m, m2)
  {
    hide ByteAt, OutsideSlots;
  }

  lemma ReturnSim(c: Ctx, t: Targets, s: Stmt, n: int, p: nat, m: Machine, env: Env, fuel: nat)
    returns (m': Machine)
    requires s.Return? && StmtHere(c, t, s, n, p) && m.pc == 4 * p
    requires Ready(c.sl, c.fp, StmtDepth(s), m, env)
    ensures Follows(c, t, StmtDepth(s), m, m', p + |StmtCode(s, c.sl, n, t)|, fuel, ExecStmt(s, env, fuel))
  {
    hide Reaches, RunsAtLeast, Match, CodeAt, LabelsIn, SameMem, Frame, LiCode;
    var d := StmtDepth(s);
    var r := EvalOpt(s.result, 0, env);
    var ce := if s.result.Some? then ExprCode(s.result.value, c.sl, n) else LiCode(A0, 0);
    CodeAtSplit(c.prog, p, ce, [Jump(t.ret)], c.lm);
    var m1;
    if s.result.Some? {
      m1 := ExprSim(c, s.result.value, n, p, m, env);
    } else {
      DoneHere(c, 0, m, env, p);
      m1 := DoneLi(c, p, 0, 0, m, m, Evaluated(Get(m, A0), env));
    }
    assert ExprDone(c, d, m, m1, p + |ce|, r);
    m' := BranchSim(c, p + |ce|, Jump(t.ret), m1);
    ReachesTrans(c.prog, m, m1, m');
  }

  lemma JumpSim(c: Ctx, t: Targets, s: Stmt, n: int, p: nat, m: Machine, env: Env, fuel: nat)
    returns (m': Machine)
    requires (s.Break? || s.Continue?) && StmtHere(c, t, s, n, p) && m.pc == 4 * p
    requires Ready(c.sl, c.fp, 0, m, env)
    ensures Follows(c, t, 0, m, m', p + |StmtCode(s, c.sl, n, t)|, fuel, ExecStmt(s, env, fuel))
  {
    hide Reaches, RunsAtLeast, Match, CodeAt, LabelsIn;
    m' := BranchSim(c, p, Jump(if s.Break? then t.brk else t.cont), m);
  }

  // ----- compound statements -----

  lemma IfParts(c: Ctx, t: Targets, s: Stmt, n: int, p: nat)
    requires s.If? && StmtHere(c, t, s, n, p)
    ensures var n1, p1 := n + 2 + LabelsOf(s.e), p + |ExprCode(s.e, c.sl, n + 2)| + 1;
            var p2 := p1 + |StmtCode(s.s1, c.sl, n1, t)|;
            && ExprHere(c, s.e, n + 2, p)
            && CodeAt(c.prog, p1 - 1, [Beqz(n)], c.lm)
            && StmtHere(c, t, s.s1, n1, p1)
            && (s.s2.None? ==> Target(c.lm, n) == 4 * p2 && p2 == p + |StmtCode(s, c.sl, n, t)|)
            && (s.s2.Some? ==>
                  var n2 := n1 + StmtCount(s.s1);
                  var pe := p2 + 1 + |StmtCode(s.s2.value, c.sl, n2, t)|;
                  && CodeAt(c.prog, p2, [Jump(n + 1)], c.lm)
                  && StmtHere(c, t, s.s2.value, n2, p2 + 1)
                  && Target(c.lm, n) == 4 * (p2 + 1) && Target(c.lm, n + 1) == 4 * pe
                  && pe == p + |StmtCode(s, c.sl, n, t)|)
  {
    hide CodeAt, LabelsIn, Target, ExprCode, ExprLabels, CondShape, CondDefs, IfShape, IfDefs;
    var n1 := n + 2 + LabelsOf(s.e);
    var ce, c1 := ExprCode(s.e, c.sl, n + 2), StmtCode(s.s1, c.sl, n1, t);
    var p1 := p + |ce| + 1;
    var p2 := p1 + |c1|;
    var le, l1 := ExprLabels(s.e, c.sl, p, n + 2), StmtLabels(s.s1, c.sl, p1, n1, t);
    if s.s2.None? {
      IfCodeAt(c.prog, p, c.lm, ce, c1, le, l1, n, p2);
    } else {
      var n2 := n1 + StmtCount(s.s1);
      var c2 := StmtCode(s.s2.value, c.sl, n2, t);
      CondCodeAt(c.prog, p, c.lm, ce, c1, c2, n);
      CondDefsIn(le, l1, StmtLabels(s.s2.value, c.sl, p2 + 1, n2, t), n, p2 + 1, p2 + 1 + |c2|, c.lm);
    }
  }

  lemma IfCodeAt(prog: seq<Instr>, p: nat, lm: LabelMap, ce: seq<Item>, c1: seq<Item>,
                 le: seq<LabelDef>, l1: seq<LabelDef>, n: int, pe: int)
    requires CodeAt(prog, p, IfShape(ce, c1, n), lm) && LabelsIn(IfDefs(le, l1, n, pe), lm)
    ensures CodeAt(prog, p, ce, lm) && CodeAt(prog, p + |ce|, [Beqz(n)], lm) && CodeAt(prog, p + |ce| + 1, c1, lm)
    ensures LabelsIn(le, lm) && LabelsIn(l1, lm) && Target(lm, n) == 4 * pe
    ensures |IfShape(ce, c1, n)| == |ce| + 1 + |c1|
  {
    hide CodeAt, LabelsIn, Target;
    CodeAtSplit(prog, p, ce + [Beqz(n)], c1, lm);
    CodeAtSplit(prog, p, ce, [Beqz(n)], lm);
    LabelsInSplit(le + l1, [LabelDef(n, 4 * pe)], lm);
    LabelsInSplit(le, l1, lm);
    LabelTarget(LabelDef(n, 4 * pe), lm);
  }

  lemma IfSim(c: Ctx, t: Targets, s: Stmt, n: int, p: nat, m: Machine, env: Env, fuel: nat)
    returns (m': Machine)
    requires s.If? && StmtHere(c, t, s, n, p) && m.pc == 4 * p
    requires Ready(c.sl, c.fp, StmtDepth(s), m, env)
    ensures Follows(c, t, StmtDepth(s), m, m', p + |StmtCode(s, c.sl, n, t)|, fuel, ExecStmt(s, env, fuel))
    decreases fuel, s, 0
  {
    hide Match, Reaches, Frame, CodeAt, SameMem, SameRegs, RunsAtLeast, ExprHere, StmtHere, StmtCode, ExprCode, Follows,
      Kept;
    var d, pe := StmtDepth(s), p + |StmtCode(s, c.sl, n, t)|;
    var n1, p1 := n + 2 + LabelsOf(s.e), p + |ExprCode(s.e, c.sl, n + 2)| + 1;
    var p2 := p1 + |StmtCode(s.s1, c.sl, n1, t)|;
    IfParts(c, t, s, n, p);
    var r := Eval(s.e, env);
    var m1 := ExprSim(c, s.e, n + 2, p, m, env);
    var m2 := BranchSim(c, p1 - 1, Beqz(n), m1);
    var q := if r.value != 0 then p1 else if s.s2.Some? then p2 + 1 else p2;
    DoneMoved(c, Depth(s.e), m, m1, p1 - 1, r, m2, q);
    ReadyKept(c, d, Depth(s.e), m, m2, env, r.env);
    if r.value != 0 {
      var m3 := StmtSim(c, t, s.s1, n1, p1, m2, r.env, fuel);
      var res := ExecStmt(s.s1, r.env, fuel);
      m' := m3;
      if s.s2.Some? && res.Some? && res.value.out == Normal {
        FollowsAt(c, t, StmtDepth(s.s1), m2, m3, p2, fuel, res);
        m' := BranchSim(c, p2, Jump(n + 1), m3);
      }
      if s.s2.Some? { FollowsMoved(c, t, StmtDepth(s.s1), m2, m3, p2, fuel, res, m', pe); }
      FollowsMore(c, t, StmtDepth(s.s1), d, m2, m', pe, fuel, res);
      FollowsAfter(c, t, d, Depth(s.e), m, m2, m', pe, fuel, res);
    } else if s.s2.Some? {
      m' := StmtSim(c, t, s.s2.value, n1 + StmtCount(s.s1), p2 + 1, m2, r.env, fuel);
      FollowsMore(c, t, StmtDepth(s.s2.value), d, m2, m', pe, fuel, ExecStmt(s, env, fuel));
      FollowsAfter(c, t, d, Depth(s.e), m, m2, m', pe, fuel, ExecStmt(s, env, fuel));
    } else {
      m' := m2;
      DoneFollows(c, t, Depth(s.e), m, m2, pe, fuel, r);
      FollowsMore(c, t, Depth(s.e), d, m, m', pe, fuel, ExecStmt(s, env, fuel));
    }
  }

  lemma FollowsAt(c: Ctx, t: Targets, d: int, m: Machine, m': Machine, q: int, fuel: nat, r: Option<Done>)
    requires Follows(c, t, d, m, m', q, fuel, r) && r.Some?
    ensures r.value.out == Normal ==> m'.pc == 4 * q
    ensures Reaches(c.prog, m, m') && Match(c.sl, c.fp, m'.mem, r.value.env) && Kept(c.sl, c.fp, d, m, m')
    ensures Landed(c, t, q, r.value.out, m')
  {
  }

  lemma BlockParts(c: Ctx, t: Targets, body: seq<Stmt>, n: int, p: nat)
    requires body != [] && BlockHere(c, t, body, n, p)
    ensures var n1, p1 := n + StmtCount(body[0]), p + |StmtCode(body[0], c.sl, n, t)|;
            && StmtHere(c, t, body[0], n, p)
            && BlockHere(c, t, body[1..], n1, p1)
            && p + |BlockCode(body, c.sl, n, t)| == p1 + |BlockCode(body[1..], c.sl, n1, t)|
  {
    hide CodeAt, LabelsIn;
    var n1, p1 := n + StmtCount(body[0]), p + |StmtCode(body[0], c.sl, n, t)|;
    CodeAtSplit(c.prog, p, StmtCode(body[0], c.sl, n, t), BlockCode(body[1..], c.sl, n1, t), c.lm);
    LabelsInSplit(StmtLabels(body[0], c.sl, p, n, t), BlockLabels(body[1..], c.sl, p1, n1, t), c.lm);
  }

  lemma BlockSim(c: Ctx, t: Targets, body: seq<Stmt>, n: int, p: nat, m: Machine, env: Env, fuel: nat)
    returns (m': Machine)
    requires BlockHere(c, t, body, n, p) && m.pc == 4 * p
    requires Ready(c.sl, c.fp, BlockDepth(body), m, env)
    ensures Follows(c, t, BlockDepth(body), m, m', p + |BlockCode(body, c.sl, n, t)|, fuel,
                    ExecBlock(body, env, fuel))
    decreases fuel, body, 0
  {
    hide Match, Reaches, Frame, CodeAt, SameMem, SameRegs, RunsAtLeast, StmtHere, StmtCode, Follows, Kept;
    var d := BlockDepth(body);
    if body == [] {
      m' := m;
      DoneHere(c, d, m, env, p);
      DoneFollows(c, t, d, m, m, p, fuel, Evaluated(Get(m, A0), env));
    } else {
      var s, d1 := body[0], StmtDepth(body[0]);
      var n1, p1 := n + StmtCount(s), p + |StmtCode(s, c.sl, n, t)|;
      var pe := p + |BlockCode(body, c.sl, n, t)|;
      BlockParts(c, t, body, n, p);
      var m1 := StmtSim(c, t, s, n, p, m, env, fuel);
      var r := ExecStmt(s, env, fuel);
      if r.Some? && r.value.out == Normal {
        FollowsAt(c, t, d1, m, m1, p1, fuel, r);
        ReadyKept(c, d, d1, m, m1, env, r.value.env);
        m' := BlockSim(c, t, body[1..], n1, p1, m1, r.value.env, fuel);
        FollowsMore(c, t, BlockDepth(body[1..]), d, m1, m', pe, fuel, ExecBlock(body, env, fuel));
        FollowsAfter(c, t, d, d1, m, m1, m', pe, fuel, ExecBlock(body, env, fuel));
      } else {
        m' := m1;
        FollowsMore(c, t, d1, d, m, m', p1, fuel, r);
        FollowsMoved(c, t, d, m, m1, p1, fuel, r, m', pe);
      }
    }
  }

  // ----- loops -----

  /** A loop at word pt: test, body with its own targets, step, jump back to `start`. */
  datatype Loop = Loop(cond: Option<Expr>, step: Option<Expr>, body: Stmt, t: Targets, start: int,
                       nt: int, n1: int, n2: int, pt: nat)
  {
    function BodyAt(sl: Slots): nat { pt + |TestCode(cond, sl, nt, t.brk)| }

    function StepAt(sl: Slots): nat { BodyAt(sl) + |StmtCode(body, sl, n1, t)| }

    function BackAt(sl: Slots): nat { StepAt(sl) + |OptCode(step, sl, n2)| }

    function LoopDepth(): nat { Max(Max(OptDepth(cond), OptDepth(step)), StmtDepth(body)) }
  }

  ghost predicate LoopHere(c: Ctx, l: Loop) {
    && OptHere(c, l.cond, l.nt, l.pt)
    && (l.cond.Some? ==> CodeAt(c.prog, l.BodyAt(c.sl) - 1, [Beqz(l.t.brk)], c.lm))
    && StmtHere(c, l.t, l.body, l.n1, l.BodyAt(c.sl))
    && OptHere(c, l.step, l.n2, l.StepAt(c.sl))
    && CodeAt(c.prog, l.BackAt(c.sl), [Jump(l.start)], c.lm)
    && Target(c.lm, l.start) == 4 * l.pt
    && Target(c.lm, l.t.brk) == 4 * (l.BackAt(c.sl) + 1)
    && (|| Target(c.lm, l.t.cont) == 4 * l.StepAt(c.sl)
        || (l.cond.Some? && l.step.None? && Target(c.lm, l.t.cont) == 4 * l.pt))
  }

  lemma OptSim(c: Ctx, e: Option<Expr>, n: int, p: nat, d: int, m: Machine, env: Env, otherwise: Word)
    returns (m': Machine)
    requires OptHere(c, e, n, p) && m.pc == 4 * p && OptDepth(e) <= d
    requires Ready(c.sl, c.fp, d, m, env)
    ensures Reaches(c.prog, m, m') && m'.pc == 4 * (p + |OptCode(e, c.sl, n)|)
    ensures Match(c.sl, c.fp, m'.mem, EvalOpt(e, otherwise, env).env) && Kept(c.sl, c.fp, d, m, m')
    ensures e.Some? ==> Get(m', A0) == EvalOpt(e, otherwise, env).value
  {
    hide Match, Reaches, Frame, CodeAt, SameMem, SameRegs, ExprHere, ExprCode, Kept;
    if e.Some? {
      m' := ExprSim(c, e.value, n, p, m, env);
      KeptMore(c.sl, c.fp, Depth(e.value), d, m, m');
    } else {
      m' := m;
      DoneHere(c, d, m, env, p);
    }
  }

  /** The loop test; it costs at least one step when there is a condition. */
  lemma TestSim(c: Ctx, l: Loop, d: int, m: Machine, env: Env, k: int) returns (m': Machine)
    requires LoopHere(c, l) && m.pc == 4 * l.pt && OptDepth(l.cond) <= d
    requires Ready(c.sl, c.fp, d, m, env)
    ensures var r := EvalOpt(l.cond, 1, env);
            && Reaches(c.prog, m, m') && Kept(c.sl, c.fp, d, m, m') && Match(c.sl, c.fp, m'.mem, r.env)
            && m'.pc == 4 * (if r.value == 0 then l.BackAt(c.sl) + 1 else l.BodyAt(c.sl))
    ensures l.cond.Some? && RunsAtLeast(c.prog, m', k) ==> RunsAtLeast(c.prog, m, k + 1)
  {
    hide Match, Reaches, Frame, CodeAt, SameMem, ExprHere, ExprCode, RunsAtLeast, Exec, StmtHere, StmtCode;
    var m1 := OptSim(c, l.cond, l.nt, l.pt, d, m, env, 1);
    m' := m1;
    if l.cond.Some? {
      m' := BranchSim(c, l.BodyAt(c.sl) - 1, Beqz(l.t.brk), m1);
      ReachesTrans(c.prog, m, m1, m');
      if RunsAtLeast(c.prog, m', k) {
        RunsStep(c.prog, m1, l.BodyAt(c.sl) - 1, k);
        RunsAfter(c.prog, m, m1, k + 1);
      }
    }
  }

  /** From the end of the body back to the test; the jump costs a step. */
  lemma BackSim(c: Ctx, l: Loop, d: int, m: Machine, env: Env, k: int) returns (m': Machine)
    requires LoopHere(c, l) && OptDepth(l.step) <= d
    requires m.pc == 4 * l.StepAt(c.sl) || (m.pc == Target(c.lm, l.t.cont))
    requires Ready(c.sl, c.fp, d, m, env)
    ensures Reaches(c.prog, m, m') && Kept(c.sl, c.fp, d, m, m') && m'.pc == 4 * l.pt
    ensures Match(c.sl, c.fp, m'.mem, EvalOpt(l.step, 0, env).env)
    ensures l.cond.None? && RunsAtLeast(c.prog, m', k) ==> RunsAtLeast(c.prog, m, k + 1)
  {
    hide Match, Reaches, Frame, CodeAt, SameMem, ExprHere, ExprCode, RunsAtLeast, Exec, StmtHere, StmtCode;
    if m.pc == 4 * l.StepAt(c.sl) {
      var m1 := OptSim(c, l.step, l.n2, l.StepAt(c.sl), d, m, env, 0);
      m' := BranchSim(c, l.BackAt(c.sl), Jump(l.start), m1);
      ReachesTrans(c.prog, m, m1, m');
      if RunsAtLeast(c.prog, m', k) {
        RunsStep(c.prog, m1, l.BackAt(c.sl), k);
        RunsAfter(c.prog, m, m1, k + 1);
      }
    } else {
      m' := m;
      DoneHere(c, d, m, env, l.pt);
    }
  }

  lemma LoopSim(c: Ctx, l: Loop, t: Targets, m: Machine, env: Env, fuel: nat) returns (m': Machine)
    requires LoopHere(c, l) && m.pc == 4 * l.pt && t.ret == l.t.ret
    requires Ready(c.sl, c.fp, l.LoopDepth(), m, env)
    ensures Follows(c, t, l.LoopDepth(), m, m', l.BackAt(c.sl) + 1, fuel,
                    ExecLoop(l.cond, l.step, l.body, env, fuel))
    decreases fuel, l.body, 3
  {
    hide Match, Reaches, Frame, CodeAt, SameMem, SameRegs, RunsAtLeast, StmtHere, StmtCode, ExprHere, Kept;
    var d, pe, r := l.LoopDepth(), l.BackAt(c.sl) + 1, ExecLoop(l.cond, l.step, l.body, env, fuel);
    if fuel == 0 {
      m' := m;
      RunsZero(c.prog, m);
    } else {
      var v := EvalOpt(l.cond, 1, env);
      var m1 := TestSim(c, l, d, m, env, fuel - 1);
      ReadyKept(c, d, d, m, m1, env, v.env);
      if v.value == 0 {
        m' := m1;
      } else {
        m' := BodySim(c, l, t, m1, v.env, fuel);
        if r.None? {
          RunsFewer(c.prog, m1, if l.cond.Some? then fuel - 1 else fuel, fuel - 1);
          RunsAfter(c.prog, m, m1, if l.cond.Some? then fuel - 1 else fuel);
        } else {
          FollowsAfter(c, t, d, d, m, m1, m', pe, fuel, r);
        }
      }
    }
  }

  lemma RunsZero(prog: seq<Instr>, m: Machine)
    ensures RunsAtLeast(prog, m, 0)
  {
    assert Iterate(Stepper(prog), m, 0).Some?;
  }

  /** One iteration past its test, and what follows it. */
  lemma BodySim(c: Ctx, l: Loop, t: Targets, m: Machine, env: Env, fuel: nat) returns (m': Machine)
    requires fuel > 0 && LoopHere(c, l) && m.pc == 4 * l.BodyAt(c.sl) && t.ret == l.t.ret
    requires Ready(c.sl, c.fp, l.LoopDepth(), m, env)
    ensures var d := ExecStmt(l.body, env, fuel);
            var again := d.Some? && (d.value.out == Normal || d.value.out == Continued);
            var r := if !again then (if d.Some? && d.value.out == Broke then Some(Done(Normal, d.value.env)) else d)
                     else ExecLoop(l.cond, l.step, l.body, EvalOpt(l.step, 0, d.value.env).env, fuel - 1);
            if r.Some? then Follows(c, t, l.LoopDepth(), m, m', l.BackAt(c.sl) + 1, fuel, r)
            else RunsAtLeast(c.prog, m, if l.cond.Some? then fuel - 1 else fuel)
    decreases fuel, l.body, 2
  {
    hide Match, Reaches, Frame, CodeAt, SameMem, SameRegs, RunsAtLeast, StmtHere, StmtCode, ExprHere, Kept;
    var d, db, pe := l.LoopDepth(), StmtDepth(l.body), l.BackAt(c.sl) + 1;
    var m1 := StmtSim(c, l.t, l.body, l.n1, l.BodyAt(c.sl), m, env, fuel);
    var b := ExecStmt(l.body, env, fuel);
    m' := m1;
    if b.None? {
      RunsFewer(c.prog, m, fuel, if l.cond.Some? then fuel - 1 else fuel);
    } else {
      KeptMore(c.sl, c.fp, db, d, m, m1);
      if b.value.out == Normal || b.value.out == Continued {
        ReadyKept(c, d, d, m, m1, env, b.value.env);
        var env2 := EvalOpt(l.step, 0, b.value.env).env;
        var m2 := BackSim(c, l, d, m1, b.value.env, fuel - 1);
        KeptTrans(c.sl, c.fp, d, m, m1, m2);
        ReachesTrans(c.prog, m, m1, m2);
        ReadyKept(c, d, d, m, m2, env, env2);
        m' := LoopSim(c, l, t, m2, env2, fuel - 1);
        var r := ExecLoop(l.cond, l.step, l.body, env2, fuel - 1);
        if r.Some? {
          FollowsAfter(c, t, d, d, m, m2, m', pe, fuel, r);
        } else if l.cond.Some? {
          RunsAfter(c.prog, m, m2, fuel - 1);
        } else {
          RunsAfter(c.prog, m, m1, fuel);
        }
      }
    }
  }

  lemma WhileParts(c: Ctx, t: Targets, s: Stmt, n: int, p: nat)
    requires s.While? && StmtHere(c, t, s, n, p)
    ensures var t1 := Targets(n + 1, n, t.ret);
            var l := Loop(Some(s.e), None, s.s1, t1, n, n + 2, n + 2 + LabelsOf(s.e), 0, p);
            LoopHere(c, l) && l.BackAt(c.sl) + 1 == p + |StmtCode(s, c.sl, n, t)|
  {
    hide CodeAt, LabelsIn, Target, ExprCode, ExprLabels, WhileShape, WhileDefs;
    var t1, n1 := Targets(n + 1, n, t.ret), n + 2 + LabelsOf(s.e);
    var ce, c1 := ExprCode(s.e, c.sl, n + 2), StmtCode(s.s1, c.sl, n1, t1);
    var p1 := p + |ce| + 1;
    WhileCodeAt(c.prog, p, c.lm, ce, c1, ExprLabels(s.e, c.sl, p, n + 2), StmtLabels(s.s1, c.sl, p1, n1, t1),
                n, p, p1 + |c1| + 1);
  }

  lemma WhileCodeAt(prog: seq<Instr>, p: nat, lm: LabelMap, ce: seq<Item>, c1: seq<Item>,
                    le: seq<LabelDef>, l1: seq<LabelDef>, n: int, pt: int, pe: int)
    requires CodeAt(prog, p, WhileShape(ce, c1, n), lm) && LabelsIn(WhileDefs(le, l1, n, pt, pe), lm)
    ensures CodeAt(prog, p, ce, lm) && CodeAt(prog, p + |ce|, [Beqz(n + 1)], lm)
    ensures CodeAt(prog, p + |ce| + 1, c1, lm) && CodeAt(prog, p + |ce| + 1 + |c1|, [Jump(n)], lm)
    ensures LabelsIn(le, lm) && LabelsIn(l1, lm) && Target(lm, n) == 4 * pt && Target(lm, n + 1) == 4 * pe
    ensures |WhileShape(ce, c1, n)| == |ce| + 1 + |c1| + 1
  {
    hide CodeAt, LabelsIn, Target;
    CodeAtSplit4(prog, p, ce, [Beqz(n + 1)], c1, [Jump(n)], lm);
    LabelsInSplit4([LabelDef(n, 4 * pt)], le, l1, [LabelDef(n + 1, 4 * pe)], lm);
    LabelTarget(LabelDef(n, 4 * pt), lm);
    LabelTarget(LabelDef(n + 1, 4 * pe), lm);
  }

  lemma WhileSim(c: Ctx, t: Targets, s: Stmt, n: int, p: nat, m: Machine, env: Env, fuel: nat)
    returns (m': Machine)
    requires s.While? && StmtHere(c, t, s, n, p) && m.pc == 4 * p
    requires Ready(c.sl, c.fp, StmtDepth(s), m, env)
    ensures Follows(c, t, StmtDepth(s), m, m', p + |StmtCode(s, c.sl, n, t)|, fuel, ExecStmt(s, env, fuel))
    decreases fuel, s, 0
  {
    hide LoopHere, Follows, StmtHere, Ready;
    WhileParts(c, t, s, n, p);
    var t1 := Targets(n + 1, n, t.ret);
    var l := Loop(Some(s.e), None, s.s1, t1, n, n + 2, n + 2 + LabelsOf(s.e), 0, p);
    assert l.LoopDepth() == StmtDepth(s);
    m' := LoopSim(c, l, t, m, env, fuel);
  }

  /** The loop that a `for` statement runs after its first clause. */
  function ForLoop(s: Stmt, sl: Slots, n: int, p: nat, t: Targets): Loop
    requires s.For?
  {
    var ni := n + 3 + (if s.init1.Some? then StmtCount(s.init1.value) else 0);
    var n1 := ni + OptCount(s.cond);
    Loop(s.cond, s.step, s.s1, Targets(n + 2, n + 1, t.ret), n, ni, n1, n1 + StmtCount(s.s1),
         p + (if s.init1.Some? then |StmtCode(s.init1.value, sl, n + 3, t)| else 0))
  }

  lemma TestParts(c: Ctx, e: Option<Expr>, n: int, p: nat, exit: int)
    requires CodeAt(c.prog, p, TestCode(e, c.sl, n, exit), c.lm)
    requires LabelsIn(OptLabels(e, c.sl, p, n), c.lm) && OptOk(e, c.sl)
    ensures OptHere(c, e, n, p)
    ensures e.Some? ==> CodeAt(c.prog, p + |TestCode(e, c.sl, n, exit)| - 1, [Beqz(exit)], c.lm)
  {
    hide CodeAt, LabelsIn, ExprCode, ExprLabels;
    if e.Some? { CodeAtSplit(c.prog, p, ExprCode(e.value, c.sl, n), [Beqz(exit)], c.lm); }
  }

  lemma ForParts(c: Ctx, t: Targets, s: Stmt, n: int, p: nat)
    requires s.For? && StmtHere(c, t, s, n, p)
    ensures var l := ForLoop(s, c.sl, n, p, t);
            && (s.init1.Some? ==> StmtHere(c, t, s.init1.value, n + 3, p))
            && LoopHere(c, l)
            && l.BackAt(c.sl) + 1 == p + |StmtCode(s, c.sl, n, t)|
  {
    hide CodeAt, LabelsIn, Target, ExprCode, ExprLabels, TestCode, ForShape, ForDefs;
    var l := ForLoop(s, c.sl, n, p, t);
    var ci := if s.init1.Some? then StmtCode(s.init1.value, c.sl, n + 3, t) else [];
    var ct, c1 := TestCode(s.cond, c.sl, l.nt, n + 2), StmtCode(s.s1, c.sl, l.n1, l.t);
    var c2 := OptCode(s.step, c.sl, l.n2);
    var p1 := l.pt + |ct|;
    var p2 := p1 + |c1|;
    ForCodeAt(c.prog, p, c.lm, ci, ct, c1, c2, n);
    ForDefsIn(if s.init1.Some? then StmtLabels(s.init1.value, c.sl, p, n + 3, t) else [],
              OptLabels(s.cond, c.sl, l.pt, l.nt), StmtLabels(s.s1, c.sl, p1, l.n1, l.t),
              OptLabels(s.step, c.sl, p2, l.n2), n, l.pt, p2, p2 + |c2| + 1, c.lm);
    TestParts(c, s.cond, l.nt, l.pt, n + 2);
  }

  lemma ForCodeAt(prog: seq<Instr>, p: nat, lm: LabelMap, ci: seq<Item>, ct: seq<Item>, c1: seq<Item>, c2: seq<Item>,
      n: int)
    requires CodeAt(prog, p, ForShape(ci, ct, c1, c2, n), lm)
    ensures CodeAt(prog, p, ci, lm) && CodeAt(prog, p + |ci|, ct, lm)
    ensures CodeAt(prog, p + |ci| + |ct|, c1, lm) && CodeAt(prog, p + |ci| + |ct| + |c1|, c2, lm)
    ensures CodeAt(prog, p + |ci| + |ct| + |c1| + |c2|, [Jump(n)], lm)
    ensures |ForShape(ci, ct, c1, c2, n)| == |ci| + |ct| + |c1| + |c2| + 1
  {
    hide CodeAt;
    CodeAtSplit4(prog, p, ci + ct, c1, c2, [Jump(n)], lm);
    CodeAtSplit(prog, p, ci, ct, lm);
  }

  lemma ForDefsIn(li: seq<LabelDef>, lt: seq<LabelDef>, l1: seq<LabelDef>, l2: seq<LabelDef>,
                  n: int, pt: int, p2: int, pe: int, lm: LabelMap)
    requires LabelsIn(ForDefs(li, lt, l1, l2, n, pt, p2, pe), lm)
    ensures LabelsIn(li, lm) && LabelsIn(lt, lm) && LabelsIn(l1, lm) && LabelsIn(l2, lm)
    ensures Target(lm, n) == 4 * pt && Target(lm, n + 1) == 4 * p2 && Target(lm, n + 2) == 4 * pe
  {
    hide LabelsIn, Target;
    var d0, d1, d2 := LabelDef(n, 4 * pt), LabelDef(n + 1, 4 * p2), LabelDef(n + 2, 4 * pe);
    LabelsInSplit4(li + [d0] + lt + l1, [d1], l2, [d2], lm);
    LabelsInSplit4(li, [d0], lt, l1, lm);
    LabelTarget(d0, lm);
    LabelTarget(d1, lm);
    LabelTarget(d2, lm);
  }

  lemma ForSim(c: Ctx, t: Targets, s: Stmt, n: int, p: nat, m: Machine, env: Env, fuel: nat)
    returns (m': Machine)
    requires s.For? && StmtHere(c, t, s, n, p) && m.pc == 4 * p
    requires Ready(c.sl, c.fp, StmtDepth(s), m, env)
    ensures Follows(c, t, StmtDepth(s), m, m', p + |StmtCode(s, c.sl, n, t)|, fuel, ExecStmt(s, env, fuel))
    decreases fuel, s, 0
  {
    hide LoopHere, Follows, StmtHere, Match, Reaches, Frame, Kept, StmtCode;
    ForParts(c, t, s, n, p);
    var l, d, r := ForLoop(s, c.sl, n, p, t), StmtDepth(s), ExecStmt(s, env, fuel);
    var pe := l.BackAt(c.sl) + 1;
    if s.init1.None? {
      m' := LoopSim(c, l, t, m, env, fuel);
      FollowsMore(c, t, l.LoopDepth(), d, m, m', pe, fuel, r);
    } else {
      var d1, i := StmtDepth(s.init1.value), ExecStmt(s.init1.value, env, fuel);
      var m1 := StmtSim(c, t, s.init1.value, n + 3, p, m, env, fuel);
      if i.Some? && i.value.out == Normal {
        FollowsAt(c, t, d1, m, m1, l.pt, fuel, i);
        ReadyKept(c, d, d1, m, m1, env, i.value.env);
        m' := LoopSim(c, l, t, m1, i.value.env, fuel);
        FollowsMore(c, t, l.LoopDepth(), d, m1, m', pe, fuel, r);
        FollowsAfter(c, t, d, d1, m, m1, m', pe, fuel, r);
      } else {
        m' := m1;
        FollowsMore(c, t, d1, d, m, m1, l.pt, fuel, i);
        FollowsMoved(c, t, d, m, m1, l.pt, fuel, i, m', pe);
      }
    }
  }

  /** Statement compilation preserves meaning. */
  lemma {:induction false} StmtSim(
    c: Ctx, t: Targets, s: Stmt, n: int, p: nat, m: Machine, env: Env, fuel: nat)
    returns (m': Machine)
    requires StmtHere(c, t, s, n, p) && m.pc == 4 * p
    requires Ready(c.sl, c.fp, StmtDepth(s), m, env)
    ensures Follows(c, t, StmtDepth(s), m, m', p + |StmtCode(s, c.sl, n, t)|, fuel, ExecStmt(s, env, fuel))
    decreases fuel, s, 1
  {
    hide Follows, Match, Reaches, Frame, Kept, CodeAt, LabelsIn;
    match s {
      case Block(body) => m' := BlockSim(c, t, body, n, p, m, env, fuel);
      case Decl(_, _) => m' := DeclSim(c, t, s, n, p, m, env, fuel);
      case ExprStmt(e) =>
        m' := ExprSim(c, e, n, p, m, env);
        DoneFollows(c, t, Depth(e), m, m', p + |ExprCode(e, c.sl, n)|, fuel, Eval(e, env));
      case If(_, _, _) => m' := IfSim(c, t, s, n, p, m, env, fuel);
      case While(_, _) => m' := WhileSim(c, t, s, n, p, m, env, fuel);
      case For(_, _, _, _) => m' := ForSim(c, t, s, n, p, m, env, fuel);
      case Return(_) => m' := ReturnSim(c, t, s, n, p, m, env, fuel);
      case Break => m' := JumpSim(c, t, s, n, p, m, env, fuel);
      case Continue => m' := JumpSim(c, t, s, n, p, m, env, fuel);
    }
  }
}
