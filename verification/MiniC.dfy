/** The MiniC subset: 64-bit expression values, sized local variables, and the statements
    of a function body. Symbols are resolved; a symbol carries the size of its type. */
module MiniC {
  import opened Prelude
  import opened Rv64

  datatype Symbol = Symbol(id: nat, size: Size)

  datatype UnOp = Plus | Minus | Not | Compl

  datatype BinOp =
    | Add | Sub | Mul | Div | Mod | BAnd | BOr | BXor | Shl | Shr
    | Lt | Gt | Le | Ge | Eq | Ne

  datatype Expr =
    | Int(value: Word)
    | Var(sym: Symbol)
    | Unary(uop: UnOp, a: Expr)
    | Binary(bop: BinOp, a: Expr, b: Expr)
    | LogAnd(a: Expr, b: Expr)
    | LogOr(a: Expr, b: Expr)
    | Assign(sym: Symbol, b: Expr)
    | Cond(a: Expr, b: Expr, c: Expr)

  datatype Stmt =
    | Block(body: seq<Stmt>)
    | Decl(sym: Symbol, init: Option<Expr>)
    | ExprStmt(e: Expr)
    | If(e: Expr, s1: Stmt, s2: Option<Stmt>)
    | While(e: Expr, s1: Stmt)
    | For(init1: Option<Stmt>, cond: Option<Expr>, step: Option<Expr>, s1: Stmt)
    | Return(result: Option<Expr>)
    | Break
    | Continue

  datatype Function = Function(params: seq<Symbol>, body: Stmt)

  // ----- expressions -----

  type Env = map<Symbol, Word>

  datatype Evaluated = Evaluated(value: Word, env: Env)

  function Lookup(env: Env, s: Symbol): Word {
    if s in env then env[s] else 0
  }

  function UnaryValue(op: UnOp, a: Word): Word {
    match op
    case Plus => a
    case Minus => Wrap(0 - a)
    case Not => Truth(a == 0)
    case Compl => -1 - a
  }

  /** `/` and `%` by zero take the hardware's values, and `>>` is a logical shift. */
  function BinaryValue(op: BinOp, a: Word, b: Word): Word {
    match op
    case Add => Wrap(a + b)
    case Sub => Wrap(a - b)
    case Mul => Wrap(a * b)
    case Div => if b == 0 then -1 else Wrap(TruncDiv(a, b))
    case Mod => if b == 0 then a else Wrap(a - TruncDiv(a, b) * b)
    case BAnd => Bitwise(And, a, b)
    case BOr => Bitwise(Or, a, b)
    case BXor => Bitwise(Xor, a, b)
    case Shl => Wrap(a * Pow2(b % 64))
    case Shr => Wrap(Unsigned(a) / Pow2(b % 64))
    case Lt => Truth(a < b)
    case Gt => Truth(a > b)
    case Le => Truth(a <= b)
    case Ge => Truth(a >= b)
    case Eq => Truth(a == b)
    case Ne => Truth(a != b)
  }

  /** Left operands first; an assignment stores the value converted to the variable's size
      and yields the unconverted value. */
  function Eval(e: Expr, env: Env): Evaluated {
    match e
    case Int(v) => Evaluated(v, env)
    case Var(s) => Evaluated(Lookup(env, s), env)
    case Unary(op, a) =>
      var ra := Eval(a, env);
      Evaluated(UnaryValue(op, ra.value), ra.env)
    case Binary(op, a, b) =>
      var ra := Eval(a, env);
      var rb := Eval(b, ra.env);
      Evaluated(BinaryValue(op, ra.value, rb.value), rb.env)
    case LogAnd(a, b) =>
      var ra := Eval(a, env);
      if ra.value == 0 then Evaluated(0, ra.env) else
      var rb := Eval(b, ra.env);
      Evaluated(Truth(rb.value != 0), rb.env)
    case LogOr(a, b) =>
      var ra := Eval(a, env);
      if ra.value != 0 then Evaluated(1, ra.env) else
      var rb := Eval(b, ra.env);
      Evaluated(Truth(rb.value != 0), rb.env)
    case Assign(s, b) =>
      var rb := Eval(b, env);
      Evaluated(rb.value, rb.env[s := Convert(s.size, rb.value)])
    case Cond(a, b, c) =>
      var ra := Eval(a, env);
      if ra.value != 0 then Eval(b, ra.env) else Eval(c, ra.env)
  }

  // ----- statements -----

  datatype Outcome = Normal | Broke | Continued | Returned(value: Word)

  datatype Done = Done(out: Outcome, env: Env)

  function EvalOpt(e: Option<Expr>, otherwise: Word, env: Env): Evaluated {
    if e.Some? then Eval(e.value, env) else Evaluated(otherwise, env)
  }

  /** None means that some loop had not ended after `fuel` iterations. */
  function ExecStmt(s: Stmt, env: Env, fuel: nat): Option<Done>
    decreases fuel, s, 0
  {
    match s
    case Block(body) => ExecBlock(body, env, fuel)
    case Decl(sym, init) =>
      if init.None? then Some(Done(Normal, env)) else
      var r := Eval(init.value, env);
      Some(Done(Normal, r.env[sym := Convert(sym.size, r.value)]))
    case ExprStmt(e) => Some(Done(Normal, Eval(e, env).env))
    case If(e, s1, s2) =>
      var c := Eval(e, env);
      if c.value != 0 then ExecStmt(s1, c.env, fuel)
      else if s2.Some? then ExecStmt(s2.value, c.env, fuel)
      else Some(Done(Normal, c.env))
    case While(e, s1) => ExecLoop(Some(e), None, s1, env, fuel)
    case For(init, cond, step, s1) =>
      if init.None? then ExecLoop(cond, step, s1, env, fuel) else
      var d := ExecStmt(init.value, env, fuel);
      if d.None? || d.value.out != Normal then d else
      ExecLoop(cond, step, s1, d.value.env, fuel)
    case Return(result) =>
      var r := EvalOpt(result, 0, env);
      Some(Done(Returned(r.value), r.env))
    case Break => Some(Done(Broke, env))
    case Continue => Some(Done(Continued, env))
  }

  function ExecBlock(body: seq<Stmt>, env: Env, fuel: nat): Option<Done>
    decreases fuel, body, 0
  {
    if body == [] then Some(Done(Normal, env)) else
    var d := ExecStmt(body[0], env, fuel);
    if d.None? || d.value.out != Normal then d else
    ExecBlock(body[1..], d.value.env, fuel)
  }

  function ExecLoop(cond: Option<Expr>, step: Option<Expr>, body: Stmt, env: Env, fuel: nat): Option<Done>
    decreases fuel, body, 1
  {
    if fuel == 0 then None else
    var c := EvalOpt(cond, 1, env);
    if c.value == 0 then Some(Done(Normal, c.env)) else
    var d := ExecStmt(body, c.env, fuel);
    if d.None? then None
    else if d.value.out == Broke then Some(Done(Normal, d.value.env))
    else if d.value.out.Returned? then d
    else ExecLoop(cond, step, body, EvalOpt(step, 0, d.value.env).env, fuel - 1)
  }

  /** Falling off the end returns 0. */
  function CallResult(d: Done): Word {
    if d.out.Returned? then d.out.value else 0
  }

  ghost predicate Terminates(s: Stmt, env: Env, d: Done) {
    exists fuel: nat :: ExecStmt(s, env, fuel) == Some(d)
  }

  // ----- more fuel never changes a finished run -----

  lemma {:induction false} StmtMoreFuel(s: Stmt, env: Env, fuel: nat, more: nat)
    requires fuel <= more && ExecStmt(s, env, fuel).Some?
    ensures ExecStmt(s, env, more) == ExecStmt(s, env, fuel)
    decreases fuel, s, 0
  {
    match s
    case Block(body) => BlockMoreFuel(body, env, fuel, more);
    case If(e, s1, s2) =>
      var c := Eval(e, env);
      if c.value != 0 {
        StmtMoreFuel(s1, c.env, fuel, more);
      } else if s2.Some? {
        StmtMoreFuel(s2.value, c.env, fuel, more);
      }
    case While(e, s1) => LoopMoreFuel(Some(e), None, s1, env, fuel, more);
    case For(init, cond, step, s1) =>
      if init.None? {
        LoopMoreFuel(cond, step, s1, env, fuel, more);
      } else {
        StmtMoreFuel(init.value, env, fuel, more);
        var d := ExecStmt(init.value, env, fuel);
        if d.value.out == Normal { LoopMoreFuel(cond, step, s1, d.value.env, fuel, more); }
      }
    case _ =>
  }

  lemma {:induction false} BlockMoreFuel(body: seq<Stmt>, env: Env, fuel: nat, more: nat)
    requires fuel <= more && ExecBlock(body, env, fuel).Some?
    ensures ExecBlock(body, env, more) == ExecBlock(body, env, fuel)
    decreases fuel, body, 0
  {
    if body != [] {
      StmtMoreFuel(body[0], env, fuel, more);
      var d := ExecStmt(body[0], env, fuel);
      if d.value.out == Normal { BlockMoreFuel(body[1..], d.value.env, fuel, more); }
    }
  }

  lemma {:induction false} LoopMoreFuel(
    cond: Option<Expr>, step: Option<Expr>, body: Stmt, env: Env, fuel: nat, more: nat)
    requires fuel <= more && ExecLoop(cond, step, body, env, fuel).Some?
    ensures ExecLoop(cond, step, body, env, more) == ExecLoop(cond, step, body, env, fuel)
    decreases fuel, body, 1
  {
    var c := EvalOpt(cond, 1, env);
    if c.value != 0 {
      StmtMoreFuel(body, c.env, fuel, more);
      var d := ExecStmt(body, c.env, fuel);
      if d.value.out == Normal || d.value.out == Continued {
        LoopMoreFuel(cond, step, body, EvalOpt(step, 0, d.value.env).env, fuel - 1, more - 1);
      }
    }
  }

  /** A statement has at most one result. */
  lemma TerminatesUnique(s: Stmt, env: Env, d1: Done, d2: Done)
    requires Terminates(s, env, d1) && Terminates(s, env, d2)
    ensures d1 == d2
  {
    var f1: nat :| ExecStmt(s, env, f1) == Some(d1);
    var f2: nat :| ExecStmt(s, env, f2) == Some(d2);
    if f1 <= f2 { StmtMoreFuel(s, env, f1, f2); } else { StmtMoreFuel(s, env, f2, f1); }
  }

  // ----- well-formedness established by the parser -----

  predicate ExprScoped(e: Expr, syms: set<Symbol>) {
    match e
    case Int(_) => true
    case Var(s) => s in syms
    case Unary(_, a) => ExprScoped(a, syms)
    case Binary(_, a, b) => ExprScoped(a, syms) && ExprScoped(b, syms)
    case LogAnd(a, b) => ExprScoped(a, syms) && ExprScoped(b, syms)
    case LogOr(a, b) => ExprScoped(a, syms) && ExprScoped(b, syms)
    case Assign(s, b) => s in syms && ExprScoped(b, syms)
    case Cond(a, b, c) => ExprScoped(a, syms) && ExprScoped(b, syms) && ExprScoped(c, syms)
  }

  /** `break` and `continue` stand inside a loop. */
  predicate JumpsOk(s: Stmt, inLoop: bool) {
    match s
    case Block(body) => BlockJumpsOk(body, inLoop)
    case If(_, s1, s2) => JumpsOk(s1, inLoop) && (s2.Some? ==> JumpsOk(s2.value, inLoop))
    case While(_, s1) => JumpsOk(s1, true)
    case For(init, _, _, s1) => (init.Some? ==> JumpsOk(init.value, inLoop)) && JumpsOk(s1, true)
    case Break => inLoop
    case Continue => inLoop
    case _ => true
  }

  predicate BlockJumpsOk(body: seq<Stmt>, inLoop: bool) {
    body != [] ==> JumpsOk(body[0], inLoop) && BlockJumpsOk(body[1..], inLoop)
  }

  /** A body without stray jumps ends normally or returns. */
  lemma {:induction false} OutcomeOk(s: Stmt, inLoop: bool, env: Env, fuel: nat)
    requires JumpsOk(s, inLoop) && ExecStmt(s, env, fuel).Some?
    ensures var out := ExecStmt(s, env, fuel).value.out; out.Normal? || out.Returned? || inLoop
    decreases fuel, s, 0
  {
    hide Eval;
    match s
    case Block(body) => BlockOutcomeOk(body, inLoop, env, fuel);
    case If(e, s1, s2) =>
      var c := Eval(e, env);
      if c.value != 0 {
        OutcomeOk(s1, inLoop, c.env, fuel);
      } else if s2.Some? {
        OutcomeOk(s2.value, inLoop, c.env, fuel);
      }
    case While(e, s1) => LoopOutcomeOk(Some(e), None, s1, env, fuel);
    case For(init, cond, step, s1) =>
      if init.None? {
        LoopOutcomeOk(cond, step, s1, env, fuel);
      } else {
        OutcomeOk(init.value, inLoop, env, fuel);
        var d := ExecStmt(init.value, env, fuel);
        if d.value.out == Normal { LoopOutcomeOk(cond, step, s1, d.value.env, fuel); }
      }
    case _ =>
  }

  lemma {:induction false} BlockOutcomeOk(body: seq<Stmt>, inLoop: bool, env: Env, fuel: nat)
    requires BlockJumpsOk(body, inLoop) && ExecBlock(body, env, fuel).Some?
    ensures var out := ExecBlock(body, env, fuel).value.out; out.Normal? || out.Returned? || inLoop
    decreases fuel, body, 0
  {
    if body != [] {
      OutcomeOk(body[0], inLoop, env, fuel);
      var d := ExecStmt(body[0], env, fuel);
      if d.value.out == Normal { BlockOutcomeOk(body[1..], inLoop, d.value.env, fuel); }
    }
  }

  lemma {:induction false} LoopOutcomeOk(cond: Option<Expr>, step: Option<Expr>, body: Stmt, env: Env, fuel: nat)
    requires ExecLoop(cond, step, body, env, fuel).Some?
    ensures var out := ExecLoop(cond, step, body, env, fuel).value.out; out.Normal? || out.Returned?
    decreases fuel
  {
    hide ExecStmt, Eval;
    var c := EvalOpt(cond, 1, env);
    if c.value != 0 {
      var d := ExecStmt(body, c.env, fuel);
      if d.value.out == Normal || d.value.out == Continued {
        LoopOutcomeOk(cond, step, body, EvalOpt(step, 0, d.value.env).env, fuel - 1);
      }
    }
  }

  /** The value of an assignment is the right operand before conversion, unlike in C: storing
      0x1_0000_0001 in a four-byte variable leaves 1 there and yields 0x1_0000_0001. */
  lemma AssignKeepsValue()
    ensures var r := Eval(Assign(Symbol(0, 4), Int(0x1_0000_0001)), map[]);
            r.value == 0x1_0000_0001 && Lookup(r.env, Symbol(0, 4)) == 1
  {
  }
}
