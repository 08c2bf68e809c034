/** A compiled function returns exactly when its body terminates, with the body's result. */
module LccFunction {
  import opened Prelude
  import opened Rv64
  import opened RvMachine
  import opened MiniC
  import opened LccCode
  import opened LccExprSim
  import opened LccStmtSim
  import opened LccText
  import opened LccLabels
  import opened LccGen

  // ----- the frame -----

  lemma FrameRoom(f: Function)
    ensures 16 <= FrameSize(f) && 16 + 8 * |Locals(f)| <= FrameSize(f)
  {
  }

  /** The function's slots lie inside its frame, below the saved registers. */
  lemma FrameHolds(f: Function, fp: int)
    requires Distinct(Locals(f)) && FrameSize(f) <= fp < TWO63
    ensures Frame(FrameSlots(f), fp, fp - FrameSize(f))
    ensures forall s :: s in FrameSlots(f) <==> s in Locals(f)
  {
    hide FrameSize, Locals;
    var sl, ds := FrameSlots(f), Locals(f);
    assert sl == Assigned(map[], ds, 0);
    hide FrameSlots, Assigned;
    AssignedSlots(map[], ds, 0);
    FrameRoom(f);
    forall s | s in sl ensures fp - FrameSize(f) <= fp + sl[s] && sl[s] <= -24 {
      var i :| 0 <= i < |ds| && ds[i] == s;
      assert sl[ds[i]] == SlotOff(i);
    }
    forall s, t | s in sl && t in sl && s != t ensures sl[s] + 8 <= sl[t] || sl[t] + 8 <= sl[s] {
      var i :| 0 <= i < |ds| && ds[i] == s;
      var j :| 0 <= j < |ds| && ds[j] == t;
      assert sl[ds[i]] == SlotOff(i) && sl[ds[j]] == SlotOff(j);
    }
  }

  /** The locals on entry: arguments converted to the parameters' sizes, and whatever the
      stack held elsewhere. */
  ghost function EntryEnv(f: Function, m: Machine): Env
    requires |f.params| <= MAX_ARGS
  {
    map s | s in FrameSlots(f) ::
      if s in f.params then
        var i :| 0 <= i < |f.params| && f.params[i] == s;
        Convert(s.size, Get(m, 10 + i))
      else
        LoadSigned(m.mem, Get(m, SP) + FrameSlots(f)[s], s.size)
  }

  /** What the caller must provide: room on the stack. */
  ghost predicate CanEnter(f: Function, m: Machine) {
    FrameSize(f) + 8 * StmtDepth(f.body) <= Get(m, SP) < TWO63
  }

  /** What the parser and the limits of the encodings guarantee. */
  ghost predicate Sound(f: Function) {
    && |f.params| <= MAX_ARGS
    && Distinct(Locals(f))
    && JumpsOk(f.body, false)
    && StmtOk(f.body, FrameSlots(f))
  }

  // ----- entry -----

  lemma PrologueSim(prog: seq<Instr>, p: nat, lm: LabelMap, frame: int, m: Machine) returns (m': Machine)
    requires CodeAt(prog, p, Prologue(frame), lm) && m.pc == 4 * p
    requires 16 <= frame <= Get(m, SP) < TWO63
    ensures Reaches(prog, m, m') && m'.pc == 4 * (p + 4)
    ensures m'.regs == m.regs[SP := Get(m, SP) - frame][FP := Get(m, SP)]
    ensures m'.mem == Put(Put(m.mem, Get(m, SP) - 8, 8, Get(m, RA)), Get(m, SP) - 16, 8, Get(m, FP))
  {
    hide Exec, Put, Reaches, CodeAt;
    var items, sp := Prologue(frame), Get(m, SP);
    StepItem(prog, p, items, lm, 0, m);
    ExecAddi(m, SP, SP, -frame);
    var m1 := Exec(I(ADDI, SP, SP, -frame), m);
    StepItem(prog, p, items, lm, 1, m1);
    ExecStore(m1, 8, RA, SP, frame - 8);
    var m2 := Exec(Store(8, RA, SP, frame - 8), m1);
    StepItem(prog, p, items, lm, 2, m2);
    ExecStore(m2, 8, FP, SP, frame - 16);
    var m3 := Exec(Store(8, FP, SP, frame - 16), m2);
    StepItem(prog, p, items, lm, 3, m3);
    ExecAddi(m3, FP, SP, frame);
    m' := Exec(I(ADDI, FP, SP, frame), m3);
    ReachesTrans(prog, m, m1, m2);
    ReachesTrans(prog, m, m2, m3);
    ReachesTrans(prog, m, m3, m');
  }

  /** The locals that already hold their entry value when a parameters are still to come. */
  ghost predicate Stored(sl: Slots, fp: int, params: seq<Symbol>, m: Machine, mem: Mem, mem': Mem, a: nat)
    requires |params| <= MAX_ARGS && a <= |params|
  {
    && (forall i :: 0 <= i < a && params[i] in sl ==>
          LoadSigned(mem', fp + sl[params[i]], params[i].size) == Convert(params[i].size, Get(m, 10 + i)))
    && (forall s :: s in sl && s !in params ==>
          LoadSigned(mem', fp + sl[s], s.size) == LoadSigned(mem, fp + sl[s], s.size))
  }

  lemma {:induction false} FetchPutWide(mem: Mem, a: int, n: nat, k: nat, v: int)
    requires n <= k
    ensures exists q :: Fetch(Put(mem, a, k, v), a, n) == v + q * Pow256(n)
    decreases n
  {
    if n == 0 {
      assert Fetch(Put(mem, a, k, v), a, 0) == v + (-v) * Pow256(0);
    } else {
      var mem1 := mem[a := v % 256];
      FetchPutWide(mem1, a + 1, n - 1, k - 1, v / 256);
      PutOther(mem1, a + 1, k - 1, v / 256, a);
      var q :| Fetch(Put(mem1, a + 1, k - 1, v / 256), a + 1, n - 1) == v / 256 + q * Pow256(n - 1);
      assert ByteAt(mem1, a) == v % 256;
      assert 256 * (q * Pow256(n - 1)) == q * Pow256(n);
      assert Fetch(Put(mem, a, k, v), a, n) == v + q * Pow256(n);
    }
  }

  /** A doubleword store is read back at any size as the converted value. */
  lemma LoadAfterWideStore(mem: Mem, a: int, n: Size, v: int)
    ensures LoadSigned(Put(mem, a, 8, v), a, n) == Convert(n, v)
  {
    hide Convert, Put, Fetch;
    FetchPutWide(mem, a, n, 8, v);
    var q :| Fetch(Put(mem, a, 8, v), a, n) == v + q * Pow256(n);
    ConvertPeriod(n, v, q);
  }

  lemma LoadOther(mem: Mem, a: int, v: int, x: int, n: Size)
    requires x + n <= a || a + 8 <= x
    ensures LoadSigned(Put(mem, a, 8, v), x, n) == LoadSigned(mem, x, n)
  {
    hide Convert, Put, Fetch, ByteAt;
    forall y | x <= y < x + n ensures ByteAt(Put(mem, a, 8, v), y) == ByteAt(mem, y) {
      PutOther(mem, a, 8, v, y);
    }
    FetchSame(Put(mem, a, 8, v), mem, x, n);
  }

  lemma {:induction false} ParamSim(prog: seq<Instr>, p: nat, lm: LabelMap, f: Function, fp: int, sp: int,
                                    m0: Machine, m: Machine, a: nat) returns (m': Machine)
    requires |f.params| <= MAX_ARGS && a <= |f.params| && Distinct(Locals(f))
    requires CodeAt(prog, p + a, ParamCode(f.params[a..], FrameSlots(f), a), lm) && m.pc == 4 * (p + a)
    requires Frame(FrameSlots(f), fp, sp) && Get(m, FP) == fp
    requires forall s :: s in FrameSlots(f) <==> s in Locals(f)
    requires forall r: Reg :: 10 <= r < 18 ==> Get(m, r) == Get(m0, r)
    requires Stored(FrameSlots(f), fp, f.params, m0, m0.mem, m.mem, a)
    ensures Reaches(prog, m, m') && m'.pc == 4 * (p + |f.params|) && m'.regs == m.regs
    ensures Stored(FrameSlots(f), fp, f.params, m0, m0.mem, m'.mem, |f.params|)
    ensures SavedSame(sp, fp, m.mem, m'.mem)
    decreases |f.params| - a
  {
    hide Reaches, CodeAt, Exec, Put, LoadSigned, Convert, FrameSlots, Locals;
    if a == |f.params| {
      m' := m;
      ReachesRefl(prog, m);
    } else {
      var sl, s := FrameSlots(f), f.params[a];
      assert s in sl by { ParamIsLocal(f, a); }
      var st := Ins(Store(8, 10 + a, FP, sl[s]));
      assert f.params[a..][0] == s && f.params[a..][1..] == f.params[a + 1..];
      CodeAtSplit(prog, p + a, [st], ParamCode(f.params[a + 1..], sl, a + 1), lm);
      StepItem(prog, p + a, [st], lm, 0, m);
      ExecStore(m, 8, 10 + a, FP, sl[s]);
      var m1 := Exec(st.i, m);
      StoredStep(f, fp, sp, m0, m.mem, a);
      m' := ParamSim(prog, p, lm, f, fp, sp, m0, m1, a + 1);
      ReachesTrans(prog, m, m1, m');
      PutSaved(sp, fp, m.mem, fp + sl[s], Get(m, 10 + a));
    }
  }

  /** Memory outside the frame and the saved registers. */
  ghost predicate SavedSame(sp: int, fp: int, mem: Mem, mem': Mem) {
    forall x :: x < sp || fp - 16 <= x ==> ByteAt(mem', x) == ByteAt(mem, x)
  }

  lemma PutSaved(sp: int, fp: int, mem: Mem, a: int, v: int)
    requires sp <= a && a + 8 <= fp - 16
    ensures SavedSame(sp, fp, mem, Put(mem, a, 8, v))
  {
    hide Put, ByteAt;
    forall x | x < sp || fp - 16 <= x ensures ByteAt(Put(mem, a, 8, v), x) == ByteAt(mem, x) {
      PutOther(mem, a, 8, v, x);
    }
  }

  lemma ParamIsLocal(f: Function, a: nat)
    requires a < |f.params|
    ensures f.params[a] in Locals(f)
    ensures Distinct(Locals(f)) ==> forall i :: 0 <= i < |f.params| && i != a ==> f.params[i] != f.params[a]
  {
    assert Locals(f)[a] == f.params[a];
    if Distinct(Locals(f)) {
      forall i | 0 <= i < |f.params| && i != a ensures f.params[i] != f.params[a] {
        assert Locals(f)[i] == f.params[i];
      }
    }
  }

  lemma StoredStep(f: Function, fp: int, sp: int, m0: Machine, mem: Mem, a: nat)
    requires |f.params| <= MAX_ARGS && a < |f.params| && Distinct(Locals(f))
    requires Frame(FrameSlots(f), fp, sp) && f.params[a] in FrameSlots(f)
    requires Stored(FrameSlots(f), fp, f.params, m0, m0.mem, mem, a)
    ensures Stored(FrameSlots(f), fp, f.params, m0, m0.mem,
                   Put(mem, fp + FrameSlots(f)[f.params[a]], 8, Get(m0, 10 + a)), a + 1)
  {
    hide Put, LoadSigned, Convert, FrameSlots, Locals;
    var sl, s, v := FrameSlots(f), f.params[a], Get(m0, 10 + a);
    var mem' := Put(mem, fp + sl[s], 8, v);
    ParamIsLocal(f, a);
    LoadAfterWideStore(mem, fp + sl[s], s.size, v);
    forall t | t in sl && t != s ensures LoadSigned(mem', fp + sl[t], t.size) == LoadSigned(mem, fp + sl[t], t.size) {
      LoadOther(mem, fp + sl[s], v, fp + sl[t], t.size);
    }
  }

  lemma EntryMatch(f: Function, m: Machine, mem: Mem)
    requires Sound(f) && forall s :: s in FrameSlots(f) <==> s in Locals(f)
    requires Stored(FrameSlots(f), Get(m, SP), f.params, m, m.mem, mem, |f.params|)
    ensures Match(FrameSlots(f), Get(m, SP), mem, EntryEnv(f, m))
  {
    hide LoadSigned, Convert, FrameSlots, Locals;
    var sl := FrameSlots(f);
    forall s | s in sl ensures EntryEnv(f, m)[s] == LoadSigned(mem, Get(m, SP) + sl[s], s.size) {
      if s in f.params {
        var i :| 0 <= i < |f.params| && f.params[i] == s;
        ParamIsLocal(f, i);
      }
    }
  }

  /** After the entry code the frame is set up and holds the entry values. */
  lemma EntrySim(prog: seq<Instr>, p: nat, lm: LabelMap, f: Function, m: Machine) returns (m': Machine)
    requires Sound(f) && CanEnter(f, m)
    requires CodeAt(prog, p, EntryCode(f, FrameSlots(f)), lm) && m.pc == 4 * p
    ensures var sp := Get(m, SP);
            && Reaches(prog, m, m') && m'.pc == 4 * (p + |EntryCode(f, FrameSlots(f))|)
            && m'.regs == m.regs[SP := sp - FrameSize(f)][FP := sp]
            && Ready(FrameSlots(f), sp, StmtDepth(f.body), m', EntryEnv(f, m))
            && LoadSigned(m'.mem, sp - 8, 8) == Get(m, RA) && LoadSigned(m'.mem, sp - 16, 8) == Get(m, FP)
            && (forall x :: sp <= x ==> ByteAt(m'.mem, x) == ByteAt(m.mem, x))
  {
    hide Reaches, CodeAt, Put, LoadSigned, Convert, FrameSlots, Locals, ByteAt, Match, SavedSame, EntryEnv;
    var sp, frame, sl := Get(m, SP), FrameSize(f), FrameSlots(f);
    ParamCodeIns(f.params, sl, 0);
    CodeAtSplit(prog, p, Prologue(frame), ParamCode(f.params, sl, 0), lm);
    FrameRoom(f);
    var m1 := PrologueSim(prog, p, lm, frame, m);
    FrameHolds(f, sp);
    var mem1 := Put(m.mem, sp - 8, 8, Get(m, RA));
    forall s | s in sl ensures LoadSigned(m1.mem, sp + sl[s], s.size) == LoadSigned(m.mem, sp + sl[s], s.size) {
      LoadOther(m.mem, sp - 8, Get(m, RA), sp + sl[s], s.size);
      LoadOther(mem1, sp - 16, Get(m, FP), sp + sl[s], s.size);
    }
    assert f.params[0..] == f.params;
    m' := ParamSim(prog, p + 4, lm, f, sp, sp - frame, m, m1, 0);
    ReachesTrans(prog, m, m1, m');
    EntryMatch(f, m, m'.mem);
    SavedRegs(m.mem, sp, Get(m, RA), Get(m, FP), sp - frame, m'.mem);
  }

  lemma SavedRegs(mem: Mem, fp: int, ra: Word, s0: Word, sp: int, mem': Mem)
    requires SavedSame(sp, fp, Put(Put(mem, fp - 8, 8, ra), fp - 16, 8, s0), mem')
    ensures LoadSigned(mem', fp - 8, 8) == ra && LoadSigned(mem', fp - 16, 8) == s0
    ensures forall x :: fp <= x ==> ByteAt(mem', x) == ByteAt(mem, x)
  {
    hide Put, ByteAt, Convert, Fetch;
    forall x | fp <= x ensures ByteAt(mem', x) == ByteAt(mem, x) {
      PutOther(mem, fp - 8, 8, ra, x);
      PutOther(Put(mem, fp - 8, 8, ra), fp - 16, 8, s0, x);
    }
    var mem1 := Put(mem, fp - 8, 8, ra);
    var mem2 := Put(mem1, fp - 16, 8, s0);
    LoadAfterStore(mem, fp - 8, 8, ra);
    LoadAfterStore(mem1, fp - 16, 8, s0);
    LoadOther(mem1, fp - 16, s0, fp - 8, 8);
    Convert8Self(ra);
    Convert8Self(s0);
    FetchSame(mem2, mem', fp - 8, 8);
    FetchSame(mem2, mem', fp - 16, 8);
  }

  // ----- leaving -----

  /** m' is m's caller continued: the result in a0, saved registers and the caller's memory
      as they were. */
  ghost predicate Returned(m: Machine, m': Machine, v: Word) {
    && m'.pc == Get(m, RA) - Get(m, RA) % 2
    && Get(m', A0) == v
    && SameRegs(m, m')
    && (forall x :: Get(m, SP) <= x ==> ByteAt(m'.mem, x) == ByteAt(m.mem, x))
  }

  lemma ExecReturn(m: Machine)
    ensures Exec(Jalr(ZERO, RA, 0), m) == m.(pc := Get(m, RA) - Get(m, RA) % 2)
  {
  }

  lemma EpilogueSim(prog: seq<Instr>, q: nat, lm: LabelMap, frame: int, m: Machine) returns (m': Machine)
    requires CodeAt(prog, q, Epilogue(frame), lm) && m.pc == 4 * q
    requires 16 <= frame <= Get(m, FP)
    ensures var fp := Get(m, FP);
            var ra, s0 := LoadSigned(m.mem, fp - 8, 8), LoadSigned(m.mem, fp - 16, 8);
            Reaches(prog, m, m') && m'.mem == m.mem && m'.pc == ra - ra % 2
            && m'.regs == m.regs[SP := fp][FP := s0][RA := ra]
  {
    hide Exec, LoadSigned, Reaches, CodeAt;
    var items, fp := Epilogue(frame), Get(m, FP);
    StepItem(prog, q, items, lm, 0, m);
    ExecAddi(m, SP, FP, -frame);
    var m1 := Exec(I(ADDI, SP, FP, -frame), m);
    StepItem(prog, q, items, lm, 1, m1);
    ExecLoad(m1, 8, FP, SP, frame - 16);
    var m2 := Exec(Load(8, FP, SP, frame - 16), m1);
    StepItem(prog, q, items, lm, 2, m2);
    ExecLoad(m2, 8, RA, SP, frame - 8);
    var m3 := Exec(Load(8, RA, SP, frame - 8), m2);
    StepItem(prog, q, items, lm, 3, m3);
    ExecAddi(m3, SP, SP, frame);
    var m4 := Exec(I(ADDI, SP, SP, frame), m3);
    StepItem(prog, q, items, lm, 4, m4);
    ExecReturn(m4);
    m' := Exec(Jalr(ZERO, RA, 0), m4);
    ReachesTrans(prog, m, m1, m2);
    ReachesTrans(prog, m, m2, m3);
    ReachesTrans(prog, m, m3, m4);
    ReachesTrans(prog, m, m4, m');
  }

  /** The resolved code of f stands at word p. */
  ghost predicate FunctionHere(prog: seq<Instr>, lm: LabelMap, f: Function, n: int, p: nat)
    requires |f.params| <= MAX_ARGS
  {
    && CodeAt(prog, p, FunctionCode(f, FrameSlots(f), n), lm)
    && LabelsIn(FunctionLabels(f, FrameSlots(f), p, n), lm)
  }

  lemma FunctionParts(prog: seq<Instr>, lm: LabelMap, f: Function, n: int, p: nat)
    requires Sound(f) && FunctionHere(prog, lm, f, n, p)
    ensures var sl, t := FrameSlots(f), BodyTargets(n);
            var pb := p + |EntryCode(f, sl)|;
            var pe := pb + |StmtCode(f.body, sl, n + 1, t)|;
            && CodeAt(prog, p, EntryCode(f, sl), lm)
            && StmtHere(Ctx(prog, lm, sl, 0), t, f.body, n + 1, pb)
            && CodeAt(prog, pe, LiCode(A0, 0), lm)
            && CodeAt(prog, ReturnAt(f, sl, p, n), Epilogue(FrameSize(f)), lm)
            && ReturnAt(f, sl, p, n) == pe + |LiCode(A0, 0)|
            && Target(lm, n) == 4 * ReturnAt(f, sl, p, n)
  {
    hide CodeAt, LabelsIn, StmtCode, StmtLabels, LiCode, FrameSlots, EntryCode, Target;
    var sl, t := FrameSlots(f), BodyTargets(n);
    CodeAtSplit4(prog, p, EntryCode(f, sl), StmtCode(f.body, sl, n + 1, t), LiCode(A0, 0), Epilogue(FrameSize(f)), lm);
    var d := LabelDef(n, 4 * ReturnAt(f, sl, p, n));
    LabelsInSplit(StmtLabels(f.body, sl, p + |EntryCode(f, sl)|, n + 1, t), [d], lm);
    LabelTarget(d, lm);
  }

  lemma HereAnyFrame(c: Ctx, c': Ctx, t: Targets, s: Stmt, n: int, p: nat)
    requires StmtHere(c, t, s, n, p) && c' == c.(fp := c'.fp)
    ensures StmtHere(c', t, s, n, p)
  {
    hide CodeAt, LabelsIn, StmtCode, StmtLabels;
  }

  /** The body from the entry state to the return label. */
  lemma BodyRuns(prog: seq<Instr>, lm: LabelMap, f: Function, n: int, p: nat, fp: int, m: Machine, env: Env, fuel: nat)
    returns (m': Machine)
    requires Sound(f) && FunctionHere(prog, lm, f, n, p)
    requires m.pc == 4 * (p + |EntryCode(f, FrameSlots(f))|)
    requires Ready(FrameSlots(f), fp, StmtDepth(f.body), m, env)
    ensures var r := ExecStmt(f.body, env, fuel);
            if r.None? then RunsAtLeast(prog, m, fuel) else
            && Reaches(prog, m, m') && m'.pc == 4 * ReturnAt(f, FrameSlots(f), p, n)
            && Get(m', A0) == CallResult(r.value)
            && Match(FrameSlots(f), fp, m'.mem, r.value.env)
            && Kept(FrameSlots(f), fp, StmtDepth(f.body), m, m')
  {
    hide Reaches, CodeAt, LabelsIn, Match, StmtCode, LiCode, Frame, SameMem, FrameSlots, EntryCode, RunsAtLeast,
      ExecStmt, FunctionHere;
    var sl, t := FrameSlots(f), BodyTargets(n);
    var pb := p + |EntryCode(f, sl)|;
    var pe, d, c := pb + |StmtCode(f.body, sl, n + 1, t)|, StmtDepth(f.body), Ctx(prog, lm, sl, fp);
    FunctionParts(prog, lm, f, n, p);
    HereAnyFrame(Ctx(prog, lm, sl, 0), c, t, f.body, n + 1, pb);
    m' := StmtSim(c, t, f.body, n + 1, pb, m, env, fuel);
    var r := ExecStmt(f.body, env, fuel);
    if r.Some? {
      OutcomeOk(f.body, false, env, fuel);
      if r.value.out == Normal {
        var m1 := m';
        m' := DoneLi(c, pe, 0, d, m, m1, Evaluated(Get(m1, A0), r.value.env));
      }
    }
  }

  /** A compiled call follows its source body, for every fuel. */
  lemma FunctionSim(prog: seq<Instr>, lm: LabelMap, f: Function, n: int, p: nat, m: Machine, fuel: nat)
    returns (m': Machine)
    requires Sound(f) && CanEnter(f, m) && FunctionHere(prog, lm, f, n, p) && m.pc == 4 * p
    ensures var r := ExecStmt(f.body, EntryEnv(f, m), fuel);
            if r.None? then RunsAtLeast(prog, m, fuel) else
            && Reaches(prog, m, m') && Returned(m, m', CallResult(r.value))
            && Match(FrameSlots(f), Get(m, SP), m'.mem, r.value.env)
  {
    hide Reaches, CodeAt, LabelsIn, Match, FrameSlots, EntryCode, RunsAtLeast, ExecStmt, FunctionHere, LoadSigned,
      ByteAt, StmtCode, EntryEnv;
    var sp, sl, env := Get(m, SP), FrameSlots(f), EntryEnv(f, m);
    FunctionParts(prog, lm, f, n, p);
    FrameHolds(f, sp);
    FrameRoom(f);
    var m1 := EntrySim(prog, p, lm, f, m);
    var m2 := BodyRuns(prog, lm, f, n, p, sp, m1, env, fuel);
    var r := ExecStmt(f.body, env, fuel);
    if r.None? {
      m' := m;
      RunsAfter(prog, m, m1, fuel);
    } else {
      m' := EpilogueSim(prog, ReturnAt(f, sl, p, n), lm, FrameSize(f), m2);
      ReachesTrans(prog, m, m1, m2);
      ReachesTrans(prog, m, m2, m');
      KeptSaved(sl, sp, StmtDepth(f.body), m1, m2);
    }
  }

  lemma KeptSaved(sl: Slots, fp: int, d: nat, m1: Machine, m2: Machine)
    requires Frame(sl, fp, Get(m1, SP)) && Kept(sl, fp, d, m1, m2) && Get(m1, SP) <= fp - 16
    ensures LoadSigned(m2.mem, fp - 8, 8) == LoadSigned(m1.mem, fp - 8, 8)
    ensures LoadSigned(m2.mem, fp - 16, 8) == LoadSigned(m1.mem, fp - 16, 8)
    ensures forall x :: fp <= x ==> ByteAt(m2.mem, x) == ByteAt(m1.mem, x)
  {
    hide ByteAt, Fetch, Convert;
    forall x | fp - 16 <= x ensures ByteAt(m2.mem, x) == ByteAt(m1.mem, x) {
      assert OutsideSlots(sl, fp, x);
    }
    FetchSame(m2.mem, m1.mem, fp - 8, 8);
    FetchSame(m2.mem, m1.mem, fp - 16, 8);
  }

  // ----- encoded text -----

  /** Every immediate of the resolved function fits its field. */
  ghost predicate AllFit(items: seq<Item>, p: nat, lm: LabelMap) {
    forall k :: 0 <= k < |items| ==> Fits(Resolve(items[k], p + k, lm))
  }

  function ResolvedProg(items: seq<Item>, p: nat, lm: LabelMap): seq<Instr> {
    seq(|items|, k requires 0 <= k < |items| => Resolve(items[k], p + k, lm))
  }

  /** The patched words decode to the resolved instructions if and only if all immediates fit. */
  lemma ResolvedDecodes(items: seq<Item>, p: nat, lm: LabelMap)
    ensures Decodes(ResolvedWords(items, p, lm), ResolvedProg(items, p, lm)) <==> AllFit(items, p, lm)
  {
    hide Decode, Encode, Fits, Resolve;
    forall k | 0 <= k < |items|
      ensures Decode(ResolvedWords(items, p, lm)[k]) == Some(ResolvedProg(items, p, lm)[k])
         <==> Fits(Resolve(items[k], p + k, lm))
    {
      DecodeEncode(Resolve(items[k], p + k, lm));
    }
  }

  /** The machine has left the text section in state m'. */
  ghost predicate Halts(code: Code, m: Machine, m': Machine) {
    !InText(|code|, m') && exists k: nat :: RunWords(code, m, k) == Some(m')
  }

  lemma {:induction false} IterateFewer<S>(step: S -> Option<S>, s: S, k: nat, n: nat)
    requires k <= n && Iterate(step, s, n).Some?
    ensures Iterate(step, s, k).Some?
    decreases k
  {
    if k > 0 { IterateFewer(step, step(s).value, k - 1, n - 1); }
  }

  lemma HaltedRunEnds(prog: seq<Instr>, m: Machine, m': Machine, k: nat, n: nat)
    requires Run(prog, m, k) == Some(m') && !InText(|prog|, m') && n > k
    ensures Run(prog, m, n).None?
  {
    assert Stepper(prog)(m') == None;
    IterateAdd(Stepper(prog), m, k, 1);
    if Run(prog, m, n).Some? { IterateFewer(Stepper(prog), m, k + 1, n); }
  }

  /** The program text around a compiled function: other words that decode, f at word p. */
  ghost predicate TextHolds(code: Code, prog: seq<Instr>, f: Function, n: int, p: nat)
    requires |f.params| <= MAX_ARGS
  {
    var sl := FrameSlots(f);
    var items, defs := FunctionCode(f, sl, n), FunctionLabels(f, sl, p, n);
    && Decodes(code, prog) && Uniq(defs)
    && p + |items| <= |code|
    && code[p..p + |items|] == ResolvedWords(items, p, MapOf(defs))
    && AllFit(items, p, MapOf(defs))
  }

  lemma TextIsHere(code: Code, prog: seq<Instr>, f: Function, n: int, p: nat)
    requires Sound(f) && TextHolds(code, prog, f, n, p)
    ensures FunctionHere(prog, MapOf(FunctionLabels(f, FrameSlots(f), p, n)), f, n, p)
  {
    hide FunctionCode, FunctionLabels, FrameSlots, Decode, Encode, Fits, Resolve, MapOf, LabelsIn, Uniq;
    var sl := FrameSlots(f);
    var items, defs := FunctionCode(f, sl, n), FunctionLabels(f, sl, p, n);
    var lm := MapOf(defs);
    UniqueLabelsIn(defs);
    forall k | 0 <= k < |items| ensures prog[p + k] == Resolve(items[k], p + k, lm) {
      var i := Resolve(items[k], p + k, lm);
      DecodeEncode(i);
      assert code[p + k] == code[p..p + |items|][k];
      assert Decode(code[p + k]) == Some(prog[p + k]);
    }
  }

  /** Compiler correctness. Called with enough stack and a return address outside the text, the
      machine stops if and only if the source body terminates; it then stops at the return
      address with the body's result in a0, its final locals in the frame, all other registers
      but t0 restored, and the caller's memory untouched. */
  lemma CompiledFunctionCorrect(code: Code, prog: seq<Instr>, f: Function, n: int, p: nat, m: Machine)
    requires Sound(f) && TextHolds(code, prog, f, n, p)
    requires CanEnter(f, m) && m.pc == 4 * p
    requires !InText(|code|, m.(pc := Get(m, RA) - Get(m, RA) % 2))
    ensures forall d :: Terminates(f.body, EntryEnv(f, m), d) ==>
              exists m' :: Halts(code, m, m') && Returned(m, m', CallResult(d))
                        && Match(FrameSlots(f), Get(m, SP), m'.mem, d.env)
    ensures forall m' :: Halts(code, m, m') ==> exists d :: Terminates(f.body, EntryEnv(f, m), d)
  {
    hide TextHolds, CanEnter, FunctionHere, Returned, Match, EntryEnv, ExecStmt, Decodes, RunWords, Run;
    var lm, env := MapOf(FunctionLabels(f, FrameSlots(f), p, n)), EntryEnv(f, m);
    TextIsHere(code, prog, f, n, p);
    assert Decodes(code, prog) by { TextDecodes(code, prog, f, n, p); }
    forall d | Terminates(f.body, env, d)
      ensures exists m' :: Halts(code, m, m') && Returned(m, m', CallResult(d))
                        && Match(FrameSlots(f), Get(m, SP), m'.mem, d.env)
    {
      var fuel: nat :| ExecStmt(f.body, env, fuel) == Some(d);
      var m' := FunctionSim(prog, lm, f, n, p, m, fuel);
      ReachesHalts(code, prog, m, m', CallResult(d));
    }
    forall m' | Halts(code, m, m') ensures exists d :: Terminates(f.body, env, d) {
      var k: nat :| RunWords(code, m, k) == Some(m');
      var _ := FunctionSim(prog, lm, f, n, p, m, k + 1);
      var r := ExecStmt(f.body, env, k + 1);
      if r.None? {
        RunsPastHalt(code, prog, m, m', k);
        assert false;
      } else {
        assert Terminates(f.body, env, r.value);
      }
    }
  }

  lemma TextDecodes(code: Code, prog: seq<Instr>, f: Function, n: int, p: nat)
    requires |f.params| <= MAX_ARGS && TextHolds(code, prog, f, n, p)
    ensures Decodes(code, prog)
  {
  }

  lemma ReachesHalts(code: Code, prog: seq<Instr>, m: Machine, m': Machine, v: Word)
    requires Decodes(code, prog) && Reaches(prog, m, m') && Returned(m, m', v)
    requires !InText(|code|, m.(pc := Get(m, RA) - Get(m, RA) % 2))
    ensures Halts(code, m, m')
  {
    hide Decode, Exec, SameRegs, ByteAt;
    var k: nat :| Iterate(Stepper(prog), m, k) == Some(m');
    WordsRunAlike(code, prog, m, k);
  }

  /** A halted machine cannot have run on. */
  lemma RunsPastHalt(code: Code, prog: seq<Instr>, m: Machine, m': Machine, k: nat)
    requires Decodes(code, prog) && RunWords(code, m, k) == Some(m') && !InText(|code|, m')
    ensures !RunsAtLeast(prog, m, k + 1)
  {
    hide Decode, Exec;
    WordsRunAlike(code, prog, m, k);
    if RunsAtLeast(prog, m, k + 1) {
      var n: nat :| n >= k + 1 && Iterate(Stepper(prog), m, n).Some?;
      HaltedRunEnds(prog, m, m', k, n);
      assert false;
    }
  }
}
