/** From a function to its text section, end to end. */
module LccCompile {
  import opened Prelude
  import opened Rv64
  import opened RvMachine
  import opened MiniC
  import opened LccCode
  import opened LccText
  import opened LccLabels
  import opened LccGen
  import opened LccCodeGen
  import opened LccExprSim
  import opened LccFunction

  /** The immediates of f compiled at the start of the text all fit. */
  ghost predicate Fitting(f: Function)
    requires |f.params| <= MAX_ARGS
  {
    AllFit(FunctionCode(f, FrameSlots(f), 0), 0, MapOf(FunctionLabels(f, FrameSlots(f), 0, 0)))
  }

  /** The words run as the function does: the machine halts if and only if the body terminates, and
      then with the body's one result in a0, its final locals in the frame, the other registers but
      t0 restored and the caller's memory untouched. */
  ghost predicate RunsAs(code: Code, f: Function, m: Machine)
    requires |f.params| <= MAX_ARGS
  {
    && ((exists m' :: Halts(code, m, m')) <==> exists d :: Terminates(f.body, EntryEnv(f, m), d))
    && (forall m', d :: Halts(code, m, m') && Terminates(f.body, EntryEnv(f, m), d) ==>
          LccFunction.Returned(m, m', CallResult(d)) && Match(FrameSlots(f), Get(m, SP), m'.mem, d.env))
    && (forall d, e :: Terminates(f.body, EntryEnv(f, m), d) && Terminates(f.body, EntryEnv(f, m), e) ==> d == e)
  }

  /** m is about to execute the first word, with enough stack and a return address outside the text. */
  ghost predicate Entered(code: Code, f: Function, m: Machine) {
    CanEnter(f, m) && m.pc == 0 && !InText(|code|, m.(pc := Get(m, RA) - Get(m, RA) % 2))
  }

  /** Compiles one function into a fresh text section that runs as the function does, from every
      machine state that enters it, provided the immediates fit. */
  method Compile(f: Function) returns (code: Code)
    requires |f.params| <= MAX_ARGS && LoopNest(f.body) <= MAX_LOOPS && JumpsOk(f.body, false)
    ensures Fitting(f) ==>
      TextHolds(code, ResolvedProg(FunctionCode(f, FrameSlots(f), 0), 0,
                                   MapOf(FunctionLabels(f, FrameSlots(f), 0, 0))), f, 0, 0)
    ensures Fitting(f) && Sound(f) ==> forall m :: Entered(code, f, m) ==> RunsAs(code, f, m)
  {
    hide FunctionCode, FunctionLabels, FrameSlots, MapOf, Uniq, Decodes, ResolvedWords, ResolvedProg, AllFit, RunsAs,
      Entered, Sound;
    var g := new CodeGen();
    var ok := g.GenFunction(f);
    code := Words(g.text);
    ghost var items, lm := FunctionCode(f, FrameSlots(f), 0), MapOf(g.labels);
    assert code == [] + ResolvedWords(items, 0, lm) == ResolvedWords(items, 0, lm);
    assert code[0..|items|] == code;
    ResolvedDecodes(items, 0, lm);
    if Fitting(f) && Sound(f) {
      forall m | Entered(code, f, m)
        ensures RunsAs(code, f, m)
      {
        CompiledRuns(code, ResolvedProg(items, 0, lm), f, m);
      }
    }
  }

  lemma CompiledRuns(code: Code, prog: seq<Instr>, f: Function, m: Machine)
    requires |f.params| <= MAX_ARGS && Sound(f) && TextHolds(code, prog, f, 0, 0) && Entered(code, f, m)
    ensures RunsAs(code, f, m)
  {
    hide TextHolds, Halts, LccFunction.Returned, Match, EntryEnv, Terminates, Sound;
    CompiledFunctionCorrect(code, prog, f, 0, 0, m);
    forall m', d | Halts(code, m, m') && Terminates(f.body, EntryEnv(f, m), d)
      ensures LccFunction.Returned(m, m', CallResult(d)) && Match(FrameSlots(f), Get(m, SP), m'.mem, d.env)
    {
      var r :| Halts(code, m, r) && LccFunction.Returned(m, r, CallResult(d))
          && Match(FrameSlots(f), Get(m, SP), r.mem, d.env);
      TextDecodes(code, prog, f, 0, 0);
      HaltsOnce(code, prog, m, m', r);
    }
    forall d, e | Terminates(f.body, EntryEnv(f, m), d) && Terminates(f.body, EntryEnv(f, m), e) ensures d == e {
      TerminatesUnique(f.body, EntryEnv(f, m), d, e);
    }
  }

  /** A machine halts in one state only. */
  lemma HaltsOnce(code: Code, prog: seq<Instr>, m: Machine, a: Machine, b: Machine)
    requires Decodes(code, prog) && Halts(code, m, a) && Halts(code, m, b)
    ensures a == b
  {
    hide RunWords, Run;
    var j: nat :| RunWords(code, m, j) == Some(a);
    var k: nat :| RunWords(code, m, k) == Some(b);
    WordsRunAlike(code, prog, m, j);
    WordsRunAlike(code, prog, m, k);
    if j < k { HaltedRunEnds(prog, m, a, j, k); } else if k < j { HaltedRunEnds(prog, m, b, k, j); }
  }
}
