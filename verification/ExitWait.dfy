/** Fork, exit and wait over any number of task slots and harts, interleaved at every critical
    section. A critical section of one task lock is one step, enabled while the lock is free;
    a lock that stays held across a switch, across the set-up of a new slot, or while a second
    lock is awaited is recorded with its holder. */
module ExitWait {
  import opened Prelude

  datatype TaskState = INITLIZED | USED | RUNNABLE | RUNNING | SLEEP | ZOMBIE

  /** Holder of a task's lock: nobody, the code of task t, or a scheduler switching the owner out. */
  datatype Holder = Free | ByTask(t: nat) | BySched

  /** Where a parked task continues. */
  datatype Cont = KPlain | KWait(want: Option<nat>)

  datatype Pc =
    | Empty                                             // slot without a task
    | New                                               // slot being set up by a fork
    | Run                                               // running, in none of the operations below
    | Parked(k: Cont)                                   // off the hart
    | Resuming(k: Cont)                                 // switched in, own lock still held
    | FHold(c: nat)                                     // kfork holds the new slot c
    | FFree(c: nat)                                     // kfork failed: lock of c released, slot to be freed
    | XScan(i: nat, orphan: bool)                       // kexit hands its children to init
    | XWakeInit                                         // kexit wakes init for an orphan zombie
    | XLock                                             // kexit takes its own lock
    | XWake                                             // ZOMBIE: wakes the parent, own lock held
    | XSched                                            // ZOMBIE: switches away, own lock held
    | Dead                                              // switched away for good
    | WScan(want: Option<nat>, i: nat, count: nat)      // waitpid looks at slot i
    | WLock(want: Option<nat>)                          // waitpid is about to check the pending flag

  datatype Task = Task(state: TaskState, parent: Option<nat>, pid: nat, pending: bool, chan: bool,
                       lk: Holder, on: bool, pc: Pc)

  datatype State = State(tasks: seq<Task>, nextPid: nat)

  const INIT: nat := 0

  /** `pid == -1 || child->pid == pid` */
  predicate Matches(want: Option<nat>, pid: nat) { want.None? || want.value == pid }

  predicate Has(s: State, t: nat) { t < |s.tasks| }

  function With(s: State, t: nat, task: Task): State
    requires Has(s, t)
  {
    s.(tasks := s.tasks[t := task])
  }

  function Goto(s: State, t: nat, pc: Pc): State
    requires Has(s, t)
  {
    With(s, t, s.tasks[t].(pc := pc))
  }

  // ----- steps -----

  datatype Choice = CYield | CFork(c: nat) | CForkOk | CForkFail(locked: bool) | CExit | CWait(want: Option<nat>)

  datatype Move = SwitchIn(t: nat) | SwitchOut(t: nat) | Act(t: nat, choice: Choice)

  const NONE: Task := Task(INITLIZED, None, 0, false, false, Free, false, Empty)

  /** A slot given back: pid, parent and state are reset; the wait flags keep their values until
      the slot is allocated again. */
  function Freed(task: Task): Task {
    task.(state := INITLIZED, parent := None, pid := 0, lk := Free, on := false, pc := Empty)
  }

  /** wake_wait_parent on p's record. */
  function Woken(p: Task): Task {
    p.(pending := true, state := if p.state == SLEEP && p.chan then RUNNABLE else p.state)
  }

  /** A scheduler locks a RUNNABLE task and switches to it. */
  function StepIn(s: State, t: nat): Option<State> {
    if Has(s, t) && s.tasks[t].lk == Free && s.tasks[t].state == RUNNABLE && s.tasks[t].pc.Parked? then
      Some(With(s, t, s.tasks[t].(state := RUNNING, on := true, lk := ByTask(t), pc := Resuming(s.tasks[t].pc.k))))
    else None
  }

  /** The scheduler that was switched back to releases the lock. */
  function StepOut(s: State, t: nat): Option<State> {
    if Has(s, t) && s.tasks[t].lk == BySched then Some(With(s, t, s.tasks[t].(lk := Free))) else None
  }

  function StepRun(s: State, t: nat, choice: Choice): Option<State>
    requires Has(s, t)
  {
    match choice
    case CYield =>
      if s.tasks[t].lk != Free then None else
      Some(With(s, t, s.tasks[t].(state := RUNNABLE, on := false, lk := BySched, pc := Parked(KPlain))))
    case CFork(c) =>
      if Has(s, c) && s.tasks[c].lk == Free && s.tasks[c].state == INITLIZED then
        var slot := Task(USED, s.tasks[c].parent, s.nextPid, false, false, ByTask(t), s.tasks[c].on, New);
        Some(Goto(With(s, c, slot), t, FHold(c)).(nextPid := s.nextPid + 1))
      else None
    case CExit => if s.tasks[t].pid == 1 then None else Some(Goto(s, t, XScan(0, false)))
    case CWait(want) => Some(Goto(s, t, WScan(want, 0, 0)))
    case _ => None
  }

  /** One slot of kexit's orphan loop. */
  function StepOrphan(s: State, t: nat, i: nat, orphan: bool): Option<State>
    requires Has(s, t) && Has(s, i)
  {
    var c := s.tasks[i];
    if c.lk != Free then None
    else if c.parent == Some(t) then
      Some(Goto(With(s, i, c.(parent := Some(INIT))), t, XScan(i + 1, orphan || c.state == ZOMBIE)))
    else Some(Goto(s, t, XScan(i + 1, orphan)))
  }

  /** One slot of waitpid's scan; a matching zombie is reaped on the spot. */
  function StepScan(s: State, t: nat, want: Option<nat>, i: nat, count: nat): Option<State>
    requires Has(s, t) && Has(s, i)
  {
    var c := s.tasks[i];
    if c.lk != Free then None
    else if c.parent == Some(t) && Matches(want, c.pid) then
      if c.state == ZOMBIE then Some(Goto(With(s, i, Freed(c)), t, Run))
      else Some(Goto(s, t, WScan(want, i + 1, count + 1)))
    else Some(Goto(s, t, WScan(want, i + 1, count)))
  }

  function StepTask(s: State, t: nat, choice: Choice): Option<State>
    requires Has(s, t)
  {
    var me := s.tasks[t];
    match me.pc
    case Run => StepRun(s, t, choice)
    case Resuming(k) =>
      if k.KPlain? then Some(With(s, t, me.(lk := Free, pc := Run)))
      else Some(With(s, t, me.(chan := false, lk := Free, pc := WScan(k.want, 0, 0))))
    case FHold(c) =>
      if !Has(s, c) then None
      else if choice.CForkOk? then
        Some(Goto(With(s, c, s.tasks[c].(parent := Some(t), state := RUNNABLE, lk := Free, pc := Parked(KPlain))),
                  t, Run))
      else if choice.CForkFail? then
        if choice.locked then Some(Goto(With(s, c, Freed(s.tasks[c])), t, Run))
        else Some(Goto(With(s, c, s.tasks[c].(lk := Free)), t, FFree(c)))
      else None
    case FFree(c) => if Has(s, c) then Some(Goto(With(s, c, Freed(s.tasks[c])), t, Run)) else None
    case XScan(i, orphan) =>
      if i < |s.tasks| then StepOrphan(s, t, i, orphan)
      else Some(Goto(s, t, if orphan then XWakeInit else XLock))
    case XWakeInit =>
      if Has(s, INIT) && s.tasks[INIT].lk == Free && t != INIT
      then Some(Goto(With(s, INIT, Woken(s.tasks[INIT])), t, XLock)) else None
    case XLock =>
      if me.lk != Free then None else Some(With(s, t, me.(state := ZOMBIE, lk := ByTask(t), pc := XWake)))
    case XWake =>
      if me.parent.None? then Some(Goto(s, t, XSched))
      else if Has(s, me.parent.value) && s.tasks[me.parent.value].lk == Free && me.parent.value != t then
        Some(Goto(With(s, me.parent.value, Woken(s.tasks[me.parent.value])), t, XSched))
      else None
    case XSched => Some(With(s, t, me.(on := false, lk := BySched, pc := Dead)))
    case WScan(want, i, count) =>
      if i < |s.tasks| then StepScan(s, t, want, i, count)
      else Some(Goto(s, t, if count == 0 then Run else WLock(want)))
    case WLock(want) =>
      if me.lk != Free then None
      else if me.pending then Some(With(s, t, me.(pending := false, pc := WScan(want, 0, 0))))
      else Some(With(s, t, me.(state := SLEEP, chan := true, on := false, lk := BySched, pc := Parked(KWait(want)))))
    case _ => None
  }

  function Step(s: State, m: Move): Option<State> {
    match m
    case SwitchIn(t) => StepIn(s, t)
    case SwitchOut(t) => StepOut(s, t)
    case Act(t, choice) => if Has(s, t) then StepTask(s, t, choice) else None
  }

  /** Only init, with pid 1, exists. */
  predicate Init(s: State) {
    && |s.tasks| > INIT && s.nextPid == 2
    && s.tasks[INIT] == Task(RUNNABLE, None, 1, false, false, Free, false, Parked(KPlain))
    && forall t :: 0 <= t < |s.tasks| && t != INIT ==> s.tasks[t] == NONE
  }

  // ----- invariant -----

  predicate InKernel(pc: Pc) {
    pc.Run? || pc.FHold? || pc.FFree? || pc.XScan? || pc.XWakeInit? || pc.XLock? || pc.WScan? || pc.WLock?
  }

  predicate Exiting(pc: Pc) { pc.XScan? || pc.XWakeInit? || pc.XLock? }

  /** How state, lock, hart and control of one task go together. */
  predicate TaskOk(task: Task, t: nat) {
    match task.pc
    case Empty => task.state == INITLIZED && task.parent == None && task.pid == 0 && !task.on && task.lk == Free
    case New => task.state == USED && task.parent == None && task.pid > 0 && !task.on && task.lk != BySched
    case Parked(k) =>
      && !task.on && task.pid > 0 && !task.lk.ByTask?
      && (task.state == RUNNABLE || (task.state == SLEEP && k.KWait? && task.chan && !task.pending))
    case Resuming(_) => task.state == RUNNING && task.on && task.pid > 0 && task.lk == ByTask(t)
    case XWake => task.state == ZOMBIE && task.on && task.pid > 0 && task.lk == ByTask(t)
    case XSched => task.state == ZOMBIE && task.on && task.pid > 0 && task.lk == ByTask(t)
    case Dead => task.state == ZOMBIE && !task.on && task.pid > 0 && !task.lk.ByTask?
    case _ => task.state == RUNNING && task.on && task.pid > 0 && task.lk == Free
  }

  predicate Live(task: Task) { task.state == RUNNABLE || task.state == RUNNING || task.state == SLEEP }

  ghost predicate InvTask(s: State) {
    forall t :: 0 <= t < |s.tasks| ==> TaskOk(s.tasks[t], t)
  }

  predicate Builder(pc: Pc) { pc.FHold? || pc.FFree? }

  predicate SameSlot(pc: Pc, pc': Pc) { Builder(pc) && Builder(pc') && pc.c == pc'.c }

  /** A builder's slot is New and locked by it until it gives up. */
  predicate BuildOk(s: State, w: nat)
    requires Has(s, w)
  {
    Builder(s.tasks[w].pc) ==>
      var c := s.tasks[w].pc.c;
      && Has(s, c) && s.tasks[c].pc == New && s.tasks[w].pid < s.tasks[c].pid
      && s.tasks[c].lk == (if s.tasks[w].pc.FHold? then ByTask(w) else Free)
  }

  predicate BuiltOk(s: State, c: nat)
    requires Has(s, c)
  {
    s.tasks[c].pc == New && s.tasks[c].lk.ByTask? ==>
      Has(s, s.tasks[c].lk.t) && s.tasks[s.tasks[c].lk.t].pc == FHold(c)
  }

  /** A slot under construction has one builder. */
  ghost predicate InvFork(s: State) {
    && (forall w :: 0 <= w < |s.tasks| ==> BuildOk(s, w) && BuiltOk(s, w))
    && (forall w, v :: 0 <= w < |s.tasks| && 0 <= v < |s.tasks| && SameSlot(s.tasks[w].pc, s.tasks[v].pc) ==> w == v)
  }

  /** A parent is a live task with a smaller pid; an exiting task has given away the children
      its loop has passed. */
  predicate ParentOk(s: State, c: nat, p: nat)
    requires c < |s.tasks|
  {
    && p < |s.tasks| && Live(s.tasks[p]) && s.tasks[p].pid < s.tasks[c].pid
    && (s.tasks[p].pc.XScan? ==> s.tasks[p].pc.i <= c) && !s.tasks[p].pc.XWakeInit? && !s.tasks[p].pc.XLock?
  }

  ghost predicate InvParent(s: State) {
    forall c :: 0 <= c < |s.tasks| && s.tasks[c].parent.Some? ==> ParentOk(s, c, s.tasks[c].parent.value)
  }

  /** init is never gone, and pids are issued once. */
  ghost predicate InvPid(s: State) {
    && |s.tasks| > INIT && s.tasks[INIT].pid == 1 && Live(s.tasks[INIT]) && !Exiting(s.tasks[INIT].pc)
    && s.nextPid > 1
    && (forall t :: 0 <= t < |s.tasks| ==> s.tasks[t].pid < s.nextPid)
    && (forall t, u :: 0 <= t < |s.tasks| && 0 <= u < |s.tasks| && s.tasks[t].pid == s.tasks[u].pid != 0 ==> t == u)
  }

  /** p has already looked past slot c, or sleeps, in a wait that c would end. */
  predicate Past(p: Task, c: nat, pid: nat) {
    match p.pc
    case WScan(want, i, _) => c < i && Matches(want, pid)
    case WLock(want) => Matches(want, pid)
    case Parked(k) => p.state == SLEEP && k.KWait? && Matches(k.want, pid)
    case _ => false
  }

  /** An exiting task has found an orphan zombie and has yet to wake init. */
  predicate OrphanPending(pc: Pc) { (pc.XScan? && pc.orphan) || pc.XWakeInit? }

  /** The wake-up announcing zombie c is still to come. */
  ghost predicate InFlight(s: State, c: nat)
    requires c < |s.tasks|
  {
    || s.tasks[c].pc == XWake
    || (s.tasks[c].parent == Some(INIT) && exists e :: 0 <= e < |s.tasks| && OrphanPending(s.tasks[e].pc))
  }

  /** c is a zombie child of p that p's current wait would miss without a wake-up. */
  predicate Missed(s: State, p: nat, c: nat)
    requires p < |s.tasks| && c < |s.tasks|
  {
    s.tasks[c].parent == Some(p) && s.tasks[c].state == ZOMBIE && Past(s.tasks[p], c, s.tasks[c].pid)
  }

  ghost predicate InvWake(s: State) {
    forall p, c :: 0 <= p < |s.tasks| && 0 <= c < |s.tasks| && Missed(s, p, c) ==> s.tasks[p].pending || InFlight(s, c)
  }

  ghost predicate Inv(s: State) {
    InvTask(s) && InvFork(s) && InvParent(s) && InvPid(s) && InvWake(s)
  }

  lemma InitInv(s: State)
    requires Init(s)
    ensures Inv(s)
  {
  }

  // ----- preservation -----

  /** A change of one task that is not a fork step. */
  ghost predicate OwnStep(s: State, t: nat, me: Task) {
    && Has(s, t)
    && var was := s.tasks[t];
       && TaskOk(me, t) && me.pid == was.pid && me.parent == was.parent
       && !Builder(was.pc) && !Builder(me.pc) && was.pc != New && me.pc != New
       && (t == INIT ==> Live(me) && !Exiting(me.pc))
       && (me.state == ZOMBIE && was.state != ZOMBIE ==> me.pc == XWake)
  }

  /** Its children still have a proper parent. */
  ghost predicate KeepsChildren(s: State, t: nat, me: Task) {
    forall c :: 0 <= c < |s.tasks| && s.tasks[c].parent == Some(t) ==>
      Live(me) && (me.pc.XScan? ==> me.pc.i <= c) && !me.pc.XWakeInit? && !me.pc.XLock?
  }

  /** It misses no more zombies than before, and announcements are not dropped. */
  ghost predicate KeepsWakes(s: State, t: nat, me: Task)
    requires Has(s, t)
  {
    && (forall c ::
          && 0 <= c < |s.tasks| && s.tasks[c].parent == Some(t) && s.tasks[c].state == ZOMBIE
          && Past(me, c, s.tasks[c].pid) ==>
          me.pending || (Past(s.tasks[t], c, s.tasks[c].pid) && !s.tasks[t].pending))
    && (OrphanPending(s.tasks[t].pc) && !OrphanPending(me.pc) ==> Has(s, INIT) && s.tasks[INIT].pending && t != INIT)
    && (s.tasks[t].pc == XWake && me.pc != XWake ==>
          s.tasks[t].parent.None? ||
          (Has(s, s.tasks[t].parent.value) && s.tasks[s.tasks[t].parent.value].pending && s.tasks[t].parent.value != t))
    && (s.tasks[t].pending && !me.pending ==> forall c, pid :: !Past(me, c, pid))
  }

  lemma OwnTask(s: State, t: nat, me: Task)
    requires InvTask(s) && OwnStep(s, t, me)
    ensures InvTask(With(s, t, me))
  {
  }

  lemma OwnPid(s: State, t: nat, me: Task)
    requires InvPid(s) && OwnStep(s, t, me)
    ensures InvPid(With(s, t, me))
  {
  }

  lemma OwnFork(s: State, t: nat, me: Task)
    requires InvFork(s) && OwnStep(s, t, me)
    ensures InvFork(With(s, t, me))
  {
    hide TaskOk;
    var s' := With(s, t, me);
    forall w | 0 <= w < |s'.tasks| ensures BuildOk(s', w) && BuiltOk(s', w) {
      assert BuildOk(s, w) && BuiltOk(s, w);
    }
    forall w, v | 0 <= w < |s'.tasks| && 0 <= v < |s'.tasks| && SameSlot(s'.tasks[w].pc, s'.tasks[v].pc)
      ensures w == v
    {
      assert SameSlot(s.tasks[w].pc, s.tasks[v].pc);
    }
  }

  lemma OwnParent(s: State, t: nat, me: Task)
    requires InvParent(s) && OwnStep(s, t, me) && KeepsChildren(s, t, me)
    ensures InvParent(With(s, t, me))
  {
    hide TaskOk;
    var s' := With(s, t, me);
    forall c | 0 <= c < |s'.tasks| && s'.tasks[c].parent.Some? ensures ParentOk(s', c, s'.tasks[c].parent.value) {
      assert ParentOk(s, c, s.tasks[c].parent.value);
    }
  }

  lemma OwnWake(s: State, t: nat, me: Task)
    requires InvWake(s) && InvParent(s) && OwnStep(s, t, me) && KeepsWakes(s, t, me)
    ensures InvWake(With(s, t, me))
  {
    hide TaskOk;
    var s' := With(s, t, me);
    forall p, c | 0 <= p < |s'.tasks| && 0 <= c < |s'.tasks| && Missed(s', p, c)
      ensures s'.tasks[p].pending || InFlight(s', c)
    {
      if c == t && me.pc == XWake {
      } else if !s'.tasks[p].pending {
        assert Missed(s, p, c);
        assert s.tasks[p].pending || InFlight(s, c);
        InFlightKept(s, t, me, p, c);
      }
    }
  }

  lemma InFlightKept(s: State, t: nat, me: Task, p: nat, c: nat)
    requires OwnStep(s, t, me) && KeepsWakes(s, t, me) && InvParent(s)
    requires Has(s, p) && Has(s, c) && Missed(s, p, c) && !With(s, t, me).tasks[p].pending && InFlight(s, c)
    requires Missed(With(s, t, me), p, c)
    ensures InFlight(With(s, t, me), c)
  {
    hide TaskOk, Past;
    var s' := With(s, t, me);
    if s.tasks[c].pc != XWake {
      var e :| 0 <= e < |s.tasks| && OrphanPending(s.tasks[e].pc);
      assert OrphanPending(s'.tasks[e].pc);
    }
  }

  lemma OwnInv(s: State, t: nat, me: Task)
    requires Inv(s) && OwnStep(s, t, me) && KeepsChildren(s, t, me) && KeepsWakes(s, t, me)
    ensures Inv(With(s, t, me))
  {
    hide InvTask, InvFork, InvParent, InvPid, InvWake, OwnStep, KeepsChildren, KeepsWakes;
    OwnTask(s, t, me);
    OwnPid(s, t, me);
    OwnFork(s, t, me);
    OwnParent(s, t, me);
    OwnWake(s, t, me);
  }

  // ----- steps of one task -----

  /** The task that acts, in a state that keeps the invariant. */
  ghost predicate At(s: State, t: nat) { Inv(s) && Has(s, t) }

  lemma OwnOk(s: State, t: nat)
    requires At(s, t)
    ensures TaskOk(s.tasks[t], t) && BuildOk(s, t) && BuiltOk(s, t)
    ensures t == INIT ==> Live(s.tasks[t]) && !Exiting(s.tasks[t].pc)
    ensures |s.tasks| > INIT && (s.tasks[t].pid == 1 ==> t == INIT) && s.tasks[INIT].pid == 1
    ensures s.tasks[INIT].pc != New && !s.tasks[INIT].pc.Empty?
  {
    assert TaskOk(s.tasks[INIT], INIT);
  }

  /** Children of an exiting task lie at or after its loop index. */
  lemma ChildrenOf(s: State, t: nat)
    requires At(s, t)
    ensures KeepsChildren(s, t, s.tasks[t])
  {
    hide InvTask, InvFork, InvPid, InvWake;
    forall c | 0 <= c < |s.tasks| && s.tasks[c].parent == Some(t)
      ensures Live(s.tasks[t]) && (s.tasks[t].pc.XScan? ==> s.tasks[t].pc.i <= c) && !s.tasks[t].pc.XWakeInit?
        && !s.tasks[t].pc.XLock?
    {
      assert ParentOk(s, c, t);
    }
  }

  lemma SwitchInv(s: State, t: nat)
    requires Inv(s)
    ensures StepIn(s, t).Some? ==> Inv(StepIn(s, t).value)
    ensures StepOut(s, t).Some? ==> Inv(StepOut(s, t).value)
  {
    hide Inv;
    if Has(s, t) {
      OwnOk(s, t);
      ChildrenOf(s, t);
      var me := s.tasks[t];
      if StepIn(s, t).Some? {
        OwnInv(s, t, me.(state := RUNNING, on := true, lk := ByTask(t), pc := Resuming(me.pc.k)));
      }
      if StepOut(s, t).Some? { OwnInv(s, t, me.(lk := Free)); }
    }
  }

  /** Steps of a task that touch its own record only. */
  lemma PlainInv(s: State, t: nat, choice: Choice)
    requires At(s, t) && StepTask(s, t, choice).Some?
    requires s.tasks[t].pc.Run? && !choice.CFork?
    ensures Inv(StepTask(s, t, choice).value)
  {
    hide Inv;
    OwnOk(s, t);
    ChildrenOf(s, t);
    var s' := StepTask(s, t, choice).value;
    assert s' == With(s, t, s'.tasks[t]);
    OwnInv(s, t, s'.tasks[t]);
  }

  lemma LockInv(s: State, t: nat, choice: Choice)
    requires At(s, t) && StepTask(s, t, choice).Some?
    requires var pc := s.tasks[t].pc; pc.Resuming? || pc.WLock?
    ensures Inv(StepTask(s, t, choice).value)
  {
    hide Inv;
    OwnOk(s, t);
    ChildrenOf(s, t);
    var s' := StepTask(s, t, choice).value;
    assert s' == With(s, t, s'.tasks[t]);
    OwnInv(s, t, s'.tasks[t]);
  }

  lemma LeaveInv(s: State, t: nat, choice: Choice)
    requires At(s, t) && StepTask(s, t, choice).Some?
    requires var pc := s.tasks[t].pc; pc.XLock? || pc.XSched?
    ensures Inv(StepTask(s, t, choice).value)
  {
    hide Inv;
    OwnOk(s, t);
    ChildrenOf(s, t);
    var s' := StepTask(s, t, choice).value;
    assert s' == With(s, t, s'.tasks[t]);
    OwnInv(s, t, s'.tasks[t]);
  }

  lemma ScanEndInv(s: State, t: nat, choice: Choice)
    requires At(s, t) && StepTask(s, t, choice).Some?
    requires var pc := s.tasks[t].pc; (pc.XScan? || pc.WScan?) && pc.i >= |s.tasks|
    ensures Inv(StepTask(s, t, choice).value)
  {
    hide Inv;
    OwnOk(s, t);
    ChildrenOf(s, t);
    var s' := StepTask(s, t, choice).value;
    assert s' == With(s, t, s'.tasks[t]);
    OwnInv(s, t, s'.tasks[t]);
  }

  /** waitpid passes a slot that is not a zombie it waits for. */
  lemma ScanPassInv(s: State, t: nat, want: Option<nat>, i: nat, count: nat, count': nat)
    requires At(s, t) && Has(s, i) && s.tasks[t].pc == WScan(want, i, count)
    requires s.tasks[i].parent == Some(t) && Matches(want, s.tasks[i].pid) ==> s.tasks[i].state != ZOMBIE
    ensures Inv(Goto(s, t, WScan(want, i + 1, count')))
  {
    hide Inv;
    OwnOk(s, t);
    ChildrenOf(s, t);
    OwnInv(s, t, s.tasks[t].(pc := WScan(want, i + 1, count')));
  }

  // ----- steps that allocate, publish or free a slot -----

  /** Task t turns slot c, which no task has as parent, into c', and goes to pc. */
  ghost predicate SlotStep(s: State, s': State, t: nat, c: nat, c': Task, pc: Pc) {
    && Has(s, t) && Has(s, c) && c != t && c != INIT
    && s'.tasks == s.tasks[c := c'][t := s.tasks[t].(pc := pc)] && s'.nextPid >= s.nextPid
    && !Live(s.tasks[c]) && s.tasks[c].pc != XWake && !OrphanPending(s.tasks[c].pc) && c'.state != ZOMBIE
    && TaskOk(c', c) && TaskOk(s.tasks[t].(pc := pc), t) && !OrphanPending(c'.pc)
    && (pc.Run? || Builder(pc)) && (s.tasks[t].pc.Run? || Builder(s.tasks[t].pc) || s.tasks[t].pc.WScan?)
    && (c'.parent == None || (c'.parent == Some(t) && s.tasks[t].pid < c'.pid))
    && (c'.pid == 0 || c'.pid == s.tasks[c].pid || (c'.pid == s.nextPid && s'.nextPid > s.nextPid))
  }

  lemma SlotTask(s: State, s': State, t: nat, c: nat, c': Task, pc: Pc)
    requires InvTask(s) && SlotStep(s, s', t, c, c', pc)
    ensures InvTask(s')
  {
  }

  lemma SlotPid(s: State, s': State, t: nat, c: nat, c': Task, pc: Pc)
    requires InvPid(s) && SlotStep(s, s', t, c, c', pc)
    ensures InvPid(s')
  {
    hide TaskOk;
  }

  lemma SlotParent(s: State, s': State, t: nat, c: nat, c': Task, pc: Pc)
    requires InvTask(s) && InvParent(s) && SlotStep(s, s', t, c, c', pc)
    ensures InvParent(s')
  {
    assert Live(s'.tasks[t]);
    hide TaskOk;
    forall d | 0 <= d < |s'.tasks| && s'.tasks[d].parent.Some? ensures ParentOk(s', d, s'.tasks[d].parent.value) {
      if d != c { assert ParentOk(s, d, s.tasks[d].parent.value); }
    }
  }

  lemma SlotWake(s: State, s': State, t: nat, c: nat, c': Task, pc: Pc)
    requires InvParent(s) && InvWake(s) && SlotStep(s, s', t, c, c', pc)
    ensures InvWake(s')
  {
    hide TaskOk;
    forall p, d | 0 <= p < |s'.tasks| && 0 <= d < |s'.tasks| && Missed(s', p, d)
      ensures s'.tasks[p].pending || InFlight(s', d)
    {
      assert p != t && d != c;
      assert ParentOk(s, d, p);
      assert Missed(s, p, d);
      if !s.tasks[p].pending && s.tasks[d].pc != XWake {
        assert InFlight(s, d);
        var e :| 0 <= e < |s.tasks| && OrphanPending(s.tasks[e].pc);
        assert OrphanPending(s'.tasks[e].pc);
      }
    }
  }

  lemma SlotInv(s: State, s': State, t: nat, c: nat, c': Task, pc: Pc)
    requires Inv(s) && InvFork(s') && SlotStep(s, s', t, c, c', pc)
    ensures Inv(s')
  {
    hide InvTask, InvFork, InvParent, InvPid, InvWake, SlotStep;
    SlotTask(s, s', t, c, c', pc);
    SlotPid(s, s', t, c, c', pc);
    SlotParent(s, s', t, c, c', pc);
    SlotWake(s, s', t, c, c', pc);
  }

  /** Builders after such a step: t may start, go on with, or finish building c. */
  lemma SlotFork(s: State, s': State, t: nat, c: nat, c': Task, pc: Pc)
    requires InvFork(s) && Has(s, t) && Has(s, c) && c != t
    requires s'.tasks == s.tasks[c := c'][t := s.tasks[t].(pc := pc)]
    requires !Builder(s.tasks[c].pc) && !Builder(c'.pc) && s.tasks[t].pc != New && pc != New
    requires Builder(s.tasks[t].pc) ==> s.tasks[t].pc.c == c
    requires s.tasks[c].pc == New ==> Builder(s.tasks[t].pc)
    requires Builder(pc) ==>
      pc.c == c && c'.pc == New && s.tasks[t].pid < c'.pid && c'.lk == (if pc.FHold? then ByTask(t) else Free)
    requires !Builder(pc) ==> c'.pc != New
    ensures InvFork(s')
  {
    forall w | 0 <= w < |s'.tasks| ensures BuildOk(s', w) && BuiltOk(s', w) {
      assert BuildOk(s, w) && BuiltOk(s, w);
    }
    forall w, v | 0 <= w < |s'.tasks| && 0 <= v < |s'.tasks| && SameSlot(s'.tasks[w].pc, s'.tasks[v].pc)
      ensures w == v
    {
      assert BuildOk(s, w) && BuildOk(s, v);
      if w != t && v != t { assert SameSlot(s.tasks[w].pc, s.tasks[v].pc); }
    }
  }

  /** kfork takes a free slot. */
  lemma ForkInv(s: State, t: nat, c: nat)
    requires At(s, t) && s.tasks[t].pc.Run? && StepRun(s, t, CFork(c)).Some?
    ensures Inv(StepRun(s, t, CFork(c)).value)
  {
    hide Inv;
    OwnOk(s, t);
    OwnOk(s, c);
    var s' := StepRun(s, t, CFork(c)).value;
    ForkPart(s);
    PidBound(s, t);
    SlotFork(s, s', t, c, s'.tasks[c], FHold(c));
    SlotInv(s, s', t, c, s'.tasks[c], FHold(c));
  }

  /** kfork goes on with the slot it has taken: publishes it, unlocks it or gives it back. */
  lemma BuildInv(s: State, t: nat, c': Task, pc: Pc)
    requires At(s, t) && Builder(s.tasks[t].pc) && Has(s, s.tasks[t].pc.c)
    requires var c := s.tasks[t].pc.c; var slot := s.tasks[c];
      || (c' == Freed(slot) && pc == Run)
      || (c' == slot.(lk := Free) && pc == FFree(c))
      || (c' == slot.(parent := Some(t), state := RUNNABLE, lk := Free, pc := Parked(KPlain)) && pc == Run)
    ensures Inv(Goto(With(s, s.tasks[t].pc.c, c'), t, pc))
  {
    hide Inv;
    var c := s.tasks[t].pc.c;
    var s' := Goto(With(s, c, c'), t, pc);
    BuilderAt(s, t, c);
    ForkPart(s);
    SlotFork(s, s', t, c, c', pc);
    SlotInv(s, s', t, c, c', pc);
  }

  lemma BuilderAt(s: State, t: nat, c: nat)
    requires At(s, t) && Builder(s.tasks[t].pc) && s.tasks[t].pc.c == c
    ensures Has(s, c) && c != t && c != INIT && s.tasks[c].pc == New && TaskOk(s.tasks[c], c)
    ensures TaskOk(s.tasks[t], t) && s.tasks[t].pid < s.tasks[c].pid
  {
    OwnOk(s, t);
    OwnOk(s, c);
  }

  lemma ForkPart(s: State)
    requires Inv(s)
    ensures InvFork(s)
  {
  }

  lemma PidBound(s: State, t: nat)
    requires At(s, t)
    ensures s.tasks[t].pid < s.nextPid && BuildOk(s, t)
    ensures Builder(s.tasks[t].pc) ==> s.tasks[t].pid < s.tasks[s.tasks[t].pc.c].pid
  {
  }

  /** A zombie whose lock is free has left its hart for good. */
  lemma ZombieLeft(s: State, c: nat)
    requires At(s, c) && s.tasks[c].state == ZOMBIE && s.tasks[c].lk == Free
    ensures s.tasks[c].pc == Dead && !s.tasks[c].on && c != INIT
  {
    OwnOk(s, c);
  }

  lemma ReapInv(s: State, t: nat, want: Option<nat>, i: nat, count: nat)
    requires At(s, t) && Has(s, i) && s.tasks[t].pc == WScan(want, i, count)
    requires s.tasks[i].state == ZOMBIE && s.tasks[i].lk == Free
    ensures Inv(Goto(With(s, i, Freed(s.tasks[i])), t, Run))
  {
    hide Inv;
    OwnOk(s, t);
    ZombieLeft(s, i);
    var s' := Goto(With(s, i, Freed(s.tasks[i])), t, Run);
    ForkPart(s);
    SlotFork(s, s', t, i, Freed(s.tasks[i]), Run);
    SlotInv(s, s', t, i, Freed(s.tasks[i]), Run);
  }

  // ----- wake-ups and orphans -----

  /** wake_wait_parent on a live task whose lock is free. */
  lemma WokenInv(s: State, p: nat)
    requires At(s, p) && Live(s.tasks[p]) && s.tasks[p].lk == Free
    ensures Inv(With(s, p, Woken(s.tasks[p])))
  {
    hide Inv;
    OwnOk(s, p);
    ChildrenOf(s, p);
    if Builder(s.tasks[p].pc) { FlagInv(s, p); } else { OwnInv(s, p, Woken(s.tasks[p])); }
  }

  /** Setting the pending flag of a task that is building another. */
  lemma FlagInv(s: State, p: nat)
    requires At(s, p) && s.tasks[p].state == RUNNING
    ensures Inv(With(s, p, s.tasks[p].(pending := true)))
  {
    var me := s.tasks[p].(pending := true);
    var s' := With(s, p, me);
    OwnOk(s, p);
    KeptFork(s, p, me);
    assert InvParent(s') by {
      forall c | 0 <= c < |s'.tasks| && s'.tasks[c].parent.Some? ensures ParentOk(s', c, s'.tasks[c].parent.value) {
        assert ParentOk(s, c, s.tasks[c].parent.value);
      }
    }
    FlagWake(s, p);
  }

  lemma KeptFork(s: State, p: nat, me: Task)
    requires InvFork(s) && Has(s, p) && me.pc == s.tasks[p].pc && me.lk == s.tasks[p].lk && me.pid == s.tasks[p].pid
    ensures InvFork(With(s, p, me))
  {
    var s' := With(s, p, me);
    forall w | 0 <= w < |s'.tasks| ensures BuildOk(s', w) && BuiltOk(s', w) {
      assert BuildOk(s, w) && BuiltOk(s, w);
    }
    forall w, v | 0 <= w < |s'.tasks| && 0 <= v < |s'.tasks| && SameSlot(s'.tasks[w].pc, s'.tasks[v].pc)
      ensures w == v
    {
      assert SameSlot(s.tasks[w].pc, s.tasks[v].pc);
    }
  }

  lemma FlagWake(s: State, p: nat)
    requires InvWake(s) && Has(s, p)
    ensures InvWake(With(s, p, s.tasks[p].(pending := true)))
  {
    var s' := With(s, p, s.tasks[p].(pending := true));
    forall q, c | 0 <= q < |s'.tasks| && 0 <= c < |s'.tasks| && Missed(s', q, c)
      ensures s'.tasks[q].pending || InFlight(s', c)
    {
      assert Missed(s, q, c);
      if !s'.tasks[q].pending && s.tasks[c].pc != XWake {
        assert InFlight(s, c);
        var e :| 0 <= e < |s.tasks| && OrphanPending(s.tasks[e].pc);
        assert OrphanPending(s'.tasks[e].pc);
      }
    }
  }

  lemma WakeInitInv(s: State, t: nat)
    requires At(s, t) && s.tasks[t].pc == XWakeInit && s.tasks[INIT].lk == Free && t != INIT
    ensures Inv(Goto(With(s, INIT, Woken(s.tasks[INIT])), t, XLock))
  {
    hide Inv;
    OwnOk(s, INIT);
    WokenInv(s, INIT);
    var s1 := With(s, INIT, Woken(s.tasks[INIT]));
    OwnOk(s1, t);
    ChildrenOf(s1, t);
    OwnInv(s1, t, s1.tasks[t].(pc := XLock));
  }

  lemma WakeParentInv(s: State, t: nat)
    requires At(s, t) && s.tasks[t].pc == XWake && StepTask(s, t, CExit).Some?
    ensures Inv(StepTask(s, t, CExit).value)
  {
    hide Inv;
    OwnOk(s, t);
    var parent := s.tasks[t].parent;
    var s1 := s;
    if parent.Some? {
      ParentOf(s, t);
      WokenInv(s, parent.value);
      s1 := With(s, parent.value, Woken(s.tasks[parent.value]));
    }
    OwnOk(s1, t);
    ChildrenOf(s1, t);
    OwnInv(s1, t, s1.tasks[t].(pc := XSched));
  }

  lemma ParentOf(s: State, c: nat)
    requires At(s, c) && s.tasks[c].parent.Some?
    ensures ParentOk(s, c, s.tasks[c].parent.value)
  {
  }

  /** Handing child c of t to init; if c is a zombie, t has noted that init is to be woken. */
  lemma AdoptInv(s: State, t: nat, c: nat)
    requires At(s, t) && Has(s, c) && s.tasks[c].parent == Some(t)
    requires s.tasks[c].state == ZOMBIE ==> OrphanPending(s.tasks[t].pc)
    ensures Inv(With(s, c, s.tasks[c].(parent := Some(INIT))))
  {
    var me := s.tasks[c].(parent := Some(INIT));
    OwnOk(s, c);
    ParentOf(s, c);
    KeptFork(s, c, me);
    AdoptWake(s, t, c);
    AdoptParent(s, c);
  }

  lemma AdoptParent(s: State, c: nat)
    requires InvParent(s) && InvPid(s) && Has(s, c) && s.tasks[c].pid > 1
    ensures InvParent(With(s, c, s.tasks[c].(parent := Some(INIT))))
  {
    var s' := With(s, c, s.tasks[c].(parent := Some(INIT)));
    forall d | 0 <= d < |s'.tasks| && s'.tasks[d].parent.Some? ensures ParentOk(s', d, s'.tasks[d].parent.value) {
      if d != c { assert ParentOk(s, d, s.tasks[d].parent.value); }
    }
  }

  lemma AdoptWake(s: State, t: nat, c: nat)
    requires InvWake(s) && Has(s, t) && Has(s, c) && c != t
    requires s.tasks[c].state == ZOMBIE ==> OrphanPending(s.tasks[t].pc)
    ensures InvWake(With(s, c, s.tasks[c].(parent := Some(INIT))))
  {
    var s' := With(s, c, s.tasks[c].(parent := Some(INIT)));
    forall q, d | 0 <= q < |s'.tasks| && 0 <= d < |s'.tasks| && Missed(s', q, d)
      ensures s'.tasks[q].pending || InFlight(s', d)
    {
      if d == c {
        assert OrphanPending(s'.tasks[t].pc);
      } else {
        assert Missed(s, q, d);
        if !s'.tasks[q].pending && s.tasks[d].pc != XWake {
          assert InFlight(s, d);
          var e :| 0 <= e < |s.tasks| && OrphanPending(s.tasks[e].pc);
          assert OrphanPending(s'.tasks[e].pc);
        }
      }
    }
  }

  /** One slot of the orphan loop: note the zombie, hand the child over, go on. */
  lemma OrphanInv(s: State, t: nat, i: nat, orphan: bool)
    requires At(s, t) && s.tasks[t].pc == XScan(i, orphan) && Has(s, i) && StepOrphan(s, t, i, orphan).Some?
    ensures Inv(StepOrphan(s, t, i, orphan).value)
  {
    hide Inv;
    OwnOk(s, t);
    ChildrenOf(s, t);
    if s.tasks[i].parent != Some(t) {
      OwnInv(s, t, s.tasks[t].(pc := XScan(i + 1, orphan)));
    } else {
      var zombie := orphan || s.tasks[i].state == ZOMBIE;
      ParentOf(s, i);
      OwnInv(s, t, s.tasks[t].(pc := XScan(i, zombie)));
      var s1 := Goto(s, t, XScan(i, zombie));
      HandOverInv(s1, t, i, zombie);
      assert Goto(With(s1, i, s1.tasks[i].(parent := Some(INIT))), t, XScan(i + 1, zombie))
          == StepOrphan(s, t, i, orphan).value;
    }
  }

  lemma HandOverInv(s: State, t: nat, i: nat, orphan: bool)
    requires At(s, t) && Has(s, i) && s.tasks[t].pc == XScan(i, orphan) && s.tasks[i].parent == Some(t)
    requires s.tasks[i].state == ZOMBIE ==> orphan
    ensures Inv(Goto(With(s, i, s.tasks[i].(parent := Some(INIT))), t, XScan(i + 1, orphan)))
  {
    hide Inv;
    AdoptInv(s, t, i);
    var s' := With(s, i, s.tasks[i].(parent := Some(INIT)));
    OwnOk(s', t);
    ChildrenOf(s', t);
    OwnInv(s', t, s'.tasks[t].(pc := XScan(i + 1, orphan)));
  }

  // ----- every step -----

  lemma ScanInv(s: State, t: nat, want: Option<nat>, i: nat, count: nat)
    requires At(s, t) && s.tasks[t].pc == WScan(want, i, count) && Has(s, i) && StepScan(s, t, want, i, count).Some?
    ensures Inv(StepScan(s, t, want, i, count).value)
  {
    hide Inv;
    var c := s.tasks[i];
    if c.parent == Some(t) && Matches(want, c.pid) {
      if c.state == ZOMBIE { ReapInv(s, t, want, i, count); } else { ScanPassInv(s, t, want, i, count, count + 1); }
    } else {
      ScanPassInv(s, t, want, i, count, count);
    }
  }

  lemma StepTaskInv(s: State, t: nat, choice: Choice)
    requires At(s, t) && StepTask(s, t, choice).Some?
    ensures Inv(StepTask(s, t, choice).value)
  {
    hide Inv, Woken, Freed, StepRun, StepScan, StepOrphan;
    match s.tasks[t].pc
    case Run =>
      if choice.CFork? { ForkInv(s, t, choice.c); } else { PlainInv(s, t, choice); }
    case Resuming(_) => LockInv(s, t, choice);
    case WLock(_) => LockInv(s, t, choice);
    case XLock => LeaveInv(s, t, choice);
    case XSched => LeaveInv(s, t, choice);
    case FHold(c) => StepHoldInv(s, t, choice);
    case FFree(c) => BuildInv(s, t, Freed(s.tasks[c]), Run);
    case XScan(i, orphan) => if i < |s.tasks| { OrphanInv(s, t, i, orphan); } else { ScanEndInv(s, t, choice); }
    case XWakeInit => WakeInitInv(s, t);
    case XWake => WakeParentInv(s, t);
    case WScan(want, i, count) => if i < |s.tasks| { ScanInv(s, t, want, i, count); } else { ScanEndInv(s, t, choice); }
    case _ =>
  }

  lemma StepHoldInv(s: State, t: nat, choice: Choice)
    requires At(s, t) && s.tasks[t].pc.FHold? && StepTask(s, t, choice).Some?
    ensures Inv(StepTask(s, t, choice).value)
  {
    hide Inv, Freed;
    var c := s.tasks[t].pc.c;
    if choice.CForkOk? {
      BuildInv(s, t, s.tasks[c].(parent := Some(t), state := RUNNABLE, lk := Free, pc := Parked(KPlain)), Run);
    } else if choice.locked {
      BuildInv(s, t, Freed(s.tasks[c]), Run);
    } else {
      BuildInv(s, t, s.tasks[c].(lk := Free), FFree(c));
    }
  }

  /** Every step of every task and scheduler keeps the invariant. */
  lemma StepInv(s: State, m: Move)
    requires Inv(s) && Step(s, m).Some?
    ensures Inv(Step(s, m).value)
  {
    hide Inv, StepIn, StepOut, StepTask;
    match m
    case SwitchIn(t) => SwitchInv(s, t);
    case SwitchOut(t) => SwitchInv(s, t);
    case Act(t, choice) => StepTaskInv(s, t, choice);
  }

  // ----- runs -----

  ghost predicate Runs(s: State, moves: seq<Move>, s': State)
    decreases |moves|
  {
    if moves == [] then s' == s else
    Step(s, moves[0]).Some? && Runs(Step(s, moves[0]).value, moves[1..], s')
  }

  ghost predicate Reachable(s: State) {
    exists s0, moves :: Init(s0) && Runs(s0, moves, s)
  }

  // ----- sleepers have children -----

  /** The wait that t has found a child for. */
  predicate Expects(task: Task, want: Option<nat>) {
    || (task.pc.WScan? && task.pc.count > 0 && task.pc.want == want)
    || task.pc == WLock(want)
    || (task.pc == Parked(KWait(want)) && task.state == SLEEP)
  }

  predicate ChildOf(child: Task, p: nat, want: Option<nat>) {
    child.parent == Some(p) && Matches(want, child.pid)
  }

  ghost predicate HasChild(s: State, p: nat, want: Option<nat>) {
    exists c :: 0 <= c < |s.tasks| && ChildOf(s.tasks[c], p, want)
  }

  ghost predicate InvCount(s: State) {
    forall p, want :: 0 <= p < |s.tasks| && Expects(s.tasks[p], want) ==> HasChild(s, p, want)
  }

  /** A step of t leaves the waits of other tasks and the children of other tasks alone. */
  predicate ChildKept(was: Task, now: Task, t: nat) {
    was.parent.Some? && was.parent != Some(t) ==> now.parent == was.parent && now.pid == was.pid
  }

  ghost predicate WaitKept(was: Task, now: Task) {
    forall want :: Expects(now, want) ==> Expects(was, want)
  }

  ghost predicate Others(s: State, s': State, t: nat) {
    && |s'.tasks| == |s.tasks|
    && (forall p :: 0 <= p < |s.tasks| && p != t ==> WaitKept(s.tasks[p], s'.tasks[p]))
    && (forall d :: 0 <= d < |s.tasks| ==> ChildKept(s.tasks[d], s'.tasks[d], t))
  }

  lemma OthersCount(s: State, s': State, t: nat)
    requires InvCount(s) && Others(s, s', t) && Has(s, t)
    requires forall want :: Expects(s'.tasks[t], want) ==> HasChild(s', t, want)
    ensures InvCount(s')
  {
    forall p, want | 0 <= p < |s'.tasks| && Expects(s'.tasks[p], want) ensures HasChild(s', p, want) {
      if p != t {
        assert WaitKept(s.tasks[p], s'.tasks[p]);
        assert HasChild(s, p, want);
        var c :| 0 <= c < |s.tasks| && ChildOf(s.tasks[c], p, want);
        assert ChildKept(s.tasks[c], s'.tasks[c], t);
        assert ChildOf(s'.tasks[c], p, want);
      }
    }
  }

  /** What a step of t may do to the record of another task. */
  predicate Touch(was: Task, now: Task, t: nat) {
    || now == was
    || now == Woken(was)
    || (was.parent == Some(t) && (now == was.(parent := Some(INIT)) || now == Freed(was)))
    || (was.parent == None && (now.pc == New || now.pc == Empty || now.pc == Parked(KPlain)))
  }

  lemma TouchKept(was: Task, now: Task, t: nat)
    requires Touch(was, now, t)
    ensures ChildKept(was, now, t) && WaitKept(was, now)
  {
  }

  lemma NoParent(s: State, c: nat)
    requires At(s, c) && (s.tasks[c].state == INITLIZED || s.tasks[c].pc == New)
    ensures s.tasks[c].parent == None
  {
    OwnOk(s, c);
  }

  lemma StepTouch(s: State, t: nat, choice: Choice, d: nat)
    requires At(s, t) && Has(s, d) && StepTask(s, t, choice).Some?
    ensures var s' := StepTask(s, t, choice).value;
            |s'.tasks| == |s.tasks| && (d != t ==> Touch(s.tasks[d], s'.tasks[d], t))
  {
    hide Inv, Woken, Freed;
    match s.tasks[t].pc
    case Run => if choice.CFork? { NoParent(s, choice.c); }
    case FHold(c) =>
      BuilderAt(s, t, c);
      NoParent(s, c);
      assert Freed(s.tasks[c]).pc == Empty by { FreedIsEmpty(s.tasks[c]); }
    case FFree(c) =>
      BuilderAt(s, t, c);
      NoParent(s, c);
      assert Freed(s.tasks[c]).pc == Empty by { FreedIsEmpty(s.tasks[c]); }
    case _ =>
  }

  lemma FreedIsEmpty(task: Task)
    ensures Freed(task).pc == Empty
  {
  }

  lemma StepOthers(s: State, t: nat, choice: Choice)
    requires At(s, t) && StepTask(s, t, choice).Some?
    ensures Others(s, StepTask(s, t, choice).value, t)
  {
    hide Inv, StepTask, Touch, ChildKept, WaitKept;
    var s' := StepTask(s, t, choice).value;
    StepTouch(s, t, choice, t);
    forall d | 0 <= d < |s.tasks|
      ensures ChildKept(s.tasks[d], s'.tasks[d], t) && (d != t ==> WaitKept(s.tasks[d], s'.tasks[d]))
    {
      StepTouch(s, t, choice, d);
      if d != t { TouchKept(s.tasks[d], s'.tasks[d], t); } else { OwnLine(s, t, choice); }
    }
  }

  /** A task keeps its own pid and parent. */
  lemma OwnLine(s: State, t: nat, choice: Choice)
    requires At(s, t) && StepTask(s, t, choice).Some?
    ensures var s' := StepTask(s, t, choice).value; Has(s', t) && ChildKept(s.tasks[t], s'.tasks[t], t)
  {
    hide Inv;
    OwnOk(s, t);
    if s.tasks[t].pc.XScan? || s.tasks[t].pc.WScan? {
      if s.tasks[t].parent == Some(t) { ParentOf(s, t); assert false; }
    }
  }

  /** Waits of the acting task: it counts a child only when it sees one. */
  lemma StepExpects(s: State, t: nat, choice: Choice, want: Option<nat>)
    requires At(s, t) && InvCount(s) && StepTask(s, t, choice).Some?
    requires Has(StepTask(s, t, choice).value, t) && Expects(StepTask(s, t, choice).value.tasks[t], want)
    ensures HasChild(StepTask(s, t, choice).value, t, want)
  {
    hide Inv, InvCount, HasChild, StepTask;
    var s' := StepTask(s, t, choice).value;
    WaitShape(s, t, choice, want);
    if Expects(s.tasks[t], want) {
      ExpectsOne(s, t, want);
      SameChildren(s, s', t, want);
    } else {
      CountsOne(s, t, choice, want);
    }
  }

  lemma WaitShape(s: State, t: nat, choice: Choice, want: Option<nat>)
    requires Has(s, t) && StepTask(s, t, choice).Some?
    requires Has(StepTask(s, t, choice).value, t) && Expects(StepTask(s, t, choice).value.tasks[t], want)
    ensures var me, s' := s.tasks[t], StepTask(s, t, choice).value;
            && (me.pc.WScan? || Expects(me, want)) && s' == With(s, t, s'.tasks[t])
            && s'.tasks[t].parent == me.parent && s'.tasks[t].pid == me.pid
  {
    hide Matches, Woken, Freed, StepScan, StepOrphan;
    match s.tasks[t].pc
    case XScan(i, orphan) => if i < |s.tasks| { SlotShape(s, t, i, None, 0, orphan); }
    case WScan(w, i, count) => if i < |s.tasks| { SlotShape(s, t, i, w, count, false); }
    case _ =>
  }

  /** The scan goes on with no other record changed, or is over. */
  predicate Passed(s: State, s': State, t: nat)
    requires Has(s, t)
  {
    && Has(s', t)
    && (s'.tasks[t].pc.Run? || (s'.tasks[t].pc.WScan? && s' == Goto(s, t, s'.tasks[t].pc)))
  }

  lemma SlotShape(s: State, t: nat, i: nat, want: Option<nat>, count: nat, orphan: bool)
    requires Has(s, t) && Has(s, i)
    ensures StepScan(s, t, want, i, count).Some? ==> Passed(s, StepScan(s, t, want, i, count).value, t)
    ensures StepOrphan(s, t, i, orphan).Some? ==>
              Has(StepOrphan(s, t, i, orphan).value, t) && StepOrphan(s, t, i, orphan).value.tasks[t].pc.XScan?
  {
    hide Matches, Freed;
  }

  lemma ExpectsOne(s: State, t: nat, want: Option<nat>)
    requires InvCount(s) && Has(s, t) && Expects(s.tasks[t], want)
    ensures HasChild(s, t, want)
  {
  }

  lemma SameChildren(s: State, s': State, t: nat, want: Option<nat>)
    requires HasChild(s, t, want) && Has(s, t) && Has(s', t) && s' == With(s, t, s'.tasks[t])
    requires s'.tasks[t].parent == s.tasks[t].parent && s'.tasks[t].pid == s.tasks[t].pid
    ensures HasChild(s', t, want)
  {
    var c :| 0 <= c < |s.tasks| && ChildOf(s.tasks[c], t, want);
    assert ChildOf(s'.tasks[c], t, want);
  }

  lemma CountsOne(s: State, t: nat, choice: Choice, want: Option<nat>)
    requires Has(s, t) && s.tasks[t].pc.WScan? && StepTask(s, t, choice).Some?
    requires !Expects(s.tasks[t], want) && Expects(StepTask(s, t, choice).value.tasks[t], want)
    ensures HasChild(StepTask(s, t, choice).value, t, want)
  {
    var s', i := StepTask(s, t, choice).value, s.tasks[t].pc.i;
    assert ChildOf(s'.tasks[i], t, want);
  }

  lemma SwitchCount(s: State, t: nat)
    requires Inv(s) && InvCount(s) && Has(s, t)
    ensures StepIn(s, t).Some? ==> InvCount(StepIn(s, t).value)
    ensures StepOut(s, t).Some? ==> InvCount(StepOut(s, t).value)
  {
    hide Inv, InvCount, HasChild;
    if StepOut(s, t).Some? {
      var s' := StepOut(s, t).value;
      forall want | Expects(s'.tasks[t], want) ensures HasChild(s', t, want) {
        ExpectsOne(s, t, want);
        SameChildren(s, s', t, want);
      }
      OthersCount(s, s', t);
    }
    if StepIn(s, t).Some? { OthersCount(s, StepIn(s, t).value, t); }
  }

  /** Every step keeps: a task that waits has a matching child. */
  lemma StepCount(s: State, m: Move)
    requires Inv(s) && InvCount(s) && Step(s, m).Some?
    ensures InvCount(Step(s, m).value)
  {
    hide Inv, InvCount, StepTask, Others, HasChild, StepIn, StepOut;
    match m
    case SwitchIn(t) => SwitchHas(s, t); SwitchCount(s, t);
    case SwitchOut(t) => SwitchHas(s, t); SwitchCount(s, t);
    case Act(t, choice) =>
      var s' := StepTask(s, t, choice).value;
      StepOthers(s, t, choice);
      StepTouch(s, t, choice, t);
      forall want | Expects(s'.tasks[t], want) ensures HasChild(s', t, want) { StepExpects(s, t, choice, want); }
      OthersCount(s, s', t);
  }

  lemma SwitchHas(s: State, t: nat)
    ensures StepIn(s, t).Some? || StepOut(s, t).Some? ==> Has(s, t)
  {
  }

  lemma {:induction false} RunsInv(s: State, moves: seq<Move>, s': State)
    requires Inv(s) && InvCount(s) && Runs(s, moves, s')
    ensures Inv(s') && InvCount(s')
    decreases |moves|
  {
    hide Inv, InvCount, Step;
    if moves != [] {
      StepInv(s, moves[0]);
      StepCount(s, moves[0]);
      RunsInv(Step(s, moves[0]).value, moves[1..], s');
    }
  }

  lemma ReachableInv(s: State)
    requires Reachable(s)
    ensures Inv(s) && InvCount(s)
  {
    hide Inv, Init, Runs;
    var s0, moves :| Init(s0) && Runs(s0, moves, s);
    InitInv(s0);
    InitCount(s0);
    RunsInv(s0, moves, s);
  }

  lemma InitCount(s: State)
    requires Init(s)
    ensures InvCount(s)
  {
  }

  // ----- what the invariant means -----

  /** No lost wake-up: a task asleep in waitpid has no zombie it waits for, except while the
      exiting task that will wake it is still on its way. */
  lemma NoLostWakeup(s: State, p: nat, c: nat, want: Option<nat>)
    requires Reachable(s) && Has(s, p) && Has(s, c)
    requires s.tasks[p].state == SLEEP && s.tasks[p].pc == Parked(KWait(want))
    requires s.tasks[c].parent == Some(p) && s.tasks[c].state == ZOMBIE && Matches(want, s.tasks[c].pid)
    ensures InFlight(s, c)
  {
    hide Reachable, InvFork, InvParent, InvPid, InvCount;
    ReachableInv(s);
    assert TaskOk(s.tasks[p], p);
    assert Missed(s, p, c);
  }

  /** A recorded parent is a live task, never a zombie or a free slot, and is older than the
      child; a zombie is never a parent. */
  lemma ParentIsLive(s: State, c: nat)
    requires Reachable(s) && Has(s, c) && s.tasks[c].parent.Some?
    ensures var p := s.tasks[c].parent.value; Has(s, p) && Live(s.tasks[p]) && s.tasks[p].pid < s.tasks[c].pid
  {
    hide Reachable, Inv;
    ReachableInv(s);
    ParentOf(s, c);
  }

  // ----- reaping -----

  /** A step keeps, clears or freshly issues a pid. */
  predicate PidKept(was: nat, now: nat, next: nat, next': nat) {
    now == was || now == 0 || now == next < next'
  }

  predicate PidsKept(s: State, s': State, d: nat) {
    && s.nextPid <= s'.nextPid && |s'.tasks| == |s.tasks|
    && (Has(s, d) ==> PidKept(s.tasks[d].pid, s'.tasks[d].pid, s.nextPid, s'.nextPid))
  }

  lemma RunPids(s: State, t: nat, choice: Choice, d: nat)
    requires Has(s, t) && StepRun(s, t, choice).Some?
    ensures PidsKept(s, StepRun(s, t, choice).value, d)
  {
  }

  lemma SlotPids(s: State, t: nat, i: nat, want: Option<nat>, count: nat, orphan: bool, d: nat)
    requires Has(s, t) && Has(s, i)
    ensures StepScan(s, t, want, i, count).Some? ==> PidsKept(s, StepScan(s, t, want, i, count).value, d)
    ensures StepOrphan(s, t, i, orphan).Some? ==> PidsKept(s, StepOrphan(s, t, i, orphan).value, d)
  {
  }

  lemma TaskPids(s: State, t: nat, choice: Choice, d: nat)
    requires Has(s, t) && StepTask(s, t, choice).Some?
    ensures PidsKept(s, StepTask(s, t, choice).value, d)
  {
    hide StepRun, StepScan, StepOrphan;
    match s.tasks[t].pc
    case Run => RunPids(s, t, choice, d);
    case XScan(i, orphan) => if i < |s.tasks| { SlotPids(s, t, i, None, 0, orphan, d); }
    case WScan(want, i, count) => if i < |s.tasks| { SlotPids(s, t, i, want, count, false, d); }
    case _ =>
  }

  lemma StepPids(s: State, m: Move, pid: nat)
    requires Step(s, m).Some? && 0 < pid < s.nextPid
    requires forall d :: 0 <= d < |s.tasks| ==> s.tasks[d].pid != pid
    ensures var s' := Step(s, m).value;
            pid < s'.nextPid && forall d :: 0 <= d < |s'.tasks| ==> s'.tasks[d].pid != pid
  {
    if m.Act? {
      hide StepTask;
      TaskPids(s, m.t, m.choice, m.t);
      forall d | 0 <= d < |Step(s, m).value.tasks| ensures Step(s, m).value.tasks[d].pid != pid {
        TaskPids(s, m.t, m.choice, d);
      }
    }
  }

  lemma {:induction false} PidStaysGone(s: State, moves: seq<Move>, s': State, pid: nat)
    requires Inv(s) && Runs(s, moves, s') && 0 < pid < s.nextPid
    requires forall d :: 0 <= d < |s.tasks| ==> s.tasks[d].pid != pid
    ensures forall d :: 0 <= d < |s'.tasks| ==> s'.tasks[d].pid != pid
    decreases |moves|
  {
    hide Inv, Step;
    if moves != [] {
      StepInv(s, moves[0]);
      StepPids(s, moves[0], pid);
      PidStaysGone(Step(s, moves[0]).value, moves[1..], s', pid);
    }
  }

  /** A zombie is reaped only after it has left its hart for good, and once: no later state of
      the run has a task with its pid. */
  lemma ReapedOnce(s: State, t: nat, want: Option<nat>, i: nat, count: nat, choice: Choice, moves: seq<Move>, s': State)
    requires Reachable(s) && Has(s, t) && Has(s, i) && s.tasks[t].pc == WScan(want, i, count)
    requires s.tasks[i].parent == Some(t) && Matches(want, s.tasks[i].pid) && s.tasks[i].state == ZOMBIE
    requires Step(s, Act(t, choice)).Some? && Runs(Step(s, Act(t, choice)).value, moves, s')
    ensures s.tasks[i].pc == Dead && !s.tasks[i].on
    ensures forall d :: 0 <= d < |s'.tasks| ==> s'.tasks[d].pid != s.tasks[i].pid
  {
    hide Inv, Reachable, Runs;
    ReachableInv(s);
    ZombieLeft(s, i);
    StepInv(s, Act(t, choice));
    var s1 := Step(s, Act(t, choice)).value;
    ReapedGone(s, t, i);
    assert s1 == Goto(With(s, i, Freed(s.tasks[i])), t, Run);
    PidStaysGone(s1, moves, s', s.tasks[i].pid);
  }

  lemma ReapedGone(s: State, t: nat, i: nat)
    requires At(s, t) && Has(s, i) && s.tasks[i].state == ZOMBIE
    ensures var s' := Goto(With(s, i, Freed(s.tasks[i])), t, Run);
            0 < s.tasks[i].pid < s'.nextPid && forall d :: 0 <= d < |s'.tasks| ==> s'.tasks[d].pid != s.tasks[i].pid
  {
    hide InvParent, InvWake, InvFork;
    assert TaskOk(s.tasks[i], i);
  }

  // ----- no deadlock -----

  /** The step by which the holder of u's lock goes on. */
  function HolderMove(s: State, u: nat): Move
    requires Has(s, u) && s.tasks[u].lk != Free
  {
    if s.tasks[u].lk.BySched? then SwitchOut(u) else Act(s.tasks[u].lk.t, CForkOk)
  }

  /** Waiting for a task lock while holding another only climbs towards older tasks, so it ends
      at a holder that can go on. */
  lemma LockWaitsResolve(s: State, t: nat)
    requires Inv(s) && Has(s, t) && s.tasks[t].lk != Free
    ensures exists u :: 0 <= u < |s.tasks| && s.tasks[u].lk != Free && Step(s, HolderMove(s, u)).Some?
    decreases s.tasks[t].pid
  {
    hide Inv;
    OwnOk(s, t);
    if s.tasks[t].pc == XWake && s.tasks[t].parent.Some? {
      var p := s.tasks[t].parent.value;
      ParentOf(s, t);
      if s.tasks[p].lk != Free { LockWaitsResolve(s, p); } else { assert Step(s, HolderMove(s, t)).Some?; }
    } else {
      if s.tasks[t].pc == New { OwnOk(s, s.tasks[t].lk.t); }
      assert Step(s, HolderMove(s, t)).Some?;
    }
  }

  /** A task that is on a hart or ready for one. */
  predicate Active(task: Task) { InKernel(task.pc) || task.state == RUNNABLE }

  /** With all task locks free, an active task can go on. */
  lemma ActiveSteps(s: State, t: nat)
    requires Inv(s) && Has(s, t) && Active(s.tasks[t])
    requires forall u :: 0 <= u < |s.tasks| ==> s.tasks[u].lk == Free
    ensures Step(s, SwitchIn(t)).Some? || Step(s, Act(t, CWait(None))).Some? || Step(s, Act(t, CForkOk)).Some?
  {
    hide Inv;
    OwnOk(s, t);
  }

  /** A sleeping task cannot be the end of the line: its child is younger, and is not asleep
      unless it waits for a younger one still. */
  lemma {:induction false} SomeoneActive(s: State, p: nat)
    requires Inv(s) && InvCount(s) && Has(s, p) && s.tasks[p].state == SLEEP
    ensures exists u :: 0 <= u < |s.tasks| && (Active(s.tasks[u]) || s.tasks[u].lk != Free)
    decreases s.nextPid - s.tasks[p].pid
  {
    hide Inv, InvCount;
    OwnOk(s, p);
    var want := s.tasks[p].pc.k.want;
    ExpectsOne(s, p, want);
    var c :| 0 <= c < |s.tasks| && ChildOf(s.tasks[c], p, want);
    OwnOk(s, c);
    ParentOf(s, c);
    PidBound(s, c);
    if s.tasks[c].pc == Dead {
      assert Missed(s, p, c);
      MissedFlies(s, p, c);
      var e :| 0 <= e < |s.tasks| && OrphanPending(s.tasks[e].pc);
      assert Active(s.tasks[e]);
    } else if s.tasks[c].state == SLEEP {
      SomeoneActive(s, c);
    } else {
      assert Active(s.tasks[c]) || s.tasks[c].lk != Free;
    }
  }

  lemma MissedFlies(s: State, p: nat, c: nat)
    requires Inv(s) && Has(s, p) && Has(s, c) && Missed(s, p, c)
    ensures s.tasks[p].pending || InFlight(s, c)
  {
  }

  /** No deadlock: in every reachable state some task or scheduler can take a step, however
      many tasks fork, exit and wait for one another. */
  lemma NoDeadlock(s: State)
    requires Reachable(s)
    ensures exists m :: Step(s, m).Some?
  {
    hide Inv, InvCount, Reachable, Active, Step;
    ReachableInv(s);
    OwnOk0(s);
    if s.tasks[INIT].state == SLEEP { SomeoneActive(s, INIT); }
    var u :| 0 <= u < |s.tasks| && (Active(s.tasks[u]) || s.tasks[u].lk != Free);
    if v :| 0 <= v < |s.tasks| && s.tasks[v].lk != Free {
      LockWaitsResolve(s, v);
    } else {
      ActiveSteps(s, u);
    }
  }

  lemma OwnOk0(s: State)
    requires Inv(s)
    ensures Has(s, INIT) && (s.tasks[INIT].state != SLEEP ==> Active(s.tasks[INIT]) || s.tasks[INIT].lk != Free)
  {
    OwnOk(s, INIT);
  }
}
