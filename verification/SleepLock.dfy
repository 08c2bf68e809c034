/** Sleep locks over the scheduler: any number of tasks, harts and sleep locks, interleaved at
    every acquire, release and context switch. A spin lock belongs to a hart, so a task's own
    lock travels through `swtch` from the task to the scheduler and back. */
module SleepLock {
  import opened Prelude

  datatype TaskState = RUNNING | RUNNABLE | SLEEP

  /** Where a task stands in kernel code. `l` is a sleep lock, `t` another task. */
  datatype Pc =
    | Out                                     // running, not in one of the operations below
    | YWant(back: Pc)                         // yield, which continues at back: take the own lock
    | YHold(back: Pc)                         //   become RUNNABLE, switch away
    | YParked(back: Pc)                       //   off the hart
    | YBack(back: Pc)                         //   switched back in: release the own lock
    | AWant(l: nat)                           // acquire_sleep: take the inner spin lock
    | ACheck(l: nat)                          //   already the owner?
    | ATest(l: nat)                           //   loop test
    | AWantLk(l: nat)                         //   take the task's own lock
    | AQueue(l: nat)                          //   become SLEEP, join the queue
    | ADrop(l: nat)                           //   release the inner spin lock
    | ASched(l: nat)                          //   switch away
    | AParked(l: nat)                         //   off the hart
    | ABack(l: nat)                           //   switched back in: release the own lock
    | ARetry(l: nat)                          //   take the inner spin lock again
    | ATaken(l: nat)                          //   locked: release the inner spin lock
    | RWant(l: nat, all: bool)                // release_sleep: take the inner spin lock
    | RCheck(l: nat, all: bool)               //   owner check, unlock
    | RWake(l: nat, all: bool)                //   unlink the first waiter, if any
    | RPick(l: nat, all: bool, t: nat)        //   take its lock
    | RSet(l: nat, all: bool, t: nat)         //   make it RUNNABLE
    | RUnlk(l: nat, all: bool, t: nat)        //   release its lock
    | RDone(l: nat)                           //   release the inner spin lock

  /** `on` is the hart the task runs on. `owned` are the sleep locks between the return of
      acquire_sleep and the unlocking in release_sleep. */
  datatype Task = Task(state: TaskState, pc: Pc, lk: Option<nat>, on: Option<nat>, owned: set<nat>)

  /** What a hart executes: the scheduler loop, or the task it switched to. */
  datatype Hart = Scan | Locked(t: nat) | Running(t: nat) | Back(t: nat)

  /** `holder` is a pid; pid of task t is t + 1, and 0 means nobody. */
  datatype Lock = Lock(spin: Option<nat>, locked: bool, holder: nat, queue: seq<nat>)

  datatype Panic = NoPanic | Reacquire | NotHolder | BadSched | AlreadyOwner | NotOwner

  datatype State = State(tasks: seq<Task>, harts: seq<Hart>, noff: seq<nat>, locks: seq<Lock>, panic: Panic)

  datatype LockId = Spin(l: nat) | Lk(t: nat)

  function Pid(t: nat): nat { t + 1 }

  // ----- spin locks -----

  predicate IsLock(s: State, x: LockId) {
    match x
    case Spin(l) => l < |s.locks|
    case Lk(t) => t < |s.tasks|
  }

  function Holder(s: State, x: LockId): Option<nat>
    requires IsLock(s, x)
  {
    match x
    case Spin(l) => s.locks[l].spin
    case Lk(t) => s.tasks[t].lk
  }

  function SetHolder(s: State, x: LockId, h: Option<nat>): State
    requires IsLock(s, x)
  {
    match x
    case Spin(l) => s.(locks := s.locks[l := s.locks[l].(spin := h)])
    case Lk(t) => s.(tasks := s.tasks[t := s.tasks[t].(lk := h)])
  }

  predicate Shape(s: State) { |s.noff| == |s.harts| }

  /** `acquire` on hart c: None while the lock is taken by another hart. */
  function Take(s: State, c: nat, x: LockId): Option<State>
    requires Shape(s) && c < |s.harts| && IsLock(s, x)
  {
    if Holder(s, x) == Some(c) then Some(s.(panic := Reacquire))
    else if Holder(s, x).Some? then None
    else Some(SetHolder(s, x, Some(c)).(noff := s.noff[c := s.noff[c] + 1]))
  }

  /** `release` on hart c. */
  function Drop(s: State, c: nat, x: LockId): State
    requires Shape(s) && c < |s.harts| && IsLock(s, x)
  {
    if Holder(s, x) != Some(c) || s.noff[c] == 0 then s.(panic := NotHolder)
    else SetHolder(s, x, None).(noff := s.noff[c := s.noff[c] - 1])
  }

  function SetPc(s: State, t: nat, pc: Pc): State
    requires t < |s.tasks|
  {
    s.(tasks := s.tasks[t := s.tasks[t].(pc := pc)])
  }

  function SetState(s: State, t: nat, st: TaskState): State
    requires t < |s.tasks|
  {
    s.(tasks := s.tasks[t := s.tasks[t].(state := st)])
  }

  function SetOwned(s: State, t: nat, owned: set<nat>): State
    requires t < |s.tasks|
  {
    s.(tasks := s.tasks[t := s.tasks[t].(owned := owned)])
  }

  function SetHart(s: State, c: nat, h: Hart): State
    requires c < |s.harts|
  {
    s.(harts := s.harts[c := h])
  }

  // ----- steps -----

  datatype Op = DoYield | DoAcquire(l: nat) | DoRelease(l: nat, all: bool)

  /** What the environment decides: which task a scheduler looks at, which call a task makes, and
      whether a timer interrupt makes it yield first. */
  datatype Choice = Choice(task: nat, op: Op)

  /** Where a task holds no spin lock, so that interrupts are on and the timer can make it yield. */
  predicate Preemptible(pc: Pc) { pc.Out? || pc.AWant? || pc.ARetry? || pc.RWant? }

  predicate BackOk(s: State, pc: Pc) { Preemptible(pc) && (!pc.Out? ==> pc.l < |s.locks|) }

  predicate Yields(pc: Pc) { pc.YWant? || pc.YHold? || pc.YParked? || pc.YBack? }

  predicate PcOk(s: State, pc: Pc) {
    match pc
    case YWant(b) => BackOk(s, b)
    case YHold(b) => BackOk(s, b)
    case YParked(b) => BackOk(s, b)
    case YBack(b) => BackOk(s, b)
    case AWant(l) => l < |s.locks|
    case ACheck(l) => l < |s.locks|
    case ATest(l) => l < |s.locks|
    case AWantLk(l) => l < |s.locks|
    case AQueue(l) => l < |s.locks|
    case ADrop(l) => l < |s.locks|
    case ASched(l) => l < |s.locks|
    case AParked(l) => l < |s.locks|
    case ABack(l) => l < |s.locks|
    case ARetry(l) => l < |s.locks|
    case ATaken(l) => l < |s.locks|
    case RWant(l, _) => l < |s.locks|
    case RCheck(l, _) => l < |s.locks|
    case RWake(l, _) => l < |s.locks|
    case RPick(l, _, t) => l < |s.locks| && t < |s.tasks|
    case RSet(l, _, t) => l < |s.locks| && t < |s.tasks|
    case RUnlk(l, _, t) => l < |s.locks| && t < |s.tasks|
    case RDone(l) => l < |s.locks|
    case _ => true
  }

  predicate HartOk(s: State, h: Hart) { !h.Scan? ==> h.t < |s.tasks| }

  predicate Typed(s: State) {
    && Shape(s)
    && (forall t :: 0 <= t < |s.tasks| ==> PcOk(s, s.tasks[t].pc))
    && (forall c :: 0 <= c < |s.harts| ==> HartOk(s, s.harts[c]))
    && (forall l, k :: 0 <= l < |s.locks| && 0 <= k < |s.locks[l].queue| ==> s.locks[l].queue[k] < |s.tasks|)
  }

  /** The checks of `sched` and the switch to the scheduler of hart c. */
  function Swtch(s: State, c: nat, t: nat, parked: Pc): State
    requires Shape(s) && c < |s.harts| && t < |s.tasks|
  {
    if s.tasks[t].lk != Some(c) || s.tasks[t].state == RUNNING || s.noff[c] != 1 then s.(panic := BadSched)
    else SetHart(s.(tasks := s.tasks[t := s.tasks[t].(pc := parked, on := None)]), c, Back(t))
  }

  function StartPc(op: Op): Pc {
    match op
    case DoYield => YWant(Out)
    case DoAcquire(l) => AWant(l)
    case DoRelease(l, all) => RWant(l, all)
  }

  /** `acquire` as a step of task t on hart c. */
  function TakeThen(s: State, c: nat, t: nat, x: LockId, pc: Pc): Option<State>
    requires Shape(s) && c < |s.harts| && t < |s.tasks| && IsLock(s, x)
  {
    var r := Take(s, c, x);
    if r.None? then None else Some(SetPc(r.value, t, pc))
  }

  function DropThen(s: State, c: nat, t: nat, x: LockId, pc: Pc): Option<State>
    requires Shape(s) && c < |s.harts| && t < |s.tasks| && IsLock(s, x)
  {
    Some(SetPc(Drop(s, c, x), t, pc))
  }

  function WithLock(s: State, l: nat, lock: Lock): State
    requires l < |s.locks|
  {
    s.(locks := s.locks[l := lock])
  }

  /** `acquire` outside of any critical section: the timer may make the task yield before. */
  function TakeOrYield(s: State, c: nat, t: nat, l: nat, pc: Pc, op: Op): Option<State>
    requires Shape(s) && c < |s.harts| && t < |s.tasks| && l < |s.locks|
  {
    if op.DoYield? then Some(SetPc(s, t, YWant(s.tasks[t].pc))) else TakeThen(s, c, t, Spin(l), pc)
  }

  /** One step of task t, which runs on hart c. */
  function TaskStep(s: State, c: nat, t: nat, op: Op): Option<State>
    requires Typed(s) && c < |s.harts| && t < |s.tasks|
  {
    match s.tasks[t].pc
    case Out => if PcOk(s, StartPc(op)) then Some(SetPc(s, t, StartPc(op))) else None
    case YWant(b) => TakeThen(s, c, t, Lk(t), YHold(b))
    case YHold(b) =>
      if s.tasks[t].state != RUNNING then DropThen(s, c, t, Lk(t), b)
      else Some(Swtch(SetState(s, t, RUNNABLE), c, t, YParked(b)))
    case YBack(b) => DropThen(s, c, t, Lk(t), b)
    case AWant(l) => TakeOrYield(s, c, t, l, ACheck(l), op)
    case ACheck(l) =>
      if s.locks[l].holder == Pid(t) then Some(s.(panic := AlreadyOwner)) else Some(SetPc(s, t, ATest(l)))
    case ATest(l) =>
      if s.locks[l].locked then Some(SetPc(s, t, AWantLk(l)))
      else Some(SetPc(WithLock(s, l, s.locks[l].(locked := true, holder := Pid(t))), t, ATaken(l)))
    case AWantLk(l) => TakeThen(s, c, t, Lk(t), AQueue(l))
    case AQueue(l) =>
      Some(SetPc(SetState(WithLock(s, l, s.locks[l].(queue := s.locks[l].queue + [t])), t, SLEEP), t, ADrop(l)))
    case ADrop(l) => DropThen(s, c, t, Spin(l), ASched(l))
    case ASched(l) => Some(Swtch(s, c, t, AParked(l)))
    case ABack(l) => DropThen(s, c, t, Lk(t), ARetry(l))
    case ARetry(l) => TakeOrYield(s, c, t, l, ATest(l), op)
    case ATaken(l) => DropThen(SetOwned(s, t, s.tasks[t].owned + {l}), c, t, Spin(l), Out)
    case RWant(l, all) => TakeOrYield(s, c, t, l, RCheck(l, all), op)
    case RCheck(l, all) =>
      if s.locks[l].holder != Pid(t) then Some(s.(panic := NotOwner))
      else
        var freed := WithLock(s, l, s.locks[l].(locked := false, holder := 0));
        Some(SetPc(SetOwned(freed, t, s.tasks[t].owned - {l}), t, RWake(l, all)))
    case RWake(l, all) =>
      var q := s.locks[l].queue;
      if q == [] then Some(SetPc(s, t, RDone(l)))
      else Some(SetPc(WithLock(s, l, s.locks[l].(queue := q[1..])), t, RPick(l, all, q[0])))
    case RPick(l, all, u) => TakeThen(s, c, t, Lk(u), RSet(l, all, u))
    case RSet(l, all, u) => Some(SetPc(SetState(s, u, RUNNABLE), t, RUnlk(l, all, u)))
    case RUnlk(l, all, u) => DropThen(s, c, t, Lk(u), if all then RWake(l, all) else RDone(l))
    case RDone(l) => DropThen(s, c, t, Spin(l), Out)
    case YParked(_) => None
    case AParked(_) => None
  }

  /** Where a parked task continues once a scheduler switches to it. */
  function Resumed(pc: Pc): Pc {
    match pc
    case AParked(l) => ABack(l)
    case YParked(b) => YBack(b)
    case _ => YBack(Out)
  }

  /** One step of hart c. */
  function Step(s: State, c: nat, ch: Choice): Option<State>
    requires Typed(s) && c < |s.harts|
  {
    if s.panic != NoPanic then None else
    match s.harts[c]
    case Scan =>
      if ch.task < |s.tasks| then
        var r := Take(s, c, Lk(ch.task));
        if r.None? then None else Some(SetHart(r.value, c, Locked(ch.task)))
      else None
    case Locked(t) =>
      if s.tasks[t].state != RUNNABLE then Some(SetHart(Drop(s, c, Lk(t)), c, Scan))
      else
        var task := s.tasks[t].(state := RUNNING, pc := Resumed(s.tasks[t].pc), on := Some(c));
        Some(SetHart(s.(tasks := s.tasks[t := task]), c, Running(t)))
    case Running(t) => TaskStep(s, c, t, ch.op)
    case Back(t) => Some(SetHart(Drop(s, c, Lk(t)), c, Scan))
  }

  /** All tasks runnable, all locks free, every hart in its scheduler. */
  predicate Init(s: State) {
    && Shape(s) && s.panic == NoPanic
    && (forall t :: 0 <= t < |s.tasks| ==> s.tasks[t] == Task(RUNNABLE, YParked(Out), None, None, {}))
    && (forall c :: 0 <= c < |s.harts| ==> s.harts[c] == Scan && s.noff[c] == 0)
    && (forall l :: 0 <= l < |s.locks| ==> s.locks[l] == Lock(None, false, 0, []))
  }

  // ----- invariant -----

  /** Spin locks held by task t's code at pc. */
  function HeldBy(pc: Pc, t: nat): set<LockId> {
    match pc
    case YHold(_) => {Lk(t)}
    case YBack(_) => {Lk(t)}
    case ACheck(l) => {Spin(l)}
    case ATest(l) => {Spin(l)}
    case AWantLk(l) => {Spin(l)}
    case AQueue(l) => {Spin(l), Lk(t)}
    case ADrop(l) => {Spin(l), Lk(t)}
    case ASched(_) => {Lk(t)}
    case ABack(_) => {Lk(t)}
    case ATaken(l) => {Spin(l)}
    case RCheck(l, _) => {Spin(l)}
    case RWake(l, _) => {Spin(l)}
    case RPick(l, _, _) => {Spin(l)}
    case RSet(l, _, u) => {Spin(l), Lk(u)}
    case RUnlk(l, _, u) => {Spin(l), Lk(u)}
    case RDone(l) => {Spin(l)}
    case _ => {}
  }

  function Held(s: State, c: nat): set<LockId>
    requires Typed(s) && c < |s.harts|
  {
    match s.harts[c]
    case Scan => {}
    case Locked(t) => {Lk(t)}
    case Back(t) => {Lk(t)}
    case Running(t) => HeldBy(s.tasks[t].pc, t)
  }

  predicate Parked(pc: Pc) { pc.YParked? || pc.AParked? }

  ghost predicate InvHold(s: State)
    requires Typed(s)
  {
    && (forall c, x :: 0 <= c < |s.harts| && IsLock(s, x) ==> (Holder(s, x) == Some(c) <==> x in Held(s, c)))
    && (forall x :: IsLock(s, x) && Holder(s, x).Some? ==> Holder(s, x).value < |s.harts|)
    && (forall c :: 0 <= c < |s.harts| ==> s.noff[c] == |Held(s, c)|)
  }

  ghost predicate InvOn(s: State)
    requires Typed(s)
  {
    && (forall t :: 0 <= t < |s.tasks| ==> (Parked(s.tasks[t].pc) <==> s.tasks[t].on.None?))
    && (forall t :: 0 <= t < |s.tasks| && s.tasks[t].on.Some? ==>
          s.tasks[t].on.value < |s.harts| && s.harts[s.tasks[t].on.value] == Running(t))
    && (forall c :: 0 <= c < |s.harts| && s.harts[c].Running? ==> s.tasks[s.harts[c].t].on == Some(c))
  }

  /** At pc a releaser of l has unlinked u, which is not yet RUNNABLE. */
  predicate Picks(pc: Pc, l: nat, u: nat) {
    (pc.RPick? || pc.RSet?) && pc.l == l && pc.t == u
  }

  /** t is on l's queue, or about to be made RUNNABLE by a releaser. */
  predicate Waits(pc: Pc, l: nat) { pc == ADrop(l) || pc == ASched(l) || pc == AParked(l) }

  /** Task states follow control. */
  predicate StateOk(task: Task) {
    match task.pc
    case YParked(_) => task.state == RUNNABLE
    case AParked(_) => task.state != RUNNING
    case ADrop(_) => task.state == SLEEP
    case ASched(_) => task.state == SLEEP
    case _ => task.state == RUNNING
  }

  ghost predicate InvState(s: State) {
    forall t :: 0 <= t < |s.tasks| ==> StateOk(s.tasks[t])
  }

  /** Queues hold sleeping waiters of their own lock, each once. */
  ghost predicate InvQueue(s: State)
    requires Typed(s)
  {
    && (forall l, k :: 0 <= l < |s.locks| && 0 <= k < |s.locks[l].queue| ==>
          var u := s.locks[l].queue[k];
          Waits(s.tasks[u].pc, l) && s.tasks[u].state == SLEEP)
    && (forall l, j, k :: 0 <= l < |s.locks| && 0 <= j < k < |s.locks[l].queue| ==>
          s.locks[l].queue[j] != s.locks[l].queue[k])
  }

  /** A picked waiter is asleep, off the queue, and past dropping the spin lock. */
  predicate PickOk(s: State, l: nat, u: nat)
    requires l < |s.locks| && u < |s.tasks|
  {
    && u !in s.locks[l].queue && s.tasks[u].state == SLEEP
    && (s.tasks[u].pc == ASched(l) || s.tasks[u].pc == AParked(l))
  }

  ghost predicate InvPick(s: State) {
    forall w, l, u :: 0 <= w < |s.tasks| && 0 <= l < |s.locks| && 0 <= u < |s.tasks| && Picks(s.tasks[w].pc, l, u) ==>
      PickOk(s, l, u)
  }

  /** No sleeper is lost: it is queued or picked. */
  ghost predicate InvSleep(s: State)
    requires Typed(s)
  {
    forall t, l :: 0 <= t < |s.tasks| && 0 <= l < |s.locks| && Waits(s.tasks[t].pc, l) && s.tasks[t].state == SLEEP ==>
      t in s.locks[l].queue || exists w :: 0 <= w < |s.tasks| && Picks(s.tasks[w].pc, l, t)
  }

  ghost predicate InvOwner(s: State) {
    && (forall l :: 0 <= l < |s.locks| ==> (s.locks[l].locked <==> s.locks[l].holder != 0))
    && (forall l, t :: 0 <= l < |s.locks| && 0 <= t < |s.tasks| ==>
          (s.locks[l].holder == Pid(t) <==> l in s.tasks[t].owned || s.tasks[t].pc == ATaken(l)))
  }

  /** The task has been woken, or is at its first attempt, and will test l next, perhaps after
      being preempted. */
  predicate Retrying(task: Task, l: nat) {
    || (Yields(task.pc) && task.pc.back == ARetry(l))
    || (task.pc == AParked(l) && task.state == RUNNABLE)
    || task.pc == ABack(l) || task.pc == ARetry(l) || task.pc == ATest(l)
  }

  /** The task is releasing l and on its way to wake a waiter. */
  predicate Waking(task: Task, l: nat) {
    (task.pc.RWake? || task.pc.RPick? || task.pc.RSet?) && task.pc.l == l
  }

  predicate Active(task: Task, l: nat) { Retrying(task, l) || Waking(task, l) }

  predicate Stranded(lock: Lock) { !lock.locked && lock.queue != [] }

  ghost predicate InvWoken(s: State) {
    forall l :: 0 <= l < |s.locks| && Stranded(s.locks[l]) ==>
      exists t :: 0 <= t < |s.tasks| && Active(s.tasks[t], l)
  }

  /** Between the loop test and joining the queue the sleep lock stays locked. */
  predicate Joining(pc: Pc, l: nat) { pc == AWantLk(l) || pc == AQueue(l) }

  ghost predicate InvLocked(s: State) {
    forall t, l :: 0 <= t < |s.tasks| && 0 <= l < |s.locks| && Joining(s.tasks[t].pc, l) ==> s.locks[l].locked
  }

  ghost predicate InvPanic(s: State) { s.panic in {NoPanic, AlreadyOwner, NotOwner} }

  ghost predicate InvWait(s: State)
    requires Typed(s)
  {
    InvState(s) && InvQueue(s) && InvPick(s) && InvSleep(s)
  }

  ghost predicate Inv(s: State) {
    && Typed(s) && InvHold(s) && InvOn(s) && InvWait(s) && InvOwner(s) && InvLocked(s) && InvWoken(s) && InvPanic(s)
  }

  lemma InitInv(s: State)
    requires Init(s)
    ensures Inv(s)
  {
  }

  // ----- spin locks: what a step does to the held sets -----

  ghost predicate SameSize(s: State, s': State) {
    |s'.tasks| == |s.tasks| && |s'.harts| == |s.harts| && |s'.locks| == |s.locks|
  }

  /** Holders change at most for x, held sets at most for hart c. */
  ghost predicate OnlyHolds(s: State, s': State, c: nat)
    requires Typed(s) && Typed(s') && SameSize(s, s')
  {
    forall d :: 0 <= d < |s.harts| && d != c ==> Held(s', d) == Held(s, d) && s'.noff[d] == s.noff[d]
  }

  lemma HoldSame(s: State, s': State, c: nat)
    requires Typed(s) && Typed(s') && SameSize(s, s') && InvHold(s) && OnlyHolds(s, s', c) && c < |s.harts|
    requires forall x :: IsLock(s, x) ==> Holder(s', x) == Holder(s, x)
    requires Held(s', c) == Held(s, c) && s'.noff[c] == s.noff[c]
    ensures InvHold(s')
  {
    hide Held, Typed, Holder;
  }

  lemma HoldTake(s: State, s': State, c: nat, x: LockId)
    requires Typed(s) && Typed(s') && SameSize(s, s') && InvHold(s) && OnlyHolds(s, s', c) && c < |s.harts|
    requires IsLock(s, x) && Holder(s, x) == None && Holder(s', x) == Some(c)
    requires forall y :: IsLock(s, y) && y != x ==> Holder(s', y) == Holder(s, y)
    requires Held(s', c) == Held(s, c) + {x} && s'.noff[c] == s.noff[c] + 1
    ensures InvHold(s')
  {
    hide Held, Typed, Holder;
    assert x !in Held(s, c);
  }

  lemma HoldDrop(s: State, s': State, c: nat, x: LockId)
    requires Typed(s) && Typed(s') && SameSize(s, s') && InvHold(s) && OnlyHolds(s, s', c) && c < |s.harts|
    requires IsLock(s, x) && x in Held(s, c) && Holder(s', x) == None
    requires forall y :: IsLock(s, y) && y != x ==> Holder(s', y) == Holder(s, y)
    requires Held(s', c) == Held(s, c) - {x} && s'.noff[c] == s.noff[c] - 1
    ensures InvHold(s')
  {
    hide Held, Typed, Holder;
  }

  /** A step in which task t goes to pc; task states, queues and harts stay. */
  ghost predicate Moved(s: State, s': State, t: nat, pc: Pc) {
    && SameSize(s, s') && s'.harts == s.harts && |s'.noff| == |s.noff| && s'.panic == s.panic && t < |s.tasks|
    && (forall u :: 0 <= u < |s.tasks| && u != t ==> s'.tasks[u] == s.tasks[u].(lk := s'.tasks[u].lk))
    && s'.tasks[t] == s.tasks[t].(pc := pc, lk := s'.tasks[t].lk, owned := s'.tasks[t].owned)
    && (forall l :: 0 <= l < |s.locks| ==> s'.locks[l].queue == s.locks[l].queue)
  }

  ghost predicate SameOwners(s: State, s': State, t: nat) {
    && SameSize(s, s') && t < |s.tasks| && s'.tasks[t].owned == s.tasks[t].owned
    && (forall l :: 0 <= l < |s.locks| ==>
          s'.locks[l].locked == s.locks[l].locked && s'.locks[l].holder == s.locks[l].holder)
  }

  lemma MovedTyped(s: State, s': State, t: nat, pc: Pc)
    requires Typed(s) && Moved(s, s', t, pc) && PcOk(s, pc)
    ensures Typed(s')
  {
  }

  lemma MovedHolds(s: State, s': State, c: nat, t: nat, pc: Pc)
    requires Typed(s) && Typed(s') && Moved(s, s', t, pc) && InvOn(s)
    requires c < |s.harts| && s.harts[c] == Running(t)
    requires forall d :: 0 <= d < |s.harts| && d != c ==> s'.noff[d] == s.noff[d]
    ensures OnlyHolds(s, s', c)
  {
    hide HeldBy;
    forall d | 0 <= d < |s.harts| && d != c ensures Held(s', d) == Held(s, d) {
      if s.harts[d].Running? { assert s.harts[d].t != t; }
    }
  }

  lemma MovedOn(s: State, s': State, t: nat, pc: Pc)
    requires Typed(s) && Typed(s') && Moved(s, s', t, pc) && InvOn(s)
    requires Parked(pc) <==> Parked(s.tasks[t].pc)
    ensures InvOn(s')
  {
  }

  predicate OnHart(s: State, c: nat, t: nat) {
    c < |s.harts| && t < |s.tasks| && s.harts[c] == Running(t)
  }

  /** The part of the invariant about spin locks and harts. */
  ghost predicate InvSpin(s: State) { Typed(s) && InvHold(s) && InvOn(s) }

  lemma TakeEffect(s: State, c: nat, t: nat, x: LockId, pc: Pc)
    requires Typed(s) && OnHart(s, c, t) && IsLock(s, x) && Holder(s, x) == None
    ensures TakeThen(s, c, t, x, pc).Some?
    ensures var s' := TakeThen(s, c, t, x, pc).value;
            && Moved(s, s', t, pc) && SameOwners(s, s', t) && Holder(s', x) == Some(c)
            && (forall y :: IsLock(s, y) && y != x ==> Holder(s', y) == Holder(s, y))
            && s'.noff == s.noff[c := s.noff[c] + 1]
  {
  }

  lemma DropEffect(s: State, c: nat, t: nat, x: LockId, pc: Pc)
    requires Typed(s) && OnHart(s, c, t) && IsLock(s, x) && Holder(s, x) == Some(c) && s.noff[c] > 0
    ensures var s' := DropThen(s, c, t, x, pc).value;
            && Moved(s, s', t, pc) && SameOwners(s, s', t) && Holder(s', x) == None
            && (forall y :: IsLock(s, y) && y != x ==> Holder(s', y) == Holder(s, y))
            && s'.noff == s.noff[c := s.noff[c] - 1]
  {
  }

  /** Taking a lock that the task does not hold: never a reacquire. */
  lemma TakeStep(s: State, c: nat, t: nat, x: LockId, pc: Pc)
    requires InvSpin(s) && OnHart(s, c, t) && IsLock(s, x) && PcOk(s, pc)
    requires TakeThen(s, c, t, x, pc).Some?
    requires x !in HeldBy(s.tasks[t].pc, t) && HeldBy(pc, t) == HeldBy(s.tasks[t].pc, t) + {x}
    requires !Parked(pc) && !Parked(s.tasks[t].pc)
    ensures var s' := TakeThen(s, c, t, x, pc).value; InvSpin(s') && Moved(s, s', t, pc) && SameOwners(s, s', t)
  {
    hide HeldBy, PcOk, HartOk;
    assert Held(s, c) == HeldBy(s.tasks[t].pc, t);
    assert Holder(s, x) == None;
    hide Holder, IsLock, InvHold, InvOn;
    var s' := TakeThen(s, c, t, x, pc).value;
    TakeEffect(s, c, t, x, pc);
    hide TakeThen;
    MovedTyped(s, s', t, pc);
    MovedHolds(s, s', c, t, pc);
    MovedOn(s, s', t, pc);
    assert Held(s', c) == Held(s, c) + {x};
    HoldTake(s, s', c, x);
  }

  /** Releasing a lock that the task holds: never a foreign release. */
  lemma DropStep(s: State, c: nat, t: nat, x: LockId, pc: Pc)
    requires InvSpin(s) && OnHart(s, c, t) && IsLock(s, x) && PcOk(s, pc)
    requires x in HeldBy(s.tasks[t].pc, t) && HeldBy(pc, t) == HeldBy(s.tasks[t].pc, t) - {x}
    requires !Parked(pc) && !Parked(s.tasks[t].pc)
    ensures var s' := DropThen(s, c, t, x, pc).value; InvSpin(s') && Moved(s, s', t, pc) && SameOwners(s, s', t)
  {
    hide HeldBy, PcOk, HartOk;
    assert Held(s, c) == HeldBy(s.tasks[t].pc, t);
    assert Holder(s, x) == Some(c) && s.noff[c] > 0;
    hide Holder, IsLock, InvHold, InvOn;
    var s' := DropThen(s, c, t, x, pc).value;
    DropEffect(s, c, t, x, pc);
    hide DropThen;
    MovedTyped(s, s', t, pc);
    MovedHolds(s, s', c, t, pc);
    MovedOn(s, s', t, pc);
    assert Held(s', c) == Held(s, c) - {x};
    HoldDrop(s, s', c, x);
  }

  /** A change of pc that takes and drops nothing. */
  lemma PcStep(s: State, c: nat, t: nat, pc: Pc)
    requires InvSpin(s) && OnHart(s, c, t) && PcOk(s, pc)
    requires HeldBy(pc, t) == HeldBy(s.tasks[t].pc, t) && !Parked(pc) && !Parked(s.tasks[t].pc)
    ensures InvSpin(SetPc(s, t, pc)) && Moved(s, SetPc(s, t, pc), t, pc) && SameOwners(s, SetPc(s, t, pc), t)
  {
    hide HeldBy, PcOk, HartOk;
    var s' := SetPc(s, t, pc);
    MovedTyped(s, s', t, pc);
    MovedHolds(s, s', c, t, pc);
    MovedOn(s, s', t, pc);
    HoldSame(s, s', c);
  }

  // ----- waiting, ownership and wake-ups under such a step -----

  /** Neither a waiter nor a releaser that has picked one. */
  predicate Quiet(pc: Pc) { !pc.ADrop? && !pc.ASched? && !pc.AParked? && !pc.RPick? && !pc.RSet? && !pc.YParked? }

  /** Waits and picks are the same in both states. */
  ghost predicate SamePicks(s: State, s': State) {
    && |s'.tasks| == |s.tasks|
    && (forall w, l, u :: 0 <= w < |s.tasks| ==> (Picks(s'.tasks[w].pc, l, u) <==> Picks(s.tasks[w].pc, l, u)))
  }

  lemma SleepSame(s: State, s': State)
    requires Typed(s) && Typed(s') && InvSleep(s) && SameSize(s, s') && SamePicks(s, s')
    requires forall l :: 0 <= l < |s.locks| ==> s'.locks[l].queue == s.locks[l].queue
    requires forall u, l :: 0 <= u < |s.tasks| && Waits(s'.tasks[u].pc, l) && s'.tasks[u].state == SLEEP ==>
               Waits(s.tasks[u].pc, l) && s.tasks[u].state == SLEEP
    ensures InvSleep(s')
  {
    hide Typed;
    forall u, l | 0 <= u < |s'.tasks| && 0 <= l < |s'.locks| && Waits(s'.tasks[u].pc, l) && s'.tasks[u].state == SLEEP
      ensures u in s'.locks[l].queue || exists w :: 0 <= w < |s'.tasks| && Picks(s'.tasks[w].pc, l, u)
    {
      assert Waits(s.tasks[u].pc, l);
      if u !in s.locks[l].queue {
        var w :| 0 <= w < |s.tasks| && Picks(s.tasks[w].pc, l, u);
        assert Picks(s'.tasks[w].pc, l, u);
      }
    }
  }

  lemma PickSame(s: State, s': State)
    requires InvPick(s) && SameSize(s, s') && SamePicks(s, s')
    requires forall l, u :: 0 <= l < |s.locks| && 0 <= u < |s.tasks| && PickOk(s, l, u) ==> PickOk(s', l, u)
    ensures InvPick(s')
  {
    forall w, l, u | 0 <= w < |s'.tasks| && 0 <= l < |s'.locks| && 0 <= u < |s'.tasks| && Picks(s'.tasks[w].pc, l, u)
      ensures PickOk(s', l, u)
    {
      assert Picks(s.tasks[w].pc, l, u);
      assert PickOk(s, l, u);
    }
  }

  lemma WaitMove(s: State, s': State, t: nat, pc: Pc)
    requires Typed(s) && Typed(s') && InvWait(s) && Moved(s, s', t, pc)
    requires Quiet(s.tasks[t].pc) && Quiet(pc)
    ensures InvWait(s')
  {
    hide InvSleep, InvPick;
    assert SamePicks(s, s');
    SleepSame(s, s');
    PickSame(s, s');
  }

  lemma OwnerMove(s: State, s': State, t: nat, pc: Pc)
    requires InvOwner(s) && Moved(s, s', t, pc) && SameOwners(s, s', t) && !pc.ATaken? && !s.tasks[t].pc.ATaken?
    ensures InvOwner(s')
  {
  }

  lemma WokenMove(s: State, s': State, t: nat, pc: Pc)
    requires InvWoken(s) && Moved(s, s', t, pc)
    requires forall l :: 0 <= l < |s.locks| && Stranded(s'.locks[l]) ==>
               Active(s'.tasks[t], l) || (Stranded(s.locks[l]) && !Active(s.tasks[t], l))
    ensures InvWoken(s')
  {
    forall l | 0 <= l < |s'.locks| && Stranded(s'.locks[l])
      ensures exists u :: 0 <= u < |s'.tasks| && Active(s'.tasks[u], l)
    {
      if !Active(s'.tasks[t], l) {
        var u :| 0 <= u < |s.tasks| && Active(s.tasks[u], l);
        assert Active(s'.tasks[u], l);
      }
    }
  }

  /** From pc to pc' the task neither starts nor stops waiting, picking, owning or retrying. */
  predicate Plain(pc: Pc, pc': Pc) {
    && Quiet(pc) && Quiet(pc') && !pc.ATaken? && !pc'.ATaken? && !pc.ATest? && !pc.RWake?
    && (pc.ABack? ==> pc' == ARetry(pc.l)) && (pc.ARetry? ==> pc' == ATest(pc.l) || pc' == YWant(pc))
    && (pc.YWant? ==> pc' == YHold(pc.back)) && (pc.YBack? ==> pc' == pc.back) && !pc.YHold?
    && !pc'.AWantLk? && (pc'.AQueue? ==> pc == AWantLk(pc'.l))
  }

  /** The common case. */
  lemma QuietStep(s: State, s': State, t: nat, pc: Pc)
    requires Inv(s) && InvSpin(s') && Moved(s, s', t, pc) && SameOwners(s, s', t) && Plain(s.tasks[t].pc, pc)
    ensures Inv(s')
  {
    forall l | 0 <= l < |s.locks| && Active(s.tasks[t], l) ensures Active(s'.tasks[t], l) {
    }
    hide Typed, InvHold, InvOn, InvWait, InvOwner, InvWoken, Active, InvPanic;
    WaitMove(s, s', t, pc);
    OwnerMove(s, s', t, pc);
    WokenMove(s, s', t, pc);
    LockedMove(s, s', t, pc);
    MovedPanic(s, s', t, pc);
  }

  lemma LockedMove(s: State, s': State, t: nat, pc: Pc)
    requires InvLocked(s) && Moved(s, s', t, pc)
    requires forall l :: 0 <= l < |s.locks| && s.locks[l].locked ==> s'.locks[l].locked
    requires forall l :: 0 <= l < |s.locks| && Joining(pc, l) ==> s.locks[l].locked
    ensures InvLocked(s')
  {
  }

  lemma MovedPanic(s: State, s': State, t: nat, pc: Pc)
    requires Moved(s, s', t, pc) && InvPanic(s)
    ensures InvPanic(s')
  {
  }

  // ----- steps of a running task -----

  ghost predicate Stepped(s: State, c: nat, t: nat, op: Op) {
    Inv(s) && OnHart(s, c, t) && s.panic == NoPanic && TaskStep(s, c, t, op).Some?
  }

  lemma TakePlain(s: State, c: nat, t: nat, x: LockId, pc: Pc)
    requires Inv(s) && OnHart(s, c, t) && IsLock(s, x) && PcOk(s, pc) && TakeThen(s, c, t, x, pc).Some?
    requires x !in HeldBy(s.tasks[t].pc, t) && HeldBy(pc, t) == HeldBy(s.tasks[t].pc, t) + {x}
    requires Plain(s.tasks[t].pc, pc)
    ensures Inv(TakeThen(s, c, t, x, pc).value)
  {
    hide Inv, InvSpin, TakeThen, HeldBy, PcOk, IsLock, Moved, SameOwners;
    InvParts(s);
    TakeStep(s, c, t, x, pc);
    QuietStep(s, TakeThen(s, c, t, x, pc).value, t, pc);
  }

  lemma DropPlain(s: State, c: nat, t: nat, x: LockId, pc: Pc)
    requires Inv(s) && OnHart(s, c, t) && IsLock(s, x) && PcOk(s, pc)
    requires x in HeldBy(s.tasks[t].pc, t) && HeldBy(pc, t) == HeldBy(s.tasks[t].pc, t) - {x}
    requires Plain(s.tasks[t].pc, pc)
    ensures Inv(DropThen(s, c, t, x, pc).value)
  {
    hide Inv, InvSpin, HeldBy, PcOk, IsLock, Moved, SameOwners;
    InvParts(s);
    DropStep(s, c, t, x, pc);
    QuietStep(s, DropThen(s, c, t, x, pc).value, t, pc);
  }

  lemma PcPlain(s: State, c: nat, t: nat, pc: Pc)
    requires Inv(s) && OnHart(s, c, t) && PcOk(s, pc)
    requires HeldBy(pc, t) == HeldBy(s.tasks[t].pc, t) && Plain(s.tasks[t].pc, pc)
    ensures Inv(SetPc(s, t, pc))
  {
    hide Inv, InvSpin, HeldBy, PcOk, Moved, SameOwners;
    InvParts(s);
    PcStep(s, c, t, pc);
    QuietStep(s, SetPc(s, t, pc), t, pc);
  }

  lemma PlainAcquire(s: State, c: nat, t: nat, l: nat, pc: Pc, op: Op)
    requires Inv(s) && Typed(s) && OnHart(s, c, t) && l < |s.locks| && TakeOrYield(s, c, t, l, pc, op).Some?
    requires Preemptible(s.tasks[t].pc) && PcOk(s, s.tasks[t].pc) && PcOk(s, pc)
    requires HeldBy(pc, t) == {Spin(l)} && Plain(s.tasks[t].pc, pc)
    ensures Inv(TakeOrYield(s, c, t, l, pc, op).value)
  {
    hide Inv, TakeThen, SetPc, Typed;
    if op.DoYield? { PcPlain(s, c, t, YWant(s.tasks[t].pc)); } else { TakePlain(s, c, t, Spin(l), pc); }
  }

  lemma PlainTaskStep(s: State, c: nat, t: nat, op: Op)
    requires Stepped(s, c, t, op)
    requires var pc := s.tasks[t].pc;
             pc.Out? || pc.YWant? || pc.YBack? || pc.AWant? || pc.AWantLk? || pc.ABack? || pc.ARetry?
    ensures Inv(TaskStep(s, c, t, op).value)
  {
    hide Inv, TakeThen, DropThen, SetPc, Typed;
    InvPcOk(s, t);
    match s.tasks[t].pc {
      case Out => PcPlain(s, c, t, StartPc(op));
      case YWant(b) => TakePlain(s, c, t, Lk(t), YHold(b));
      case YBack(b) => DropPlain(s, c, t, Lk(t), b);
      case AWant(l) => PlainAcquire(s, c, t, l, ACheck(l), op);
      case AWantLk(l) => TakePlain(s, c, t, Lk(t), AQueue(l));
      case ABack(l) => DropPlain(s, c, t, Lk(t), ARetry(l));
      case ARetry(l) => PlainAcquire(s, c, t, l, ATest(l), op);
      case _ =>
    }
  }

  lemma PlainReleaseStep(s: State, c: nat, t: nat, op: Op)
    requires Stepped(s, c, t, op)
    requires var pc := s.tasks[t].pc; pc.RWant? || pc.RUnlk? || pc.RDone?
    ensures Inv(TaskStep(s, c, t, op).value)
  {
    hide Inv, TakeThen, DropThen, SetPc, Typed;
    InvPcOk(s, t);
    match s.tasks[t].pc {
      case RWant(l, all) => PlainAcquire(s, c, t, l, RCheck(l, all), op);
      case RUnlk(l, all, u) => DropPlain(s, c, t, Lk(u), if all then RWake(l, all) else RDone(l));
      case RDone(l) => DropPlain(s, c, t, Spin(l), Out);
      case _ =>
    }
  }

  lemma InvPcOk(s: State, t: nat)
    requires Inv(s) && t < |s.tasks|
    ensures Typed(s) && PcOk(s, s.tasks[t].pc)
  {
  }

  lemma InvParts(s: State)
    requires Inv(s)
    ensures InvSpin(s) && Typed(s) && InvWait(s) && InvOwner(s) && InvLocked(s) && InvWoken(s) && InvPanic(s)
  {
  }

  lemma InvJoin(s: State)
    requires InvSpin(s) && InvWait(s) && InvOwner(s) && InvLocked(s) && InvWoken(s) && InvPanic(s)
    ensures Inv(s)
  {
  }

  // ----- steps that touch a sleep lock -----

  /** Spin lock facts depend on nothing but holders, pcs and harts. */
  lemma SpinFields(s: State, s': State)
    requires InvSpin(s) && SameSize(s, s') && s'.harts == s.harts && s'.noff == s.noff
    requires forall u :: 0 <= u < |s.tasks| ==>
               s'.tasks[u].pc == s.tasks[u].pc && s'.tasks[u].lk == s.tasks[u].lk && s'.tasks[u].on == s.tasks[u].on
    requires forall l :: 0 <= l < |s.locks| ==> s'.locks[l].spin == s.locks[l].spin
    requires forall l, k :: 0 <= l < |s.locks| && 0 <= k < |s'.locks[l].queue| ==> s'.locks[l].queue[k] < |s.tasks|
    ensures InvSpin(s')
  {
    hide HeldBy;
    assert Typed(s') by {
      forall u | 0 <= u < |s'.tasks| ensures PcOk(s', s'.tasks[u].pc) {
        assert PcOk(s, s.tasks[u].pc);
      }
      forall c | 0 <= c < |s'.harts| ensures HartOk(s', s'.harts[c]) {
        assert HartOk(s, s.harts[c]);
      }
    }
    forall c | 0 <= c < |s.harts| ensures Held(s', c) == Held(s, c) {
    }
    forall x | IsLock(s, x) ensures Holder(s', x) == Holder(s, x) {
    }
    if |s.harts| > 0 { HoldSame(s, s', 0); }
  }

  lemma ATestStep(s: State, c: nat, t: nat, op: Op)
    requires Stepped(s, c, t, op) && s.tasks[t].pc.ATest?
    ensures Inv(TaskStep(s, c, t, op).value)
  {
    hide Inv, Typed, InvSpin, InvWait, InvOwner, InvLocked, InvWoken, InvPanic;
    InvPcOk(s, t);
    InvParts(s);
    var l, s' := s.tasks[t].pc.l, TaskStep(s, c, t, op).value;
    var pc := if s.locks[l].locked then AWantLk(l) else ATaken(l);
    PcStep(s, c, t, pc);
    if !s.locks[l].locked { SpinFields(SetPc(s, t, pc), s'); }
    assert Moved(s, s', t, pc);
    InvSpinTyped(s');
    WaitMove(s, s', t, pc);
    WokenMove(s, s', t, pc);
    if s.locks[l].locked { OwnerMove(s, s', t, pc); } else { OwnerTaken(s, s', t, l); }
    LockedMove(s, s', t, pc);
    MovedPanic(s, s', t, pc);
    InvJoin(s');
  }

  lemma InvSpinTyped(s: State)
    requires InvSpin(s)
    ensures Typed(s)
  {
  }

  lemma OwnerTaken(s: State, s': State, t: nat, l: nat)
    requires InvOwner(s) && Moved(s, s', t, ATaken(l)) && l < |s.locks| && !s.locks[l].locked
    requires s.tasks[t].pc == ATest(l) && s'.tasks[t].owned == s.tasks[t].owned
    requires s'.locks == s.locks[l := s.locks[l].(locked := true, holder := Pid(t))]
    ensures InvOwner(s')
  {
  }

  lemma ATakenStep(s: State, c: nat, t: nat, op: Op)
    requires Stepped(s, c, t, op) && s.tasks[t].pc.ATaken?
    ensures Inv(TaskStep(s, c, t, op).value)
  {
    hide Inv, Typed, InvSpin, InvWait, InvOwner, InvLocked, InvWoken, InvPanic, DropThen;
    InvPcOk(s, t);
    InvParts(s);
    var l, s' := s.tasks[t].pc.l, TaskStep(s, c, t, op).value;
    var s1 := SetOwned(s, t, s.tasks[t].owned + {l});
    QueueTyped(s);
    SpinFields(s, s1);
    DropStep(s1, c, t, Spin(l), Out);
    assert Moved(s, s', t, Out);
    InvSpinTyped(s');
    WaitMove(s, s', t, Out);
    WokenMove(s, s', t, Out);
    OwnerReturned(s, s', t, l);
    LockedMove(s, s', t, Out);
    MovedPanic(s, s', t, Out);
    InvJoin(s');
  }

  lemma QueueTyped(s: State)
    requires Typed(s)
    ensures forall l, k :: 0 <= l < |s.locks| && 0 <= k < |s.locks[l].queue| ==> s.locks[l].queue[k] < |s.tasks|
  {
  }

  lemma OwnerReturned(s: State, s': State, t: nat, l: nat)
    requires InvOwner(s) && Moved(s, s', t, Out) && s.tasks[t].pc == ATaken(l)
    requires s'.tasks[t].owned == s.tasks[t].owned + {l}
    requires forall k :: 0 <= k < |s.locks| ==>
               s'.locks[k].locked == s.locks[k].locked && s'.locks[k].holder == s.locks[k].holder
    ensures InvOwner(s')
  {
  }

  lemma RCheckStep(s: State, c: nat, t: nat, op: Op)
    requires Stepped(s, c, t, op) && s.tasks[t].pc.RCheck? && s.locks[s.tasks[t].pc.l].holder == Pid(t)
    ensures Inv(TaskStep(s, c, t, op).value)
  {
    hide Inv, Typed, InvSpin, InvWait, InvOwner, InvLocked, InvWoken, InvPanic;
    InvPcOk(s, t);
    InvParts(s);
    var l, s' := s.tasks[t].pc.l, TaskStep(s, c, t, op).value;
    var pc := RWake(l, s.tasks[t].pc.all);
    PcStep(s, c, t, pc);
    QueueTyped(s);
    SpinFields(SetPc(s, t, pc), s');
    assert Moved(s, s', t, pc);
    InvSpinTyped(s');
    WaitMove(s, s', t, pc);
    WokenMove(s, s', t, pc);
    OwnerReleased(s, s', t, l, pc);
    LockedReleased(s, s', c, t, l, pc);
    MovedPanic(s, s', t, pc);
    InvJoin(s');
  }

  lemma OwnerReleased(s: State, s': State, t: nat, l: nat, pc: Pc)
    requires InvOwner(s) && Moved(s, s', t, pc) && pc.RWake? && s.tasks[t].pc.RCheck? && l < |s.locks|
    requires s.locks[l].holder == Pid(t) && s'.tasks[t].owned == s.tasks[t].owned - {l}
    requires s'.locks == s.locks[l := s.locks[l].(locked := false, holder := 0)]
    ensures InvOwner(s')
  {
  }

  lemma AQueueStep(s: State, c: nat, t: nat, op: Op)
    requires Stepped(s, c, t, op) && s.tasks[t].pc.AQueue?
    ensures Inv(TaskStep(s, c, t, op).value)
  {
    hide Inv, Typed, InvSpin, InvWait, InvOwner, InvLocked, InvWoken, InvPanic;
    InvPcOk(s, t);
    InvParts(s);
    var l, s' := s.tasks[t].pc.l, TaskStep(s, c, t, op).value;
    PcStep(s, c, t, ADrop(l));
    QueueTyped(s);
    SpinFields(SetPc(s, t, ADrop(l)), s');
    InvSpinTyped(s');
    QueueJoined(s, s', t, l);
    WokenQueued(s, s', t, l);
    OwnerQueued(s, s', t, l);
    assert InvPanic(s') by { PanicSame(s, s'); }
    InvJoin(s');
  }

  lemma PanicSame(s: State, s': State)
    requires InvPanic(s) && s'.panic == s.panic
    ensures InvPanic(s')
  {
  }

  /** Only one hart is inside the inner spin lock. */
  lemma SpinExclusive(s: State, c: nat, t: nat, u: nat, x: LockId)
    requires InvSpin(s) && OnHart(s, c, t) && u < |s.tasks| && IsLock(s, x)
    requires x in HeldBy(s.tasks[t].pc, t) && x in HeldBy(s.tasks[u].pc, u) && !Parked(s.tasks[u].pc)
    ensures u == t
  {
    hide HeldBy;
    var d := s.tasks[u].on.value;
    assert Held(s, d) == HeldBy(s.tasks[u].pc, u);
    assert Held(s, c) == HeldBy(s.tasks[t].pc, t);
    assert Holder(s, x) == Some(c) && Holder(s, x) == Some(d);
  }

  lemma LockedReleased(s: State, s': State, c: nat, t: nat, l: nat, pc: Pc)
    requires InvSpin(s) && OnHart(s, c, t) && InvLocked(s) && Moved(s, s', t, pc) && l < |s.locks|
    requires pc.RWake? && s.tasks[t].pc.RCheck? && s.tasks[t].pc.l == l
    requires s'.locks == s.locks[l := s.locks[l].(locked := false, holder := 0)]
    ensures InvLocked(s')
  {
    hide InvSpin;
    forall u, k | 0 <= u < |s'.tasks| && 0 <= k < |s'.locks| && Joining(s'.tasks[u].pc, k)
      ensures s'.locks[k].locked
    {
      if k == l { SpinExclusive(s, c, t, u, Spin(l)); }
    }
  }

  /** t joins the queue of l. */
  ghost predicate Joined(s: State, s': State, t: nat, l: nat) {
    && SameSize(s, s') && t < |s.tasks| && l < |s.locks| && s'.panic == s.panic
    && (forall u :: 0 <= u < |s.tasks| && u != t ==> s'.tasks[u] == s.tasks[u])
    && s'.tasks[t] == s.tasks[t].(pc := ADrop(l), state := SLEEP)
    && s'.locks == s.locks[l := s.locks[l].(queue := s.locks[l].queue + [t])]
  }

  lemma QueueJoined(s: State, s': State, t: nat, l: nat)
    requires Typed(s) && Typed(s') && InvWait(s) && Joined(s, s', t, l) && s.tasks[t].pc == AQueue(l)
    ensures InvWait(s')
  {
    hide Typed;
    SleepJoined(s, s', t, l);
    PickJoined(s, s', t, l);
    QueueTyped(s);
    hide InvPick, InvSleep;
    assert InvState(s');
    assert InvQueue(s');
  }

  lemma SleepJoined(s: State, s': State, t: nat, l: nat)
    requires Typed(s) && Typed(s') && InvSleep(s) && Joined(s, s', t, l) && s.tasks[t].pc == AQueue(l)
    ensures InvSleep(s')
  {
    hide Typed;
    forall u, k | 0 <= u < |s'.tasks| && 0 <= k < |s'.locks| && Waits(s'.tasks[u].pc, k) && s'.tasks[u].state == SLEEP
      ensures u in s'.locks[k].queue || exists w :: 0 <= w < |s'.tasks| && Picks(s'.tasks[w].pc, k, u)
    {
      if u != t && u !in s.locks[k].queue {
        var w :| 0 <= w < |s.tasks| && Picks(s.tasks[w].pc, k, u);
        assert Picks(s'.tasks[w].pc, k, u);
      }
    }
  }

  lemma PickJoined(s: State, s': State, t: nat, l: nat)
    requires InvPick(s) && Joined(s, s', t, l) && s.tasks[t].pc == AQueue(l)
    ensures InvPick(s')
  {
    forall w, k, u | 0 <= w < |s'.tasks| && 0 <= k < |s'.locks| && 0 <= u < |s'.tasks| && Picks(s'.tasks[w].pc, k, u)
      ensures PickOk(s', k, u)
    {
      assert Picks(s.tasks[w].pc, k, u);
      assert PickOk(s, k, u);
    }
  }

  lemma WokenQueued(s: State, s': State, t: nat, l: nat)
    requires InvWoken(s) && InvLocked(s) && Joined(s, s', t, l) && s.tasks[t].pc == AQueue(l)
    ensures InvWoken(s')
  {
    assert s.locks[l].locked by { assert Joining(s.tasks[t].pc, l); }
    forall k | 0 <= k < |s'.locks| && Stranded(s'.locks[k])
      ensures exists u :: 0 <= u < |s'.tasks| && Active(s'.tasks[u], k)
    {
      assert Stranded(s.locks[k]);
      var u :| 0 <= u < |s.tasks| && Active(s.tasks[u], k);
      assert Active(s'.tasks[u], k);
    }
  }

  lemma OwnerQueued(s: State, s': State, t: nat, l: nat)
    requires InvOwner(s) && InvLocked(s) && Joined(s, s', t, l) && s.tasks[t].pc == AQueue(l)
    ensures InvOwner(s') && InvLocked(s')
  {
  }

  // ----- leaving the hart -----

  /** Waiting facts when t only moves on inside its wait for l. */
  lemma WaitOn(s: State, s': State, t: nat, l: nat, pc: Pc)
    requires Typed(s) && Typed(s') && InvWait(s) && SameSize(s, s') && t < |s.tasks|
    requires forall k :: 0 <= k < |s.locks| ==> s'.locks[k].queue == s.locks[k].queue
    requires forall u :: 0 <= u < |s.tasks| && u != t ==>
      s'.tasks[u].pc == s.tasks[u].pc && s'.tasks[u].state == s.tasks[u].state
    requires s'.tasks[t].pc == pc && s'.tasks[t].state == s.tasks[t].state == SLEEP
    requires (s.tasks[t].pc == ADrop(l) && pc == ASched(l)) || (s.tasks[t].pc == ASched(l) && pc == AParked(l))
    ensures InvWait(s')
  {
    hide InvSleep, InvPick;
    assert SamePicks(s, s');
    SleepSame(s, s');
    PickSame(s, s');
  }

  lemma ADropStep(s: State, c: nat, t: nat, op: Op)
    requires Stepped(s, c, t, op) && s.tasks[t].pc.ADrop?
    ensures Inv(TaskStep(s, c, t, op).value)
  {
    hide Inv, Typed, InvSpin, InvWait, InvOwner, InvLocked, InvWoken, InvPanic, DropThen;
    InvPcOk(s, t);
    InvParts(s);
    var l, s' := s.tasks[t].pc.l, TaskStep(s, c, t, op).value;
    DropStep(s, c, t, Spin(l), ASched(l));
    InvSpinTyped(s');
    WaitStateOk(s, t);
    WaitOn(s, s', t, l, ASched(l));
    OwnerMove(s, s', t, ASched(l));
    WokenMove(s, s', t, ASched(l));
    LockedMove(s, s', t, ASched(l));
    MovedPanic(s, s', t, ASched(l));
    InvJoin(s');
  }

  lemma WaitStateOk(s: State, t: nat)
    requires Typed(s) && InvWait(s) && t < |s.tasks|
    ensures StateOk(s.tasks[t])
  {
  }

  /** The effect of a switch to the scheduler: t parked, off its hart. */
  ghost predicate Switched(s: State, s': State, c: nat, t: nat, task: Task) {
    && c < |s.harts| && t < |s.tasks| && s'.panic == s.panic
    && s'.tasks == s.tasks[t := task] && s'.harts == s.harts[c := Back(t)]
    && s'.noff == s.noff && s'.locks == s.locks
    && Parked(task.pc) && task.on == None && task.lk == s.tasks[t].lk && task.owned == s.tasks[t].owned
  }

  lemma SwitchedSpin(s: State, s': State, c: nat, t: nat, task: Task)
    requires InvSpin(s) && OnHart(s, c, t) && Switched(s, s', c, t, task) && PcOk(s, task.pc)
    requires HeldBy(s.tasks[t].pc, t) == {Lk(t)}
    ensures InvSpin(s')
  {
    hide HeldBy;
    assert Typed(s') by {
      forall u | 0 <= u < |s'.tasks| ensures PcOk(s', s'.tasks[u].pc) {
        assert PcOk(s, s.tasks[u].pc);
      }
      forall d | 0 <= d < |s'.harts| ensures HartOk(s', s'.harts[d]) {
        assert HartOk(s, s.harts[d]);
      }
    }
    forall d | 0 <= d < |s.harts| ensures Held(s', d) == Held(s, d) {
      if d != c && s.harts[d].Running? { assert s.harts[d].t != t; }
    }
    HoldSame(s, s', c);
    assert InvOn(s');
  }

  lemma SwitchedRest(s: State, s': State, c: nat, t: nat, task: Task)
    requires InvOwner(s) && InvLocked(s) && InvWoken(s) && Switched(s, s', c, t, task)
    requires !s.tasks[t].pc.ATaken? && forall l :: Active(s.tasks[t], l) ==> Active(task, l)
    ensures InvOwner(s') && InvLocked(s') && InvWoken(s')
  {
    forall l | 0 <= l < |s'.locks| && Stranded(s'.locks[l])
      ensures exists u :: 0 <= u < |s'.tasks| && Active(s'.tasks[u], l)
    {
      var u :| 0 <= u < |s.tasks| && Active(s.tasks[u], l);
      assert Active(s'.tasks[u], l);
    }
  }

  /** The checks in `sched` pass: own lock held, state not RUNNING, exactly one push_off. */
  lemma SchedChecks(s: State, c: nat, t: nat)
    requires InvSpin(s) && OnHart(s, c, t) && HeldBy(s.tasks[t].pc, t) == {Lk(t)}
    ensures s.tasks[t].lk == Some(c) && s.noff[c] == 1
  {
    hide HeldBy;
    assert Lk(t) in Held(s, c) && IsLock(s, Lk(t));
    assert Holder(s, Lk(t)) == Some(c);
  }

  lemma ASchedStep(s: State, c: nat, t: nat, op: Op)
    requires Stepped(s, c, t, op) && s.tasks[t].pc.ASched?
    ensures Inv(TaskStep(s, c, t, op).value)
  {
    hide Inv, Typed, InvSpin, InvWait, InvOwner, InvLocked, InvWoken, InvPanic;
    InvPcOk(s, t);
    InvParts(s);
    var l, s' := s.tasks[t].pc.l, TaskStep(s, c, t, op).value;
    WaitStateOk(s, t);
    SchedChecks(s, c, t);
    SwitchedSpin(s, s', c, t, s'.tasks[t]);
    InvSpinTyped(s');
    WaitOn(s, s', t, l, AParked(l));
    SwitchedRest(s, s', c, t, s'.tasks[t]);
    PanicSame(s, s');
    InvJoin(s');
  }

  lemma WaitYield(s: State, s': State, c: nat, t: nat, task: Task)
    requires Typed(s) && Typed(s') && InvWait(s) && Switched(s, s', c, t, task)
    requires s.tasks[t].pc.YHold? && task.pc.YParked? && task.state == RUNNABLE
    ensures InvWait(s')
  {
    hide InvSleep, InvPick;
    assert SamePicks(s, s');
    SleepSame(s, s');
    PickSame(s, s');
  }

  lemma YHoldStep(s: State, c: nat, t: nat, op: Op)
    requires Stepped(s, c, t, op) && s.tasks[t].pc.YHold?
    ensures Inv(TaskStep(s, c, t, op).value)
  {
    hide Inv, Typed, InvSpin, InvWait, InvOwner, InvLocked, InvWoken, InvPanic;
    InvPcOk(s, t);
    InvParts(s);
    var s' := TaskStep(s, c, t, op).value;
    WaitStateOk(s, t);
    SchedChecks(s, c, t);
    SwitchedSpin(s, s', c, t, s'.tasks[t]);
    InvSpinTyped(s');
    WaitYield(s, s', c, t, s'.tasks[t]);
    SwitchedRest(s, s', c, t, s'.tasks[t]);
    PanicSame(s, s');
    InvJoin(s');
  }

  // ----- waking -----

  /** t unlinks the head of l's queue. */
  ghost predicate Unlinked(s: State, s': State, t: nat, l: nat, pc: Pc) {
    && SameSize(s, s') && t < |s.tasks| && l < |s.locks| && s.locks[l].queue != [] && s'.panic == s.panic
    && s'.tasks == s.tasks[t := s.tasks[t].(pc := pc)]
    && s'.locks == s.locks[l := s.locks[l].(queue := s.locks[l].queue[1..])]
    && pc.RPick? && pc.l == l && pc.t == s.locks[l].queue[0]
    && s.tasks[t].pc.RWake? && s.tasks[t].pc.l == l
  }

  lemma QueueUnlinked(s: State, s': State, t: nat, l: nat, pc: Pc)
    requires Typed(s) && Typed(s') && InvState(s) && InvQueue(s) && Unlinked(s, s', t, l, pc)
    ensures InvState(s') && InvQueue(s')
  {
    hide Typed;
    QueueTyped(s);
    forall k, j | 0 <= k < |s'.locks| && 0 <= j < |s'.locks[k].queue|
      ensures var u := s'.locks[k].queue[j];
              u < |s'.tasks| && Waits(s'.tasks[u].pc, k) && s'.tasks[u].state == SLEEP
    {
      var j' := if k == l then j + 1 else j;
      assert s'.locks[k].queue[j] == s.locks[k].queue[j'];
    }
    forall k, i, j | 0 <= k < |s'.locks| && 0 <= i < j < |s'.locks[k].queue|
      ensures s'.locks[k].queue[i] != s'.locks[k].queue[j]
    {
      if k == l {
        assert s'.locks[k].queue[i] == s.locks[k].queue[i + 1] && s'.locks[k].queue[j] == s.locks[k].queue[j + 1];
      }
    }
  }

  lemma PickUnlinked(s: State, s': State, c: nat, t: nat, l: nat, pc: Pc)
    requires InvSpin(s) && OnHart(s, c, t) && InvQueue(s) && InvPick(s) && Unlinked(s, s', t, l, pc)
    ensures InvPick(s')
  {
    hide InvSpin;
    InvSpinTyped(s);
    var q := s.locks[l].queue;
    forall w, k, u | 0 <= w < |s'.tasks| && 0 <= k < |s'.locks| && 0 <= u < |s'.tasks| && Picks(s'.tasks[w].pc, k, u)
      ensures PickOk(s', k, u)
    {
      if w == t {
        assert u == q[0] && k == l && Waits(s.tasks[u].pc, l) && s.tasks[u].state == SLEEP;
        if s.tasks[u].pc == ADrop(l) { SpinExclusive(s, c, t, u, Spin(l)); }
      } else {
        assert Picks(s.tasks[w].pc, k, u);
        assert PickOk(s, k, u);
      }
    }
  }

  lemma SleepUnlinked(s: State, s': State, t: nat, l: nat, pc: Pc)
    requires Typed(s) && Typed(s') && InvSleep(s) && Unlinked(s, s', t, l, pc)
    ensures InvSleep(s')
  {
    hide Typed;
    var q := s.locks[l].queue;
    forall u, k | 0 <= u < |s'.tasks| && 0 <= k < |s'.locks| && Waits(s'.tasks[u].pc, k) && s'.tasks[u].state == SLEEP
      ensures u in s'.locks[k].queue || exists w :: 0 <= w < |s'.tasks| && Picks(s'.tasks[w].pc, k, u)
    {
      assert Waits(s.tasks[u].pc, k);
      if u in s.locks[k].queue {
        if k == l {
          assert q == [q[0]] + q[1..];
          if u == q[0] { assert Picks(s'.tasks[t].pc, k, u); }
        }
      } else {
        var w :| 0 <= w < |s.tasks| && Picks(s.tasks[w].pc, k, u);
        assert Picks(s'.tasks[w].pc, k, u);
      }
    }
  }

  lemma RestUnlinked(s: State, s': State, t: nat, l: nat, pc: Pc)
    requires InvOwner(s) && InvLocked(s) && InvWoken(s) && Unlinked(s, s', t, l, pc)
    ensures InvOwner(s') && InvLocked(s') && InvWoken(s')
  {
    forall k | 0 <= k < |s'.locks| && Stranded(s'.locks[k])
      ensures exists u :: 0 <= u < |s'.tasks| && Active(s'.tasks[u], k)
    {
      assert Stranded(s.locks[k]);
      var u :| 0 <= u < |s.tasks| && Active(s.tasks[u], k);
      assert Active(s'.tasks[u], k);
    }
  }

  lemma RWakeStep(s: State, c: nat, t: nat, op: Op)
    requires Stepped(s, c, t, op) && s.tasks[t].pc.RWake?
    ensures Inv(TaskStep(s, c, t, op).value)
  {
    hide Inv, Typed, InvSpin, InvState, InvQueue, InvPick, InvSleep, InvOwner, InvLocked, InvWoken, InvPanic;
    InvPcOk(s, t);
    InvParts(s);
    var l, all, s' := s.tasks[t].pc.l, s.tasks[t].pc.all, TaskStep(s, c, t, op).value;
    QueueTyped(s);
    if s.locks[l].queue == [] {
      PcStep(s, c, t, RDone(l));
      InvSpinTyped(s');
      WaitMove(s, s', t, RDone(l));
      OwnerMove(s, s', t, RDone(l));
      WokenMove(s, s', t, RDone(l));
      LockedMove(s, s', t, RDone(l));
    } else {
      var pc := RPick(l, all, s.locks[l].queue[0]);
      PcStep(s, c, t, pc);
      SpinFields(SetPc(s, t, pc), s');
      InvSpinTyped(s');
      QueueUnlinked(s, s', t, l, pc);
      PickUnlinked(s, s', c, t, l, pc);
      SleepUnlinked(s, s', t, l, pc);
      RestUnlinked(s, s', t, l, pc);
    }
    PanicSame(s, s');
    InvJoin(s');
  }

  lemma RPickStep(s: State, c: nat, t: nat, op: Op)
    requires Stepped(s, c, t, op) && s.tasks[t].pc.RPick?
    ensures Inv(TaskStep(s, c, t, op).value)
  {
    hide Inv, Typed, InvSpin, InvWait, InvOwner, InvLocked, InvWoken, InvPanic, TakeThen;
    InvPcOk(s, t);
    InvParts(s);
    var RPick(l, all, u) := s.tasks[t].pc;
    var s', pc := TaskStep(s, c, t, op).value, RSet(l, all, u);
    TakeStep(s, c, t, Lk(u), pc);
    InvSpinTyped(s');
    WaitPicking(s, s', t, pc);
    OwnerMove(s, s', t, pc);
    WokenMove(s, s', t, pc);
    LockedMove(s, s', t, pc);
    MovedPanic(s, s', t, pc);
    InvJoin(s');
  }

  lemma WaitPicking(s: State, s': State, t: nat, pc: Pc)
    requires Typed(s) && Typed(s') && InvWait(s) && Moved(s, s', t, pc)
    requires s.tasks[t].pc.RPick? && pc == RSet(s.tasks[t].pc.l, s.tasks[t].pc.all, s.tasks[t].pc.t)
    ensures InvWait(s')
  {
    hide InvSleep, InvPick;
    assert SamePicks(s, s');
    SleepSame(s, s');
    PickSame(s, s');
  }

  /** t makes the picked waiter u RUNNABLE. */
  ghost predicate Woke(s: State, s': State, t: nat, l: nat, u: nat, pc: Pc) {
    && SameSize(s, s') && t < |s.tasks| && u < |s.tasks| && u != t && l < |s.locks| && s'.panic == s.panic
    && s'.tasks == s.tasks[u := s.tasks[u].(state := RUNNABLE)][t := s.tasks[t].(pc := pc)]
    && s'.locks == s.locks && pc.RUnlk? && s.tasks[t].pc.RSet? && s.tasks[t].pc.l == l && s.tasks[t].pc.t == u
    && s.tasks[u].pc == AParked(l)
  }

  lemma WaitWoke(s: State, s': State, c: nat, t: nat, l: nat, u: nat, pc: Pc)
    requires InvSpin(s) && Typed(s') && OnHart(s, c, t) && InvWait(s) && Woke(s, s', t, l, u, pc)
    ensures InvWait(s')
  {
    hide InvSpin;
    InvSpinTyped(s);
    assert Picks(s.tasks[t].pc, l, u);
    assert PickOk(s, l, u);
    assert InvState(s');
    assert InvQueue(s') by { QueueWoke(s, s', t, l, u, pc); }
    forall w, k, v | 0 <= w < |s'.tasks| && 0 <= k < |s'.locks| && 0 <= v < |s'.tasks| && Picks(s'.tasks[w].pc, k, v)
      ensures PickOk(s', k, v)
    {
      assert Picks(s.tasks[w].pc, k, v);
      assert PickOk(s, k, v);
      if v == u { SpinExclusive(s, c, t, w, Spin(l)); }
    }
    SleepWoke(s, s', t, l, u, pc);
  }

  lemma QueueWoke(s: State, s': State, t: nat, l: nat, u: nat, pc: Pc)
    requires Typed(s) && Typed(s') && InvQueue(s) && Woke(s, s', t, l, u, pc) && u !in s.locks[l].queue
    ensures InvQueue(s')
  {
    hide Typed;
    QueueTyped(s);
    forall k, j | 0 <= k < |s'.locks| && 0 <= j < |s'.locks[k].queue|
      ensures var v := s'.locks[k].queue[j];
              v < |s'.tasks| && Waits(s'.tasks[v].pc, k) && s'.tasks[v].state == SLEEP
    {
      var v := s.locks[k].queue[j];
      assert Waits(s.tasks[v].pc, k);
      assert v != t && v != u;
    }
  }

  lemma SleepWoke(s: State, s': State, t: nat, l: nat, u: nat, pc: Pc)
    requires Typed(s) && Typed(s') && InvSleep(s) && Woke(s, s', t, l, u, pc)
    ensures InvSleep(s')
  {
    hide Typed;
    forall v, k | 0 <= v < |s'.tasks| && 0 <= k < |s'.locks| && Waits(s'.tasks[v].pc, k) && s'.tasks[v].state == SLEEP
      ensures v in s'.locks[k].queue || exists w :: 0 <= w < |s'.tasks| && Picks(s'.tasks[w].pc, k, v)
    {
      assert Waits(s.tasks[v].pc, k) && v != u;
      if v !in s.locks[k].queue {
        var w :| 0 <= w < |s.tasks| && Picks(s.tasks[w].pc, k, v);
        assert Picks(s'.tasks[w].pc, k, v);
      }
    }
  }

  lemma RestWoke(s: State, s': State, t: nat, l: nat, u: nat, pc: Pc)
    requires InvOwner(s) && InvLocked(s) && InvWoken(s) && Woke(s, s', t, l, u, pc)
    ensures InvOwner(s') && InvLocked(s') && InvWoken(s')
  {
    forall k | 0 <= k < |s'.locks| && Stranded(s'.locks[k])
      ensures exists v :: 0 <= v < |s'.tasks| && Active(s'.tasks[v], k)
    {
      if k == l {
        assert Active(s'.tasks[u], k);
      } else {
        var v :| 0 <= v < |s.tasks| && Active(s.tasks[v], k);
        assert Active(s'.tasks[v], k);
      }
    }
  }

  /** The picked waiter has left its hart by the time its lock is taken. */
  lemma PickedIsParked(s: State, c: nat, t: nat, l: nat, u: nat)
    requires InvSpin(s) && OnHart(s, c, t) && InvPick(s) && l < |s.locks| && u < |s.tasks|
    requires s.tasks[t].pc.RSet? && s.tasks[t].pc.l == l && s.tasks[t].pc.t == u
    ensures s.tasks[u].pc == AParked(l) && u != t
  {
    hide InvSpin;
    assert Picks(s.tasks[t].pc, l, u);
    assert PickOk(s, l, u);
    if s.tasks[u].pc == ASched(l) { SpinExclusive(s, c, t, u, Lk(u)); }
  }

  lemma RSetStep(s: State, c: nat, t: nat, op: Op)
    requires Stepped(s, c, t, op) && s.tasks[t].pc.RSet?
    ensures Inv(TaskStep(s, c, t, op).value)
  {
    hide Inv, Typed, InvSpin, InvState, InvQueue, InvPick, InvSleep, InvOwner, InvLocked, InvWoken, InvPanic;
    InvPcOk(s, t);
    InvParts(s);
    var RSet(l, all, u) := s.tasks[t].pc;
    var s', pc := TaskStep(s, c, t, op).value, RUnlk(l, all, u);
    PickedIsParked(s, c, t, l, u);
    PcStep(s, c, t, pc);
    QueueTyped(s);
    SpinFields(SetPc(s, t, pc), s');
    InvSpinTyped(s');
    WaitWoke(s, s', c, t, l, u, pc);
    RestWoke(s, s', t, l, u, pc);
    PanicSame(s, s');
    InvJoin(s');
  }

  lemma PanicStep(s: State, p: Panic)
    requires Inv(s) && (p == AlreadyOwner || p == NotOwner)
    ensures Inv(s.(panic := p))
  {
    hide InvWait, InvOwner, InvLocked, InvWoken;
    var s' := s.(panic := p);
    hide InvHold, InvOn;
    InvParts(s);
    QueueTyped(s);
    SpinFields(s, s');
    FieldsSame(s, s');
  }

  lemma FieldsSame(s: State, s': State)
    requires Typed(s) && Typed(s') && SameSize(s, s') && s'.tasks == s.tasks && s'.locks == s.locks
    requires InvWait(s) && InvOwner(s) && InvLocked(s) && InvWoken(s)
    ensures InvWait(s') && InvOwner(s') && InvLocked(s') && InvWoken(s')
  {
    hide InvSleep, InvPick;
    assert SamePicks(s, s');
    SleepSame(s, s');
    PickSame(s, s');
  }

  lemma {:induction false} TaskStepInv(s: State, c: nat, t: nat, op: Op)
    requires Stepped(s, c, t, op)
    ensures Inv(TaskStep(s, c, t, op).value)
  {
    hide Inv, Typed, TakeThen, DropThen;
    InvPcOk(s, t);
    match s.tasks[t].pc {
      case YHold(_) => YHoldStep(s, c, t, op);
      case ACheck(l) =>
        if s.locks[l].holder == Pid(t) { PanicStep(s, AlreadyOwner); } else { PcPlain(s, c, t, ATest(l)); }
      case ATest(l) => ATestStep(s, c, t, op);
      case AQueue(l) => AQueueStep(s, c, t, op);
      case ADrop(l) => ADropStep(s, c, t, op);
      case ASched(l) => ASchedStep(s, c, t, op);
      case ATaken(l) => ATakenStep(s, c, t, op);
      case RCheck(l, _) =>
        if s.locks[l].holder == Pid(t) { RCheckStep(s, c, t, op); } else { PanicStep(s, NotOwner); }
      case RWake(_, _) => RWakeStep(s, c, t, op);
      case RPick(_, _, _) => RPickStep(s, c, t, op);
      case RSet(_, _, _) => RSetStep(s, c, t, op);
      case RWant(_, _) => PlainReleaseStep(s, c, t, op);
      case RUnlk(_, _, _) => PlainReleaseStep(s, c, t, op);
      case RDone(_) => PlainReleaseStep(s, c, t, op);
      case YParked(_) =>
      case AParked(_) =>
      case _ => PlainTaskStep(s, c, t, op);
    }
  }

  // ----- steps of the scheduler -----

  /** Task locks, harts and push_off depths may change; nothing else does. */
  ghost predicate Sched(s: State, s': State) {
    && SameSize(s, s') && |s'.noff| == |s.noff| && s'.panic == s.panic && s'.locks == s.locks
    && (forall u :: 0 <= u < |s.tasks| ==> s'.tasks[u] == s.tasks[u].(lk := s'.tasks[u].lk))
  }

  lemma SchedRest(s: State, s': State)
    requires Typed(s) && Typed(s') && Sched(s, s')
    requires InvWait(s) && InvOwner(s) && InvLocked(s) && InvWoken(s)
    ensures InvWait(s') && InvOwner(s') && InvLocked(s') && InvWoken(s')
  {
    hide InvSleep, InvPick;
    assert SamePicks(s, s');
    SleepSame(s, s');
    PickSame(s, s');
    forall l | 0 <= l < |s'.locks| && Stranded(s'.locks[l])
      ensures exists u :: 0 <= u < |s'.tasks| && Active(s'.tasks[u], l)
    {
      var u :| 0 <= u < |s.tasks| && Active(s.tasks[u], l);
      assert Active(s'.tasks[u], l);
    }
  }

  lemma SchedTyped(s: State, s': State, c: nat)
    requires Typed(s) && Sched(s, s') && c < |s.harts| && s'.harts == s.harts[c := s'.harts[c]]
      && HartOk(s, s'.harts[c])
    ensures Typed(s')
  {
    forall u | 0 <= u < |s'.tasks| ensures PcOk(s', s'.tasks[u].pc) {
      assert PcOk(s, s.tasks[u].pc);
    }
    forall d | 0 <= d < |s'.harts| ensures HartOk(s', s'.harts[d]) {
      assert HartOk(s, s.harts[d]);
    }
  }

  lemma ScanStep(s: State, c: nat, ch: Choice)
    requires Inv(s) && c < |s.harts| && s.panic == NoPanic && s.harts[c].Scan? && Step(s, c, ch).Some?
    ensures Inv(Step(s, c, ch).value)
  {
    hide InvWait, InvOwner, InvLocked, InvWoken, HeldBy, PcOk;
    var u, s' := ch.task, Step(s, c, ch).value;
    assert Held(s, c) == {};
    assert Holder(s, Lk(u)) == None by { assert IsLock(s, Lk(u)); }
    assert Sched(s, s');
    SchedTyped(s, s', c);
    assert OnlyHolds(s, s', c);
    HoldTake(s, s', c, Lk(u));
    assert InvOn(s');
    SchedRest(s, s');
  }

  /** The scheduler gives a task lock back: after a switch, or because the task cannot run. */
  lemma GiveBackStep(s: State, c: nat, ch: Choice)
    requires Inv(s) && c < |s.harts| && s.panic == NoPanic && Step(s, c, ch).Some?
    requires s.harts[c].Back? || (s.harts[c].Locked? && s.tasks[s.harts[c].t].state != RUNNABLE)
    ensures Inv(Step(s, c, ch).value)
  {
    hide InvWait, InvOwner, InvLocked, InvWoken, HeldBy, PcOk;
    assert HartOk(s, s.harts[c]);
    var u, s' := s.harts[c].t, Step(s, c, ch).value;
    assert Held(s, c) == {Lk(u)};
    assert Holder(s, Lk(u)) == Some(c) && s.noff[c] == 1 by { assert IsLock(s, Lk(u)); }
    assert Sched(s, s');
    SchedTyped(s, s', c);
    assert OnlyHolds(s, s', c);
    HoldDrop(s, s', c, Lk(u));
    assert InvOn(s');
    SchedRest(s, s');
  }

  /** The effect of switching to the RUNNABLE task u. */
  ghost predicate SwitchedIn(s: State, s': State, c: nat, u: nat) {
    && c < |s.harts| && u < |s.tasks| && s'.panic == s.panic && s'.noff == s.noff && s'.locks == s.locks
    && s'.harts == s.harts[c := Running(u)]
    && s'.tasks == s.tasks[u := s.tasks[u].(state := RUNNING, pc := Resumed(s.tasks[u].pc), on := Some(c))]
  }

  lemma SwitchedInSpin(s: State, s': State, c: nat, u: nat)
    requires InvSpin(s) && c < |s.harts| && s.harts[c] == Locked(u) && SwitchedIn(s, s', c, u) && Parked(s.tasks[u].pc)
    ensures InvSpin(s')
  {
    assert Typed(s') by {
      forall v | 0 <= v < |s'.tasks| ensures PcOk(s', s'.tasks[v].pc) {
        assert PcOk(s, s.tasks[v].pc);
      }
      forall d | 0 <= d < |s'.harts| ensures HartOk(s', s'.harts[d]) {
        assert HartOk(s, s.harts[d]);
      }
    }
    assert HeldBy(s'.tasks[u].pc, u) == {Lk(u)};
    hide HeldBy;
    forall d | 0 <= d < |s.harts| ensures Held(s', d) == Held(s, d) {
    }
    HoldSame(s, s', c);
    assert InvOn(s');
  }

  lemma SwitchedInRest(s: State, s': State, c: nat, u: nat)
    requires Typed(s) && Typed(s') && SwitchedIn(s, s', c, u) && s.tasks[u].state == RUNNABLE
    requires InvWait(s) && InvOwner(s) && InvLocked(s) && InvWoken(s)
    ensures InvWait(s') && InvOwner(s') && InvLocked(s') && InvWoken(s')
  {
    hide InvSleep, InvPick;
    assert StateOk(s.tasks[u]);
    assert SamePicks(s, s');
    SleepSame(s, s');
    PickSame(s, s');
    forall l | 0 <= l < |s'.locks| && Stranded(s'.locks[l])
      ensures exists v :: 0 <= v < |s'.tasks| && Active(s'.tasks[v], l)
    {
      var v :| 0 <= v < |s.tasks| && Active(s.tasks[v], l);
      assert Active(s'.tasks[v], l);
    }
  }

  lemma SwitchInStep(s: State, c: nat, ch: Choice)
    requires Inv(s) && c < |s.harts| && s.panic == NoPanic && Step(s, c, ch).Some?
    requires s.harts[c].Locked? && s.tasks[s.harts[c].t].state == RUNNABLE
    ensures Inv(Step(s, c, ch).value)
  {
    hide Inv, InvSpin, InvWait, InvOwner, InvLocked, InvWoken, Typed;
    InvParts(s);
    HartTyped(s, c);
    var u, s' := s.harts[c].t, Step(s, c, ch).value;
    WaitStateOk(s, u);
    SwitchedInSpin(s, s', c, u);
    InvSpinTyped(s');
    SwitchedInRest(s, s', c, u);
    PanicSame(s, s');
    InvJoin(s');
  }

  lemma HartTyped(s: State, c: nat)
    requires Typed(s) && c < |s.harts|
    ensures HartOk(s, s.harts[c])
  {
  }

  // ----- every run -----

  /** Every step of every hart keeps the invariant. */
  lemma StepInv(s: State, c: nat, ch: Choice)
    requires Inv(s) && c < |s.harts| && Step(s, c, ch).Some?
    ensures Inv(Step(s, c, ch).value)
  {
    hide Inv, Typed, TaskStep, Drop, Take;
    InvParts(s);
    HartTyped(s, c);
    match s.harts[c] {
      case Scan => ScanStep(s, c, ch);
      case Back(_) => GiveBackStep(s, c, ch);
      case Locked(t) =>
        if s.tasks[t].state == RUNNABLE { SwitchInStep(s, c, ch); } else { GiveBackStep(s, c, ch); }
      case Running(t) => TaskStepInv(s, c, t, ch.op);
    }
  }

  datatype Move = Move(hart: nat, choice: Choice)

  /** s' is reached from s by these moves, in this order. */
  ghost predicate Runs(s: State, moves: seq<Move>, s': State)
    decreases |moves|
  {
    if moves == [] then s' == s else
    && Typed(s) && moves[0].hart < |s.harts|
    && var r := Step(s, moves[0].hart, moves[0].choice);
       r.Some? && Runs(r.value, moves[1..], s')
  }

  ghost predicate Reachable(s: State) {
    exists s0, moves :: Init(s0) && Runs(s0, moves, s)
  }

  lemma {:induction false} RunsInv(s: State, moves: seq<Move>, s': State)
    requires Inv(s) && Runs(s, moves, s')
    ensures Inv(s')
    decreases |moves|
  {
    hide Inv, Step, Typed;
    if moves != [] {
      StepInv(s, moves[0].hart, moves[0].choice);
      RunsInv(Step(s, moves[0].hart, moves[0].choice).value, moves[1..], s');
    }
  }

  lemma ReachableInv(s: State)
    requires Reachable(s)
    ensures Inv(s)
  {
    hide Inv, Init, Runs;
    var s0, moves :| Init(s0) && Runs(s0, moves, s);
    InitInv(s0);
    RunsInv(s0, moves, s);
  }

  // ----- what the invariant means -----

  /** At most one task is between acquiring and releasing a sleep lock, and the lock says who. */
  lemma MutualExclusion(s: State, l: nat, t: nat, u: nat)
    requires Reachable(s) && l < |s.locks| && t < |s.tasks| && u < |s.tasks|
    requires l in s.tasks[t].owned && l in s.tasks[u].owned
    ensures t == u && s.locks[l].locked && s.locks[l].holder == Pid(t)
  {
    hide Reachable, InvHold, InvOn, InvWait, InvWoken, Typed;
    ReachableInv(s);
    assert s.locks[l].holder == Pid(t);
    assert s.locks[l].holder == Pid(u);
  }

  /** A queued task sleeps, waits for that lock, and is on no other queue and no other place. */
  lemma QueuedOnce(s: State, l: nat, k: nat, l': nat, k': nat)
    requires Reachable(s) && l < |s.locks| && k < |s.locks[l].queue| && l' < |s.locks| && k' < |s.locks[l'].queue|
    ensures var t := s.locks[l].queue[k];
            && t < |s.tasks| && s.tasks[t].state == SLEEP && Waits(s.tasks[t].pc, l)
            && (s.locks[l'].queue[k'] == t ==> l' == l && k' == k)
  {
    hide Reachable, InvHold, InvOn, InvWoken, InvSleep, InvPick, InvOwner;
    ReachableInv(s);
    var t := s.locks[l].queue[k];
    assert Waits(s.tasks[t].pc, l);
    if s.locks[l'].queue[k'] == t { assert Waits(s.tasks[t].pc, l'); }
  }

  /** No lost wake-up: whenever the lock is free, nobody is inside it, and tasks are queued, some
      task that has already been woken is on its way to try again. */
  lemma NoWaiterStranded(s: State, l: nat)
    requires Reachable(s) && l < |s.locks| && s.locks[l].spin == None && Stranded(s.locks[l])
    ensures exists t :: 0 <= t < |s.tasks| && Retrying(s.tasks[t], l) && !s.tasks[t].pc.ATest?
  {
    hide Reachable, InvWait, InvOwner, InvLocked;
    ReachableInv(s);
    var t :| 0 <= t < |s.tasks| && Active(s.tasks[t], l);
    if Waking(s.tasks[t], l) || s.tasks[t].pc.ATest? {
      NobodyInside(s, t, l);
      assert false;
    }
  }

  lemma NobodyInside(s: State, t: nat, l: nat)
    requires InvSpin(s) && t < |s.tasks| && l < |s.locks| && s.locks[l].spin == None && !Parked(s.tasks[t].pc)
    ensures Spin(l) !in HeldBy(s.tasks[t].pc, t)
  {
    hide HeldBy;
    var c := s.tasks[t].on.value;
    assert Held(s, c) == HeldBy(s.tasks[t].pc, t);
    assert IsLock(s, Spin(l)) && Holder(s, Spin(l)) == None;
  }

  /** A SLEEP task is queued on the lock it waits for, or is being woken right now. */
  lemma SleeperIsKnown(s: State, t: nat)
    requires Reachable(s) && t < |s.tasks| && s.tasks[t].state == SLEEP
    ensures exists l :: 0 <= l < |s.locks| && Waits(s.tasks[t].pc, l) &&
              (t in s.locks[l].queue || exists w :: 0 <= w < |s.tasks| && Picks(s.tasks[w].pc, l, t))
  {
    hide Reachable, InvHold, InvOn, InvWoken, InvOwner, InvPick, InvQueue;
    ReachableInv(s);
    assert StateOk(s.tasks[t]) && PcOk(s, s.tasks[t].pc);
    assert Waits(s.tasks[t].pc, s.tasks[t].pc.l);
  }

  /** Spin lock misuse and the checks in `sched` never panic, whatever the callers do. */
  lemma KernelChecksPass(s: State)
    requires Reachable(s)
    ensures s.panic != Reacquire && s.panic != NotHolder && s.panic != BadSched
  {
    hide Reachable, InvHold, InvOn, InvWait, InvOwner, InvLocked, InvWoken, Typed;
    ReachableInv(s);
  }

  // ----- lock order -----

  /** Whoever holds a task lock takes its next step without waiting. */
  lemma TaskLockHolderRuns(s: State, c: nat, t: nat, ch: Choice)
    requires Inv(s) && s.panic == NoPanic && t < |s.tasks| && c < |s.harts| && s.tasks[t].lk == Some(c)
    ensures Step(s, c, ch).Some?
  {
    hide InvWait, InvOwner, InvLocked, InvWoken, InvOn, PcOk;
    HartTyped(s, c);
    assert IsLock(s, Lk(t)) && Holder(s, Lk(t)) == Some(c);
    assert Lk(t) in Held(s, c);
  }

  /** Lock waits are at most two deep: a hart that holds an inner spin lock either steps, or
      waits for a task lock, whose holder steps. So spinning harts never block each other for
      good. */
  lemma LockWaitsResolve(s: State, c: nat, l: nat, ch: Choice)
    requires Reachable(s) && s.panic == NoPanic && l < |s.locks| && c < |s.harts| && s.locks[l].spin == Some(c)
    ensures Typed(s)
    ensures Step(s, c, ch).Some? || exists t ::
              && 0 <= t < |s.tasks| && s.tasks[t].lk.Some? && s.tasks[t].lk.value < |s.harts|
              && Step(s, s.tasks[t].lk.value, ch).Some?
  {
    hide Reachable, InvWait, InvOwner, InvLocked, InvWoken, InvOn;
    ReachableInv(s);
    HartTyped(s, c);
    assert IsLock(s, Spin(l)) && Holder(s, Spin(l)) == Some(c);
    assert Spin(l) in Held(s, c);
    var w := s.harts[c].t;
    assert PcOk(s, s.tasks[w].pc);
    if Step(s, c, ch).None? {
      var u := if s.tasks[w].pc.RPick? then s.tasks[w].pc.t else w;
      BlockedOn(s, c, w, ch, u);
      TaskLockHolderRuns(s, s.tasks[u].lk.value, u, ch);
    }
  }

  lemma BlockedOn(s: State, c: nat, w: nat, ch: Choice, u: nat)
    requires Inv(s) && s.panic == NoPanic && OnHart(s, c, w) && Step(s, c, ch).None?
    requires PcOk(s, s.tasks[w].pc) && (exists l :: Spin(l) in HeldBy(s.tasks[w].pc, w))
    requires u == if s.tasks[w].pc.RPick? then s.tasks[w].pc.t else w
    ensures u < |s.tasks| && s.tasks[u].lk.Some? && s.tasks[u].lk.value < |s.harts|
  {
    hide InvWait, InvOwner, InvLocked, InvWoken, InvOn;
    assert Holder(s, Lk(u)).Some?;
    assert IsLock(s, Lk(u));
  }

  // ----- disciplined callers -----

  /** Callers that acquire only locks they do not own and release only locks they own. */
  ghost predicate Disciplined(s: State, c: nat, ch: Choice)
    requires Typed(s) && c < |s.harts|
  {
    s.harts[c].Running? && s.tasks[s.harts[c].t].pc.Out? ==>
      && (ch.op.DoAcquire? ==> ch.op.l !in s.tasks[s.harts[c].t].owned)
      && (ch.op.DoRelease? ==> ch.op.l in s.tasks[s.harts[c].t].owned)
  }

  predicate CallOk(task: Task) {
    PcCallOk(task.pc, task.owned) && (Yields(task.pc) ==> PcCallOk(task.pc.back, task.owned))
  }

  predicate PcCallOk(pc: Pc, owned: set<nat>) {
    && (pc.AWant? || pc.ACheck? ==> pc.l !in owned)
    && (pc.RWant? || pc.RCheck? ==> pc.l in owned)
  }

  ghost predicate InvCalls(s: State) {
    s.panic == NoPanic && forall t :: 0 <= t < |s.tasks| ==> CallOk(s.tasks[t])
  }

  /** In acquire_sleep. */
  predicate Acquiring(pc: Pc) {
    || pc.AWant? || pc.ACheck? || pc.ATest? || pc.AWantLk? || pc.AQueue? || pc.ADrop? || pc.ASched? || pc.ABack?
    || pc.ARetry? || pc.ATaken?
  }

  predicate OtherKept(s: State, s': State, u: nat) {
    && u < |s'.tasks| == |s.tasks|
    && s'.tasks[u].pc == s.tasks[u].pc && s'.tasks[u].owned == s.tasks[u].owned
  }

  /** What a step leaves of the other tasks. */
  lemma TaskStepOthers(s: State, c: nat, t: nat, op: Op, u: nat)
    requires Typed(s) && OnHart(s, c, t) && u < |s.tasks| && u != t && TaskStep(s, c, t, op).Some?
    ensures OtherKept(s, TaskStep(s, c, t, op).value, u)
  {
    hide TaskStep, Typed, OtherKept;
    if Acquiring(s.tasks[t].pc) { OthersAcquire(s, c, t, op, u); } else { OthersRest(s, c, t, op, u); }
  }

  lemma OthersAcquire(s: State, c: nat, t: nat, op: Op, u: nat)
    requires Typed(s) && OnHart(s, c, t) && u < |s.tasks| && u != t && TaskStep(s, c, t, op).Some?
    requires Acquiring(s.tasks[t].pc)
    ensures OtherKept(s, TaskStep(s, c, t, op).value, u)
  {
    assert PcOk(s, s.tasks[t].pc);
  }

  lemma OthersRest(s: State, c: nat, t: nat, op: Op, u: nat)
    requires Typed(s) && OnHart(s, c, t) && u < |s.tasks| && u != t && TaskStep(s, c, t, op).Some?
    requires !Acquiring(s.tasks[t].pc)
    ensures OtherKept(s, TaskStep(s, c, t, op).value, u)
  {
    assert PcOk(s, s.tasks[t].pc);
  }

  /** The caller's own view of a step: it stays within the rules and does not panic. */
  predicate OwnKept(s: State, s': State, t: nat) {
    t < |s'.tasks| == |s.tasks| && CallOk(s'.tasks[t]) && s'.panic != AlreadyOwner && s'.panic != NotOwner
  }

  lemma TaskStepOwn(s: State, c: nat, t: nat, op: Op)
    requires Inv(s) && OnHart(s, c, t) && CallOk(s.tasks[t]) && s.panic == NoPanic && TaskStep(s, c, t, op).Some?
    requires s.tasks[t].pc.Out? ==>
               (op.DoAcquire? ==> op.l !in s.tasks[t].owned) && (op.DoRelease? ==> op.l in s.tasks[t].owned)
    ensures OwnKept(s, TaskStep(s, c, t, op).value, t)
  {
    hide Inv, TaskStep, Typed, OwnKept, CallOk;
    InvPcOk(s, t);
    OwnerKnown(s, t);
    if Acquiring(s.tasks[t].pc) {
      OwnAcquire(s, c, t, op);
    } else if s.tasks[t].pc.Out? || Yields(s.tasks[t].pc) {
      OwnYield(s, c, t, op);
    } else {
      OwnRelease(s, c, t, op);
    }
  }

  /** At the owner checks the lock names the task exactly when it is inside. */
  predicate OwnerKnows(s: State, t: nat) {
    t < |s.tasks| && var pc := s.tasks[t].pc;
    pc.ACheck? || pc.RCheck? ==>
      pc.l < |s.locks| && (s.locks[pc.l].holder == Pid(t) <==> pc.l in s.tasks[t].owned)
  }

  lemma OwnerKnown(s: State, t: nat)
    requires Inv(s) && t < |s.tasks|
    ensures OwnerKnows(s, t)
  {
    hide InvHold, InvOn, InvWait, InvLocked, InvWoken;
    assert PcOk(s, s.tasks[t].pc);
  }

  lemma OwnAcquire(s: State, c: nat, t: nat, op: Op)
    requires Typed(s) && OnHart(s, c, t) && PcOk(s, s.tasks[t].pc) && CallOk(s.tasks[t]) && s.panic == NoPanic
    requires TaskStep(s, c, t, op).Some? && OwnerKnows(s, t) && Acquiring(s.tasks[t].pc)
    ensures OwnKept(s, TaskStep(s, c, t, op).value, t)
  {
    hide Typed, TakeThen, DropThen;
    ShapeOf(s);
    match s.tasks[t].pc {
      case AWant(l) => TakeKeeps(s, c, t, Spin(l), ACheck(l));
      case AWantLk(l) => TakeKeeps(s, c, t, Lk(t), AQueue(l));
      case ADrop(l) => DropKeeps(s, c, t, Spin(l), ASched(l));
      case ABack(l) => DropKeeps(s, c, t, Lk(t), ARetry(l));
      case ARetry(l) => TakeKeeps(s, c, t, Spin(l), ATest(l));
      case ATaken(l) => DropKeeps(SetOwned(s, t, s.tasks[t].owned + {l}), c, t, Spin(l), Out);
      case _ =>
    }
  }

  lemma OwnYield(s: State, c: nat, t: nat, op: Op)
    requires Typed(s) && OnHart(s, c, t) && PcOk(s, s.tasks[t].pc) && CallOk(s.tasks[t]) && s.panic == NoPanic
    requires TaskStep(s, c, t, op).Some? && (s.tasks[t].pc.Out? || Yields(s.tasks[t].pc))
    requires s.tasks[t].pc.Out? ==>
               (op.DoAcquire? ==> op.l !in s.tasks[t].owned) && (op.DoRelease? ==> op.l in s.tasks[t].owned)
    ensures OwnKept(s, TaskStep(s, c, t, op).value, t)
  {
    hide Typed, TakeThen, DropThen;
    ShapeOf(s);
    match s.tasks[t].pc {
      case YWant(b) => TakeKeeps(s, c, t, Lk(t), YHold(b));
      case YHold(b) => DropKeeps(s, c, t, Lk(t), b);
      case YBack(b) => DropKeeps(s, c, t, Lk(t), b);
      case _ =>
    }
  }

  lemma OwnRelease(s: State, c: nat, t: nat, op: Op)
    requires Typed(s) && OnHart(s, c, t) && PcOk(s, s.tasks[t].pc) && CallOk(s.tasks[t]) && s.panic == NoPanic
    requires TaskStep(s, c, t, op).Some? && OwnerKnows(s, t) && !Acquiring(s.tasks[t].pc)
    requires !s.tasks[t].pc.Out? && !Yields(s.tasks[t].pc)
    ensures OwnKept(s, TaskStep(s, c, t, op).value, t)
  {
    hide Typed, TakeThen, DropThen;
    ShapeOf(s);
    match s.tasks[t].pc {
      case RWant(l, all) => TakeKeeps(s, c, t, Spin(l), RCheck(l, all));
      case RPick(l, all, u) => TakeKeeps(s, c, t, Lk(u), RSet(l, all, u));
      case RUnlk(l, all, u) => DropKeeps(s, c, t, Lk(u), if all then RWake(l, all) else RDone(l));
      case RDone(l) => DropKeeps(s, c, t, Spin(l), Out);
      case _ =>
    }
  }

  /** Spin lock operations change neither ownership nor, but for their own panics, the panic. */
  lemma TakeKeeps(s: State, c: nat, t: nat, x: LockId, pc: Pc)
    requires Shape(s) && OnHart(s, c, t) && IsLock(s, x)
    ensures var r := TakeThen(s, c, t, x, pc); r.Some? ==> OpKept(s, r.value, t, pc)
  {
  }

  lemma DropKeeps(s: State, c: nat, t: nat, x: LockId, pc: Pc)
    requires Shape(s) && OnHart(s, c, t) && IsLock(s, x)
    ensures var r := DropThen(s, c, t, x, pc); r.Some? && OpKept(s, r.value, t, pc)
  {
  }

  lemma ShapeOf(s: State)
    requires Typed(s)
    ensures Shape(s)
  {
  }

  predicate OpKept(s: State, s': State, t: nat, pc: Pc)
    requires t < |s.tasks|
  {
    && |s'.tasks| == |s.tasks| && s'.tasks[t].pc == pc && s'.tasks[t].owned == s.tasks[t].owned
    && s'.panic in {s.panic, Reacquire, NotHolder}
  }

  lemma StepCalls(s: State, c: nat, ch: Choice)
    requires Inv(s) && InvCalls(s) && c < |s.harts| && Disciplined(s, c, ch) && Step(s, c, ch).Some?
    ensures InvCalls(Step(s, c, ch).value)
  {
    hide InvHold, InvOn, InvWait, InvOwner, InvLocked, InvWoken, TaskStep;
    HartTyped(s, c);
    StepInv(s, c, ch);
    var s' := Step(s, c, ch).value;
    if s.harts[c].Running? {
      var t := s.harts[c].t;
      TaskStepOwn(s, c, t, ch.op);
      forall u | 0 <= u < |s'.tasks| ensures CallOk(s'.tasks[u]) {
        if u != t { TaskStepOthers(s, c, t, ch.op, u); }
      }
    }
  }

  ghost predicate DisciplinedRun(s: State, moves: seq<Move>, s': State)
    decreases |moves|
  {
    if moves == [] then s' == s else
    && Typed(s) && moves[0].hart < |s.harts| && Disciplined(s, moves[0].hart, moves[0].choice)
    && var r := Step(s, moves[0].hart, moves[0].choice);
       r.Some? && DisciplinedRun(r.value, moves[1..], s')
  }

  lemma {:induction false} DisciplinedRunCalls(s: State, moves: seq<Move>, s': State)
    requires Inv(s) && InvCalls(s) && DisciplinedRun(s, moves, s')
    ensures InvCalls(s')
    decreases |moves|
  {
    hide Inv, InvCalls, Step, Typed, Disciplined;
    if moves != [] {
      StepInv(s, moves[0].hart, moves[0].choice);
      StepCalls(s, moves[0].hart, moves[0].choice);
      DisciplinedRunCalls(Step(s, moves[0].hart, moves[0].choice).value, moves[1..], s');
    }
  }

  /** Disciplined callers never make the kernel panic, over any run. */
  lemma DisciplinedNeverPanics(s0: State, moves: seq<Move>, s: State)
    requires Init(s0) && DisciplinedRun(s0, moves, s)
    ensures s.panic == NoPanic
  {
    InitInv(s0);
    hide Inv, DisciplinedRun;
    DisciplinedRunCalls(s0, moves, s);
  }
}
