/** The whole runtime as one step system: worker threads in Scheduler::run, fibers inside
    do_io and sleep, the event registry, the timer queue and the shared task list. */
module Runtime {
  import opened Common
  import opened Tasks
  import TaskQueue
  import Registry
  import Timers

  // ---------- fibers ----------

  datatype FiberState = INIT | EXEC | READY | HOLD | EXCEPT | TERM

  /** Where a fiber is in its own code. `op` names the timer_info of one do_io call,
      `timer` the address of the timeout it armed, if any. */
  datatype Phase =
    | Code                                               // outside do_io and sleep
    | Wake(sleeper: FiberId)                             // body of sleep's callback
    | Expiring(op: nat, fd: nat, ev: Event)              // body of do_io's timeout, before the test
    | Cancelling(op: nat, fd: nat, ev: Event)            // ... about to call cancelEvent
    | IoTry(op: nat, fd: nat, ev: Event)                 // at the retry label
    | IoTimed(op: nat, fd: nat, ev: Event, timer: Option<nat>)    // EAGAIN, timeout armed, addEvent next
    | IoArmed(op: nat, fd: nat, ev: Event, timer: Option<nat>)    // addEvent succeeded, then suspended
    | IoResumed(op: nat, fd: nat, ev: Event, timer: Option<nat>)  // resumed, timer->cancel() next
    | IoCheck(op: nat, fd: nat, ev: Event)               // test of tinfo->cancelled
    | SleepArmed                                         // addTimer done, then suspended

  predicate Armed(p: Phase) { p.IoArmed? || p.SleepArmed? }

  datatype Fiber = Fiber(state: FiberState, phase: Phase)

  // ---------- workers ----------

  datatype Pc =
    | Scan                                               // top of the loop in run
    | Took(task: Task)                                   // entry erased, ++m_activethreadcount done
    | Running(f: FiberId)                                // inside swapIn
    | Requeue(f: FiberId)                                // READY, counter decremented, schedule(f) next
    | NoTask                                             // nothing was eligible
    | IdleTimers                                         // idle: getNextTimer
    | IdlePending                                        // idle: m_pendingEventCount == 0
    | IdleStopping                                       // idle: Scheduler::stopping
    | Poll                                               // idle: epoll_wait, then listExpiredCb
    | Expired(cbs: seq<Callback>)                        // idle: about to schedule the expired callbacks
    | Delivering                                         // idle: loop over the delivered events
    | Left                                               // returned from run

  /** idleDone: the idle fiber has reached TERM. cbFiber: the cached callback fiber. */
  datatype Worker = Worker(pc: Pc, idleDone: bool, cbFiber: Option<FiberId>)

  datatype State = State(
    workers: seq<Worker>, fibers: seq<Fiber>, queue: TaskQueue.Queue,
    active: int, idle: int, stopped: bool,
    reg: Registry.Registry, timers: Timers.TimerQueue, nextAddr: nat,
    ops: map<nat, bool>, nextOp: nat,
    aborted: bool)

  function Init(threads: nat): State {
    State(seq(threads, i => Worker(Scan, false, None)), [], TaskQueue.EmptyQueue, 0, 0, false,
          Registry.Fresh, Timers.TimerQueue([], false, 0), 0, map[], 0, false)
  }

  /** One step of Scheduler::run. */
  datatype RunStep = Pick | Begin | Resched | EnterIdle

  /** One step of IOManager::idle. */
  datatype IdleStep =
    | CheckTimers
    | CheckPending
    | CheckStopping
    | ListExpired(now: nat)
    | ScheduleExpired
    | DeliverEvent(fd: nat, delivered: Registry.Mask, hangup: bool, ok: bool)
    | LeaveIdle

  /** One step of application code in the fiber a worker is running. */
  datatype AppStep =
    | SpawnFiber(pin: Option<nat>)
    | SpawnCallback(id: nat, pin: Option<nat>)
    | StartTimer(id: nat, ms: nat, recurring: bool, now: nat)
    | AddCallbackEvent(fd: nat, ev: Event, id: nat, ok: bool)
    | DelCallbackEvent(fd: nat, ev: Event, ok: bool)
    | CancelOne(fd: nat, ev: Event, ok: bool)
    | CancelBoth(fd: nat, ok: bool)
    | YieldReady
    | Finish(threw: bool)

  /** One step of do_io, of sleep, of a suspension, or of the callbacks they bind. */
  datatype WaitStep =
    | IoBegin(fd: nat, ev: Event)
    | IoReturn
    | IoAgain(timeout: Option<nat>, now: nat)
    | IoRegister(ok: bool)
    | IoCancelTimer
    | IoTest
    | SleepBegin(ms: nat, now: nat)
    | Suspend
    | RunWake
    | RunTimeout
    | RunCancel(ok: bool)

  datatype Action =
    | ExternalSchedule(id: nat, pin: Option<nat>)
    | Stop
    | InRun(w: nat, run: RunStep)
    | InIdle(w: nat, idle: IdleStep)
    | InApp(w: nat, app: AppStep)
    | InWait(w: nat, wait: WaitStep)

  // ---------- small steps ----------

  function SetWorker(s: State, w: nat, k: Worker): State
    requires w < |s.workers|
  {
    s.(workers := s.workers[w := k])
  }

  function SetFiber(s: State, f: FiberId, fb: Fiber): State
    requires f < |s.fibers|
  {
    s.(fibers := s.fibers[f := fb])
  }

  function Executing(fibers: seq<Fiber>): set<FiberId> {
    set f: FiberId | 0 <= f < |fibers| && fibers[f].state == EXEC
  }

  predicate Runs(s: State, w: nat) {
    w < |s.workers| && s.workers[w].pc.Running? && s.workers[w].pc.f < |s.fibers|
  }

  /** The phase of the fiber that worker w is running, if it is running one. */
  function PhaseOf(s: State, w: nat): Option<Phase> {
    if Runs(s, w) then Some(s.fibers[s.workers[w].pc.f].phase) else None
  }

  function SetPhase(s: State, w: nat, p: Phase): State
    requires Runs(s, w)
  {
    var f := s.workers[w].pc.f;
    SetFiber(s, f, s.fibers[f].(phase := p))
  }

  function Enqueue(s: State, t: Task, pin: Option<nat>): State {
    s.(queue := TaskQueue.Push(s.queue, t, pin))
  }

  /** The state after a registry call: continuations woken by it are scheduled. */
  function AfterRegistry(s: State, out: Registry.Outcome): State {
    match out
    case Abort => s.(aborted := true)
    case Refused(r) => s.(reg := r)
    case Done(r, woken) => s.(reg := r, queue := TaskQueue.PushAll(s.queue, woken))
  }

  function StartPhase(cb: Callback): Phase {
    match cb
    case UserTask(_) => Code
    case WakeSleeper(f) => Wake(f)
    case IoTimeout(op, fd, ev) => Expiring(op, fd, ev)
  }

  /** What a fiber finds when swapIn returns control to it. */
  function ResumePhase(p: Phase): Phase {
    match p
    case IoArmed(op, fd, ev, timer) => IoResumed(op, fd, ev, timer)
    case SleepArmed => Code
    case _ => p
  }

  predicate Stopping(s: State) {
    s.stopped && s.queue.entries == [] && s.active == 0
  }

  // ---------- Scheduler::run ----------

  function DoPick(s: State, w: nat): Option<State> {
    if w >= |s.workers| || s.workers[w].pc != Scan then None
    else
      var k := TaskQueue.FirstEligible(s.queue.entries, w, Executing(s.fibers));
      if k < |s.queue.entries| then
        Some(SetWorker(s, w, s.workers[w].(pc := Took(s.queue.entries[k].task)))
             .(queue := TaskQueue.TakeAt(s.queue, k), active := s.active + 1))
      else Some(SetWorker(s, w, s.workers[w].(pc := NoTask)))
  }

  /** swapIn of a suspended or new fiber. */
  function Resume(s: State, w: nat, f: FiberId): State
    requires w < |s.workers| && f < |s.fibers|
  {
    SetFiber(SetWorker(s, w, s.workers[w].(pc := Running(f))), f, Fiber(EXEC, ResumePhase(s.fibers[f].phase)))
  }

  /** A callback started in a new fiber. */
  function StartFresh(s: State, w: nat, cb: Callback): State
    requires w < |s.workers|
  {
    SetWorker(s, w, s.workers[w].(pc := Running(|s.fibers|), cbFiber := Some(|s.fibers|)))
    .(fibers := s.fibers + [Fiber(EXEC, StartPhase(cb))])
  }

  /** A callback started in the cached fiber, after reset(cb). */
  function StartCached(s: State, w: nat, f: FiberId, cb: Callback): State
    requires w < |s.workers| && f < |s.fibers|
  {
    SetFiber(SetWorker(s, w, s.workers[w].(pc := Running(f))), f, Fiber(EXEC, StartPhase(cb)))
  }

  function DoBegin(s: State, w: nat): Option<State> {
    if w >= |s.workers| || !s.workers[w].pc.Took? then None
    else match s.workers[w].pc.task
      case FiberTask(f) =>
        if f >= |s.fibers| then None
        else if s.fibers[f].state == TERM || s.fibers[f].state == EXCEPT then
          Some(SetWorker(s, w, s.workers[w].(pc := Scan)).(active := s.active - 1))
        else if s.fibers[f].state == EXEC then Some(s.(aborted := true))
        else Some(Resume(s, w, f))
      case CbTask(cb) =>
        match s.workers[w].cbFiber
        case None => Some(StartFresh(s, w, cb))
        case Some(f) =>
          if f >= |s.fibers| then None
          else if s.fibers[f].state !in {INIT, TERM, EXCEPT} then Some(s.(aborted := true))
          else Some(StartCached(s, w, f, cb))
  }

  function DoResched(s: State, w: nat): Option<State> {
    if w >= |s.workers| || !s.workers[w].pc.Requeue? then None
    else Some(Enqueue(SetWorker(s, w, s.workers[w].(pc := Scan)), FiberTask(s.workers[w].pc.f), None))
  }

  /** The idle branch of run: leave when the idle fiber has ended, otherwise enter it. */
  function DoEnterIdle(s: State, w: nat): Option<State> {
    if w >= |s.workers| || s.workers[w].pc != NoTask then None
    else if s.workers[w].idleDone then Some(SetWorker(s, w, s.workers[w].(pc := Left)))
    else Some(SetWorker(s, w, s.workers[w].(pc := IdleTimers)).(idle := s.idle + 1))
  }

  // ---------- IOManager::idle ----------

  function DoCheckTimers(s: State, w: nat): Option<State> {
    if w >= |s.workers| || s.workers[w].pc != IdleTimers then None
    else Some(SetWorker(s, w, s.workers[w].(pc := if s.timers.timers == [] then IdlePending else Poll))
              .(timers := s.timers.(tickled := false)))
  }

  function DoCheckPending(s: State, w: nat): Option<State> {
    if w >= |s.workers| || s.workers[w].pc != IdlePending then None
    else Some(SetWorker(s, w, s.workers[w].(pc := if s.reg.pending == 0 then IdleStopping else Poll)))
  }

  function DoCheckStopping(s: State, w: nat): Option<State> {
    if w >= |s.workers| || s.workers[w].pc != IdleStopping then None
    else if Stopping(s) then
      Some(SetWorker(s, w, s.workers[w].(pc := Scan, idleDone := true)).(idle := s.idle - 1))
    else Some(SetWorker(s, w, s.workers[w].(pc := Poll)))
  }

  function DoListExpired(s: State, w: nat, now: nat): Option<State> {
    if w >= |s.workers| || s.workers[w].pc != Poll then None
    else
      var (cbs, q) := Timers.Expire(s.timers, now);
      Some(SetWorker(s, w, s.workers[w].(pc := Expired(cbs))).(timers := q))
  }

  function AsTasks(cbs: seq<Callback>): (ts: seq<Task>)
    ensures |ts| == |cbs|
    ensures forall i :: 0 <= i < |cbs| ==> ts[i] == CbTask(cbs[i])
  {
    seq(|cbs|, i requires 0 <= i < |cbs| => CbTask(cbs[i]))
  }

  function DoScheduleExpired(s: State, w: nat): Option<State> {
    if w >= |s.workers| || !s.workers[w].pc.Expired? then None
    else Some(SetWorker(s, w, s.workers[w].(pc := Delivering))
              .(queue := TaskQueue.PushAll(s.queue, AsTasks(s.workers[w].pc.cbs))))
  }

  function DoDeliver(s: State, w: nat, fd: nat, delivered: Registry.Mask, hangup: bool, ok: bool): Option<State> {
    if w >= |s.workers| || s.workers[w].pc != Delivering || fd >= |s.reg.fds| then None
    else Some(AfterRegistry(s, Registry.Deliver(s.reg, fd, delivered, hangup, ok)))
  }

  function DoLeaveIdle(s: State, w: nat): Option<State> {
    if w >= |s.workers| || s.workers[w].pc != Delivering then None
    else Some(SetWorker(s, w, s.workers[w].(pc := Scan)).(idle := s.idle - 1))
  }

  // ---------- application code ----------

  function DoSpawnFiber(s: State, w: nat, pin: Option<nat>): Option<State> {
    if PhaseOf(s, w) != Some(Code) then None
    else Some(Enqueue(s.(fibers := s.fibers + [Fiber(INIT, Code)]), FiberTask(|s.fibers|), pin))
  }

  function DoSpawnCallback(s: State, w: nat, id: nat, pin: Option<nat>): Option<State> {
    if PhaseOf(s, w) != Some(Code) then None
    else Some(Enqueue(s, CbTask(UserTask(id)), pin))
  }

  function ArmTimer(s: State, ms: nat, recurring: bool, cb: Callback, now: nat): State {
    s.(timers := Timers.AddTimer(s.timers, Timers.TimerRec(s.nextAddr, Timers.Deadline(now, ms), ms, recurring, cb)),
       nextAddr := s.nextAddr + 1)
  }

  function DoStartTimer(s: State, w: nat, id: nat, ms: nat, recurring: bool, now: nat): Option<State> {
    if PhaseOf(s, w) != Some(Code) then None
    else Some(ArmTimer(s, ms, recurring, UserTask(id), now))
  }

  function DoAddCallbackEvent(s: State, w: nat, fd: nat, ev: Event, id: nat, ok: bool): Option<State> {
    if PhaseOf(s, w) != Some(Code) then None
    else Some(AfterRegistry(s, Registry.AddEvent(s.reg, fd, ev, CbTask(UserTask(id)), ok)))
  }

  /** The application deletes only registrations of its own callbacks, not a waiting fiber. */
  predicate Deletable(ctx: Registry.EventContext) {
    ctx.fiber.None? && (ctx.cb.Some? ==> ctx.cb.value.UserTask?)
  }

  function DoDelCallbackEvent(s: State, w: nat, fd: nat, ev: Event, ok: bool): Option<State> {
    if PhaseOf(s, w) != Some(Code) || (fd < |s.reg.fds| && !Deletable(s.reg.fds[fd].Context(ev))) then None
    else Some(AfterRegistry(s, Registry.DelEvent(s.reg, fd, ev, ok)))
  }

  function DoCancelOne(s: State, w: nat, fd: nat, ev: Event, ok: bool): Option<State> {
    if PhaseOf(s, w) != Some(Code) then None
    else Some(AfterRegistry(s, Registry.CancelEvent(s.reg, fd, ev, ok)))
  }

  function DoCancelBoth(s: State, w: nat, fd: nat, ok: bool): Option<State> {
    if PhaseOf(s, w) != Some(Code) then None
    else Some(AfterRegistry(s, Registry.CancelAll(s.reg, fd, ok)))
  }

  /** The worker that ran a fiber which is not finished: a callback fiber is given up. */
  function Release(k: Worker, pc: Pc): Worker
    requires k.pc.Running?
  {
    Worker(pc, k.idleDone, if k.cbFiber == Some(k.pc.f) then None else k.cbFiber)
  }

  /** YieldToReady, up to and including the decrement of the active counter. */
  function DoYieldReady(s: State, w: nat): Option<State> {
    if PhaseOf(s, w) != Some(Code) then None
    else
      var f := s.workers[w].pc.f;
      Some(SetFiber(SetWorker(s, w, Release(s.workers[w], Requeue(f))), f, Fiber(READY, Code)).(active := s.active - 1))
  }

  /** The fiber's function returns or throws. A callback fiber is reset and kept. */
  function DoFinish(s: State, w: nat, threw: bool): Option<State> {
    if PhaseOf(s, w) != Some(Code) then None
    else
      var f := s.workers[w].pc.f;
      var ended := if s.workers[w].cbFiber == Some(f) then INIT else if threw then EXCEPT else TERM;
      Some(SetFiber(SetWorker(s, w, s.workers[w].(pc := Scan)), f, Fiber(ended, Code))
           .(active := s.active - 1))
  }

  // ---------- do_io ----------

  function DoIoBegin(s: State, w: nat, fd: nat, ev: Event): Option<State> {
    if PhaseOf(s, w) != Some(Code) then None
    else Some(SetPhase(s, w, IoTry(s.nextOp, fd, ev)).(ops := s.ops[s.nextOp := false], nextOp := s.nextOp + 1))
  }

  /** The call succeeded or failed for good: do_io returns and its timer_info is released. */
  function DoIoReturn(s: State, w: nat): Option<State> {
    match PhaseOf(s, w)
    case Some(IoTry(op, fd, ev)) => Some(SetPhase(s, w, Code).(ops := s.ops - {op}))
    case _ => None
  }

  function DoIoAgain(s: State, w: nat, timeout: Option<nat>, now: nat): Option<State> {
    match PhaseOf(s, w)
    case Some(IoTry(op, fd, ev)) =>
      (match timeout
       case None => Some(SetPhase(s, w, IoTimed(op, fd, ev, None)))
       case Some(ms) =>
         Some(ArmTimer(SetPhase(s, w, IoTimed(op, fd, ev, Some(s.nextAddr))), ms, false, IoTimeout(op, fd, ev), now)))
    case _ => None
  }

  function CancelTimer(s: State, timer: Option<nat>): State {
    if timer.None? then s else s.(timers := Timers.CancelTimer(s.timers, timer.value))
  }

  function DoIoRegister(s: State, w: nat, ok: bool): Option<State> {
    match PhaseOf(s, w)
    case Some(IoTimed(op, fd, ev, timer)) =>
      var out := Registry.AddEvent(s.reg, fd, ev, FiberTask(s.workers[w].pc.f), ok);
      if out.Refused? then
        Some(CancelTimer(SetPhase(s.(reg := out.reg), w, Code).(ops := s.ops - {op}), timer))
      else if out.Done? then Some(SetPhase(s.(reg := out.reg), w, IoArmed(op, fd, ev, timer)))
      else Some(s.(aborted := true))
    case _ => None
  }

  function DoIoCancelTimer(s: State, w: nat): Option<State> {
    match PhaseOf(s, w)
    case Some(IoResumed(op, fd, ev, timer)) => Some(CancelTimer(SetPhase(s, w, IoCheck(op, fd, ev)), timer))
    case _ => None
  }

  /** tinfo->cancelled set: return with ETIMEDOUT; otherwise go back to retry. */
  function DoIoTest(s: State, w: nat): Option<State> {
    match PhaseOf(s, w)
    case Some(IoCheck(op, fd, ev)) =>
      if op in s.ops && s.ops[op] then Some(SetPhase(s, w, Code).(ops := s.ops - {op}))
      else Some(SetPhase(s, w, IoTry(op, fd, ev)))
    case _ => None
  }

  // ---------- sleep, suspension ----------

  function DoSleepBegin(s: State, w: nat, ms: nat, now: nat): Option<State> {
    if PhaseOf(s, w) != Some(Code) then None
    else Some(ArmTimer(SetPhase(s, w, SleepArmed), ms, false, WakeSleeper(s.workers[w].pc.f), now))
  }

  /** YieldToHold, the switch, and the rest of run's bookkeeping, as one step. */
  function DoSuspend(s: State, w: nat): Option<State> {
    match PhaseOf(s, w)
    case Some(p) =>
      if !Armed(p) then None
      else
        var f := s.workers[w].pc.f;
        Some(SetFiber(SetWorker(s, w, Release(s.workers[w], Scan)), f, Fiber(HOLD, p)).(active := s.active - 1))
    case None => None
  }

  // ---------- callback bodies ----------

  function DoRunWake(s: State, w: nat): Option<State> {
    match PhaseOf(s, w)
    case Some(Wake(f)) => Some(Enqueue(SetPhase(s, w, Code), FiberTask(f), None))
    case _ => None
  }

  /** The timeout's test: it acts only if the timer_info is alive and not yet marked. */
  function DoRunTimeout(s: State, w: nat): Option<State> {
    match PhaseOf(s, w)
    case Some(Expiring(op, fd, ev)) =>
      if op in s.ops && !s.ops[op] then Some(SetPhase(s, w, Cancelling(op, fd, ev)).(ops := s.ops[op := true]))
      else Some(SetPhase(s, w, Code))
    case _ => None
  }

  function DoRunCancel(s: State, w: nat, ok: bool): Option<State> {
    match PhaseOf(s, w)
    case Some(Cancelling(op, fd, ev)) =>
      Some(AfterRegistry(SetPhase(s, w, Code), Registry.CancelEvent(s.reg, fd, ev, ok)))
    case _ => None
  }

  // ---------- steps and runs ----------

  function StepRun(s: State, w: nat, a: RunStep): Option<State> {
    match a
    case Pick => DoPick(s, w)
    case Begin => DoBegin(s, w)
    case Resched => DoResched(s, w)
    case EnterIdle => DoEnterIdle(s, w)
  }

  function StepIdle(s: State, w: nat, a: IdleStep): Option<State> {
    match a
    case CheckTimers => DoCheckTimers(s, w)
    case CheckPending => DoCheckPending(s, w)
    case CheckStopping => DoCheckStopping(s, w)
    case ListExpired(now) => DoListExpired(s, w, now)
    case ScheduleExpired => DoScheduleExpired(s, w)
    case DeliverEvent(fd, m, hup, ok) => DoDeliver(s, w, fd, m, hup, ok)
    case LeaveIdle => DoLeaveIdle(s, w)
  }

  function StepApp(s: State, w: nat, a: AppStep): Option<State> {
    match a
    case SpawnFiber(pin) => DoSpawnFiber(s, w, pin)
    case SpawnCallback(id, pin) => DoSpawnCallback(s, w, id, pin)
    case StartTimer(id, ms, rec, now) => DoStartTimer(s, w, id, ms, rec, now)
    case AddCallbackEvent(fd, ev, id, ok) => DoAddCallbackEvent(s, w, fd, ev, id, ok)
    case DelCallbackEvent(fd, ev, ok) => DoDelCallbackEvent(s, w, fd, ev, ok)
    case CancelOne(fd, ev, ok) => DoCancelOne(s, w, fd, ev, ok)
    case CancelBoth(fd, ok) => DoCancelBoth(s, w, fd, ok)
    case YieldReady => DoYieldReady(s, w)
    case Finish(threw) => DoFinish(s, w, threw)
  }

  function StepWait(s: State, w: nat, a: WaitStep): Option<State> {
    match a
    case IoBegin(fd, ev) => DoIoBegin(s, w, fd, ev)
    case IoReturn => DoIoReturn(s, w)
    case IoAgain(timeout, now) => DoIoAgain(s, w, timeout, now)
    case IoRegister(ok) => DoIoRegister(s, w, ok)
    case IoCancelTimer => DoIoCancelTimer(s, w)
    case IoTest => DoIoTest(s, w)
    case SleepBegin(ms, now) => DoSleepBegin(s, w, ms, now)
    case Suspend => DoSuspend(s, w)
    case RunWake => DoRunWake(s, w)
    case RunTimeout => DoRunTimeout(s, w)
    case RunCancel(ok) => DoRunCancel(s, w, ok)
  }

  /** Tasks come from outside only before stop(); nothing happens after an abort. */
  function Step(s: State, a: Action): Option<State> {
    if s.aborted then None
    else match a
      case ExternalSchedule(id, pin) => if s.stopped then None else Some(Enqueue(s, CbTask(UserTask(id)), pin))
      case Stop => Some(s.(stopped := true))
      case InRun(w, r) => StepRun(s, w, r)
      case InIdle(w, i) => StepIdle(s, w, i)
      case InApp(w, p) => StepApp(s, w, p)
      case InWait(w, x) => StepWait(s, w, x)
  }

  /** The state after a list of actions, or None when one of them cannot happen. */
  function Run(s: State, acts: seq<Action>): Option<State>
    decreases |acts|
  {
    if acts == [] then Some(s)
    else match Step(s, acts[0]) case None => None case Some(t) => Run(t, acts[1..])
  }

  ghost predicate Reachable(threads: nat, s: State) {
    exists acts :: Run(Init(threads), acts) == Some(s)
  }
}
