/** Who schedules what, and when: the timers that are set and expire, the tasks that reach the list and
    the one that leaves it, and the registration a fiber waits on, over all reachable states. */
module Handover {
  import opened Common
  import opened Tasks
  import opened Runtime
  import TaskQueue
  import Scheduler
  import Registry
  import Timers
  import Wakeup
  import Timeouts
  import opened Behaviour

  // ---------- timers ----------

  /** The phase of the fiber that takes a step in its own code. */
  function Mover(s: State, w: nat): Phase
    requires Runs(s, w)
  {
    s.fibers[s.workers[w].pc.f].phase
  }

  /** The timer of a call, if it set one, is gone and the others are there. */
  ghost predicate Unset(s: State, t: State, timer: Option<nat>) {
    if timer.Some? then Timers.Loses(s.timers.timers, t.timers.timers, timer.value) else t.timers == s.timers
  }

  /** A timer is there besides the others, at an address that no timer had. */
  ghost predicate Sets(s: State, t: State, ms: nat, recurring: bool, cb: Callback, now: nat) {
    && Timers.Gains(s.timers.timers, t.timers.timers,
         Timers.TimerRec(s.nextAddr, (now + ms) % 0x1_0000_0000_0000_0000, ms, recurring, cb))
    && (forall x :: x in s.timers.timers ==> x.addr < s.nextAddr)
    && t.timers.previous == s.timers.previous
  }

  /** What each step does to the timers. */
  ghost predicate TimersMove(s: State, a: Action, t: State) {
    match a
    case InIdle(w, ListExpired(now)) =>
      && w < |t.workers| && t.workers[w].pc.Expired?
      && Timers.ExpiredBy(s.timers.timers, s.timers.previous, now, t.workers[w].pc.cbs, t.timers.timers)
      && t.timers.previous == (if s.timers.timers == [] then s.timers.previous else now)
    case InApp(_, StartTimer(id, ms, recurring, now)) => Sets(s, t, ms, recurring, UserTask(id), now)
    case InWait(w, SleepBegin(ms, now)) => Runs(s, w) && Sets(s, t, ms, false, WakeSleeper(s.workers[w].pc.f), now)
    case InWait(w, IoAgain(Some(ms), now)) =>
      && Runs(s, w) && Mover(s, w).IoTry? && Runs(t, w) && Mover(t, w).IoTimed? && Mover(t, w).timer == Some(s.nextAddr)
      && Sets(s, t, ms, false, IoTimeout(Mover(s, w).op, Mover(s, w).fd, Mover(s, w).ev), now)
    case InWait(w, IoCancelTimer) => Runs(s, w) && Mover(s, w).IoResumed? && Unset(s, t, Mover(s, w).timer)
    case InWait(w, IoRegister(ok)) =>
      && Runs(s, w) && Mover(s, w).IoTimed?
      && Unset(s, t, if !ok && !IsRegistered(s, Mover(s, w).fd, Mover(s, w).ev) then Mover(s, w).timer else None)
    case _ => t.timers.timers == s.timers.timers && t.timers.previous == s.timers.previous
  }

  ghost predicate TimersSane(s: State) { Timers.WellFormed(s.timers.timers) }

  /** Timers are set by addTimer, sleep and do_io alone, for the time asked; they go away by expiring, or
      when the call that set them is over; nothing else touches them. */
  lemma StepTimers(s: State, a: Action, t: State)
    requires Wakeup.Inv(s) && TimersSane(s) && Step(s, a) == Some(t)
    ensures TimersMove(s, a, t) && TimersSane(t)
  {
    match a {
      case InRun(w, r) =>
      case InIdle(w, i) => IdleTimersMove(s, w, i, t);
      case InApp(w, p) => AppTimers(s, w, p, t);
      case InWait(w, x) => WaitTimers(s, w, x, t);
      case _ =>
    }
  }

  lemma IdleTimersMove(s: State, w: nat, i: IdleStep, t: State)
    requires TimersSane(s) && StepIdle(s, w, i) == Some(t)
    ensures TimersMove(s, InIdle(w, i), t) && TimersSane(t)
  {
    if i.ListExpired? {
      Timers.ExpireDoes(s.timers, i.now);
      Timers.ExpireKeeps(s.timers, i.now);
    }
  }

  lemma Arms(s: State, u: State, ms: nat, recurring: bool, cb: Callback, now: nat)
    requires Wakeup.TimersOk(s) && TimersSane(s) && u.timers == s.timers && u.nextAddr == s.nextAddr
    ensures Sets(s, ArmTimer(u, ms, recurring, cb, now), ms, recurring, cb, now)
    ensures TimersSane(ArmTimer(u, ms, recurring, cb, now))
  {
    var ts, rec := s.timers.timers, Timers.TimerRec(s.nextAddr, Timers.Deadline(now, ms), ms, recurring, cb);
    forall i | 0 <= i < |ts| ensures ts[i].addr != s.nextAddr { assert ts[i] in ts; }
    Timers.InsertDoes(ts, rec);
    Timers.InsertKeeps(ts, rec);
  }

  lemma AppTimers(s: State, w: nat, p: AppStep, t: State)
    requires Wakeup.TimersOk(s) && TimersSane(s) && StepApp(s, w, p) == Some(t)
    ensures TimersMove(s, InApp(w, p), t) && TimersSane(t)
  {
    if p.StartTimer? { Arms(s, s, p.ms, p.recurring, UserTask(p.id), p.now); }
  }

  lemma WaitTimers(s: State, w: nat, x: WaitStep, t: State)
    requires Wakeup.TimersOk(s) && Registry.Consistent(s.reg) && TimersSane(s) && StepWait(s, w, x) == Some(t)
    ensures TimersMove(s, InWait(w, x), t) && TimersSane(t)
  {
    match x {
      case SleepBegin(ms, now) => Arms(s, SetPhase(s, w, SleepArmed), ms, false, WakeSleeper(s.workers[w].pc.f), now);
      case IoAgain(timeout, now) => AgainTimers(s, w, timeout, now, t);
      case IoCancelTimer => CancelTimers(s, w, t);
      case IoRegister(ok) => RegisterTimers(s, w, ok, t);
      case RunCancel(ok) =>
        RegistryAlone(SetPhase(s, w, Code), Registry.CancelEvent(s.reg, Mover(s, w).fd, Mover(s, w).ev, ok));
      case _ =>
    }
  }

  lemma AgainTimers(s: State, w: nat, timeout: Option<nat>, now: nat, t: State)
    requires Wakeup.TimersOk(s) && TimersSane(s) && DoIoAgain(s, w, timeout, now) == Some(t)
    ensures TimersMove(s, InWait(w, IoAgain(timeout, now)), t) && TimersSane(t)
  {
    var p := Mover(s, w);
    if timeout.Some? {
      Arms(s, SetPhase(s, w, IoTimed(p.op, p.fd, p.ev, Some(s.nextAddr))), timeout.value, false, IoTimeout(p.op, p.fd, p.ev), now);
    }
  }

  lemma Unsets(s: State, u: State, timer: Option<nat>)
    requires TimersSane(s) && u.timers == s.timers
    ensures Unset(s, CancelTimer(u, timer), timer) && TimersSane(CancelTimer(u, timer))
  {
    if timer.Some? {
      Timers.DropDoes(s.timers.timers, timer.value);
      Timers.DropKeeps(s.timers.timers, timer.value);
    }
  }

  lemma CancelTimers(s: State, w: nat, t: State)
    requires TimersSane(s) && DoIoCancelTimer(s, w) == Some(t)
    ensures TimersMove(s, InWait(w, IoCancelTimer), t) && TimersSane(t)
  {
    var p := Mover(s, w);
    Unsets(s, SetPhase(s, w, IoCheck(p.op, p.fd, p.ev)), p.timer);
  }

  lemma RegisterTimers(s: State, w: nat, ok: bool, t: State)
    requires Registry.Consistent(s.reg) && TimersSane(s) && DoIoRegister(s, w, ok) == Some(t)
    ensures TimersMove(s, InWait(w, IoRegister(ok)), t) && TimersSane(t)
  {
    var p, f := Mover(s, w), s.workers[w].pc.f;
    var out := Registry.AddEvent(s.reg, p.fd, p.ev, FiberTask(f), ok);
    Registry.AddDoes(s.reg, p.fd, p.ev, FiberTask(f), ok);
    if out.Refused? {
      Unsets(s, SetPhase(s.(reg := out.reg), w, Code).(ops := s.ops - {p.op}), p.timer);
    }
  }

  lemma {:induction false} SaneRun(s: State, acts: seq<Action>)
    requires Wakeup.Inv(s) && TimersSane(s) && Run(s, acts).Some?
    ensures TimersSane(Run(s, acts).value)
    decreases |acts|
  {
    if acts != [] {
      var t := Step(s, acts[0]).value;
      StepTimers(s, acts[0], t);
      Wakeup.StepKeeps(s, acts[0]);
      SaneRun(t, acts[1..]);
    }
  }

  lemma ReachableSane(threads: nat, s: State)
    requires Reachable(threads, s)
    ensures Wakeup.Inv(s) && TimersSane(s)
  {
    var acts :| Run(Init(threads), acts) == Some(s);
    Wakeup.InitInv(threads);
    SaneRun(Init(threads), acts);
    Wakeup.ReachableInv(threads, s);
  }

  /** In every reachable state the timers are in order, one to an address; they are set by addTimer,
      sleep and do_io alone, for the time asked; they go away by expiring, or when the call that set
      them is over; and nothing else touches them. */
  lemma EveryTimerMoves(threads: nat, s: State, a: Action, t: State)
    requires Reachable(threads, s) && Step(s, a) == Some(t)
    ensures TimersSane(s) && TimersMove(s, a, t)
  {
    ReachableSane(threads, s);
    StepTimers(s, a, t);
  }

  // ---------- the task list ----------

  /** The continuations of the events in m, when they are taken out of fd's entry. */
  function TakenOut(r: Registry.Registry, fd: nat, m: Registry.Mask, ok: bool): seq<Task>
    requires Registry.Consistent(r)
  {
    if ok && fd < |r.fds| && (m.read || m.write)
       && (m.read ==> r.fds[fd].events.read) && (m.write ==> r.fds[fd].events.write)
    then assert Registry.FdOk(r.fds[fd]); Registry.Both(r.fds[fd], m)
    else []
  }

  /** The tasks a step puts on the list, in order. */
  function Handed(s: State, a: Action): seq<Task>
    requires Registry.Consistent(s.reg)
  {
    match a
    case ExternalSchedule(id, _) => [CbTask(UserTask(id))]
    case Stop => []
    case InRun(w, r) => if r.Resched? && w < |s.workers| && s.workers[w].pc.Requeue? then [FiberTask(s.workers[w].pc.f)] else []
    case InIdle(w, i) =>
      (match i
       case ScheduleExpired =>
         if w < |s.workers| && s.workers[w].pc.Expired?
         then seq(|s.workers[w].pc.cbs|, j requires 0 <= j < |s.workers[w].pc.cbs| => CbTask(s.workers[w].pc.cbs[j]))
         else []
       case DeliverEvent(fd, m, hup, ok) =>
         if fd < |s.reg.fds|
         then TakenOut(s.reg, fd, Registry.Mask(m.read || hup, m.write || (hup && s.reg.fds[fd].events.write)), ok)
         else []
       case _ => [])
    case InApp(w, p) =>
      (match p
       case SpawnFiber(_) => [FiberTask(|s.fibers|)]
       case SpawnCallback(id, _) => [CbTask(UserTask(id))]
       case CancelOne(fd, ev, ok) => TakenOut(s.reg, fd, Registry.Mask(ev == Read, ev == Write), ok)
       case CancelBoth(fd, ok) =>
         if fd < |s.reg.fds| && s.reg.fds[fd].events.read != s.reg.fds[fd].events.write
         then TakenOut(s.reg, fd, s.reg.fds[fd].events, ok)
         else []
       case _ => [])
    case InWait(w, x) =>
      if Runs(s, w) && x.RunWake? && Mover(s, w).Wake? then [FiberTask(Mover(s, w).sleeper)]
      else if Runs(s, w) && x.RunCancel? && Mover(s, w).Cancelling? then
        TakenOut(s.reg, Mover(s, w).fd, Registry.Mask(Mover(s, w).ev == Read, Mover(s, w).ev == Write), x.ok)
      else []
  }

  /** The thread they are for. */
  function PinOf(a: Action): Option<nat> {
    match a
    case ExternalSchedule(_, pin) => pin
    case InApp(_, SpawnFiber(pin)) => pin
    case InApp(_, SpawnCallback(_, pin)) => pin
    case _ => None
  }

  /** Worker w passes the first k entries: each is for another thread, or its fiber is executing. It
      takes the next one, or finds none. */
  predicate PickedAt(s: State, w: nat, t: State, k: nat)
    requires w < |t.workers|
  {
    var es, fs := s.queue.entries, t.queue.entries;
    && k <= |es| && Scheduler.StopsAt(es, w, (set f: FiberId | f < |s.fibers| && s.fibers[f].state == EXEC), k)
    && if k < |es| then fs == es[..k] + es[k + 1..] && t.workers[w].pc == Took(es[k].task)
       else fs == es && t.workers[w].pc == NoTask
  }

  predicate Picked(s: State, w: nat, t: State) {
    w < |t.workers| && exists k :: 0 <= k <= |s.queue.entries| && PickedAt(s, w, t, k)
  }

  ghost predicate ListMoves(s: State, a: Action, t: State)
    requires Registry.Consistent(s.reg)
  {
    match a
    case InRun(w, Pick) => Picked(s, w, t)
    case _ => TaskQueue.Appended(s.queue.entries, t.queue.entries, Handed(s, a), PinOf(a), s.queue.issued)
  }

  /** The list changes by one entry being taken, or at its back. What reaches it is exactly this: what
      is scheduled from outside or by a fiber, a fiber that yields, the callbacks of expired timers, the
      sleeper of a sleep that is over, and the continuations of events delivered or cancelled. */
  lemma StepList(s: State, a: Action, t: State)
    requires Wakeup.Inv(s) && Step(s, a) == Some(t)
    ensures ListMoves(s, a, t)
  {
    match a {
      case InRun(w, r) => RunList(s, w, r, t);
      case InIdle(w, i) => IdleList(s, w, i, t);
      case InApp(w, p) => AppList(s, w, p, t);
      case InWait(w, x) => WaitList(s, w, x, t);
      case _ =>
    }
  }

  lemma RunList(s: State, w: nat, r: RunStep, t: State)
    requires Registry.Consistent(s.reg) && StepRun(s, w, r) == Some(t)
    ensures ListMoves(s, InRun(w, r), t)
  {
    match r {
      case Pick => PickList(s, w, t);
      case Begin => BeginList(s, w, t);
      case _ =>
    }
  }

  lemma BeginList(s: State, w: nat, t: State)
    requires DoBegin(s, w) == Some(t)
    ensures t.queue == s.queue
  {
  }

  lemma PickList(s: State, w: nat, t: State)
    requires DoPick(s, w) == Some(t)
    ensures Picked(s, w, t)
  {
    var es := s.queue.entries;
    var k := TaskQueue.FirstEligible(es, w, Executing(s.fibers));
    assert Executing(s.fibers) == (set f: FiberId | f < |s.fibers| && s.fibers[f].state == EXEC);
    forall i | 0 <= i < k ensures Scheduler.Passed(es[..k][i], w, Executing(s.fibers)) { assert es[..k][i] == es[i]; }
    assert PickedAt(s, w, t, k);
  }

  /** After a registry call the list has what the call woke. */
  lemma RegistryList(s: State, out: Registry.Outcome)
    ensures TaskQueue.Appended(s.queue.entries, AfterRegistry(s, out).queue.entries,
              if out.Done? then out.woken else [], None, s.queue.issued)
  {
    if out.Done? { TaskQueue.PushAllAppends(s.queue, out.woken); }
  }

  lemma IdleList(s: State, w: nat, i: IdleStep, t: State)
    requires Registry.Consistent(s.reg) && StepIdle(s, w, i) == Some(t)
    ensures ListMoves(s, InIdle(w, i), t)
  {
    match i {
      case ScheduleExpired => TaskQueue.PushAllAppends(s.queue, AsTasks(s.workers[w].pc.cbs));
      case DeliverEvent(fd, m, hup, ok) => DeliverList(s, w, fd, m, hup, ok, t);
      case _ =>
    }
  }

  lemma DeliverList(s: State, w: nat, fd: nat, m: Registry.Mask, hup: bool, ok: bool, t: State)
    requires Registry.Consistent(s.reg) && DoDeliver(s, w, fd, m, hup, ok) == Some(t)
    ensures ListMoves(s, InIdle(w, DeliverEvent(fd, m, hup, ok)), t)
  {
    DeliverTakes(s.reg, fd, m, hup, ok);
    RegistryList(s, Registry.Deliver(s.reg, fd, m, hup, ok));
  }

  lemma DeliverTakes(r: Registry.Registry, fd: nat, m: Registry.Mask, hup: bool, ok: bool)
    requires Registry.Consistent(r) && fd < |r.fds|
    ensures var out := Registry.Deliver(r, fd, m, hup, ok);
      TakenOut(r, fd, Registry.Mask(m.read || hup, m.write || (hup && r.fds[fd].events.write)), ok)
        == if out.Done? then out.woken else []
  {
    Registry.DeliverDoes(r, fd, m, hup, ok);
  }

  lemma AppList(s: State, w: nat, p: AppStep, t: State)
    requires Registry.Consistent(s.reg) && StepApp(s, w, p) == Some(t)
    ensures ListMoves(s, InApp(w, p), t)
  {
    match p {
      case AddCallbackEvent(fd, ev, id, ok) => AddList(s, fd, ev, id, ok);
      case DelCallbackEvent(fd, ev, ok) => DelList(s, fd, ev, ok);
      case CancelOne(fd, ev, ok) => CancelList(s, fd, ev, ok);
      case CancelBoth(fd, ok) => CancelAllList(s, fd, ok);
      case _ =>
    }
  }

  lemma AddList(s: State, fd: nat, ev: Event, id: nat, ok: bool)
    requires Registry.Consistent(s.reg)
    ensures TaskQueue.Appended(s.queue.entries,
              AfterRegistry(s, Registry.AddEvent(s.reg, fd, ev, CbTask(UserTask(id)), ok)).queue.entries, [], None, s.queue.issued)
  {
    Registry.AddDoes(s.reg, fd, ev, CbTask(UserTask(id)), ok);
    RegistryList(s, Registry.AddEvent(s.reg, fd, ev, CbTask(UserTask(id)), ok));
  }

  lemma DelList(s: State, fd: nat, ev: Event, ok: bool)
    requires Registry.Consistent(s.reg)
    ensures TaskQueue.Appended(s.queue.entries,
              AfterRegistry(s, Registry.DelEvent(s.reg, fd, ev, ok)).queue.entries, [], None, s.queue.issued)
  {
    Registry.DelDoes(s.reg, fd, ev, ok);
    RegistryList(s, Registry.DelEvent(s.reg, fd, ev, ok));
  }

  lemma CancelAllList(s: State, fd: nat, ok: bool)
    requires Registry.Consistent(s.reg)
    ensures TaskQueue.Appended(s.queue.entries, AfterRegistry(s, Registry.CancelAll(s.reg, fd, ok)).queue.entries,
              if fd < |s.reg.fds| && s.reg.fds[fd].events.read != s.reg.fds[fd].events.write
              then TakenOut(s.reg, fd, s.reg.fds[fd].events, ok) else [],
              None, s.queue.issued)
  {
    Registry.CancelAllDoes(s.reg, fd, ok);
    RegistryList(s, Registry.CancelAll(s.reg, fd, ok));
  }

  lemma CancelList(s: State, fd: nat, ev: Event, ok: bool)
    requires Registry.Consistent(s.reg)
    ensures TaskQueue.Appended(s.queue.entries, AfterRegistry(s, Registry.CancelEvent(s.reg, fd, ev, ok)).queue.entries,
              TakenOut(s.reg, fd, Registry.Mask(ev == Read, ev == Write), ok), None, s.queue.issued)
  {
    Registry.CancelDoes(s.reg, fd, ev, ok);
    RegistryList(s, Registry.CancelEvent(s.reg, fd, ev, ok));
  }

  lemma WaitList(s: State, w: nat, x: WaitStep, t: State)
    requires Registry.Consistent(s.reg) && StepWait(s, w, x) == Some(t)
    ensures ListMoves(s, InWait(w, x), t)
  {
    if x.RunCancel? {
      CancelList(SetPhase(s, w, Code), Mover(s, w).fd, Mover(s, w).ev, x.ok);
    } else if x.IoRegister? {
      RegisterList(s, w, x.ok, t);
    }
  }

  lemma RegisterList(s: State, w: nat, ok: bool, t: State)
    requires DoIoRegister(s, w, ok) == Some(t)
    ensures t.queue == s.queue
  {
  }

  lemma EveryTaskHanded(threads: nat, s: State, a: Action, t: State)
    requires Reachable(threads, s) && Step(s, a) == Some(t)
    ensures Registry.Consistent(s.reg) && ListMoves(s, a, t)
  {
    Wakeup.ReachableInv(threads, s);
    StepList(s, a, t);
  }

  // ---------- the registration a fiber waits on ----------

  /** Fiber f is registered for event ev of descriptor fd. */
  predicate Waits(s: State, fd: nat, ev: Event, f: FiberId) { WaitsIn(s.reg, fd, ev, f) }

  /** The step delivers or cancels this event, which is registered. */
  predicate Takes(s: State, a: Action, fd: nat, ev: Event) {
    match a
    case InIdle(w, DeliverEvent(d, m, hup, ok)) =>
      && d == fd && fd < |s.reg.fds| && ok
      && var r, wr := m.read || hup, m.write || (hup && s.reg.fds[fd].events.write);
         (if ev == Read then r else wr) && (r ==> s.reg.fds[fd].events.read) && (wr ==> s.reg.fds[fd].events.write)
    case InApp(w, CancelOne(d, e, ok)) => d == fd && e == ev && ok
    case InApp(w, CancelBoth(d, ok)) =>
      d == fd && fd < |s.reg.fds| && ok && s.reg.fds[fd].events.read != s.reg.fds[fd].events.write
    case InWait(w, RunCancel(ok)) => Runs(s, w) && Mover(s, w).Cancelling? && Mover(s, w).fd == fd && Mover(s, w).ev == ev && ok
    case _ => false
  }

  /** Fiber f registers itself for the event its call is for. */
  predicate Registers(s: State, a: Action, fd: nat, ev: Event, f: FiberId) {
    && a.InWait? && a.wait == IoRegister(true) && Runs(s, a.w) && s.workers[a.w].pc.f == f
    && Mover(s, a.w).IoTimed? && Mover(s, a.w).fd == fd && Mover(s, a.w).ev == ev && !IsRegistered(s, fd, ev)
  }

  predicate WaitMoves(s: State, a: Action, r: Registry.Registry, fd: nat, ev: Event, f: FiberId) {
    WaitsIn(r, fd, ev, f) <==> Registers(s, a, fd, ev, f) || (Waits(s, fd, ev, f) && !Takes(s, a, fd, ev))
  }

  predicate WaitsIn(r: Registry.Registry, fd: nat, ev: Event, f: FiberId) {
    fd < |r.fds| && (if ev == Read then r.fds[fd].read.fiber else r.fds[fd].write.fiber) == Some(f)
  }

  lemma WaitsRegistered(s: State, fd: nat, ev: Event, f: FiberId)
    requires Registry.Consistent(s.reg) && Waits(s, fd, ev, f)
    ensures IsRegistered(s, fd, ev)
  {
    assert Registry.FdOk(s.reg.fds[fd]);
  }

  /** The registry after a call that fails no assertion, or before it. */
  function RegAfter(r: Registry.Registry, out: Registry.Outcome): Registry.Registry {
    if out.Abort? then r else out.reg
  }

  /** Events in `gone` have been taken out of entry d, if `taken`. */
  lemma ClearedWaits(r: Registry.Registry, r': Registry.Registry, d: nat, gone: Registry.Mask, taken: bool,
                     fd: nat, ev: Event, f: FiberId)
    requires d < |r.fds| && |r'.fds| == |r.fds|
    requires if taken then Registry.OnlyAt(r.fds, r'.fds, d) && Registry.Cleared(r.fds[d], r'.fds[d], gone)
             else r'.fds == r.fds
    ensures WaitsIn(r', fd, ev, f) <==> WaitsIn(r, fd, ev, f) && !(taken && d == fd && (if ev == Read then gone.read else gone.write))
  {
  }

  lemma DeliverWaits(r: Registry.Registry, d: nat, m: Registry.Mask, hup: bool, ok: bool, fd: nat, ev: Event, f: FiberId)
    requires Registry.Consistent(r) && d < |r.fds|
    ensures var c, out := r.fds[d], Registry.Deliver(r, d, m, hup, ok);
      var rd, wr := m.read || hup, m.write || (hup && c.events.write);
      WaitsIn(RegAfter(r, out), fd, ev, f) <==>
        WaitsIn(r, fd, ev, f) && !(d == fd && ok && (if ev == Read then rd else wr) && (rd ==> c.events.read) && (wr ==> c.events.write))
  {
    var c, out := r.fds[d], Registry.Deliver(r, d, m, hup, ok);
    var gone := Registry.Mask(m.read || hup, m.write || (hup && c.events.write));
    Registry.DeliverDoes(r, d, m, hup, ok);
    ClearedWaits(r, RegAfter(r, out), d, gone, out.Done?, fd, ev, f);
  }

  lemma CancelWaits(r: Registry.Registry, d: nat, e: Event, ok: bool, fd: nat, ev: Event, f: FiberId)
    requires Registry.Consistent(r)
    ensures WaitsIn(RegAfter(r, Registry.CancelEvent(r, d, e, ok)), fd, ev, f) <==>
            WaitsIn(r, fd, ev, f) && !(d == fd && e == ev && ok)
  {
    var out := Registry.CancelEvent(r, d, e, ok);
    Registry.CancelDoes(r, d, e, ok);
    if d < |r.fds| {
      assert Registry.FdOk(r.fds[d]);
      ClearedWaits(r, RegAfter(r, out), d, Registry.Mask(e == Read, e == Write), out.Done?, fd, ev, f);
    }
  }

  lemma CancelAllWaits(r: Registry.Registry, d: nat, ok: bool, fd: nat, ev: Event, f: FiberId)
    requires Registry.Consistent(r)
    ensures WaitsIn(RegAfter(r, Registry.CancelAll(r, d, ok)), fd, ev, f) <==>
            WaitsIn(r, fd, ev, f) && !(d == fd && ok && r.fds[fd].events.read != r.fds[fd].events.write)
  {
    var out := Registry.CancelAll(r, d, ok);
    Registry.CancelAllDoes(r, d, ok);
    if d < |r.fds| {
      ClearedWaits(r, RegAfter(r, out), d, Registry.Mask(true, true), out.Done?, fd, ev, f);
    }
  }

  /** The application deletes only what no fiber waits on. */
  lemma DelWaits(r: Registry.Registry, d: nat, e: Event, ok: bool, fd: nat, ev: Event, f: FiberId)
    requires Registry.Consistent(r) && (d < |r.fds| ==> Deletable(r.fds[d].Context(e)))
    ensures WaitsIn(RegAfter(r, Registry.DelEvent(r, d, e, ok)), fd, ev, f) <==> WaitsIn(r, fd, ev, f)
  {
    var out := Registry.DelEvent(r, d, e, ok);
    Registry.DelDoes(r, d, e, ok);
    if d < |r.fds| {
      ClearedWaits(r, RegAfter(r, out), d, Registry.Mask(e == Read, e == Write), out.Done?, fd, ev, f);
    }
  }

  lemma AddWaits(r: Registry.Registry, d: nat, e: Event, k: Task, ok: bool, fd: nat, ev: Event, f: FiberId)
    requires Registry.Consistent(r)
    ensures WaitsIn(RegAfter(r, Registry.AddEvent(r, d, e, k, ok)), fd, ev, f) <==>
      || WaitsIn(r, fd, ev, f)
      || (ok && d == fd && e == ev && k == FiberTask(f)
          && !(fd < |r.fds| && (if ev == Read then r.fds[fd].events.read else r.fds[fd].events.write)))
  {
    var out := Registry.AddEvent(r, d, e, k, ok);
    Registry.AddDoes(r, d, e, k, ok);
    if d < |r.fds| { assert Registry.FdOk(r.fds[d]); }
  }

  /** A fiber is registered by its own do_io, for the event of that call, and is taken out exactly when
      that event is delivered or cancelled. */
  lemma StepWaits(s: State, a: Action, t: State, fd: nat, ev: Event, f: FiberId)
    requires Wakeup.Inv(s) && Step(s, a) == Some(t)
    ensures WaitMoves(s, a, t.reg, fd, ev, f)
  {
    match a {
      case InRun(w, r) => RunReg(s, w, r, t);
      case InIdle(w, i) =>
        IdleRegIs(s, w, i, t);
        if i.DeliverEvent? { DeliverWaits(s.reg, i.fd, i.delivered, i.hangup, i.ok, fd, ev, f); }
      case InApp(w, p) =>
        AppRegIs(s, w, p, t);
        AppReg(s, w, p, fd, ev, f);
      case InWait(w, x) =>
        WaitRegIs(s, w, x, t);
        WaitReg(s, w, x, fd, ev, f);
      case _ =>
    }
  }

  lemma RunReg(s: State, w: nat, r: RunStep, t: State)
    requires StepRun(s, w, r) == Some(t)
    ensures t.reg == s.reg
  {
  }

  lemma IdleRegIs(s: State, w: nat, i: IdleStep, t: State)
    requires StepIdle(s, w, i) == Some(t)
    ensures match i
      case DeliverEvent(fd, m, hup, ok) =>
        fd < |s.reg.fds| && t.reg == RegAfter(s.reg, Registry.Deliver(s.reg, fd, m, hup, ok))
      case _ => t.reg == s.reg
  {
  }

  function AppRegistry(r: Registry.Registry, p: AppStep): Registry.Registry {
    match p
    case AddCallbackEvent(d, e, id, ok) => RegAfter(r, Registry.AddEvent(r, d, e, CbTask(UserTask(id)), ok))
    case DelCallbackEvent(d, e, ok) => RegAfter(r, Registry.DelEvent(r, d, e, ok))
    case CancelOne(d, e, ok) => RegAfter(r, Registry.CancelEvent(r, d, e, ok))
    case CancelBoth(d, ok) => RegAfter(r, Registry.CancelAll(r, d, ok))
    case _ => r
  }

  predicate AllowedOn(r: Registry.Registry, p: AppStep) {
    p.DelCallbackEvent? && p.fd < |r.fds| ==> Deletable(r.fds[p.fd].Context(p.ev))
  }

  lemma AppRegIs(s: State, w: nat, p: AppStep, t: State)
    requires StepApp(s, w, p) == Some(t)
    ensures AllowedOn(s.reg, p) && t.reg == AppRegistry(s.reg, p)
  {
  }

  lemma AppReg(s: State, w: nat, p: AppStep, fd: nat, ev: Event, f: FiberId)
    requires Registry.Consistent(s.reg) && AllowedOn(s.reg, p)
    ensures WaitMoves(s, InApp(w, p), AppRegistry(s.reg, p), fd, ev, f)
  {
    if p.AddCallbackEvent? {
      AddWaits(s.reg, p.fd, p.ev, CbTask(UserTask(p.id)), p.ok, fd, ev, f);
    } else {
      CancelReg(s, w, p, fd, ev, f);
    }
  }

  lemma CancelReg(s: State, w: nat, p: AppStep, fd: nat, ev: Event, f: FiberId)
    requires Registry.Consistent(s.reg) && AllowedOn(s.reg, p) && !p.AddCallbackEvent?
    ensures WaitMoves(s, InApp(w, p), AppRegistry(s.reg, p), fd, ev, f)
  {
    match p {
      case DelCallbackEvent(d, e, ok) => DelWaits(s.reg, d, e, ok, fd, ev, f);
      case CancelOne(d, e, ok) => CancelOneReg(s, w, d, e, ok, fd, ev, f);
      case CancelBoth(d, ok) => CancelAllWaits(s.reg, d, ok, fd, ev, f);
      case _ =>
    }
  }

  lemma CancelOneReg(s: State, w: nat, d: nat, e: Event, ok: bool, fd: nat, ev: Event, f: FiberId)
    requires Registry.Consistent(s.reg)
    ensures WaitMoves(s, InApp(w, CancelOne(d, e, ok)), AppRegistry(s.reg, CancelOne(d, e, ok)), fd, ev, f)
  {
    CancelWaits(s.reg, d, e, ok, fd, ev, f);
  }

  function WaitRegistry(s: State, w: nat, x: WaitStep): Registry.Registry
    requires Runs(s, w)
  {
    var p := Mover(s, w);
    if x.RunCancel? && p.Cancelling? then RegAfter(s.reg, Registry.CancelEvent(s.reg, p.fd, p.ev, x.ok))
    else if x.IoRegister? && p.IoTimed? then
      RegAfter(s.reg, Registry.AddEvent(s.reg, p.fd, p.ev, FiberTask(s.workers[w].pc.f), x.ok))
    else s.reg
  }

  lemma WaitRegIs(s: State, w: nat, x: WaitStep, t: State)
    requires StepWait(s, w, x) == Some(t)
    ensures Runs(s, w) && t.reg == WaitRegistry(s, w, x)
    ensures (x.RunCancel? ==> Mover(s, w).Cancelling?) && (x.IoRegister? ==> Mover(s, w).IoTimed?)
  {
    match x {
      case IoRegister(ok) => RegisterRegIs(s, w, ok, t);
      case RunCancel(ok) => CancelRegIs(s, w, ok, t);
      case _ =>
    }
  }

  lemma RegisterRegIs(s: State, w: nat, ok: bool, t: State)
    requires DoIoRegister(s, w, ok) == Some(t)
    ensures Runs(s, w) && Mover(s, w).IoTimed? && t.reg == WaitRegistry(s, w, IoRegister(ok))
  {
  }

  lemma CancelRegIs(s: State, w: nat, ok: bool, t: State)
    requires DoRunCancel(s, w, ok) == Some(t)
    ensures Runs(s, w) && Mover(s, w).Cancelling? && t.reg == WaitRegistry(s, w, RunCancel(ok))
  {
  }

  lemma WaitReg(s: State, w: nat, x: WaitStep, fd: nat, ev: Event, f: FiberId)
    requires Registry.Consistent(s.reg) && Runs(s, w)
    ensures WaitMoves(s, InWait(w, x), WaitRegistry(s, w, x), fd, ev, f)
  {
    var p := Mover(s, w);
    if x.RunCancel? && p.Cancelling? {
      CancelWaits(s.reg, p.fd, p.ev, x.ok, fd, ev, f);
    } else if x.IoRegister? && p.IoTimed? {
      AddWaits(s.reg, p.fd, p.ev, FiberTask(s.workers[w].pc.f), x.ok, fd, ev, f);
    }
  }

  /** A registered fiber is suspended, or about to be, in the call that registered it, for that event. */
  predicate WaitsAsAsked(s: State, fd: nat, ev: Event, f: FiberId) {
    Waits(s, fd, ev, f) ==>
      f < |s.fibers| && s.fibers[f].phase.IoArmed? && s.fibers[f].phase.fd == fd && s.fibers[f].phase.ev == ev
  }

  ghost predicate AllAsAsked(s: State) { forall fd: nat, ev, f: FiberId :: WaitsAsAsked(s, fd, ev, f) }

  /** A fiber that a worker is about to resume is registered nowhere. */
  lemma NotTwice(s: State, w: nat, fd: nat, ev: Event, f: FiberId)
    requires Wakeup.Inv(s) && w < |s.workers| && s.workers[w].pc == Took(FiberTask(f))
    ensures !Waits(s, fd, ev, f)
  {
    Wakeup.TookFacts(s, w, f);
    SumSplit(s.workers, w, Wakeup.WorkerTokens(f));
    if fd < |s.reg.fds| { SumSplit(s.reg.fds, fd, Registry.FdTokens(f)); }
  }

  lemma StepAsked(s: State, a: Action, t: State, fd: nat, ev: Event, f: FiberId)
    requires Wakeup.Inv(s) && Timeouts.T(s) && Step(s, a) == Some(t) && WaitsAsAsked(s, fd, ev, f)
    ensures WaitsAsAsked(t, fd, ev, f)
  {
    if Waits(t, fd, ev, f) {
      StepWaits(s, a, t, fd, ev, f);
      StepOnCall(s, a, t, f);
      if Waits(s, fd, ev, f) && Resumes(s, a, f) { NotTwice(s, a.w, fd, ev, f); }
    }
  }

  lemma {:induction false} AskedRun(s: State, acts: seq<Action>)
    requires Wakeup.Inv(s) && Timeouts.T(s) && AllAsAsked(s) && Run(s, acts).Some?
    ensures AllAsAsked(Run(s, acts).value)
    decreases |acts|
  {
    if acts != [] {
      var t := Step(s, acts[0]).value;
      forall fd: nat, ev, f: FiberId ensures WaitsAsAsked(t, fd, ev, f) { StepAsked(s, acts[0], t, fd, ev, f); }
      Wakeup.StepKeeps(s, acts[0]);
      Timeouts.StepKeeps(s, acts[0]);
      AskedRun(t, acts[1..]);
    }
  }

  lemma StartsAsked(threads: nat)
    ensures AllAsAsked(Init(threads))
  {
    forall fd: nat | fd < |Init(threads).reg.fds| ensures Init(threads).reg.fds[fd] == Registry.EmptyFd {}
  }

  /** In every reachable state each registered fiber waits in do_io for just that event; it comes to be
      registered by its own call, and is taken out exactly when that event is delivered or cancelled. */
  lemma WaitsForItsEvent(threads: nat, s: State, a: Action, t: State, fd: nat, ev: Event, f: FiberId)
    requires Reachable(threads, s) && Step(s, a) == Some(t)
    ensures WaitsAsAsked(s, fd, ev, f) && WaitMoves(s, a, t.reg, fd, ev, f)
  {
    var acts :| Run(Init(threads), acts) == Some(s);
    Wakeup.InitInv(threads);
    Timeouts.InitT(threads);
    StartsAsked(threads);
    AskedRun(Init(threads), acts);
    Wakeup.ReachableInv(threads, s);
    StepWaits(s, a, t, fd, ev, f);
  }
}
