/** What each kind of step does to the fibers, the calls, the timers, the task list and the workers,
    over all reachable states: the protocol of do_io and sleep, told by its effects. */
module Behaviour {
  import opened Common
  import opened Tasks
  import opened Runtime
  import TaskQueue
  import Registry
  import Timers
  import Wakeup
  import opened Timeouts

  // ---------- who moves ----------

  /** The fiber whose own code takes the step. */
  predicate Acts(s: State, a: Action, f: FiberId) {
    match a
    case InApp(w, _) => w < |s.workers| && s.workers[w].pc == Running(f)
    case InWait(w, _) => w < |s.workers| && s.workers[w].pc == Running(f)
    case _ => false
  }

  /** A worker switches to f, which it has taken from the list. */
  predicate Resumes(s: State, a: Action, f: FiberId) {
    a.InRun? && a.run.Begin? && a.w < |s.workers| && s.workers[a.w].pc == Took(FiberTask(f))
  }

  /** A worker starts a callback in f, the fiber it keeps for callbacks. */
  predicate Reuses(s: State, a: Action, f: FiberId) {
    a.InRun? && a.run.Begin? && a.w < |s.workers| && s.workers[a.w].pc.Took? && s.workers[a.w].pc.task.CbTask?
    && s.workers[a.w].cbFiber == Some(f)
  }

  predicate Still(s: State, t: State, f: FiberId)
    requires f < |s.fibers|
  {
    f < |t.fibers| && t.fibers[f] == s.fibers[f]
  }

  /** From s to t no fiber of s moves but f. */
  predicate OthersStill(s: State, t: State, f: FiberId) {
    |s.fibers| <= |t.fibers| && forall g: FiberId :: g < |s.fibers| && g != f ==> t.fibers[g] == s.fibers[g]
  }

  /** A fiber moves only by its own step, or by being resumed or started. */
  lemma MovesItself(s: State, a: Action, t: State, f: FiberId)
    requires Step(s, a) == Some(t) && f < |s.fibers|
    ensures |s.fibers| <= |t.fibers|
    ensures Still(s, t, f) || Acts(s, a, f) || Resumes(s, a, f) || Reuses(s, a, f)
  {
    match a {
      case InRun(w, r) => RunMoves(s, w, r, t, f);
      case InIdle(w, i) => IdleMoves(s, w, i, t);
      case InApp(w, p) => AppMoves(s, w, p, t);
      case InWait(w, x) => WaitMoves(s, w, x, t);
      case _ =>
    }
  }

  lemma RunMoves(s: State, w: nat, r: RunStep, t: State, f: FiberId)
    requires StepRun(s, w, r) == Some(t) && f < |s.fibers|
    ensures |s.fibers| <= |t.fibers| && t.ops == s.ops
    ensures Still(s, t, f) || Resumes(s, InRun(w, r), f) || Reuses(s, InRun(w, r), f)
  {
    if r.Begin? { BeginMoves(s, w, t, f); }
  }

  lemma BeginMoves(s: State, w: nat, t: State, f: FiberId)
    requires DoBegin(s, w) == Some(t) && f < |s.fibers|
    ensures |s.fibers| <= |t.fibers| && t.ops == s.ops
    ensures Still(s, t, f) || Resumes(s, InRun(w, Begin), f) || Reuses(s, InRun(w, Begin), f)
  {
  }

  lemma IdleMoves(s: State, w: nat, i: IdleStep, t: State)
    requires StepIdle(s, w, i) == Some(t)
    ensures t.fibers == s.fibers && t.ops == s.ops
  {
  }

  lemma AppMoves(s: State, w: nat, p: AppStep, t: State)
    requires StepApp(s, w, p) == Some(t)
    ensures PhaseOf(s, w) == Some(Code) && t.ops == s.ops && OthersStill(s, t, s.workers[w].pc.f)
  {
    if p.YieldReady? || p.Finish? {
      StopMoves(s, w, p, t);
    } else if !p.SpawnFiber? && !p.SpawnCallback? && !p.StartTimer? {
      EventMoves(s, w, p, t);
    }
  }

  lemma EventMoves(s: State, w: nat, p: AppStep, t: State)
    requires StepApp(s, w, p) == Some(t) && (p.AddCallbackEvent? || p.DelCallbackEvent? || p.CancelOne? || p.CancelBoth?)
    ensures PhaseOf(s, w) == Some(Code) && t.ops == s.ops && t.fibers == s.fibers
  {
    match p {
      case AddCallbackEvent(fd, ev, id, ok) => RegistryAlone(s, Registry.AddEvent(s.reg, fd, ev, CbTask(UserTask(id)), ok));
      case DelCallbackEvent(fd, ev, ok) => RegistryAlone(s, Registry.DelEvent(s.reg, fd, ev, ok));
      case CancelOne(fd, ev, ok) => RegistryAlone(s, Registry.CancelEvent(s.reg, fd, ev, ok));
      case CancelBoth(fd, ok) => RegistryAlone(s, Registry.CancelAll(s.reg, fd, ok));
    }
  }

  /** A registry call touches the registry and the list alone. */
  lemma RegistryAlone(s: State, out: Registry.Outcome)
    ensures var t := AfterRegistry(s, out);
      t.ops == s.ops && t.fibers == s.fibers && t.workers == s.workers && t.timers == s.timers
  {
  }

  lemma StopMoves(s: State, w: nat, p: AppStep, t: State)
    requires StepApp(s, w, p) == Some(t) && (p.YieldReady? || p.Finish?)
    ensures PhaseOf(s, w) == Some(Code) && t.ops == s.ops && OthersStill(s, t, s.workers[w].pc.f)
  {
  }

  lemma WaitMoves(s: State, w: nat, x: WaitStep, t: State)
    requires StepWait(s, w, x) == Some(t)
    ensures Runs(s, w) && OthersStill(s, t, s.workers[w].pc.f)
  {
    match x {
      case IoRegister(ok) => RegisterMoves(s, w, ok, t);
      case RunCancel(ok) => CancelMoves(s, w, ok, t);
      case _ => 
    }
  }

  lemma RegisterMoves(s: State, w: nat, ok: bool, t: State)
    requires DoIoRegister(s, w, ok) == Some(t)
    ensures Runs(s, w) && OthersStill(s, t, s.workers[w].pc.f)
    ensures s.workers[w].pc.f < |t.fibers| && t.fibers[s.workers[w].pc.f].state == s.fibers[s.workers[w].pc.f].state
  {
  }

  lemma CancelMoves(s: State, w: nat, ok: bool, t: State)
    requires DoRunCancel(s, w, ok) == Some(t)
    ensures Runs(s, w) && OthersStill(s, t, s.workers[w].pc.f)
    ensures s.workers[w].pc.f < |t.fibers| && t.fibers[s.workers[w].pc.f].state == s.fibers[s.workers[w].pc.f].state
  {
  }

  // ---------- do_io ----------

  predicate IsRegistered(s: State, fd: nat, ev: Event) {
    fd < |s.reg.fds| && (if ev == Read then s.reg.fds[fd].events.read else s.reg.fds[fd].events.write)
  }

  /** The three ways out of do_io: its result is returned, its registration is refused, or its
      timeout has marked it when it is resumed. */
  predicate Ends(s: State, a: Action, f: FiberId)
    requires f < |s.fibers| && InIo(s.fibers[f].phase)
  {
    var p := s.fibers[f].phase;
    && Acts(s, a, f) && a.InWait?
    && match a.wait
       case IoReturn => p.IoTry?
       case IoRegister(ok) => p.IoTimed? && !ok && !IsRegistered(s, p.fd, p.ev)
       case IoTest => p.IoCheck? && Marked(s, p.op)
       case _ => false
  }

  /** What a step makes of a call that it does not end. */
  predicate GoesOn(s: State, a: Action, t: State, f: FiberId)
    requires f < |s.fibers| && f < |t.fibers| && InIo(s.fibers[f].phase)
  {
    var p, q := s.fibers[f].phase, t.fibers[f].phase;
    && InIo(q) && q.op == p.op && q.fd == p.fd && q.ev == p.ev && p.op in t.ops
    && if Resumes(s, a, f) then p.IoArmed? && q.IoResumed? && q.timer == p.timer
       else if Acts(s, a, f) && a.InWait? then
         match a.wait
         case IoAgain(timeout, _) => p.IoTry? && q.IoTimed? && (q.timer.Some? <==> timeout.Some?)
         case IoRegister(_) => p.IoTimed? && (if IsRegistered(s, p.fd, p.ev) then t.aborted && q == p else q.IoArmed? && q.timer == p.timer)
         case IoCancelTimer => p.IoResumed? && q.IoCheck?
         case IoTest => p.IoCheck? && q.IoTry? && t.ops[p.op] == false
         case Suspend => p.IoArmed? && q == p
         case _ => false
       else q == p
  }

  predicate CallMoves(s: State, a: Action, t: State, f: FiberId)
    requires f < |s.fibers| && InIo(s.fibers[f].phase)
  {
    && f < |t.fibers| && (!InIo(t.fibers[f].phase) <==> Ends(s, a, f))
    && if Ends(s, a, f) then t.fibers[f].phase == Code && s.fibers[f].phase.op !in t.ops else GoesOn(s, a, t, f)
  }

  /** A fiber inside do_io leaves it exactly in one of the three ways, and its call is over then;
      otherwise it goes through the stages of the same call in order, and back to the start from the
      test when the call is not marked. */
  lemma CallEndsExactly(threads: nat, s: State, a: Action, t: State, f: FiberId)
    requires Reachable(threads, s) && Step(s, a) == Some(t) && f < |s.fibers| && InIo(s.fibers[f].phase)
    ensures CallMoves(s, a, t, f)
  {
    Wakeup.ReachableInv(threads, s);
    ReachableT(threads, s);
    StepOnCall(s, a, t, f);
  }

  lemma StepOnCall(s: State, a: Action, t: State, f: FiberId)
    requires Wakeup.Inv(s) && T(s) && Step(s, a) == Some(t) && f < |s.fibers| && InIo(s.fibers[f].phase)
    ensures CallMoves(s, a, t, f)
  {
    assert FiberT(s, f);
    match a {
      case InRun(w, r) => RunOnCall(s, w, r, t, f);
      case InIdle(w, i) => IdleMoves(s, w, i, t);
      case InApp(w, p) => AppMoves(s, w, p, t);
      case InWait(w, x) => WaitOnCall(s, w, x, t, f);
      case _ =>
    }
  }

  lemma RunOnCall(s: State, w: nat, r: RunStep, t: State, f: FiberId)
    requires Wakeup.Inv(s) && StepRun(s, w, r) == Some(t) && f < |s.fibers| && InIo(s.fibers[f].phase)
    requires s.fibers[f].phase.op in s.ops
    ensures CallMoves(s, InRun(w, r), t, f)
  {
    RunMoves(s, w, r, t, f);
    if Reuses(s, InRun(w, r), f) {
      Wakeup.CacheFacts(s, w, f);
    } else if Resumes(s, InRun(w, r), f) {
      Wakeup.TookFacts(s, w, f);
      assert Wakeup.FiberOk(s, f);
    }
  }

  lemma WaitOnCall(s: State, w: nat, x: WaitStep, t: State, f: FiberId)
    requires Wakeup.Inv(s) && T(s) && !s.aborted && StepWait(s, w, x) == Some(t) && f < |s.fibers| && InIo(s.fibers[f].phase)
    ensures CallMoves(s, InWait(w, x), t, f)
  {
    WaitMoves(s, w, x, t);
    assert FiberT(s, f);
    if s.workers[w].pc != Running(f) {
      OthersCall(s, w, x, t, f);
    } else if x.IoRegister? {
      RegisterOnCall(s, w, x.ok, t, f);
    } else {
      OwnStep(s, w, x, t, f);
    }
  }

  /** The calls alive and their marks, after a step in the code of do_io, sleep or a callback. */
  predicate OpsMove(s: State, w: nat, x: WaitStep, t: State)
    requires Runs(s, w)
  {
    var p := s.fibers[s.workers[w].pc.f].phase;
    match x
    case IoBegin(_, _) => t.ops == s.ops[s.nextOp := false]
    case IoReturn => p.IoTry? && t.ops == s.ops - {p.op}
    case IoTest => p.IoCheck? && t.ops == (if Marked(s, p.op) then s.ops - {p.op} else s.ops)
    case IoRegister(ok) => p.IoTimed? && (t.ops == s.ops || t.ops == s.ops - {p.op})
    case RunTimeout => p.Expiring? && t.ops == (if p.op in s.ops then s.ops[p.op := true] else s.ops)
    case _ => t.ops == s.ops
  }

  lemma WaitOps(s: State, w: nat, x: WaitStep, t: State)
    requires StepWait(s, w, x) == Some(t)
    ensures Runs(s, w) && OpsMove(s, w, x, t)
  {
    match x {
      case IoRegister(ok) => RegisterOps(s, w, ok, t);
      case RunCancel(ok) =>
      case _ =>
    }
  }

  lemma RegisterOps(s: State, w: nat, ok: bool, t: State)
    requires DoIoRegister(s, w, ok) == Some(t)
    ensures Runs(s, w) && OpsMove(s, w, IoRegister(ok), t)
  {
  }

  /** Another fiber's step leaves a call alone: calls are not shared. */
  lemma OthersCall(s: State, w: nat, x: WaitStep, t: State, f: FiberId)
    requires T(s) && StepWait(s, w, x) == Some(t) && f < |s.fibers| && InIo(s.fibers[f].phase)
    requires s.workers[w].pc != Running(f)
    ensures f < |t.fibers| && Still(s, t, f) && s.fibers[f].phase.op in t.ops
  {
    WaitMoves(s, w, x, t);
    WaitOps(s, w, x, t);
    NotShared(s, s.workers[w].pc.f, f);
    assert FiberT(s, f);
  }

  lemma NotShared(s: State, g: FiberId, f: FiberId)
    requires T(s) && f < |s.fibers| && g < |s.fibers| && f != g
    ensures InIo(s.fibers[f].phase) && InIo(s.fibers[g].phase) ==> s.fibers[f].phase.op != s.fibers[g].phase.op
  {
  }

  lemma OwnStep(s: State, w: nat, x: WaitStep, t: State, f: FiberId)
    requires StepWait(s, w, x) == Some(t) && !x.IoRegister? && f < |s.fibers| && InIo(s.fibers[f].phase)
    requires s.fibers[f].phase.op in s.ops && s.workers[w].pc == Running(f)
    ensures CallMoves(s, InWait(w, x), t, f)
  {
  }

  lemma RegisterOnCall(s: State, w: nat, ok: bool, t: State, f: FiberId)
    requires Registry.Consistent(s.reg) && !s.aborted && DoIoRegister(s, w, ok) == Some(t)
    requires f < |s.fibers| && InIo(s.fibers[f].phase) && s.fibers[f].phase.op in s.ops && s.workers[w].pc == Running(f)
    ensures CallMoves(s, InWait(w, IoRegister(ok)), t, f)
  {
    var p := s.fibers[f].phase;
    Registry.AddDoes(s.reg, p.fd, p.ev, FiberTask(f), ok);
  }

  /** A timeout's callback makes its test for this call. */
  predicate TimesOut(s: State, a: Action, op: nat) {
    a.InWait? && a.wait.RunTimeout? && Runs(s, a.w)
    && var p := s.fibers[s.workers[a.w].pc.f].phase; p.Expiring? && p.op == op
  }

  predicate Leaves(s: State, a: Action, f: FiberId, op: nat)
    requires f < |s.fibers|
  {
    InIo(s.fibers[f].phase) && s.fibers[f].phase.op == op && Ends(s, a, f)
  }

  lemma RunOps(s: State, w: nat, r: RunStep, t: State)
    requires StepRun(s, w, r) == Some(t)
    ensures t.ops == s.ops
  {
  }

  lemma WaitMarks(s: State, w: nat, x: WaitStep, t: State, op: nat)
    requires Wakeup.Inv(s) && T(s) && Owned(s) && !s.aborted && StepWait(s, w, x) == Some(t)
    ensures MarkMoves(s, InWait(w, x), t, op)
  {
    WaitOps(s, w, x, t);
    if op in s.ops && op !in t.ops {
      var f := s.workers[w].pc.f;
      WaitOnCall(s, w, x, t, f);
      assert Leaves(s, InWait(w, x), f, op);
    }
    if x.IoBegin? { CallsBelow(s); }
  }

  /** Every call alive was numbered before nextOp. */
  lemma CallsBelow(s: State)
    requires T(s) && Owned(s)
    ensures forall op :: op in s.ops ==> op < s.nextOp
  {
    forall op | op in s.ops
      ensures op < s.nextOp
    {
      var f: FiberId :| f < |s.fibers| && InCall(s, f, op);
      assert FiberT(s, f);
    }
  }

  predicate InCall(s: State, f: FiberId, op: nat)
    requires f < |s.fibers|
  {
    InIo(s.fibers[f].phase) && s.fibers[f].phase.op == op
  }

  /** Every call alive is some fiber's. */
  ghost predicate Owned(s: State) {
    forall op: nat :: op in s.ops ==> exists f: FiberId :: f < |s.fibers| && InCall(s, f, op)
  }

  /** What a step can do to the mark of a call, and to its life. */
  ghost predicate MarkMoves(s: State, a: Action, t: State, op: nat) {
    && (op in s.ops && op in t.ops ==> (t.ops[op] <==> s.ops[op] || TimesOut(s, a, op)))
    && (op in t.ops && op !in s.ops ==> a.InWait? && a.wait.IoBegin? && op == s.nextOp && !t.ops[op])
    && (op in s.ops && op !in t.ops ==> exists f: FiberId :: f < |s.fibers| && Leaves(s, a, f, op))
  }

  lemma StepMarks(s: State, a: Action, t: State, op: nat)
    requires Wakeup.Inv(s) && T(s) && Owned(s) && Step(s, a) == Some(t)
    ensures MarkMoves(s, a, t, op)
  {
    match a {
      case InRun(w, r) => RunOps(s, w, r, t);
      case InIdle(w, i) => IdleMoves(s, w, i, t);
      case InApp(w, p) => AppMoves(s, w, p, t);
      case InWait(w, x) => WaitMarks(s, w, x, t, op);
      case _ =>
    }
  }

  lemma StepOwned(s: State, a: Action, t: State)
    requires Wakeup.Inv(s) && T(s) && Owned(s) && Step(s, a) == Some(t)
    ensures Owned(t)
  {
    forall op: nat | op in t.ops
      ensures exists f: FiberId :: f < |t.fibers| && InCall(t, f, op)
    {
      StepMarks(s, a, t, op);
      if op in s.ops {
        var f: FiberId :| f < |s.fibers| && InCall(s, f, op);
        StepOnCall(s, a, t, f);
        assert InCall(t, f, op);
      } else {
        EntersCall(s, a.w, a.wait, t);
        assert InCall(t, s.workers[a.w].pc.f, op);
      }
    }
  }

  lemma EntersCall(s: State, w: nat, x: WaitStep, t: State)
    requires StepWait(s, w, x) == Some(t) && x.IoBegin?
    ensures Runs(s, w) && |t.fibers| == |s.fibers| && t.fibers[s.workers[w].pc.f].phase == IoTry(s.nextOp, x.fd, x.ev)
  {
  }

  lemma {:induction false} OwnedRun(s: State, acts: seq<Action>)
    requires Wakeup.Inv(s) && T(s) && Owned(s) && Run(s, acts).Some?
    ensures Owned(Run(s, acts).value)
    decreases |acts|
  {
    if acts != [] {
      var t := Step(s, acts[0]).value;
      StepOwned(s, acts[0], t);
      Wakeup.StepKeeps(s, acts[0]);
      Timeouts.StepKeeps(s, acts[0]);
      OwnedRun(t, acts[1..]);
    }
  }

  lemma ReachableOwned(threads: nat, s: State)
    requires Reachable(threads, s)
    ensures Wakeup.Inv(s) && T(s) && Owned(s)
  {
    var acts :| Run(Init(threads), acts) == Some(s);
    Wakeup.InitInv(threads);
    InitT(threads);
    OwnedRun(Init(threads), acts);
    Wakeup.ReachableInv(threads, s);
    ReachableT(threads, s);
  }

  /** The record of a call lives exactly as long as a fiber is in that call. */
  lemma AliveExactly(threads: nat, s: State, op: nat)
    requires Reachable(threads, s)
    ensures op in s.ops <==> exists f: FiberId :: f < |s.fibers| && InCall(s, f, op)
  {
    ReachableOwned(threads, s);
    if f: FiberId :| f < |s.fibers| && InCall(s, f, op) { assert FiberT(s, f); }
  }

  /** A call is marked by its own timeout and by nothing else; it appears, unmarked, when do_io is
      entered; and it disappears only when the fiber making it leaves do_io. */
  lemma MarkedExactly(threads: nat, s: State, a: Action, t: State, op: nat)
    requires Reachable(threads, s) && Step(s, a) == Some(t)
    ensures MarkMoves(s, a, t, op)
  {
    ReachableOwned(threads, s);
    StepMarks(s, a, t, op);
  }

  // ---------- the life of a fiber ----------

  /** Where a fiber starts that is to run this callback. */
  predicate Starting(cb: Callback, p: Phase) {
    match cb
    case UserTask(_) => p == Code
    case WakeSleeper(g) => p == Wake(g)
    case IoTimeout(op, fd, ev) => p == Expiring(op, fd, ev)
  }

  /** The state of a fiber after a step: EXEC when a worker switches to it, HOLD, READY or ended by its
      own step. A worker keeps a callback fiber that ends, ready to be started again. */
  predicate StateMoves(s: State, a: Action, t: State, f: FiberId)
    requires f < |s.fibers| && f < |t.fibers|
  {
    var before, after := s.fibers[f].state, t.fibers[f].state;
    if Resumes(s, a, f) then before in {INIT, READY, HOLD} && after == EXEC
    else if Reuses(s, a, f) then before == INIT && after == EXEC
    else if Acts(s, a, f) then
      && before == EXEC
      && match a
         case InWait(w, Suspend) => after == HOLD
         case InApp(w, YieldReady) => after == READY
         case InApp(w, Finish(threw)) =>
           after == (if s.workers[w].cbFiber == Some(f) then INIT else if threw then EXCEPT else TERM)
         case _ => after == EXEC
    else after == before
  }

  /** Where a fiber outside do_io is after a step. */
  predicate PhaseMoves(s: State, a: Action, t: State, f: FiberId)
    requires f < |s.fibers| && f < |t.fibers|
  {
    var p, q := s.fibers[f].phase, t.fibers[f].phase;
    if Resumes(s, a, f) then p in {Code, SleepArmed} && q == Code
    else if Reuses(s, a, f) then p == Code && Starting(s.workers[a.w].pc.task.cb, q)
    else if Acts(s, a, f) && a.InWait? then
      match a.wait
      case IoBegin(fd, ev) => p == Code && q.IoTry? && q.op !in s.ops && q.fd == fd && q.ev == ev
      case SleepBegin(_, _) => p == Code && q == SleepArmed
      case Suspend => p == SleepArmed && q == p
      case RunWake => p.Wake? && q == Code
      case RunTimeout =>
        p.Expiring? &&
        (if p.op in s.ops && !s.ops[p.op] then q.Cancelling? && q.op == p.op && q.fd == p.fd && q.ev == p.ev else q == Code)
      case RunCancel(_) => p.Cancelling? && q == Code
      case _ => false
    else q == p && (Acts(s, a, f) ==> p == Code)
  }

  predicate FiberMoves(s: State, a: Action, t: State, f: FiberId)
    requires f < |s.fibers|
  {
    && f < |t.fibers| && StateMoves(s, a, t, f)
    && if InIo(s.fibers[f].phase) then CallMoves(s, a, t, f) else PhaseMoves(s, a, t, f)
  }

  /** A step of a run aside from aborts: every fiber moves as the diagram says. */
  lemma EveryFiberMoves(threads: nat, s: State, a: Action, t: State, f: FiberId)
    requires Reachable(threads, s) && Step(s, a) == Some(t) && f < |s.fibers|
    ensures FiberMoves(s, a, t, f)
  {
    ReachableOwned(threads, s);
    if InIo(s.fibers[f].phase) { StepOnCall(s, a, t, f); }
    match a {
      case InRun(w, r) => RunOnFiber(s, w, r, t, f);
      case InIdle(w, i) => IdleMoves(s, w, i, t);
      case InApp(w, p) => AppOnFiber(s, w, p, t, f);
      case InWait(w, x) => WaitOnFiber(s, w, x, t, f);
      case _ =>
    }
  }

  lemma RunOnFiber(s: State, w: nat, r: RunStep, t: State, f: FiberId)
    requires Wakeup.Inv(s) && StepRun(s, w, r) == Some(t) && f < |s.fibers|
    ensures f < |t.fibers| && StateMoves(s, InRun(w, r), t, f)
    ensures !InIo(s.fibers[f].phase) ==> PhaseMoves(s, InRun(w, r), t, f)
  {
    RunMoves(s, w, r, t, f);
    if Reuses(s, InRun(w, r), f) {
      Wakeup.CacheFacts(s, w, f);
    } else if Resumes(s, InRun(w, r), f) {
      Wakeup.TookFacts(s, w, f);
      assert Wakeup.FiberOk(s, f);
    }
  }

  lemma AppOnFiber(s: State, w: nat, p: AppStep, t: State, f: FiberId)
    requires Wakeup.Inv(s) && StepApp(s, w, p) == Some(t) && f < |s.fibers|
    ensures f < |t.fibers| && StateMoves(s, InApp(w, p), t, f)
    ensures !InIo(s.fibers[f].phase) ==> PhaseMoves(s, InApp(w, p), t, f)
  {
    AppMoves(s, w, p, t);
    Wakeup.RunnerFacts(s, w);
    AppActor(s, w, p, t);
  }

  /** What the fiber that takes the step becomes. */
  lemma AppActor(s: State, w: nat, p: AppStep, t: State)
    requires StepApp(s, w, p) == Some(t) && Runs(s, w)
    ensures var f := s.workers[w].pc.f;
      && f < |t.fibers| && t.fibers[f].phase == Code
      && t.fibers[f].state == match p
           case YieldReady => READY
           case Finish(threw) => if s.workers[w].cbFiber == Some(f) then INIT else if threw then EXCEPT else TERM
           case _ => s.fibers[f].state
  {
  }

  lemma WaitOnFiber(s: State, w: nat, x: WaitStep, t: State, f: FiberId)
    requires Wakeup.Inv(s) && T(s) && Owned(s) && !s.aborted && StepWait(s, w, x) == Some(t) && f < |s.fibers|
    ensures f < |t.fibers| && StateMoves(s, InWait(w, x), t, f)
    ensures !InIo(s.fibers[f].phase) ==> PhaseMoves(s, InWait(w, x), t, f)
  {
    WaitMoves(s, w, x, t);
    Wakeup.RunnerFacts(s, w);
    WaitActorState(s, w, x, t);
    if s.workers[w].pc == Running(f) && !InIo(s.fibers[f].phase) {
      CallsBelow(s);
      WaitActorPhase(s, w, x, t, f);
    }
  }

  lemma WaitActorState(s: State, w: nat, x: WaitStep, t: State)
    requires StepWait(s, w, x) == Some(t) && Runs(s, w)
    ensures var f := s.workers[w].pc.f;
      f < |t.fibers| && t.fibers[f].state == if x.Suspend? then HOLD else s.fibers[f].state
  {
    match x {
      case IoRegister(ok) => RegisterMoves(s, w, ok, t);
      case RunCancel(ok) => CancelMoves(s, w, ok, t);
      case _ =>
    }
  }

  lemma WaitActorPhase(s: State, w: nat, x: WaitStep, t: State, f: FiberId)
    requires StepWait(s, w, x) == Some(t) && Runs(s, w) && f == s.workers[w].pc.f && !InIo(s.fibers[f].phase)
    requires s.nextOp !in s.ops
    ensures f < |t.fibers| && PhaseMoves(s, InWait(w, x), t, f)
  {
  }

  // ---------- workers ----------

  /** Only worker w has moved, and it keeps its callback fiber and whether its idle fiber has ended. */
  predicate At(s: State, t: State, w: nat, pc: Pc) {
    w < |s.workers| && t.workers == s.workers[w := Worker(pc, s.workers[w].idleDone, s.workers[w].cbFiber)]
  }

  /** A worker gives up the fiber it was running: one it kept for callbacks is no longer its own. */
  predicate GivesUp(s: State, t: State, w: nat, pc: Pc)
    requires Runs(s, w)
  {
    var k := s.workers[w];
    t.workers == s.workers[w := Worker(pc, k.idleDone, if k.cbFiber == Some(k.pc.f) then None else k.cbFiber)]
  }

  /** A task is started: a fiber by switching to it, a callback in the fiber kept for callbacks, or in a
      new one, which is then kept. */
  predicate Begins(s: State, t: State, w: nat) {
    && w < |s.workers| && s.workers[w].pc.Took?
    && match s.workers[w].pc.task
       case FiberTask(f) => At(s, t, w, Running(f)) && |t.fibers| == |s.fibers|
       case CbTask(cb) =>
         if s.workers[w].cbFiber.Some? then At(s, t, w, Running(s.workers[w].cbFiber.value)) && |t.fibers| == |s.fibers|
         else
           var f := |s.fibers|;
           && t.workers == s.workers[w := Worker(Running(f), s.workers[w].idleDone, Some(f))]
           && |t.fibers| == f + 1 && t.fibers[f].state == EXEC && Starting(cb, t.fibers[f].phase)
  }

  /** The loop of run, and the loop of idle. */
  predicate LoopMoves(s: State, a: Action, t: State)
    requires a.InRun? || a.InIdle?
  {
    && a.w < |s.workers|
    && var pc := s.workers[a.w].pc;
       match a
       case InRun(w, Pick) => pc == Scan && w < |t.workers| && (t.workers[w].pc.Took? || t.workers[w].pc == NoTask) && At(s, t, w, t.workers[w].pc)
       case InRun(w, Begin) => Begins(s, t, w)
       case InRun(w, Resched) => pc.Requeue? && At(s, t, w, Scan)
       case InRun(w, EnterIdle) => pc == NoTask && At(s, t, w, if s.workers[w].idleDone then Left else IdleTimers)
       case InIdle(w, CheckTimers) => pc == IdleTimers && At(s, t, w, if |s.timers.timers| == 0 then IdlePending else Poll)
       case InIdle(w, CheckPending) => pc == IdlePending && At(s, t, w, if s.reg.pending == 0 then IdleStopping else Poll)
       case InIdle(w, CheckStopping) =>
         && pc == IdleStopping
         && if s.stopped && |s.queue.entries| == 0 && s.active == 0
            then t.workers == s.workers[w := Worker(Scan, true, s.workers[w].cbFiber)]
            else At(s, t, w, Poll)
       case InIdle(w, ListExpired(_)) => pc == Poll && w < |t.workers| && t.workers[w].pc.Expired? && At(s, t, w, t.workers[w].pc)
       case InIdle(w, ScheduleExpired) => pc.Expired? && At(s, t, w, Delivering)
       case InIdle(w, DeliverEvent(_, _, _, _)) => pc == Delivering && t.workers == s.workers
       case InIdle(w, LeaveIdle) => pc == Delivering && At(s, t, w, Scan)
  }

  /** What each step does to the workers: only the one that takes it moves, along its loop, and goes back
      to the top of the loop when its fiber yields, suspends or ends. */
  predicate WorkersMove(s: State, a: Action, t: State) {
    match a
    case InRun(_, _) => LoopMoves(s, a, t)
    case InIdle(_, _) => LoopMoves(s, a, t)
    case InApp(w, YieldReady) => Runs(s, w) && GivesUp(s, t, w, Requeue(s.workers[w].pc.f))
    case InApp(w, Finish(_)) => Runs(s, w) && At(s, t, w, Scan)
    case InWait(w, Suspend) => Runs(s, w) && GivesUp(s, t, w, Scan)
    case _ => t.workers == s.workers
  }

  /** In every reachable state each step moves the workers as described, and only stop() stops. */
  lemma EveryWorkerMoves(threads: nat, s: State, a: Action, t: State)
    requires Reachable(threads, s) && Step(s, a) == Some(t)
    ensures WorkersMove(s, a, t) && (t.stopped <==> s.stopped || a == Stop)
  {
    Wakeup.ReachableInv(threads, s);
    match a {
      case InRun(w, r) => RunWorkers(s, w, r, t);
      case InIdle(w, i) => IdleWorkers(s, w, i, t);
      case InApp(w, p) => AppWorkers(s, w, p, t);
      case InWait(w, x) => WaitWorkers(s, w, x, t);
      case _ =>
    }
  }

  /** The step makes a fiber: an application's, or one to run a callback in. */
  predicate Makes(s: State, a: Action) {
    || (a.InApp? && a.app.SpawnFiber?)
    || (a.InRun? && a.run.Begin? && a.w < |s.workers| && s.workers[a.w].pc.Took?
        && s.workers[a.w].pc.task.CbTask? && s.workers[a.w].cbFiber.None?)
  }

  lemma FibersAppear(threads: nat, s: State, a: Action, t: State)
    requires Reachable(threads, s) && Step(s, a) == Some(t)
    ensures |t.fibers| == |s.fibers| + (if Makes(s, a) then 1 else 0)
    ensures a.InApp? && a.app.SpawnFiber? ==> t.fibers[|s.fibers|] == Fiber(INIT, Code)
  {
    Wakeup.ReachableInv(threads, s);
    match a {
      case InRun(w, r) => RunFibers(s, w, r, t);
      case InIdle(w, i) => IdleMoves(s, w, i, t);
      case InApp(w, p) => AppFibers(s, w, p, t);
      case InWait(w, x) => WaitFibers(s, w, x, t);
      case _ =>
    }
  }

  lemma RunFibers(s: State, w: nat, r: RunStep, t: State)
    requires Wakeup.Inv(s) && StepRun(s, w, r) == Some(t)
    ensures |t.fibers| == |s.fibers| + (if Makes(s, InRun(w, r)) then 1 else 0)
  {
    if r.Begin? { BeginWorkers(s, w, t); }
  }

  lemma AppFibers(s: State, w: nat, p: AppStep, t: State)
    requires StepApp(s, w, p) == Some(t)
    ensures |t.fibers| == |s.fibers| + (if p.SpawnFiber? then 1 else 0)
    ensures p.SpawnFiber? ==> t.fibers[|s.fibers|] == Fiber(INIT, Code)
  {
  }

  lemma WaitFibers(s: State, w: nat, x: WaitStep, t: State)
    requires StepWait(s, w, x) == Some(t)
    ensures |t.fibers| == |s.fibers|
  {
    match x {
      case IoRegister(ok) => RegisterWorkers(s, w, ok, t);
      case RunCancel(ok) => CancelWorkers(s, w, ok, t);
      case _ =>
    }
  }

  lemma RunWorkers(s: State, w: nat, r: RunStep, t: State)
    requires Wakeup.Inv(s) && StepRun(s, w, r) == Some(t)
    ensures LoopMoves(s, InRun(w, r), t) && t.stopped == s.stopped
  {
    if r.Begin? { BeginWorkers(s, w, t); }
  }

  lemma BeginWorkers(s: State, w: nat, t: State)
    requires Wakeup.Inv(s) && DoBegin(s, w) == Some(t)
    ensures Begins(s, t, w) && t.stopped == s.stopped
  {
    match s.workers[w].pc.task {
      case FiberTask(f) => Wakeup.TookFacts(s, w, f);
      case CbTask(cb) =>
        if s.workers[w].cbFiber.Some? { Wakeup.CacheFacts(s, w, s.workers[w].cbFiber.value); }
    }
  }

  lemma IdleWorkers(s: State, w: nat, i: IdleStep, t: State)
    requires StepIdle(s, w, i) == Some(t)
    ensures LoopMoves(s, InIdle(w, i), t) && t.stopped == s.stopped
  {
  }

  lemma AppWorkers(s: State, w: nat, p: AppStep, t: State)
    requires StepApp(s, w, p) == Some(t)
    ensures WorkersMove(s, InApp(w, p), t) && t.stopped == s.stopped
  {
  }

  lemma WaitWorkers(s: State, w: nat, x: WaitStep, t: State)
    requires StepWait(s, w, x) == Some(t)
    ensures WorkersMove(s, InWait(w, x), t) && t.stopped == s.stopped
  {
    match x {
      case IoRegister(ok) => RegisterWorkers(s, w, ok, t);
      case RunCancel(ok) => CancelWorkers(s, w, ok, t);
      case _ =>
    }
  }

  lemma RegisterWorkers(s: State, w: nat, ok: bool, t: State)
    requires DoIoRegister(s, w, ok) == Some(t)
    ensures t.workers == s.workers && t.stopped == s.stopped && |t.fibers| == |s.fibers|
  {
  }

  lemma CancelWorkers(s: State, w: nat, ok: bool, t: State)
    requires DoRunCancel(s, w, ok) == Some(t)
    ensures t.workers == s.workers && t.stopped == s.stopped && |t.fibers| == |s.fibers|
  {
  }

  // ---------- which steps can be taken ----------

  /** What a step needs. */
  predicate Enabled(s: State, a: Action) {
    && !s.aborted
    && match a
       case ExternalSchedule(_, _) => !s.stopped
       case Stop => true
       case InRun(w, r) =>
         w < |s.workers| &&
         (match r
          case Pick => s.workers[w].pc == Scan
          case Begin => s.workers[w].pc.Took?
          case Resched => s.workers[w].pc.Requeue?
          case EnterIdle => s.workers[w].pc == NoTask)
       case InIdle(w, i) =>
         w < |s.workers| &&
         (match i
          case CheckTimers => s.workers[w].pc == IdleTimers
          case CheckPending => s.workers[w].pc == IdlePending
          case CheckStopping => s.workers[w].pc == IdleStopping
          case ListExpired(_) => s.workers[w].pc == Poll
          case ScheduleExpired => s.workers[w].pc.Expired?
          case DeliverEvent(fd, _, _, _) => s.workers[w].pc == Delivering && fd < |s.reg.fds|
          case LeaveIdle => s.workers[w].pc == Delivering)
       case InApp(w, p) =>
         Runs(s, w) && s.fibers[s.workers[w].pc.f].phase == Code &&
         (p.DelCallbackEvent? && p.fd < |s.reg.fds| ==>
            var ctx := if p.ev == Read then s.reg.fds[p.fd].read else s.reg.fds[p.fd].write;
            ctx.fiber == None && (ctx.cb.Some? ==> ctx.cb.value.UserTask?))
       case InWait(w, x) =>
         Runs(s, w) &&
         var p := s.fibers[s.workers[w].pc.f].phase;
         match x
         case IoBegin(_, _) => p == Code
         case IoReturn => p.IoTry?
         case IoAgain(_, _) => p.IoTry?
         case IoRegister(_) => p.IoTimed?
         case IoCancelTimer => p.IoResumed?
         case IoTest => p.IoCheck?
         case SleepBegin(_, _) => p == Code
         case Suspend => p.IoArmed? || p == SleepArmed
         case RunWake => p.Wake?
         case RunTimeout => p.Expiring?
         case RunCancel(_) => p.Cancelling?
  }

  lemma EnabledExactly(threads: nat, s: State, a: Action)
    requires Reachable(threads, s)
    ensures Step(s, a).Some? <==> Enabled(s, a)
  {
    Wakeup.ReachableInv(threads, s);
    if !s.aborted {
      match a {
        case InRun(w, r) => RunEnabled(s, w, r);
        case InIdle(w, i) => IdleEnabled(s, w, i);
        case InApp(w, p) => AppEnabled(s, w, p);
        case InWait(w, x) => WaitEnabled(s, w, x);
        case _ =>
      }
    }
  }

  lemma IdleEnabled(s: State, w: nat, i: IdleStep)
    requires !s.aborted
    ensures StepIdle(s, w, i).Some? <==> Enabled(s, InIdle(w, i))
  {
  }

  lemma AppEnabled(s: State, w: nat, p: AppStep)
    requires !s.aborted
    ensures StepApp(s, w, p).Some? <==> Enabled(s, InApp(w, p))
  {
  }

  lemma RunEnabled(s: State, w: nat, r: RunStep)
    requires Wakeup.Inv(s) && !s.aborted
    ensures StepRun(s, w, r).Some? <==> Enabled(s, InRun(w, r))
  {
    if r.Begin? && w < |s.workers| && s.workers[w].pc.Took? {
      match s.workers[w].pc.task {
        case FiberTask(f) => Wakeup.TookFacts(s, w, f);
        case CbTask(cb) =>
          if s.workers[w].cbFiber.Some? { Wakeup.CacheFacts(s, w, s.workers[w].cbFiber.value); }
      }
    }
  }

  lemma WaitEnabled(s: State, w: nat, x: WaitStep)
    requires !s.aborted
    ensures StepWait(s, w, x).Some? <==> Enabled(s, InWait(w, x))
  {
  }
}
