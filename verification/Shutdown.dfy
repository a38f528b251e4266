/** Shutdown: what is left behind once every worker has returned from run. */
module Shutdown {
  import opened Common
  import opened Tasks
  import opened Runtime
  import TaskQueue
  import Registry
  import opened Paths
  import Wakeup

  predicate AllLeft(s: State) {
    forall w :: 0 <= w < |s.workers| ==> s.workers[w].pc == Left
  }

  // ---------- the task list ----------

  /** A worker that will still look at the list: it has neither left nor found it empty
      after its idle fiber ended. */
  predicate Live(k: Worker) { k.pc != Left && !(k.pc == NoTask && k.idleDone) }

  predicate IdleOk(s: State) {
    forall w :: 0 <= w < |s.workers| ==>
      && (s.workers[w].idleDone ==> s.stopped)
      && (s.workers[w].pc == Left ==> s.workers[w].idleDone)
  }

  /** Some live worker watches over every unpinned entry. */
  predicate Watched(s: State) {
    (exists i :: 0 <= i < |s.queue.entries| && s.queue.entries[i].pin == None) ==>
      exists w :: 0 <= w < |s.workers| && Live(s.workers[w])
  }

  function ActorOf(a: Action): Option<nat> {
    match a
    case InRun(w, _) => Some(w)
    case InIdle(w, _) => Some(w)
    case InApp(w, _) => Some(w)
    case InWait(w, _) => Some(w)
    case _ => None
  }

  /** A step changes at most the worker that takes it, and that worker stays live unless it
      has just found nothing to take or is leaving. */
  lemma OneWorkerMoves(s: State, a: Action)
    requires Step(s, a).Some?
    ensures var t := Step(s, a).value;
      match ActorOf(a)
      case None => t.workers == s.workers
      case Some(w) =>
        && w < |s.workers| == |t.workers| && t.workers == s.workers[w := t.workers[w]]
        && t.stopped == s.stopped && (t.workers[w].idleDone ==> s.workers[w].idleDone || s.stopped)
        && (a != InRun(w, Pick) && a != InRun(w, EnterIdle) ==> Live(t.workers[w]) && t.workers[w].pc != Left)
  {
    var t := Step(s, a).value;
    match a {
      case InRun(w, r) =>
      case InIdle(w, i) => IdleWorkers(s, w, i);
      case InApp(w, p) => AppWorkers(s, w, p);
      case InWait(w, x) => WaitWorkers(s, w, x);
      case _ =>
    }
  }

  lemma IdleWorkers(s: State, w: nat, a: IdleStep)
    requires StepIdle(s, w, a).Some?
    ensures var t := StepIdle(s, w, a).value;
      && w < |s.workers| == |t.workers| && t.workers == s.workers[w := t.workers[w]]
      && (t.workers[w].idleDone ==> s.workers[w].idleDone || s.stopped) && Live(t.workers[w]) && t.stopped == s.stopped
  {
  }

  lemma AppWorkers(s: State, w: nat, a: AppStep)
    requires StepApp(s, w, a).Some?
    ensures var t := StepApp(s, w, a).value;
      && w < |s.workers| == |t.workers| && t.workers == s.workers[w := t.workers[w]]
      && t.workers[w].idleDone == s.workers[w].idleDone && Live(t.workers[w]) && t.stopped == s.stopped
  {
  }

  lemma WaitWorkers(s: State, w: nat, a: WaitStep)
    requires StepWait(s, w, a).Some?
    ensures var t := StepWait(s, w, a).value;
      && w < |s.workers| == |t.workers| && t.workers == s.workers[w := t.workers[w]]
      && t.workers[w].idleDone == s.workers[w].idleDone && Live(t.workers[w]) && t.stopped == s.stopped
  {
    match a {
      case IoRegister(ok) => RegisterPc(s, w, ok);
      case RunCancel(ok) => CancelPc(s, w, ok);
      case _ =>
    }
  }

  lemma RegisterPc(s: State, w: nat, ok: bool)
    requires DoIoRegister(s, w, ok).Some?
    ensures DoIoRegister(s, w, ok).value.workers == s.workers && Runs(s, w) && DoIoRegister(s, w, ok).value.stopped == s.stopped
  {
  }

  lemma CancelPc(s: State, w: nat, ok: bool)
    requires DoRunCancel(s, w, ok).Some?
    ensures DoRunCancel(s, w, ok).value.workers == s.workers && Runs(s, w) && DoRunCancel(s, w, ok).value.stopped == s.stopped
  {
  }

  /** A pick that finds nothing leaves an unpinned entry behind only if that entry's fiber is
      being run by another worker. */
  lemma EmptyHandedPick(s: State, w: nat)
    requires Wakeup.Inv(s) && DoPick(s, w).Some? && DoPick(s, w).value.workers[w].pc == NoTask
    requires exists i :: 0 <= i < |s.queue.entries| && s.queue.entries[i].pin == None
    ensures exists v :: 0 <= v < |s.workers| && v != w && s.workers[v].pc.Running?
  {
    var i :| 0 <= i < |s.queue.entries| && s.queue.entries[i].pin == None;
    var k := TaskQueue.FirstEligible(s.queue.entries, w, Executing(s.fibers));
    assert !TaskQueue.Eligible(s.queue.entries[i], w, Executing(s.fibers));
    var f := s.queue.entries[i].task.fiber;
    assert Wakeup.FiberOk(s, f);
    SumZero(s.workers, Wakeup.RunnerOf(f));
    var v :| 0 <= v < |s.workers| && Wakeup.RunnerOf(f)(s.workers[v]) != 0;
  }

  lemma WatchedStep(s: State, a: Action)
    requires Wakeup.Inv(s) && IdleOk(s) && Watched(s) && |s.workers| > 0 && Step(s, a).Some?
    ensures IdleOk(Step(s, a).value) && Watched(Step(s, a).value) && |Step(s, a).value.workers| > 0
  {
    match a {
      case ExternalSchedule(_, _) => assert Live(Step(s, a).value.workers[0]);
      case Stop =>
      case InRun(w, r) =>
        if r == Pick {
          PickWatched(s, w);
        } else if r == EnterIdle {
          LeaveWatched(s, w);
        } else {
          ActorWatched(s, a, w);
        }
      case InIdle(w, _) => ActorWatched(s, a, w);
      case InApp(w, _) => ActorWatched(s, a, w);
      case InWait(w, _) => ActorWatched(s, a, w);
    }
  }

  /** Whoever adds to the list is live afterwards. */
  lemma ActorWatched(s: State, a: Action, w: nat)
    requires IdleOk(s) && Step(s, a).Some? && ActorOf(a) == Some(w)
    requires a != InRun(w, Pick) && a != InRun(w, EnterIdle)
    ensures IdleOk(Step(s, a).value) && Watched(Step(s, a).value) && |Step(s, a).value.workers| == |s.workers|
  {
    OneWorkerMoves(s, a);
    assert Live(Step(s, a).value.workers[w]);
  }

  lemma PickWatched(s: State, w: nat)
    requires Wakeup.Inv(s) && IdleOk(s) && Watched(s) && DoPick(s, w).Some?
    ensures IdleOk(DoPick(s, w).value) && Watched(DoPick(s, w).value)
  {
    var t := DoPick(s, w).value;
    if t.workers[w].pc == NoTask {
      if exists i :: 0 <= i < |s.queue.entries| && s.queue.entries[i].pin == None {
        EmptyHandedPick(s, w);
        var v :| 0 <= v < |s.workers| && v != w && s.workers[v].pc.Running?;
        assert Live(t.workers[v]);
      }
    } else {
      assert Live(t.workers[w]);
    }
  }

  lemma LeaveWatched(s: State, w: nat)
    requires IdleOk(s) && Watched(s) && DoEnterIdle(s, w).Some?
    ensures IdleOk(DoEnterIdle(s, w).value) && Watched(DoEnterIdle(s, w).value)
  {
    var t := DoEnterIdle(s, w).value;
    if t.workers[w].pc == Left {
      if exists i :: 0 <= i < |s.queue.entries| && s.queue.entries[i].pin == None {
        var v :| 0 <= v < |s.workers| && Live(s.workers[v]);
        assert t.workers[v] == s.workers[v];
      }
    } else {
      assert Live(t.workers[w]);
    }
  }

  lemma {:induction false} WatchedRun(s: State, acts: seq<Action>)
    requires Wakeup.Inv(s) && IdleOk(s) && Watched(s) && |s.workers| > 0 && Run(s, acts).Some?
    ensures var t := Run(s, acts).value; IdleOk(t) && Watched(t)
    decreases |acts|
  {
    if acts != [] {
      WatchedStep(s, acts[0]);
      Wakeup.StepKeeps(s, acts[0]);
      WatchedRun(Step(s, acts[0]).value, acts[1..]);
    }
  }

  /** Once every worker has left run, an entry still in the list is pinned to one thread.
      This holds although a worker's stopping() can be true between another worker's
      decrement and its re-queue of a READY fiber. */
  lemma OnlyPinnedLeftBehind(threads: nat, s: State)
    requires threads > 0 && Reachable(threads, s) && AllLeft(s)
    ensures forall i :: 0 <= i < |s.queue.entries| ==> s.queue.entries[i].pin.Some?
  {
    var acts :| Run(Init(threads), acts) == Some(s);
    Wakeup.InitInv(threads);
    WatchedRun(Init(threads), acts);
  }

  predicate Pins(a: Action) {
    match a
    case ExternalSchedule(_, pin) => pin.Some?
    case InApp(_, SpawnFiber(pin)) => pin.Some?
    case InApp(_, SpawnCallback(_, pin)) => pin.Some?
    case _ => false
  }

  predicate NoPins(q: TaskQueue.Queue) {
    forall i :: 0 <= i < |q.entries| ==> q.entries[i].pin == None
  }

  lemma {:induction false} PushAllNoPins(q: TaskQueue.Queue, tasks: seq<Task>)
    requires NoPins(q)
    ensures NoPins(TaskQueue.PushAll(q, tasks))
    decreases |tasks|
  {
    if tasks != [] { PushAllNoPins(TaskQueue.Push(q, tasks[0], None), tasks[1..]); }
  }

  lemma RegistryNoPins(s: State, out: Registry.Outcome)
    requires NoPins(s.queue)
    ensures NoPins(AfterRegistry(s, out).queue)
  {
    if out.Done? { PushAllNoPins(s.queue, out.woken); }
  }

  lemma NoPinsStep(s: State, a: Action)
    requires NoPins(s.queue) && !Pins(a) && Step(s, a).Some?
    ensures NoPins(Step(s, a).value.queue)
  {
    match a {
      case InIdle(w, ScheduleExpired) => PushAllNoPins(s.queue, AsTasks(s.workers[w].pc.cbs));
      case InIdle(w, DeliverEvent(fd, m, hup, ok)) => RegistryNoPins(s, Registry.Deliver(s.reg, fd, m, hup, ok));
      case InApp(w, p) => AppNoPins(s, w, p);
      case InWait(w, x) => WaitNoPins(s, w, x);
      case _ =>
    }
  }

  lemma AppNoPins(s: State, w: nat, a: AppStep)
    requires NoPins(s.queue) && !Pins(InApp(w, a)) && StepApp(s, w, a).Some?
    ensures NoPins(StepApp(s, w, a).value.queue)
  {
    match a {
      case AddCallbackEvent(fd, ev, id, ok) => RegistryNoPins(s, Registry.AddEvent(s.reg, fd, ev, CbTask(UserTask(id)), ok));
      case DelCallbackEvent(fd, ev, ok) => RegistryNoPins(s, Registry.DelEvent(s.reg, fd, ev, ok));
      case CancelOne(fd, ev, ok) => RegistryNoPins(s, Registry.CancelEvent(s.reg, fd, ev, ok));
      case CancelBoth(fd, ok) => RegistryNoPins(s, Registry.CancelAll(s.reg, fd, ok));
      case _ =>
    }
  }

  lemma WaitNoPins(s: State, w: nat, a: WaitStep)
    requires NoPins(s.queue) && StepWait(s, w, a).Some?
    ensures NoPins(StepWait(s, w, a).value.queue)
  {
    match a {
      case RunCancel(ok) =>
        var p := s.fibers[s.workers[w].pc.f].phase;
        RegistryNoPins(SetPhase(s, w, Code), Registry.CancelEvent(s.reg, p.fd, p.ev, ok));
      case _ =>
    }
  }

  lemma {:induction false} NoPinsRun(s: State, acts: seq<Action>)
    requires NoPins(s.queue) && Run(s, acts).Some? && forall i :: 0 <= i < |acts| ==> !Pins(acts[i])
    ensures NoPins(Run(s, acts).value.queue)
    decreases |acts|
  {
    if acts != [] {
      NoPinsStep(s, acts[0]);
      assert forall i :: 0 <= i < |acts[1..]| ==> acts[1..][i] == acts[i + 1];
      NoPinsRun(Step(s, acts[0]).value, acts[1..]);
    }
  }

  lemma UnpinnedOrEmpty(q: TaskQueue.Queue)
    requires NoPins(q)
    ensures q.entries != [] ==> exists i :: 0 <= i < |q.entries| && q.entries[i].pin.None?
  {
    if q.entries != [] { assert q.entries[0].pin.None?; }
  }

  /** Shutdown abandons no task: if nothing was pinned, then once every worker has left run
      the list is empty and every ticket ever issued was taken by a worker. */
  lemma EveryTaskTaken(threads: nat, acts: seq<Action>, s: State)
    requires threads > 0 && Run(Init(threads), acts) == Some(s) && AllLeft(s)
    requires forall i :: 0 <= i < |acts| ==> !Pins(acts[i])
    ensures s.queue.entries == []
    ensures forall ticket: nat :: ticket < s.queue.issued ==> ticket in s.queue.taken
  {
    NoPinsRun(Init(threads), acts);
    OnlyPinnedLeftBehind(threads, s);
    Wakeup.ReachableInv(threads, s);
    UnpinnedOrEmpty(s.queue);
    forall ticket: nat | ticket < s.queue.issued
      ensures ticket in s.queue.taken
    {
      assert ticket !in s.queue.taken ==> TaskQueue.Waiting(s.queue, ticket);
    }
  }

  // ---------- timers, events and suspended fibers ----------

  /** A fiber that will never need a worker again: ended, or reset in a worker's cache. */
  predicate Finished(s: State, f: FiberId)
    requires f < |s.fibers|
  {
    s.fibers[f].state in {TERM, EXCEPT} || (s.fibers[f].state == INIT && Wakeup.Cached(s, f) == 1)
  }

  /** What a lone worker knows as it goes through the three tests of stopping. */
  predicate Solo(s: State) {
    && |s.workers| == 1
    && var k := s.workers[0];
    && (k.pc == IdlePending || k.pc == IdleStopping || k.idleDone ==> s.timers.timers == [])
    && (k.pc == IdleStopping || k.idleDone ==> s.reg.pending == 0)
    && (k.idleDone ==> s.stopped && s.queue.entries == [] && (k.pc == Scan || k.pc == NoTask || k.pc == Left))
    && (k.pc == Left ==> k.idleDone)
  }

  lemma SoloStep(s: State, a: Action)
    requires Solo(s) && Step(s, a).Some?
    ensures Solo(Step(s, a).value)
  {
    OneWorkerMoves(s, a);
    match a {
      case InApp(w, p) => SoloApp(s, w, p);
      case InWait(w, x) => SoloWait(s, w, x);
      case _ =>
    }
  }

  /** A lone worker that runs a fiber makes no claim about timers, events or the list. */
  lemma SoloRunning(s: State, t: State)
    requires Solo(s) && |s.workers| == |t.workers| && s.workers[0].pc.Running?
    requires t.workers[0].idleDone == s.workers[0].idleDone
    requires t.workers[0].pc.Running? || t.workers[0].pc.Requeue? || t.workers[0].pc == Scan
    ensures Solo(t)
  {
  }

  /** Where a running worker can be after a step of its fiber. */
  lemma AppPc(s: State, w: nat, a: AppStep)
    requires StepApp(s, w, a).Some?
    ensures var t := StepApp(s, w, a).value;
      && w < |s.workers| == |t.workers| && s.workers[w].pc.Running? && t.workers[w].idleDone == s.workers[w].idleDone
      && (t.workers[w].pc.Running? || t.workers[w].pc.Requeue? || t.workers[w].pc == Scan)
  {
  }

  lemma WaitPc(s: State, w: nat, a: WaitStep)
    requires StepWait(s, w, a).Some?
    ensures var t := StepWait(s, w, a).value;
      && w < |s.workers| == |t.workers| && s.workers[w].pc.Running? && t.workers[w].idleDone == s.workers[w].idleDone
      && (t.workers[w].pc.Running? || t.workers[w].pc == Scan)
  {
    match a {
      case IoRegister(ok) => RegisterPc(s, w, ok);
      case _ =>
    }
  }

  lemma SoloApp(s: State, w: nat, a: AppStep)
    requires Solo(s) && StepApp(s, w, a).Some?
    ensures Solo(StepApp(s, w, a).value)
  {
    AppPc(s, w, a);
    SoloRunning(s, StepApp(s, w, a).value);
  }

  lemma SoloWait(s: State, w: nat, a: WaitStep)
    requires Solo(s) && StepWait(s, w, a).Some?
    ensures Solo(StepWait(s, w, a).value)
  {
    WaitPc(s, w, a);
    SoloRunning(s, StepWait(s, w, a).value);
  }

  lemma {:induction false} SoloRun(s: State, acts: seq<Action>)
    requires Solo(s) && Run(s, acts).Some?
    ensures Solo(Run(s, acts).value)
    decreases |acts|
  {
    if acts != [] {
      SoloStep(s, acts[0]);
      SoloRun(Step(s, acts[0]).value, acts[1..]);
    }
  }

  lemma NoRegistrations(s: State, f: FiberId)
    requires Registry.Consistent(s.reg) && s.reg.pending == 0
    ensures Registry.Tokens(s.reg, f) == 0
  {
    SumZero(s.reg.fds, Registry.BitCount());
    forall fd | 0 <= fd < |s.reg.fds|
      ensures Registry.FdTokens(f)(s.reg.fds[fd]) == 0
    {
      assert Registry.BitCount()(s.reg.fds[fd]) == 0 && Registry.FdOk(s.reg.fds[fd]);
    }
    SumZero(s.reg.fds, Registry.FdTokens(f));
  }

  lemma NotWaking(s: State, g: FiberId, f: FiberId)
    requires Wakeup.FiberOk(s, g) && AllLeft(s) && g < |s.fibers|
    ensures Wakeup.FiberTokens(f)(s.fibers[g]) == 0
  {
    SumZero(s.workers, Wakeup.RunnerOf(g));
  }

  lemma NoTokensLeft(s: State, f: FiberId)
    requires Wakeup.Inv(s) && AllLeft(s) && s.queue.entries == [] && s.timers.timers == [] && s.reg.pending == 0
    ensures Wakeup.Tokens(s, f) == 0 && Wakeup.Runners(s, f) == 0
  {
    SumZero(s.workers, Wakeup.WorkerTokens(f));
    SumZero(s.workers, Wakeup.RunnerOf(f));
    NoRegistrations(s, f);
    forall g | 0 <= g < |s.fibers|
      ensures Wakeup.FiberTokens(f)(s.fibers[g]) == 0
    {
      assert Wakeup.FiberOk(s, g);
      NotWaking(s, g, f);
    }
    SumZero(s.fibers, Wakeup.FiberTokens(f));
  }

  /** With a single worker nothing at all is abandoned: when it has left run, no task, timer
      or event registration remains and every fiber ever created has finished. */
  lemma SingleWorkerDrains(s: State)
    requires Reachable(1, s) && AllLeft(s)
    ensures s.queue.entries == [] && s.timers.timers == [] && s.reg.pending == 0
    ensures forall f: FiberId :: f < |s.fibers| ==> Finished(s, f)
  {
    var acts :| Run(Init(1), acts) == Some(s);
    SoloRun(Init(1), acts);
    Wakeup.ReachableInv(1, s);
    assert s.workers[0].pc == Left;
    forall f: FiberId | f < |s.fibers|
      ensures Finished(s, f)
    {
      NoTokensLeft(s, f);
      assert Wakeup.FiberOk(s, f);
    }
  }

  // ---------- several workers ----------

  /** The moment at which stopping() is true although a READY fiber is about to be re-queued. */
  predicate Lull(s: State) {
    && !s.aborted && s.stopped && s.queue.entries == [] && s.active == 0
    && s.timers.timers == [] && !s.timers.tickled && s.reg.pending == 0
  }

  /** The state with worker i at another point. */
  function At(s: State, i: nat, pc: Pc, idle: int): State
    requires i < |s.workers|
  {
    SetWorker(s, i, s.workers[i].(pc := pc)).(idle := idle)
  }

  lemma AtAgain(s: State, i: nat, k: Worker, l: Worker)
    requires i < |s.workers|
    ensures SetWorker(SetWorker(s, i, k), i, l) == SetWorker(s, i, l)
  {
    assert s.workers[i := k][i := l] == s.workers[i := l];
  }

  /** In a lull a worker's idle fiber ends. */
  lemma DoomOne(s: State, i: nat)
    requires Lull(s) && i < |s.workers| && s.workers[i].pc == Scan && !s.workers[i].idleDone
    ensures Path(s, SetWorker(s, i, s.workers[i].(idleDone := true)))
  {
    var k := s.workers[i];
    PathSelf(s);
    PathStep(s, s, InRun(i, Pick));
    AtAgain(s, i, k.(pc := NoTask), k.(pc := IdleTimers));
    PathStep(s, At(s, i, NoTask, s.idle), InRun(i, EnterIdle));
    assert Path(s, At(s, i, IdleTimers, s.idle + 1));
    DoomIdle(s, i);
    PathTrans(s, At(s, i, IdleTimers, s.idle + 1), SetWorker(s, i, k.(idleDone := true)));
  }

  /** The three tests of stopping(), passed one after the other. */
  lemma DoomIdle(s: State, i: nat)
    requires Lull(s) && i < |s.workers| && s.workers[i].pc == Scan && !s.workers[i].idleDone
    ensures Path(At(s, i, IdleTimers, s.idle + 1), SetWorker(s, i, s.workers[i].(idleDone := true)))
  {
    var k := s.workers[i];
    var s0 := At(s, i, IdleTimers, s.idle + 1);
    PathSelf(s0);
    PathStep(s0, s0, InIdle(i, CheckTimers));
    AtAgain(s, i, k.(pc := IdleTimers), k.(pc := IdlePending));
    assert Path(s0, At(s, i, IdlePending, s.idle + 1));
    PathStep(s0, At(s, i, IdlePending, s.idle + 1), InIdle(i, CheckPending));
    AtAgain(s, i, k.(pc := IdlePending), k.(pc := IdleStopping));
    assert Path(s0, At(s, i, IdleStopping, s.idle + 1));
    PathStep(s0, At(s, i, IdleStopping, s.idle + 1), InIdle(i, CheckStopping));
    AtAgain(s, i, k.(pc := IdleStopping), k.(idleDone := true));
  }

  const Fresh := Worker(Scan, false, None)
  const Doomed := Worker(Scan, true, None)

  lemma {:induction false} DoomFrom(s: State, i: nat)
    requires Lull(s) && i <= |s.workers| && forall j :: i <= j < |s.workers| ==> s.workers[j] == Fresh
    ensures Path(s, s.(workers := s.workers[..i] + seq(|s.workers| - i, k => Doomed)))
    decreases |s.workers| - i
  {
    if i == |s.workers| {
      assert s.workers[..i] + seq(0, k => Doomed) == s.workers;
      PathSelf(s);
    } else {
      var t := SetWorker(s, i, Doomed);
      DoomOne(s, i);
      DoomFrom(t, i + 1);
      assert t.workers[..i + 1] + seq(|s.workers| - i - 1, k => Doomed) == s.workers[..i] + seq(|s.workers| - i, k => Doomed);
      PathTrans(s, t, s.(workers := s.workers[..i] + seq(|s.workers| - i, k => Doomed)));
    }
  }

  /** A worker whose idle fiber has ended leaves as soon as it finds the list empty. */
  lemma {:induction false} LeaveFrom(s: State, i: nat) returns (t: State)
    requires !s.aborted && s.queue.entries == [] && i <= |s.workers|
    requires forall j :: i <= j < |s.workers| ==> s.workers[j].pc == Scan && s.workers[j].idleDone
    requires forall j :: 0 <= j < i ==> s.workers[j].pc == Left
    ensures Path(s, t) && AllLeft(t) && t == s.(workers := t.workers)
    decreases |s.workers| - i
  {
    if i == |s.workers| {
      PathSelf(s);
      t := s;
    } else {
      PathSelf(s);
      PathStep(s, s, InRun(i, Pick));
      var s1 := SetWorker(s, i, s.workers[i].(pc := NoTask));
      PathStep(s, s1, InRun(i, EnterIdle));
      var s2 := SetWorker(s, i, s.workers[i].(pc := Left));
      AtAgain(s, i, s.workers[i].(pc := NoTask), s.workers[i].(pc := Left));
      assert Step(s1, InRun(i, EnterIdle)) == Some(s2);
      t := LeaveFrom(s2, i + 1);
      PathTrans(s, s2, t);
    }
  }

  /** Worker w takes and resumes fiber 0 from the list. */
  lemma ResumeZero(s: State, w: nat) returns (t: State)
    requires !s.aborted && w < |s.workers| && s.workers[w].pc == Scan
    requires |s.queue.entries| == 1 && s.queue.entries[0].task == FiberTask(0) && s.queue.entries[0].pin == None
    requires s.fibers == [Fiber(READY, Code)]
    ensures Path(s, t)
    ensures t == s.(workers := s.workers[w := s.workers[w].(pc := Running(0))], fibers := [Fiber(EXEC, Code)],
                    queue := t.queue, active := s.active + 1)
    ensures t.queue.entries == []
  {
    assert TaskQueue.Eligible(s.queue.entries[0], w, Executing(s.fibers));
    PathSelf(s);
    PathStep(s, s, InRun(w, Pick));
    var s1 := Step(s, InRun(w, Pick)).value;
    PathStep(s, s1, InRun(w, Begin));
    t := Step(s1, InRun(w, Begin)).value;
    AtAgain(s, w, s1.workers[w], t.workers[w]);
    assert t.fibers == [Fiber(EXEC, Code)];
  }

  /** A task is started after stop() and yields READY: worker 0 has decremented the counter
      and not yet re-queued the fiber. */
  lemma FirstLull(n: nat) returns (t: State)
    requires n >= 1
    ensures Path(Init(n), t) && Lull(t) && t.fibers == [Fiber(READY, Code)]
    ensures t.workers == Init(n).workers[0 := Worker(Requeue(0), false, None)]
  {
    var s := Init(n);
    PathSelf(s);
    PathStep(s, s, ExternalSchedule(0, None));
    var s1 := Step(s, ExternalSchedule(0, None)).value;
    PathStep(s, s1, Stop);
    var s2 := s1.(stopped := true);
    assert TaskQueue.Eligible(s2.queue.entries[0], 0, Executing(s2.fibers));
    PathStep(s, s2, InRun(0, Pick));
    var s3 := Step(s2, InRun(0, Pick)).value;
    PathStep(s, s3, InRun(0, Begin));
    var s4 := StartFresh(s3, 0, UserTask(0));
    PathStep(s, s4, InApp(0, YieldReady));
    t := DoYieldReady(s4, 0).value;
    AtAgain(s, 0, s3.workers[0], s4.workers[0]);
    AtAgain(s, 0, s4.workers[0], t.workers[0]);
    assert t.fibers == [Fiber(READY, Code)];
  }

  lemma YieldZero(s: State, w: nat) returns (t: State)
    requires !s.aborted && w < |s.workers| && s.workers[w].pc == Running(0) && s.workers[w].cbFiber == None
    requires s.fibers == [Fiber(EXEC, Code)]
    ensures Path(s, t)
    ensures t == s.(workers := s.workers[w := s.workers[w].(pc := Requeue(0))], fibers := [Fiber(READY, Code)],
                    active := s.active - 1)
  {
    PathSelf(s);
    PathStep(s, s, InApp(w, YieldReady));
    t := Step(s, InApp(w, YieldReady)).value;
    assert t.fibers == [Fiber(READY, Code)];
  }

  lemma RequeueZero(s: State, w: nat) returns (t: State)
    requires !s.aborted && w < |s.workers| && s.workers[w].pc == Requeue(0) && s.queue.entries == []
    ensures Path(s, t)
    ensures t == s.(workers := s.workers[w := s.workers[w].(pc := Scan)], queue := t.queue)
    ensures |t.queue.entries| == 1 && t.queue.entries[0].task == FiberTask(0) && t.queue.entries[0].pin == None
  {
    PathSelf(s);
    PathStep(s, s, InRun(w, Resched));
    t := Step(s, InRun(w, Resched)).value;
  }

  lemma SleepZero(s: State, w: nat) returns (t: State)
    requires !s.aborted && w < |s.workers| && s.workers[w].pc == Running(0) && s.workers[w].cbFiber == None
    requires s.fibers == [Fiber(EXEC, Code)] && s.timers.timers == []
    ensures Path(s, t)
    ensures t == s.(workers := s.workers[w := s.workers[w].(pc := Scan)], fibers := [Fiber(HOLD, SleepArmed)],
                    active := s.active - 1, timers := t.timers, nextAddr := t.nextAddr)
    ensures |t.timers.timers| == 1
  {
    PathSelf(s);
    PathStep(s, s, InWait(w, SleepBegin(1000, 0)));
    var s1 := Step(s, InWait(w, SleepBegin(1000, 0))).value;
    PathStep(s, s1, InWait(w, Suspend));
    t := Step(s1, InWait(w, Suspend)).value;
    assert t.fibers == [Fiber(HOLD, SleepArmed)];
  }

  /** From the first lull until every worker's idle fiber has ended and fiber 0 is listed. */
  lemma AllDoomed(n: nat) returns (t: State)
    requires n >= 2
    ensures Path(Init(n), t) && !t.aborted && t.timers.timers == [] && t.fibers == [Fiber(READY, Code)]
    ensures |t.workers| == n && forall j :: 0 <= j < n ==> t.workers[j] == Doomed
    ensures |t.queue.entries| == 1 && t.queue.entries[0].task == FiberTask(0) && t.queue.entries[0].pin == None
  {
    var l1 := FirstLull(n);
    DoomFrom(l1, 1);
    var d1 := l1.(workers := l1.workers[..1] + seq(n - 1, k => Doomed));
    PathTrans(Init(n), l1, d1);
    var q1 := RequeueZero(d1, 0);
    PathTrans(Init(n), d1, q1);
    var r1 := ResumeZero(q1, 1);
    PathTrans(Init(n), q1, r1);
    var l2 := YieldZero(r1, 1);
    PathTrans(Init(n), r1, l2);
    DoomOne(l2, 0);
    var d2 := SetWorker(l2, 0, Doomed);
    PathTrans(Init(n), l2, d2);
    t := RequeueZero(d2, 1);
    PathTrans(Init(n), d2, t);
  }

  /** With two or more workers a run exists in which every worker leaves while a fiber is
      still asleep with its timer pending: the workers leave on stopping() results that
      predate the sleep. */
  lemma ManyWorkersAbandon(n: nat) returns (s: State)
    requires n >= 2
    ensures Reachable(n, s) && AllLeft(s) && |s.fibers| == 1
    ensures s.fibers[0].state == HOLD && !Finished(s, 0) && s.timers.timers != []
  {
    var t := AllDoomed(n);
    var r := ResumeZero(t, 1);
    PathTrans(Init(n), t, r);
    var z := SleepZero(r, 1);
    PathTrans(Init(n), r, z);
    s := LeaveFrom(z, 0);
    PathTrans(Init(n), z, s);
  }

  ghost predicate Drains(threads: nat) {
    forall s :: Reachable(threads, s) && AllLeft(s) ==> forall f: FiberId :: f < |s.fibers| ==> Finished(s, f)
  }

  /** Stopping drains every fiber in every run exactly when there is one worker thread. */
  lemma DrainsExactlyWithOneWorker(threads: nat)
    requires threads > 0
    ensures Drains(threads) <==> threads == 1
  {
    if threads == 1 {
      forall s | Reachable(threads, s) && AllLeft(s)
        ensures forall f: FiberId :: f < |s.fibers| ==> Finished(s, f)
      {
        SingleWorkerDrains(s);
      }
    } else {
      var s := ManyWorkersAbandon(threads);
    }
  }
}
