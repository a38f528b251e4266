/** Runs that show what the runtime can come to: a timeout lost, and a failed assertion. */
module Scenarios {
  import opened Common
  import opened Tasks
  import opened Runtime
  import opened Paths
  import opened Timeouts
  import opened LostTimeouts
  import TaskQueue
  import Registry
  import Timers
  import Wakeup
  import Shutdown

  const Rested := Worker(Scan, false, None)
  const Busy := Worker(Running(0), false, Some(0))

  /** A task from outside, taken and started by worker 0 in fiber 0. */
  lemma StartTask(n: nat) returns (t: State)
    requires n >= 1
    ensures Path(Init(n), t) && t.queue.entries == []
    ensures t == Init(n).(workers := Init(n).workers[0 := Busy], fibers := [Fiber(EXEC, Code)], queue := t.queue, active := 1)
  {
    var s := Init(n);
    PathSelf(s);
    PathStep(s, s, ExternalSchedule(0, None));
    var s1 := Step(s, ExternalSchedule(0, None)).value;
    assert TaskQueue.Eligible(s1.queue.entries[0], 0, Executing(s1.fibers));
    PathStep(s, s1, InRun(0, Pick));
    var s2 := Step(s1, InRun(0, Pick)).value;
    PathStep(s, s2, InRun(0, Begin));
    t := Step(s2, InRun(0, Begin)).value;
    assert s2.workers[0 := Busy] == s.workers[0 := Busy];
  }

  /** Fiber 0 calls do_io, finds nothing, and is about to register. */
  lemma TryIo(s: State, fd: nat, ev: Event, timeout: Option<nat>) returns (t: State)
    requires !s.aborted && |s.workers| > 0 && s.workers[0] == Busy && s.fibers == [Fiber(EXEC, Code)]
    requires s.timers.timers == [] && s.nextOp == 0 && s.ops == map[] && s.nextAddr == 0
    ensures Path(s, t)
    ensures var a := if timeout.Some? then Some(0) else None;
      t == s.(fibers := [Fiber(EXEC, IoTimed(0, fd, ev, a))], ops := map[0 := false], nextOp := 1,
              timers := t.timers, nextAddr := t.nextAddr)
    ensures timeout.None? ==> t.timers == s.timers
    ensures timeout.Some? ==>
      t.timers.timers == [Timers.TimerRec(0, Timers.Deadline(0, timeout.value), timeout.value, false, IoTimeout(0, fd, ev))]
  {
    PathSelf(s);
    PathStep(s, s, InWait(0, IoBegin(fd, ev)));
    var s1 := Step(s, InWait(0, IoBegin(fd, ev))).value;
    assert s1.fibers == [Fiber(EXEC, IoTry(0, fd, ev))];
    PathStep(s, s1, InWait(0, IoAgain(timeout, 0)));
    t := Step(s1, InWait(0, IoAgain(timeout, 0))).value;
    assert t.fibers == [Fiber(EXEC, IoTimed(0, fd, ev, if timeout.Some? then Some(0) else None))];
  }

  /** A worker with nothing to do comes to the end of its poll. */
  lemma PollBegins(s: State, w: nat) returns (t: State)
    requires !s.aborted && w < |s.workers| && s.workers[w] == Rested && s.queue.entries == []
    requires s.timers.timers != [] || s.reg.pending != 0
    ensures Path(s, t)
    ensures t == s.(workers := s.workers[w := Worker(Poll, false, None)], idle := s.idle + 1, timers := s.timers.(tickled := false))
  {
    PathSelf(s);
    PathStep(s, s, InRun(w, Pick));
    var s1 := Step(s, InRun(w, Pick)).value;
    PathStep(s, s1, InRun(w, EnterIdle));
    var s2 := Step(s1, InRun(w, EnterIdle)).value;
    PathStep(s, s2, InIdle(w, CheckTimers));
    var s3 := Step(s2, InIdle(w, CheckTimers)).value;
    t := s3;
    if s.timers.timers == [] {
      PathStep(s, s3, InIdle(w, CheckPending));
      t := Step(s3, InIdle(w, CheckPending)).value;
    }
    assert t.workers == s.workers[w := Worker(Poll, false, None)];
  }

  /** The due timeout goes from the timers to the list. */
  lemma PollEnds(s: State, w: nat, rec: Timers.TimerRec) returns (t: State)
    requires !s.aborted && w < |s.workers| && s.workers[w] == Worker(Poll, false, None) && s.queue.entries == []
    requires s.timers.timers == [rec] && !rec.recurring
    ensures Path(s, t) && |t.queue.entries| == 1 && t.queue.entries[0].task == CbTask(rec.cb) && t.queue.entries[0].pin == None
    ensures t == s.(workers := s.workers[w := Rested], idle := s.idle - 1, timers := t.timers, queue := t.queue)
    ensures t.timers.timers == []
  {
    PathSelf(s);
    var now := rec.next;
    PathStep(s, s, InIdle(w, ListExpired(now)));
    var s1 := Step(s, InIdle(w, ListExpired(now))).value;
    ExpireOne(s.timers, rec, now);
    PathStep(s, s1, InIdle(w, ScheduleExpired));
    var s2 := Step(s1, InIdle(w, ScheduleExpired)).value;
    assert AsTasks([rec.cb]) == [CbTask(rec.cb)];
    PushOne(s.queue, CbTask(rec.cb));
    PathStep(s, s2, InIdle(w, LeaveIdle));
    t := Step(s2, InIdle(w, LeaveIdle)).value;
    assert t.workers == s.workers[w := Rested];
  }

  lemma PushOne(q: TaskQueue.Queue, task: Task)
    ensures TaskQueue.PushAll(q, [task]) == TaskQueue.Push(q, task, None)
  {
    assert [task][1..] == [];
    assert TaskQueue.PushAll(q, [task]) == TaskQueue.PushAll(TaskQueue.Push(q, task, None), [task][1..]);
  }

  lemma ExpireOne(q: Timers.TimerQueue, rec: Timers.TimerRec, now: nat)
    requires q.timers == [rec] && rec.next == now && !rec.recurring
    ensures Timers.Expire(q, now).0 == [rec.cb] && Timers.Expire(q, now).1.timers == []
  {
    assert Timers.ExpireCount(q, now) == 1;
    assert [rec][..1] == [rec] && [rec][1..] == [];
    assert Timers.Rearm([], [rec], now) == Timers.Rearm([], [rec][1..], now) == [];
    assert Timers.Callbacks([rec]) == [rec.cb];
  }

  /** Worker w starts the timeout of call 0. */
  lemma StartTimeout(s: State, w: nat, fd: nat, ev: Event) returns (t: State)
    requires !s.aborted && w < |s.workers| && s.workers[w] == Rested && |s.fibers| == 1
    requires |s.queue.entries| == 1 && s.queue.entries[0].task == CbTask(IoTimeout(0, fd, ev)) && s.queue.entries[0].pin == None
    ensures Path(s, t) && t.queue.entries == []
    ensures t == s.(workers := s.workers[w := Worker(Running(1), false, Some(1))],
                    fibers := s.fibers + [Fiber(EXEC, Expiring(0, fd, ev))], queue := t.queue, active := s.active + 1)
  {
    PathSelf(s);
    assert TaskQueue.Eligible(s.queue.entries[0], w, Executing(s.fibers));
    PathStep(s, s, InRun(w, Pick));
    var s1 := Step(s, InRun(w, Pick)).value;
    PathStep(s, s1, InRun(w, Begin));
    t := Step(s1, InRun(w, Begin)).value;
    assert t.workers == s.workers[w := Worker(Running(1), false, Some(1))];
  }

  /** It marks the call and finds nothing to cancel. */
  lemma RunTimeoutEarly(s: State, w: nat, fd: nat, ev: Event) returns (t: State)
    requires !s.aborted && w < |s.workers| && s.workers[w] == Worker(Running(1), false, Some(1)) && |s.fibers| == 2
    requires s.fibers[1] == Fiber(EXEC, Expiring(0, fd, ev))
    requires s.ops == map[0 := false] && fd < |s.reg.fds| && s.reg.fds[fd] == Registry.EmptyFd
    ensures Path(s, t)
    ensures t == s.(workers := s.workers[w := Worker(Scan, false, Some(1))], fibers := s.fibers[1 := Fiber(INIT, Code)],
                    ops := map[0 := true], active := s.active - 1)
  {
    PathSelf(s);
    PathStep(s, s, InWait(w, RunTimeout));
    var s1 := Step(s, InWait(w, RunTimeout)).value;
    assert s1 == s.(fibers := s.fibers[1 := Fiber(EXEC, Cancelling(0, fd, ev))], ops := map[0 := true]);
    PathStep(s, s1, InWait(w, RunCancel(true)));
    var s2 := Step(s1, InWait(w, RunCancel(true))).value;
    assert s2 == s1.(fibers := s.fibers[1 := Fiber(EXEC, Code)]);
    PathStep(s, s2, InApp(w, Finish(false)));
    t := Step(s2, InApp(w, Finish(false))).value;
    assert t.fibers == s.fibers[1 := Fiber(INIT, Code)];
  }

  /** Fiber 0 registers and is suspended. */
  lemma Register(s: State, fd: nat, ev: Event, a: Option<nat>) returns (t: State)
    requires !s.aborted && |s.workers| > 0 && s.workers[0] == Busy && |s.fibers| > 0
    requires s.fibers[0] == Fiber(EXEC, IoTimed(0, fd, ev, a)) && fd < |s.reg.fds| && s.reg.fds[fd] == Registry.EmptyFd
    ensures Path(s, t)
    ensures t == s.(workers := s.workers[0 := Rested], fibers := s.fibers[0 := Fiber(HOLD, IoArmed(0, fd, ev, a))],
                    reg := t.reg, active := s.active - 1)
    ensures fd < |t.reg.fds| && FiberAt(t.reg, fd, ev, 0) && t.reg.pending == s.reg.pending + 1
    ensures t.reg.fds[fd].events == Registry.NoEvents.Set(ev, true)
  {
    PathSelf(s);
    PathStep(s, s, InWait(0, IoRegister(true)));
    var s1 := Step(s, InWait(0, IoRegister(true))).value;
    PathStep(s, s1, InWait(0, Suspend));
    t := Step(s1, InWait(0, Suspend)).value;
    assert t.fibers == s.fibers[0 := Fiber(HOLD, IoArmed(0, fd, ev, a))];
  }

  /** With two or more workers fiber 0 can come to register after its timeout has come and gone. */
  lemma EarlyTimeout(n: nat) returns (s: State)
    requires n >= 2
    ensures Path(Init(n), s) && s.queue.entries == [] && s.timers.timers == [] && s.ops == map[0 := true]
    ensures s.workers == Init(n).workers[0 := Busy][1 := Worker(Scan, false, Some(1))]
    ensures s.fibers == [Fiber(EXEC, IoTimed(0, 5, Read, Some(0))), Fiber(INIT, Code)] && s.reg == Registry.Fresh && !s.aborted
  {
    var s0 := Init(n);
    var s1 := StartTask(n);
    var s2 := TryIo(s1, 5, Read, Some(1));
    PathTrans(s0, s1, s2);
    var s3 := PollBegins(s2, 1);
    PathTrans(s0, s2, s3);
    var s4 := PollEnds(s3, 1, s2.timers.timers[0]);
    PathTrans(s0, s3, s4);
    var s5 := StartTimeout(s4, 1, 5, Read);
    PathTrans(s0, s4, s5);
    s := RunTimeoutEarly(s5, 1, 5, Read);
    PathTrans(s0, s5, s);
    assert s.workers == s0.workers[0 := Busy][1 := Worker(Scan, false, Some(1))];
  }

  /** And then the timeout is lost for good: fiber 0 is suspended in do_io, its timeout has elapsed
      and been run, no timer is set, no task is listed, and all workers are free. */
  lemma TimeoutLostRun(n: nat) returns (s: State)
    requires n >= 2
    ensures Reachable(n, s) && Lost(s, 0) && s.fibers[0] == Fiber(HOLD, IoArmed(0, 5, Read, Some(0)))
    ensures s.ops == map[0 := true] && s.timers.timers == [] && s.queue.entries == []
    ensures |s.workers| == n && forall w :: 0 <= w < n ==> s.workers[w].pc == Scan
  {
    var s1 := EarlyTimeout(n);
    s := Register(s1, 5, Read, Some(0));
    PathTrans(Init(n), s1, s);
    assert s.fibers == [Fiber(HOLD, IoArmed(0, 5, Read, Some(0))), Fiber(INIT, Code)];
  }

  /** A fiber waits to write, and worker 0 comes to deliver events. */
  lemma WriterWaits(n: nat) returns (s: State)
    requires n >= 1
    ensures Path(Init(n), s) && !s.aborted && |s.workers| > 0 && s.workers[0].pc == Delivering
    ensures 5 < |s.reg.fds| && s.reg.fds[5].events == Registry.Mask(false, true)
  {
    var s0 := Init(n);
    var s1 := StartTask(n);
    var s2 := TryIo(s1, 5, Write, None);
    PathTrans(s0, s1, s2);
    var s3 := Register(s2, 5, Write, None);
    PathTrans(s0, s2, s3);
    var s4 := PollBegins(s3, 0);
    PathTrans(s0, s3, s4);
    s := PollIdle(s4, 0);
    PathTrans(s0, s4, s);
  }

  /** The peer hangs up, and delivering that fails the assertion. */
  lemma HangupAbortRun(n: nat) returns (s: State, a: Action)
    requires n >= 1
    ensures Reachable(n, s) && a == InIdle(0, DeliverEvent(5, Registry.NoEvents, true, true))
    ensures Step(s, a).Some? && Step(s, a).value.aborted
  {
    s := WriterWaits(n);
    a := InIdle(0, DeliverEvent(5, Registry.NoEvents, true, true));
    HangupTriggersRead(s.reg, 5);
  }

  lemma HangupTriggersRead(r: Registry.Registry, fd: nat)
    requires fd < |r.fds| && r.fds[fd].events == Registry.Mask(false, true)
    ensures Registry.Deliver(r, fd, Registry.NoEvents, true, true).Abort?
  {
  }

  /** With no timers the poll passes on to the delivered events. */
  lemma PollIdle(s: State, w: nat) returns (t: State)
    requires !s.aborted && w < |s.workers| && s.workers[w].pc == Poll && s.timers.timers == []
    ensures Path(s, t)
    ensures t == s.(workers := s.workers[w := s.workers[w].(pc := Delivering)], timers := t.timers)
  {
    PathSelf(s);
    PathStep(s, s, InIdle(w, ListExpired(0)));
    var s1 := Step(s, InIdle(w, ListExpired(0))).value;
    PathStep(s, s1, InIdle(w, ScheduleExpired));
    t := Step(s1, InIdle(w, ScheduleExpired)).value;
    assert t.workers == s.workers[w := s.workers[w].(pc := Delivering)];
  }

  // ---------- one worker ----------

  /** A call that has not registered yet is not marked. */
  predicate Unmarked(s: State) {
    forall f :: 0 <= f < |s.fibers| && BeforeRegister(s.fibers[f].phase) ==> !Marked(s, s.fibers[f].phase.op)
  }

  /** A lone worker runs a timeout only while no other fiber is running. */
  lemma SoloTimeout(s: State, f: FiberId)
    requires Wakeup.Inv(s) && |s.workers| == 1 && Runs(s, 0) && f < |s.fibers| && f != s.workers[0].pc.f
    ensures !BeforeRegister(s.fibers[f].phase)
  {
    assert Wakeup.FiberOk(s, f);
    SumZero(s.workers, Wakeup.RunnerOf(f));
  }

  predicate BeforeRegister(p: Phase) { p.IoTry? || p.IoTimed? }

  /** Only the running fiber is inside do_io before its registration. */
  predicate Alone(s: State, g: FiberId) {
    forall f :: 0 <= f < |s.fibers| && f != g ==> !BeforeRegister(s.fibers[f].phase)
  }

  lemma UnmarkedMove(s: State, t: State, g: FiberId)
    requires g < |s.fibers| == |t.fibers| && Alone(s, g) && t.fibers == s.fibers[g := t.fibers[g]]
    requires BeforeRegister(t.fibers[g].phase) ==> !Marked(t, t.fibers[g].phase.op)
    ensures Unmarked(t)
  {
    assert forall f :: 0 <= f < |t.fibers| && f != g ==> t.fibers[f] == s.fibers[f];
  }

  lemma UnmarkedCall(s: State, w: nat, x: WaitStep)
    requires Unmarked(s) && StepWait(s, w, x).Some? && Alone(s, s.workers[w].pc.f)
    requires x.IoBegin? || x.IoReturn? || x.IoAgain? || x.IoTest?
    ensures Unmarked(StepWait(s, w, x).value)
  {
    UnmarkedMove(s, StepWait(s, w, x).value, s.workers[w].pc.f);
  }

  lemma UnmarkedTimeout(s: State, w: nat, x: WaitStep)
    requires Unmarked(s) && StepWait(s, w, x).Some? && Alone(s, s.workers[w].pc.f)
    requires x.IoCancelTimer? || x.RunTimeout? || x.RunCancel?
    ensures Unmarked(StepWait(s, w, x).value)
  {
    UnmarkedMove(s, StepWait(s, w, x).value, s.workers[w].pc.f);
  }

  lemma UnmarkedRegister(s: State, w: nat, ok: bool)
    requires Unmarked(s) && DoIoRegister(s, w, ok).Some? && Alone(s, s.workers[w].pc.f)
    ensures Unmarked(DoIoRegister(s, w, ok).value)
  {
    var p := s.fibers[s.workers[w].pc.f].phase;
    if !Registry.AddEvent(s.reg, p.fd, p.ev, FiberTask(s.workers[w].pc.f), ok).Abort? {
      UnmarkedMove(s, DoIoRegister(s, w, ok).value, s.workers[w].pc.f);
    }
  }

  lemma UnmarkedWait(s: State, w: nat, x: WaitStep)
    requires T(s) && Wakeup.Inv(s) && Unmarked(s) && |s.workers| == 1 && StepWait(s, w, x).Some?
    ensures Unmarked(StepWait(s, w, x).value)
  {
    forall f: FiberId | f < |s.fibers| && f != s.workers[w].pc.f
      ensures !BeforeRegister(s.fibers[f].phase)
    {
      SoloTimeout(s, f);
    }
    match x {
      case SleepBegin(ms, now) =>
        SleepQuiet(s, w, ms, now);
        UnmarkedStays(s, StepWait(s, w, x).value);
      case Suspend =>
        StopQuiet(s, StepWait(s, w, x).value, w);
        UnmarkedStays(s, StepWait(s, w, x).value);
      case RunWake =>
        RunWakeQuiet(s, w);
        UnmarkedStays(s, StepWait(s, w, x).value);
      case IoRegister(ok) => UnmarkedRegister(s, w, ok);
      case IoCancelTimer => UnmarkedTimeout(s, w, x);
      case RunTimeout => UnmarkedTimeout(s, w, x);
      case RunCancel(_) => UnmarkedTimeout(s, w, x);
      case _ => UnmarkedCall(s, w, x);
    }
  }

  lemma UnmarkedStays(s: State, t: State)
    requires Unmarked(s) && Undisturbed(s, t)
    ensures Unmarked(t)
  {
  }

  lemma UnmarkedStep(s: State, a: Action)
    requires T(s) && Wakeup.Inv(s) && Unmarked(s) && |s.workers| == 1 && Step(s, a).Some?
    ensures Unmarked(Step(s, a).value)
  {
    match a {
      case InWait(w, x) => UnmarkedWait(s, w, x);
      case _ =>
        StepPasses(s, a);
        UnmarkedStays(s, Step(s, a).value);
    }
  }

  lemma {:induction false} UnmarkedRun(s: State, acts: seq<Action>)
    requires T(s) && Wakeup.Inv(s) && Unmarked(s) && |s.workers| == 1 && Run(s, acts).Some?
    ensures Unmarked(Run(s, acts).value)
    decreases |acts|
  {
    if acts != [] {
      UnmarkedStep(s, acts[0]);
      Shutdown.OneWorkerMoves(s, acts[0]);
      StepKeeps(s, acts[0]);
      Wakeup.StepKeeps(s, acts[0]);
      UnmarkedRun(Step(s, acts[0]).value, acts[1..]);
    }
  }

  /** Some run makes a registration that loses its timeout. */
  ghost predicate LosesByRegistering(threads: nat) {
    exists s, w, f :: Reachable(threads, s) && Harmful(s, InWait(w, IoRegister(true)), f)
  }

  /** Registering loses a timeout in some run exactly when there are at least two workers. */
  lemma LosesExactlyWithSeveral(threads: nat)
    requires threads > 0
    ensures LosesByRegistering(threads) <==> threads >= 2
  {
    if threads >= 2 {
      var s := EarlyTimeout(threads);
      assert Harmful(s, InWait(0, IoRegister(true)), 0);
    } else {
      forall s, w, f | Reachable(threads, s)
        ensures !Harmful(s, InWait(w, IoRegister(true)), f)
      {
        var acts :| Run(Init(threads), acts) == Some(s);
        InitT(threads);
        Wakeup.InitInv(threads);
        UnmarkedRun(Init(threads), acts);
      }
    }
  }
}
