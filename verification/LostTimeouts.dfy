/** When the timeout of a waiting fiber is lost: exactly when the fiber registers after its timeout
    has come and gone, or when epoll refuses the cancellation. */
module LostTimeouts {
  import opened Tasks
  import opened Runtime
  import opened Timeouts
  import Registry
  import Wakeup

  /** Fiber f waits in do_io with a timeout, and its registration stands. */
  predicate Waiting(s: State, f: FiberId) {
    && f < |s.fibers| && s.fibers[f].phase.IoArmed? && s.fibers[f].phase.timer.Some?
    && FiberAt(s.reg, s.fibers[f].phase.fd, s.fibers[f].phase.ev, f)
  }

  /** Its timeout is used up: the call is marked and nobody is about to cancel the event. */
  predicate Lost(s: State, f: FiberId) {
    Waiting(s, f) && var p := s.fibers[f].phase; Marked(s, p.op) && !Cancels(s, p.op, p.fd, p.ev)
  }

  /** The two steps that lose the timeout of fiber f: registering after it has come and gone, and
      its cancelEvent failing in epoll_ctl. */
  predicate Harmful(s: State, a: Action, f: FiberId) {
    match a
    case InWait(w, IoRegister(ok)) =>
      && ok && Runs(s, w) && s.workers[w].pc.f == f && s.fibers[f].phase.IoTimed? && s.fibers[f].phase.timer.Some?
      && var p := s.fibers[f].phase;
      && Marked(s, p.op) && !Cancels(s, p.op, p.fd, p.ev) && !(p.fd < |s.reg.fds| && s.reg.fds[p.fd].events.Has(p.ev))
    case InWait(w, RunCancel(ok)) =>
      && !ok && Runs(s, w) && Waiting(s, f)
      && var p := s.fibers[f].phase; s.fibers[s.workers[w].pc.f].phase == Cancelling(p.op, p.fd, p.ev)
    case _ => false
  }

  // ---------- one step ----------

  /** Lost afterwards: lost before and still waiting, or lost by this step. */
  predicate LostBy(s: State, t: State, a: Action, f: FiberId) {
    Lost(t, f) <==> (Lost(s, f) && Waiting(t, f)) || Harmful(s, a, f)
  }

  lemma UndisturbedLost(s: State, t: State, f: FiberId)
    requires Undisturbed(s, t)
    ensures Lost(t, f) <==> Lost(s, f) && Waiting(t, f)
  {
    if Waiting(t, f) {
      var p := t.fibers[f].phase;
      if Cancels(s, p.op, p.fd, p.ev) {
        var g :| 0 <= g < |s.fibers| && s.fibers[g].phase == Cancelling(p.op, p.fd, p.ev);
        assert t.fibers[g].phase == Cancelling(p.op, p.fd, p.ev);
      }
      if Cancels(t, p.op, p.fd, p.ev) {
        var g :| 0 <= g < |t.fibers| && t.fibers[g].phase == Cancelling(p.op, p.fd, p.ev);
        assert s.fibers[g].phase == Cancelling(p.op, p.fd, p.ev);
      }
    }
  }

  /** A move of fiber g that neither arms its wait nor begins or ends a cancellation. */
  lemma MoverLost(s: State, t: State, g: FiberId, f: FiberId)
    requires g < |s.fibers| == |t.fibers| && t.fibers == s.fibers[g := t.fibers[g]]
    requires !t.fibers[g].phase.IoArmed? && !t.fibers[g].phase.Cancelling?
    requires !s.fibers[g].phase.IoArmed? && !s.fibers[g].phase.Cancelling?
    requires forall fd: nat, ev, h: FiberId :: FiberAt(t.reg, fd, ev, h) ==> FiberAt(s.reg, fd, ev, h)
    requires f < |s.fibers| && f != g && InIo(s.fibers[f].phase) ==> (Marked(t, s.fibers[f].phase.op) <==> Marked(s, s.fibers[f].phase.op))
    ensures Lost(t, f) <==> Lost(s, f) && Waiting(t, f)
  {
    if Waiting(t, f) {
      var p := t.fibers[f].phase;
      SameCancels(s, t, g, p.op, p.fd, p.ev);
    }
  }

  lemma SameCancels(s: State, t: State, g: FiberId, op: nat, fd: nat, ev: Event)
    requires g < |s.fibers| == |t.fibers| && t.fibers == s.fibers[g := t.fibers[g]]
    requires s.fibers[g].phase != Cancelling(op, fd, ev) && t.fibers[g].phase != Cancelling(op, fd, ev)
    ensures Cancels(s, op, fd, ev) <==> Cancels(t, op, fd, ev)
  {
    if Cancels(s, op, fd, ev) {
      var h :| 0 <= h < |s.fibers| && s.fibers[h].phase == Cancelling(op, fd, ev);
      assert t.fibers[h].phase == Cancelling(op, fd, ev);
    }
    if Cancels(t, op, fd, ev) {
      var h :| 0 <= h < |t.fibers| && t.fibers[h].phase == Cancelling(op, fd, ev);
      assert s.fibers[h].phase == Cancelling(op, fd, ev);
    }
  }

  lemma RegisterLost(s: State, w: nat, ok: bool, f: FiberId)
    requires T(s) && Registry.Consistent(s.reg) && DoIoRegister(s, w, ok).Some?
    ensures LostBy(s, DoIoRegister(s, w, ok).value, InWait(w, IoRegister(ok)), f)
  {
    var g := s.workers[w].pc.f;
    var p := s.fibers[g].phase;
    Registry.AddConsistent(s.reg, p.fd, p.ev, FiberTask(g), ok);
    match Registry.AddEvent(s.reg, p.fd, p.ev, FiberTask(g), ok) {
      case Abort =>
        FlagsQuiet(s, s.(aborted := true));
        UndisturbedLost(s, s.(aborted := true), f);
      case Refused(r) => RefusedLost(s, w, ok, f);
      case Done(r, woken) => DoneLost(s, w, ok, f);
    }
  }

  lemma RefusedLost(s: State, w: nat, ok: bool, f: FiberId)
    requires T(s) && DoIoRegister(s, w, ok).Some?
    requires var g := s.workers[w].pc.f;
      var p := s.fibers[g].phase; Registry.AddEvent(s.reg, p.fd, p.ev, FiberTask(g), ok).Refused?
    ensures Lost(DoIoRegister(s, w, ok).value, f) <==> Lost(s, f) && Waiting(DoIoRegister(s, w, ok).value, f)
  {
    var g := s.workers[w].pc.f;
    var p := s.fibers[g].phase;
    CallsAlive(s);
    AddKept(s.reg, p.fd, p.ev, FiberTask(g), ok);
    MoverLost(s, DoIoRegister(s, w, ok).value, g, f);
  }

  lemma DoneLost(s: State, w: nat, ok: bool, f: FiberId)
    requires OnlyUser(s.reg) && DoIoRegister(s, w, ok).Some?
    requires var g := s.workers[w].pc.f;
      var p := s.fibers[g].phase; Registry.AddEvent(s.reg, p.fd, p.ev, FiberTask(g), ok).Done?
    ensures LostBy(s, DoIoRegister(s, w, ok).value, InWait(w, IoRegister(ok)), f)
  {
    var g := s.workers[w].pc.f;
    var p := s.fibers[g].phase;
    AddKept(s.reg, p.fd, p.ev, FiberTask(g), ok);
    RegisteredLost(s, DoIoRegister(s, w, ok).value, g, f);
  }

  /** The fiber that has just registered, and the others. */
  lemma RegisteredLost(s: State, t: State, g: FiberId, f: FiberId)
    requires g < |s.fibers| == |t.fibers| && t.fibers == s.fibers[g := t.fibers[g]] && s.fibers[g].phase.IoTimed?
    requires var p := s.fibers[g].phase; t.fibers[g].phase == IoArmed(p.op, p.fd, p.ev, p.timer) && FiberAt(t.reg, p.fd, p.ev, g)
    requires t.ops == s.ops
    requires forall fd: nat, ev, h: FiberId :: FiberAt(t.reg, fd, ev, h) ==> FiberAt(s.reg, fd, ev, h) || h == g
    ensures f != g ==> (Lost(t, f) <==> Lost(s, f) && Waiting(t, f))
    ensures var p := s.fibers[g].phase;
      !Lost(s, g) && (Lost(t, g) <==> p.timer.Some? && Marked(s, p.op) && !Cancels(s, p.op, p.fd, p.ev))
  {
    var p := s.fibers[g].phase;
    SameCancels(s, t, g, p.op, p.fd, p.ev);
    if Waiting(t, f) {
      var q := t.fibers[f].phase;
      SameCancels(s, t, g, q.op, q.fd, q.ev);
    }
  }

  lemma TimeoutLost(s: State, w: nat, f: FiberId)
    requires T(s) && DoRunTimeout(s, w).Some?
    ensures LostBy(s, DoRunTimeout(s, w).value, InWait(w, RunTimeout), f)
  {
    var t := DoRunTimeout(s, w).value;
    var g := s.workers[w].pc.f;
    var c := s.fibers[g].phase;
    if Marked(s, c.op) || c.op !in s.ops {
      MoverLost(s, t, g, f);
    } else if Waiting(t, f) {
      var p := t.fibers[f].phase;
      if p.op == c.op {
        assert FiberT(s, f) && Started(s.fibers, IoTimeout(c.op, c.fd, c.ev));
        assert Known(s, IoTimeout(c.op, c.fd, c.ev));
        assert AgreesWith(p, IoTimeout(c.op, c.fd, c.ev));
        assert t.fibers[g].phase == Cancelling(p.op, p.fd, p.ev);
      } else {
        SameCancels(s, t, g, p.op, p.fd, p.ev);
      }
    }
  }

  /** cancelEvent takes the continuation out of the registry exactly when epoll agrees. */
  lemma CancelTakes(r: Registry.Registry, fd: nat, ev: Event, ok: bool, f: FiberId)
    requires FiberAt(r, fd, ev, f) && Registry.FdOk(r.fds[fd])
    ensures var out := Registry.CancelEvent(r, fd, ev, ok);
      if ok then out.Done? && !FiberAt(out.reg, fd, ev, f) else out.Refused? && out.reg.fds == r.fds
  {
  }

  lemma CancelLost(s: State, w: nat, ok: bool, f: FiberId)
    requires T(s) && Registry.Consistent(s.reg) && DoRunCancel(s, w, ok).Some?
    ensures LostBy(s, DoRunCancel(s, w, ok).value, InWait(w, RunCancel(ok)), f)
  {
    var c := s.fibers[s.workers[w].pc.f].phase;
    if f < |s.fibers| && s.fibers[f].phase.IoArmed? {
      assert FiberT(s, f);
      if s.fibers[f].phase.op == c.op { OwnCancelLost(s, w, ok, f); } else { OtherCancelLost(s, w, ok, f); }
    }
  }

  /** The timeout's own cancellation: it wakes the fiber, or epoll refuses and the timeout is lost. */
  lemma OwnCancelLost(s: State, w: nat, ok: bool, f: FiberId)
    requires OpsT(s) && DoRunCancel(s, w, ok).Some? && f < |s.fibers|
    requires Waiting(s, f) ==> Registry.FdOk(s.reg.fds[s.fibers[f].phase.fd])
    requires s.fibers[f].phase.IoArmed? && s.fibers[f].phase.op == s.fibers[s.workers[w].pc.f].phase.op
    requires s.fibers[f].phase.op in s.ops
    ensures LostBy(s, DoRunCancel(s, w, ok).value, InWait(w, RunCancel(ok)), f)
  {
    var g := s.workers[w].pc.f;
    var p := s.fibers[f].phase;
    OnlyCanceller(s, DoRunCancel(s, w, ok).value, g, p);
    if Waiting(s, f) { CancelTakes(s.reg, p.fd, p.ev, ok, f); }
    CancelAdds(s.reg, p.fd, p.ev, ok, f);
  }

  lemma CancelAdds(r: Registry.Registry, fd: nat, ev: Event, ok: bool, f: FiberId)
    ensures var out := Registry.CancelEvent(r, fd, ev, ok);
      !out.Abort? && FiberAt(out.reg, fd, ev, f) ==> FiberAt(r, fd, ev, f)
  {
  }

  lemma OtherCancelLost(s: State, w: nat, ok: bool, f: FiberId)
    requires OnlyUser(s.reg) && DoRunCancel(s, w, ok).Some? && f < |s.fibers|
    requires s.fibers[f].phase.IoArmed? && s.fibers[f].phase.op != s.fibers[s.workers[w].pc.f].phase.op
    ensures LostBy(s, DoRunCancel(s, w, ok).value, InWait(w, RunCancel(ok)), f)
  {
    var g := s.workers[w].pc.f;
    var c, p := s.fibers[g].phase, s.fibers[f].phase;
    CancelKept(s.reg, c.fd, c.ev, ok);
    SameCancels(s, DoRunCancel(s, w, ok).value, g, p.op, p.fd, p.ev);
  }

  /** A call has one canceller, and none when that one is done. */
  lemma OnlyCanceller(s: State, t: State, g: FiberId, p: Phase)
    requires OpsT(s) && g < |s.fibers| == |t.fibers| && t.fibers == s.fibers[g := t.fibers[g]] && t.fibers[g].phase == Code
    requires InIo(p) && s.fibers[g].phase.Cancelling? && s.fibers[g].phase.op == p.op
    ensures !Cancels(t, p.op, p.fd, p.ev)
  {
    forall h | 0 <= h < |t.fibers| && h != g
      ensures !(t.fibers[h].phase.Cancelling? && t.fibers[h].phase.op == p.op)
    {
    }
  }

  /** The other steps of do_io. */
  lemma CallLost(s: State, w: nat, x: WaitStep, f: FiberId)
    requires T(s) && StepWait(s, w, x).Some?
    requires x.IoBegin? || x.IoReturn? || x.IoAgain? || x.IoCancelTimer? || x.IoTest?
    ensures LostBy(s, StepWait(s, w, x).value, InWait(w, x), f)
  {
    CallsAlive(s);
    MoverLost(s, StepWait(s, w, x).value, s.workers[w].pc.f, f);
  }

  lemma WaitLost(s: State, w: nat, x: WaitStep, f: FiberId)
    requires T(s) && Wakeup.Inv(s) && StepWait(s, w, x).Some?
    ensures LostBy(s, StepWait(s, w, x).value, InWait(w, x), f)
  {
    var t := StepWait(s, w, x).value;
    match x {
      case IoRegister(ok) => RegisterLost(s, w, ok, f);
      case RunTimeout => TimeoutLost(s, w, f);
      case RunCancel(ok) => CancelLost(s, w, ok, f);
      case SleepBegin(ms, now) =>
        SleepQuiet(s, w, ms, now);
        UndisturbedLost(s, t, f);
      case Suspend =>
        StopQuiet(s, t, w);
        UndisturbedLost(s, t, f);
      case RunWake =>
        RunWakeQuiet(s, w);
        UndisturbedLost(s, t, f);
      case _ => CallLost(s, w, x, f);
    }
  }

  /** In every reachable state a step leaves the timeout of fiber f lost exactly when it was lost
      and f still waits, or the step is one of the two harmful ones. */
  lemma LostExactly(threads: nat, s: State, a: Action, f: FiberId)
    requires Reachable(threads, s) && Step(s, a).Some?
    ensures LostBy(s, Step(s, a).value, a, f)
  {
    ReachableT(threads, s);
    Wakeup.ReachableInv(threads, s);
    LostStep(s, a, f);
  }

  lemma LostStep(s: State, a: Action, f: FiberId)
    requires T(s) && Wakeup.Inv(s) && Step(s, a).Some?
    ensures LostBy(s, Step(s, a).value, a, f)
  {
    match a {
      case InWait(w, x) => WaitLost(s, w, x, f);
      case _ =>
        StepPasses(s, a);
        UndisturbedLost(s, Step(s, a).value, f);
    }
  }

  // ---------- whole runs ----------

  /** A waiting fiber's timeout is still to come, or is being carried out, or is lost. */
  lemma AliveOrLost(threads: nat, s: State, f: FiberId)
    requires Reachable(threads, s) && Waiting(s, f)
    ensures var p := s.fibers[f].phase;
      && (!Marked(s, p.op) ==> Pending(s, p.timer.value, IoTimeout(p.op, p.fd, p.ev)))
      && (Marked(s, p.op) ==> Cancels(s, p.op, p.fd, p.ev) || Lost(s, f))
  {
    TimeoutPending(threads, s, f);
  }

  /** At no point of the run is a timeout lost. */
  ghost predicate NoneLost(s: State, acts: seq<Action>)
    requires Run(s, acts).Some?
    decreases |acts|
  {
    && (forall f: FiberId :: !Lost(s, f))
    && (acts != [] ==> NoneLost(Step(s, acts[0]).value, acts[1..]))
  }

  /** No step of the run is harmful. */
  ghost predicate Harmless(s: State, acts: seq<Action>)
    requires Run(s, acts).Some?
    decreases |acts|
  {
    acts != [] ==> (forall f: FiberId :: !Harmful(s, acts[0], f)) && Harmless(Step(s, acts[0]).value, acts[1..])
  }

  lemma {:induction false} NoneLostRun(s: State, acts: seq<Action>)
    requires T(s) && Wakeup.Inv(s) && Run(s, acts).Some? && forall f: FiberId :: !Lost(s, f)
    ensures NoneLost(s, acts) <==> Harmless(s, acts)
    decreases |acts|
  {
    if acts != [] {
      var t := Step(s, acts[0]).value;
      forall f: FiberId ensures Lost(t, f) <==> Harmful(s, acts[0], f) { LostStep(s, acts[0], f); }
      StepKeeps(s, acts[0]);
      Wakeup.StepKeeps(s, acts[0]);
      if forall f: FiberId :: !Lost(t, f) { NoneLostRun(t, acts[1..]); }
    }
  }

  /** A run loses no timeout if and only if no fiber in it registers after its timeout has come and
      gone and epoll refuses no cancellation by a timeout. */
  lemma NoTimeoutLostExactly(threads: nat, acts: seq<Action>)
    requires Run(Init(threads), acts).Some?
    ensures NoneLost(Init(threads), acts) <==> Harmless(Init(threads), acts)
  {
    InitT(threads);
    Wakeup.InitInv(threads);
    NoneLostRun(Init(threads), acts);
  }
}
