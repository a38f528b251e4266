/** The timeouts of do_io. The timer is armed before the event is registered, so its callback can
    run too early: it marks the call, finds nothing to cancel, and the fiber then waits without a
    timeout. In every other case the timeout of a waiting fiber is still to come or is being
    carried out. */
module Timeouts {
  import opened Common
  import opened Tasks
  import opened Runtime
  import TaskQueue
  import Registry
  import Timers
  import Wakeup

  // ---------- where a timeout can be ----------

  predicate InIo(p: Phase) { p.IoTry? || p.IoTimed? || p.IoArmed? || p.IoResumed? || p.IoCheck? }

  predicate Listed(q: TaskQueue.Queue, cb: Callback) {
    exists i :: 0 <= i < |q.entries| && q.entries[i].task == CbTask(cb)
  }

  predicate Holds(k: Worker, cb: Callback) {
    k.pc == Took(CbTask(cb)) || (k.pc.Expired? && cb in k.pc.cbs)
  }

  predicate Held(ws: seq<Worker>, cb: Callback) { exists w :: 0 <= w < |ws| && Holds(ws[w], cb) }

  predicate Started(fs: seq<Fiber>, cb: Callback) { exists g :: 0 <= g < |fs| && fs[g].phase == StartPhase(cb) }

  /** Expired, and not yet at its test: listed, held by a worker, or at the start of its body. */
  predicate Flying(s: State, cb: Callback) {
    Listed(s.queue, cb) || Held(s.workers, cb) || Started(s.fibers, cb)
  }

  predicate Timed(ts: seq<Timers.TimerRec>, a: nat, cb: Callback) {
    exists i :: 0 <= i < |ts| && ts[i].addr == a && ts[i].cb == cb
  }

  /** The timeout armed at address a is still to come. */
  predicate Pending(s: State, a: nat, cb: Callback) { Timed(s.timers.timers, a, cb) || Flying(s, cb) }

  predicate Known(s: State, cb: Callback) {
    (exists i :: 0 <= i < |s.timers.timers| && s.timers.timers[i].cb == cb) || Flying(s, cb)
  }

  predicate Marked(s: State, op: nat) { op in s.ops && s.ops[op] }

  /** The timeout of `op` has marked it and is about to cancel the event. */
  predicate Cancels(s: State, op: nat, fd: nat, ev: Event) {
    exists g :: 0 <= g < |s.fibers| && s.fibers[g].phase == Cancelling(op, fd, ev)
  }

  // ---------- the invariant ----------

  predicate AgreesWith(p: Phase, cb: Callback)
    requires InIo(p)
  {
    cb.IoTimeout? && cb.op == p.op ==> cb.fd == p.fd && cb.event == p.ev
  }

  /** What holds of a fiber inside do_io: its call is alive, every timeout of the call is for the
      same event, and one that is not marked has its timeout pending. */
  ghost predicate FiberT(s: State, f: FiberId)
    requires f < |s.fibers|
  {
    var p := s.fibers[f].phase;
    InIo(p) ==>
      && p.op in s.ops && p.op < s.nextOp
      && (forall cb :: Known(s, cb) ==> AgreesWith(p, cb))
      && (forall x :: x in s.timers.timers && Wakeup.TimeoutOf(p) == Some(x.addr) ==> x.cb == IoTimeout(p.op, p.fd, p.ev))
      && ((p.IoTimed? || p.IoArmed?) && p.timer.Some? && !s.ops[p.op] ==>
            Pending(s, p.timer.value, IoTimeout(p.op, p.fd, p.ev)))
  }

  /** Calls are not shared, and a call is cancelled at most once, after being marked. */
  ghost predicate OpsT(s: State) {
    && (forall f, g :: 0 <= f < g < |s.fibers| && InIo(s.fibers[f].phase) && InIo(s.fibers[g].phase) ==>
          s.fibers[f].phase.op != s.fibers[g].phase.op)
    && (forall f, g :: 0 <= f < g < |s.fibers| && s.fibers[f].phase.Cancelling? && s.fibers[g].phase.Cancelling? ==>
          s.fibers[f].phase.op != s.fibers[g].phase.op)
    && (forall g :: 0 <= g < |s.fibers| && s.fibers[g].phase.Cancelling? ==>
          var c := s.fibers[g].phase;
          c.op < s.nextOp && (c.op in s.ops ==> s.ops[c.op]))
    && (forall f, g :: 0 <= f < |s.fibers| && 0 <= g < |s.fibers| && InIo(s.fibers[f].phase) && s.fibers[g].phase.Cancelling? ==>
          var p, c := s.fibers[f].phase, s.fibers[g].phase;
          c.op == p.op ==> c.fd == p.fd && c.ev == p.ev)
  }

  predicate UserContext(ctx: Registry.EventContext) { ctx.cb.Some? ==> ctx.cb.value.UserTask? }

  predicate OnlyUser(r: Registry.Registry) {
    forall fd :: 0 <= fd < |r.fds| ==> UserContext(r.fds[fd].read) && UserContext(r.fds[fd].write)
  }

  /** Only do_io arms timeouts; event callbacks are the application's. */
  ghost predicate SourcesT(s: State) {
    && (forall cb :: Known(s, cb) && cb.IoTimeout? ==> cb.op < s.nextOp)
    && OnlyUser(s.reg)
  }

  ghost predicate T(s: State) {
    && (forall f: FiberId :: f < |s.fibers| ==> FiberT(s, f))
    && OpsT(s) && SourcesT(s)
  }

  lemma InitT(threads: nat)
    ensures T(Init(threads))
  {
    assert forall fd :: 0 <= fd < |Init(threads).reg.fds| ==> Init(threads).reg.fds[fd] == Registry.EmptyFd;
  }

  // ---------- steps that leave do_io alone ----------

  predicate SamePhase(p: Phase, q: Phase) {
    q == p || (p.IoArmed? && q == IoResumed(p.op, p.fd, p.ev, p.timer))
  }

  predicate FiberAt(r: Registry.Registry, fd: nat, ev: Event, f: FiberId) {
    fd < |r.fds| && r.fds[fd].Context(ev).fiber == Some(f)
  }

  /** From s to t no fiber moves inside do_io except by being resumed, and no timeout appears,
      disappears or is marked. */
  ghost predicate Undisturbed(s: State, t: State) {
    && t.ops == s.ops && t.nextOp == s.nextOp && |s.fibers| <= |t.fibers|
    && (forall f :: 0 <= f < |t.fibers| && (InIo(t.fibers[f].phase) || t.fibers[f].phase.Cancelling?) ==>
          f < |s.fibers| && SamePhase(s.fibers[f].phase, t.fibers[f].phase))
    && (forall f :: 0 <= f < |s.fibers| && s.fibers[f].phase.Cancelling? ==> t.fibers[f].phase == s.fibers[f].phase)
    && (forall cb: Callback :: cb.IoTimeout? && Known(t, cb) ==> Known(s, cb))
    && (forall a: nat, cb: Callback :: cb.IoTimeout? && Pending(s, a, cb) ==> Pending(t, a, cb))
    && (forall x :: x in t.timers.timers && x.cb.IoTimeout? ==> x in s.timers.timers)
    && (forall x :: x in t.timers.timers ==> x.addr < s.nextAddr ==> exists y :: y in s.timers.timers && y.addr == x.addr && y.cb == x.cb)
    && (forall fd: nat, ev, f: FiberId :: FiberAt(t.reg, fd, ev, f) ==> FiberAt(s.reg, fd, ev, f))
    && OnlyUser(t.reg)
  }

  lemma UndisturbedFiber(s: State, t: State, f: FiberId)
    requires T(s) && Wakeup.TimersOk(s) && Undisturbed(s, t) && f < |t.fibers|
    ensures FiberT(t, f)
  {
    var q := t.fibers[f].phase;
    if InIo(q) {
      var p := s.fibers[f].phase;
      assert FiberT(s, f);
      assert Wakeup.TimeoutOk(s, f);
      assert forall cb :: Known(t, cb) ==> AgreesWith(q, cb);
    }
  }

  lemma UndisturbedKeeps(s: State, t: State)
    requires T(s) && Wakeup.TimersOk(s) && Undisturbed(s, t)
    ensures T(t)
  {
    forall f: FiberId | f < |t.fibers| ensures FiberT(t, f) { UndisturbedFiber(s, t, f); }
  }

  // ---------- the parts of a step ----------

  predicate Plain(p: Phase) { !InIo(p) && !p.Cancelling? && !p.Expiring? }

  /** Fibers stay where they are, or are resumed, or move and start outside do_io and timeouts. */
  predicate Calm(fs: seq<Fiber>, gs: seq<Fiber>) {
    && |fs| <= |gs|
    && forall f :: 0 <= f < |gs| ==>
         || (f < |fs| && SamePhase(fs[f].phase, gs[f].phase))
         || (Plain(gs[f].phase) && (f < |fs| ==> Plain(fs[f].phase)))
  }

  ghost predicate SameList(q: TaskQueue.Queue, r: TaskQueue.Queue) {
    forall cb: Callback :: cb.IoTimeout? ==> (Listed(q, cb) <==> Listed(r, cb))
  }

  ghost predicate SameHeld(ws: seq<Worker>, vs: seq<Worker>) {
    forall cb: Callback :: cb.IoTimeout? ==> (Held(ws, cb) <==> Held(vs, cb))
  }

  ghost predicate TimersKept(s: State, t: State) {
    && (forall x: Timers.TimerRec :: x.cb.IoTimeout? ==> (x in t.timers.timers <==> x in s.timers.timers))
    && (forall x :: x in t.timers.timers && x.addr < s.nextAddr ==>
          exists y :: y in s.timers.timers && y.addr == x.addr && y.cb == x.cb)
  }

  ghost predicate RegKept(r: Registry.Registry, r': Registry.Registry) {
    && (forall fd: nat, ev, f: FiberId :: FiberAt(r', fd, ev, f) ==> FiberAt(r, fd, ev, f))
    && OnlyUser(r')
  }

  lemma CalmStarts(fs: seq<Fiber>, gs: seq<Fiber>, cb: Callback)
    requires Calm(fs, gs) && cb.IoTimeout?
    ensures Started(fs, cb) <==> Started(gs, cb)
  {
    if Started(fs, cb) {
      var g :| 0 <= g < |fs| && fs[g].phase == StartPhase(cb);
      assert gs[g].phase == StartPhase(cb);
    }
    if Started(gs, cb) {
      var g :| 0 <= g < |gs| && gs[g].phase == StartPhase(cb);
      assert fs[g].phase == StartPhase(cb);
    }
  }

  lemma SameTimed(s: State, t: State, cb: Callback)
    requires TimersKept(s, t) && cb.IoTimeout?
    ensures (exists i :: 0 <= i < |s.timers.timers| && s.timers.timers[i].cb == cb)
       <==> (exists i :: 0 <= i < |t.timers.timers| && t.timers.timers[i].cb == cb)
    ensures forall a :: Timed(s.timers.timers, a, cb) <==> Timed(t.timers.timers, a, cb)
  {
    var ss, ts := s.timers.timers, t.timers.timers;
    forall i | 0 <= i < |ss| && ss[i].cb == cb ensures ss[i] in ts {}
    forall i | 0 <= i < |ts| && ts[i].cb == cb ensures ts[i] in ss {}
  }

  /** A step that keeps every part keeps the timeouts undisturbed. */
  lemma Quietly(s: State, t: State)
    requires t.ops == s.ops && t.nextOp == s.nextOp && Calm(s.fibers, t.fibers)
    requires SameList(s.queue, t.queue) && SameHeld(s.workers, t.workers) && TimersKept(s, t) && RegKept(s.reg, t.reg)
    ensures Undisturbed(s, t)
  {
    forall cb: Callback | cb.IoTimeout?
      ensures Known(t, cb) <==> Known(s, cb)
      ensures forall a :: Pending(t, a, cb) <==> Pending(s, a, cb)
    {
      CalmStarts(s.fibers, t.fibers, cb);
      SameTimed(s, t, cb);
    }
  }

  lemma SelfKept(s: State, t: State)
    requires T(s)
    ensures t.timers.timers == s.timers.timers ==> TimersKept(s, t)
    ensures RegKept(s.reg, s.reg)
  {
  }

  /** One worker moves between points that hold the same timeouts. */
  lemma WorkerMoves(ws: seq<Worker>, w: nat, k: Worker)
    requires w < |ws| && forall cb: Callback :: cb.IoTimeout? ==> (Holds(ws[w], cb) <==> Holds(k, cb))
    ensures SameHeld(ws, ws[w := k])
  {
    var vs := ws[w := k];
    forall cb: Callback | cb.IoTimeout?
      ensures Held(ws, cb) <==> Held(vs, cb)
    {
      if Held(ws, cb) { var v :| 0 <= v < |ws| && Holds(ws[v], cb); assert Holds(vs[v], cb); }
      if Held(vs, cb) { var v :| 0 <= v < |vs| && Holds(vs[v], cb); assert Holds(ws[v], cb); }
    }
  }

  lemma PushListed(q: TaskQueue.Queue, task: Task, pin: Option<nat>, cb: Callback)
    ensures Listed(TaskQueue.Push(q, task, pin), cb) <==> Listed(q, cb) || task == CbTask(cb)
  {
    var r := TaskQueue.Push(q, task, pin);
    assert r.entries[|q.entries|].task == task;
    forall i | 0 <= i < |q.entries| ensures r.entries[i] == q.entries[i] {}
  }

  lemma {:induction false} PushAllListed(q: TaskQueue.Queue, tasks: seq<Task>, cb: Callback)
    ensures Listed(TaskQueue.PushAll(q, tasks), cb) <==> Listed(q, cb) || CbTask(cb) in tasks
    decreases |tasks|
  {
    if tasks != [] {
      PushListed(q, tasks[0], None, cb);
      PushAllListed(TaskQueue.Push(q, tasks[0], None), tasks[1..], cb);
      assert tasks == [tasks[0]] + tasks[1..];
    }
  }

  predicate NoTimeouts(tasks: seq<Task>) { forall i :: 0 <= i < |tasks| ==> !(tasks[i].CbTask? && tasks[i].cb.IoTimeout?) }

  lemma PushAllSame(q: TaskQueue.Queue, tasks: seq<Task>)
    requires NoTimeouts(tasks)
    ensures SameList(q, TaskQueue.PushAll(q, tasks))
  {
    forall cb: Callback | cb.IoTimeout?
      ensures Listed(q, cb) <==> Listed(TaskQueue.PushAll(q, tasks), cb)
    {
      PushAllListed(q, tasks, cb);
    }
  }

  lemma PushSame(q: TaskQueue.Queue, task: Task, pin: Option<nat>)
    requires !(task.CbTask? && task.cb.IoTimeout?)
    ensures SameList(q, TaskQueue.Push(q, task, pin))
  {
    forall cb: Callback | cb.IoTimeout?
      ensures Listed(q, cb) <==> Listed(TaskQueue.Push(q, task, pin), cb)
    {
      PushListed(q, task, pin, cb);
    }
  }

  // ---------- registry calls ----------

  lemma TriggerKept(r: Registry.Registry, fd: nat, ev: Event)
    requires OnlyUser(r) && fd < |r.fds|
    ensures var out := Registry.Trigger(r, fd, ev);
      out.Done? ==> RegKept(r, out.reg) && NoTimeouts(out.woken) && |out.reg.fds| == |r.fds|
  {
  }

  ghost predicate OutcomeKept(r: Registry.Registry, out: Registry.Outcome) {
    && (out.Refused? ==> RegKept(r, out.reg))
    && (out.Done? ==> RegKept(r, out.reg) && NoTimeouts(out.woken))
  }

  lemma DelKept(r: Registry.Registry, fd: nat, ev: Event, ok: bool)
    requires OnlyUser(r)
    ensures OutcomeKept(r, Registry.DelEvent(r, fd, ev, ok))
  {
  }

  lemma CancelKept(r: Registry.Registry, fd: nat, ev: Event, ok: bool)
    requires OnlyUser(r)
    ensures OutcomeKept(r, Registry.CancelEvent(r, fd, ev, ok))
  {
    if fd < |r.fds| && r.fds[fd].events.Has(ev) && ok {
      var events := r.fds[fd].events.Set(ev, false);
      TriggerKept(Registry.Ctl(r, fd, if events == Registry.NoEvents then Registry.Del else Registry.Mod, events, ok), fd, ev);
    }
  }

  lemma CancelAllKept(r: Registry.Registry, fd: nat, ok: bool)
    requires OnlyUser(r)
    ensures OutcomeKept(r, Registry.CancelAll(r, fd, ok))
  {
    if fd < |r.fds| && r.fds[fd].events != Registry.NoEvents && ok {
      TriggerKept(Registry.Ctl(r, fd, Registry.Del, Registry.NoEvents, ok), fd, if r.fds[fd].events.read then Read else Write);
    }
  }

  lemma BothKept(r: Registry.Registry, fd: nat, acted: Registry.Mask)
    requires OnlyUser(r) && fd < |r.fds|
    ensures OutcomeKept(r, Registry.TriggerBoth(r, fd, acted))
  {
    if acted.read { TriggerKept(r, fd, Read); }
    var first := if acted.read then Registry.Trigger(r, fd, Read) else Registry.Done(r, []);
    if first.Done? && acted.write { TriggerKept(first.reg, fd, Write); }
  }

  lemma DeliverKept(r: Registry.Registry, fd: nat, m: Registry.Mask, hup: bool, ok: bool)
    requires OnlyUser(r) && fd < |r.fds|
    ensures OutcomeKept(r, Registry.Deliver(r, fd, m, hup, ok))
  {
    var acted := Registry.RealEvents(r.fds[fd], m, hup);
    if ok && r.fds[fd].events.Meets(acted) {
      var left := r.fds[fd].events.Minus(acted);
      var r1 := Registry.Ctl(r, fd, if left == Registry.NoEvents then Registry.Del else Registry.Mod, left, ok);
      BothKept(r1, fd, acted);
    }
  }

  /** Growing adds only empty contexts. */
  lemma GrowKept(r: Registry.Registry, fd: nat)
    requires OnlyUser(r)
    ensures RegKept(r, Registry.Grow(r, fd))
  {
    Registry.GrowKeeps(r, fd, Registry.BitCount());
  }

  /** Adding puts exactly the new continuation into the registry. */
  lemma AddKept(r: Registry.Registry, fd: nat, ev: Event, k: Task, ok: bool)
    requires OnlyUser(r) && (k.CbTask? ==> k.cb.UserTask?)
    ensures var out := Registry.AddEvent(r, fd, ev, k, ok);
      && (out.Refused? ==> RegKept(r, out.reg))
      && (out.Done? ==> out.woken == [] && OnlyUser(out.reg) && (k.FiberTask? ==> FiberAt(out.reg, fd, ev, k.fiber)))
      && (out.Done? ==> forall d: nat, e, f: FiberId :: FiberAt(out.reg, d, e, f) ==>
            FiberAt(r, d, e, f) || (k == FiberTask(f) && d == fd && e == ev))
  {
    GrowKept(r, fd);
  }

  lemma RegistryQuiet(s: State, out: Registry.Outcome)
    requires T(s) && OutcomeKept(s.reg, out)
    ensures Undisturbed(s, AfterRegistry(s, out))
  {
    var t := AfterRegistry(s, out);
    SelfKept(s, t);
    if out.Done? { PushAllSame(s.queue, out.woken); }
    Quietly(s, t);
  }

  // ---------- Scheduler::run ----------

  lemma TakeListed(q: TaskQueue.Queue, k: nat, cb: Callback)
    requires k < |q.entries|
    ensures Listed(q, cb) <==> Listed(TaskQueue.TakeAt(q, k), cb) || q.entries[k].task == CbTask(cb)
  {
    var r := TaskQueue.TakeAt(q, k);
    forall j | 0 <= j < |r.entries| ensures r.entries[j] == q.entries[if j < k then j else j + 1] { RemoveIndex(q.entries, k, j); }
    if Listed(q, cb) {
      var i :| 0 <= i < |q.entries| && q.entries[i].task == CbTask(cb);
      if i < k { assert r.entries[i] == q.entries[i]; }
      if i > k { assert r.entries[i - 1] == q.entries[i]; }
    }
  }

  /** What the workers hold after one of them moves. */
  lemma MovedHeld(ws: seq<Worker>, w: nat, k: Worker, cb: Callback)
    requires w < |ws|
    ensures Held(ws, cb) ==> Held(ws[w := k], cb) || Holds(ws[w], cb)
    ensures Held(ws[w := k], cb) ==> Held(ws, cb) || Holds(k, cb)
    ensures Holds(k, cb) ==> Held(ws[w := k], cb)
    ensures Holds(ws[w], cb) ==> Held(ws, cb)
  {
    var vs := ws[w := k];
    if Held(ws, cb) { var v :| 0 <= v < |ws| && Holds(ws[v], cb); assert v != w ==> Holds(vs[v], cb); }
    if Held(vs, cb) { var v :| 0 <= v < |vs| && Holds(vs[v], cb); assert v != w ==> Holds(ws[v], cb); }
    assert vs[w] == k;
  }

  /** A step that only passes timeouts on from hand to hand. */
  lemma Passed(s: State, t: State)
    requires T(s) && t.ops == s.ops && t.nextOp == s.nextOp && t.reg == s.reg && t.timers.timers == s.timers.timers
    requires |s.fibers| <= |t.fibers|
    requires forall f :: 0 <= f < |t.fibers| && (InIo(t.fibers[f].phase) || t.fibers[f].phase.Cancelling?) ==>
               f < |s.fibers| && SamePhase(s.fibers[f].phase, t.fibers[f].phase)
    requires forall f :: 0 <= f < |s.fibers| && s.fibers[f].phase.Cancelling? ==> t.fibers[f].phase == s.fibers[f].phase
    requires forall cb: Callback :: cb.IoTimeout? ==> (Flying(s, cb) <==> Flying(t, cb))
    ensures Undisturbed(s, t)
  {
    SelfKept(s, t);
  }

  lemma PickPasses(s: State, w: nat)
    requires T(s) && DoPick(s, w).Some?
    ensures Undisturbed(s, DoPick(s, w).value)
  {
    var t := DoPick(s, w).value;
    var k := TaskQueue.FirstEligible(s.queue.entries, w, Executing(s.fibers));
    forall cb: Callback | cb.IoTimeout?
      ensures Flying(s, cb) <==> Flying(t, cb)
    {
      MovedHeld(s.workers, w, t.workers[w], cb);
      if k < |s.queue.entries| { TakeListed(s.queue, k, cb); }
    }
    Passed(s, t);
  }

  lemma ResumeQuiet(s: State, w: nat, g: FiberId)
    requires T(s) && w < |s.workers| && s.workers[w].pc == Took(FiberTask(g)) && g < |s.fibers|
    ensures Undisturbed(s, Resume(s, w, g))
  {
    var t := Resume(s, w, g);
    SelfKept(s, t);
    WorkerMoves(s.workers, w, t.workers[w]);
    Quietly(s, t);
  }

  /** The fiber that a callback starts in, and the others. */
  lemma StartPasses(s: State, t: State, w: nat, g: FiberId, cb: Callback)
    requires T(s) && w < |s.workers| && s.workers[w].pc == Took(CbTask(cb))
    requires |t.workers| == |s.workers| && t == s.(workers := s.workers[w := t.workers[w]], fibers := t.fibers)
    requires t.workers[w].pc == Running(g)
    requires |s.fibers| <= |t.fibers| && g < |t.fibers| && t.fibers[g] == Fiber(EXEC, StartPhase(cb))
    requires g < |s.fibers| ==> s.fibers[g].phase == Code
    requires forall f :: 0 <= f < |t.fibers| && f != g ==> f < |s.fibers| && t.fibers[f] == s.fibers[f]
    ensures Undisturbed(s, t)
  {
    forall c: Callback | c.IoTimeout?
      ensures Flying(s, c) <==> Flying(t, c)
    {
      MovedHeld(s.workers, w, t.workers[w], c);
      if Started(s.fibers, c) {
        var h :| 0 <= h < |s.fibers| && s.fibers[h].phase == StartPhase(c);
        assert t.fibers[h].phase == StartPhase(c);
      }
      if Started(t.fibers, c) {
        var h :| 0 <= h < |t.fibers| && t.fibers[h].phase == StartPhase(c);
        assert h != g ==> s.fibers[h].phase == StartPhase(c);
      }
    }
    Passed(s, t);
  }

  lemma BeginPasses(s: State, w: nat)
    requires T(s) && Wakeup.Inv(s) && DoBegin(s, w).Some?
    ensures Undisturbed(s, DoBegin(s, w).value)
  {
    var t := DoBegin(s, w).value;
    match s.workers[w].pc.task {
      case FiberTask(g) =>
        Wakeup.TookFacts(s, w, g);
        ResumeQuiet(s, w, g);
      case CbTask(cb) =>
        match s.workers[w].cbFiber {
          case None => StartPasses(s, t, w, |s.fibers|, cb);
          case Some(g) =>
            Wakeup.CacheFacts(s, w, g);
            StartPasses(s, t, w, g, cb);
        }
    }
  }

  lemma StepRunPasses(s: State, w: nat, a: RunStep)
    requires T(s) && Wakeup.Inv(s) && StepRun(s, w, a).Some?
    ensures Undisturbed(s, StepRun(s, w, a).value)
  {
    match a {
      case Pick => PickPasses(s, w);
      case Begin => BeginPasses(s, w);
      case Resched => ReschedQuiet(s, w);
      case EnterIdle => EnterIdleQuiet(s, w);
    }
  }

  lemma ReschedQuiet(s: State, w: nat)
    requires T(s) && DoResched(s, w).Some?
    ensures Undisturbed(s, DoResched(s, w).value)
  {
    var t := DoResched(s, w).value;
    SelfKept(s, t);
    WorkerMoves(s.workers, w, t.workers[w]);
    PushSame(s.queue, FiberTask(s.workers[w].pc.f), None);
    Quietly(s, t);
  }

  lemma EnterIdleQuiet(s: State, w: nat)
    requires T(s) && DoEnterIdle(s, w).Some?
    ensures Undisturbed(s, DoEnterIdle(s, w).value)
  {
    var t := DoEnterIdle(s, w).value;
    SelfKept(s, t);
    WorkerMoves(s.workers, w, t.workers[w]);
    Quietly(s, t);
  }

  // ---------- IOManager::idle ----------

  lemma {:induction false} CallbackThere(ts: seq<Timers.TimerRec>, cb: Callback)
    ensures cb in Timers.Callbacks(ts) <==> exists i :: 0 <= i < |ts| && ts[i].cb == cb
    decreases |ts|
  {
    if ts != [] {
      CallbackThere(ts[1..], cb);
      assert ts == [ts[0]] + ts[1..];
    }
  }

  /** A timer left by expiry was there, or is a recurring one moved. */
  lemma ExpireOrigin(q: Timers.TimerQueue, now: nat, x: Timers.TimerRec)
    requires x in Timers.Expire(q, now).1.timers
    requires forall y :: y in q.timers && y.recurring ==> y.cb.UserTask?
    ensures exists y :: y in q.timers && y.addr == x.addr && y.cb == x.cb
    ensures x.cb.IoTimeout? ==> x in q.timers
  {
    if q.timers != [] {
      var ts, k := q.timers, Timers.ExpireCount(q, now);
      Timers.RearmElement(ts[k..], ts[..k], now, x);
      if x in ts[k..] {
        Timers.SplitElement(ts, k, x);
      } else {
        var y :| y in ts[..k] && y.recurring && x == y.(next := Timers.Deadline(now, y.ms));
        Timers.SplitElement(ts, k, y);
      }
    }
  }

  /** A pending timer is due, and its callback returned, or it stays. */
  lemma ExpireTimed(q: Timers.TimerQueue, now: nat, a: nat, cb: Callback)
    requires Timed(q.timers, a, cb)
    ensures cb in Timers.Expire(q, now).0 || Timed(Timers.Expire(q, now).1.timers, a, cb)
  {
    var ts, k := q.timers, Timers.ExpireCount(q, now);
    var i :| 0 <= i < |ts| && ts[i].addr == a && ts[i].cb == cb;
    if i < k {
      assert ts[..k][i] == ts[i];
      CallbackThere(ts[..k], cb);
    } else {
      assert ts[k..][i - k] == ts[i];
      Timers.RearmElement(ts[k..], ts[..k], now, ts[i]);
      assert ts[i] in Timers.Expire(q, now).1.timers;
    }
  }

  lemma ExpireReturns(q: Timers.TimerQueue, now: nat, cb: Callback)
    requires cb in Timers.Expire(q, now).0
    ensures exists i :: 0 <= i < |q.timers| && q.timers[i].cb == cb
  {
    var k := Timers.ExpireCount(q, now);
    CallbackThere(q.timers[..k], cb);
    var i :| 0 <= i < |q.timers[..k]| && q.timers[..k][i].cb == cb;
    assert q.timers[i].cb == cb;
  }

  /** Expiry moves the timeouts that are due from the timers to the worker, and no others. */
  lemma ExpirePending(s: State, t: State, w: nat, now: nat, a: nat, cb: Callback)
    requires Wakeup.TimersOk(s) && DoListExpired(s, w, now) == Some(t) && cb.IoTimeout?
    ensures Pending(s, a, cb) ==> Pending(t, a, cb)
    ensures Known(t, cb) ==> Known(s, cb)
  {
    MovedHeld(s.workers, w, t.workers[w], cb);
    if Timed(s.timers.timers, a, cb) { ExpireTimed(s.timers, now, a, cb); }
    if Holds(t.workers[w], cb) { ExpireReturns(s.timers, now, cb); }
    if exists i :: 0 <= i < |t.timers.timers| && t.timers.timers[i].cb == cb {
      var i :| 0 <= i < |t.timers.timers| && t.timers.timers[i].cb == cb;
      ExpireOrigin(s.timers, now, t.timers.timers[i]);
    }
  }

  lemma ListExpiredPasses(s: State, w: nat, now: nat)
    requires T(s) && Wakeup.TimersOk(s) && DoListExpired(s, w, now).Some?
    ensures Undisturbed(s, DoListExpired(s, w, now).value)
  {
    var t := DoListExpired(s, w, now).value;
    forall a: nat, cb: Callback | cb.IoTimeout?
      ensures Pending(s, a, cb) ==> Pending(t, a, cb)
      ensures Known(t, cb) ==> Known(s, cb)
    {
      ExpirePending(s, t, w, now, a, cb);
    }
    forall x | x in t.timers.timers
      ensures exists y :: y in s.timers.timers && y.addr == x.addr && y.cb == x.cb
      ensures x.cb.IoTimeout? ==> x in s.timers.timers
    {
      ExpireOrigin(s.timers, now, x);
    }
  }

  lemma ScheduleExpiredPasses(s: State, w: nat)
    requires T(s) && DoScheduleExpired(s, w).Some?
    ensures Undisturbed(s, DoScheduleExpired(s, w).value)
  {
    var t := DoScheduleExpired(s, w).value;
    var cbs := s.workers[w].pc.cbs;
    forall cb: Callback | cb.IoTimeout?
      ensures Flying(s, cb) <==> Flying(t, cb)
    {
      MovedHeld(s.workers, w, t.workers[w], cb);
      PushAllListed(s.queue, AsTasks(cbs), cb);
      if cb in cbs {
        var i :| 0 <= i < |cbs| && cbs[i] == cb;
        assert AsTasks(cbs)[i] == CbTask(cb);
      }
    }
    Passed(s, t);
  }

  lemma StepIdlePasses(s: State, w: nat, a: IdleStep)
    requires T(s) && Wakeup.Inv(s) && StepIdle(s, w, a).Some?
    ensures Undisturbed(s, StepIdle(s, w, a).value)
  {
    match a {
      case ListExpired(now) => ListExpiredPasses(s, w, now);
      case ScheduleExpired => ScheduleExpiredPasses(s, w);
      case DeliverEvent(fd, m, hup, ok) =>
        DeliverKept(s.reg, fd, m, hup, ok);
        RegistryQuiet(s, Registry.Deliver(s.reg, fd, m, hup, ok));
      case _ => IdleMoves(s, w, a);
    }
  }

  lemma IdleMoves(s: State, w: nat, a: IdleStep)
    requires T(s) && StepIdle(s, w, a).Some?
    requires !a.ListExpired? && !a.ScheduleExpired? && !a.DeliverEvent?
    ensures Undisturbed(s, StepIdle(s, w, a).value)
  {
    var t := StepIdle(s, w, a).value;
    SelfKept(s, t);
    WorkerMoves(s.workers, w, t.workers[w]);
    Quietly(s, t);
  }

  // ---------- application code, sleep and suspension ----------

  lemma ArmKept(s: State, u: State, ms: nat, recurring: bool, cb: Callback, now: nat)
    requires u.timers == s.timers && u.nextAddr == s.nextAddr && !cb.IoTimeout?
    ensures TimersKept(s, ArmTimer(u, ms, recurring, cb, now))
  {
    var rec := Timers.TimerRec(u.nextAddr, Timers.Deadline(now, ms), ms, recurring, cb);
    forall x: Timers.TimerRec
      ensures x in Timers.Insert(s.timers.timers, rec) <==> x in s.timers.timers || x == rec
    {
      Timers.InsertElement(s.timers.timers, rec, x);
    }
  }

  lemma SpawnFiberQuiet(s: State, w: nat, pin: Option<nat>)
    requires T(s) && DoSpawnFiber(s, w, pin).Some?
    ensures Undisturbed(s, DoSpawnFiber(s, w, pin).value)
  {
    var t := DoSpawnFiber(s, w, pin).value;
    SelfKept(s, t);
    PushSame(s.queue, FiberTask(|s.fibers|), pin);
    Quietly(s, t);
  }

  lemma EnqueueQuiet(s: State, id: nat, pin: Option<nat>)
    requires T(s)
    ensures Undisturbed(s, Enqueue(s, CbTask(UserTask(id)), pin))
  {
    var t := Enqueue(s, CbTask(UserTask(id)), pin);
    SelfKept(s, t);
    PushSame(s.queue, CbTask(UserTask(id)), pin);
    Quietly(s, t);
  }

  lemma StartTimerQuiet(s: State, id: nat, ms: nat, recurring: bool, now: nat)
    requires T(s)
    ensures Undisturbed(s, ArmTimer(s, ms, recurring, UserTask(id), now))
  {
    SelfKept(s, s);
    ArmKept(s, s, ms, recurring, UserTask(id), now);
    Quietly(s, ArmTimer(s, ms, recurring, UserTask(id), now));
  }

  lemma AddCallbackQuiet(s: State, fd: nat, ev: Event, id: nat, ok: bool)
    requires T(s)
    ensures Undisturbed(s, AfterRegistry(s, Registry.AddEvent(s.reg, fd, ev, CbTask(UserTask(id)), ok)))
  {
    AddKept(s.reg, fd, ev, CbTask(UserTask(id)), ok);
    RegistryQuiet(s, Registry.AddEvent(s.reg, fd, ev, CbTask(UserTask(id)), ok));
  }

  lemma DelQuiet(s: State, fd: nat, ev: Event, ok: bool)
    requires T(s)
    ensures Undisturbed(s, AfterRegistry(s, Registry.DelEvent(s.reg, fd, ev, ok)))
  {
    DelKept(s.reg, fd, ev, ok);
    RegistryQuiet(s, Registry.DelEvent(s.reg, fd, ev, ok));
  }

  lemma CancelQuiet(s: State, fd: nat, ev: Event, ok: bool)
    requires T(s)
    ensures Undisturbed(s, AfterRegistry(s, Registry.CancelEvent(s.reg, fd, ev, ok)))
  {
    CancelKept(s.reg, fd, ev, ok);
    RegistryQuiet(s, Registry.CancelEvent(s.reg, fd, ev, ok));
  }

  lemma CancelAllQuiet(s: State, fd: nat, ok: bool)
    requires T(s)
    ensures Undisturbed(s, AfterRegistry(s, Registry.CancelAll(s.reg, fd, ok)))
  {
    CancelAllKept(s.reg, fd, ok);
    RegistryQuiet(s, Registry.CancelAll(s.reg, fd, ok));
  }

  /** The running fiber stops, outside do_io or just before it is suspended there. */
  lemma StopQuiet(s: State, t: State, w: nat)
    requires T(s) && Runs(s, w) && |t.workers| == |s.workers| && |t.fibers| == |s.fibers|
    requires t == s.(workers := s.workers[w := t.workers[w]], fibers := s.fibers[s.workers[w].pc.f := t.fibers[s.workers[w].pc.f]],
                     active := t.active)
    requires t.fibers[s.workers[w].pc.f].phase == s.fibers[s.workers[w].pc.f].phase
    requires t.workers[w].pc == Scan || t.workers[w].pc.Requeue?
    ensures Undisturbed(s, t)
  {
    SelfKept(s, t);
    WorkerMoves(s.workers, w, t.workers[w]);
    Quietly(s, t);
  }

  lemma StepAppPasses(s: State, w: nat, a: AppStep)
    requires T(s) && StepApp(s, w, a).Some?
    ensures Undisturbed(s, StepApp(s, w, a).value)
  {
    match a {
      case SpawnFiber(pin) => SpawnFiberQuiet(s, w, pin);
      case SpawnCallback(id, pin) => EnqueueQuiet(s, id, pin);
      case StartTimer(id, ms, rec, now) => StartTimerQuiet(s, id, ms, rec, now);
      case AddCallbackEvent(fd, ev, id, ok) => AddCallbackQuiet(s, fd, ev, id, ok);
      case DelCallbackEvent(fd, ev, ok) => DelQuiet(s, fd, ev, ok);
      case CancelOne(fd, ev, ok) => CancelQuiet(s, fd, ev, ok);
      case CancelBoth(fd, ok) => CancelAllQuiet(s, fd, ok);
      case YieldReady => StopQuiet(s, DoYieldReady(s, w).value, w);
      case Finish(threw) => StopQuiet(s, DoFinish(s, w, threw).value, w);
    }
  }

  lemma SleepQuiet(s: State, w: nat, ms: nat, now: nat)
    requires T(s) && DoSleepBegin(s, w, ms, now).Some?
    ensures Undisturbed(s, DoSleepBegin(s, w, ms, now).value)
  {
    var u := SetPhase(s, w, SleepArmed);
    SelfKept(s, s);
    ArmKept(s, u, ms, false, WakeSleeper(s.workers[w].pc.f), now);
    Quietly(s, DoSleepBegin(s, w, ms, now).value);
  }

  lemma RunWakeQuiet(s: State, w: nat)
    requires T(s) && DoRunWake(s, w).Some?
    ensures Undisturbed(s, DoRunWake(s, w).value)
  {
    var t := DoRunWake(s, w).value;
    SelfKept(s, t);
    PushSame(s.queue, FiberTask(s.fibers[s.workers[w].pc.f].phase.sleeper), None);
    Quietly(s, t);
  }

  lemma FlagsQuiet(s: State, t: State)
    requires T(s) && t == s.(stopped := t.stopped, aborted := t.aborted)
    ensures Undisturbed(s, t)
  {
    SelfKept(s, t);
    Quietly(s, t);
  }

  // ---------- the steps of do_io and of its timeout ----------

  /** Every call in progress is alive and belongs to one fiber. */
  lemma CallsAlive(s: State)
    requires T(s)
    ensures forall f :: 0 <= f < |s.fibers| && InIo(s.fibers[f].phase) ==>
              s.fibers[f].phase.op in s.ops && s.fibers[f].phase.op < s.nextOp
    ensures forall f, g :: 0 <= f < |s.fibers| && 0 <= g < |s.fibers| && f != g && InIo(s.fibers[f].phase) && InIo(s.fibers[g].phase) ==>
              s.fibers[f].phase.op != s.fibers[g].phase.op
  {
    forall f: FiberId | f < |s.fibers| && InIo(s.fibers[f].phase)
      ensures s.fibers[f].phase.op in s.ops && s.fibers[f].phase.op < s.nextOp
    {
      assert FiberT(s, f);
    }
  }

  predicate IsTimeoutOf(p: Phase, cb: Callback) { InIo(p) && cb == IoTimeout(p.op, p.fd, p.ev) }

  /** From s to t only fiber g moves, and only its own call changes: others keep their calls alive,
      marked if they were, and a new timeout can only be g's. */
  ghost predicate OnlyMoves(s: State, t: State, g: FiberId) {
    && |t.fibers| == |s.fibers| && g < |s.fibers| && t.fibers == s.fibers[g := t.fibers[g]]
    && t.nextOp >= s.nextOp
    && (forall cb: Callback :: cb.IoTimeout? && Known(t, cb) ==> Known(s, cb) || IsTimeoutOf(t.fibers[g].phase, cb))
    && (forall x :: x in t.timers.timers && x.addr < s.nextAddr ==> x in s.timers.timers)
    && (forall f: FiberId :: f < |s.fibers| && f != g && InIo(s.fibers[f].phase) ==>
          var op := s.fibers[f].phase.op;
          op in t.ops && (Marked(s, op) ==> t.ops[op]) && !(InIo(t.fibers[g].phase) && t.fibers[g].phase.op == op))
    && OnlyUser(t.reg)
  }

  predicate Owes(s: State, f: FiberId)
    requires f < |s.fibers|
  {
    var p := s.fibers[f].phase;
    (p.IoTimed? || p.IoArmed?) && p.timer.Some? && p.op in s.ops && !s.ops[p.op] ==>
      Pending(s, p.timer.value, IoTimeout(p.op, p.fd, p.ev))
  }

  lemma OtherT(s: State, t: State, g: FiberId, f: FiberId)
    requires T(s) && Wakeup.TimersOk(s) && OnlyMoves(s, t, g) && f < |s.fibers| && f != g && Owes(t, f)
    ensures FiberT(t, f)
  {
    var p := s.fibers[f].phase;
    if InIo(p) {
      assert FiberT(s, f) && Wakeup.TimeoutOk(s, f);
      forall cb | Known(t, cb) ensures AgreesWith(p, cb) { assert Known(s, cb) ==> AgreesWith(p, cb); }
    }
  }

  lemma OpsKept(s: State, t: State, g: FiberId)
    requires T(s) && OnlyMoves(s, t, g)
    requires var q := t.fibers[g].phase;
      && (InIo(q) ==> q.op < t.nextOp && forall h :: 0 <= h < |s.fibers| && h != g && s.fibers[h].phase.Cancelling? ==>
            s.fibers[h].phase.op == q.op ==> s.fibers[h].phase.fd == q.fd && s.fibers[h].phase.ev == q.ev)
      && (q.Cancelling? ==> s.fibers[g].phase == q)
    requires forall op :: op in t.ops && op < s.nextOp ==> op in s.ops && (s.ops[op] ==> t.ops[op])
    ensures OpsT(t)
  {
  }

  lemma SourcesKept(s: State, t: State, g: FiberId)
    requires T(s) && OnlyMoves(s, t, g) && (InIo(t.fibers[g].phase) ==> t.fibers[g].phase.op < t.nextOp)
    ensures SourcesT(t)
  {
  }

  /** The parts in which a do_io step leaves timeouts alone. */
  lemma SamePlaces(s: State, t: State, g: FiberId)
    requires g < |s.fibers| == |t.fibers| && t.fibers == s.fibers[g := t.fibers[g]]
    requires !s.fibers[g].phase.Expiring? && !t.fibers[g].phase.Expiring?
    requires t.queue == s.queue && t.workers == s.workers
    ensures forall cb: Callback :: cb.IoTimeout? ==> (Flying(s, cb) <==> Flying(t, cb))
  {
    forall cb: Callback | cb.IoTimeout?
      ensures Started(s.fibers, cb) <==> Started(t.fibers, cb)
    {
      if Started(s.fibers, cb) {
        var h :| 0 <= h < |s.fibers| && s.fibers[h].phase == StartPhase(cb);
        assert t.fibers[h].phase == StartPhase(cb);
      }
      if Started(t.fibers, cb) {
        var h :| 0 <= h < |t.fibers| && t.fibers[h].phase == StartPhase(cb);
        assert s.fibers[h].phase == StartPhase(cb);
      }
    }
  }

  /** A move of the running fiber that touches neither timers nor registry: IoBegin, IoReturn, the
      two outcomes of IoTest, and IoAgain without a timeout. */
  lemma MoveKeeps(s: State, t: State, w: nat)
    requires T(s) && Wakeup.TimersOk(s) && Runs(s, w) && |t.fibers| == |s.fibers|
    requires var g := s.workers[w].pc.f;
      && t == s.(fibers := s.fibers[g := t.fibers[g]], ops := t.ops, nextOp := t.nextOp)
      && !s.fibers[g].phase.Expiring? && !s.fibers[g].phase.Cancelling?
      && OnlyMoves(s, t, g)
      && var q := t.fibers[g].phase;
      && !q.Expiring? && !q.Cancelling? && Wakeup.TimeoutOf(q) == None
      && (InIo(q) ==>
            && q.op in t.ops && q.op < t.nextOp
            && ((InIo(s.fibers[g].phase) && q.op == s.fibers[g].phase.op && q.fd == s.fibers[g].phase.fd && q.ev == s.fibers[g].phase.ev)
                || q.op == s.nextOp))
    requires forall op :: op in t.ops && op < s.nextOp ==> op in s.ops && t.ops[op] == s.ops[op]
    ensures T(t)
  {
    var g := s.workers[w].pc.f;
    SamePlaces(s, t, g);
    OpsKept(s, t, g);
    SourcesKept(s, t, g);
    forall f: FiberId | f < |t.fibers|
      ensures FiberT(t, f)
    {
      assert FiberT(s, f);
      if f != g { OtherT(s, t, g, f); } else { MovedFiber(s, t, g); }
    }
  }

  lemma MovedFiber(s: State, t: State, g: FiberId)
    requires T(s) && g < |s.fibers| && OnlyMoves(s, t, g) && t.timers == s.timers
    requires forall cb: Callback :: cb.IoTimeout? ==> (Flying(s, cb) <==> Flying(t, cb))
    requires var q := t.fibers[g].phase;
      && Wakeup.TimeoutOf(q) == None
      && (InIo(q) ==>
            && q.op in t.ops && q.op < t.nextOp
            && ((InIo(s.fibers[g].phase) && q.op == s.fibers[g].phase.op && q.fd == s.fibers[g].phase.fd && q.ev == s.fibers[g].phase.ev)
                || q.op == s.nextOp))
    ensures FiberT(t, g)
  {
    assert FiberT(s, g);
    var q := t.fibers[g].phase;
    if InIo(q) {
      forall cb | Known(t, cb) ensures AgreesWith(q, cb) { assert cb.IoTimeout? ==> Known(s, cb); }
    }
  }

  lemma IoBeginKeeps(s: State, w: nat, fd: nat, ev: Event)
    requires T(s) && Wakeup.Inv(s) && DoIoBegin(s, w, fd, ev).Some?
    ensures T(DoIoBegin(s, w, fd, ev).value)
  {
    var t := DoIoBegin(s, w, fd, ev).value;
    var g := s.workers[w].pc.f;
    SamePlaces(s, t, g);
    CallsAlive(s);
    MoveKeeps(s, t, w);
  }

  /** The call returns: its timer_info is gone, and it was nobody else's. */
  lemma LeaveKeeps(s: State, t: State, w: nat)
    requires T(s) && Wakeup.TimersOk(s) && Runs(s, w) && InIo(s.fibers[s.workers[w].pc.f].phase)
    requires t == SetPhase(s, w, Code).(ops := s.ops - {s.fibers[s.workers[w].pc.f].phase.op})
    ensures T(t)
  {
    var g := s.workers[w].pc.f;
    SamePlaces(s, t, g);
    CallsAlive(s);
    MoveKeeps(s, t, w);
  }

  /** The call goes on, with no timeout armed. */
  lemma AdvanceKeeps(s: State, t: State, w: nat, q: Phase)
    requires T(s) && Wakeup.TimersOk(s) && Runs(s, w) && InIo(s.fibers[s.workers[w].pc.f].phase) && InIo(q)
    requires var p := s.fibers[s.workers[w].pc.f].phase; q.op == p.op && q.fd == p.fd && q.ev == p.ev
    requires t == SetPhase(s, w, q) && Wakeup.TimeoutOf(q) == None
    ensures T(t)
  {
    var g := s.workers[w].pc.f;
    SamePlaces(s, t, g);
    CallsAlive(s);
    MoveKeeps(s, t, w);
  }

  /** Arming the timeout: it is pending, at an address nobody has. */
  lemma ArmTimeoutKeeps(s: State, w: nat, ms: nat, now: nat)
    requires T(s) && Wakeup.TimersOk(s) && DoIoAgain(s, w, Some(ms), now).Some?
    ensures T(DoIoAgain(s, w, Some(ms), now).value)
  {
    var t := DoIoAgain(s, w, Some(ms), now).value;
    var g := s.workers[w].pc.f;
    var p := s.fibers[g].phase;
    var rec := Timers.TimerRec(s.nextAddr, Timers.Deadline(now, ms), ms, false, IoTimeout(p.op, p.fd, p.ev));
    SamePlaces(s, t, g);
    forall x: Timers.TimerRec ensures x in t.timers.timers <==> x in s.timers.timers || x == rec {
      Timers.InsertElement(s.timers.timers, rec, x);
    }
    ArmedPlaces(s, t, rec);
    CallsAlive(s);
    OpsKept(s, t, g);
    SourcesKept(s, t, g);
    forall f: FiberId | f < |t.fibers|
      ensures FiberT(t, f)
    {
      assert FiberT(s, f);
      if f != g { OtherT(s, t, g, f); } else { ArmedFiber(s, t, g, rec); }
    }
  }

  /** One more timer is one more place for its own callback only. */
  lemma ArmedPlaces(s: State, t: State, rec: Timers.TimerRec)
    requires forall x: Timers.TimerRec :: x in t.timers.timers <==> x in s.timers.timers || x == rec
    requires forall cb: Callback :: cb.IoTimeout? ==> (Flying(s, cb) <==> Flying(t, cb))
    ensures forall cb: Callback :: cb.IoTimeout? && Known(t, cb) ==> Known(s, cb) || cb == rec.cb
    ensures forall a: nat, cb: Callback :: cb.IoTimeout? && Pending(s, a, cb) ==> Pending(t, a, cb)
    ensures Timed(t.timers.timers, rec.addr, rec.cb)
  {
    var ss, ts := s.timers.timers, t.timers.timers;
    assert rec in ts;
    forall i | 0 <= i < |ts| ensures ts[i].cb == rec.cb || exists j :: 0 <= j < |ss| && ss[j].cb == ts[i].cb {
      assert ts[i] in ts;
    }
    forall i | 0 <= i < |ss| ensures ss[i] in ts {}
  }

  lemma ArmedFiber(s: State, t: State, g: FiberId, rec: Timers.TimerRec)
    requires T(s) && Wakeup.TimersOk(s) && g < |s.fibers| == |t.fibers| && OnlyMoves(s, t, g)
    requires s.fibers[g].phase.IoTry? && t.ops == s.ops && t.nextOp == s.nextOp
    requires var p := s.fibers[g].phase;
      && t.fibers[g].phase == IoTimed(p.op, p.fd, p.ev, Some(s.nextAddr))
      && rec.addr == s.nextAddr && rec.cb == IoTimeout(p.op, p.fd, p.ev)
    requires forall x :: x in t.timers.timers ==> x in s.timers.timers || x == rec
    requires Timed(t.timers.timers, rec.addr, rec.cb)
    ensures FiberT(t, g)
  {
    assert FiberT(s, g);
    var q := t.fibers[g].phase;
    forall cb | Known(t, cb) ensures AgreesWith(q, cb) {
      assert Known(s, cb) ==> AgreesWith(s.fibers[g].phase, cb);
    }
  }

  /** Cancelling one's own timer takes nobody else's timeout away. */
  lemma DropPlaces(s: State, t: State, g: FiberId)
    requires T(s) && g < |s.fibers| && Wakeup.TimeoutOf(s.fibers[g].phase).Some?
    requires t == CancelTimer(s, Wakeup.TimeoutOf(s.fibers[g].phase))
    ensures forall x :: x in t.timers.timers ==> x in s.timers.timers
    ensures forall cb: Callback :: cb.IoTimeout? && Known(t, cb) ==> Known(s, cb)
    ensures forall f: FiberId :: f < |s.fibers| && f != g ==> Owes(t, f)
  {
    var a := Wakeup.TimeoutOf(s.fibers[g].phase).value;
    var ss, ts := s.timers.timers, t.timers.timers;
    forall x | x in ts ensures x in ss { Timers.DropElement(ss, a, x); }
    forall x | x in ss && x.addr != a ensures x in ts { Timers.DropStays(ss, a, x); }
    forall i | 0 <= i < |ts| ensures ts[i] in ss { assert ts[i] in ts; }
    forall f: FiberId | f < |s.fibers| && f != g
      ensures Owes(t, f)
    {
      OwesStill(s, t, g, f);
    }
  }

  lemma OwesStill(s: State, t: State, g: FiberId, f: FiberId)
    requires T(s) && g < |s.fibers| && f < |s.fibers| && f != g && Wakeup.TimeoutOf(s.fibers[g].phase).Some?
    requires t == s.(timers := t.timers)
    requires forall x :: x in s.timers.timers && x.addr != Wakeup.TimeoutOf(s.fibers[g].phase).value ==> x in t.timers.timers
    ensures Owes(t, f)
  {
    assert FiberT(s, f) && FiberT(s, g);
    var p := s.fibers[f].phase;
    if (p.IoTimed? || p.IoArmed?) && p.timer.Some? && !s.ops[p.op] {
      var cb := IoTimeout(p.op, p.fd, p.ev);
      if Timed(s.timers.timers, p.timer.value, cb) {
        var i :| 0 <= i < |s.timers.timers| && s.timers.timers[i].addr == p.timer.value && s.timers.timers[i].cb == cb;
        assert s.timers.timers[i] in s.timers.timers && s.timers.timers[i] in t.timers.timers;
      }
    }
  }

  /** After its own timer is cancelled a call that no longer relies on it is as before. */
  lemma DropKeeps(s: State, t: State, g: FiberId)
    requires T(s) && Wakeup.TimersOk(s) && g < |s.fibers| && s.fibers[g].phase.IoResumed?
    requires t == CancelTimer(s, s.fibers[g].phase.timer)
    ensures T(t)
  {
    if s.fibers[g].phase.timer.Some? {
      DropPlaces(s, t, g);
      CallsAlive(s);
      assert t.fibers == s.fibers[g := t.fibers[g]];
      OpsKept(s, t, g);
      SourcesKept(s, t, g);
      forall f: FiberId | f < |t.fibers|
        ensures FiberT(t, f)
      {
        assert FiberT(s, f);
        if f != g { OtherT(s, t, g, f); }
      }
    }
  }

  lemma IoCancelTimerKeeps(s: State, w: nat)
    requires T(s) && Wakeup.Inv(s) && DoIoCancelTimer(s, w).Some?
    ensures T(DoIoCancelTimer(s, w).value)
  {
    var g := s.workers[w].pc.f;
    var IoResumed(op, fd, ev, timer) := s.fibers[g].phase;
    var u := CancelTimer(s, timer);
    assert Wakeup.TimeoutOk(s, g);
    Wakeup.CancelTimerKeeps(s, timer);
    DropKeeps(s, u, g);
    AdvanceKeeps(u, SetPhase(u, w, IoCheck(op, fd, ev)), w, IoCheck(op, fd, ev));
  }

  /** addEvent failed: the timer is cancelled and the call ends. */
  lemma RefusedKeeps(s: State, w: nat, r: Registry.Registry)
    requires T(s) && Wakeup.TimersOk(s) && Runs(s, w) && s.fibers[s.workers[w].pc.f].phase.IoTimed? && RegKept(s.reg, r)
    ensures var p := s.fibers[s.workers[w].pc.f].phase;
      T(CancelTimer(SetPhase(s.(reg := r), w, Code).(ops := s.ops - {p.op}), p.timer))
  {
    var p := s.fibers[s.workers[w].pc.f].phase;
    if p.timer.None? {
      UndisturbedReg(s, r);
      LeaveKeeps(s.(reg := r), SetPhase(s.(reg := r), w, Code).(ops := s.ops - {p.op}), w);
    } else {
      GiveUpKeeps(s, w, r);
    }
  }

  lemma GiveUpKeeps(s: State, w: nat, r: Registry.Registry)
    requires T(s) && Wakeup.TimersOk(s) && Runs(s, w) && RegKept(s.reg, r)
    requires s.fibers[s.workers[w].pc.f].phase.IoTimed? && s.fibers[s.workers[w].pc.f].phase.timer.Some?
    ensures var p := s.fibers[s.workers[w].pc.f].phase;
      T(CancelTimer(SetPhase(s.(reg := r), w, Code).(ops := s.ops - {p.op}), p.timer))
  {
    var g := s.workers[w].pc.f;
    var p := s.fibers[g].phase;
    var t := CancelTimer(SetPhase(s.(reg := r), w, Code).(ops := s.ops - {p.op}), p.timer);
    DropPlaces(s, CancelTimer(s, p.timer), g);
    SamePlaces(s, t, g);
    CallsAlive(s);
    OpsKept(s, t, g);
    SourcesKept(s, t, g);
    forall f: FiberId | f < |t.fibers|
      ensures FiberT(t, f)
    {
      if f != g {
        assert Owes(CancelTimer(s, p.timer), f);
        OtherT(s, t, g, f);
      }
    }
  }

  lemma UndisturbedReg(s: State, r: Registry.Registry)
    requires T(s) && Wakeup.TimersOk(s) && RegKept(s.reg, r)
    ensures T(s.(reg := r)) && Wakeup.TimersOk(s.(reg := r))
  {
    var t := s.(reg := r);
    SelfKept(s, t);
    Quietly(s, t);
    UndisturbedKeeps(s, t);
    forall f: FiberId | f < |t.fibers| ensures Wakeup.TimeoutOk(t, f) { assert Wakeup.TimeoutOk(s, f); }
  }

  /** addEvent succeeded: what was pending still is. */
  lemma RegisteredKeeps(s: State, w: nat, r: Registry.Registry)
    requires T(s) && Wakeup.TimersOk(s) && Runs(s, w) && s.fibers[s.workers[w].pc.f].phase.IoTimed? && OnlyUser(r)
    ensures var p := s.fibers[s.workers[w].pc.f].phase; T(SetPhase(s.(reg := r), w, IoArmed(p.op, p.fd, p.ev, p.timer)))
  {
    var g := s.workers[w].pc.f;
    var p := s.fibers[g].phase;
    var t := SetPhase(s.(reg := r), w, IoArmed(p.op, p.fd, p.ev, p.timer));
    SamePlaces(s, t, g);
    CallsAlive(s);
    OpsKept(s, t, g);
    SourcesKept(s, t, g);
    forall f: FiberId | f < |t.fibers|
      ensures FiberT(t, f)
    {
      assert FiberT(s, f);
      if f != g { OtherT(s, t, g, f); } else { RegisteredFiber(s, t, g); }
    }
  }

  lemma RegisteredFiber(s: State, t: State, g: FiberId)
    requires T(s) && g < |s.fibers| == |t.fibers| && s.fibers[g].phase.IoTimed? && t.timers == s.timers
    requires t.ops == s.ops && t.nextOp == s.nextOp
    requires forall cb: Callback :: cb.IoTimeout? ==> (Flying(s, cb) <==> Flying(t, cb))
    requires var p := s.fibers[g].phase; t.fibers[g].phase == IoArmed(p.op, p.fd, p.ev, p.timer)
    ensures FiberT(t, g)
  {
    assert FiberT(s, g);
    var q := t.fibers[g].phase;
    forall cb | Known(t, cb) ensures AgreesWith(q, cb) { assert cb.IoTimeout? ==> Known(s, cb); }
  }

  lemma IoRegisterKeeps(s: State, w: nat, ok: bool)
    requires T(s) && Wakeup.Inv(s) && DoIoRegister(s, w, ok).Some?
    ensures T(DoIoRegister(s, w, ok).value)
  {
    var g := s.workers[w].pc.f;
    var p := s.fibers[g].phase;
    AddKept(s.reg, p.fd, p.ev, FiberTask(g), ok);
    match Registry.AddEvent(s.reg, p.fd, p.ev, FiberTask(g), ok) {
      case Abort =>
        FlagsQuiet(s, s.(aborted := true));
        UndisturbedKeeps(s, s.(aborted := true));
      case Refused(r) => RefusedKeeps(s, w, r);
      case Done(r, woken) => RegisteredKeeps(s, w, r);
    }
  }

  /** What is on its way when one callback reaches its test. */
  lemma TestedPlaces(s: State, t: State, g: FiberId, cb: Callback)
    requires g < |s.fibers| == |t.fibers| && t.fibers == s.fibers[g := t.fibers[g]]
    requires cb.IoTimeout? && s.fibers[g].phase == StartPhase(cb) && !t.fibers[g].phase.Expiring?
    requires t.queue == s.queue && t.workers == s.workers && t.timers == s.timers
    ensures Known(s, cb)
    ensures forall c: Callback :: c.IoTimeout? && Known(t, c) ==> Known(s, c)
    ensures forall a: nat, c: Callback :: c.IoTimeout? && c != cb && Pending(s, a, c) ==> Pending(t, a, c)
  {
    assert Started(s.fibers, cb);
    forall c: Callback | c.IoTimeout?
      ensures Started(t.fibers, c) ==> Started(s.fibers, c)
      ensures c != cb && Started(s.fibers, c) ==> Started(t.fibers, c)
    {
      if Started(s.fibers, c) {
        var h :| 0 <= h < |s.fibers| && s.fibers[h].phase == StartPhase(c);
        assert c != cb ==> t.fibers[h].phase == StartPhase(c);
      }
      if Started(t.fibers, c) {
        var h :| 0 <= h < |t.fibers| && t.fibers[h].phase == StartPhase(c);
        assert s.fibers[h].phase == StartPhase(c);
      }
    }
  }

  lemma TestedOps(s: State, t: State, g: FiberId)
    requires T(s) && g < |s.fibers| && s.fibers[g].phase.Expiring? && OnlyMoves(s, t, g)
    requires var c := s.fibers[g].phase;
      && Known(s, IoTimeout(c.op, c.fd, c.ev)) && t.nextOp == s.nextOp
      && if Marked(s, c.op) || c.op !in s.ops then t.fibers[g].phase == Code && t.ops == s.ops
         else t.fibers[g].phase == Cancelling(c.op, c.fd, c.ev) && t.ops == s.ops[c.op := true]
    ensures OpsT(t)
  {
    var c := s.fibers[g].phase;
    forall f: FiberId | f < |s.fibers| && InIo(s.fibers[f].phase)
      ensures AgreesWith(s.fibers[f].phase, IoTimeout(c.op, c.fd, c.ev))
    {
      assert FiberT(s, f);
    }
  }

  /** The timeout's test marks the call or finds it marked already: whoever relied on it is
      marked afterwards. */
  lemma RunTimeoutKeeps(s: State, w: nat)
    requires T(s) && Wakeup.TimersOk(s) && DoRunTimeout(s, w).Some?
    ensures T(DoRunTimeout(s, w).value)
  {
    var t := DoRunTimeout(s, w).value;
    var g := s.workers[w].pc.f;
    var c := s.fibers[g].phase;
    var cb := IoTimeout(c.op, c.fd, c.ev);
    TestedPlaces(s, t, g, cb);
    CallsAlive(s);
    TestedOps(s, t, g);
    SourcesKept(s, t, g);
    forall f: FiberId | f < |t.fibers| ensures FiberT(t, f) { if f != g { TestedFiber(s, t, g, cb, f); } }
  }

  lemma TestedFiber(s: State, t: State, g: FiberId, cb: Callback, f: FiberId)
    requires T(s) && Wakeup.TimersOk(s) && OnlyMoves(s, t, g) && f < |s.fibers| && f != g && cb.IoTimeout?
    requires forall op :: op in t.ops && !t.ops[op] ==> op in s.ops && !s.ops[op] && op != cb.op
    requires forall a: nat, c: Callback :: c.IoTimeout? && c != cb && Pending(s, a, c) ==> Pending(t, a, c)
    ensures FiberT(t, f)
  {
    assert FiberT(s, f);
    OtherT(s, t, g, f);
  }

  /** The cancelling callback is done with its call. */
  lemma RunCancelKeeps(s: State, w: nat, ok: bool)
    requires T(s) && Wakeup.Inv(s) && DoRunCancel(s, w, ok).Some?
    ensures T(DoRunCancel(s, w, ok).value)
  {
    var g := s.workers[w].pc.f;
    var Cancelling(op, fd, ev) := s.fibers[g].phase;
    var u := SetPhase(s, w, Code);
    DoneCancelling(s, u, g);
    Wakeup.PhaseKeeps(s, u, w, Code);
    CancelKept(u.reg, fd, ev, ok);
    RegistryQuiet(u, Registry.CancelEvent(u.reg, fd, ev, ok));
    UndisturbedKeeps(u, DoRunCancel(s, w, ok).value);
  }

  lemma DoneCancelling(s: State, t: State, g: FiberId)
    requires T(s) && Wakeup.TimersOk(s) && g < |s.fibers| && s.fibers[g].phase.Cancelling?
    requires t == SetFiber(s, g, s.fibers[g].(phase := Code))
    ensures T(t)
  {
    SamePlaces(s, t, g);
    CallsAlive(s);
    OpsKept(s, t, g);
    SourcesKept(s, t, g);
    forall f: FiberId | f < |t.fibers|
      ensures FiberT(t, f)
    {
      if f != g {
        assert FiberT(s, f);
        OtherT(s, t, g, f);
      }
    }
  }

  // ---------- every step ----------

  lemma StepWaitKeeps(s: State, w: nat, a: WaitStep)
    requires T(s) && Wakeup.Inv(s) && StepWait(s, w, a).Some?
    ensures T(StepWait(s, w, a).value)
  {
    var t := StepWait(s, w, a).value;
    match a {
      case IoBegin(fd, ev) => IoBeginKeeps(s, w, fd, ev);
      case IoReturn => LeaveKeeps(s, t, w);
      case IoAgain(timeout, now) => IoAgainKeeps(s, w, timeout, now);
      case IoRegister(ok) => IoRegisterKeeps(s, w, ok);
      case IoCancelTimer => IoCancelTimerKeeps(s, w);
      case IoTest => IoTestKeeps(s, w);
      case SleepBegin(ms, now) =>
        SleepQuiet(s, w, ms, now);
        UndisturbedKeeps(s, t);
      case Suspend =>
        StopQuiet(s, t, w);
        UndisturbedKeeps(s, t);
      case RunWake =>
        RunWakeQuiet(s, w);
        UndisturbedKeeps(s, t);
      case RunTimeout => RunTimeoutKeeps(s, w);
      case RunCancel(ok) => RunCancelKeeps(s, w, ok);
    }
  }

  lemma IoAgainKeeps(s: State, w: nat, timeout: Option<nat>, now: nat)
    requires T(s) && Wakeup.Inv(s) && DoIoAgain(s, w, timeout, now).Some?
    ensures T(DoIoAgain(s, w, timeout, now).value)
  {
    var IoTry(op, fd, ev) := s.fibers[s.workers[w].pc.f].phase;
    match timeout {
      case None => AdvanceKeeps(s, DoIoAgain(s, w, timeout, now).value, w, IoTimed(op, fd, ev, None));
      case Some(ms) => ArmTimeoutKeeps(s, w, ms, now);
    }
  }

  lemma IoTestKeeps(s: State, w: nat)
    requires T(s) && Wakeup.Inv(s) && DoIoTest(s, w).Some?
    ensures T(DoIoTest(s, w).value)
  {
    var IoCheck(op, fd, ev) := s.fibers[s.workers[w].pc.f].phase;
    if Marked(s, op) {
      LeaveKeeps(s, DoIoTest(s, w).value, w);
    } else {
      AdvanceKeeps(s, DoIoTest(s, w).value, w, IoTry(op, fd, ev));
    }
  }

  lemma StepKeeps(s: State, a: Action)
    requires T(s) && Wakeup.Inv(s) && Step(s, a).Some?
    ensures T(Step(s, a).value)
  {
    var t := Step(s, a).value;
    match a {
      case InWait(w, x) => StepWaitKeeps(s, w, x);
      case _ =>
        StepPasses(s, a);
        UndisturbedKeeps(s, t);
    }
  }

  lemma StepPasses(s: State, a: Action)
    requires T(s) && Wakeup.Inv(s) && Step(s, a).Some? && !a.InWait?
    ensures Undisturbed(s, Step(s, a).value)
  {
    match a {
      case ExternalSchedule(id, pin) => EnqueueQuiet(s, id, pin);
      case Stop => FlagsQuiet(s, s.(stopped := true));
      case InRun(w, r) => StepRunPasses(s, w, r);
      case InIdle(w, i) => StepIdlePasses(s, w, i);
      case InApp(w, p) => StepAppPasses(s, w, p);
    }
  }

  lemma {:induction false} RunKeeps(s: State, acts: seq<Action>)
    requires T(s) && Wakeup.Inv(s) && Run(s, acts).Some?
    ensures T(Run(s, acts).value)
    decreases |acts|
  {
    if acts != [] {
      StepKeeps(s, acts[0]);
      Wakeup.StepKeeps(s, acts[0]);
      RunKeeps(Step(s, acts[0]).value, acts[1..]);
    }
  }

  lemma ReachableT(threads: nat, s: State)
    requires Reachable(threads, s)
    ensures T(s)
  {
    var acts :| Run(Init(threads), acts) == Some(s);
    InitT(threads);
    Wakeup.InitInv(threads);
    RunKeeps(Init(threads), acts);
  }

  /** In every reachable state, a fiber waiting in do_io with a timeout whose call is not marked has
      that timeout still to come: its timer is set, or its callback is listed, held by a worker or
      about to make its test. */
  lemma TimeoutPending(threads: nat, s: State, f: FiberId)
    requires Reachable(threads, s) && f < |s.fibers| && s.fibers[f].phase.IoArmed? && s.fibers[f].phase.timer.Some?
    ensures var p := s.fibers[f].phase;
      p.op in s.ops && (Marked(s, p.op) || Pending(s, p.timer.value, IoTimeout(p.op, p.fd, p.ev)))
  {
    ReachableT(threads, s);
    assert FiberT(s, f);
  }
}
