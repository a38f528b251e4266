/** Nothing happens before its time: a sleeping fiber is not resumed, and a call of do_io is not timed
    out, until the deadline that it set has come. */
module Timing {
  import opened Common
  import opened Tasks
  import opened Runtime
  import TaskQueue
  import Registry
  import Timers
  import Wakeup
  import Timeouts
  import Paths
  import opened Behaviour
  import opened Handover

  // ---------- moments of a run ----------

  /** Step k of the run from s expires the timers whose deadline is d. */
  predicate DueAt(s: State, acts: seq<Action>, k: nat, d: nat) {
    && k < |acts| && acts[k].InIdle? && acts[k].idle.ListExpired? && Run(s, acts[..k]).Some?
    && Timers.ClockDue(Run(s, acts[..k]).value.timers.previous, acts[k].idle.now, d)
  }

  predicate DueBy(s: State, acts: seq<Action>, d: nat) { exists k :: 0 <= k < |acts| && DueAt(s, acts, k, d) }

  lemma DueLater(s: State, acts: seq<Action>, t: State, d: nat)
    requires acts != [] && Step(s, acts[0]) == Some(t) && DueBy(t, acts[1..], d)
    ensures DueBy(s, acts, d)
  {
    var k :| 0 <= k < |acts[1..]| && DueAt(t, acts[1..], k, d);
    assert acts[..k + 1][1..] == acts[1..][..k];
    assert DueAt(s, acts, k + 1, d);
  }

  lemma ReachableStep(threads: nat, s: State, a: Action, t: State)
    requires Reachable(threads, s) && Step(s, a) == Some(t)
    ensures Reachable(threads, t)
  {
    assert Paths.Path(Init(threads), s);
    Paths.PathStep(Init(threads), s, a);
  }

  // ---------- sleep ----------

  /** f is asleep and x is the timer that is to wake it. */
  predicate Asleep(s: State, f: FiberId, x: Timers.TimerRec) {
    f < |s.fibers| && s.fibers[f].phase == SleepArmed && x.cb == WakeSleeper(f) && x in s.timers.timers
  }

  /** While the timer is set no worker holds its sleeper. */
  lemma NotHeld(s: State, w: nat, f: FiberId, x: Timers.TimerRec)
    requires Wakeup.Inv(s) && Asleep(s, f, x) && w < |s.workers|
    ensures s.workers[w].pc != Took(FiberTask(f))
  {
    if s.workers[w].pc == Took(FiberTask(f)) {
      Wakeup.TookFacts(s, w, f);
      SumSplit(s.workers, w, Wakeup.WorkerTokens(f));
      var i :| 0 <= i < |s.timers.timers| && s.timers.timers[i] == x;
      SumSplit(s.timers.timers, i, Timers.TimerTokens(f));
      assert false;
    }
  }

  /** A sleeper's timer goes only by expiring. */
  lemma TimerGoes(threads: nat, s: State, a: Action, t: State, f: FiberId, x: Timers.TimerRec)
    requires Reachable(threads, s) && Step(s, a) == Some(t) && Asleep(s, f, x) && x !in t.timers.timers
    ensures a.InIdle? && a.idle.ListExpired? && Timers.ClockDue(s.timers.previous, a.idle.now, x.next)
  {
    EveryTimerMoves(threads, s, a, t);
    Wakeup.ReachableInv(threads, s);
    NoCallsTimer(s, x);
  }

  /** No call of do_io has set a sleeper's timer. */
  lemma NoCallsTimer(s: State, x: Timers.TimerRec)
    requires Wakeup.TimersOk(s) && x in s.timers.timers && x.cb.WakeSleeper?
    ensures forall g: FiberId :: g < |s.fibers| ==> Wakeup.TimeoutOf(s.fibers[g].phase) != Some(x.addr)
  {
    forall g: FiberId | g < |s.fibers| ensures Wakeup.TimeoutOf(s.fibers[g].phase) != Some(x.addr) {
      assert Wakeup.TimeoutOk(s, g);
    }
  }

  lemma StaysAsleep(threads: nat, s: State, a: Action, t: State, f: FiberId, x: Timers.TimerRec)
    requires Reachable(threads, s) && Step(s, a) == Some(t) && Asleep(s, f, x)
    ensures f < |t.fibers| && t.fibers[f].phase == SleepArmed
  {
    Wakeup.ReachableInv(threads, s);
    EveryFiberMoves(threads, s, a, t, f);
    if Resumes(s, a, f) { NotHeld(s, a.w, f, x); }
  }

  lemma {:induction false} AsleepUntil(threads: nat, s: State, acts: seq<Action>, f: FiberId, x: Timers.TimerRec)
    requires Reachable(threads, s) && Asleep(s, f, x) && Run(s, acts).Some?
    ensures Asleep(Run(s, acts).value, f, x) || DueBy(s, acts, x.next)
    decreases |acts|
  {
    if acts != [] {
      var t := Step(s, acts[0]).value;
      StaysAsleep(threads, s, acts[0], t, f, x);
      if x in t.timers.timers {
        ReachableStep(threads, s, acts[0], t);
        AsleepUntil(threads, t, acts[1..], f, x);
        if DueBy(t, acts[1..], x.next) { DueLater(s, acts, t, x.next); }
      } else {
        TimerGoes(threads, s, acts[0], t, f, x);
        assert acts[..0] == [];
        assert DueAt(s, acts, 0, x.next);
      }
    }
  }

  /** A fiber that sleeps for ms milliseconds from `now` is still asleep after any run in which no clock
      reading made its deadline due. */
  lemma SleepsItsTime(threads: nat, s: State, w: nat, ms: nat, now: nat, t: State, acts: seq<Action>)
    requires Reachable(threads, s) && Step(s, InWait(w, SleepBegin(ms, now))) == Some(t) && Run(t, acts).Some?
    ensures Runs(s, w)
    ensures var f := s.workers[w].pc.f; var u := Run(t, acts).value;
      (f < |u.fibers| && u.fibers[f].phase == SleepArmed) || DueBy(t, acts, (now + ms) % 0x1_0000_0000_0000_0000)
  {
    var a := InWait(w, SleepBegin(ms, now));
    EnabledExactly(threads, s, a);
    var f := s.workers[w].pc.f;
    EveryTimerMoves(threads, s, a, t);
    EveryFiberMoves(threads, s, a, t, f);
    var x := Timers.TimerRec(s.nextAddr, (now + ms) % 0x1_0000_0000_0000_0000, ms, false, WakeSleeper(f));
    ReachableStep(threads, s, a, t);
    AsleepUntil(threads, t, acts, f, x);
  }

  // ---------- waiting for an event ----------

  /** Step k of the run from s delivers or cancels the event. */
  predicate TakenAt(s: State, acts: seq<Action>, k: nat, fd: nat, ev: Event) {
    k < |acts| && Run(s, acts[..k]).Some? && Takes(Run(s, acts[..k]).value, acts[k], fd, ev)
  }

  predicate TakenBy(s: State, acts: seq<Action>, fd: nat, ev: Event) {
    exists k :: 0 <= k < |acts| && TakenAt(s, acts, k, fd, ev)
  }

  lemma TakenLater(s: State, acts: seq<Action>, t: State, fd: nat, ev: Event)
    requires acts != [] && Step(s, acts[0]) == Some(t) && TakenBy(t, acts[1..], fd, ev)
    ensures TakenBy(s, acts, fd, ev)
  {
    var k :| 0 <= k < |acts[1..]| && TakenAt(t, acts[1..], k, fd, ev);
    assert acts[..k + 1][1..] == acts[1..][..k];
    assert TakenAt(s, acts, k + 1, fd, ev);
  }

  /** A registered fiber stays where it is. */
  lemma StaysRegistered(threads: nat, s: State, a: Action, t: State, fd: nat, ev: Event, f: FiberId)
    requires Reachable(threads, s) && Step(s, a) == Some(t) && Waits(s, fd, ev, f)
    ensures f < |s.fibers| && f < |t.fibers| && t.fibers[f].phase == s.fibers[f].phase
    ensures Waits(t, fd, ev, f) || Takes(s, a, fd, ev)
  {
    WaitsForItsEvent(threads, s, a, t, fd, ev, f);
    EveryFiberMoves(threads, s, a, t, f);
    Wakeup.ReachableInv(threads, s);
    if Resumes(s, a, f) { NotTwice(s, a.w, fd, ev, f); }
  }

  lemma {:induction false} WaitsUntil(threads: nat, s: State, acts: seq<Action>, fd: nat, ev: Event, f: FiberId)
    requires Reachable(threads, s) && f < |s.fibers| && Waits(s, fd, ev, f) && Run(s, acts).Some?
    ensures var u := Run(s, acts).value;
      (f < |u.fibers| && u.fibers[f].phase == s.fibers[f].phase) || TakenBy(s, acts, fd, ev)
    decreases |acts|
  {
    if acts != [] {
      var t := Step(s, acts[0]).value;
      StaysRegistered(threads, s, acts[0], t, fd, ev, f);
      if Takes(s, acts[0], fd, ev) {
        assert acts[..0] == [];
        assert TakenAt(s, acts, 0, fd, ev);
      } else {
        ReachableStep(threads, s, acts[0], t);
        WaitsUntil(threads, t, acts[1..], fd, ev, f);
        if TakenBy(t, acts[1..], fd, ev) { TakenLater(s, acts, t, fd, ev); }
      }
    }
  }

  /** A fiber that has registered for an event in do_io is still waiting for it after any run in which
      that event, of that descriptor, was neither delivered nor cancelled. */
  lemma WaitsForDelivery(threads: nat, s: State, w: nat, t: State, acts: seq<Action>)
    requires Reachable(threads, s) && Step(s, InWait(w, IoRegister(true))) == Some(t) && !t.aborted && Run(t, acts).Some?
    ensures Runs(s, w) && Mover(s, w).IoTimed?
    ensures var f, p := s.workers[w].pc.f, Mover(s, w); var u := Run(t, acts).value;
      (f < |u.fibers| && u.fibers[f].phase == IoArmed(p.op, p.fd, p.ev, p.timer)) || TakenBy(t, acts, p.fd, p.ev)
  {
    var a := InWait(w, IoRegister(true));
    EnabledExactly(threads, s, a);
    var f, p := s.workers[w].pc.f, Mover(s, w);
    EveryFiberMoves(threads, s, a, t, f);
    WaitsForItsEvent(threads, s, a, t, p.fd, p.ev, f);
    ReachableStep(threads, s, a, t);
    WaitsUntil(threads, t, acts, p.fd, p.ev, f);
  }

  // ---------- the timeouts of do_io ----------

  /** A timeout that is on its way was on its way before, or has just expired. */
  lemma FlyingFrom(threads: nat, s: State, a: Action, t: State, cb: Callback)
    requires Reachable(threads, s) && Step(s, a) == Some(t) && cb.IoTimeout? && Timeouts.Flying(t, cb)
    ensures Timeouts.Flying(s, cb) || JustExpired(s, a, cb)
  {
    EveryTaskHanded(threads, s, a, t);
    EveryWorkerMoves(threads, s, a, t);
    EveryTimerMoves(threads, s, a, t);
    Timeouts.ReachableT(threads, s);
    if Timeouts.Listed(t.queue, cb) {
      ListedFrom(s, a, t, cb);
    } else if Timeouts.Held(t.workers, cb) {
      HeldFrom(s, a, t, cb);
    } else {
      StartedFrom(threads, s, a, t, cb);
    }
  }

  /** The step expires a timer with this callback. */
  predicate JustExpired(s: State, a: Action, cb: Callback) {
    && a.InIdle? && a.idle.ListExpired?
    && exists x :: x in s.timers.timers && x.cb == cb && Timers.ClockDue(s.timers.previous, a.idle.now, x.next)
  }

  lemma HandedFrom(s: State, a: Action, cb: Callback)
    requires Registry.Consistent(s.reg) && Timeouts.OnlyUser(s.reg) && cb.IoTimeout? && CbTask(cb) in Handed(s, a)
    ensures Timeouts.Held(s.workers, cb)
  {
    if a.InIdle? && a.idle.ScheduleExpired? && a.w < |s.workers| && s.workers[a.w].pc.Expired? {
      assert Timeouts.Holds(s.workers[a.w], cb);
    }
  }

  lemma AppendedListed(q: TaskQueue.Queue, r: TaskQueue.Queue, tasks: seq<Task>, pin: Option<nat>, first: nat, cb: Callback)
    requires TaskQueue.Appended(q.entries, r.entries, tasks, pin, first) && Timeouts.Listed(r, cb)
    ensures Timeouts.Listed(q, cb) || CbTask(cb) in tasks
  {
    var n := |q.entries|;
    var i :| 0 <= i < |r.entries| && r.entries[i].task == CbTask(cb);
    if i < n {
      assert r.entries[..n][i] == q.entries[i];
    } else {
      assert r.entries[n + (i - n)].task == tasks[i - n];
    }
  }

  lemma RemovedListed(q: TaskQueue.Queue, r: TaskQueue.Queue, k: nat, cb: Callback)
    requires k < |q.entries| && r.entries == q.entries[..k] + q.entries[k + 1..] && Timeouts.Listed(r, cb)
    ensures Timeouts.Listed(q, cb)
  {
    var i :| 0 <= i < |r.entries| && r.entries[i].task == CbTask(cb);
    RemoveIndex(q.entries, k, i);
    assert q.entries[if i < k then i else i + 1].task == CbTask(cb);
  }

  lemma ListedFrom(s: State, a: Action, t: State, cb: Callback)
    requires Registry.Consistent(s.reg) && Timeouts.OnlyUser(s.reg) && ListMoves(s, a, t)
    requires cb.IoTimeout? && Timeouts.Listed(t.queue, cb)
    ensures Timeouts.Flying(s, cb)
  {
    if a.InRun? && a.run.Pick? {
      var k :| 0 <= k <= |s.queue.entries| && PickedAt(s, a.w, t, k);
      if k < |s.queue.entries| { RemovedListed(s.queue, t.queue, k, cb); }
    } else {
      AppendedListed(s.queue, t.queue, Handed(s, a), PinOf(a), s.queue.issued, cb);
      if CbTask(cb) in Handed(s, a) { HandedFrom(s, a, cb); }
    }
  }

  /** Only a pick and an expiry put a timeout into a worker's hands. */
  lemma WhoHolds(s: State, a: Action, t: State, v: nat, cb: Callback)
    requires WorkersMove(s, a, t) && v < |t.workers| && cb.IoTimeout? && Timeouts.Holds(t.workers[v], cb)
    ensures
      || (v < |s.workers| && t.workers[v] == s.workers[v])
      || (a.InRun? && a.run.Pick? && v == a.w && t.workers[v].pc == Took(CbTask(cb)))
      || (a.InIdle? && a.idle.ListExpired? && v == a.w && t.workers[v].pc.Expired? && cb in t.workers[v].pc.cbs)
  {
  }

  lemma HeldFrom(s: State, a: Action, t: State, cb: Callback)
    requires Registry.Consistent(s.reg) && ListMoves(s, a, t) && WorkersMove(s, a, t) && TimersMove(s, a, t)
    requires cb.IoTimeout? && Timeouts.Held(t.workers, cb)
    ensures Timeouts.Flying(s, cb) || JustExpired(s, a, cb)
  {
    var v :| 0 <= v < |t.workers| && Timeouts.Holds(t.workers[v], cb);
    WhoHolds(s, a, t, v, cb);
    if v < |s.workers| && t.workers[v] == s.workers[v] {
      assert Timeouts.Holds(s.workers[v], cb);
    } else if a.InRun? && a.run.Pick? {
      var k :| 0 <= k <= |s.queue.entries| && PickedAt(s, a.w, t, k);
      assert s.queue.entries[k].task == CbTask(cb);
    } else {
      var cbs := t.workers[v].pc.cbs;
      var i :| 0 <= i < |cbs| && cbs[i] == cb;
      assert s.timers.timers[i] in s.timers.timers && s.timers.timers[i].cb == cb;
    }
  }

  lemma StaysStarted(s: State, a: Action, t: State, g: FiberId, cb: Callback)
    requires g < |s.fibers| && FiberMoves(s, a, t, g) && cb.IoTimeout? && t.fibers[g].phase == StartPhase(cb)
    ensures Timeouts.Flying(s, cb)
  {
    if Reuses(s, a, g) {
      assert Timeouts.Holds(s.workers[a.w], cb);
    } else {
      assert s.fibers[g].phase == StartPhase(cb);
    }
  }

  lemma StartedFrom(threads: nat, s: State, a: Action, t: State, cb: Callback)
    requires Reachable(threads, s) && Step(s, a) == Some(t) && cb.IoTimeout? && Timeouts.Started(t.fibers, cb)
    ensures Timeouts.Flying(s, cb)
  {
    var g :| 0 <= g < |t.fibers| && t.fibers[g].phase == StartPhase(cb);
    if g < |s.fibers| {
      EveryFiberMoves(threads, s, a, t, g);
      StaysStarted(s, a, t, g, cb);
    } else {
      FibersAppear(threads, s, a, t);
      EveryWorkerMoves(threads, s, a, t);
      assert Timeouts.Holds(s.workers[a.w], cb);
    }
  }

  /** The deadline of the timeout that a step sets. */
  function Until(a: Action): nat {
    if a.InWait? && a.wait.IoAgain? && a.wait.timeout.Some?
    then (a.wait.now + a.wait.timeout.value) % 0x1_0000_0000_0000_0000
    else 0
  }

  /** In step i of the run call op sets a timeout. */
  predicate SetAt(threads: nat, acts: seq<Action>, i: nat, op: nat) {
    && i < |acts| && acts[i].InWait? && acts[i].wait.IoAgain? && acts[i].wait.timeout.Some?
    && Run(Init(threads), acts[..i]).Some?
    && var s := Run(Init(threads), acts[..i]).value;
       Runs(s, acts[i].w) && Mover(s, acts[i].w).IoTry? && Mover(s, acts[i].w).op == op
  }

  /** In the first n steps call op has set a timeout and its deadline has come. */
  predicate CameDue(threads: nat, acts: seq<Action>, n: nat, op: nat) {
    exists i, k :: 0 <= i < k < n && SetAt(threads, acts, i, op) && DueAt(Init(threads), acts, k, Until(acts[i]))
  }

  predicate SetBefore(threads: nat, acts: seq<Action>, n: nat, x: Timers.TimerRec) {
    x.cb.IoTimeout? ==> exists i :: 0 <= i < n && SetAt(threads, acts, i, x.cb.op) && Until(acts[i]) == x.next
  }

  ghost predicate AllSet(threads: nat, acts: seq<Action>, n: nat, s: State) {
    forall x :: x in s.timers.timers ==> SetBefore(threads, acts, n, x)
  }

  ghost predicate AllDue(threads: nat, acts: seq<Action>, n: nat, s: State) {
    && (forall cb: Callback :: cb.IoTimeout? && Timeouts.Flying(s, cb) ==> CameDue(threads, acts, n, cb.op))
    && (forall op: nat :: Timeouts.Marked(s, op) ==> CameDue(threads, acts, n, op))
  }

  lemma SetStep(threads: nat, acts: seq<Action>, n: nat, s: State, t: State)
    requires n < |acts| && Run(Init(threads), acts[..n]) == Some(s) && Wakeup.TimersOk(s)
    requires TimersMove(s, acts[n], t) && AllSet(threads, acts, n, s)
    ensures AllSet(threads, acts, n + 1, t)
  {
    forall x | x in t.timers.timers
      ensures SetBefore(threads, acts, n + 1, x)
    {
      if x in s.timers.timers {
        assert SetBefore(threads, acts, n, x);
      } else if x.cb.IoTimeout? {
        assert SetAt(threads, acts, n, x.cb.op);
      }
    }
  }

  lemma JustDue(threads: nat, acts: seq<Action>, n: nat, s: State, cb: Callback)
    requires n < |acts| && Run(Init(threads), acts[..n]) == Some(s) && AllSet(threads, acts, n, s)
    requires cb.IoTimeout? && JustExpired(s, acts[n], cb)
    ensures CameDue(threads, acts, n + 1, cb.op)
  {
    var x :| x in s.timers.timers && x.cb == cb && Timers.ClockDue(s.timers.previous, acts[n].idle.now, x.next);
    assert SetBefore(threads, acts, n, x);
    var i :| 0 <= i < n && SetAt(threads, acts, i, cb.op) && Until(acts[i]) == x.next;
    assert DueAt(Init(threads), acts, n, Until(acts[i]));
  }

  lemma DueOn(threads: nat, acts: seq<Action>, n: nat, op: nat)
    requires CameDue(threads, acts, n, op)
    ensures CameDue(threads, acts, n + 1, op)
  {
    var i, k :| 0 <= i < k < n && SetAt(threads, acts, i, op) && DueAt(Init(threads), acts, k, Until(acts[i]));
  }

  lemma DueStep(threads: nat, acts: seq<Action>, n: nat, s: State, t: State)
    requires n < |acts| && Run(Init(threads), acts[..n]) == Some(s) && Step(s, acts[n]) == Some(t) && Reachable(threads, s)
    requires AllSet(threads, acts, n, s) && AllDue(threads, acts, n, s)
    ensures AllDue(threads, acts, n + 1, t)
  {
    forall cb: Callback | cb.IoTimeout? && Timeouts.Flying(t, cb)
      ensures CameDue(threads, acts, n + 1, cb.op)
    {
      FlyingFrom(threads, s, acts[n], t, cb);
      if Timeouts.Flying(s, cb) { DueOn(threads, acts, n, cb.op); } else { JustDue(threads, acts, n, s, cb); }
    }
    forall op: nat | Timeouts.Marked(t, op)
      ensures CameDue(threads, acts, n + 1, op)
    {
      MarkedExactly(threads, s, acts[n], t, op);
      MarkFrom(s, acts[n], t, op);
      DueOn(threads, acts, n, op);
    }
  }

  /** A marked call was marked before, or its timeout is about to make its test. */
  lemma MarkFrom(s: State, a: Action, t: State, op: nat)
    requires MarkMoves(s, a, t, op) && Timeouts.Marked(t, op)
    ensures Timeouts.Marked(s, op) || exists cb: Callback :: cb.IoTimeout? && cb.op == op && Timeouts.Flying(s, cb)
  {
    if !Timeouts.Marked(s, op) {
      var p := Mover(s, a.w);
      var cb := IoTimeout(op, p.fd, p.ev);
      assert s.fibers[s.workers[a.w].pc.f].phase == StartPhase(cb);
      assert Timeouts.Flying(s, cb);
    }
  }

  lemma {:induction false} DueRun(threads: nat, acts: seq<Action>, n: nat)
    requires n <= |acts| && Run(Init(threads), acts[..n]).Some?
    ensures var s := Run(Init(threads), acts[..n]).value; AllSet(threads, acts, n, s) && AllDue(threads, acts, n, s)
    decreases n
  {
    if n == 0 {
      assert acts[..0] == [];
    } else {
      var before, last := acts[..n - 1], acts[n - 1];
      assert acts[..n] == before + [last];
      RunSplit(Init(threads), before, last);
      var s := Run(Init(threads), before).value;
      var t := Step(s, last).value;
      DueRun(threads, acts, n - 1);
      EveryTimerMoves(threads, s, last, t);
      Wakeup.ReachableInv(threads, s);
      SetStep(threads, acts, n - 1, s, t);
      DueStep(threads, acts, n - 1, s, t);
    }
  }

  /** A run that ends with a step got there by the steps before it. */
  lemma {:induction false} RunSplit(s: State, acts: seq<Action>, a: Action)
    requires Run(s, acts + [a]).Some?
    ensures Run(s, acts).Some? && Step(Run(s, acts).value, a) == Run(s, acts + [a])
    decreases |acts|
  {
    if acts == [] {
      assert [] + [a] == [a] && [a][1..] == [];
    } else {
      assert (acts + [a])[1..] == acts[1..] + [a];
      RunSplit(Step(s, acts[0]).value, acts[1..], a);
    }
  }

  /** In every run: a call that is marked as timed out has set a timeout, and the clock was read at or
      after the deadline of that timeout (or had been set back) before the call was marked. */
  lemma NeverTimedOutEarly(threads: nat, acts: seq<Action>, s: State, op: nat)
    requires Run(Init(threads), acts) == Some(s) && op in s.ops && s.ops[op]
    ensures CameDue(threads, acts, |acts|, op)
  {
    assert acts[..|acts|] == acts;
    DueRun(threads, acts, |acts|);
    assert Timeouts.Marked(s, op);
  }
}
