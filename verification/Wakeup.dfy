/** Single wakeup: in every reachable state each suspended fiber is owed exactly one
    resumption, by exactly one of the places that can hold one, and no fiber is run by
    two workers. The same invariant fixes the thread counters, the registry and the list. */
module Wakeup {
  import opened Common
  import opened Tasks
  import opened Runtime
  import TaskQueue
  import Registry
  import Timers

  // ---------- where wakeups are held ----------

  function WorkerWakes(k: Worker, f: FiberId): nat {
    match k.pc
    case Took(t) => TaskWakes(t, f)
    case Requeue(g) => if g == f then 1 else 0
    case Expired(cbs) => Sum(cbs, CallbackTokens(f))
    case _ => 0
  }

  function WorkerTokens(f: FiberId): Worker -> nat { (k: Worker) => WorkerWakes(k, f) }

  function RunnerOf(f: FiberId): Worker -> nat { (k: Worker) => if k.pc == Running(f) then 1 else 0 }

  function CacheOf(f: FiberId): Worker -> nat {
    (k: Worker) => if k.cbFiber == Some(f) && k.pc != Running(f) then 1 else 0
  }

  function ActiveWeight(): Worker -> nat { (k: Worker) => if k.pc.Took? || k.pc.Running? then 1 else 0 }

  predicate IsIdle(pc: Pc) {
    pc.IdleTimers? || pc.IdlePending? || pc.IdleStopping? || pc.Poll? || pc.Expired? || pc.Delivering?
  }

  function IdleWeight(): Worker -> nat { (k: Worker) => if IsIdle(k.pc) then 1 else 0 }

  function FiberTokens(f: FiberId): Fiber -> nat { (g: Fiber) => if g.phase == Wake(f) then 1 else 0 }

  /** The wake tokens of a fiber: list entries, event registrations, pending timers, what a
      worker holds, and callbacks that are about to call schedule. */
  function Tokens(s: State, f: FiberId): nat {
    Sum(s.queue.entries, TaskQueue.EntryTokens(f))
    + Registry.Tokens(s.reg, f)
    + Sum(s.timers.timers, Timers.TimerTokens(f))
    + Sum(s.workers, WorkerTokens(f))
    + Sum(s.fibers, FiberTokens(f))
  }

  function Runners(s: State, f: FiberId): nat { Sum(s.workers, RunnerOf(f)) }

  function Cached(s: State, f: FiberId): nat { Sum(s.workers, CacheOf(f)) }

  // ---------- the invariant ----------

  /** How many wakeups a fiber must be owed, given its state. */
  function Owed(fb: Fiber): nat {
    match fb.state
    case EXEC => if Armed(fb.phase) then 1 else 0
    case TERM => 0
    case EXCEPT => 0
    case _ => 1
  }

  predicate PhaseOk(fb: Fiber) {
    (fb.state == HOLD ==> Armed(fb.phase)) && (fb.state !in {HOLD, EXEC} ==> fb.phase == Code)
  }

  predicate FiberOk(s: State, f: FiberId) {
    if f < |s.fibers| then
      && PhaseOk(s.fibers[f])
      && Runners(s, f) == (if s.fibers[f].state == EXEC then 1 else 0)
      && Tokens(s, f) + Cached(s, f) == Owed(s.fibers[f])
      && (Cached(s, f) > 0 ==> s.fibers[f].state == INIT)
    else Tokens(s, f) == 0 && Runners(s, f) == 0 && Cached(s, f) == 0
  }

  /** The timeout that a do_io call armed. */
  function TimeoutOf(p: Phase): Option<nat> {
    if p.IoTimed? || p.IoArmed? || p.IoResumed? then p.timer else None
  }

  predicate TimeoutOk(s: State, f: FiberId)
    requires f < |s.fibers|
  {
    var a := TimeoutOf(s.fibers[f].phase);
    a.Some? ==>
      && a.value < s.nextAddr
      && forall t :: t in s.timers.timers && t.addr == a.value ==> t.cb.IoTimeout?
  }

  predicate TimersOk(s: State) {
    && (forall t :: t in s.timers.timers ==> t.addr < s.nextAddr && (t.recurring ==> t.cb.UserTask?))
    && (forall f: FiberId :: f < |s.fibers| ==> TimeoutOk(s, f))
  }

  predicate CountersOk(s: State) {
    s.active == Sum(s.workers, ActiveWeight()) && s.idle == Sum(s.workers, IdleWeight())
  }

  /** A worker never holds a fiber that is still running somewhere. */
  predicate TookOk(s: State, w: nat)
    requires w < |s.workers|
  {
    match s.workers[w].pc
    case Took(FiberTask(f)) => f < |s.fibers| && s.fibers[f].state != EXEC
    case _ => true
  }

  ghost predicate Inv(s: State) {
    && (forall f: FiberId :: FiberOk(s, f))
    && (forall w: nat :: w < |s.workers| ==> TookOk(s, w))
    && TimersOk(s)
    && CountersOk(s)
    && Registry.Consistent(s.reg)
    && TaskQueue.WellFormed(s.queue)
  }

  lemma InitFiber(threads: nat, f: FiberId)
    ensures FiberOk(Init(threads), f)
  {
    var s := Init(threads);
    SumZero(s.workers, WorkerTokens(f));
    SumZero(s.workers, RunnerOf(f));
    SumZero(s.workers, CacheOf(f));
    SumZero(s.reg.fds, Registry.FdTokens(f));
  }

  lemma InitInv(threads: nat)
    ensures Inv(Init(threads))
  {
    var s := Init(threads);
    Registry.FreshConsistent();
    SumZero(s.workers, ActiveWeight());
    SumZero(s.workers, IdleWeight());
    forall f: FiberId
      ensures FiberOk(s, f)
    {
      InitFiber(threads, f);
    }
  }

  // ---------- what changing one worker or one fiber does to the sums ----------

  lemma WorkerChange(ws: seq<Worker>, w: nat, k: Worker, f: FiberId)
    requires w < |ws|
    ensures Sum(ws[w := k], WorkerTokens(f)) + WorkerWakes(ws[w], f) == Sum(ws, WorkerTokens(f)) + WorkerWakes(k, f)
    ensures Sum(ws[w := k], RunnerOf(f)) + RunnerOf(f)(ws[w]) == Sum(ws, RunnerOf(f)) + RunnerOf(f)(k)
    ensures Sum(ws[w := k], CacheOf(f)) + CacheOf(f)(ws[w]) == Sum(ws, CacheOf(f)) + CacheOf(f)(k)
  {
    SumUpdate(ws, w, k, WorkerTokens(f));
    SumUpdate(ws, w, k, RunnerOf(f));
    SumUpdate(ws, w, k, CacheOf(f));
  }

  lemma CountersChange(s: State, w: nat, k: Worker)
    requires w < |s.workers|
    ensures Sum(s.workers[w := k], ActiveWeight()) + ActiveWeight()(s.workers[w])
         == Sum(s.workers, ActiveWeight()) + ActiveWeight()(k)
    ensures Sum(s.workers[w := k], IdleWeight()) + IdleWeight()(s.workers[w])
         == Sum(s.workers, IdleWeight()) + IdleWeight()(k)
  {
    SumUpdate(s.workers, w, k, ActiveWeight());
    SumUpdate(s.workers, w, k, IdleWeight());
  }

  /** A worker that is running a fiber is that fiber's only runner, and the fiber is EXEC. */
  lemma RunnerFacts(s: State, w: nat)
    requires Inv(s) && w < |s.workers| && s.workers[w].pc.Running?
    ensures var f := s.workers[w].pc.f; f < |s.fibers| && s.fibers[f].state == EXEC
    ensures forall v :: 0 <= v < |s.workers| && v != w ==> s.workers[v].pc != s.workers[w].pc
  {
    var f := s.workers[w].pc.f;
    assert FiberOk(s, f);
    SumSplit(s.workers, w, RunnerOf(f));
    forall v | 0 <= v < |s.workers| && v != w
      ensures s.workers[v].pc != s.workers[w].pc
    {
      SumTwo(s.workers, if v < w then v else w, if v < w then w else v, RunnerOf(f));
    }
  }

  // ---------- Scheduler::run ----------

  /** A step that keeps a fiber's state, tokens, runners and cache entries keeps its account. */
  lemma SameAccount(s: State, t: State, f: FiberId)
    requires FiberOk(s, f) && t.fibers == s.fibers
    requires Tokens(t, f) == Tokens(s, f) && Runners(t, f) == Runners(s, f) && Cached(t, f) == Cached(s, f)
    ensures FiberOk(t, f)
  {
  }

  /** The entry taken is held by the worker instead of the list. */
  lemma TakeFiber(s: State, w: nat, k: nat, f: FiberId)
    requires w < |s.workers| && s.workers[w].pc == Scan && k < |s.queue.entries|
    ensures var t := SetWorker(s, w, s.workers[w].(pc := Took(s.queue.entries[k].task))).(queue := TaskQueue.TakeAt(s.queue, k));
      Tokens(t, f) == Tokens(s, f) && Runners(t, f) == Runners(s, f) && Cached(t, f) == Cached(s, f)
  {
    WorkerChange(s.workers, w, s.workers[w].(pc := Took(s.queue.entries[k].task)), f);
    SumRemove(s.queue.entries, k, TaskQueue.EntryTokens(f));
  }

  lemma PickFiber(s: State, w: nat, f: FiberId)
    requires FiberOk(s, f) && DoPick(s, w).Some?
    ensures FiberOk(DoPick(s, w).value, f)
  {
    var t := DoPick(s, w).value;
    var k := TaskQueue.FirstEligible(s.queue.entries, w, Executing(s.fibers));
    if k < |s.queue.entries| {
      TakeFiber(s, w, k, f);
    } else {
      WorkerChange(s.workers, w, t.workers[w], f);
    }
    SameAccount(s, t, f);
  }

  /** Every fiber named in the task list exists. */
  lemma EntryFiber(s: State, k: nat)
    requires Inv(s) && k < |s.queue.entries| && s.queue.entries[k].task.FiberTask?
    ensures s.queue.entries[k].task.fiber < |s.fibers|
  {
    var f := s.queue.entries[k].task.fiber;
    assert FiberOk(s, f);
    SumSplit(s.queue.entries, k, TaskQueue.EntryTokens(f));
  }

  lemma PickKeeps(s: State, w: nat)
    requires Inv(s) && DoPick(s, w).Some?
    ensures Inv(DoPick(s, w).value)
  {
    var t := DoPick(s, w).value;
    CountersChange(s, w, t.workers[w]);
    var k := TaskQueue.FirstEligible(s.queue.entries, w, Executing(s.fibers));
    if k < |s.queue.entries| {
      TaskQueue.TakeKeeps(s.queue, k);
    }
    forall f: FiberId
      ensures FiberOk(t, f)
    {
      PickFiber(s, w, f);
    }
    PickFrame(s, w);
  }

  lemma PickFrame(s: State, w: nat)
    requires Inv(s) && DoPick(s, w).Some?
    ensures TimersOk(DoPick(s, w).value) && forall v: nat :: v < |s.workers| ==> TookOk(DoPick(s, w).value, v)
  {
    var t := DoPick(s, w).value;
    var k := TaskQueue.FirstEligible(s.queue.entries, w, Executing(s.fibers));
    if k < |s.queue.entries| && s.queue.entries[k].task.FiberTask? { EntryFiber(s, k); }
    forall v: nat | v < |t.workers| ensures TookOk(t, v) { assert TookOk(s, v); }
    forall f: FiberId | f < |t.fibers| ensures TimeoutOk(t, f) { assert TimeoutOk(s, f); }
  }

  /** What a worker that holds a fiber knows: the fiber exists and this is its only wakeup. */
  lemma TookFacts(s: State, w: nat, f: FiberId)
    requires Inv(s) && w < |s.workers| && s.workers[w].pc == Took(FiberTask(f))
    ensures f < |s.fibers| && s.fibers[f].state in {INIT, READY, HOLD}
    ensures Tokens(s, f) == 1 && Cached(s, f) == 0
    ensures forall v :: 0 <= v < |s.workers| && v != w ==> s.workers[v].pc != Took(FiberTask(f))
  {
    assert FiberOk(s, f) && TookOk(s, w);
    SumSplit(s.workers, w, WorkerTokens(f));
    forall v | 0 <= v < |s.workers| && v != w
      ensures s.workers[v].pc != Took(FiberTask(f))
    {
      SumTwo(s.workers, if v < w then v else w, if v < w then w else v, WorkerTokens(f));
    }
  }

  /** A cached callback fiber is reset and nobody waits for it. */
  lemma CacheFacts(s: State, w: nat, f: FiberId)
    requires Inv(s) && w < |s.workers| && s.workers[w].cbFiber == Some(f) && s.workers[w].pc != Running(f)
    ensures f < |s.fibers| && s.fibers[f] == Fiber(INIT, Code)
    ensures Tokens(s, f) == 0 && Cached(s, f) == 1
  {
    assert FiberOk(s, f);
    SumSplit(s.workers, w, CacheOf(f));
  }

  lemma ResumeFiber(s: State, w: nat, g: FiberId, f: FiberId)
    requires FiberOk(s, f) && w < |s.workers| && s.workers[w].pc == Took(FiberTask(g))
    requires g < |s.fibers| && s.fibers[g].state in {INIT, READY, HOLD} && PhaseOk(s.fibers[g])
    requires Cached(s, g) == 0
    ensures FiberOk(Resume(s, w, g), f)
  {
    var t := Resume(s, w, g);
    WorkerChange(s.workers, w, t.workers[w], f);
    SumUpdate(s.fibers, g, t.fibers[g], FiberTokens(f));
    SumSplit(s.workers, w, CacheOf(g));
  }

  lemma FreshFiber(s: State, w: nat, cb: Callback, f: FiberId)
    requires FiberOk(s, f) && w < |s.workers| && s.workers[w].pc == Took(CbTask(cb)) && s.workers[w].cbFiber.None?
    ensures FiberOk(StartFresh(s, w, cb), f)
  {
    var t := StartFresh(s, w, cb);
    WorkerChange(s.workers, w, t.workers[w], f);
    SumAppend(s.fibers, Fiber(EXEC, StartPhase(cb)), FiberTokens(f));
  }

  lemma CachedFiber(s: State, w: nat, g: FiberId, cb: Callback, f: FiberId)
    requires FiberOk(s, f) && w < |s.workers| && s.workers[w] == s.workers[w].(pc := Took(CbTask(cb)), cbFiber := Some(g))
    requires g < |s.fibers| && s.fibers[g] == Fiber(INIT, Code) && Tokens(s, g) == 0 && Cached(s, g) == 1
    ensures FiberOk(StartCached(s, w, g, cb), f)
  {
    var t := StartCached(s, w, g, cb);
    WorkerChange(s.workers, w, t.workers[w], f);
    SumUpdate(s.fibers, g, t.fibers[g], FiberTokens(f));
  }

  /** Everything but the fibers' own accounts, after a step that starts a fiber. */
  lemma StartKeeps(s: State, t: State, w: nat, g: FiberId)
    requires Inv(s) && w < |s.workers| == |t.workers| && s.workers[w].pc.Took?
    requires t.workers == s.workers[w := t.workers[w]] && t.workers[w].pc == Running(g)
    requires |s.fibers| <= |t.fibers| && forall f: FiberId :: f < |s.fibers| && f != g ==> t.fibers[f] == s.fibers[f]
    requires |t.fibers| <= |s.fibers| + 1 && g < |t.fibers| && (|t.fibers| > |s.fibers| ==> g == |s.fibers|)
    requires g < |s.fibers| ==> TimeoutOf(t.fibers[g].phase) in {None, TimeoutOf(s.fibers[g].phase)}
    requires g >= |s.fibers| ==> TimeoutOf(t.fibers[g].phase) == None
    requires forall v :: 0 <= v < |s.workers| && v != w ==> s.workers[v].pc != Took(FiberTask(g))
    requires t == s.(workers := t.workers, fibers := t.fibers)
    requires forall f: FiberId :: FiberOk(t, f)
    ensures Inv(t)
  {
    CountersChange(s, w, t.workers[w]);
    forall v: nat | v < |t.workers|
      ensures TookOk(t, v)
    {
      assert TookOk(s, v);
    }
    forall f: FiberId | f < |t.fibers|
      ensures TimeoutOk(t, f)
    {
      assert f < |s.fibers| ==> TimeoutOk(s, f);
    }
  }

  /** A fiber nobody owes a wakeup is not held by any worker. */
  lemma NotTook(s: State, g: FiberId)
    requires Tokens(s, g) == 0
    ensures forall v :: 0 <= v < |s.workers| ==> s.workers[v].pc != Took(FiberTask(g))
  {
    forall v | 0 <= v < |s.workers|
      ensures s.workers[v].pc != Took(FiberTask(g))
    {
      SumSplit(s.workers, v, WorkerTokens(g));
    }
  }

  lemma ResumeKeeps(s: State, w: nat, g: FiberId)
    requires Inv(s) && w < |s.workers| && s.workers[w].pc == Took(FiberTask(g)) && g < |s.fibers|
    ensures Inv(Resume(s, w, g))
  {
    TookFacts(s, w, g);
    assert FiberOk(s, g);
    var t := Resume(s, w, g);
    forall f: FiberId ensures FiberOk(t, f) { assert FiberOk(s, f); ResumeFiber(s, w, g, f); }
    StartKeeps(s, t, w, g);
  }

  lemma StartFreshKeeps(s: State, w: nat, cb: Callback)
    requires Inv(s) && w < |s.workers| && s.workers[w].pc == Took(CbTask(cb)) && s.workers[w].cbFiber.None?
    ensures Inv(StartFresh(s, w, cb))
  {
    var t := StartFresh(s, w, cb);
    assert FiberOk(s, |s.fibers|);
    NotTook(s, |s.fibers|);
    forall f: FiberId ensures FiberOk(t, f) { assert FiberOk(s, f); FreshFiber(s, w, cb, f); }
    StartKeeps(s, t, w, |s.fibers|);
  }

  lemma StartCachedKeeps(s: State, w: nat, g: FiberId, cb: Callback)
    requires Inv(s) && w < |s.workers| && s.workers[w] == s.workers[w].(pc := Took(CbTask(cb)), cbFiber := Some(g))
    requires g < |s.fibers|
    ensures Inv(StartCached(s, w, g, cb))
  {
    CacheFacts(s, w, g);
    NotTook(s, g);
    var t := StartCached(s, w, g, cb);
    forall f: FiberId ensures FiberOk(t, f) { assert FiberOk(s, f); CachedFiber(s, w, g, cb, f); }
    StartKeeps(s, t, w, g);
  }

  /** Starting a task keeps the invariant, and neither swapIn's nor reset's assertion can fail. */
  lemma BeginKeeps(s: State, w: nat)
    requires Inv(s) && DoBegin(s, w).Some?
    ensures Inv(DoBegin(s, w).value)
    ensures DoBegin(s, w).value.aborted == s.aborted
  {
    match s.workers[w].pc.task {
      case FiberTask(g) =>
        TookFacts(s, w, g);
        ResumeKeeps(s, w, g);
      case CbTask(cb) =>
        match s.workers[w].cbFiber {
          case None => StartFreshKeeps(s, w, cb);
          case Some(g) =>
            CacheFacts(s, w, g);
            StartCachedKeeps(s, w, g, cb);
        }
    }
  }

  lemma ReschedKeeps(s: State, w: nat)
    requires Inv(s) && DoResched(s, w).Some?
    ensures Inv(DoResched(s, w).value)
  {
    var t := DoResched(s, w).value;
    CountersChange(s, w, t.workers[w]);
    TaskQueue.PushKeeps(s.queue, FiberTask(s.workers[w].pc.f), None);
    forall f: FiberId ensures FiberOk(t, f) { assert FiberOk(s, f); ReschedFiber(s, w, f); }
    WorkersFrame(s, t, w);
  }

  lemma ReschedFiber(s: State, w: nat, f: FiberId)
    requires FiberOk(s, f) && DoResched(s, w).Some?
    ensures FiberOk(DoResched(s, w).value, f)
  {
    var t := DoResched(s, w).value;
    WorkerChange(s.workers, w, t.workers[w], f);
    SumAppend(s.queue.entries, TaskQueue.Entry(s.queue.issued, FiberTask(s.workers[w].pc.f), None), TaskQueue.EntryTokens(f));
  }

  /** A worker that takes nothing leaves the others' holdings and the timeouts as they were. */
  lemma WorkersFrame(s: State, t: State, w: nat)
    requires Inv(s) && w < |s.workers| == |t.workers|
    requires t.workers == s.workers[w := t.workers[w]] && !t.workers[w].pc.Took?
    requires |s.fibers| <= |t.fibers|
    requires forall f: FiberId :: f < |s.fibers| ==> (t.fibers[f].state == EXEC ==> s.fibers[f].state == EXEC)
    ensures forall v: nat :: v < |t.workers| ==> TookOk(t, v)
    ensures t.timers.timers == s.timers.timers && t.nextAddr == s.nextAddr && t.fibers == s.fibers ==> TimersOk(t)
  {
    forall v: nat | v < |t.workers|
      ensures TookOk(t, v)
    {
      assert TookOk(s, v);
    }
    if t.timers.timers == s.timers.timers && t.nextAddr == s.nextAddr && t.fibers == s.fibers {
      forall f: FiberId | f < |t.fibers| ensures TimeoutOk(t, f) { assert TimeoutOk(s, f); }
    }
  }

  // ---------- IOManager::idle ----------

  predicate Quiet(pc: Pc) { !pc.Took? && !pc.Running? && !pc.Requeue? && !pc.Expired? }

  /** Moves of one worker between points where it holds nothing. */
  lemma QuietKeeps(s: State, t: State, w: nat)
    requires Inv(s) && w < |s.workers| == |t.workers| && Quiet(s.workers[w].pc) && Quiet(t.workers[w].pc)
    requires t.workers == s.workers[w := t.workers[w]] && t.workers[w].cbFiber == s.workers[w].cbFiber
    requires t == s.(workers := t.workers, idle := t.idle, timers := t.timers)
    requires t.timers.timers == s.timers.timers
    requires t.idle - s.idle == IdleWeight()(t.workers[w]) - IdleWeight()(s.workers[w])
    ensures Inv(t)
  {
    CountersChange(s, w, t.workers[w]);
    forall f: FiberId
      ensures FiberOk(t, f)
    {
      assert FiberOk(s, f);
      WorkerChange(s.workers, w, t.workers[w], f);
    }
    WorkersFrame(s, t, w);
  }

  lemma ListExpiredFiber(s: State, w: nat, now: nat, f: FiberId)
    requires FiberOk(s, f) && TimersOk(s) && DoListExpired(s, w, now).Some?
    ensures FiberOk(DoListExpired(s, w, now).value, f)
  {
    WorkerChange(s.workers, w, DoListExpired(s, w, now).value.workers[w], f);
    Timers.ExpireTokens(s.timers, now, f);
  }

  lemma ListExpiredKeeps(s: State, w: nat, now: nat)
    requires Inv(s) && DoListExpired(s, w, now).Some?
    ensures Inv(DoListExpired(s, w, now).value)
  {
    var t := DoListExpired(s, w, now).value;
    CountersChange(s, w, t.workers[w]);
    forall f: FiberId
      ensures FiberOk(t, f)
    {
      assert FiberOk(s, f);
      ListExpiredFiber(s, w, now, f);
    }
    WorkersFrame(s, t, w);
    ExpireTimers(s, t, now);
  }

  /** Expiry neither invents timers nor changes whose they are. */
  lemma ExpireTimers(s: State, t: State, now: nat)
    requires TimersOk(s) && t.fibers == s.fibers && t.nextAddr == s.nextAddr
    requires t.timers == Timers.Expire(s.timers, now).1
    ensures TimersOk(t)
  {
    forall x | x in t.timers.timers
      ensures exists o :: o in s.timers.timers && o.(next := x.next) == x
    {
      assert x.(next := x.next) == x;
      if s.timers.timers != [] {
        var k := Timers.ExpireCount(s.timers, now);
        Timers.RearmElement(s.timers.timers[k..], s.timers.timers[..k], now, x);
        assert s.timers.timers == s.timers.timers[..k] + s.timers.timers[k..];
      }
    }
    forall f: FiberId | f < |t.fibers| ensures TimeoutOk(t, f) { assert TimeoutOk(s, f); }
  }

  lemma {:induction false} AsTasksSum(cbs: seq<Callback>, f: FiberId)
    ensures Sum(AsTasks(cbs), TaskTokens(f)) == Sum(cbs, CallbackTokens(f))
    decreases |cbs|
  {
    if cbs != [] {
      assert AsTasks(cbs)[1..] == AsTasks(cbs[1..]);
      AsTasksSum(cbs[1..], f);
    }
  }

  lemma ScheduleExpiredFiber(s: State, w: nat, f: FiberId)
    requires FiberOk(s, f) && DoScheduleExpired(s, w).Some?
    ensures FiberOk(DoScheduleExpired(s, w).value, f)
  {
    var cbs := s.workers[w].pc.cbs;
    WorkerChange(s.workers, w, DoScheduleExpired(s, w).value.workers[w], f);
    TaskQueue.PushAllTokens(s.queue, AsTasks(cbs), f);
    AsTasksSum(cbs, f);
  }

  lemma ScheduleExpiredKeeps(s: State, w: nat)
    requires Inv(s) && DoScheduleExpired(s, w).Some?
    ensures Inv(DoScheduleExpired(s, w).value)
  {
    var t := DoScheduleExpired(s, w).value;
    var cbs := s.workers[w].pc.cbs;
    CountersChange(s, w, t.workers[w]);
    TaskQueue.PushAllKeeps(s.queue, AsTasks(cbs));
    forall f: FiberId
      ensures FiberOk(t, f)
    {
      assert FiberOk(s, f);
      ScheduleExpiredFiber(s, w, f);
    }
    WorkersFrame(s, t, w);
  }

  // ---------- registry calls ----------

  /** A registry call that schedules exactly the wakeups it removes keeps the invariant. */
  lemma RegistryKeeps(s: State, out: Registry.Outcome)
    requires Inv(s)
    requires !out.Abort? ==> Registry.Consistent(out.reg)
    requires forall f: FiberId :: out.Refused? ==> Registry.Tokens(out.reg, f) == Registry.Tokens(s.reg, f)
    requires forall f: FiberId :: out.Done? ==>
      Registry.Tokens(out.reg, f) + Sum(out.woken, TaskTokens(f)) == Registry.Tokens(s.reg, f)
    ensures Inv(AfterRegistry(s, out))
  {
    var t := AfterRegistry(s, out);
    if out.Done? { TaskQueue.PushAllKeeps(s.queue, out.woken); }
    forall f: FiberId
      ensures FiberOk(t, f)
    {
      assert FiberOk(s, f);
      if out.Done? { TaskQueue.PushAllTokens(s.queue, out.woken, f); }
    }
    SameFrame(s, t);
  }

  lemma SameFrame(s: State, t: State)
    requires Inv(s) && t.workers == s.workers && t.fibers == s.fibers
    requires t.timers.timers == s.timers.timers && t.nextAddr == s.nextAddr
    ensures TimersOk(t) && forall v: nat :: v < |t.workers| ==> TookOk(t, v)
  {
    forall v: nat | v < |t.workers| ensures TookOk(t, v) { assert TookOk(s, v); }
    forall f: FiberId | f < |t.fibers| ensures TimeoutOk(t, f) { assert TimeoutOk(s, f); }
  }

  lemma FlagsKeep(s: State, t: State)
    requires Inv(s) && t == s.(stopped := t.stopped, aborted := t.aborted)
    ensures Inv(t)
  {
    SameFrame(s, t);
    forall f: FiberId ensures FiberOk(t, f) { assert FiberOk(s, f); }
  }

  lemma DeliverKeeps(s: State, w: nat, fd: nat, m: Registry.Mask, hup: bool, ok: bool)
    requires Inv(s) && DoDeliver(s, w, fd, m, hup, ok).Some?
    ensures Inv(DoDeliver(s, w, fd, m, hup, ok).value)
  {
    Registry.DeliverConsistent(s.reg, fd, m, hup, ok);
    forall f: FiberId { Registry.DeliverTokens(s.reg, fd, m, hup, ok, f); }
    RegistryKeeps(s, Registry.Deliver(s.reg, fd, m, hup, ok));
  }

  lemma CancelKeeps(s: State, fd: nat, ev: Event, ok: bool)
    requires Inv(s)
    ensures Inv(AfterRegistry(s, Registry.CancelEvent(s.reg, fd, ev, ok)))
  {
    Registry.CancelConsistent(s.reg, fd, ev, ok);
    forall f: FiberId { Registry.CancelTokens(s.reg, fd, ev, ok, f); }
    RegistryKeeps(s, Registry.CancelEvent(s.reg, fd, ev, ok));
  }

  lemma CancelBothKeeps(s: State, fd: nat, ok: bool)
    requires Inv(s)
    ensures Inv(AfterRegistry(s, Registry.CancelAll(s.reg, fd, ok)))
  {
    Registry.CancelAllConsistent(s.reg, fd, ok);
    forall f: FiberId { Registry.CancelAllTokens(s.reg, fd, ok, f); }
    RegistryKeeps(s, Registry.CancelAll(s.reg, fd, ok));
  }

  lemma AddCallbackKeeps(s: State, fd: nat, ev: Event, id: nat, ok: bool)
    requires Inv(s)
    ensures Inv(AfterRegistry(s, Registry.AddEvent(s.reg, fd, ev, CbTask(UserTask(id)), ok)))
  {
    Registry.AddConsistent(s.reg, fd, ev, CbTask(UserTask(id)), ok);
    forall f: FiberId { Registry.AddTokens(s.reg, fd, ev, CbTask(UserTask(id)), ok, f); }
    RegistryKeeps(s, Registry.AddEvent(s.reg, fd, ev, CbTask(UserTask(id)), ok));
  }

  lemma DelCallbackKeeps(s: State, fd: nat, ev: Event, ok: bool)
    requires Inv(s) && (fd < |s.reg.fds| ==> Deletable(s.reg.fds[fd].Context(ev)))
    ensures Inv(AfterRegistry(s, Registry.DelEvent(s.reg, fd, ev, ok)))
  {
    Registry.DelConsistent(s.reg, fd, ev, ok);
    forall f: FiberId { Registry.DelTokens(s.reg, fd, ev, ok, f); }
    RegistryKeeps(s, Registry.DelEvent(s.reg, fd, ev, ok));
  }

  // ---------- application code ----------

  lemma EnqueueUserKeeps(s: State, id: nat, pin: Option<nat>)
    requires Inv(s)
    ensures Inv(Enqueue(s, CbTask(UserTask(id)), pin))
  {
    var t := Enqueue(s, CbTask(UserTask(id)), pin);
    TaskQueue.PushKeeps(s.queue, CbTask(UserTask(id)), pin);
    forall f: FiberId
      ensures FiberOk(t, f)
    {
      assert FiberOk(s, f);
      SumAppend(s.queue.entries, t.queue.entries[|s.queue.entries|], TaskQueue.EntryTokens(f));
    }
    SameFrame(s, t);
  }

  lemma SpawnFiberKeeps(s: State, w: nat, pin: Option<nat>)
    requires Inv(s) && DoSpawnFiber(s, w, pin).Some?
    ensures Inv(DoSpawnFiber(s, w, pin).value)
  {
    var t := DoSpawnFiber(s, w, pin).value;
    TaskQueue.PushKeeps(s.queue, FiberTask(|s.fibers|), pin);
    forall f: FiberId
      ensures FiberOk(t, f)
    {
      assert FiberOk(s, f);
      SumAppend(s.queue.entries, t.queue.entries[|s.queue.entries|], TaskQueue.EntryTokens(f));
      SumAppend(s.fibers, Fiber(INIT, Code), FiberTokens(f));
    }
    forall v: nat | v < |t.workers| ensures TookOk(t, v) { assert TookOk(s, v); }
    forall f: FiberId | f < |t.fibers| ensures TimeoutOk(t, f) { assert f < |s.fibers| ==> TimeoutOk(s, f); }
  }

  lemma StartTimerKeeps(s: State, ms: nat, recurring: bool, id: nat, now: nat)
    requires Inv(s)
    ensures Inv(ArmTimer(s, ms, recurring, UserTask(id), now))
  {
    var t := ArmTimer(s, ms, recurring, UserTask(id), now);
    var rec := Timers.TimerRec(s.nextAddr, Timers.Deadline(now, ms), ms, recurring, UserTask(id));
    forall f: FiberId
      ensures FiberOk(t, f)
    {
      assert FiberOk(s, f);
      Timers.InsertSum(s.timers.timers, rec, Timers.TimerTokens(f));
    }
    InsertTimers(s, t, rec);
    forall v: nat | v < |t.workers| ensures TookOk(t, v) { assert TookOk(s, v); }
    forall f: FiberId | f < |t.fibers| ensures TimeoutOk(t, f) { assert TimeoutOk(s, f); }
  }

  lemma InsertTimers(s: State, t: State, rec: Timers.TimerRec)
    requires t.timers.timers == Timers.Insert(s.timers.timers, rec)
    ensures forall x :: x in t.timers.timers <==> x in s.timers.timers || x == rec
  {
    forall x { Timers.InsertElement(s.timers.timers, rec, x); }
  }

  /** The running fiber stops: its worker lets go of it and its state becomes that of `fb`. */
  lemma StopFiber(s: State, w: nat, k: Worker, fb: Fiber, f: FiberId)
    requires FiberOk(s, f) && Runs(s, w)
    requires s.fibers[s.workers[w].pc.f].state == EXEC && !s.fibers[s.workers[w].pc.f].phase.Wake?
    requires fb.state != EXEC && PhaseOk(fb) && !fb.phase.Wake? && !k.pc.Running?
    requires k.cbFiber == s.workers[w].cbFiber || (k.cbFiber == None && s.workers[w].cbFiber == Some(s.workers[w].pc.f))
    requires k.cbFiber == Some(s.workers[w].pc.f) ==> fb.state == INIT
    requires forall h: FiberId :: WorkerWakes(k, h) == (if k.pc == Requeue(h) then 1 else 0)
    requires k.pc.Requeue? ==> k.pc.f == s.workers[w].pc.f
    requires (if k.pc.Requeue? then 1 else 0) + (if k.cbFiber == Some(s.workers[w].pc.f) then 1 else 0)
          == Owed(fb) - Owed(s.fibers[s.workers[w].pc.f])
    ensures FiberOk(SetFiber(SetWorker(s, w, k), s.workers[w].pc.f, fb), f)
  {
    WorkerChange(s.workers, w, k, f);
    SumUpdate(s.fibers, s.workers[w].pc.f, fb, FiberTokens(f));
  }

  lemma StopKeeps(s: State, t: State, w: nat)
    requires Inv(s) && Runs(s, w) && |t.workers| == |s.workers| && |t.fibers| == |s.fibers|
    requires t.workers == s.workers[w := t.workers[w]] && (t.workers[w].pc == Scan || t.workers[w].pc.Requeue?)
    requires var g := s.workers[w].pc.f;
      && t.fibers == s.fibers[g := t.fibers[g]] && t.fibers[g].state != EXEC
      && TimeoutOf(t.fibers[g].phase) in {None, TimeoutOf(s.fibers[g].phase)}
    requires t == s.(workers := t.workers, fibers := t.fibers, active := s.active - 1)
    requires forall f: FiberId :: FiberOk(t, f)
    ensures Inv(t)
  {
    CountersChange(s, w, t.workers[w]);
    WorkersFrame(s, t, w);
    forall f: FiberId | f < |t.fibers| ensures TimeoutOk(t, f) { assert TimeoutOk(s, f); }
  }

  lemma YieldReadyKeeps(s: State, w: nat)
    requires Inv(s) && DoYieldReady(s, w).Some?
    ensures Inv(DoYieldReady(s, w).value)
  {
    var t := DoYieldReady(s, w).value;
    RunnerFacts(s, w);
    forall f: FiberId
      ensures FiberOk(t, f)
    {
      assert FiberOk(s, f);
      StopFiber(s, w, t.workers[w], Fiber(READY, Code), f);
    }
    StopKeeps(s, t, w);
  }

  lemma FinishKeeps(s: State, w: nat, threw: bool)
    requires Inv(s) && DoFinish(s, w, threw).Some?
    ensures Inv(DoFinish(s, w, threw).value)
  {
    var t := DoFinish(s, w, threw).value;
    RunnerFacts(s, w);
    forall f: FiberId
      ensures FiberOk(t, f)
    {
      assert FiberOk(s, f);
      FinishFiber(s, w, threw, f);
    }
    StopKeeps(s, t, w);
  }

  lemma FinishFiber(s: State, w: nat, threw: bool, f: FiberId)
    requires FiberOk(s, f) && DoFinish(s, w, threw).Some? && s.fibers[s.workers[w].pc.f].state == EXEC
    ensures FiberOk(DoFinish(s, w, threw).value, f)
  {
    var t := DoFinish(s, w, threw).value;
    StopFiber(s, w, t.workers[w], t.fibers[s.workers[w].pc.f], f);
  }

  lemma SuspendKeeps(s: State, w: nat)
    requires Inv(s) && DoSuspend(s, w).Some?
    ensures Inv(DoSuspend(s, w).value)
  {
    var t := DoSuspend(s, w).value;
    RunnerFacts(s, w);
    forall f: FiberId
      ensures FiberOk(t, f)
    {
      assert FiberOk(s, f);
      StopFiber(s, w, t.workers[w], t.fibers[s.workers[w].pc.f], f);
    }
    StopKeeps(s, t, w);
  }

  // ---------- do_io, sleep and the callbacks ----------

  /** A move of the running fiber between phases that neither arm nor owe a wakeup. */
  lemma PhaseKeeps(s: State, t: State, w: nat, p: Phase)
    requires Inv(s) && Runs(s, w)
    requires var q := s.fibers[s.workers[w].pc.f].phase;
      !Armed(q) && !q.Wake? && TimeoutOf(p) in {None, TimeoutOf(q)}
    requires !Armed(p) && !p.Wake?
    requires t == SetPhase(s, w, p).(ops := t.ops, nextOp := t.nextOp)
    ensures Inv(t)
  {
    var g := s.workers[w].pc.f;
    RunnerFacts(s, w);
    forall f: FiberId
      ensures FiberOk(t, f)
    {
      assert FiberOk(s, f);
      SumUpdate(s.fibers, g, t.fibers[g], FiberTokens(f));
    }
    forall v: nat | v < |t.workers| ensures TookOk(t, v) { assert TookOk(s, v); }
    forall f: FiberId | f < |t.fibers| ensures TimeoutOk(t, f) { assert TimeoutOk(s, f); }
  }

  /** Arming a timer while entering phase p: the timer owes p's fiber exactly what p waits for. */
  lemma ArmFiber(s: State, w: nat, p: Phase, ms: nat, cb: Callback, now: nat, f: FiberId)
    requires FiberOk(s, f) && Runs(s, w) && !p.Wake?
    requires var g := s.workers[w].pc.f;
      && s.fibers[g].state == EXEC && !Armed(s.fibers[g].phase) && !s.fibers[g].phase.Wake?
      && CallbackWakes(cb, g) == (if Armed(p) then 1 else 0)
      && forall h: FiberId :: h != g ==> CallbackWakes(cb, h) == 0
    ensures FiberOk(ArmTimer(SetPhase(s, w, p), ms, false, cb, now), f)
  {
    var g := s.workers[w].pc.f;
    SumUpdate(s.fibers, g, s.fibers[g].(phase := p), FiberTokens(f));
    Timers.InsertSum(s.timers.timers, Timers.TimerRec(s.nextAddr, Timers.Deadline(now, ms), ms, false, cb),
                     Timers.TimerTokens(f));
  }

  lemma ArmKeeps(s: State, w: nat, p: Phase, ms: nat, cb: Callback, now: nat)
    requires Inv(s) && Runs(s, w) && !p.Wake?
    requires var g := s.workers[w].pc.f;
      && !Armed(s.fibers[g].phase) && !s.fibers[g].phase.Wake?
      && CallbackWakes(cb, g) == (if Armed(p) then 1 else 0)
      && forall h: FiberId :: h != g ==> CallbackWakes(cb, h) == 0
    requires TimeoutOf(p) == None || (TimeoutOf(p) == Some(s.nextAddr) && cb.IoTimeout?)
    ensures Inv(ArmTimer(SetPhase(s, w, p), ms, false, cb, now))
  {
    var t := ArmTimer(SetPhase(s, w, p), ms, false, cb, now);
    RunnerFacts(s, w);
    forall f: FiberId
      ensures FiberOk(t, f)
    {
      assert FiberOk(s, f);
      ArmFiber(s, w, p, ms, cb, now, f);
    }
    InsertTimers(s, t, Timers.TimerRec(s.nextAddr, Timers.Deadline(now, ms), ms, false, cb));
    forall v: nat | v < |t.workers| ensures TookOk(t, v) { assert TookOk(s, v); }
    forall f: FiberId | f < |t.fibers| ensures TimeoutOk(t, f) { assert TimeoutOk(s, f); }
  }

  /** Cancelling a do_io timeout removes no wakeup. */
  lemma CancelTimerKeeps(s: State, timer: Option<nat>)
    requires Inv(s)
    requires timer.Some? ==> forall t :: t in s.timers.timers && t.addr == timer.value ==> t.cb.IoTimeout?
    ensures Inv(CancelTimer(s, timer))
  {
    if timer.Some? {
      var t := CancelTimer(s, timer);
      forall f: FiberId
        ensures FiberOk(t, f)
      {
        assert FiberOk(s, f);
        Timers.DropSum(s.timers.timers, timer.value, Timers.TimerTokens(f));
      }
      forall x | x in t.timers.timers ensures x in s.timers.timers { Timers.DropElement(s.timers.timers, timer.value, x); }
      forall v: nat | v < |t.workers| ensures TookOk(t, v) { assert TookOk(s, v); }
      forall f: FiberId | f < |t.fibers| ensures TimeoutOk(t, f) { assert TimeoutOk(s, f); }
    }
  }

  lemma IoAgainKeeps(s: State, w: nat, timeout: Option<nat>, now: nat)
    requires Inv(s) && DoIoAgain(s, w, timeout, now).Some?
    ensures Inv(DoIoAgain(s, w, timeout, now).value)
  {
    var IoTry(op, fd, ev) := s.fibers[s.workers[w].pc.f].phase;
    match timeout {
      case None => PhaseKeeps(s, DoIoAgain(s, w, timeout, now).value, w, IoTimed(op, fd, ev, None));
      case Some(ms) => ArmKeeps(s, w, IoTimed(op, fd, ev, Some(s.nextAddr)), ms, IoTimeout(op, fd, ev), now);
    }
  }

  lemma RegisterFiber(s: State, w: nat, ok: bool, f: FiberId)
    requires FiberOk(s, f) && Registry.Consistent(s.reg) && Runs(s, w)
    requires s.fibers[s.workers[w].pc.f].phase.IoTimed? && s.fibers[s.workers[w].pc.f].state == EXEC
    requires var p := s.fibers[s.workers[w].pc.f].phase;
      Registry.AddEvent(s.reg, p.fd, p.ev, FiberTask(s.workers[w].pc.f), ok).Done?
    ensures FiberOk(DoIoRegister(s, w, ok).value, f)
  {
    var g := s.workers[w].pc.f;
    var IoTimed(op, fd, ev, timer) := s.fibers[g].phase;
    Registry.AddTokens(s.reg, fd, ev, FiberTask(g), ok, f);
    SumUpdate(s.fibers, g, s.fibers[g].(phase := IoArmed(op, fd, ev, timer)), FiberTokens(f));
  }

  lemma RegisteredKeeps(s: State, w: nat, ok: bool)
    requires Inv(s) && Runs(s, w) && s.fibers[s.workers[w].pc.f].phase.IoTimed?
    requires var p := s.fibers[s.workers[w].pc.f].phase;
      Registry.AddEvent(s.reg, p.fd, p.ev, FiberTask(s.workers[w].pc.f), ok).Done?
    ensures Inv(DoIoRegister(s, w, ok).value)
  {
    var t := DoIoRegister(s, w, ok).value;
    var p := s.fibers[s.workers[w].pc.f].phase;
    Registry.AddConsistent(s.reg, p.fd, p.ev, FiberTask(s.workers[w].pc.f), ok);
    RunnerFacts(s, w);
    forall f: FiberId ensures FiberOk(t, f) { assert FiberOk(s, f); RegisterFiber(s, w, ok, f); }
    forall v: nat | v < |t.workers| ensures TookOk(t, v) { assert TookOk(s, v); }
    forall f: FiberId | f < |t.fibers| ensures TimeoutOk(t, f) { assert TimeoutOk(s, f); }
  }

  lemma IoRegisterKeeps(s: State, w: nat, ok: bool)
    requires Inv(s) && DoIoRegister(s, w, ok).Some?
    ensures Inv(DoIoRegister(s, w, ok).value)
  {
    var g := s.workers[w].pc.f;
    var IoTimed(op, fd, ev, timer) := s.fibers[g].phase;
    match Registry.AddEvent(s.reg, fd, ev, FiberTask(g), ok) {
      case Abort => FlagsKeep(s, s.(aborted := true));
      case Refused(r) =>
        var out := Registry.AddEvent(s.reg, fd, ev, FiberTask(g), ok);
        Registry.AddConsistent(s.reg, fd, ev, FiberTask(g), ok);
        forall f: FiberId { Registry.AddTokens(s.reg, fd, ev, FiberTask(g), ok, f); }
        RegistryKeeps(s, out);
        assert TimeoutOk(s, g);
        var u := SetPhase(s.(reg := r), w, Code).(ops := s.ops - {op});
        PhaseKeeps(s.(reg := r), u, w, Code);
        CancelTimerKeeps(u, timer);
      case Done(r, woken) => RegisteredKeeps(s, w, ok);
    }
  }

  lemma IoCancelTimerKeeps(s: State, w: nat)
    requires Inv(s) && DoIoCancelTimer(s, w).Some?
    ensures Inv(DoIoCancelTimer(s, w).value)
  {
    var g := s.workers[w].pc.f;
    var IoResumed(op, fd, ev, timer) := s.fibers[g].phase;
    assert TimeoutOk(s, g);
    PhaseKeeps(s, SetPhase(s, w, IoCheck(op, fd, ev)), w, IoCheck(op, fd, ev));
    CancelTimerKeeps(SetPhase(s, w, IoCheck(op, fd, ev)), timer);
  }

  lemma RunWakeKeeps(s: State, w: nat)
    requires Inv(s) && DoRunWake(s, w).Some?
    ensures Inv(DoRunWake(s, w).value)
  {
    var t := DoRunWake(s, w).value;
    var g := s.workers[w].pc.f;
    var x := s.fibers[g].phase.sleeper;
    RunnerFacts(s, w);
    TaskQueue.PushKeeps(s.queue, FiberTask(x), None);
    forall f: FiberId ensures FiberOk(t, f) { assert FiberOk(s, f); RunWakeFiber(s, w, f); }
    forall v: nat | v < |t.workers| ensures TookOk(t, v) { assert TookOk(s, v); }
    forall f: FiberId | f < |t.fibers| ensures TimeoutOk(t, f) { assert TimeoutOk(s, f); }
  }

  lemma RunWakeFiber(s: State, w: nat, f: FiberId)
    requires FiberOk(s, f) && DoRunWake(s, w).Some? && s.fibers[s.workers[w].pc.f].state == EXEC
    ensures FiberOk(DoRunWake(s, w).value, f)
  {
    var g := s.workers[w].pc.f;
    var x := s.fibers[g].phase.sleeper;
    SumUpdate(s.fibers, g, s.fibers[g].(phase := Code), FiberTokens(f));
    SumAppend(s.queue.entries, TaskQueue.Entry(s.queue.issued, FiberTask(x), None), TaskQueue.EntryTokens(f));
  }

  lemma RunCancelKeeps(s: State, w: nat, ok: bool)
    requires Inv(s) && DoRunCancel(s, w, ok).Some?
    ensures Inv(DoRunCancel(s, w, ok).value)
  {
    var Cancelling(op, fd, ev) := s.fibers[s.workers[w].pc.f].phase;
    PhaseKeeps(s, SetPhase(s, w, Code), w, Code);
    CancelKeeps(SetPhase(s, w, Code), fd, ev, ok);
  }

  // ---------- every step ----------

  lemma StepRunKeeps(s: State, w: nat, a: RunStep)
    requires Inv(s) && StepRun(s, w, a).Some?
    ensures Inv(StepRun(s, w, a).value)
  {
    match a {
      case Pick => PickKeeps(s, w);
      case Begin => BeginKeeps(s, w);
      case Resched => ReschedKeeps(s, w);
      case EnterIdle => QuietKeeps(s, DoEnterIdle(s, w).value, w);
    }
  }

  lemma StepIdleKeeps(s: State, w: nat, a: IdleStep)
    requires Inv(s) && StepIdle(s, w, a).Some?
    ensures Inv(StepIdle(s, w, a).value)
  {
    match a {
      case CheckTimers => QuietKeeps(s, DoCheckTimers(s, w).value, w);
      case CheckPending => QuietKeeps(s, DoCheckPending(s, w).value, w);
      case CheckStopping => QuietKeeps(s, DoCheckStopping(s, w).value, w);
      case ListExpired(now) => ListExpiredKeeps(s, w, now);
      case ScheduleExpired => ScheduleExpiredKeeps(s, w);
      case DeliverEvent(fd, m, hup, ok) => DeliverKeeps(s, w, fd, m, hup, ok);
      case LeaveIdle => QuietKeeps(s, DoLeaveIdle(s, w).value, w);
    }
  }

  lemma StepAppKeeps(s: State, w: nat, a: AppStep)
    requires Inv(s) && StepApp(s, w, a).Some?
    ensures Inv(StepApp(s, w, a).value)
  {
    match a {
      case SpawnFiber(pin) => SpawnFiberKeeps(s, w, pin);
      case SpawnCallback(id, pin) => EnqueueUserKeeps(s, id, pin);
      case StartTimer(id, ms, rec, now) => StartTimerKeeps(s, ms, rec, id, now);
      case AddCallbackEvent(fd, ev, id, ok) => AddCallbackKeeps(s, fd, ev, id, ok);
      case DelCallbackEvent(fd, ev, ok) => DelCallbackKeeps(s, fd, ev, ok);
      case CancelOne(fd, ev, ok) => CancelKeeps(s, fd, ev, ok);
      case CancelBoth(fd, ok) => CancelBothKeeps(s, fd, ok);
      case YieldReady => YieldReadyKeeps(s, w);
      case Finish(threw) => FinishKeeps(s, w, threw);
    }
  }

  lemma StepWaitKeeps(s: State, w: nat, a: WaitStep)
    requires Inv(s) && StepWait(s, w, a).Some?
    ensures Inv(StepWait(s, w, a).value)
  {
    match a {
      case IoAgain(timeout, now) => IoAgainKeeps(s, w, timeout, now);
      case IoRegister(ok) => IoRegisterKeeps(s, w, ok);
      case IoCancelTimer => IoCancelTimerKeeps(s, w);
      case SleepBegin(ms, now) => ArmKeeps(s, w, SleepArmed, ms, WakeSleeper(s.workers[w].pc.f), now);
      case Suspend => SuspendKeeps(s, w);
      case RunWake => RunWakeKeeps(s, w);
      case RunCancel(ok) => RunCancelKeeps(s, w, ok);
      case _ => MoveKeeps(s, w, a);
    }
  }

  /** The steps that only move the running fiber. */
  lemma MoveKeeps(s: State, w: nat, a: WaitStep)
    requires Inv(s) && StepWait(s, w, a).Some?
    requires a.IoBegin? || a.IoReturn? || a.IoTest? || a.RunTimeout?
    ensures Inv(StepWait(s, w, a).value)
  {
    var t := StepWait(s, w, a).value;
    PhaseKeeps(s, t, w, t.fibers[s.workers[w].pc.f].phase);
  }

  lemma StepKeeps(s: State, a: Action)
    requires Inv(s) && Step(s, a).Some?
    ensures Inv(Step(s, a).value)
  {
    match a {
      case ExternalSchedule(id, pin) => EnqueueUserKeeps(s, id, pin);
      case Stop => FlagsKeep(s, s.(stopped := true));
      case InRun(w, r) => StepRunKeeps(s, w, r);
      case InIdle(w, i) => StepIdleKeeps(s, w, i);
      case InApp(w, p) => StepAppKeeps(s, w, p);
      case InWait(w, x) => StepWaitKeeps(s, w, x);
    }
  }

  lemma {:induction false} RunKeeps(s: State, acts: seq<Action>)
    requires Inv(s) && Run(s, acts).Some?
    ensures Inv(Run(s, acts).value)
    decreases |acts|
  {
    if acts != [] {
      StepKeeps(s, acts[0]);
      RunKeeps(Step(s, acts[0]).value, acts[1..]);
    }
  }

  lemma ReachableInv(threads: nat, s: State)
    requires Reachable(threads, s)
    ensures Inv(s)
  {
    var acts :| Run(Init(threads), acts) == Some(s);
    InitInv(threads);
    RunKeeps(Init(threads), acts);
  }
}
