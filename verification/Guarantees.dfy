/** What holds in every run of the runtime: single wakeup, exact counters, a registry that agrees
    with the kernel, and which assertions can fail at all. */
module Guarantees {
  import opened Common
  import opened Tasks
  import opened Runtime
  import TaskQueue
  import Registry
  import opened Wakeup

  /** Single wakeup. In every reachable state: a suspended fiber has exactly one wake token
      and nobody runs it; a running fiber is run by exactly one worker, and has a token only
      if it has already armed its wait; a finished fiber has none; and no two workers run
      the same fiber. So readiness and timeout together resume a fiber once. */
  lemma SingleWakeup(threads: nat, s: State, f: FiberId)
    requires Reachable(threads, s) && f < |s.fibers|
    ensures s.fibers[f].state == HOLD ==> Tokens(s, f) == 1 && Runners(s, f) == 0
    ensures s.fibers[f].state == EXEC ==> Runners(s, f) == 1 && Tokens(s, f) == (if Armed(s.fibers[f].phase) then 1 else 0)
    ensures s.fibers[f].state == READY ==> Tokens(s, f) == 1 && Runners(s, f) == 0
    ensures s.fibers[f].state in {TERM, EXCEPT} ==> Tokens(s, f) == 0 && Runners(s, f) == 0
    ensures forall v, w :: 0 <= v < w < |s.workers| ==> !(s.workers[v].pc == s.workers[w].pc == Running(f))
  {
    ReachableInv(threads, s);
    assert FiberOk(s, f);
    forall v, w | 0 <= v < w < |s.workers|
      ensures !(s.workers[v].pc == s.workers[w].pc == Running(f))
    {
      SumTwo(s.workers, v, w, RunnerOf(f));
    }
  }

  /** A fiber is never listed twice, nor listed while it is also registered, timed or held. */
  lemma EnqueuedOnce(threads: nat, s: State, i: nat, j: nat)
    requires Reachable(threads, s) && i < j < |s.queue.entries|
    ensures !(s.queue.entries[i].task.FiberTask? && s.queue.entries[i].task == s.queue.entries[j].task)
  {
    ReachableInv(threads, s);
    if s.queue.entries[i].task.FiberTask? && s.queue.entries[i].task == s.queue.entries[j].task {
      var f := s.queue.entries[i].task.fiber;
      assert FiberOk(s, f);
      SumTwo(s.queue.entries, i, j, TaskQueue.EntryTokens(f));
    }
  }

  /** The thread counters are exact, so neither underflows, and when Scheduler::stopping is
      true no worker holds or runs a task. */
  lemma ThreadCounters(threads: nat, s: State)
    requires Reachable(threads, s)
    ensures s.active == Sum(s.workers, ActiveWeight()) >= 0
    ensures s.idle == Sum(s.workers, IdleWeight()) >= 0
    ensures Stopping(s) ==> s.queue.entries == []
    ensures Stopping(s) ==> forall w :: 0 <= w < |s.workers| ==> !s.workers[w].pc.Took? && !s.workers[w].pc.Running?
  {
    ReachableInv(threads, s);
    if Stopping(s) {
      SumZero(s.workers, ActiveWeight());
      forall w | 0 <= w < |s.workers|
        ensures !s.workers[w].pc.Took? && !s.workers[w].pc.Running?
      {
        assert ActiveWeight()(s.workers[w]) == 0;
      }
    }
  }

  /** The registry mirrors the kernel in every reachable state, and registrations are conserved. */
  lemma RegistryMirrorsKernel(threads: nat, s: State)
    requires Reachable(threads, s)
    ensures Registry.Consistent(s.reg)
  {
    ReachableInv(threads, s);
  }

  predicate IsOn(s: State, fd: nat, ev: Event) {
    fd < |s.reg.fds| && (if ev == Read then s.reg.fds[fd].events.read else s.reg.fds[fd].events.write)
  }

  /** The only steps that can fail an assertion: registering an event twice, cancelAll with
      both events registered, and a delivery outside the registered events. */
  predicate Faulty(s: State, a: Action) {
    match a
    case InIdle(w, DeliverEvent(fd, m, hup, ok)) =>
      ok && fd < |s.reg.fds| &&
      var on := s.reg.fds[fd].events;
      var rd, wr := m.read || hup, m.write || (hup && on.write);
      (rd && on.read && wr && !on.write) || (wr && on.write && rd && !on.read)
    case InApp(w, AddCallbackEvent(fd, ev, id, ok)) => IsOn(s, fd, ev)
    case InApp(w, CancelBoth(fd, ok)) => ok && fd < |s.reg.fds| && s.reg.fds[fd].events == Registry.Mask(true, true)
    case InWait(w, IoRegister(ok)) =>
      (match PhaseOf(s, w)
       case Some(IoTimed(op, fd, ev, timer)) => IsOn(s, fd, ev)
       case _ => false)
    case _ => false
  }

  lemma AddAborts(s: State, w: nat, fd: nat, ev: Event, id: nat, ok: bool)
    requires Inv(s) && !s.aborted && StepApp(s, w, AddCallbackEvent(fd, ev, id, ok)).Some?
    ensures StepApp(s, w, AddCallbackEvent(fd, ev, id, ok)).value.aborted <==> Faulty(s, InApp(w, AddCallbackEvent(fd, ev, id, ok)))
  {
    Registry.AddConsistent(s.reg, fd, ev, CbTask(UserTask(id)), ok);
  }

  lemma CancelBothAborts(s: State, w: nat, fd: nat, ok: bool)
    requires Inv(s) && !s.aborted && StepApp(s, w, CancelBoth(fd, ok)).Some?
    ensures StepApp(s, w, CancelBoth(fd, ok)).value.aborted <==> Faulty(s, InApp(w, CancelBoth(fd, ok)))
  {
    Registry.CancelAllConsistent(s.reg, fd, ok);
  }

  lemma CancelOneAborts(s: State, w: nat, fd: nat, ev: Event, ok: bool)
    requires Inv(s) && !s.aborted && StepApp(s, w, CancelOne(fd, ev, ok)).Some?
    ensures StepApp(s, w, CancelOne(fd, ev, ok)).value.aborted <==> Faulty(s, InApp(w, CancelOne(fd, ev, ok)))
  {
    Registry.CancelConsistent(s.reg, fd, ev, ok);
  }

  lemma DeleteAborts(s: State, w: nat, fd: nat, ev: Event, ok: bool)
    requires Inv(s) && !s.aborted && StepApp(s, w, DelCallbackEvent(fd, ev, ok)).Some?
    ensures StepApp(s, w, DelCallbackEvent(fd, ev, ok)).value.aborted <==> Faulty(s, InApp(w, DelCallbackEvent(fd, ev, ok)))
  {
    Registry.DelConsistent(s.reg, fd, ev, ok);
  }

  lemma AppAborts(s: State, w: nat, a: AppStep)
    requires Inv(s) && !s.aborted && StepApp(s, w, a).Some?
    ensures StepApp(s, w, a).value.aborted <==> Faulty(s, InApp(w, a))
  {
    match a {
      case AddCallbackEvent(fd, ev, id, ok) => AddAborts(s, w, fd, ev, id, ok);
      case DelCallbackEvent(fd, ev, ok) => DeleteAborts(s, w, fd, ev, ok);
      case CancelOne(fd, ev, ok) => CancelOneAborts(s, w, fd, ev, ok);
      case CancelBoth(fd, ok) => CancelBothAborts(s, w, fd, ok);
      case _ =>
    }
  }

  lemma RegisterAborts(s: State, w: nat, ok: bool)
    requires Inv(s) && !s.aborted && StepWait(s, w, IoRegister(ok)).Some?
    ensures StepWait(s, w, IoRegister(ok)).value.aborted <==> Faulty(s, InWait(w, IoRegister(ok)))
  {
    var p := s.fibers[s.workers[w].pc.f].phase;
    Registry.AddConsistent(s.reg, p.fd, p.ev, FiberTask(s.workers[w].pc.f), ok);
  }

  lemma TimeoutAborts(s: State, w: nat, ok: bool)
    requires Inv(s) && !s.aborted && StepWait(s, w, RunCancel(ok)).Some?
    ensures StepWait(s, w, RunCancel(ok)).value.aborted <==> Faulty(s, InWait(w, RunCancel(ok)))
  {
    var p := s.fibers[s.workers[w].pc.f].phase;
    Registry.CancelConsistent(s.reg, p.fd, p.ev, ok);
  }

  lemma WaitAborts(s: State, w: nat, a: WaitStep)
    requires Inv(s) && !s.aborted && StepWait(s, w, a).Some?
    ensures StepWait(s, w, a).value.aborted <==> Faulty(s, InWait(w, a))
  {
    match a {
      case IoRegister(ok) => RegisterAborts(s, w, ok);
      case RunCancel(ok) => TimeoutAborts(s, w, ok);
      case _ =>
    }
  }

  lemma IdleAborts(s: State, w: nat, a: IdleStep)
    requires Inv(s) && !s.aborted && StepIdle(s, w, a).Some?
    ensures StepIdle(s, w, a).value.aborted <==> Faulty(s, InIdle(w, a))
  {
    match a {
      case DeliverEvent(fd, m, hup, ok) => Registry.DeliverConsistent(s.reg, fd, m, hup, ok);
      case _ =>
    }
  }

  /** No other assertion in the modelled code can fail, in any run. */
  lemma AbortsExactlyWhenFaulty(threads: nat, s: State, a: Action)
    requires Reachable(threads, s) && Step(s, a).Some?
    ensures Step(s, a).value.aborted <==> Faulty(s, a)
  {
    ReachableInv(threads, s);
    match a {
      case InRun(w, r) => if r.Begin? { BeginKeeps(s, w); }
      case InIdle(w, i) => IdleAborts(s, w, i);
      case InApp(w, p) => AppAborts(s, w, p);
      case InWait(w, x) => WaitAborts(s, w, x);
      case _ =>
    }
  }
}
