/** The scheduler's shared fields and the blocks of run and schedule that hold its mutex. */
module Scheduler {
  import opened Common
  import opened Tasks
  import opened TaskQueue

  class Scheduler {
    var entries: seq<Entry>        // m_fibers
    var issued: nat                // tickets given out so far
    var active: int
    var autostop: bool
    var stopping: bool
    ghost var taken: set<nat>
    ghost var holders: set<nat>    // threads that have taken a task and not yet let go of it

    ghost function View(): Queue
      reads this
    {
      Queue(entries, issued, taken)
    }

    /** The tickets are in order and the counter counts the holders. */
    ghost predicate Valid()
      reads this
    {
      WellFormed(View()) && active == |holders|
    }

    constructor ()
      ensures Valid() && View() == EmptyQueue && holders == {} && !autostop && stopping
    {
      entries, issued, active, autostop, stopping, taken, holders := [], 0, 0, false, true, {}, {};
    }

    /** scheduleNoLock: an empty handle is ignored; the result says whether to tickle. */
    method ScheduleNoLock(task: Option<Task>, pin: Option<nat>) returns (needTickle: bool)
      requires Valid()
      modifies this`entries, this`issued
      ensures Valid() && needTickle == (old(entries) == [])
      ensures View() == if task.Some? then Push(old(View()), task.value, pin) else old(View())
      ensures entries == if task.Some? then old(entries) + [Entry(old(issued), task.value, pin)] else old(entries)
    {
      needTickle := entries == [];
      if task.Some? {
        PushKeeps(View(), task.value, pin);
        entries := entries + [Entry(issued, task.value, pin)];
        issued := issued + 1;
      }
    }

    /** The batch form: the whole list goes in under one lock, in order, unpinned. */
    method ScheduleAll(tasks: seq<Task>) returns (needTickle: bool)
      requires Valid()
      modifies this`entries, this`issued
      ensures Valid() && needTickle == (old(entries) == [] && tasks != [])
      ensures View() == PushAll(old(View()), tasks)
      ensures Appended(old(entries), entries, tasks, None, old(issued))
    {
      PushAllAppends(View(), tasks);
      needTickle := ScheduleEach(tasks);
    }

    method ScheduleEach(tasks: seq<Task>) returns (needTickle: bool)
      requires Valid()
      modifies this`entries, this`issued
      ensures Valid() && needTickle == (old(entries) == [] && tasks != [])
      ensures View() == PushAll(old(View()), tasks)
    {
      needTickle := false;
      var i := 0;
      assert tasks[0..] == tasks;
      while i < |tasks|
        invariant i <= |tasks| && Valid()
        invariant needTickle == (old(entries) == [] && i > 0)
        invariant i == 0 ==> entries == old(entries)
        invariant i > 0 ==> entries != []
        invariant PushAll(View(), tasks[i..]) == PushAll(old(View()), tasks)
      {
        assert tasks[i..][1..] == tasks[i + 1..];
        var need := ScheduleNoLock(Some(tasks[i]), None);
        needTickle := need || needTickle;
        i := i + 1;
      }
    }

    /** The locked block of run: the first entry this thread may run is erased and counted
        active; the thread is told to tickle if it passed over another thread's entry. */
    method TakeTask(thread: nat, executing: set<FiberId>) returns (task: Option<Task>, tickleMe: bool)
      requires Valid() && thread !in holders
      modifies this`entries, this`active, this`taken, this`holders
      ensures Valid() && holders == if task.Some? then old(holders) + {thread} else old(holders)
      ensures var k := FirstEligible(old(entries), thread, executing);
        && (k < |old(entries)| ==>
              task == Some(old(entries)[k].task) && View() == TakeAt(old(View()), k)
              && entries == old(entries)[..k] + old(entries)[k + 1..])
        && (k == |old(entries)| ==> task == None && View() == old(View()))
        && (tickleMe <==> exists i :: 0 <= i < k && old(entries)[i].pin.Some? && old(entries)[i].pin != Some(thread))
        && StopsAt(old(entries), thread, executing, k)
    {
      task, tickleMe := None, false;
      var it := 0;
      while it < |entries|
        invariant it <= |entries| && task == None
        invariant entries == old(entries) && active == old(active) && taken == old(taken) && holders == old(holders)
        invariant AllPassed(entries[..it], thread, executing)
        invariant tickleMe <==> exists i :: 0 <= i < it && entries[i].pin.Some? && entries[i].pin != Some(thread)
      {
        var e := entries[it];
        assert entries[..it + 1] == entries[..it] + [e];
        if e.pin.Some? && e.pin.value != thread {
          it := it + 1;
          tickleMe := true;
        } else if e.task.FiberTask? && e.task.fiber in executing {
          it := it + 1;
        } else {
          FirstIs(entries, thread, executing, it);
          task := Some(e.task);
          Erase(it, thread);
          return;
        }
      }
      FirstIs(entries, thread, executing, it);
    }

    /** The entry leaves the list and its thread counts as active. */
    method Erase(it: nat, ghost thread: nat)
      requires Valid() && thread !in holders && it < |entries|
      modifies this`entries, this`active, this`taken, this`holders
      ensures Valid() && holders == old(holders) + {thread} && View() == TakeAt(old(View()), it)
    {
      TakeKeeps(View(), it);
      taken := taken + {entries[it].ticket};
      entries := entries[..it] + entries[it + 1..];
      active := active + 1;
      holders := holders + {thread};
    }

    /** --m_activethreadcount, once the task has been run or dropped. */
    method LetGo(thread: nat)
      requires Valid() && thread in holders
      modifies this`active, this`holders
      ensures Valid() && holders == old(holders) - {thread}
    {
      active := active - 1;
      holders := holders - {thread};
    }

    /** Scheduler::stopping: stop was asked for, every task ever scheduled has been taken, and every
        thread that took one has let go of it. */
    method Stopping() returns (r: bool)
      requires Valid()
      ensures r <==> autostop && stopping && holders == {} && forall ticket: nat :: ticket < issued ==> ticket in taken
    {
      NothingWaits(View());
      r := autostop && stopping && entries == [] && active == 0;
    }
  }

  /** What a thread leaves in the list when it looks: another thread's entry, or a fiber still executing. */
  predicate Passed(e: Entry, thread: nat, executing: set<FiberId>) {
    || (e.pin.Some? && e.pin.value != thread)
    || (e.task.FiberTask? && e.task.fiber in executing)
  }

  predicate AllPassed(es: seq<Entry>, thread: nat, executing: set<FiberId>) {
    forall i :: 0 <= i < |es| ==> Passed(es[i], thread, executing)
  }

  /** A thread that looks goes past everything before k, and not past k. */
  predicate StopsAt(es: seq<Entry>, thread: nat, executing: set<FiberId>, k: nat)
    requires k <= |es|
  {
    AllPassed(es[..k], thread, executing) && (k < |es| ==> !Passed(es[k], thread, executing))
  }

  lemma NothingWaits(q: Queue)
    requires WellFormed(q)
    ensures q.entries == [] <==> forall ticket: nat :: ticket < q.issued ==> ticket in q.taken
  {
    if q.entries != [] {
      assert q.entries[0].ticket < q.issued && q.entries[0].ticket !in q.taken;
    } else {
      assert forall ticket: nat :: ticket < q.issued && ticket !in q.taken ==> Waiting(q, ticket);
    }
  }

  lemma FirstIs(es: seq<Entry>, thread: nat, executing: set<FiberId>, k: nat)
    requires k <= |es| && StopsAt(es, thread, executing, k)
    ensures FirstEligible(es, thread, executing) == k
  {
    assert forall i :: 0 <= i < k ==> es[..k][i] == es[i];
  }
}
