/** The scheduler's task list: tickets, pinning, and the pick made under the mutex. */
module TaskQueue {
  import opened Common
  import opened Tasks

  /** One element of the list. The ticket is a model-side identity: it tells two
      entries for the same task apart. */
  datatype Entry = Entry(ticket: nat, task: Task, pin: Option<nat>)

  datatype Queue = Queue(entries: seq<Entry>, issued: nat, taken: set<nat>)

  const EmptyQueue := Queue([], 0, {})

  predicate Eligible(e: Entry, thread: nat, executing: set<FiberId>) {
    && (e.pin == None || e.pin == Some(thread))
    && !(e.task.FiberTask? && e.task.fiber in executing)
  }

  /** The index a worker takes: the first entry it may run, or the length when there is none. */
  function FirstEligible(es: seq<Entry>, thread: nat, executing: set<FiberId>): (k: nat)
    ensures k <= |es|
    ensures k < |es| ==> Eligible(es[k], thread, executing)
    ensures forall i :: 0 <= i < k ==> !Eligible(es[i], thread, executing)
  {
    if es == [] || Eligible(es[0], thread, executing) then 0
    else 1 + FirstEligible(es[1..], thread, executing)
  }

  function Push(q: Queue, task: Task, pin: Option<nat>): Queue {
    Queue(q.entries + [Entry(q.issued, task, pin)], q.issued + 1, q.taken)
  }

  function PushAll(q: Queue, tasks: seq<Task>): Queue
    decreases |tasks|
  {
    if tasks == [] then q else PushAll(Push(q, tasks[0], None), tasks[1..])
  }

  function TakeAt(q: Queue, k: nat): Queue
    requires k < |q.entries|
  {
    Queue(q.entries[..k] + q.entries[k + 1..], q.issued, q.taken + {q.entries[k].ticket})
  }

  /** The list has grown at the back by these tasks, in order, each for the given thread, with tickets
      from `first` on; what was there has not moved. */
  predicate Appended(es: seq<Entry>, fs: seq<Entry>, tasks: seq<Task>, pin: Option<nat>, first: nat) {
    && |fs| == |es| + |tasks| && fs[..|es|] == es
    && forall i :: 0 <= i < |tasks| ==> fs[|es| + i] == Entry(first + i, tasks[i], pin)
  }

  /** Scheduling a batch appends exactly its tasks, in order and for any thread. */
  lemma {:induction false} PushAllAppends(q: Queue, tasks: seq<Task>)
    ensures Appended(q.entries, PushAll(q, tasks).entries, tasks, None, q.issued)
    ensures PushAll(q, tasks).issued == q.issued + |tasks| && PushAll(q, tasks).taken == q.taken
    decreases |tasks|
  {
    if tasks != [] {
      var p := Push(q, tasks[0], None);
      PushAllAppends(p, tasks[1..]);
      var fs := PushAll(q, tasks).entries;
      assert fs[..|q.entries|] == fs[..|p.entries|][..|q.entries|];
      forall i | 0 <= i < |tasks| ensures fs[|q.entries| + i] == Entry(q.issued + i, tasks[i], None) {
        if i == 0 {
          assert fs[|q.entries|] == fs[..|p.entries|][|q.entries|];
        } else {
          assert tasks[i] == tasks[1..][i - 1] && fs[|q.entries| + i] == fs[|p.entries| + (i - 1)];
        }
      }
    }
  }

  /** Every ticket issued so far is either waiting, at exactly one index, or taken. */
  predicate WellFormed(q: Queue) {
    && (forall i :: 0 <= i < |q.entries| ==> q.entries[i].ticket < q.issued && q.entries[i].ticket !in q.taken)
    && (forall i, j :: 0 <= i < j < |q.entries| ==> q.entries[i].ticket != q.entries[j].ticket)
    && (forall t: nat :: t in q.taken ==> t < q.issued)
    && (forall t: nat :: t < q.issued && t !in q.taken ==> Waiting(q, t))
  }

  predicate Waiting(q: Queue, ticket: nat) {
    exists i :: 0 <= i < |q.entries| && q.entries[i].ticket == ticket
  }

  lemma PushKeeps(q: Queue, task: Task, pin: Option<nat>)
    requires WellFormed(q)
    ensures WellFormed(Push(q, task, pin))
  {
    var p := Push(q, task, pin);
    forall t: nat | t < p.issued && t !in p.taken
      ensures Waiting(p, t)
    {
      if t == q.issued {
        assert p.entries[|q.entries|].ticket == t;
      } else {
        var i :| 0 <= i < |q.entries| && q.entries[i].ticket == t;
        assert p.entries[i].ticket == t;
      }
    }
  }

  lemma {:induction false} PushAllKeeps(q: Queue, tasks: seq<Task>)
    requires WellFormed(q)
    ensures WellFormed(PushAll(q, tasks))
    decreases |tasks|
  {
    if tasks != [] {
      PushKeeps(q, tasks[0], None);
      PushAllKeeps(Push(q, tasks[0], None), tasks[1..]);
    }
  }

  /** An entry is removed at most once: its ticket was waiting, and it never waits again. The others
      stay, in order, and none moves back. */
  lemma TakeKeeps(q: Queue, k: nat)
    requires WellFormed(q) && k < |q.entries|
    ensures WellFormed(TakeAt(q, k))
    ensures q.entries[k].ticket !in q.taken && !Waiting(TakeAt(q, k), q.entries[k].ticket)
    ensures |TakeAt(q, k).entries| == |q.entries| - 1
    ensures forall i :: 0 <= i < |q.entries| - 1 ==> TakeAt(q, k).entries[i] == q.entries[if i < k then i else i + 1]
  {
    forall i | 0 <= i < |q.entries| - 1
      ensures TakeAt(q, k).entries[i] == q.entries[if i < k then i else i + 1]
    {
      TakeAtIndex(q, k, i);
    }
    forall t: nat | t < q.issued && t !in q.taken && t != q.entries[k].ticket
      ensures Waiting(TakeAt(q, k), t)
    {
      StillWaiting(q, k, t);
    }
  }

  lemma StillWaiting(q: Queue, k: nat, t: nat)
    requires k < |q.entries| && Waiting(q, t) && t != q.entries[k].ticket
    ensures Waiting(TakeAt(q, k), t)
  {
    var i :| 0 <= i < |q.entries| && q.entries[i].ticket == t;
    var n := if i < k then i else i - 1;
    TakeAtIndex(q, k, n);
    assert TakeAt(q, k).entries[n].ticket == t;
  }

  lemma TakeAtIndex(q: Queue, k: nat, i: nat)
    requires k < |q.entries| && i < |q.entries| - 1
    ensures TakeAt(q, k).entries[i] == q.entries[if i < k then i else i + 1]
  {
  }

  /** How many entries owe fiber f a wakeup. */
  function EntryTokens(f: FiberId): Entry -> nat {
    (e: Entry) => TaskWakes(e.task, f)
  }

  lemma {:induction false} PushAllTokens(q: Queue, tasks: seq<Task>, f: FiberId)
    ensures Sum(PushAll(q, tasks).entries, EntryTokens(f))
         == Sum(q.entries, EntryTokens(f)) + Sum(tasks, TaskTokens(f))
    decreases |tasks|
  {
    if tasks != [] {
      var p := Push(q, tasks[0], None);
      SumAppend(q.entries, Entry(q.issued, tasks[0], None), EntryTokens(f));
      PushAllTokens(p, tasks[1..], f);
    }
  }

  // ---------- progress of one entry through the list ----------

  /** What happens to the list over time: appends at the back, and picks by some worker. */
  datatype QueueStep =
    | Append(task: Task, pin: Option<nat>)
    | Pick(thread: nat, executing: set<FiberId>)

  function Apply(q: Queue, step: QueueStep): Queue {
    match step
    case Append(task, pin) => Push(q, task, pin)
    case Pick(thread, executing) =>
      var k := FirstEligible(q.entries, thread, executing);
      if k < |q.entries| then TakeAt(q, k) else q
  }

  function ApplyAll(q: Queue, steps: seq<QueueStep>): Queue
    decreases |steps|
  {
    if steps == [] then q else ApplyAll(Apply(q, steps[0]), steps[1..])
  }

  /** The picks made by a thread that may run an entry with this pin. */
  function PickWeight(pin: Option<nat>): QueueStep -> nat {
    (s: QueueStep) => if s.Pick? && (pin == None || pin == Some(s.thread)) then 1 else 0
  }

  predicate NeverExecuting(task: Task, steps: seq<QueueStep>) {
    task.FiberTask? ==> forall i :: 0 <= i < |steps| && steps[i].Pick? ==> task.fiber !in steps[i].executing
  }

  lemma TakenStays(q: Queue, steps: seq<QueueStep>, ticket: nat)
    requires ticket in q.taken
    ensures ticket in ApplyAll(q, steps).taken
    decreases |steps|
  {
    if steps != [] {
      TakenStays(Apply(q, steps[0]), steps[1..], ticket);
    }
  }

  /** No starvation: an entry at index k, whose fiber is not executing when workers look, has been
      taken once the threads that may run it (all of them, or the one it is pinned to) have made
      k + 1 picks, whatever is appended behind it and whichever other workers pick. */
  lemma {:induction false} TakenWithin(q: Queue, k: nat, steps: seq<QueueStep>)
    requires k < |q.entries|
    requires NeverExecuting(q.entries[k].task, steps)
    requires Sum(steps, PickWeight(q.entries[k].pin)) >= k + 1
    ensures q.entries[k].ticket in ApplyAll(q, steps).taken
    decreases |steps|
  {
    if steps == [] {
      assert false;
    } else {
      var e, p := q.entries[k], Apply(q, steps[0]);
      assert forall i :: 0 <= i < |steps[1..]| ==> steps[1..][i] == steps[i + 1];
      if steps[0].Append? {
        assert p.entries[k] == e;
        TakenWithin(p, k, steps[1..]);
      } else {
        var j := FirstEligible(q.entries, steps[0].thread, steps[0].executing);
        if j == k {
          TakenStays(p, steps[1..], e.ticket);
        } else if j < k {
          assert p.entries[k - 1] == e;
          TakenWithin(p, k - 1, steps[1..]);
        } else {
          assert p.entries[k] == e && PickWeight(e.pin)(steps[0]) == 0;
          TakenWithin(p, k, steps[1..]);
        }
      }
    }
  }

  // ---------- who takes an entry ----------

  lemma {:induction false} ApplyAllSnoc(q: Queue, steps: seq<QueueStep>, j: nat)
    requires j < |steps|
    ensures ApplyAll(q, steps[..j + 1]) == Apply(ApplyAll(q, steps[..j]), steps[j])
    decreases |steps|
  {
    if j == 0 {
      assert steps[..1][1..] == [];
    } else {
      assert steps[..j + 1][1..] == steps[1..][..j] && steps[..j][1..] == steps[1..][..j - 1];
      ApplyAllSnoc(Apply(q, steps[0]), steps[1..], j - 1);
    }
  }

  lemma ApplyKeeps(q: Queue, step: QueueStep)
    requires WellFormed(q)
    ensures WellFormed(Apply(q, step)) && q.issued <= Apply(q, step).issued
  {
    match step {
      case Append(task, pin) => PushKeeps(q, task, pin);
      case Pick(thread, executing) =>
        var k := FirstEligible(q.entries, thread, executing);
        if k < |q.entries| { TakeKeeps(q, k); }
    }
  }

  /** An entry of the list stays in it as it is until it is taken, and only a pick by a thread it may
      run on, while its fiber is not executing, takes it. */
  lemma TakesOnly(q: Queue, step: QueueStep, e: Entry)
    requires WellFormed(q) && e in q.entries
    ensures e in Apply(q, step).entries <==> e.ticket !in Apply(q, step).taken
    ensures e.ticket in Apply(q, step).taken ==>
      && step.Pick? && (e.pin == None || e.pin == Some(step.thread))
      && (e.task.FiberTask? ==> e.task.fiber !in step.executing)
  {
    var i :| 0 <= i < |q.entries| && q.entries[i] == e;
    match step {
      case Append(task, pin) => assert Apply(q, step).entries[i] == e;
      case Pick(thread, executing) =>
        var k := FirstEligible(q.entries, thread, executing);
        if k < |q.entries| && i != k {
          var n := if i < k then i else i - 1;
          TakeAtIndex(q, k, n);
          assert TakeAt(q, k).entries[n] == e;
        } else if i == k {
          TakeKeeps(q, k);
          assert e in TakeAt(q, k).entries ==> Waiting(TakeAt(q, k), e.ticket);
        }
    }
  }

  lemma {:induction false} ListedOrTaken(q: Queue, steps: seq<QueueStep>, e: Entry)
    requires WellFormed(q) && e in q.entries
    ensures WellFormed(ApplyAll(q, steps))
    ensures e in ApplyAll(q, steps).entries || e.ticket in ApplyAll(q, steps).taken
    decreases |steps|
  {
    if steps != [] {
      var p := Apply(q, steps[0]);
      ApplyKeeps(q, steps[0]);
      TakesOnly(q, steps[0], e);
      if e in p.entries {
        ListedOrTaken(p, steps[1..], e);
      } else {
        TakenStays(p, steps[1..], e.ticket);
        RunKeeps(p, steps[1..]);
      }
    }
  }

  lemma {:induction false} RunKeeps(q: Queue, steps: seq<QueueStep>)
    requires WellFormed(q)
    ensures WellFormed(ApplyAll(q, steps))
    decreases |steps|
  {
    if steps != [] {
      ApplyKeeps(q, steps[0]);
      RunKeeps(Apply(q, steps[0]), steps[1..]);
    }
  }

  /** Over every run: what is appended for one thread is taken by that thread or stays, and a fiber is
      never taken while it executes. Step i appends; step j is the one after which its ticket is taken. */
  lemma TakenByItsThread(q: Queue, steps: seq<QueueStep>, i: nat, j: nat)
    requires WellFormed(q) && i < j < |steps| && steps[i].Append?
    requires var ticket := ApplyAll(q, steps[..i]).issued;
      ticket !in ApplyAll(q, steps[..j]).taken && ticket in ApplyAll(q, steps[..j + 1]).taken
    ensures steps[j].Pick?
    ensures steps[i].pin.Some? ==> steps[j].thread == steps[i].pin.value
    ensures steps[i].task.FiberTask? ==> steps[i].task.fiber !in steps[j].executing
  {
    var before := ApplyAll(q, steps[..i]);
    var e := Entry(before.issued, steps[i].task, steps[i].pin);
    var added := ApplyAll(q, steps[..i + 1]);
    RunKeeps(q, steps[..i + 1]);
    ApplyAllSnoc(q, steps, i);
    assert added.entries[|before.entries|] == e;
    var rest := steps[..j][i + 1..];
    assert steps[..j] == steps[..i + 1] + rest;
    ApplyAllConcat(q, steps[..i + 1], rest);
    ListedOrTaken(added, rest, e);
    ApplyAllSnoc(q, steps, j);
    TakesOnly(ApplyAll(q, steps[..j]), steps[j], e);
  }

  lemma {:induction false} ApplyAllConcat(q: Queue, first: seq<QueueStep>, second: seq<QueueStep>)
    ensures ApplyAll(q, first + second) == ApplyAll(ApplyAll(q, first), second)
    decreases |first|
  {
    if first == [] {
      assert first + second == second;
    } else {
      assert (first + second)[1..] == first[1..] + second;
      ApplyAllConcat(Apply(q, first[0]), first[1..], second);
    }
  }
}
