/** No missed timer wakeup: after getNextTimer a poller sleeps until the earliest deadline it
    saw, so any earlier deadline that appears later must have fired the front-insert hook. There is
    a poller on every worker thread, and each call of getNextTimer clears the flag for all. */
module TimerWatch {
  import opened Common
  import opened Tasks
  import opened Timers

  datatype Seen = Nothing | Earliest(next: nat)

  /** What a poller saw at its last getNextTimer, and whether the hook has fired since. */
  datatype Sight = Sight(seen: Seen, fired: bool)

  /** last: who called getNextTimer last. */
  datatype Watch = Watch(q: TimerQueue, sights: map<nat, Sight>, last: Option<nat>, nextAddr: nat)

  const Start := Watch(TimerQueue([], false, 0), map[], None, 0)

  datatype Op =
    | GetNext(poller: nat)
    | Add(ms: nat, recurring: bool, cb: Callback)
    | Cancel(addr: nat)
    | Refresh(addr: nat)
    | Reset(addr: nat, ms: nat, fromNow: bool)
    | List

  /** The hook tickles whoever polls. */
  function Hook(sights: map<nat, Sight>): map<nat, Sight> { map p | p in sights :: sights[p].(fired := true) }

  /** The hook fires for a new first timer, unless it has fired since the last getNextTimer. */
  predicate Fires(q: TimerQueue, t: TimerRec) { LowerBound(q.timers, t) == 0 && !q.tickled }

  function Insertion(s: Watch, t: TimerRec): Watch {
    s.(q := AddTimer(s.q, t), sights := if Fires(s.q, t) then Hook(s.sights) else s.sights)
  }

  function Without(s: Watch, addr: nat): Watch { s.(q := s.q.(timers := Drop(s.q.timers, addr))) }

  function Apply(s: Watch, op: Op, now: nat): Watch {
    match op
    case GetNext(p) =>
      s.(q := s.q.(tickled := false), last := Some(p),
         sights := s.sights[p := Sight(if s.q.timers == [] then Nothing else Earliest(s.q.timers[0].next), false)])
    case Add(ms, recurring, cb) =>
      Insertion(s.(nextAddr := s.nextAddr + 1), TimerRec(s.nextAddr, Deadline(now, ms), ms, recurring, cb))
    case Cancel(addr) => Without(s, addr)
    case Refresh(addr) => s.(q := RefreshTimer(s.q, addr, now))
    case Reset(addr, ms, fromNow) =>
      (match Lookup(s.q.timers, addr)
       case None => s
       case Some(t) => if ms == t.ms && !fromNow then s else Insertion(Without(s, addr), ResetRec(t, ms, fromNow, now)))
    case List => s.(q := Expire(s.q, now).1)
  }

  /** Reset is the operation that TimerManager performs. */
  lemma ResetIs(s: Watch, addr: nat, ms: nat, fromNow: bool, now: nat)
    ensures Apply(s, Reset(addr, ms, fromNow), now).q == ResetTimer(s.q, addr, ms, fromNow, now)
  {
  }

  // ---------- the promise ----------

  predicate NoneBefore(ts: seq<TimerRec>, e: nat) { forall x :: x in ts ==> x.next >= e }

  predicate Kept(v: Sight, ts: seq<TimerRec>) {
    v.fired || (match v.seen case Nothing => ts == [] case Earliest(e) => NoneBefore(ts, e))
  }

  /** The promise to every sleeping poller. */
  predicate NoMissedWakeup(s: Watch) { forall p :: p in s.sights ==> Kept(s.sights[p], s.q.timers) }

  /** What holds in every run whatever the clock does: the set is ordered with one element per
      timer, and m_tickled is set only if every poller has been tickled since it looked; for the
      last to look it says exactly that. */
  ghost predicate Sane(s: Watch) {
    && WellFormed(s.q.timers)
    && (forall x :: x in s.q.timers ==> x.addr < s.nextAddr)
    && (s.q.tickled ==> forall p :: p in s.sights ==> s.sights[p].fired)
    && (s.last.Some? ==> s.last.value in s.sights && s.sights[s.last.value].fired == s.q.tickled)
  }

  lemma NewAddress(s: Watch)
    requires Sane(s)
    ensures !HasAddr(s.q.timers, s.nextAddr)
  {
    forall i | 0 <= i < |s.q.timers| ensures s.q.timers[i].addr < s.nextAddr { assert s.q.timers[i] in s.q.timers; }
  }

  /** Inserting a timer that is not in the set, through the hook, always keeps the promise. */
  lemma InsertionKeeps(s: Watch, t: TimerRec)
    requires Sane(s) && !HasAddr(s.q.timers, t.addr) && t.addr < s.nextAddr
    ensures Sane(Insertion(s, t))
    ensures NoMissedWakeup(s) ==> NoMissedWakeup(Insertion(s, t))
  {
    InsertKeeps(s.q.timers, t);
    forall x ensures x in Insert(s.q.timers, t) <==> x in s.q.timers || x == t { InsertElement(s.q.timers, t, x); }
    if LowerBound(s.q.timers, t) > 0 {
      assert Before(s.q.timers[0], t);
      assert s.q.timers[0] in s.q.timers;
    }
  }

  lemma WithoutKeeps(s: Watch, addr: nat)
    requires Sane(s)
    ensures Sane(Without(s, addr)) && !HasAddr(Without(s, addr).q.timers, addr)
    ensures NoMissedWakeup(s) ==> NoMissedWakeup(Without(s, addr))
  {
    DropKeeps(s.q.timers, addr);
    forall x | x in Drop(s.q.timers, addr) ensures x in s.q.timers { DropElement(s.q.timers, addr, x); }
  }

  lemma GetNextKeeps(s: Watch, p: nat, now: nat)
    requires Sane(s)
    ensures Sane(Apply(s, GetNext(p), now))
    ensures NoMissedWakeup(s) ==> NoMissedWakeup(Apply(s, GetNext(p), now))
  {
    forall x | x in s.q.timers
      ensures x.next >= s.q.timers[0].next
    {
      var i :| 0 <= i < |s.q.timers| && s.q.timers[i] == x;
      assert i > 0 ==> Before(s.q.timers[0], s.q.timers[i]);
    }
  }

  lemma AddKeeps(s: Watch, ms: nat, recurring: bool, cb: Callback, now: nat)
    requires Sane(s)
    ensures Sane(Apply(s, Add(ms, recurring, cb), now))
    ensures NoMissedWakeup(s) ==> NoMissedWakeup(Apply(s, Add(ms, recurring, cb), now))
  {
    NewAddress(s);
    InsertionKeeps(s.(nextAddr := s.nextAddr + 1), TimerRec(s.nextAddr, Deadline(now, ms), ms, recurring, cb));
  }

  lemma ResetKeeps(s: Watch, addr: nat, ms: nat, fromNow: bool, now: nat)
    requires Sane(s)
    ensures Sane(Apply(s, Reset(addr, ms, fromNow), now))
    ensures NoMissedWakeup(s) ==> NoMissedWakeup(Apply(s, Reset(addr, ms, fromNow), now))
  {
    match Lookup(s.q.timers, addr) {
      case None =>
      case Some(t) =>
        WithoutKeeps(s, addr);
        InsertionKeeps(Without(s, addr), ResetRec(t, ms, fromNow, now));
    }
  }

  // ---------- the two ways round the hook ----------

  /** No poller that has not been tickled waits for a time after d. */
  predicate LateEnough(s: Watch, d: nat) {
    forall p :: p in s.sights && !s.sights[p].fired && s.sights[p].seen.Earliest? ==> d >= s.sights[p].seen.next
  }

  /** refresh puts the timer back without the hook: harmless exactly when its new deadline is late
      enough, wrapped round 2^64 or not, and whatever the clock. */
  lemma RefreshExact(s: Watch, addr: nat, now: nat)
    requires Sane(s) && NoMissedWakeup(s)
    ensures Sane(Apply(s, Refresh(addr), now))
    ensures NoMissedWakeup(Apply(s, Refresh(addr), now)) <==>
      match Lookup(s.q.timers, addr) case None => true case Some(t) => LateEnough(s, Deadline(now, t.ms))
  {
    match Lookup(s.q.timers, addr) {
      case None =>
      case Some(t) =>
        var u := t.(next := Deadline(now, t.ms));
        PutBackSane(s, t, u);
        PutBackExact(s, Drop(s.q.timers, addr), u);
    }
  }

  lemma PutBackSane(s: Watch, t: TimerRec, u: TimerRec)
    requires Sane(s) && t in s.q.timers && u.addr == t.addr
    ensures Sane(s.(q := s.q.(timers := Insert(Drop(s.q.timers, t.addr), u))))
    ensures forall x :: x in Drop(s.q.timers, t.addr) ==> x in s.q.timers
  {
    var rest := Drop(s.q.timers, t.addr);
    DropKeeps(s.q.timers, t.addr);
    InsertKeeps(rest, u);
    forall x | x in rest ensures x in s.q.timers { DropElement(s.q.timers, t.addr, x); }
    forall x | x in Insert(rest, u) ensures x in rest || x == u { InsertElement(rest, u, x); }
  }

  lemma PutBackExact(s: Watch, rest: seq<TimerRec>, u: TimerRec)
    requires NoMissedWakeup(s) && s.q.timers != [] && forall x :: x in rest ==> x in s.q.timers
    ensures NoMissedWakeup(s.(q := s.q.(timers := Insert(rest, u)))) <==> LateEnough(s, u.next)
  {
    forall x ensures x in Insert(rest, u) <==> x in rest || x == u { InsertElement(rest, u, x); }
    assert u in Insert(rest, u);
    forall p | p in s.sights && !s.sights[p].fired
      ensures s.sights[p].seen.Earliest?
      ensures NoneBefore(Insert(rest, u), s.sights[p].seen.next) <==> u.next >= s.sights[p].seen.next
    {
      assert Kept(s.sights[p], s.q.timers);
    }
  }

  /** Every recurring timer that listExpiredCb would take goes back late enough. */
  predicate RearmsLate(s: Watch, now: nat) {
    forall t :: t in s.q.timers && t.recurring && Due(s.q, now, t) ==> LateEnough(s, Deadline(now, t.ms))
  }

  /** listExpiredCb re-inserts recurring timers without the hook: harmless exactly when each goes
      back late enough. */
  lemma ListExact(s: Watch, now: nat)
    requires Sane(s) && NoMissedWakeup(s)
    ensures Sane(Apply(s, List, now))
    ensures NoMissedWakeup(Apply(s, List, now)) <==> RearmsLate(s, now)
  {
    var ts := Expire(s.q, now).1.timers;
    ExpireKeeps(s.q, now);
    forall x ensures x in ts <==> (x in s.q.timers && !Due(s.q, now, x)) || MovedFrom(s.q.timers, s.q, now, x) { LeftBehind(s.q, now, x); }
    forall p | p in s.sights && !s.sights[p].fired
      ensures Kept(s.sights[p], ts) <==>
        forall t :: t in s.q.timers && t.recurring && Due(s.q, now, t) && s.sights[p].seen.Earliest? ==>
          Deadline(now, t.ms) >= s.sights[p].seen.next
    {
      assert Kept(s.sights[p], s.q.timers);
      ListSight(s, now, s.sights[p]);
    }
  }

  lemma ListSight(s: Watch, now: nat, v: Sight)
    requires Kept(v, s.q.timers) && !v.fired
    requires var ts := Expire(s.q, now).1.timers;
      forall x :: x in ts <==> (x in s.q.timers && !Due(s.q, now, x)) || MovedFrom(s.q.timers, s.q, now, x)
    ensures Kept(v, Expire(s.q, now).1.timers) <==>
      forall t :: t in s.q.timers && t.recurring && Due(s.q, now, t) && v.seen.Earliest? ==> Deadline(now, t.ms) >= v.seen.next
  {
    var ts := Expire(s.q, now).1.timers;
    if v.seen.Earliest? {
      var e := v.seen.next;
      forall t | t in s.q.timers && t.recurring && Due(s.q, now, t)
        ensures t.(next := Deadline(now, t.ms)) in ts
      {
        assert MovedFrom(s.q.timers, s.q, now, t.(next := Deadline(now, t.ms)));
      }
      if forall t :: t in s.q.timers && t.recurring && Due(s.q, now, t) ==> Deadline(now, t.ms) >= e {
        forall x | x in ts ensures x.next >= e {
          if MovedFrom(s.q.timers, s.q, now, x) {
            var t :| t in s.q.timers && t.recurring && Due(s.q, now, t) && x == t.(next := Deadline(now, t.ms));
          }
        }
      }
    }
  }

  // ---------- every call, every run ----------

  /** What a call must meet for the promise to survive it. */
  predicate Guard(s: Watch, op: Op, now: nat) {
    match op
    case Refresh(addr) => (match Lookup(s.q.timers, addr) case None => true case Some(t) => LateEnough(s, Deadline(now, t.ms)))
    case List => RearmsLate(s, now)
    case _ => true
  }

  lemma ApplyExact(s: Watch, op: Op, now: nat)
    requires Sane(s) && NoMissedWakeup(s)
    ensures Sane(Apply(s, op, now))
    ensures NoMissedWakeup(Apply(s, op, now)) <==> Guard(s, op, now)
  {
    match op {
      case GetNext(p) => GetNextKeeps(s, p, now);
      case Add(ms, recurring, cb) => AddKeeps(s, ms, recurring, cb, now);
      case Cancel(addr) => WithoutKeeps(s, addr);
      case Refresh(addr) => RefreshExact(s, addr, now);
      case Reset(addr, ms, fromNow) => ResetKeeps(s, addr, ms, fromNow, now);
      case List => ListExact(s, now);
    }
  }

  datatype Timed = Timed(op: Op, now: nat)

  /** The promise holds at every point of the run. */
  predicate NeverMissing(s: Watch, ops: seq<Timed>)
    decreases |ops|
  {
    NoMissedWakeup(s) && (ops != [] ==> NeverMissing(Apply(s, ops[0].op, ops[0].now), ops[1..]))
  }

  /** Every call of the run meets its guard. */
  predicate Guarded(s: Watch, ops: seq<Timed>)
    decreases |ops|
  {
    ops != [] ==> Guard(s, ops[0].op, ops[0].now) && Guarded(Apply(s, ops[0].op, ops[0].now), ops[1..])
  }

  lemma {:induction false} RunExact(s: Watch, ops: seq<Timed>)
    requires Sane(s) && NoMissedWakeup(s)
    ensures NeverMissing(s, ops) <==> Guarded(s, ops)
    decreases |ops|
  {
    if ops != [] {
      ApplyExact(s, ops[0].op, ops[0].now);
      if Guard(s, ops[0].op, ops[0].now) { RunExact(Apply(s, ops[0].op, ops[0].now), ops[1..]); }
    }
  }

  /** In every run, with any number of pollers and whatever the clock does, no poller misses a
      deadline at any point if and only if every refresh, and every recurring timer that expires,
      goes back no earlier than what each untickled poller waits for. */
  lemma NeverMissedExactly(ops: seq<Timed>)
    ensures NeverMissing(Start, ops) <==> Guarded(Start, ops)
  {
    RunExact(Start, ops);
  }

  // ---------- a monotone clock ----------

  /** The clock does not go back and no deadline overflows 64 bits. */
  predicate Admissible(s: Watch, clock: nat, op: Op, now: nat) {
    && clock <= now
    && (match op
        case Add(ms, _, _) => now + ms < Wrap
        case Reset(_, ms, _) => now + ms < Wrap
        case Refresh(_) => forall x :: x in s.q.timers ==> now + x.ms < Wrap
        case List => forall x :: x in s.q.timers ==> now + x.ms < Wrap
        case _ => true)
  }

  predicate AdmissibleAll(s: Watch, clock: nat, ops: seq<Timed>)
    decreases |ops|
  {
    ops != [] ==>
      && Admissible(s, clock, ops[0].op, ops[0].now)
      && AdmissibleAll(Apply(s, ops[0].op, ops[0].now), ops[0].now, ops[1..])
  }

  /** Every deadline was computed from a time already past. */
  predicate Dated(ts: seq<TimerRec>, clock: nat) {
    forall x :: x in ts ==> x.ms <= x.next <= clock + x.ms
  }

  lemma NoWrap(now: nat, ms: nat)
    requires now + ms < Wrap
    ensures Deadline(now, ms) == now + ms
  {
  }

  lemma InsertDated(ts: seq<TimerRec>, t: TimerRec, clock: nat)
    requires Dated(ts, clock) && t.ms <= t.next <= clock + t.ms
    ensures Dated(Insert(ts, t), clock)
  {
    forall x | x in Insert(ts, t) ensures x in ts || x == t { InsertElement(ts, t, x); }
  }

  lemma DropDated(ts: seq<TimerRec>, addr: nat, clock: nat)
    requires Dated(ts, clock)
    ensures Dated(Drop(ts, addr), clock)
  {
    forall x | x in Drop(ts, addr) ensures x in ts { DropElement(ts, addr, x); }
  }

  lemma ResetDated(t: TimerRec, ms: nat, fromNow: bool, clock: nat, now: nat)
    requires t.ms <= t.next <= clock + t.ms && clock <= now && now + ms < Wrap
    ensures var r := ResetRec(t, ms, fromNow, now); ms == r.ms <= r.next <= now + ms
  {
    NoWrap(if fromNow then now else t.next - t.ms, ms);
  }

  lemma ListDated(s: Watch, clock: nat, now: nat)
    requires Sane(s) && Dated(s.q.timers, clock) && Admissible(s, clock, List, now)
    ensures Dated(Expire(s.q, now).1.timers, now)
  {
    forall x | x in Expire(s.q, now).1.timers
      ensures x.ms <= x.next <= now + x.ms
    {
      LeftBehind(s.q, now, x);
      if MovedFrom(s.q.timers, s.q, now, x) {
        var t :| t in s.q.timers && t.recurring && Due(s.q, now, t) && x == t.(next := Deadline(now, t.ms));
        NoWrap(now, t.ms);
      }
    }
  }

  lemma ApplyDated(s: Watch, clock: nat, op: Op, now: nat)
    requires Sane(s) && Dated(s.q.timers, clock) && Admissible(s, clock, op, now)
    ensures Dated(Apply(s, op, now).q.timers, now)
  {
    match op {
      case GetNext(p) =>
      case Add(ms, recurring, cb) =>
        NoWrap(now, ms);
        InsertDated(s.q.timers, TimerRec(s.nextAddr, Deadline(now, ms), ms, recurring, cb), now);
      case Cancel(addr) => DropDated(s.q.timers, addr, now);
      case Refresh(addr) => RefreshDated(s, clock, addr, now);
      case Reset(addr, ms, fromNow) =>
        var r := Lookup(s.q.timers, addr);
        if r.Some? {
          ResetDated(r.value, ms, fromNow, clock, now);
          DropDated(s.q.timers, addr, now);
          InsertDated(Drop(s.q.timers, addr), ResetRec(r.value, ms, fromNow, now), now);
        }
      case List => ListDated(s, clock, now);
    }
  }

  lemma RefreshDated(s: Watch, clock: nat, addr: nat, now: nat)
    requires Dated(s.q.timers, clock) && Admissible(s, clock, Refresh(addr), now)
    ensures Dated(RefreshTimer(s.q, addr, now).timers, now)
  {
    var r := Lookup(s.q.timers, addr);
    if r.Some? {
      NoWrap(now, r.value.ms);
      DropDated(s.q.timers, addr, now);
      InsertDated(Drop(s.q.timers, addr), r.value.(next := now + r.value.ms), now);
    }
  }

  /** A timer put back later than it was is late enough. */
  lemma PutBackLate(s: Watch, clock: nat, t: TimerRec, now: nat)
    requires NoMissedWakeup(s) && Dated(s.q.timers, clock) && clock <= now && t in s.q.timers && now + t.ms < Wrap
    ensures LateEnough(s, Deadline(now, t.ms))
  {
    NoWrap(now, t.ms);
    forall p | p in s.sights && !s.sights[p].fired && s.sights[p].seen.Earliest?
      ensures Deadline(now, t.ms) >= s.sights[p].seen.next
    {
      assert Kept(s.sights[p], s.q.timers);
    }
  }

  lemma AdmissibleGuards(s: Watch, clock: nat, op: Op, now: nat)
    requires NoMissedWakeup(s) && Dated(s.q.timers, clock) && Admissible(s, clock, op, now)
    ensures Guard(s, op, now)
  {
    match op {
      case Refresh(addr) =>
        var r := Lookup(s.q.timers, addr);
        if r.Some? { PutBackLate(s, clock, r.value, now); }
      case List =>
        forall t | t in s.q.timers ensures LateEnough(s, Deadline(now, t.ms)) { PutBackLate(s, clock, t, now); }
      case _ =>
    }
  }

  lemma {:induction false} AdmissibleRun(s: Watch, clock: nat, ops: seq<Timed>)
    requires Sane(s) && NoMissedWakeup(s) && Dated(s.q.timers, clock) && AdmissibleAll(s, clock, ops)
    ensures NeverMissing(s, ops)
    decreases |ops|
  {
    if ops != [] {
      AdmissibleGuards(s, clock, ops[0].op, ops[0].now);
      ApplyExact(s, ops[0].op, ops[0].now);
      ApplyDated(s, clock, ops[0].op, ops[0].now);
      AdmissibleRun(Apply(s, ops[0].op, ops[0].now), ops[0].now, ops[1..]);
    }
  }

  /** With a monotone clock and no 64-bit overflow no poller misses a deadline in any run. */
  lemma NeverMissed(ops: seq<Timed>)
    requires AdmissibleAll(Start, 0, ops)
    ensures NeverMissing(Start, ops)
  {
    AdmissibleRun(Start, 0, ops);
  }

  // ---------- deadlines that wrap ----------

  /** A refresh whose deadline wraps slips in front unannounced. */
  lemma OverflowMisses()
    ensures var a := Apply(Start, Add(1000, false, UserTask(0)), 0);
      var b := Apply(a, Add(Wrap - 1, false, UserTask(1)), 0);
      var c := Apply(b, GetNext(7), 1);
      NoMissedWakeup(c) && !NoMissedWakeup(Apply(c, Refresh(1), 5))
  {
    var t0 := TimerRec(0, 1000, 1000, false, UserTask(0));
    var t1 := TimerRec(1, Wrap - 1, Wrap - 1, false, UserTask(1));
    var a := Apply(Start, Add(1000, false, UserTask(0)), 0);
    assert a.q.timers == [t0];
    var b := Apply(a, Add(Wrap - 1, false, UserTask(1)), 0);
    assert LowerBound([t0], t1) == 1;
    assert b.q.timers == [t0, t1];
    var c := Apply(b, GetNext(7), 1);
    ApplyExact(Start, Add(1000, false, UserTask(0)), 0);
    ApplyExact(a, Add(Wrap - 1, false, UserTask(1)), 0);
    ApplyExact(b, GetNext(7), 1);
    ApplyExact(c, Refresh(1), 5);
    assert Lookup([t0, t1], 1) == Some(t1) by { assert [t0, t1][1..] == [t1]; }
    assert c.sights[7] == Sight(Earliest(1000), false);
    assert Deadline(5, Wrap - 1) == 4;
  }

  /** So does a recurring timer. */
  lemma RecurringMisses()
    ensures var half := 0x8000_0000_0000_0000;
      var a := Apply(Start, Add(half + 10, true, UserTask(0)), 0);
      var b := Apply(a, GetNext(7), half + 5);
      NoMissedWakeup(b) && !NoMissedWakeup(Apply(b, List, half + 10))
  {
    var half := 0x8000_0000_0000_0000;
    var t0 := TimerRec(0, half + 10, half + 10, true, UserTask(0));
    var a := Apply(Start, Add(half + 10, true, UserTask(0)), 0);
    assert a.q.timers == [t0];
    var b := Apply(a, GetNext(7), half + 5);
    ApplyExact(Start, Add(half + 10, true, UserTask(0)), 0);
    ApplyExact(a, GetNext(7), half + 5);
    ApplyExact(b, List, half + 10);
    assert t0 in b.q.timers && Due(b.q, half + 10, t0);
    assert b.sights[7] == Sight(Earliest(half + 10), false);
    assert Deadline(half + 10, t0.ms) == 20;
  }
}
