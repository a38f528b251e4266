/** The timer queue: a set ordered by deadline, then by address. */
module Timers {
  import opened Common
  import opened Tasks

  const Wrap: nat := 0x1_0000_0000_0000_0000
  const HourMs: nat := 60 * 60 * 1000

  /** A pending timer. `addr` stands for the object's address, the tie-break of the order. */
  datatype TimerRec = TimerRec(addr: nat, next: nat, ms: nat, recurring: bool, cb: Callback)

  /** The deadline of a timer armed at `now`: unsigned 64-bit addition. */
  function Deadline(now: nat, ms: nat): nat { (now + ms) % 0x1_0000_0000_0000_0000 }

  predicate Before(a: TimerRec, b: TimerRec) {
    a.next < b.next || (a.next == b.next && a.addr < b.addr)
  }

  ghost predicate Sorted(ts: seq<TimerRec>) {
    forall i, j :: 0 <= i < j < |ts| ==> Before(ts[i], ts[j])
  }

  /** std::set::lower_bound: the first element that is not before the key. */
  function LowerBound(ts: seq<TimerRec>, key: TimerRec): (k: nat)
    ensures k <= |ts|
    ensures forall i :: 0 <= i < k ==> Before(ts[i], key)
    ensures k < |ts| ==> !Before(ts[k], key)
  {
    if ts == [] || !Before(ts[0], key) then 0 else 1 + LowerBound(ts[1..], key)
  }

  function Insert(ts: seq<TimerRec>, t: TimerRec): seq<TimerRec> {
    var k := LowerBound(ts, t);
    ts[..k] + [t] + ts[k..]
  }

  predicate HasAddr(ts: seq<TimerRec>, addr: nat) {
    exists i :: 0 <= i < |ts| && ts[i].addr == addr
  }

  /** The set without the timer at an address. */
  function Drop(ts: seq<TimerRec>, addr: nat): seq<TimerRec> {
    if ts == [] then [] else if ts[0].addr == addr then ts[1..] else [ts[0]] + Drop(ts[1..], addr)
  }

  datatype TimerQueue = TimerQueue(timers: seq<TimerRec>, tickled: bool, previous: nat)

  /** IsaddTimer: insert, and mark the queue tickled when the new timer is at the front. */
  function AddTimer(q: TimerQueue, t: TimerRec): TimerQueue {
    q.(timers := Insert(q.timers, t), tickled := q.tickled || LowerBound(q.timers, t) == 0)
  }

  function CancelTimer(q: TimerQueue, addr: nat): TimerQueue {
    q.(timers := Drop(q.timers, addr))
  }

  /** detectClockRollover; the subtraction is unsigned. */
  predicate Rollover(previous: nat, now: nat) {
    now < previous && now < (if previous >= HourMs then previous - HourMs else previous + Wrap - HourMs)
  }

  /** How many timers at the head of the set are due. */
  function DueCount(ts: seq<TimerRec>, now: nat): (k: nat)
    ensures k <= |ts|
    ensures forall i :: 0 <= i < k ==> ts[i].next <= now
    ensures k < |ts| ==> ts[k].next > now
  {
    if ts == [] || ts[0].next > now then 0 else 1 + DueCount(ts[1..], now)
  }

  /** Puts the recurring ones among the expired timers back, one period after now. */
  function Rearm(rest: seq<TimerRec>, expired: seq<TimerRec>, now: nat): seq<TimerRec>
    decreases |expired|
  {
    if expired == [] then rest
    else
      var t := expired[0];
      Rearm(if t.recurring then Insert(rest, t.(next := Deadline(now, t.ms))) else rest, expired[1..], now)
  }

  function Callbacks(ts: seq<TimerRec>): (cs: seq<Callback>)
    ensures |cs| == |ts|
    ensures forall i :: 0 <= i < |ts| ==> cs[i] == ts[i].cb
  {
    seq(|ts|, i requires 0 <= i < |ts| => ts[i].cb)
  }

  /** How many timers listExpiredCb takes off the head of the set. */
  function ExpireCount(q: TimerQueue, now: nat): (k: nat)
    ensures k <= |q.timers|
  {
    if Rollover(q.previous, now) then |q.timers| else DueCount(q.timers, now)
  }

  /** listExpiredCb: the callbacks to run, and the queue left behind. */
  function Expire(q: TimerQueue, now: nat): (seq<Callback>, TimerQueue) {
    if q.timers == [] then ([], q)
    else
      var k := ExpireCount(q, now);
      (Callbacks(q.timers[..k]),
       TimerQueue(Rearm(q.timers[k..], q.timers[..k], now), q.tickled, now))
  }

  // ---------- Timer::refresh and Timer::reset ----------

  function Lookup(ts: seq<TimerRec>, addr: nat): (r: Option<TimerRec>)
    ensures r.Some? ==> r.value in ts && r.value.addr == addr
    ensures r.None? <==> !HasAddr(ts, addr)
  {
    if ts == [] then None
    else if ts[0].addr == addr then assert HasAddr(ts, addr); Some(ts[0])
    else
      var r := Lookup(ts[1..], addr);
      assert r.Some? ==> HasAddr(ts, addr) by {
        if r.Some? { var i :| 0 <= i < |ts[1..]| && ts[1..][i].addr == addr; assert ts[i + 1].addr == addr; }
      }
      assert r.None? ==> !HasAddr(ts, addr) by {
        assert forall i :: 1 <= i < |ts| ==> ts[i] == ts[1..][i - 1];
      }
      r
  }

  /** Timer::refresh: take the timer out, move its deadline, put it back without the hook. */
  function RefreshTimer(q: TimerQueue, addr: nat, now: nat): TimerQueue {
    match Lookup(q.timers, addr)
    case None => q
    case Some(t) => q.(timers := Insert(Drop(q.timers, addr), t.(next := Deadline(now, t.ms))))
  }

  /** Timer::reset: nothing to do for the same period, otherwise re-added through the hook. */
  function ResetTimer(q: TimerQueue, addr: nat, ms: nat, fromNow: bool, now: nat): TimerQueue {
    match Lookup(q.timers, addr)
    case None => q
    case Some(t) =>
      if ms == t.ms && !fromNow then q
      else AddTimer(q.(timers := Drop(q.timers, addr)), ResetRec(t, ms, fromNow, now))
  }

  /** Unsigned 64-bit subtraction of 64-bit values. */
  function Minus64(a: nat, b: nat): nat {
    (a - b) % 0x1_0000_0000_0000_0000
  }

  /** The timer as reset leaves it. */
  function ResetRec(t: TimerRec, ms: nat, fromNow: bool, now: nat): TimerRec {
    t.(next := Deadline(if fromNow then now else Minus64(t.next, t.ms), ms), ms := ms)
  }

  // ---------- sums over the set ----------

  function TimerTokens(f: FiberId): TimerRec -> nat { (t: TimerRec) => CallbackWakes(t.cb, f) }

  lemma InsertSum(ts: seq<TimerRec>, t: TimerRec, weight: TimerRec -> nat)
    ensures Sum(Insert(ts, t), weight) == Sum(ts, weight) + weight(t)
  {
    SumInsert(ts, LowerBound(ts, t), t, weight);
  }

  lemma {:induction false} DropSum(ts: seq<TimerRec>, addr: nat, weight: TimerRec -> nat)
    requires forall i :: 0 <= i < |ts| && ts[i].addr == addr ==> weight(ts[i]) == 0
    ensures Sum(Drop(ts, addr), weight) == Sum(ts, weight)
    decreases |ts|
  {
    if ts != [] && ts[0].addr != addr {
      assert forall i :: 0 <= i < |ts[1..]| ==> ts[1..][i] == ts[i + 1];
      DropSum(ts[1..], addr, weight);
      SumConcat([ts[0]], Drop(ts[1..], addr), weight);
      SumOne(ts[0], weight);
    }
  }

  predicate OnlyUserRecurs(ts: seq<TimerRec>) {
    forall i :: 0 <= i < |ts| && ts[i].recurring ==> ts[i].cb.UserTask?
  }

  lemma {:induction false} RearmSum(rest: seq<TimerRec>, expired: seq<TimerRec>, now: nat, f: FiberId)
    requires OnlyUserRecurs(expired)
    ensures Sum(Rearm(rest, expired, now), TimerTokens(f)) == Sum(rest, TimerTokens(f))
    decreases |expired|
  {
    if expired != [] {
      var t := expired[0];
      InsertSum(rest, t.(next := Deadline(now, t.ms)), TimerTokens(f));
      RearmSum(if t.recurring then Insert(rest, t.(next := Deadline(now, t.ms))) else rest, expired[1..], now, f);
    }
  }

  lemma {:induction false} CallbacksSum(ts: seq<TimerRec>, f: FiberId)
    ensures Sum(Callbacks(ts), CallbackTokens(f)) == Sum(ts, TimerTokens(f))
    decreases |ts|
  {
    if ts != [] {
      assert Callbacks(ts)[1..] == Callbacks(ts[1..]);
      CallbacksSum(ts[1..], f);
    }
  }

  /** Expiry moves wakeups from the set to the callback list and loses none. */
  lemma ExpireTokens(q: TimerQueue, now: nat, f: FiberId)
    requires OnlyUserRecurs(q.timers)
    ensures Sum(Expire(q, now).0, CallbackTokens(f)) + Sum(Expire(q, now).1.timers, TimerTokens(f))
         == Sum(q.timers, TimerTokens(f))
  {
    if q.timers != [] {
      var k := ExpireCount(q, now);
      assert q.timers == q.timers[..k] + q.timers[k..];
      SumConcat(q.timers[..k], q.timers[k..], TimerTokens(f));
      CallbacksSum(q.timers[..k], f);
      RearmSum(q.timers[k..], q.timers[..k], now, f);
    }
  }

  // ---------- elements of the set ----------

  lemma InsertElement(ts: seq<TimerRec>, t: TimerRec, x: TimerRec)
    ensures x in Insert(ts, t) <==> x in ts || x == t
  {
    var k := LowerBound(ts, t);
    assert ts == ts[..k] + ts[k..];
  }

  lemma {:induction false} RearmElement(rest: seq<TimerRec>, expired: seq<TimerRec>, now: nat, x: TimerRec)
    ensures x in Rearm(rest, expired, now) <==>
      x in rest || exists t :: t in expired && t.recurring && x == t.(next := Deadline(now, t.ms))
    decreases |expired|
  {
    if expired != [] {
      var t := expired[0];
      var next := if t.recurring then Insert(rest, t.(next := Deadline(now, t.ms))) else rest;
      RearmElement(next, expired[1..], now, x);
      InsertElement(rest, t.(next := Deadline(now, t.ms)), x);
      assert expired == [t] + expired[1..];
    }
  }

  lemma {:induction false} DropElement(ts: seq<TimerRec>, addr: nat, x: TimerRec)
    requires x in Drop(ts, addr)
    ensures x in ts
    decreases |ts|
  {
    if ts != [] && ts[0].addr != addr && x != ts[0] {
      DropElement(ts[1..], addr, x);
    }
  }

  /** Only timers at that address are dropped. */
  lemma {:induction false} DropStays(ts: seq<TimerRec>, addr: nat, x: TimerRec)
    requires x in ts && x.addr != addr
    ensures x in Drop(ts, addr)
    decreases |ts|
  {
    if ts[0].addr == addr {
      assert ts == [ts[0]] + ts[1..];
    } else if x != ts[0] {
      DropStays(ts[1..], addr, x);
    }
  }

  lemma SplitElement(ts: seq<TimerRec>, k: nat, t: TimerRec)
    requires k <= |ts|
    ensures t in ts <==> t in ts[..k] || t in ts[k..]
  {
    assert ts == ts[..k] + ts[k..];
  }

  // ---------- order ----------

  lemma InsertSorted(ts: seq<TimerRec>, t: TimerRec)
    requires Sorted(ts) && !HasAddr(ts, t.addr)
    ensures Sorted(Insert(ts, t))
  {
    var k := LowerBound(ts, t);
    var r := Insert(ts, t);
    forall i, j | 0 <= i < j < |r|
      ensures Before(r[i], r[j])
    {
      if j == k || i == k { assert k < |ts| ==> !Before(ts[k], t); }
    }
  }

  /** A lookup in the ordered set finds the timer that is there. */
  lemma FindsItself(ts: seq<TimerRec>, i: nat)
    requires Sorted(ts) && i < |ts|
    ensures LowerBound(ts, ts[i]) == i
  {
    assert forall j :: 0 <= j < i ==> Before(ts[j], ts[i]);
  }

  lemma {:induction false} DropAt(ts: seq<TimerRec>, i: nat)
    requires i < |ts| && forall j :: 0 <= j < i ==> ts[j].addr != ts[i].addr
    ensures Drop(ts, ts[i].addr) == ts[..i] + ts[i + 1..]
    decreases i
  {
    if i == 0 {
      assert ts[..0] + ts[1..] == ts[1..];
    } else {
      assert ts[1..][i - 1] == ts[i];
      DropAt(ts[1..], i - 1);
      assert [ts[0]] + (ts[1..][..i - 1] + ts[1..][i..]) == ts[..i] + ts[i + 1..];
    }
  }

  lemma DropMissing(ts: seq<TimerRec>, addr: nat)
    requires !HasAddr(ts, addr)
    ensures Drop(ts, addr) == ts
    decreases |ts|
  {
    if ts != [] {
      assert ts[0].addr != addr;
      assert forall i :: 0 <= i < |ts[1..]| ==> ts[1..][i] == ts[i + 1];
      DropMissing(ts[1..], addr);
    }
  }

  ghost predicate DistinctAddrs(ts: seq<TimerRec>) {
    forall i, j :: 0 <= i < j < |ts| ==> ts[i].addr != ts[j].addr
  }

  /** What the set always is: ordered, one element per address. */
  ghost predicate WellFormed(ts: seq<TimerRec>) { Sorted(ts) && DistinctAddrs(ts) }

  lemma InsertAt(ts: seq<TimerRec>, t: TimerRec, i: nat)
    requires i <= |ts|
    ensures Insert(ts, t)[i] == if i < LowerBound(ts, t) then ts[i] else if i == LowerBound(ts, t) then t else ts[i - 1]
  {
  }

  lemma InsertKeeps(ts: seq<TimerRec>, t: TimerRec)
    requires WellFormed(ts) && !HasAddr(ts, t.addr)
    ensures WellFormed(Insert(ts, t))
  {
    InsertSorted(ts, t);
    var r := Insert(ts, t);
    forall i, j | 0 <= i < j < |r|
      ensures r[i].addr != r[j].addr
    {
      InsertAt(ts, t, i);
      InsertAt(ts, t, j);
    }
  }

  lemma InsertAddr(ts: seq<TimerRec>, t: TimerRec, a: nat)
    ensures HasAddr(Insert(ts, t), a) ==> HasAddr(ts, a) || a == t.addr
  {
    if HasAddr(Insert(ts, t), a) {
      var i :| 0 <= i < |Insert(ts, t)| && Insert(ts, t)[i].addr == a;
      InsertAt(ts, t, i);
    }
  }

  lemma DropIndex(ts: seq<TimerRec>, i: nat, j: nat)
    requires i < |ts| && j < |ts| - 1
    ensures (ts[..i] + ts[i + 1..])[j] == ts[if j < i then j else j + 1]
  {
  }

  lemma DropKeeps(ts: seq<TimerRec>, addr: nat)
    requires WellFormed(ts)
    ensures WellFormed(Drop(ts, addr)) && !HasAddr(Drop(ts, addr), addr)
  {
    if HasAddr(ts, addr) {
      var i :| 0 <= i < |ts| && ts[i].addr == addr;
      DropAt(ts, i);
      var r := ts[..i] + ts[i + 1..];
      forall j, k | 0 <= j < k < |r|
        ensures Before(r[j], r[k]) && r[j].addr != r[k].addr
      {
        DropIndex(ts, i, j);
        DropIndex(ts, i, k);
      }
      forall j | 0 <= j < |r|
        ensures r[j].addr != addr
      {
        DropIndex(ts, i, j);
      }
    } else {
      DropMissing(ts, addr);
    }
  }

  lemma {:induction false} RearmKeeps(rest: seq<TimerRec>, expired: seq<TimerRec>, now: nat)
    requires WellFormed(rest) && DistinctAddrs(expired)
    requires forall t :: t in expired ==> !HasAddr(rest, t.addr)
    ensures WellFormed(Rearm(rest, expired, now))
    decreases |expired|
  {
    if expired != [] {
      var t := expired[0];
      var r := if t.recurring then Insert(rest, t.(next := Deadline(now, t.ms))) else rest;
      if t.recurring { InsertKeeps(rest, t.(next := Deadline(now, t.ms))); }
      forall x | x in expired[1..]
        ensures !HasAddr(r, x.addr)
      {
        var j :| 0 <= j < |expired[1..]| && expired[1..][j] == x;
        assert expired[j + 1] == x && x.addr != t.addr && x in expired;
        InsertAddr(rest, t.(next := Deadline(now, t.ms)), x.addr);
      }
      RearmKeeps(r, expired[1..], now);
    }
  }

  lemma ExpireKeeps(q: TimerQueue, now: nat)
    requires WellFormed(q.timers)
    ensures WellFormed(Expire(q, now).1.timers)
  {
    if q.timers != [] {
      var k := ExpireCount(q, now);
      forall t | t in q.timers[..k]
        ensures !HasAddr(q.timers[k..], t.addr)
      {
        var i :| 0 <= i < k && q.timers[i] == t;
        assert forall j :: 0 <= j < |q.timers[k..]| ==> q.timers[k..][j] == q.timers[k + j];
      }
      RearmKeeps(q.timers[k..], q.timers[..k], now);
    }
  }

  /** The timers taken are exactly those due, or all of them on rollover. */
  lemma TakenAreDue(q: TimerQueue, now: nat, i: nat)
    requires WellFormed(q.timers) && i < |q.timers|
    ensures i < ExpireCount(q, now) <==> Rollover(q.previous, now) || q.timers[i].next <= now
  {
    var k := ExpireCount(q, now);
    if !Rollover(q.previous, now) && k < i { assert Before(q.timers[k], q.timers[i]); }
  }

  predicate Due(q: TimerQueue, now: nat, t: TimerRec) { Rollover(q.previous, now) || t.next <= now }

  /** x is a recurring timer that was due, moved a period on from now. */
  ghost predicate MovedFrom(ts: seq<TimerRec>, q: TimerQueue, now: nat, x: TimerRec) {
    exists t :: t in ts && t.recurring && Due(q, now, t) && x == t.(next := Deadline(now, t.ms))
  }

  lemma TakenElement(q: TimerQueue, now: nat, t: TimerRec)
    requires WellFormed(q.timers)
    ensures t in q.timers[..ExpireCount(q, now)] <==> t in q.timers && Due(q, now, t)
  {
    var ts, k := q.timers, ExpireCount(q, now);
    if t in ts[..k] {
      var i :| 0 <= i < k && ts[i] == t;
      TakenAreDue(q, now, i);
    }
    if t in ts && Due(q, now, t) {
      var i :| 0 <= i < |ts| && ts[i] == t;
      TakenAreDue(q, now, i);
      assert ts[..k][i] == t;
    }
  }

  lemma LeftElement(q: TimerQueue, now: nat, t: TimerRec)
    requires WellFormed(q.timers)
    ensures t in q.timers[ExpireCount(q, now)..] <==> t in q.timers && !Due(q, now, t)
  {
    var ts, k := q.timers, ExpireCount(q, now);
    if t in ts[k..] {
      var i :| 0 <= i < |ts[k..]| && ts[k..][i] == t;
      assert ts[k + i] == t;
      TakenAreDue(q, now, k + i);
    }
    if t in ts && !Due(q, now, t) {
      var i :| 0 <= i < |ts| && ts[i] == t;
      TakenAreDue(q, now, i);
      assert ts[k..][i - k] == t;
    }
  }

  lemma MovedElement(q: TimerQueue, now: nat, x: TimerRec)
    requires WellFormed(q.timers)
    ensures (exists t :: t in q.timers[..ExpireCount(q, now)] && t.recurring && x == t.(next := Deadline(now, t.ms)))
       <==> MovedFrom(q.timers, q, now, x)
  {
    var taken := q.timers[..ExpireCount(q, now)];
    if exists t :: t in taken && t.recurring && x == t.(next := Deadline(now, t.ms)) {
      var t :| t in taken && t.recurring && x == t.(next := Deadline(now, t.ms));
      TakenElement(q, now, t);
    }
    if MovedFrom(q.timers, q, now, x) {
      var t :| t in q.timers && t.recurring && Due(q, now, t) && x == t.(next := Deadline(now, t.ms));
      TakenElement(q, now, t);
    }
  }

  /** What stays is exactly the timers not due and the recurring due ones, moved. */
  lemma LeftBehind(q: TimerQueue, now: nat, x: TimerRec)
    requires WellFormed(q.timers)
    ensures x in Expire(q, now).1.timers <==> (x in q.timers && !Due(q, now, x)) || MovedFrom(q.timers, q, now, x)
  {
    if q.timers != [] {
      var k := ExpireCount(q, now);
      RearmElement(q.timers[k..], q.timers[..k], now, x);
      LeftElement(q, now, x);
      MovedElement(q, now, x);
    }
  }

  /** Expiry is exact. The callbacks returned are those of the timers due at now (all timers,
      on rollover), each once and in deadline order; left behind are exactly the other timers
      and the expired recurring ones, one period after now. */
  lemma ExpireExact(q: TimerQueue, now: nat)
    requires WellFormed(q.timers)
    ensures Expire(q, now).0 == Callbacks(q.timers[..ExpireCount(q, now)])
    ensures forall i :: 0 <= i < |q.timers| ==> (i < ExpireCount(q, now) <==> Due(q, now, q.timers[i]))
    ensures forall i, j :: 0 <= i < j < ExpireCount(q, now) ==>
      q.timers[i].next <= q.timers[j].next && q.timers[i].addr != q.timers[j].addr
    ensures forall x :: x in Expire(q, now).1.timers <==> (x in q.timers && !Due(q, now, x)) || MovedFrom(q.timers, q, now, x)
    ensures WellFormed(Expire(q, now).1.timers)
  {
    ExpireKeeps(q, now);
    forall i | 0 <= i < |q.timers| ensures i < ExpireCount(q, now) <==> Due(q, now, q.timers[i]) { TakenAreDue(q, now, i); }
    forall i, j | 0 <= i < j < ExpireCount(q, now)
      ensures q.timers[i].next <= q.timers[j].next
    {
      assert Before(q.timers[i], q.timers[j]);
    }
    forall x { LeftBehind(q, now, x); }
  }

  /** The search in listExpiredCb: lower_bound of a probe made at now, then the equal ones.
      The probe's address does not matter. */
  lemma ProbeCounts(ts: seq<TimerRec>, probe: TimerRec, k: nat)
    requires WellFormed(ts) && LowerBound(ts, probe) <= k <= |ts|
    requires forall i :: LowerBound(ts, probe) <= i < k ==> ts[i].next == probe.next
    requires k < |ts| ==> ts[k].next != probe.next
    ensures k == DueCount(ts, probe.next)
  {
    assert forall i, j :: 0 <= i < j < |ts| ==> Before(ts[i], ts[j]);
  }

  lemma {:induction false} RearmOne(rest: seq<TimerRec>, expired: seq<TimerRec>, t: TimerRec, now: nat)
    ensures Rearm(rest, expired + [t], now) ==
      var r := Rearm(rest, expired, now); if t.recurring then Insert(r, t.(next := Deadline(now, t.ms))) else r
    decreases |expired|
  {
    if expired == [] {
      assert [] + [t] == [t] && [t][1..] == [];
    } else {
      assert (expired + [t])[1..] == expired[1..] + [t];
      var x := expired[0];
      RearmOne(if x.recurring then Insert(rest, x.(next := Deadline(now, x.ms))) else rest, expired[1..], t, now);
    }
  }

  /** Finding a timer that is in the set and erasing it there. */
  lemma FindAndErase(ts: seq<TimerRec>, i: nat)
    requires WellFormed(ts) && i < |ts|
    ensures LowerBound(ts, ts[i]) == i
    ensures Drop(ts, ts[i].addr) == ts[..i] + ts[i + 1..]
    ensures WellFormed(Drop(ts, ts[i].addr)) && !HasAddr(Drop(ts, ts[i].addr), ts[i].addr)
  {
    FindsItself(ts, i);
    DropAt(ts, i);
    DropKeeps(ts, ts[i].addr);
  }

  lemma CallbacksOne(ts: seq<TimerRec>, t: TimerRec)
    ensures Callbacks(ts + [t]) == Callbacks(ts) + [t.cb]
  {
  }

  // ---------- what each call does, by the clock ----------

  /** Whether a timer expires: every one does when the clock has gone back by more than an hour (or at
      all, in its first hour), otherwise those whose deadline has come. */
  predicate ClockDue(previous: nat, now: nat, next: nat) {
    (now < previous && (previous < 3600000 || previous - now > 3600000)) || next <= now
  }

  /** The timer as it is armed again at now. */
  function Again(t: TimerRec, now: nat): TimerRec {
    TimerRec(t.addr, (now + t.ms) % 0x1_0000_0000_0000_0000, t.ms, t.recurring, t.cb)
  }

  /** `cbs` are the callbacks of the timers that expire, in deadline order; `left` holds the others,
      and those of the expired ones that recur, armed again. */
  ghost predicate ExpiredBy(ts: seq<TimerRec>, previous: nat, now: nat, cbs: seq<Callback>, left: seq<TimerRec>) {
    && |cbs| <= |ts|
    && (forall i :: 0 <= i < |ts| ==> (i < |cbs| <==> ClockDue(previous, now, ts[i].next)))
    && (forall i :: 0 <= i < |cbs| ==> cbs[i] == ts[i].cb)
    && (forall x :: x in left <==> LeftByClock(ts, previous, now, x))
  }

  ghost predicate LeftByClock(ts: seq<TimerRec>, previous: nat, now: nat, x: TimerRec) {
    || (x in ts && !ClockDue(previous, now, x.next))
    || (exists t :: t in ts && t.recurring && ClockDue(previous, now, t.next) && x == Again(t, now))
  }

  lemma ExpireDoes(q: TimerQueue, now: nat)
    requires WellFormed(q.timers)
    ensures ExpiredBy(q.timers, q.previous, now, Expire(q, now).0, Expire(q, now).1.timers)
    ensures Expire(q, now).1.previous == (if q.timers == [] then q.previous else now)
    ensures Expire(q, now).1.tickled == q.tickled
  {
    ExpireExact(q, now);
    forall x
      ensures x in Expire(q, now).1.timers <==> LeftByClock(q.timers, q.previous, now, x)
    {
      LeftBehind(q, now, x);
      LeftIs(q, now, x);
    }
  }

  lemma LeftIs(q: TimerQueue, now: nat, x: TimerRec)
    ensures LeftByClock(q.timers, q.previous, now, x) <==> (x in q.timers && !Due(q, now, x)) || MovedFrom(q.timers, q, now, x)
  {
  }

  ghost predicate Gains(ts: seq<TimerRec>, us: seq<TimerRec>, t: TimerRec) { forall x :: x in us <==> x in ts || x == t }

  ghost predicate Loses(ts: seq<TimerRec>, us: seq<TimerRec>, addr: nat) {
    forall x :: x in us <==> x in ts && x.addr != addr
  }

  /** The timer at an address is gone and this one is there. */
  ghost predicate Swaps(ts: seq<TimerRec>, us: seq<TimerRec>, t: TimerRec) {
    forall x :: x in us <==> (x in ts && x.addr != t.addr) || x == t
  }

  /** No timer is due before this one. */
  ghost predicate IsFirst(ts: seq<TimerRec>, next: nat, addr: nat) {
    forall x :: x in ts ==> next < x.next || (next == x.next && addr <= x.addr)
  }

  lemma InsertDoes(ts: seq<TimerRec>, t: TimerRec)
    requires WellFormed(ts)
    ensures Gains(ts, Insert(ts, t), t)
    ensures LowerBound(ts, t) == 0 <==> IsFirst(ts, t.next, t.addr)
  {
    forall x ensures x in Insert(ts, t) <==> x in ts || x == t { InsertElement(ts, t, x); }
    if ts != [] {
      assert ts[0] in ts;
      forall x | x in ts
        ensures x == ts[0] || Before(ts[0], x)
      {
        var i :| 0 <= i < |ts| && ts[i] == x;
      }
    }
  }

  lemma DropDoes(ts: seq<TimerRec>, addr: nat)
    requires WellFormed(ts)
    ensures Loses(ts, Drop(ts, addr), addr)
  {
    DropKeeps(ts, addr);
    var us := Drop(ts, addr);
    forall x
      ensures x in us <==> x in ts && x.addr != addr
    {
      if x in us {
        DropElement(ts, addr, x);
        var i :| 0 <= i < |us| && us[i] == x;
      }
      if x in ts && x.addr != addr { DropStays(ts, addr, x); }
    }
  }

  lemma SwapDoes(ts: seq<TimerRec>, t: TimerRec)
    requires WellFormed(ts)
    ensures Swaps(ts, Insert(Drop(ts, t.addr), t), t)
  {
    DropDoes(ts, t.addr);
    DropKeeps(ts, t.addr);
    InsertDoes(Drop(ts, t.addr), t);
  }

  /** refresh and reset leave the timer at its address, changed, and the others. */
  lemma RefreshDoes(q: TimerQueue, t: TimerRec, now: nat)
    requires WellFormed(q.timers) && Lookup(q.timers, t.addr) == Some(t)
    ensures Swaps(q.timers, RefreshTimer(q, t.addr, now).timers, t.(next := Deadline(now, t.ms)))
  {
    SwapDoes(q.timers, t.(next := Deadline(now, t.ms)));
  }

  lemma ResetDoes(q: TimerQueue, t: TimerRec, ms: nat, fromNow: bool, now: nat)
    requires WellFormed(q.timers) && Lookup(q.timers, t.addr) == Some(t) && (ms != t.ms || fromNow)
    ensures Swaps(q.timers, ResetTimer(q, t.addr, ms, fromNow, now).timers, ResetRec(t, ms, fromNow, now))
  {
    SwapDoes(q.timers, ResetRec(t, ms, fromNow, now));
  }

  /** 64-bit clock arithmetic: addition and subtraction wrap, and undo each other. */
  lemma ClockArithmetic(a: nat, b: nat)
    requires a < 0x1_0000_0000_0000_0000 && b < 0x1_0000_0000_0000_0000
    ensures Deadline(a, b) == if a + b < 0x1_0000_0000_0000_0000 then a + b else a + b - 0x1_0000_0000_0000_0000
    ensures Minus64(a, b) == if b <= a then a - b else a - b + 0x1_0000_0000_0000_0000
    ensures Deadline(Minus64(a, b), b) == a && Minus64(Deadline(a, b), b) == a
  {
  }

  lemma ResetArithmetic(next: nat, before: nat, ms: nat, now: nat)
    ensures now + ms < 0x1_0000_0000_0000_0000 ==> Deadline(now, ms) == now + ms
    ensures 0 <= next - before < 0x1_0000_0000_0000_0000 - ms ==> Deadline(Minus64(next, before), ms) == next - before + ms
  {
  }
}
