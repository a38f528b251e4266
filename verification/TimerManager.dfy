/** Timer and TimerManager, as objects updated in place, proved against the timer queue. */
module TimerManager {
  import opened Common
  import opened Tasks
  import opened Timers

  class Timer {
    const addr: nat
    var recurring: bool
    var ms: nat
    var next: nat
    var cb: Option<Callback>

    constructor (addr: nat, ms: nat, cb: Callback, recurring: bool, now: nat)
      ensures this.addr == addr && this.ms == ms && this.cb == Some(cb) && this.recurring == recurring
      ensures next == (now + ms) % 0x1_0000_0000_0000_0000
    {
      this.addr := addr;
      this.ms := ms;
      this.cb := Some(cb);
      this.recurring := recurring;
      this.next := Deadline(now, ms);
    }

    /** This pending timer as a value. */
    ghost predicate Is(r: TimerRec)
      reads this
    {
      cb == Some(r.cb) && addr == r.addr && next == r.next && ms == r.ms && recurring == r.recurring
    }

    ghost function Rec(): (r: TimerRec)
      reads this
      requires cb.Some?
      ensures Is(r)
    {
      TimerRec(addr, next, ms, recurring, cb.value)
    }
  }

  class TimerManager {
    var timers: seq<Timer>      // the std::set, in its order
    var tickled: bool
    var previous: nat
    var hooks: nat              // calls of onTimerInsertedAtFront so far
    ghost var recs: seq<TimerRec>
    ghost var created: set<Timer>

    ghost function View(): TimerQueue
      reads this
    {
      TimerQueue(recs, tickled, previous)
    }

    /** A timer that is not in `out` is in the set exactly when its callback is set; addresses
        identify timers; and the set is in order. */
    ghost predicate ValidBut(out: set<Timer>)
      reads this, created, timers
    {
      && |recs| == |timers| && WellFormed(recs)
      && (forall i :: 0 <= i < |timers| ==> timers[i].Is(recs[i]) && timers[i] in created && timers[i] !in out)
      && (forall t :: t in created && t !in out && t.cb.Some? ==> t in timers)
      && (forall t, u :: t in created && u in created && t.addr == u.addr ==> t == u)
      && out <= created
    }

    ghost predicate Valid()
      reads this, created, timers
    {
      ValidBut({})
    }

    constructor (now: nat)
      ensures Valid() && created == {} && View() == TimerQueue([], false, now) && hooks == 0
    {
      timers := [];
      tickled := false;
      previous := now;
      hooks := 0;
      recs := [];
      created := {};
    }

    /** std::set::lower_bound for a key that need not be in the set. */
    method LowerBoundOf(next: nat, addr: nat, ghost key: TimerRec) returns (k: nat)
      requires |recs| == |timers| && forall i :: 0 <= i < |timers| ==> timers[i].Is(recs[i])
      requires key.next == next && key.addr == addr
      ensures k == LowerBound(recs, key)
    {
      k := 0;
      while k < |timers| && (timers[k].next < next || (timers[k].next == next && timers[k].addr < addr))
        invariant k <= |timers|
        invariant forall i :: 0 <= i < k ==> Before(recs[i], key)
      {
        k := k + 1;
      }
      LowerBoundIs(recs, key, k);
    }

    /** std::set::insert; reports whether the timer went to the front. */
    method Insert(t: Timer, ghost out: set<Timer>) returns (front: bool)
      requires ValidBut(out) && t in out && t.cb.Some?
      modifies this`timers, this`recs
      ensures ValidBut(out - {t})
      ensures recs == Timers.Insert(old(recs), t.Rec())
      ensures front == (LowerBound(old(recs), t.Rec()) == 0)
    {
      assert !HasAddr(recs, t.addr);
      var k := LowerBoundOf(t.next, t.addr, t.Rec());
      InsertKeeps(recs, t.Rec());
      InsertIndex(t, k, Timers.Insert(recs, t.Rec()), out);
      front := k == 0;
    }

    method InsertIndex(t: Timer, k: nat, ghost ss: seq<TimerRec>, ghost out: set<Timer>)
      requires ValidBut(out) && t in out && t.cb.Some? && k <= |timers|
      requires ss == recs[..k] + [t.Rec()] + recs[k..] && WellFormed(ss)
      modifies this`timers, this`recs
      ensures ValidBut(out - {t}) && recs == ss
    {
      ghost var us := timers[..k] + [t] + timers[k..];
      InsertAgrees(timers, recs, k, t, us, ss);
      recs := ss;
      timers := timers[..k] + [t] + timers[k..];
    }

    /** With t at index k the two lists still agree. */
    lemma InsertAgrees(ts: seq<Timer>, rs: seq<TimerRec>, k: nat, t: Timer, us: seq<Timer>, ss: seq<TimerRec>)
      requires |ts| == |rs| && k <= |ts| && t.cb.Some? && us == ts[..k] + [t] + ts[k..] && ss == rs[..k] + [t.Rec()] + rs[k..]
      requires forall i :: 0 <= i < |ts| ==> ts[i].Is(rs[i])
      ensures |us| == |ss| && forall j :: 0 <= j < |us| ==> us[j].Is(ss[j])
      ensures forall u :: u in us <==> u in ts || u == t
    {
      InsertMembers(ts, k, t);
      forall j | 0 <= j < |us|
        ensures us[j].Is(ss[j])
      {
        var m := if j < k then j else j - 1;
        assert j != k ==> us[j] == ts[m] && ss[j] == rs[m] && ts[m].Is(rs[m]);
      }
    }

    /** std::set::find followed by erase: the lookup always finds a timer that is in the set. */
    method Erase(t: Timer)
      requires Valid() && t in timers
      modifies this`timers, this`recs
      ensures ValidBut({t})
      ensures recs == Drop(old(recs), t.addr)
    {
      ghost var i :| 0 <= i < |timers| && timers[i] == t;
      FindAndErase(recs, i);
      var k := LowerBoundOf(t.next, t.addr, t.Rec());
      EraseIndex(t, k, Drop(recs, t.addr));
    }

    method EraseIndex(t: Timer, k: nat, ghost ss: seq<TimerRec>)
      requires Valid() && k < |timers| && timers[k] == t
      requires ss == recs[..k] + recs[k + 1..] && WellFormed(ss)
      modifies this`timers, this`recs
      ensures ValidBut({t}) && recs == ss
    {
      ghost var us := timers[..k] + timers[k + 1..];
      EraseAt(timers, recs, k, us, ss);
      recs := ss;
      timers := timers[..k] + timers[k + 1..];
    }

    /** Without timer k the two lists still agree. */
    lemma EraseAt(ts: seq<Timer>, rs: seq<TimerRec>, k: nat, us: seq<Timer>, ss: seq<TimerRec>)
      requires |ts| == |rs| && k < |ts| && DistinctAddrs(rs)
      requires us == ts[..k] + ts[k + 1..] && ss == rs[..k] + rs[k + 1..]
      requires forall i :: 0 <= i < |ts| ==> ts[i].Is(rs[i]) && ts[i] in created
      ensures |us| == |ss| && forall j :: 0 <= j < |us| ==> us[j].Is(ss[j]) && us[j] in created && us[j] != ts[k]
      ensures forall u :: u in ts && u != ts[k] ==> u in us
    {
      RemoveMembers(ts, k);
      forall j | 0 <= j < |us|
        ensures us[j].Is(ss[j]) && us[j] in created && us[j] != ts[k]
      {
        RemoveIndex(ts, k, j);
        RemoveIndex(rs, k, j);
        var m := if j < k then j else j + 1;
        assert ts[m].Is(rs[m]) && ts[k].Is(rs[k]);
      }
    }

    method PutBack(t: Timer)
      requires ValidBut({t}) && t.cb.Some?
      modifies this`timers, this`recs
      ensures Valid() && recs == Timers.Insert(old(recs), t.Rec())
    {
      var _ := Insert(t, {t});
      assert {t} - {t} == {};
    }

    /** IsaddTimer: insert, then fire the hook once if the timer is in front. */
    method InsertAndTickle(t: Timer)
      requires ValidBut({t}) && t.cb.Some?
      modifies this
      ensures Valid() && created == old(created)
      ensures View() == Timers.AddTimer(old(View()), t.Rec())
      ensures hooks == old(hooks) + (if !old(tickled) && IsFirst(old(recs), t.next, t.addr) then 1 else 0)
      ensures tickled == (old(tickled) || IsFirst(old(recs), t.next, t.addr)) && previous == old(previous)
      ensures Gains(old(recs), recs, t.Rec())
    {
      InsertDoes(recs, t.Rec());
      var front := Insert(t, {t});
      assert {t} - {t} == {};
      if front && !tickled {
        tickled := true;
        hooks := hooks + 1;
      }
    }

    method AddTimer(addr: nat, ms: nat, cb: Callback, recurring: bool, now: nat) returns (t: Timer)
      requires Valid() && forall u :: u in created ==> u.addr != addr
      modifies this
      ensures Valid() && fresh(t) && created == old(created) + {t} && t.cb == Some(cb)
      ensures View() == Timers.AddTimer(old(View()), TimerRec(addr, Deadline(now, ms), ms, recurring, cb))
      ensures t.next == (now + ms) % 0x1_0000_0000_0000_0000 && t.ms == ms && t.recurring == recurring && t.addr == addr
      ensures Gains(old(recs), recs, t.Rec())
      ensures hooks == old(hooks) + (if !old(tickled) && IsFirst(old(recs), t.next, addr) then 1 else 0)
      ensures tickled == (old(tickled) || IsFirst(old(recs), t.next, addr)) && previous == old(previous)
    {
      t := new Timer(addr, ms, cb, recurring, now);
      created := created + {t};
      InsertAndTickle(t);
    }

    /** Timer::cancel: true exactly when the timer was pending. */
    method Cancel(t: Timer) returns (done: bool)
      requires Valid() && t in created
      modifies this`timers, this`recs, t`cb
      ensures Valid() && t.cb == None && done == old(t.cb.Some?)
      ensures View() == Timers.CancelTimer(old(View()), t.addr)
      ensures Loses(old(recs), recs, t.addr)
    {
      DropDoes(recs, t.addr);
      done := t.cb.Some?;
      if done {
        Erase(t);
        t.cb := None;
      } else {
        assert !HasAddr(recs, t.addr);
        DropMissing(recs, t.addr);
      }
    }

    /** Timer::refresh: the deadline moves while the timer is outside the set; no hook. */
    method Refresh(t: Timer, now: nat) returns (done: bool)
      requires Valid() && t in created
      modifies this`timers, this`recs, t`next
      ensures Valid() && done == t.cb.Some?
      ensures View() == Timers.RefreshTimer(old(View()), t.addr, now)
      ensures done ==> t.next == Deadline(now, t.ms)
      ensures !done ==> t.next == old(t.next)
      ensures if done then Swaps(old(recs), recs, t.Rec()) else recs == old(recs)
    {
      done := t.cb.Some?;
      LookupTimer(t);
      if done {
        RefreshDoes(View(), t.Rec(), now);
        Requeue(t, now);
      }
    }

    method Requeue(t: Timer, now: nat)
      requires Valid() && t in timers && t.cb.Some?
      modifies this`timers, this`recs, t`next
      ensures Valid()
      ensures recs == Timers.Insert(Drop(old(recs), t.addr), old(t.Rec()).(next := Deadline(now, t.ms)))
      ensures t.next == Deadline(now, t.ms)
    {
      Erase(t);
      t.next := Deadline(now, t.ms);
      PutBack(t);
    }

    /** Timer::reset: re-added through the hook, unless period and origin are unchanged. */
    method Reset(t: Timer, ms: nat, fromNow: bool, now: nat) returns (done: bool)
      requires Valid() && t in created
      modifies this, t`next, t`ms
      ensures Valid() && created == old(created)
      ensures done == (t.cb.Some? || (ms == old(t.ms) && !fromNow))
      ensures View() == Timers.ResetTimer(old(View()), t.addr, ms, fromNow, now)
      ensures t.cb == old(t.cb)
      ensures if t.cb.Some? && (ms != old(t.ms) || fromNow) then t.ms == ms && Swaps(old(recs), recs, t.Rec())
              else t.ms == old(t.ms) && t.next == old(t.next) && View() == old(View()) && hooks == old(hooks)
      ensures t.cb.Some? && fromNow ==> t.next == Deadline(now, ms)
      ensures t.cb.Some? && !fromNow && ms != old(t.ms) ==>
        t.next == Deadline(Minus64(old(t.next), old(t.ms)), ms)
      ensures t.cb.Some? && fromNow && now + ms < 0x1_0000_0000_0000_0000 ==> t.next == now + ms
      ensures t.cb.Some? && !fromNow && ms != old(t.ms) && 0 <= old(t.next) - old(t.ms) < 0x1_0000_0000_0000_0000 - ms ==>
        t.next == old(t.next) - old(t.ms) + ms
    {
      LookupTimer(t);
      ResetArithmetic(t.next, t.ms, ms, now);
      if ms == t.ms && !fromNow {
        return true;
      }
      done := t.cb.Some?;
      if done {
        ResetDoes(View(), t.Rec(), ms, fromNow, now);
        if fromNow {
          Restart(t, ms, now);
        } else {
          Restart(t, ms, Minus64(t.next, t.ms));
        }
      }
    }

    /** Out of the set, changed, and in again through the hook. */
    method Restart(t: Timer, ms: nat, start: nat)
      requires Valid() && t in timers && t.cb.Some?
      modifies this, t`next, t`ms
      ensures Valid() && created == old(created) && t.cb == old(t.cb)
      ensures View() == Timers.AddTimer(old(View()).(timers := Drop(old(recs), t.addr)), old(t.Rec()).(next := Deadline(start, ms), ms := ms))
      ensures t.ms == ms && t.next == Deadline(start, ms)
    {
      Erase(t);
      t.ms := ms;
      t.next := Deadline(start, ms);
      InsertAndTickle(t);
    }

    /** Looking a timer up by its address finds its own record, or nothing if it is not pending. */
    lemma LookupTimer(t: Timer)
      requires Valid() && t in created
      ensures Timers.Lookup(recs, t.addr) == if t.cb.Some? then Some(t.Rec()) else None
    {
      var r := Timers.Lookup(recs, t.addr);
      if r.Some? {
        var i :| 0 <= i < |recs| && recs[i] == r.value;
        assert timers[i].Is(recs[i]) && timers[i] == t;
      } else {
        forall i | 0 <= i < |timers|
          ensures timers[i] != t
        {
          assert timers[i].Is(recs[i]);
        }
      }
    }

    /** getNextTimer: the time to the first deadline, None when there is no timer. */
    method GetNextTimer(now: nat) returns (wait: Option<nat>)
      requires Valid()
      modifies this`tickled
      ensures Valid() && View() == old(View()).(tickled := false)
      ensures wait.None? <==> timers == []
      ensures wait.Some? ==> forall t :: t in timers && t.next >= now ==> t.next - now >= wait.value
      ensures wait.Some? ==> exists t :: t in timers && (t.next == now + wait.value || (wait.value == 0 && t.next <= now))
    {
      tickled := false;
      if timers == [] {
        wait := None;
      } else {
        wait := Some(if now >= timers[0].next then 0 else timers[0].next - now);
        assert timers[0] in timers;
        forall i | 0 <= i < |timers|
          ensures timers[i].next >= timers[0].next
        {
          assert i > 0 ==> Before(recs[0], recs[i]);
        }
      }
    }

    /** listExpiredCb. The probe timer's address is whatever the allocator gives. */
    method ListExpired(now: nat, probe: nat) returns (cbs: seq<Callback>)
      requires Valid()
      modifies this`timers, this`recs, this`previous, created
      ensures Valid()
      ensures (cbs, View()) == Timers.Expire(old(View()), now)
      ensures ExpiredBy(old(recs), old(previous), now, cbs, recs)
      ensures previous == (if old(recs) == [] then old(previous) else now) && tickled == old(tickled)
    {
      ExpireDoes(View(), now);
      cbs := [];
      if timers == [] {
        return;
      }
      var rollover := Rollover(previous, now);
      if !rollover && timers[0].next > now {
        NothingDue(View(), now);
        previous := now;
        return;
      }
      cbs := ExpireDue(now, probe, rollover);
    }

    /** The callbacks of the due timers, once some are due. */
    method ExpireDue(now: nat, probe: nat, rollover: bool) returns (cbs: seq<Callback>)
      requires Valid() && timers != [] && rollover == Rollover(previous, now)
      modifies this`timers, this`recs, this`previous, created
      ensures Valid()
      ensures (cbs, View()) == Timers.Expire(old(View()), now)
    {
      var k := CountExpired(now, probe, rollover);
      ExpireIs(View(), now, k);
      cbs := TakeExpired(k, now);
      previous := now;
    }

    /** The iterator arithmetic of listExpiredCb: everything on rollover, otherwise up to the
        lower bound of the probe and past the timers due exactly now. */
    method CountExpired(now: nat, probe: nat, rollover: bool) returns (k: nat)
      requires Valid()
      ensures k == if rollover then |timers| else DueCount(recs, now)
    {
      if rollover {
        k := |timers|;
        return;
      }
      ghost var key := TimerRec(probe, now, 0, false, UserTask(0));
      k := LowerBoundOf(now, probe, key);
      while k < |timers| && timers[k].next == now
        invariant LowerBound(recs, key) <= k <= |timers|
        invariant forall i :: LowerBound(recs, key) <= i < k ==> recs[i].next == now
      {
        k := k + 1;
      }
      ProbeCounts(recs, key, k);
    }

    /** m_timers.erase(begin, it). */
    method CutPrefix(k: nat)
      requires Valid() && k <= |timers|
      modifies this`timers, this`recs
      ensures timers == old(timers)[k..] && ValidBut(Members(old(timers)[..k]))
      ensures recs == old(recs)[k..]
      ensures Distinct(old(timers)[..k])
    {
      assert timers == timers[..k] + timers[k..];
      forall i, j | 0 <= i < j < |timers|
        ensures timers[i] != timers[j]
      {
        assert recs[i].addr != recs[j].addr;
      }
      SuffixKeeps(recs, k);
      timers := timers[k..];
      recs := recs[k..];
    }

    /** One round of the loop over the expired timers. */
    method RearmOrEnd(t: Timer, ghost out: set<Timer>, now: nat) returns (cb: Callback)
      requires ValidBut(out) && t in out && t.cb.Some?
      modifies this`timers, this`recs, t`next, t`cb
      ensures ValidBut(out - {t}) && cb == old(t.cb.value)
      ensures recs == if t.recurring then Timers.Insert(old(recs), old(t.Rec()).(next := Deadline(now, t.ms))) else old(recs)
    {
      cb := t.cb.value;
      if t.recurring {
        t.next := Deadline(now, t.ms);
        var _ := Insert(t, out);
      } else {
        t.cb := None;
      }
    }

    /** The erase and the loop over the expired timers. */
    method TakeNext(t: Timer, ghost expireds: seq<Timer>, ghost i: nat, ghost all: seq<TimerRec>, now: nat) returns (cb: Callback)
      requires i < |expireds| <= |all| && t == expireds[i] && Distinct(expireds) && ValidBut(Members(expireds[i..]))
      requires forall j :: i <= j < |expireds| ==> expireds[j].Is(all[j])
      modifies this`timers, this`recs, t`next, t`cb
      ensures ValidBut(Members(expireds[i + 1..])) && cb == all[i].cb
      ensures forall j :: i < j < |expireds| ==> expireds[j].Is(all[j])
      ensures recs == if all[i].recurring then Timers.Insert(old(recs), all[i].(next := Deadline(now, all[i].ms))) else old(recs)
    {
      DistinctSuffix(expireds, i);
      cb := RearmOrEnd(t, Members(expireds[i..]), now);
    }

    method TakeExpired(k: nat, now: nat) returns (cbs: seq<Callback>)
      requires Valid() && k <= |timers|
      modifies this`timers, this`recs, created
      ensures Valid()
      ensures cbs == Callbacks(old(recs)[..k])
      ensures recs == Rearm(old(recs)[k..], old(recs)[..k], now)
    {
      ghost var all := recs;
      var expireds := timers[..k];
      CutPrefix(k);
      cbs := [];
      var i := 0;
      assert all[..0] == [] && expireds[0..] == expireds;
      while i < |expireds|
        invariant i <= |expireds| == k <= |all| && created == old(created)
        invariant ValidBut(Members(expireds[i..]))
        invariant forall j :: i <= j < k ==> expireds[j].Is(all[j])
        invariant cbs == Callbacks(all[..i])
        invariant recs == Rearm(all[k..], all[..i], now)
      {
        NextExpired(all, k, i, now);
        var cb := TakeNext(expireds[i], expireds, i, all, now);
        cbs := cbs + [cb];
        i := i + 1;
      }
      assert expireds[k..] == [];
    }
  }

  lemma NextExpired(all: seq<TimerRec>, k: nat, i: nat, now: nat)
    requires i < k <= |all|
    ensures Callbacks(all[..i + 1]) == Callbacks(all[..i]) + [all[i].cb]
    ensures var r := Rearm(all[k..], all[..i], now);
      Rearm(all[k..], all[..i + 1], now) == if all[i].recurring then Insert(r, all[i].(next := Deadline(now, all[i].ms))) else r
  {
    assert all[..i + 1] == all[..i] + [all[i]];
    RearmOne(all[k..], all[..i], all[i], now);
    CallbacksOne(all[..i], all[i]);
  }

  lemma SuffixKeeps(ts: seq<TimerRec>, k: nat)
    requires WellFormed(ts) && k <= |ts|
    ensures WellFormed(ts[k..])
  {
  }

  lemma NothingDue(q: TimerQueue, now: nat)
    requires q.timers != [] && !Rollover(q.previous, now) && q.timers[0].next > now
    ensures Expire(q, now) == ([], q.(previous := now))
  {
    assert q.timers[0..] == q.timers;
  }

  lemma ExpireIs(q: TimerQueue, now: nat, k: nat)
    requires q.timers != [] && k == ExpireCount(q, now)
    ensures Expire(q, now) == (Callbacks(q.timers[..k]), TimerQueue(Rearm(q.timers[k..], q.timers[..k], now), q.tickled, now))
  {
  }

  lemma LowerBoundIs(ts: seq<TimerRec>, key: TimerRec, k: nat)
    requires k <= |ts| && (forall i :: 0 <= i < k ==> Before(ts[i], key)) && (k < |ts| ==> !Before(ts[k], key))
    ensures LowerBound(ts, key) == k
  {
  }
}
