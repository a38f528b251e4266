/** IOManager's event table as objects updated in place, proved against the registry. */
module IOManager {
  import opened Common
  import opened Tasks
  import opened Reg = Registry

  /** What a call reports. Aborted stands for a failed assertion. */
  datatype Code = Ok | Failed | Aborted

  /** IOManager::FdContext. */
  class FdEntry {
    var events: Mask
    var read: EventContext
    var write: EventContext

    constructor ()
      ensures Is(EmptyFd)
    {
      events, read, write := NoEvents, EmptyContext, EmptyContext;
    }

    ghost predicate Is(c: FdContext)
      reads this
    {
      c == FdContext(events, read, write)
    }

    function Context(ev: Event): EventContext
      reads this
    {
      if ev == Read then read else write
    }

    method SetContext(ev: Event, c: EventContext)
      modifies this`read, this`write
      ensures FdContext(events, read, write) == FdContext(events, old(read), old(write)).SetContext(ev, c)
    {
      if ev == Read { read := c; } else { write := c; }
    }

    /** triggerEvent: clear the bit and hand the continuation over. */
    method TriggerEvent(ev: Event) returns (code: Code, woken: seq<Task>)
      modifies this
      ensures code != Failed
      ensures code == Aborted <==> !old(events).Has(ev) || !old(Context(ev)).hasScheduler
      ensures code == Ok ==>
        && woken == Woken(old(Context(ev)))
        && FdContext(events, read, write) == Spent(FdContext(old(events), old(read), old(write)), ev)
    {
      woken := [];
      if !events.Has(ev) {
        return Aborted, [];
      }
      events := events.Set(ev, false);
      var ctx := Context(ev);
      if !ctx.hasScheduler {
        return Aborted, [];
      }
      if ctx.cb.Some? {
        woken := [CbTask(ctx.cb.value)];
        SetContext(ev, ctx.(cb := None, hasScheduler := false));
      } else {
        if ctx.fiber.Some? {
          woken := [FiberTask(ctx.fiber.value)];
        }
        SetContext(ev, ctx.(fiber := None, hasScheduler := false));
      }
      code := Ok;
    }
  }

  class IOManager {
    var table: seq<FdEntry>
    var pending: int
    var scheduled: seq<Task>       // what the calls handed to Scheduler::schedule, in order
    ghost var reg: Registry

    /** The table and the counter are those of the registry. */
    ghost predicate Tabled()
      reads this, table
    {
      && |table| == |reg.fds| && pending == reg.pending
      && (forall i :: 0 <= i < |table| ==> table[i].Is(reg.fds[i]))
      && (forall i, j :: 0 <= i < j < |table| ==> table[i] != table[j])
    }

    /** Between calls the registry is consistent too: contexts, counter and kernel agree. */
    ghost predicate Valid()
      reads this, table
    {
      Tabled() && Consistent(reg)
    }

    /** The table's entries as values. */
    ghost function Rows(): (s: seq<FdContext>)
      reads this, table
      ensures |s| == |table|
      ensures Tabled() ==> s == reg.fds
    {
      seq(|table|, i requires 0 <= i < |table| reads this, table => FdContext(table[i].events, table[i].read, table[i].write))
    }

    /** Nothing in the table has changed, nor the counter, nor what was scheduled. */
    twostate predicate Untouched()
      reads this, table
    {
      Rows() == old(Rows()) && pending == old(pending) && scheduled == old(scheduled)
    }

    /** Event ev of descriptor fd is registered. */
    predicate Registered(fd: nat, ev: Event)
      reads this, table
    {
      fd < |table| && (if ev == Read then table[fd].events.read else table[fd].events.write)
    }

    constructor ()
      ensures Valid() && reg == Fresh && scheduled == []
    {
      FreshConsistent();
      table, pending, scheduled := [], 0, [];
      new;
      reg := Fresh;
      while |table| < 32
        invariant |table| <= 32 && reg == Fresh && pending == 0 && scheduled == []
        invariant forall i :: 0 <= i < |table| ==> fresh(table[i]) && table[i].Is(EmptyFd)
        invariant forall i, j :: 0 <= i < j < |table| ==> table[i] != table[j]
        decreases 32 - |table|
      {
        var e := new FdEntry();
        table := table + [e];
      }
    }

    /** The call did what the registry operation says. */
    ghost predicate Follows(code: Code, out: Outcome, before: seq<Task>)
      reads this, table
    {
      match out
      case Abort => code == Aborted
      case Refused(r) => code == Failed && Tabled() && reg == r && scheduled == before
      case Done(r, woken) => code == Ok && Tabled() && reg == r && scheduled == before + woken
    }

    /** contextResize: new entries fill the table up to the new size. */
    method ContextResize(size: nat)
      requires Tabled() && size >= |table|
      modifies this`table, this`reg
      ensures Tabled() && fresh(Members(table) - Members(old(table))) && old(table) <= table
      ensures reg == old(reg).(fds := old(reg).fds + seq(size - |old(table)|, i => EmptyFd))
    {
      ghost var extra: seq<FdContext> := [];
      while |table| < size
        invariant |table| == |old(table)| + |extra| <= size && old(table) <= table
        invariant Tabled() && reg == old(reg).(fds := old(reg).fds + extra)
        invariant forall i :: 0 <= i < |extra| ==> extra[i] == EmptyFd
        invariant forall i :: |old(table)| <= i < |table| ==> fresh(table[i])
        decreases size - |table|
      {
        var e := new FdEntry();
        table := table + [e];
        extra := extra + [EmptyFd];
        reg := reg.(fds := reg.fds + [EmptyFd]);
      }
      assert extra == seq(size - |old(table)|, i => EmptyFd);
    }

    /** epoll_ctl. The kernel is part of the specification; `ok` is its answer. */
    ghost method EpollCtl(fd: nat, op: CtlOp, mask: Mask, ok: bool)
      modifies this`reg
      ensures reg == Ctl(old(reg), fd, op, mask, ok)
    {
      reg := Ctl(reg, fd, op, mask, ok);
    }

    method AddEvent(fd: nat, ev: Event, k: Task, ok: bool) returns (code: Code)
      requires Valid()
      modifies this, table
      ensures Follows(code, Reg.AddEvent(old(reg), fd, ev, k, ok), old(scheduled))
      ensures code == Aborted <==> old(Registered(fd, ev))
      ensures code != Aborted ==> Valid() && scheduled == old(scheduled)
      ensures code == Ok <==> ok && !old(Registered(fd, ev))
      ensures code != Aborted ==>
        && |table| == (if fd < |old(table)| then |old(table)| else fd * 3 / 2)
        && forall i :: 0 <= i < |table| && i != fd ==> Rows()[i] == if i < |old(table)| then old(Rows())[i] else EmptyFd
      ensures code != Aborted ==>
        var before := if fd < |old(table)| then old(Rows())[fd] else EmptyFd;
        if code == Ok then Entered(before, Rows()[fd], ev, k) && pending == old(pending) + 1
        else Rows()[fd] == before && pending == old(pending)
    {
      AddConsistent(reg, fd, ev, k, ok);
      AddDoes(reg, fd, ev, k, ok);
      code := GrowAndRegister(fd, ev, k, ok);
    }

    method GrowAndRegister(fd: nat, ev: Event, k: Task, ok: bool) returns (code: Code)
      requires Tabled()
      modifies this, table
      ensures Follows(code, Reg.AddEvent(old(reg), fd, ev, k, ok), old(scheduled))
    {
      GrowFor(fd);
      code := Register(fd, ev, k, ok);
    }

    method GrowFor(fd: nat)
      requires Tabled()
      modifies this`table, this`reg
      ensures Tabled() && fd < |table| && fresh(Members(table) - Members(old(table)))
      ensures reg == Grow(old(reg), fd)
    {
      if fd >= |table| {
        ContextResize(fd * 3 / 2);
      }
    }

    /** addEvent on an fd that has its context. */
    method Register(fd: nat, ev: Event, k: Task, ok: bool) returns (code: Code)
      requires Tabled() && fd < |table|
      modifies this`reg, this`pending, table
      ensures Follows(code, Reg.AddEvent(old(reg), fd, ev, k, ok), old(scheduled))
    {
      var e := table[fd];
      if e.events.Has(ev) {
        return Aborted;
      }
      var events := e.events.Set(ev, true);
      EpollCtl(fd, if e.events == NoEvents then Add else Mod, events, ok);
      if !ok {
        return Failed;
      }
      pending := pending + 1;
      e.events := events;
      if e.Context(ev) != EmptyContext {
        return Aborted;
      }
      e.SetContext(ev, Holding(k));
      reg := reg.(fds := reg.fds[fd := FdContext(e.events, e.read, e.write)], pending := reg.pending + 1, added := reg.added + 1);
      return Ok;
    }

    method DelEvent(fd: nat, ev: Event, ok: bool) returns (code: Code)
      requires Valid()
      modifies this, table
      ensures Follows(code, Reg.DelEvent(old(reg), fd, ev, ok), old(scheduled))
      ensures code != Aborted && (code == Ok <==> ok && old(Registered(fd, ev)))
      ensures code != Aborted ==> Valid()
      ensures code == Ok ==>
        && OnlyAt(old(Rows()), Rows(), fd) && Cleared(old(Rows())[fd], Rows()[fd], Mask(ev == Read, ev == Write))
        && scheduled == old(scheduled) && pending == old(pending) - 1
      ensures code == Failed ==> Untouched()
    {
      DelConsistent(reg, fd, ev, ok);
      DelDoes(reg, fd, ev, ok);
      code := Delete(fd, ev, ok);
    }

    method Delete(fd: nat, ev: Event, ok: bool) returns (code: Code)
      requires Tabled()
      modifies this, table
      ensures Follows(code, Reg.DelEvent(old(reg), fd, ev, ok), old(scheduled))
    {
      if |table| <= fd || !table[fd].events.Has(ev) {
        return Failed;
      }
      var e := table[fd];
      var events := e.events.Set(ev, false);
      EpollCtl(fd, if events == NoEvents then Del else Mod, events, ok);
      if !ok {
        return Failed;
      }
      pending := pending - 1;
      e.events := events;
      e.SetContext(ev, EmptyContext);
      reg := reg.(fds := reg.fds[fd := FdContext(e.events, e.read, e.write)], pending := reg.pending - 1, deleted := reg.deleted + 1);
      return Ok;
    }

    /** triggerEvent on one descriptor, and --m_pendingEventCount. */
    method TriggerOne(fd: nat, ev: Event) returns (code: Code)
      requires Tabled() && fd < |table|
      modifies this`pending, this`scheduled, this`reg, table[fd]
      ensures Follows(code, Trigger(old(reg), fd, ev), old(scheduled))
    {
      var e := table[fd];
      var woken;
      code, woken := e.TriggerEvent(ev);
      if code == Ok {
        pending := pending - 1;
        scheduled := scheduled + woken;
        reg := Trigger(reg, fd, ev).reg;
      }
    }

    method CancelEvent(fd: nat, ev: Event, ok: bool) returns (code: Code)
      requires Valid()
      modifies this, table
      ensures Follows(code, Reg.CancelEvent(old(reg), fd, ev, ok), old(scheduled))
      ensures code != Aborted && (code == Ok <==> ok && old(Registered(fd, ev)))
      ensures code != Aborted ==> Valid()
      ensures code == Ok ==>
        var c := old(Rows())[fd];
        var gone := Mask(ev == Read, ev == Write);
        && FdOk(c) && OnlyAt(old(Rows()), Rows(), fd) && Cleared(c, Rows()[fd], gone)
        && scheduled == old(scheduled) + Both(c, gone) && pending == old(pending) - 1
      ensures code == Failed ==> Untouched()
    {
      CancelConsistent(reg, fd, ev, ok);
      CancelDoes(reg, fd, ev, ok);
      if |table| <= fd || !table[fd].events.Has(ev) {
        return Failed;
      }
      var events := table[fd].events.Set(ev, false);
      EpollCtl(fd, if events == NoEvents then Del else Mod, events, ok);
      if !ok {
        return Failed;
      }
      code := TriggerOne(fd, ev);
    }

    /** READ is triggered if registered, otherwise WRITE; anything left fails the assertion. */
    method CancelAll(fd: nat, ok: bool) returns (code: Code)
      requires Valid()
      modifies this, table
      ensures Follows(code, Reg.CancelAll(old(reg), fd, ok), old(scheduled))
      ensures code == Aborted <==> ok && old(Registered(fd, Read) && Registered(fd, Write))
      ensures code == Ok <==> ok && old(Registered(fd, Read) != Registered(fd, Write))
      ensures code != Aborted ==> Valid()
      ensures code == Ok ==>
        var c := old(Rows())[fd];
        && FdOk(c) && OnlyAt(old(Rows()), Rows(), fd) && Cleared(c, Rows()[fd], Mask(true, true))
        && scheduled == old(scheduled) + Both(c, c.events) && pending == old(pending) - 1
      ensures code == Failed ==> Untouched()
    {
      CancelAllConsistent(reg, fd, ok);
      CancelAllDoes(reg, fd, ok);
      if |table| <= fd || table[fd].events == NoEvents {
        return Failed;
      }
      EpollCtl(fd, Del, NoEvents, ok);
      if !ok {
        return Failed;
      }
      if table[fd].events.Has(Read) {
        code := TriggerOne(fd, Read);
      } else {
        code := TriggerOne(fd, Write);
      }
      if code == Ok && table[fd].events != NoEvents {
        code := Aborted;
      }
    }

    /** One delivered event in the loop of idle. */
    method DeliverOne(fd: nat, delivered: Mask, hangup: bool, ok: bool) returns (code: Code)
      requires Valid() && fd < |table|
      modifies this, table
      ensures Follows(code, Reg.Deliver(old(reg), fd, delivered, hangup, ok), old(scheduled))
      ensures code != Aborted ==> Valid()
      ensures
        var c := old(Rows())[fd];
        var r, w := delivered.read || hangup, delivered.write || (hangup && c.events.write);
        && (code == Ok <==> ok && (r || w) && (r ==> c.events.read) && (w ==> c.events.write))
        && (code == Aborted <==> ok && ((r && c.events.read && w && !c.events.write) || (w && c.events.write && r && !c.events.read)))
        && (code == Ok ==>
              && FdOk(c) && OnlyAt(old(Rows()), Rows(), fd) && Cleared(c, Rows()[fd], Mask(r, w))
              && scheduled == old(scheduled) + Both(c, Mask(r, w))
              && pending == old(pending) - (if r then 1 else 0) - (if w then 1 else 0))
      ensures code == Failed ==> Untouched()
    {
      DeliverConsistent(reg, fd, delivered, hangup, ok);
      DeliverDoes(reg, fd, delivered, hangup, ok);
      var e := table[fd];
      var in_, out := delivered.read, delivered.write;
      if hangup {
        in_ := true;
        out := out || e.events.write;
      }
      var acted := Mask(in_, out);
      if !e.events.Meets(acted) {
        return Failed;
      }
      var left := e.events.Minus(acted);
      EpollCtl(fd, if left == NoEvents then Del else Mod, left, ok);
      if !ok {
        return Failed;
      }
      code := TriggerActed(fd, acted);
    }

    method TriggerActed(fd: nat, acted: Mask) returns (code: Code)
      requires Tabled() && fd < |table|
      modifies this`pending, this`scheduled, this`reg, table[fd]
      ensures Follows(code, TriggerBoth(old(reg), fd, acted), old(scheduled))
    {
      code := Ok;
      if acted.read {
        code := TriggerOne(fd, Read);
      }
      if code == Ok && acted.write {
        code := TriggerOne(fd, Write);
      }
    }
  }
}
