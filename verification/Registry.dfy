/** The I/O event registry: per-descriptor contexts, the pending counter, and the
    kernel's interest map that they are meant to mirror. */
module Registry {
  import opened Common
  import opened Tasks

  /** A set of events: the bits READ and WRITE of m_events, and of an epoll mask. */
  datatype Mask = Mask(read: bool, write: bool) {
    predicate Has(ev: Event) { if ev == Read then read else write }
    function Set(ev: Event, on: bool): Mask {
      if ev == Read then Mask(on, write) else Mask(read, on)
    }
    function Bits(): nat { (if read then 1 else 0) + (if write then 1 else 0) }
    function Minus(m: Mask): Mask { Mask(read && !m.read, write && !m.write) }
    predicate Meets(m: Mask) { (read && m.read) || (write && m.write) }
    predicate Within(m: Mask) { (read ==> m.read) && (write ==> m.write) }
  }

  const NoEvents := Mask(false, false)

  /** Who is to be resumed by one event of one descriptor. */
  datatype EventContext = EventContext(hasScheduler: bool, fiber: Option<FiberId>, cb: Option<Callback>)

  const EmptyContext := EventContext(false, None, None)

  function Holding(k: Task): EventContext {
    match k
    case FiberTask(f) => EventContext(true, Some(f), None)
    case CbTask(c) => EventContext(true, None, Some(c))
  }

  datatype FdContext = FdContext(events: Mask, read: EventContext, write: EventContext) {
    function Context(ev: Event): EventContext { if ev == Read then read else write }
    function SetContext(ev: Event, c: EventContext): FdContext {
      if ev == Read then this.(read := c) else this.(write := c)
    }
  }

  const EmptyFd := FdContext(NoEvents, EmptyContext, EmptyContext)

  datatype CtlOp = Add | Mod | Del

  /** The registry together with the kernel's interest map. `legal` records whether every
      epoll_ctl so far was one the kernel accepts; `added`, `fired` and `deleted` count
      registrations, wakeups and deletions over the whole run. */
  datatype RawRegistry = Registry(
    fds: seq<FdContext>, pending: int,
    kernel: map<nat, Mask>, legal: bool,
    added: nat, fired: nat, deleted: nat)

  /** The table starts with 32 contexts and is never shrunk. */
  type Registry = r: RawRegistry | |r.fds| >= 32 witness Fresh

  /** Abort is a failed assertion in the program. */
  datatype Outcome =
    | Abort
    | Refused(reg: Registry)
    | Done(reg: Registry, woken: seq<Task>)

  const Fresh: RawRegistry := Registry(seq(32, i => EmptyFd), 0, map[], true, 0, 0, 0)

  function Ctl(r: Registry, fd: nat, op: CtlOp, mask: Mask, ok: bool): Registry {
    r.(legal := r.legal && (if op == Add then fd !in r.kernel else fd in r.kernel),
       kernel := if !ok then r.kernel else if op == Del then r.kernel - {fd} else r.kernel[fd := mask])
  }

  function Grow(r: Registry, fd: nat): (g: Registry)
    ensures fd < |g.fds|
  {
    if fd < |r.fds| then r
    else r.(fds := r.fds + seq(fd * 3 / 2 - |r.fds|, i => EmptyFd))
  }

  function AddEvent(r0: Registry, fd: nat, ev: Event, k: Task, ok: bool): Outcome {
    var r := Grow(r0, fd);
    var c := r.fds[fd];
    if c.events.Has(ev) then Abort
    else
      var events := c.events.Set(ev, true);
      var r1 := Ctl(r, fd, if c.events == NoEvents then Add else Mod, events, ok);
      if !ok then Refused(r1)
      else if c.Context(ev) != EmptyContext then Abort
      else Done(r1.(fds := r1.fds[fd := c.(events := events).SetContext(ev, Holding(k))],
                    pending := r1.pending + 1, added := r1.added + 1), [])
  }

  function DelEvent(r: Registry, fd: nat, ev: Event, ok: bool): Outcome {
    if fd >= |r.fds| || !r.fds[fd].events.Has(ev) then Refused(r)
    else
      var c := r.fds[fd];
      var events := c.events.Set(ev, false);
      var r1 := Ctl(r, fd, if events == NoEvents then Del else Mod, events, ok);
      if !ok then Refused(r1)
      else Done(r1.(fds := r1.fds[fd := c.(events := events).SetContext(ev, EmptyContext)],
                    pending := r1.pending - 1, deleted := r1.deleted + 1), [])
  }

  /** The continuation an event hands to its scheduler. */
  function Woken(ctx: EventContext): seq<Task> {
    if ctx.cb.Some? then [CbTask(ctx.cb.value)] else if ctx.fiber.Some? then [FiberTask(ctx.fiber.value)] else []
  }

  /** What triggerEvent leaves: the moving constructor of the list entry empties the field it took. */
  function Spent(c: FdContext, ev: Event): FdContext {
    var ctx := c.Context(ev);
    c.(events := c.events.Set(ev, false)).SetContext(ev,
      if ctx.cb.Some? then EventContext(false, ctx.fiber, None) else EmptyContext)
  }

  /** FdContext::triggerEvent followed by the decrement of the pending counter. */
  function Trigger(r: Registry, fd: nat, ev: Event): Outcome
    requires fd < |r.fds|
  {
    var c := r.fds[fd];
    var ctx := c.Context(ev);
    if !c.events.Has(ev) || !ctx.hasScheduler then Abort
    else
      Done(r.(fds := r.fds[fd := Spent(c, ev)], pending := r.pending - 1, fired := r.fired + |Woken(ctx)|), Woken(ctx))
  }

  function CancelEvent(r: Registry, fd: nat, ev: Event, ok: bool): Outcome {
    if fd >= |r.fds| || !r.fds[fd].events.Has(ev) then Refused(r)
    else
      var events := r.fds[fd].events.Set(ev, false);
      var r1 := Ctl(r, fd, if events == NoEvents then Del else Mod, events, ok);
      if !ok then Refused(r1) else Trigger(r1, fd, ev)
  }

  /** cancelAll triggers READ or else WRITE, then asserts that nothing is left. */
  function CancelAll(r: Registry, fd: nat, ok: bool): Outcome {
    if fd >= |r.fds| || r.fds[fd].events == NoEvents then Refused(r)
    else
      var r1 := Ctl(r, fd, Del, NoEvents, ok);
      if !ok then Refused(r1)
      else
        var out := Trigger(r1, fd, if r.fds[fd].events.read then Read else Write);
        if out.Done? && out.reg.fds[fd].events != NoEvents then Abort else out
  }

  /** The events the idle loop acts on. On error or hang-up the mask gains EPOLLIN in
      every case, and EPOLLOUT only when WRITE is registered. */
  function RealEvents(c: FdContext, delivered: Mask, hangup: bool): Mask {
    if hangup then Mask(true, delivered.write || c.events.write) else delivered
  }

  function TriggerBoth(r: Registry, fd: nat, acted: Mask): Outcome
    requires fd < |r.fds|
  {
    var first := if acted.read then Trigger(r, fd, Read) else Done(r, []);
    if !first.Done? || !acted.write then first
    else
      var second := Trigger(first.reg, fd, Write);
      if second.Done? then Done(second.reg, first.woken + second.woken) else second
  }

  /** One iteration of the delivery loop of idle. */
  function Deliver(r: Registry, fd: nat, delivered: Mask, hangup: bool, ok: bool): Outcome
    requires fd < |r.fds|
  {
    var c := r.fds[fd];
    var acted := RealEvents(c, delivered, hangup);
    if !c.events.Meets(acted) then Refused(r)
    else
      var left := c.events.Minus(acted);
      var r1 := Ctl(r, fd, if left == NoEvents then Del else Mod, left, ok);
      if !ok then Refused(r1) else TriggerBoth(r1, fd, acted)
  }

  // ---------- what every operation keeps ----------

  function BitCount(): FdContext -> nat { (c: FdContext) => c.events.Bits() }

  /** A registered event names a scheduler and exactly one continuation; an unregistered one, nothing. */
  predicate ContextOk(on: bool, ctx: EventContext) {
    if on then ctx.hasScheduler && (ctx.fiber.Some? <==> ctx.cb.None?) else ctx == EmptyContext
  }

  predicate FdOk(c: FdContext) {
    ContextOk(c.events.read, c.read) && ContextOk(c.events.write, c.write)
  }

  ghost predicate Mirrors(r: Registry) {
    && (forall fd: nat :: fd in r.kernel <==> fd < |r.fds| && r.fds[fd].events != NoEvents)
    && (forall fd: nat :: fd in r.kernel ==> r.kernel[fd] == r.fds[fd].events)
  }

  /** Contexts are consistent, the counter is exact, the kernel holds the same masks, no
      epoll_ctl was ever illegal, and registrations are conserved. */
  ghost predicate Consistent(r: Registry) {
    && (forall fd :: 0 <= fd < |r.fds| ==> FdOk(r.fds[fd]))
    && r.pending == Sum(r.fds, BitCount())
    && Mirrors(r)
    && r.legal
    && r.added == r.fired + r.deleted + r.pending
  }

  lemma FreshConsistent()
    ensures Consistent(Fresh)
  {
    SumZero(Fresh.fds, BitCount());
  }

  lemma GrowKeeps(r: Registry, fd: nat, weight: FdContext -> nat)
    requires weight(EmptyFd) == 0
    ensures Sum(Grow(r, fd).fds, weight) == Sum(r.fds, weight)
    ensures r.fds <= Grow(r, fd).fds
    ensures forall i :: |r.fds| <= i < |Grow(r, fd).fds| ==> Grow(r, fd).fds[i] == EmptyFd
  {
    if fd >= |r.fds| {
      var more := Grow(r, fd).fds[|r.fds|..];
      assert Grow(r, fd).fds == r.fds + more;
      SumConcat(r.fds, more, weight);
      SumZero(more, weight);
    }
  }

  lemma GrowConsistent(r: Registry, fd: nat)
    requires Consistent(r)
    ensures Consistent(Grow(r, fd))
  {
    GrowKeeps(r, fd, BitCount());
  }

  /** Replacing one context, with the kernel told the same mask, keeps the registry consistent. */
  lemma Replace(r: Registry, r': Registry, fd: nat, c: FdContext)
    requires Consistent(r) && fd < |r.fds| && FdOk(c)
    requires r'.fds == r.fds[fd := c]
    requires r'.kernel == if c.events == NoEvents then r.kernel - {fd} else r.kernel[fd := c.events]
    requires r'.pending == r.pending + c.events.Bits() - r.fds[fd].events.Bits()
    requires r'.legal && r'.added == r'.fired + r'.deleted + r'.pending
    ensures Consistent(r')
  {
    SumUpdate(r.fds, fd, c, BitCount());
  }

  lemma AddConsistent(r: Registry, fd: nat, ev: Event, k: Task, ok: bool)
    requires Consistent(r)
    ensures var out := AddEvent(r, fd, ev, k, ok);
      && (out.Abort? <==> fd < |r.fds| && r.fds[fd].events.Has(ev))
      && (!out.Abort? ==> Consistent(out.reg))
  {
    GrowKeeps(r, fd, BitCount());
    GrowConsistent(r, fd);
    var g := Grow(r, fd);
    assert FdOk(g.fds[fd]);
    var out := AddEvent(r, fd, ev, k, ok);
    if out.Done? {
      Replace(g, out.reg, fd, out.reg.fds[fd]);
    }
  }

  lemma DelConsistent(r: Registry, fd: nat, ev: Event, ok: bool)
    requires Consistent(r)
    ensures var out := DelEvent(r, fd, ev, ok); !out.Abort? && Consistent(out.reg)
  {
    var out := DelEvent(r, fd, ev, ok);
    if out.Done? {
      assert FdOk(r.fds[fd]);
      SumUpdate(r.fds, fd, out.reg.fds[fd], BitCount());
    }
  }

  /** A trigger of a registered event never aborts and wakes exactly its continuation. */
  lemma TriggerWakes(r: Registry, fd: nat, ev: Event)
    requires fd < |r.fds| && FdOk(r.fds[fd])
    ensures Trigger(r, fd, ev).Abort? <==> !r.fds[fd].events.Has(ev)
    ensures var out := Trigger(r, fd, ev); out.Done? ==>
      && out.woken == [if r.fds[fd].Context(ev).cb.Some? then CbTask(r.fds[fd].Context(ev).cb.value)
                       else FiberTask(r.fds[fd].Context(ev).fiber.value)]
      && out.reg == r.(fds := r.fds[fd := r.fds[fd].(events := r.fds[fd].events.Set(ev, false)).SetContext(ev, EmptyContext)],
                       pending := r.pending - 1, fired := r.fired + 1)
      && FdOk(out.reg.fds[fd])
  {
  }

  lemma CancelConsistent(r: Registry, fd: nat, ev: Event, ok: bool)
    requires Consistent(r)
    ensures var out := CancelEvent(r, fd, ev, ok); !out.Abort? && Consistent(out.reg)
  {
    var out := CancelEvent(r, fd, ev, ok);
    if fd < |r.fds| && r.fds[fd].events.Has(ev) && ok {
      var events := r.fds[fd].events.Set(ev, false);
      var r1 := Ctl(r, fd, if events == NoEvents then Del else Mod, events, ok);
      TriggerWakes(r1, fd, ev);
      SumUpdate(r.fds, fd, out.reg.fds[fd], BitCount());
    }
  }

  /** cancelAll aborts exactly when both events are registered (and epoll_ctl succeeded). */
  lemma CancelAllConsistent(r: Registry, fd: nat, ok: bool)
    requires Consistent(r)
    ensures var out := CancelAll(r, fd, ok);
      && (out.Abort? <==> ok && fd < |r.fds| && r.fds[fd].events == Mask(true, true))
      && (!out.Abort? ==> Consistent(out.reg))
  {
    var out := CancelAll(r, fd, ok);
    if fd < |r.fds| && r.fds[fd].events != NoEvents && ok {
      var ev := if r.fds[fd].events.read then Read else Write;
      var r1 := Ctl(r, fd, Del, NoEvents, ok);
      TriggerWakes(r1, fd, ev);
      if out.Done? {
        SumUpdate(r.fds, fd, out.reg.fds[fd], BitCount());
      }
    }
  }

  /** Delivery aborts exactly when it acts on something and the mask it acts on is not
      within the registered events. */
  lemma DeliverConsistent(r: Registry, fd: nat, delivered: Mask, hangup: bool, ok: bool)
    requires Consistent(r) && fd < |r.fds|
    ensures var out := Deliver(r, fd, delivered, hangup, ok);
      var on := r.fds[fd].events;
      var rd, wr := delivered.read || hangup, delivered.write || (hangup && on.write);
      && (out.Abort? <==> ok && ((rd && on.read && wr && !on.write) || (wr && on.write && rd && !on.read)))
      && (!out.Abort? ==> Consistent(out.reg))
  {
    var acted := RealEvents(r.fds[fd], delivered, hangup);
    var out := Deliver(r, fd, delivered, hangup, ok);
    if ok && r.fds[fd].events.Meets(acted) {
      var left := r.fds[fd].events.Minus(acted);
      var r1 := Ctl(r, fd, if left == NoEvents then Del else Mod, left, ok);
      TriggerWakes(r1, fd, Read);
      TriggerWakes(r1, fd, Write);
      if acted.read && r.fds[fd].events.read {
        TriggerWakes(Trigger(r1, fd, Read).reg, fd, Write);
      }
      if out.Done? {
        assert out.reg.fds == r.fds[fd := out.reg.fds[fd]];
        Replace(r, out.reg, fd, out.reg.fds[fd]);
      }
    }
  }

  /** A hang-up on a descriptor that waits only for WRITE aborts the program. */
  lemma HangupOnWriteAborts(r: Registry, fd: nat, delivered: Mask)
    requires Consistent(r) && fd < |r.fds| && r.fds[fd].events == Mask(false, true)
    ensures Deliver(r, fd, delivered, true, true).Abort?
  {
    DeliverConsistent(r, fd, delivered, true, true);
  }

  // ---------- what each call does, bit by bit ----------

  /** The one continuation of a registered event. */
  function Continuation(ctx: EventContext): Task
    requires ctx.fiber.Some? <==> ctx.cb.None?
  {
    if ctx.cb.Some? then CbTask(ctx.cb.value) else FiberTask(ctx.fiber.value)
  }

  /** The entry after events in `gone` have left it: their bits and contexts are cleared, and the
      others are as they were. */
  predicate Cleared(before: FdContext, after: FdContext, gone: Mask) {
    && after.events.read == (before.events.read && !gone.read)
    && after.events.write == (before.events.write && !gone.write)
    && after.read == (if gone.read then EmptyContext else before.read)
    && after.write == (if gone.write then EmptyContext else before.write)
  }

  /** The entry after event ev has been registered for continuation k. */
  predicate Entered(before: FdContext, after: FdContext, ev: Event, k: Task) {
    && after.events.read == (before.events.read || ev == Read)
    && after.events.write == (before.events.write || ev == Write)
    && (if ev == Read then after.read.hasScheduler && !before.events.read && after.write == before.write
        else after.write.hasScheduler && !before.events.write && after.read == before.read)
    && var ctx := if ev == Read then after.read else after.write;
       match k
       case FiberTask(f) => ctx.fiber == Some(f) && ctx.cb == None
       case CbTask(c) => ctx.fiber == None && ctx.cb == Some(c)
  }

  /** No entry but fd's has changed. */
  ghost predicate OnlyAt(before: seq<FdContext>, after: seq<FdContext>, fd: nat) {
    |after| == |before| && forall i :: 0 <= i < |before| && i != fd ==> after[i] == before[i]
  }

  /** The continuations of the events in m that a consistent entry holds, READ before WRITE. */
  function Both(c: FdContext, m: Mask): seq<Task>
    requires FdOk(c) && m.Within(c.events)
  {
    (if m.read then [Continuation(c.read)] else []) + (if m.write then [Continuation(c.write)] else [])
  }

  lemma DelDoes(r: Registry, fd: nat, ev: Event, ok: bool)
    requires Consistent(r)
    ensures var out := DelEvent(r, fd, ev, ok);
      && (out.Done? <==> ok && fd < |r.fds| && (if ev == Read then r.fds[fd].events.read else r.fds[fd].events.write))
      && (out.Done? ==>
            && OnlyAt(r.fds, out.reg.fds, fd) && Cleared(r.fds[fd], out.reg.fds[fd], Mask(ev == Read, ev == Write))
            && out.woken == [] && out.reg.pending == r.pending - 1)
      && (!out.Done? ==> out.Refused? && out.reg.fds == r.fds && out.reg.pending == r.pending)
  {
  }

  lemma CancelDoes(r: Registry, fd: nat, ev: Event, ok: bool)
    requires Consistent(r)
    ensures var out := CancelEvent(r, fd, ev, ok);
      && (out.Done? <==> ok && fd < |r.fds| && (if ev == Read then r.fds[fd].events.read else r.fds[fd].events.write))
      && (out.Done? ==>
            && FdOk(r.fds[fd]) && OnlyAt(r.fds, out.reg.fds, fd) && Cleared(r.fds[fd], out.reg.fds[fd], Mask(ev == Read, ev == Write))
            && out.woken == Both(r.fds[fd], Mask(ev == Read, ev == Write)) && out.reg.pending == r.pending - 1)
      && (!out.Done? ==> out.Refused? && out.reg.fds == r.fds && out.reg.pending == r.pending)
  {
    if fd < |r.fds| { assert FdOk(r.fds[fd]); }
  }

  /** cancelAll takes out the one event that is registered. */
  lemma CancelAllDoes(r: Registry, fd: nat, ok: bool)
    requires Consistent(r)
    ensures var out := CancelAll(r, fd, ok);
      && (out.Done? <==> ok && fd < |r.fds| && r.fds[fd].events.read != r.fds[fd].events.write)
      && (out.Done? ==>
            && FdOk(r.fds[fd]) && OnlyAt(r.fds, out.reg.fds, fd) && Cleared(r.fds[fd], out.reg.fds[fd], Mask(true, true))
            && out.woken == Both(r.fds[fd], r.fds[fd].events) && out.reg.pending == r.pending - 1)
      && (out.Refused? ==> out.reg.fds == r.fds && out.reg.pending == r.pending)
  {
    if fd < |r.fds| { assert FdOk(r.fds[fd]); }
  }

  lemma AddDoes(r: Registry, fd: nat, ev: Event, k: Task, ok: bool)
    requires Consistent(r)
    ensures var out := AddEvent(r, fd, ev, k, ok);
      && (out.Done? <==> ok && !(fd < |r.fds| && (if ev == Read then r.fds[fd].events.read else r.fds[fd].events.write)))
      && (!out.Abort? ==>
            && |out.reg.fds| == (if fd < |r.fds| then |r.fds| else fd * 3 / 2)
            && (forall i :: 0 <= i < |out.reg.fds| && i != fd ==> out.reg.fds[i] == if i < |r.fds| then r.fds[i] else EmptyFd))
      && (out.Done? ==>
            && Entered(if fd < |r.fds| then r.fds[fd] else EmptyFd, out.reg.fds[fd], ev, k)
            && out.woken == [] && out.reg.pending == r.pending + 1)
      && (out.Refused? ==>
            && out.reg.fds[fd] == (if fd < |r.fds| then r.fds[fd] else EmptyFd) && out.reg.pending == r.pending)
  {
    GrowKeeps(r, fd, BitCount());
    if fd < |r.fds| { assert FdOk(r.fds[fd]); }
  }

  /** A delivery hands over exactly the delivered events that are registered, READ first; an error
      or hang-up counts as READ, and as WRITE if WRITE is registered. */
  lemma DeliverDoes(r: Registry, fd: nat, delivered: Mask, hangup: bool, ok: bool)
    requires Consistent(r) && fd < |r.fds|
    ensures var out := Deliver(r, fd, delivered, hangup, ok);
      var c := r.fds[fd];
      var m := Mask(delivered.read || hangup, delivered.write || (hangup && c.events.write));
      && (out.Done? <==> ok && (m.read || m.write) && (m.read ==> c.events.read) && (m.write ==> c.events.write))
      && (out.Done? ==>
            && FdOk(c) && OnlyAt(r.fds, out.reg.fds, fd) && Cleared(c, out.reg.fds[fd], m)
            && out.woken == Both(c, m) && out.reg.pending == r.pending - (if m.read then 1 else 0) - (if m.write then 1 else 0))
      && (out.Refused? ==> out.reg.fds == r.fds && out.reg.pending == r.pending)
  {
    assert FdOk(r.fds[fd]);
  }

  // ---------- wakeups held by the registry ----------

  function ContextWakes(ctx: EventContext, f: FiberId): nat {
    (if ctx.fiber == Some(f) then 1 else 0) + (if ctx.cb.Some? then CallbackWakes(ctx.cb.value, f) else 0)
  }

  function FdTokens(f: FiberId): FdContext -> nat {
    (c: FdContext) => ContextWakes(c.read, f) + ContextWakes(c.write, f)
  }

  function Tokens(r: Registry, f: FiberId): nat { Sum(r.fds, FdTokens(f)) }

  lemma AddTokens(r: Registry, fd: nat, ev: Event, k: Task, ok: bool, f: FiberId)
    requires Consistent(r)
    ensures var out := AddEvent(r, fd, ev, k, ok);
      && (out.Refused? ==> Tokens(out.reg, f) == Tokens(r, f))
      && (out.Done? ==> Tokens(out.reg, f) == Tokens(r, f) + TaskWakes(k, f))
  {
    GrowKeeps(r, fd, FdTokens(f));
    var g := Grow(r, fd);
    var out := AddEvent(r, fd, ev, k, ok);
    if out.Done? {
      SumUpdate(g.fds, fd, out.reg.fds[fd], FdTokens(f));
    }
  }

  /** Deleting an event loses exactly the wakeups its context held. */
  lemma DelTokens(r: Registry, fd: nat, ev: Event, ok: bool, f: FiberId)
    requires Consistent(r)
    ensures var out := DelEvent(r, fd, ev, ok);
      Tokens(out.reg, f) + (if out.Done? then ContextWakes(r.fds[fd].Context(ev), f) else 0) == Tokens(r, f)
  {
    var out := DelEvent(r, fd, ev, ok);
    if out.Done? {
      SumUpdate(r.fds, fd, out.reg.fds[fd], FdTokens(f));
    }
  }

  lemma TriggerTokens(r: Registry, fd: nat, ev: Event, f: FiberId)
    requires fd < |r.fds| && FdOk(r.fds[fd])
    ensures var out := Trigger(r, fd, ev);
      out.Done? ==> Tokens(out.reg, f) + Sum(out.woken, TaskTokens(f)) == Tokens(r, f)
  {
    TriggerWakes(r, fd, ev);
    var out := Trigger(r, fd, ev);
    if out.Done? {
      SumUpdate(r.fds, fd, out.reg.fds[fd], FdTokens(f));
      SumOne(out.woken[0], TaskTokens(f));
    }
  }

  lemma CancelTokens(r: Registry, fd: nat, ev: Event, ok: bool, f: FiberId)
    requires Consistent(r)
    ensures var out := CancelEvent(r, fd, ev, ok);
      && (out.Refused? ==> Tokens(out.reg, f) == Tokens(r, f))
      && (out.Done? ==> Tokens(out.reg, f) + Sum(out.woken, TaskTokens(f)) == Tokens(r, f))
  {
    if fd < |r.fds| && r.fds[fd].events.Has(ev) && ok {
      var events := r.fds[fd].events.Set(ev, false);
      TriggerTokens(Ctl(r, fd, if events == NoEvents then Del else Mod, events, ok), fd, ev, f);
    }
  }

  lemma CancelAllTokens(r: Registry, fd: nat, ok: bool, f: FiberId)
    requires Consistent(r)
    ensures var out := CancelAll(r, fd, ok);
      && (out.Refused? ==> Tokens(out.reg, f) == Tokens(r, f))
      && (out.Done? ==> Tokens(out.reg, f) + Sum(out.woken, TaskTokens(f)) == Tokens(r, f))
  {
    if fd < |r.fds| && r.fds[fd].events != NoEvents && ok {
      TriggerTokens(Ctl(r, fd, Del, NoEvents, ok), fd, if r.fds[fd].events.read then Read else Write, f);
    }
  }

  lemma DeliverTokens(r: Registry, fd: nat, delivered: Mask, hangup: bool, ok: bool, f: FiberId)
    requires Consistent(r) && fd < |r.fds|
    ensures var out := Deliver(r, fd, delivered, hangup, ok);
      && (out.Refused? ==> Tokens(out.reg, f) == Tokens(r, f))
      && (out.Done? ==> Tokens(out.reg, f) + Sum(out.woken, TaskTokens(f)) == Tokens(r, f))
  {
    var acted := RealEvents(r.fds[fd], delivered, hangup);
    if ok && r.fds[fd].events.Meets(acted) {
      var left := r.fds[fd].events.Minus(acted);
      var r1 := Ctl(r, fd, if left == NoEvents then Del else Mod, left, ok);
      var first := if acted.read then Trigger(r1, fd, Read) else Done(r1, []);
      TriggerTokens(r1, fd, Read, f);
      TriggerWakes(r1, fd, Read);
      if first.Done? && acted.write {
        TriggerTokens(first.reg, fd, Write, f);
        var second := Trigger(first.reg, fd, Write);
        if second.Done? {
          SumConcat(first.woken, second.woken, TaskTokens(f));
        }
      }
    }
  }
}
