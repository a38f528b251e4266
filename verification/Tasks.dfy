/** What a worker can be asked to run: a suspended fiber or a callback. */
module Tasks {
  type FiberId = nat

  datatype Event = Read | Write

  /** The callbacks that exist in the system, by what they will do. */
  datatype Callback =
    | UserTask(id: nat)                                  // an application closure
    | WakeSleeper(sleeper: FiberId)                      // bound by sleep: schedule(sleeper)
    | IoTimeout(op: nat, fd: nat, event: Event)          // bound by do_io: mark op, cancelEvent(fd, event)

  datatype Task =
    | FiberTask(fiber: FiberId)
    | CbTask(cb: Callback)

  /** How many schedule(f) calls a callback or a task still owes fiber f. */
  function CallbackWakes(c: Callback, f: FiberId): nat {
    if c == WakeSleeper(f) then 1 else 0
  }

  function TaskWakes(t: Task, f: FiberId): nat {
    match t
    case FiberTask(g) => if g == f then 1 else 0
    case CbTask(c) => CallbackWakes(c, f)
  }

  function CallbackTokens(f: FiberId): Callback -> nat {
    (c: Callback) => CallbackWakes(c, f)
  }

  function TaskTokens(f: FiberId): Task -> nat {
    (t: Task) => TaskWakes(t, f)
  }
}
