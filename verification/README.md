# HCServer, modelled and proved in Dafny

HCServer is a C++ server framework built on fibers. This project models three parts of it and
proves what they are for.

1. **The runtime.** N worker threads run `Scheduler::run` over one task list; `IOManager` keeps READ
   and WRITE registrations per descriptor, mirrored in epoll; `TimerManager` keeps a set of timers
   ordered by deadline. A suspended fiber passes between these three places until a worker resumes
   it. `Runtime.dfy` is one step system over all of them: a worker is a program counter, and each
   block under one lock is one step. `Guarantees.dfy`, `Shutdown.dfy` and `LostTimeouts.dfy` hold the
   theorems over all its runs, `Wakeup.dfy` and `Timeouts.dfy` the invariants behind them, and
   `Scenarios.dfy` runs that show what can happen. `Behaviour.dfy` and `Handover.dfy` say what a step can
   do to each fiber, call, worker, timer, list entry and registration, in terms of the states alone, and
   `Timing.dfy` what that means over runs: nothing happens before its deadline or without its event. `TaskQueue`, `Registry`, `Timers` and `TimerWatch`
   are its parts as values; `Scheduler.dfy`, `IOManager.dfy` and `TimerManager.dfy` are the same
   operations as classes that update their fields, each method proved equal to the function on values
   and, besides, to do to the fields what the source promises.
2. **ByteArray and the streams over it.** `ByteArray.dfy` is the linked list of fixed-size blocks
   with its cached current block; every method is proved to act as its counterpart on the flat
   buffer of `Flat.dfy`. `Codec`, `Message` and `FieldIO` are the typed reads and writes over it;
   `Streams.dfy` the fixed-size transfers over a socket that may move as little as it likes per call.
3. **The HTTP client.** `ChunkLines` and `Chunked` are the chunked-body decoder (section 7.1 of
   RFC 9112), `Pool` and `ConnectionPool` the connection pool.

`dafny verify dfyconfig.toml` checks everything.

## Results that differ from what one might expect

Each is a theorem that gives the exact condition.

- Stopping drains every fiber in every run if and only if there is one worker thread
  (`Shutdown.DrainsExactlyWithOneWorker`). Unpinned *tasks* are never abandoned, with any number of
  workers (`Shutdown.EveryTaskTaken`), but with two or more a fiber may go to sleep after all other
  workers have already been told to leave.
- `cancelAll` fails its assertion if and only if both events are registered and epoll agrees
  (`Registry.CancelAllConsistent`). A delivery fails it if and only if it acts outside the
  registered events (`Registry.DeliverConsistent`), which a hang-up on a descriptor waiting only for
  WRITE always does (`Registry.HangupOnWriteAborts`, reached from the start in
  `Scenarios.HangupAbortRun`). These and a double registration are the only
  assertions that can fail in any run (`Guarantees.AbortsExactlyWhenFaulty`).
- `do_io` arms its timeout before it registers for the event. A timeout that comes and goes in
  between is lost: the fiber then waits without one (`Scenarios.TimeoutLostRun`). A waiting fiber's
  timeout is lost exactly by such a registration or by epoll refusing the cancellation
  (`LostTimeouts.NoTimeoutLostExactly`); otherwise it is still to come or being carried out
  (`LostTimeouts.AliveOrLost`). Such a registration is possible if and only if there are at least two
  workers (`Scenarios.LosesExactlyWithSeveral`).
- `refresh` and the re-insertion of recurring timers bypass the front-insert hook. Over every run,
  with any number of pollers and any clock, no wakeup is missed if and only if each timer put back
  that way goes to no earlier time than each untickled poller waits for
  (`TimerWatch.NeverMissedExactly`). A monotone clock without 64-bit overflow is enough
  (`TimerWatch.NeverMissed`); a deadline that wraps is not harmless (`TimerWatch.OverflowMisses`,
  `TimerWatch.RecurringMisses`).
- A written message reads back if and only if no string length was cut by its prefix and the message
  does not end in an empty string on a block boundary at or past the old capacity, where `read`
  dereferences a null block (`FieldIO.RoundTrip`).
- `writeToFile` works if and only if the position starts a block, at least a block is readable, or
  nothing is (`ByteArray.ByteArray.WriteToFile`). The positional `read` is right if and only if it
  starts in the current block (`Flat.PositionalReadExact`).
- A chunk-size line that is cut by a refill is read right if and only if what is left begins with a
  number that the parser takes for the size (`Chunked.CutAnyLine`); without extensions, if the cut left
  a digit and lost only zeros (`Chunked.CutLine`).
- The chunk-size lines the parser accepts for n are exactly the spellings of n in base 16, in either
  case and with any zeros in front, with any extensions and either line end (`ChunkLines.EverySpelling`,
  `ChunkLines.OnlySpellings`).
- No connection of the pool is ever too old: nothing sets its time of creation, so the maximum age plays
  no part once the clock is past 2^32 milliseconds (`ConnectionPool.NeverTooOld`).
- The pool's maximum size bounds the idle connections if and only if connections are not reused
  (`Pool.IdleBoundedExactly`): it is stored and never consulted.

## Modelling choices

- Assertions of the source are an aborted state (or an `Abort` outcome), not preconditions; exceptions
  and null dereferences of the modelled calls are values (`ReadResult`, `Outcome`, `Decoded`).
- The kernel's epoll table is a ghost map from descriptor to mask. ADD is legal only if the
  descriptor is absent, MOD and DEL only if present; any call may fail and change nothing.
- A yield to HOLD is one step, from the state write to the end of `run`'s bookkeeping. A yield to
  READY is two: the decrement of the active counter, and the re-queue. The three reads in
  `IOManager::stopping` (next timer, pending events, `Scheduler::stopping`) are three steps.
- Tasks come from outside only before `stop()`; a running task may schedule at any time.
- `addEvent` and `listExpiredCb` are one step each. A timer's address is its order of creation;
  nothing depends on which (`Timers.ProbeCounts`).
- Products, quotients and remainders by the block size are defined by repeated addition
  (`Flat.Times`, `Index`, `Offset`); `Flat.ArithmeticMeaning` says they are the usual ones.
- The byte order of the host is a parameter of every fixed-width read and write.
- Code that the source repeats (the walk along the blocks, the memory moves) is shared.

The step functions of `Runtime.dfy` and where each comes from:

| step | source |
|---|---|
| DoPick | HCServer/scheduler.cc:158-190 |
| DoBegin, Resume, StartFresh, StartCached | HCServer/scheduler.cc:191-222 |
| DoYieldReady, DoResched | HCServer/fiber.cc:190-196, HCServer/scheduler.cc:194-197 |
| DoFinish | HCServer/fiber.cc:212-245, HCServer/scheduler.cc:194-224 |
| DoEnterIdle, DoLeaveIdle | HCServer/scheduler.cc:226-243 |
| DoCheckTimers, DoCheckPending, DoCheckStopping | HCServer/iomanager.cc:283-292 |
| DoListExpired, DoScheduleExpired, DoDeliver | HCServer/iomanager.cc:328-382 |
| DoIoBegin, DoIoReturn, DoIoAgain, DoIoRegister, DoSuspend, DoIoCancelTimer, DoIoTest | HCServer/hook.cc:137-193 |
| DoRunTimeout, DoRunCancel | HCServer/hook.cc:156-165 |
| DoSleepBegin, DoRunWake | HCServer/hook.cc:204-216 |

## Model

| member | source | states |
|---|---|---|
| Guarantees.SingleWakeup | HCServer/hook.cc:137-193 | in every reachable state a suspended fiber has exactly one wake token (list entry, registration, pending timer, or callback on its way) and no runner; an executing one has exactly one runner, and a token only once its wait is armed; a finished one has neither; no two workers run one fiber |
| Guarantees.EnqueuedOnce | HCServer/scheduler.cc:163-202 | no fiber is in the list twice, so readiness and timeout together enqueue it once |
| Guarantees.ThreadCounters | HCServer/scheduler.cc:158-255 | both thread counters equal the number of workers in the counted region and never underflow; when `stopping()` holds the list is empty and no worker holds or runs a task |
| Guarantees.RegistryMirrorsKernel | HCServer/iomanager.cc:108-228 | in every reachable state contexts, pending counter, kernel masks and conservation of registrations agree, and no epoll call was illegal |
| Guarantees.AbortsExactlyWhenFaulty | HCServer/iomanager.cc:39-382 | a step fails an assertion iff it registers an event twice, cancels all with both registered, or delivers outside the registered events |
| Wakeup.ReachableInv | HCServer/scheduler.cc:143-244 | the invariant behind these theorems holds after every run of every step |
| Wakeup.StepKeeps | HCServer/scheduler.cc:143-244 | every step of every worker keeps it |
| Wakeup.PickKeeps | HCServer/scheduler.cc:158-190 | taking a task moves its token from the list to the worker and counts the worker active |
| Wakeup.BeginKeeps | HCServer/scheduler.cc:191-222 | starting or resuming the task taken, by a fresh or the cached callback fiber, keeps the invariant and never fails |
| Wakeup.FinishKeeps | HCServer/fiber.cc:212-245 | the end of a fiber, normal or by exception, keeps it |
| Wakeup.SuspendKeeps | HCServer/fiber.cc:198-204 | suspending keeps it: the token armed before is the one that remains |
| Wakeup.ListExpiredKeeps | HCServer/timer.cc:143-184 | expiry hands the tokens of due timers to the worker that will schedule them |
| Wakeup.ScheduleExpiredKeeps | HCServer/iomanager.cc:328-334 | scheduling the expired callbacks moves their tokens to the list |
| Wakeup.IoRegisterKeeps | HCServer/hook.cc:168-177 | registering for an event creates the one token, or the timer is cancelled and none remains |
| Wakeup.RunCancelKeeps | HCServer/hook.cc:156-165 | the timeout wakes the waiter only through the registration it cancels, never besides it |
| Timeouts.TimeoutPending | HCServer/hook.cc:139-192 | in every reachable state a fiber waiting in do_io whose call is not marked has its timeout still to come: its timer is set, or its callback is listed, held by a worker or about to make its test |
| Timeouts.StepKeeps | HCServer/hook.cc:139-192 | every step keeps the invariant behind it: calls alive and unshared, timeouts for the right event, at most one cancellation per call |
| LostTimeouts.LostExactly | HCServer/hook.cc:154-168 | a step leaves a waiting fiber's timeout lost iff it was lost before, or the fiber registers after its timeout has come and gone, or epoll refuses the timeout's cancellation |
| LostTimeouts.AliveOrLost | HCServer/hook.cc:154-183 | a waiting fiber's timeout is still to come, or is being carried out, or is lost |
| LostTimeouts.NoTimeoutLostExactly | HCServer/hook.cc:154-183 | a whole run loses no timeout iff it contains neither of those two steps |
| Timing.NeverTimedOutEarly | HCServer/hook.cc:154-189 | in every run a call marked as timed out has set a timeout, and later the clock was read at or past its deadline, or set back, before the call was marked |
| Timing.WaitsForDelivery | HCServer/hook.cc:168-190 | a fiber registered by do_io stays there through any run in which its event, on its descriptor, is neither delivered nor cancelled |
| Timing.SleepsItsTime | HCServer/hook.cc:204-247 | a fiber that sleeps for ms from now is still asleep after any run in which no clock reading makes (now + ms) mod 2^64 due |
| Behaviour.CallEndsExactly | HCServer/hook.cc:139-193 | in every reachable state, whatever the step: a fiber inside do_io leaves it iff it returns its result, its registration is refused, or it makes its test with its call marked, and its call is over then; otherwise it goes on to the next stage of the same call, event and descriptor, and back to the start from the test when not marked |
| Behaviour.MarkedExactly | HCServer/hook.cc:137-189 | a call is marked iff it was or its own timeout makes its test; it begins unmarked with do_io and disappears only when its fiber leaves do_io |
| Behaviour.AliveExactly | HCServer/hook.cc:137-162 | the record of a call is alive exactly while a fiber is inside that call |
| Behaviour.EveryFiberMoves | HCServer/fiber.cc:129-245 | in every reachable state each fiber moves only by its own step or by being switched to, and its state and place change exactly as those of a fiber that yields, suspends, ends, sleeps, waits or is started do |
| Behaviour.EveryWorkerMoves | HCServer/scheduler.cc:143-244 | each step moves one worker at most, along the loops of run and idle, whose branches depend on the list, the timers, the pending events and stop as said; and only stop() stops |
| Behaviour.FibersAppear | HCServer/scheduler.cc:204-218 | a fiber is made by the application, or for a callback when the worker keeps none |
| Behaviour.EnabledExactly | HCServer/scheduler.cc:143-244 | which steps can be taken in a reachable state: those the program counters, the phases and stop allow, and all of them |
| Handover.EveryTimerMoves | HCServer/timer.cc:104-184 | timers are set by addTimer, sleep and do_io alone, for (now + ms) mod 2^64; they go by expiring, or when the call that set them is over or given up; on expiry the worker holds exactly the callbacks of those due |
| Handover.EveryTaskHanded | HCServer/scheduler.cc:158-190 | each step appends to the list exactly the tasks that it schedules, in order, with the thread asked for; only a pick takes an entry, the first that is for that worker or anyone and whose fiber is not executing |
| Handover.WaitsForItsEvent | HCServer/hook.cc:168-190 | each registered fiber waits in do_io for that very event and descriptor; it is registered by its own call and taken out iff that event is delivered or cancelled |
| Scenarios.TimeoutLostRun | HCServer/hook.cc:154-168 | with any two or more workers a run to a state in which a fiber waits, its timeout elapsed and run, and nothing is left that could wake it but the event |
| Scenarios.LosesExactlyWithSeveral | HCServer/hook.cc:154-168 | a registration can lose a timeout iff there are at least two workers |
| Scenarios.HangupAbortRun | HCServer/iomanager.cc:347-381 | with any number of workers a run from the start in which a hang-up fails the assertion |
| Shutdown.OnlyPinnedLeftBehind | HCServer/scheduler.cc:143-255 | once every worker has left `run`, any entry still listed is pinned to one thread, though `stopping()` may be true between a decrement and a re-queue |
| Shutdown.EveryTaskTaken | HCServer/scheduler.cc:143-255 | if nothing was pinned, the list is then empty and every task ever scheduled was taken |
| Shutdown.SingleWorkerDrains | HCServer/iomanager.cc:283-292 | with one worker no task, timer or registration is left and every fiber has finished |
| Shutdown.ManyWorkersAbandon | HCServer/iomanager.cc:283-292 | with any larger number there is a run that leaves a sleeping fiber and its timer behind |
| Shutdown.DrainsExactlyWithOneWorker | HCServer/iomanager.cc:283-312 | stopping drains all fibers in all runs iff there is one worker |
| TaskQueue.PushKeeps | HCServer/scheduler.h:84-92 | a new entry gets an unused ticket; every ticket issued is either waiting or taken, not both |
| TaskQueue.TakeKeeps | HCServer/scheduler.cc:164-185 | an entry is removed at most once; all others stay, in order, and no index grows |
| TaskQueue.TakenWithin | HCServer/scheduler.cc:164-185 | an entry at index k whose fiber is not executing is taken within k + 1 picks by the threads that may run it, its own or any, whoever else picks and whatever is appended |
| TaskQueue.TakenByItsThread | HCServer/scheduler.cc:163-185 | over every run of appends and picks, what was appended for one thread is taken by no other, and no fiber is taken while it executes |
| TaskQueue.PushAllAppends | HCServer/scheduler.h:56-72 | a batch is appended at the back, in order, for any thread, with consecutive tickets |
| Scheduler.Scheduler.ScheduleNoLock | HCServer/scheduler.h:84-92 | the list is the old one with one more entry of exactly this task and thread, or the old one for an empty handle; reports whether it was empty |
| Scheduler.Scheduler.ScheduleAll | HCServer/scheduler.h:56-72 | the list is the old one with all the tasks behind it, in order, each for any thread; reports whether the list was empty before |
| Scheduler.Scheduler.TakeTask | HCServer/scheduler.cc:163-188 | passes every entry for another thread or whose fiber executes, and removes the next one, for which the thread then counts as a holder; asks for a tickle iff it passed an entry for another thread; the counter always equals the number of holders |
| Scheduler.Scheduler.Stopping | HCServer/scheduler.cc:251-255 | true iff stop was asked for, every task ever scheduled has been taken, and every thread that took one has let go of it |
| Scheduler.Scheduler.LetGo | HCServer/scheduler.cc:195-225 | the decrement matches one take of the same thread |
| Registry.AddConsistent | HCServer/iomanager.cc:108-158 | addEvent aborts iff the event is already registered; otherwise, failed epoll call or not, the registry stays consistent |
| Registry.DelConsistent | HCServer/iomanager.cc:160-195 | delEvent never aborts and keeps consistency |
| Registry.TriggerWakes | HCServer/iomanager.cc:32-52 | triggering aborts iff the event is not registered, and otherwise wakes exactly its continuation and clears it |
| Registry.CancelConsistent | HCServer/iomanager.cc:197-228 | cancelEvent never aborts and keeps consistency |
| Registry.CancelAllConsistent | HCServer/iomanager.cc:230-267 | cancelAll aborts iff both events are registered; otherwise consistency is kept |
| Registry.DeliverConsistent | HCServer/iomanager.cc:337-382 | delivery aborts iff among the events delivered, with hang-up counted as READ and as WRITE if that is registered, one is registered and one is not; otherwise consistency is kept |
| Registry.HangupOnWriteAborts | HCServer/iomanager.cc:347-381 | a hang-up on a descriptor waiting only for WRITE aborts |
| Registry.AddDoes | HCServer/iomanager.cc:108-158 | addEvent sets that one bit and context, grows the table to fd * 3 / 2 when it must, and changes no other entry; it fails or aborts without registering |
| Registry.DelDoes | HCServer/iomanager.cc:160-195 | delEvent clears that one bit and context and schedules nothing |
| Registry.CancelDoes | HCServer/iomanager.cc:197-228 | cancelEvent clears that one bit and context and schedules the one continuation registered there |
| Registry.CancelAllDoes | HCServer/iomanager.cc:230-267 | cancelAll succeeds iff one event is registered, and does so for that one |
| Registry.DeliverDoes | HCServer/iomanager.cc:337-382 | delivery clears exactly the bits and contexts delivered and schedules exactly their continuations, READ before WRITE, hang-up counted as above; other entries stay |
| Registry.AddTokens | HCServer/iomanager.cc:137-157 | a successful addEvent adds exactly its continuation's wake token |
| Registry.CancelTokens | HCServer/iomanager.cc:197-228 | cancelEvent passes tokens on to the tasks it schedules, losing and doubling none |
| Registry.CancelAllTokens | HCServer/iomanager.cc:230-267 | so does cancelAll |
| Registry.DeliverTokens | HCServer/iomanager.cc:337-382 | so does delivery |
| IOManager.IOManager.ContextResize | HCServer/iomanager.cc:97-106 | growth appends empty contexts and changes no other |
| IOManager.IOManager.AddEvent | HCServer/iomanager.cc:108-158 | on the fields: aborts iff registered; otherwise the table has fd * 3 / 2 entries if it had to grow, with empty new ones, and on success exactly this event of fd has the continuation; nothing is scheduled |
| IOManager.IOManager.DelEvent | HCServer/iomanager.cc:160-195 | on the fields: succeeds iff registered and epoll agrees, and then clears that event alone; otherwise nothing changes |
| IOManager.FdEntry.TriggerEvent | HCServer/iomanager.cc:39-52 | on one context: aborts iff the event is not registered or has no scheduler, otherwise hands over its continuation |
| IOManager.IOManager.CancelEvent | HCServer/iomanager.cc:197-228 | likewise, and the continuation registered there is scheduled |
| IOManager.IOManager.CancelAll | HCServer/iomanager.cc:230-267 | on the fields: succeeds iff epoll agrees and exactly one event is registered, which is cleared and its continuation scheduled; aborts iff both are |
| IOManager.IOManager.DeliverOne | HCServer/iomanager.cc:337-382 | on the fields: READ is acted on if delivered or on hang-up, WRITE if delivered or on hang-up when registered; the continuations registered for these are scheduled, READ first, exactly their bits and contexts cleared and the counter lowered by as many; no other entry changes; aborts iff one of them is registered and one is not |
| Timers.InsertKeeps | HCServer/timer.cc:186-199 | inserting keeps the set strictly ordered with one element per timer |
| Timers.FindAndErase | HCServer/timer.cc:36-64 | looking up a timer that is in the set finds it, and erasing there removes it alone |
| Timers.ExpireExact | HCServer/timer.cc:143-184 | the callbacks returned are those of the due timers (all, on rollover), each once, in deadline order; left are exactly the others and the recurring ones a period after now |
| Timers.ExpireDoes | HCServer/timer.cc:143-215 | by the clock alone: all timers expire when the clock has gone back by more than 3600000 ms (or at all from below that), otherwise those with a deadline of now or before; their callbacks are returned, the recurring ones go back to (now + ms) mod 2^64, and previous becomes now |
| Timers.ClockArithmetic | HCServer/timer.cc:66-91 | the 64-bit sums and differences of times wrap, and undo each other |
| Timers.TakenAreDue | HCServer/timer.cc:160-168 | a timer is taken iff due, or on rollover |
| Timers.ProbeCounts | HCServer/timer.cc:160-167 | the lower-bound search counts the due timers whatever the probe's address |
| Timers.ExpireTokens | HCServer/timer.cc:160-183 | the wake tokens of the timers before are those of the timers after plus those of the callbacks returned |
| TimerWatch.NeverMissedExactly | HCServer/timer.cc:49-199 | in every run of calls at any times, for every poller and at every point: since its last getNextTimer the hook has fired or no pending deadline is before the earliest it saw, iff every refresh and every recurring re-insertion meets its guard |
| TimerWatch.ApplyExact | HCServer/timer.cc:36-199 | each call keeps this promise iff it meets its guard, and always keeps the set ordered with one element per timer and the flag true only if every poller was tickled since it looked |
| TimerWatch.RefreshExact | HCServer/timer.cc:49-64 | refresh keeps it iff the new deadline, wrapped or not, is no earlier than what each untickled poller waits for |
| TimerWatch.ListExact | HCServer/timer.cc:160-183 | expiry keeps it iff every recurring timer taken goes back no earlier than that |
| TimerWatch.AddKeeps | HCServer/timer.cc:104-199 | addTimer always keeps it |
| TimerWatch.GetNextKeeps | HCServer/timer.cc:127-141 | getNextTimer always keeps it, for the others too although it clears their flag |
| TimerWatch.NeverMissed | HCServer/timer.cc:49-199 | with a monotone clock and no 64-bit overflow no poller misses a deadline in any run |
| TimerWatch.ResetKeeps | HCServer/timer.cc:66-91 | reset, from now or from the old start, always keeps it |
| TimerWatch.OverflowMisses | HCServer/timer.cc:49-64 | a run in which a refresh that wraps goes unannounced |
| TimerWatch.RecurringMisses | HCServer/timer.cc:172-183 | a run in which a recurring timer that wraps does |
| TimerManager.Timer.constructor | HCServer/timer.cc:26-31 | the deadline is the creation time plus the period, modulo 2^64 |
| TimerManager.TimerManager.AddTimer | HCServer/timer.cc:104-111 | adds exactly this timer, with deadline (now + ms) mod 2^64, and calls the hook once iff no timer comes before it and the hook had not been called since getNextTimer; a timer is in the set iff it has a callback |
| TimerManager.TimerManager.InsertAndTickle | HCServer/timer.cc:186-199 | the insertion alone, likewise |
| TimerManager.TimerManager.Cancel | HCServer/timer.cc:36-47 | true iff the timer had a callback; then it has none, and it alone is out of the set |
| TimerManager.TimerManager.Refresh | HCServer/timer.cc:49-64 | on a pending timer: it alone is moved, to now plus its period |
| TimerManager.TimerManager.Reset | HCServer/timer.cc:66-91 | on a pending timer: it alone gets the new period and the deadline now + ms, or its old start + ms, and is re-added through the hook; with the same period and start nothing changes |
| TimerManager.TimerManager.GetNextTimer | HCServer/timer.cc:127-141 | clears the hook flag; none, zero or the time to the first deadline |
| TimerManager.TimerManager.ListExpired | HCServer/timer.cc:143-184 | all timers expire when now < previous and previous < 3600000 or previous - now > 3600000, otherwise exactly those with a deadline of now or before; what is returned, what is left and the new previous time |
| TimerManager.TimerManager.CountExpired | HCServer/timer.cc:160-167 | how many timers the search takes |
| TimerManager.TimerManager.TakeExpired | HCServer/timer.cc:168-183 | moves them out, re-inserts the recurring ones and clears the callbacks of the others |
| Flat.ArithmeticMeaning | HCServer/bytearray.cc:368-369 | the block arithmetic is multiplication, division and remainder |
| Flat.PutInBlock | HCServer/bytearray.cc:372-389 | overwriting inside a block overwrites the flat buffer at the block's offset |
| Flat.GrowthIsLeast | HCServer/bytearray.cc:655-661 | the number of blocks added is the least that fits |
| Flat.WroteTwice | HCServer/bytearray.cc:360-394 | two writes in a row are one write of both |
| Flat.WroteMeans | HCServer/bytearray.cc:360-394 | a buffer has been written iff the position is past the data, the size at least that, the data lies at the old position and every other byte is as before |
| Flat.StartMeans | HCServer/bytearray.cc:427-440 | the positional read starts at the current block and the offset of the position asked for |
| Flat.PositionalReadExact | HCServer/bytearray.cc:427-456 | the positional read returns the bytes asked for, whatever the contents, iff they start in the current block |
| ByteArray.ByteArray.constructor | HCServer/bytearray.cc:34-42 | one block, empty, at its start |
| ByteArray.ByteArray.ByteAt | HCServer/bytearray.cc:366-389 | byte i of the flat buffer is byte i mod block size of block i / block size |
| ByteArray.ByteArray.AddCapacity | HCServer/bytearray.cc:650-680 | room for n bytes by the fewest blocks; bytes, position and size unchanged; the current block found again when it was null |
| ByteArray.ByteArray.Write | HCServer/bytearray.cc:360-394 | the data lies at the old position and every other byte is as before; position and size move; capacity grows least, stays blocks times block size, and the current block is number position / block size, null exactly at the end |
| ByteArray.ByteArray.Read | HCServer/bytearray.cc:397-425 | the next n bytes, or out of range, or a null block for an empty read at the end; the position moves only on success |
| ByteArray.ByteArray.ReadAt | HCServer/bytearray.cc:427-456 | what the positional read returns for every position, 64-bit range test included; the cursor stays |
| ByteArray.ByteArray.SetPosition | HCServer/bytearray.cc:459-476 | refused past the capacity; otherwise position and size move and the current block is found from the root |
| ByteArray.ByteArray.Find | HCServer/bytearray.cc:468-475 | the walk ends at block number v / block size, or null at the capacity |
| ByteArray.ByteArray.Clear | HCServer/bytearray.cc:346-358 | empty, with the first block alone |
| ByteArray.ByteArray.ToString | HCServer/bytearray.cc:522-531 | exactly the readable window |
| ByteArray.ByteArray.WriteToFile | HCServer/bytearray.cc:478-502 | the window is written iff the position starts a block, a block's worth is readable, or nothing is |
| ByteArray.ByteArray.ReadFromFile | HCServer/bytearray.cc:504-520 | the same as one write of the whole file |
| ByteArray.ByteArray.GetReadBuffers | HCServer/bytearray.cc:549-579 | the block runs of the first min(n, readable) bytes, in order |
| ByteArray.ByteArray.GetWriteBuffers | HCServer/bytearray.cc:620-648 | the block runs of [position, position + n), after the least growth; position, size and bytes unchanged |
| ByteArray.ByteArray.Gather | HCServer/bytearray.cc:549-579 | the runs of a window, joined, are the window |
| ByteArray.ByteArray.Scatter | HCServer/bytearray.cc:620-648 | storing through the runs of a window overwrites exactly its first bytes, so the runs are disjoint and ordered |
| Codec.VarintFits | HCServer/bytearray.cc:139-163 | 1 to 5 bytes for 32 bits and 1 to 10 for 64 |
| Codec.VarintRoundTrip | HCServer/bytearray.cc:265-295 | decoding takes exactly the encoding, whatever follows, and returns the value |
| Codec.PrefixFree | HCServer/bytearray.cc:139-163 | no encoding is a prefix of another |
| Codec.VarintByte | HCServer/bytearray.cc:139-163 | byte i is digit i of the value in base 128, low digits first, plus 128 unless it is the last |
| Codec.VarintShortest | HCServer/bytearray.cc:139-163 | there are exactly as many bytes as the value has digits |
| Codec.ZigzagBijection | HCServer/bytearray.cc:118-260 | zigzag and its decoding are inverse on the whole signed and unsigned ranges, the smallest integer included |
| Codec.ZigzagOrder | HCServer/bytearray.cc:118-133 | smaller magnitudes get smaller codes |
| Codec.SwapTwice | HCServer/endian.h:15-32 | byteswap is its own inverse at every width |
| Codec.ImageByte | HCServer/bytearray.cc:75-116 | byte i of a fixed-width integer is its digit i in base 256 in a little-endian array, and counted from the other end in a big-endian one |
| Codec.DigitsMean | HCServer/bytearray.cc:75-163 | digits are those of ordinary division by powers |
| Codec.WireOrder | HCServer/bytearray.cc:75-116 | the bytes written are in the array's order on hosts of either order |
| Codec.WireRead | HCServer/bytearray.cc:217-249 | the bytes read are taken in the array's order on hosts of either order |
| Codec.FixedRoundTrip | HCServer/bytearray.cc:75-249 | a value written on one host and read on another, of whatever orders, comes back |
| Message.MessageRoundTrip | HCServer/bytearray.cc:204-342 | reading a list of fields from where their bytes lie returns them iff no length was cut and it does not end in an empty string at the end of the blocks; it ends where they end |
| Message.TextOnWire | HCServer/bytearray.cc:177-196 | a string is its length in two, four or eight bytes, or as a varint, cut to that width, and then its bytes |
| Message.NumberOnWire | HCServer/bytearray.cc:67-163 | a number is its two's complement at its width, its varint, or the varint of its zigzag code, in at most five or ten bytes |
| Message.UintFromAnyBytes | HCServer/bytearray.cc:265-295 | from any bytes: at most five or ten, up to the first without the mark; their low sevens cut to the width; or out of range at the end of the data |
| Message.FixedFromAnyBytes | HCServer/bytearray.cc:204-249 | from any bytes: exactly the width, or out of range with nothing taken |
| Message.TextFromAnyBytes | HCServer/bytearray.cc:311-342 | from any bytes: the length is taken even when the text is not all there |
| FieldIO.VarintBytes | HCServer/bytearray.cc:139-148 | the loop fills its five or ten bytes with the varint and never overruns them |
| FieldIO.WriteFixed | HCServer/bytearray.cc:67-116 | writes the value in the array's byte order |
| FieldIO.WriteUint | HCServer/bytearray.cc:139-163 | writes the varint |
| FieldIO.WriteField | HCServer/bytearray.cc:67-196 | writes the encoding of any field |
| FieldIO.ReadFixed | HCServer/bytearray.cc:204-249 | reads the value in the array's byte order, or raises and leaves the position |
| FieldIO.ReadUint | HCServer/bytearray.cc:265-295 | the shifting loop fetches the varint, cut to the width, from any bytes, and stops after five or ten |
| FieldIO.ReadField | HCServer/bytearray.cc:204-342 | fetches a field of the given kind, with every way to fail |
| FieldIO.WriteMessage | HCServer/bytearray.cc:67-196 | the fields one after another are one write of their joined encodings, growing by the fewest blocks |
| FieldIO.ReadMessage | HCServer/bytearray.cc:204-342 | fetches fields of the given kinds until one fails |
| FieldIO.RoundTrip | HCServer/bytearray.cc:67-342 | on one array of any block size and contents, written on a host of one byte order and read on one of another: go back and read with matching calls, and the same values and end position come back, iff no length was cut and the message does not end in an empty string on a block boundary at or past the old capacity |
| FieldIO.TripExact | HCServer/bytearray.cc:67-342 | the same on flat buffers |
| Streams.Read | HCServer/streams/socket_stream.cc:24-37 | stores the bytes received at the position, as a write of them would |
| Streams.Int32Is | HCServer/stream.cc:17-58 | the result of a full transfer is its length below 2 GiB, and the int congruent to it modulo 2^32 above |
| Streams.Write | HCServer/streams/socket_stream.cc:46-58 | sends a prefix of the readable window and moves past it |
| Streams.ReadFixSize | HCServer/stream.cc:20-30 | for every pattern of short reads: the next stream bytes are stored in order at the old position, all of them iff success is reported |
| Streams.WriteFixSize | HCServer/stream.cc:48-58 | for every pattern of short writes: a prefix of the window is sent in order, all of it iff success is reported |
| Streams.ReadFixSizeRaw | HCServer/stream.cc:6-18 | likewise into memory, leaving the rest of it unchanged |
| Streams.WriteFixSizeRaw | HCServer/stream.cc:33-46 | likewise from memory |
| ChunkLines.ScanWhole | HCServer/http/httpclient_parser.rl.cc:122-301 | a size line is recognised whatever follows it |
| ChunkLines.ScanPart | HCServer/http/httpclient_parser.rl.cc:122-301 | no proper prefix of one is |
| ChunkLines.ScanLine | HCServer/http/httpclient_parser.rl.cc:122-301 | on a buffer that begins with a size line the parser takes exactly the line and its number |
| ChunkLines.EverySizeHasALine | HCServer/http/httpclient_parser.rl:150-156 | the hexadecimal form of every size is a size line for it |
| ChunkLines.EverySpelling | HCServer/http/httpclient_parser.rl:150-156 | every spelling of n in base 16, in either case and with any zeros in front, with any extensions and CR LF or LF, is a size line for n |
| ChunkLines.OnlySpellings | HCServer/http/httpclient_parser.rl:150-156 | and there is no other |
| ChunkLines.ScanGrammar | HCServer/http/httpclient_parser.rl.cc:122-301 | from each state the scanner accepts exactly what the grammar allows there |
| ChunkLines.DigitsAre | HCServer/http/httpclient_parser.rl:95-97 | the digits are 0 to 9, a to f and A to F, with their values |
| Chunked.ContentMeans | HCServer/http/httpclient_parser.rl:95-98 | the size as the parser's int: itself below 2 GiB, then reduced modulo 2^32, and -1 past the range of a long |
| Chunked.Reader.Execute | HCServer/http/http_parser.cc:259-267 | the parser is restarted and what it took leaves the buffer |
| Chunked.Reader.Refill | HCServer/http/http_connection.cc:69-77 | the buffer index never exceeds the buffer size and the buffer holds the next stream bytes |
| Chunked.Reader.ReadLine | HCServer/http/http_connection.cc:67-89 | on such a run the next chunk's size, its line consumed in however many rounds |
| Chunked.Reader.TakePayload | HCServer/http/http_connection.cc:93-112 | appends exactly the payload and consumes it with its line end, once, whether buffered or not |
| Chunked.Reader.Receive | HCServer/http/http_connection.cc:64-113 | for every chunk list and every splitting into reads in which no refill ends inside a size line, or what is left of the line still reads as the size, the body is the payloads joined, or the connection is closed because a read failed |
| Chunked.ReceiveSized | HCServer/http/http_connection.cc:114-135 | the body is the first length bytes after the header iff they all arrived (and their number fits a positive int) |
| Chunked.CutAnyLine | HCServer/http/http_parser.cc:259-267 | any size line cut by a refill, extensions included, is read right iff what is left begins with a number that the parser takes for the size |
| Chunked.CutLine | HCServer/http/http_parser.cc:259-267 | without extensions: iff a digit is left and only zeros were lost |
| Chunked.CutMisreads | HCServer/http/http_parser.cc:259-267 | a cut that turns 26 bytes into 10 |
| Pool.StepKeeps | HCServer/http/http_connection.cc:305-367 | every step of overlapping calls keeps the pool's invariant |
| Pool.Conserved | HCServer/http/http_connection.cc:305-367 | in every run each connection is in exactly one of idle, handed out, returning or deleted, is used at most max(1, maximum requests) times, and the total is exact but for updates still owed; idle plus handed out when none is |
| Pool.NeverSharedOut | HCServer/http/http_connection.cc:305-353 | a connection is handed out only while nobody holds it |
| Pool.IdleBoundedExactly | HCServer/http/http_connection.cc:305-367 | the maximum size bounds the idle connections iff connections are not reused |
| ConnectionPool.HttpConnectionPool.TakeIdle | HCServer/http/http_connection.cc:309-325 | drops the leading connections that are disconnected or fail the age test, takes the first that is and does not, and leaves those behind it in order |
| ConnectionPool.HttpConnectionPool.GetConnection | HCServer/http/http_connection.cc:305-354 | is a run of pool steps; the result is held by nobody else; the total falls by the connections dropped and grows by the one made |
| ConnectionPool.HttpConnectionPool.ReleasePtr | HCServer/http/http_connection.cc:356-367 | counts the use, then deletes the connection if it is disconnected, fails the age test or is used up, or puts it back last; and is a run of pool steps |
| ConnectionPool.NeverTooOld | HCServer/http/http_connection.cc:316-364 | the age tests never fail once the clock is past 2^32 ms, because the time of creation stays 0 |

## Left out

- Context switching, stacks, threads and locks as such; dlsym hooking and the fcntl, ioctl, socket-option and close shims.
- Fibers as objects: their states are values in `Runtime.dfy`, which does not capture aliasing of fiber handles.
- The interleavings inside a yield: the state is published before the context is saved, and `run` writes it again (HCServer/scheduler.cc:200).
- `use_caller` mode: yields then go to a fiber that is not the scheduling one.
- The tickle pipe, which of several sleeping pollers a tickle wakes, and the choice of epoll time-out; `Scheduler::idle` of the base class.
- The lock changes inside `addEvent` (HCServer/iomanager.cc:116-119) and `listExpiredCb` (HCServer/timer.cc:147-156).
- `addTimer` with an empty callback, and reuse of a timer's address after it is freed.
- Deleting a registration a fiber waits on, which loses its wakeup by design; in runs, `delEvent` is only applied to callbacks.
- `refresh` and `reset` are not steps of `Runtime.dfy`; they are proved over runs of their own in `TimerWatch.dfy`.
- `connect_with_timeout`, whose wait repeats that of `do_io` without the retry.
- The positional `getReadBuffers`, which nothing calls.
- Float and double codecs (bit copies), `toHexString`, destructors and the release of memory.
- `std::bad_alloc` and `std::length_error` when a string prefix asks for more memory than there is.
- The response and request header parsers; only the chunk-size line of the generated parser is modelled. A chunk-size line that starts with `H`, which enters the status-line states, is treated as an error.
- Chunk extensions set response headers; the model only skips them. Trailers are not handled by the source.
- Chunked.Reader.Receive: sizes above 2^31 - 3 end in `Broken`, because the int arithmetic of the source overflows there.
- What makes a pooled connection connected or not; connecting takes its outcome as a parameter.
- How sleep, usleep and nanosleep turn their arguments into milliseconds.
- Logging, configuration, addresses, sockets, servers and servlets: thin wrappers.
