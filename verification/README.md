# Captain: a verified model of its runtime

Captain is a C++ coroutine server framework: worker threads run fibers from a shared queue, fibers park on
file descriptors and timers, bytes move through a segmented buffer, and HTTP messages are printed and
parsed. This project models the four parts whose correctness no finite set of examples can settle, and
proves what they keep.

| part | files | what is modelled |
|---|---|---|
| event loop | `event_table`, `event_effects`, `iomanager`, `scheduler_state`, `scheduler_runs`, `scheduler_discipline`, `scheduler_effects`, `scheduler`, `quiescence`, `hook`, `hook_effects` | the event table and its kernel mirror, the queue and slices of the scheduler, shutdown, the hooked I/O call |
| timers | `timer`, `timer_runs`, `timer_wake`, `timer_effects`, `timer_manager` | the ordered set, expiry, and the wake-up of the sleeper |
| bytes | `zigzag`, `zigzag_words`, `codec`, `codec_shapes`, `blocks`, `bytearray`, `bytearray_codec`, `bytearray_departures` | the wire formats, and the node list that must behave like one flat byte sequence |
| HTTP | `http_text`, `character_classes`, `scanning`, `header_print`, `header_totals`, `header_returns`, `printed_texts`, `response_*`, `request_*`, `cuts`, `cut_*`, `stream`, `session`, `authority` | both printers, both generated parsers with their callbacks, what cuts of the stream do to them, and `recvRequest` |

## How to read it

Where the source updates objects in place, the model has a class with the same fields (`IOManager`,
`Scheduler`, `TimerManager`, `ByteArray`, `ResponseParser`, `RequestParser`, `Source`, `Sink`), and each
method is proved equal to a function of its old state. What holds over runs is proved about those
functions: a run is any sequence of calls, with every choice of the environment (`epoll_ctl` failing, the
order of readiness and timeouts, how many bytes a read delivers, the address an allocation gets) left open.

The `*_effects` modules, `codec_shapes`, `header_returns`, `printed_texts`, `request_verbs` and
`character_classes` say what those functions do in the terms of their callers: which waiter a report hands over,
which fiber goes where in the queue, how long a sleeper waits, how many bytes a typed write takes, which text
comes back.

A call under its lock is one step. A scheduler slice is two: a worker picks an entry and swaps its fiber in;
the fiber yields or ends and the worker does its bookkeeping.

The two parsers are the tables of the generated code with their actions. The keyword chains of the response
table (`connection`, `content-length`, `transfer-encoding`, `close`, `chunked`) are states that carry the
text read so far; `ResponseMachine.Code` and `RequestMachine.Code` give the number a state has in the code.
The response table is complete (124 states). Of the 350 states of the request table, the error state, the 55
for method, scheme, path, query, fragment, version and headers, and the end of a message, 349, are spelt out,
for both settings of `uri_relaxed`. The other 293, for targets with an authority and for XML and JSON messages,
are a parameter: a `Grammar` carries their edges and actions, and everything is proved for any such sub-table.
A byte of HTTP text is a `char`; the tables treat all above 127 alike.

What cuts do is proved by following two runs of the parser over the same bytes, one in a single call and one
in calls. `cut_relation` has what the cuts can only make smaller, `cut_loss` what a cut inside a token loses
and why it stays lost, `cut_exact` and `cut_pieces` carry a loss through bytes and pieces, `cut_even` and
`cut_harmless` carry equality, `cut_printed` puts both together for printed requests, and `cut_overwritten`
has the exception; `cut_tokens` has concrete cuts. That a lost header shows at the end is an argument about
totals: `names` adds up the names of the headers recorded, and a map cannot have more than was recorded
(`header_totals`).

## Where the code departs from its comments and asserts

The model does what the code does. Each of these has a concrete failing input, which the first member named
proves, and the exact condition, which the others state.

- `triggerEvent` asserts that the direction is armed, but the dispatch in `idle` triggers every ready one: a
  hang-up on a descriptor armed for reading only brings the process down. `EventTable.HangupOnReaderAborts`,
  `EventTable.StepKeeps` and `IOManagers.BatchAbortsIff`.
- `addEvent` resizes the table on a size read under another lock: a stale resize may shrink it, and then no
  call reaches the dropped context any more, though the kernel still watches its descriptor.
  `EventTable.StaleResizeLosesWaiter`, `EventTable.DroppedOutOfReach` and `EventTable.ResizeKeepsIff`.
- `Fiber::reset` asserts that the cached callback fiber is at rest, but a callback that schedules its own
  fiber and then ends leaves it queued. `SchedulerRuns.SelfScheduledCallbackFails` and
  `SchedulerDiscipline.FailsFromStartIff`. The discipline that avoids it is exact: no run that keeps it fails,
  and whoever breaks it leaves a state from which some run does, `SchedulerDiscipline.DisciplineIsExact`.
- `stopping` answers yes while a worker holds expired callbacks it has not scheduled yet, or a READY fiber
  it has not re-queued yet. `Quiescence.StoppingWithCallbackInHand` and `Quiescence.StoppingIsFinalIff`.
- A timeout callback run after its call returned should do nothing. One that locked its `timer_info` before the
  return and ends after another call has parked on the descriptor wakes that call; and so does one that locks
  after the return, if an earlier callback of the same call still holds the lock.
  `HookedIo.OvertakenCallbackWakesAnother` and `HookedIo.LateLockWakesAnother`. Of a call that has returned, a
  callback that starts does nothing exactly when no other callback of that call holds a lock,
  `HookedIo.LateLockIff`. At any stage of its call, one that ends wakes somebody exactly when none of that call
  ended before, something is armed in its slot, and the kernel lets it be cancelled; it is another call exactly
  when its own does not wait, or is queued already, `HookEffects.FinishIff`.
- A refresh moves a deadline earlier when the clock plus the period leaves 64 bits, and nobody is told.
  `TimerWake.WrappedRefreshIsSilent` and `TimerWake.RefreshMovesEarlierIff`.
- An expiry whose clock is more than an hour behind the last one takes it for a rollover, and re-arms recurring
  timers from that clock; one that then falls below the deadline last seen is not told to anybody.
  `TimerWake.RolloverExpiryIsSilent` and `TimerWake.ExpireAwakeIff`.
- `addCapacity` promises room and does not round up: it falls short exactly when the remainder is non-zero
  and at most the old room. With nodes of one byte it never does. `ByteArrayDepartures.GrowthFallsShort` and
  `Blocks.ShippedCountIff`.
- `read` of nothing at full capacity dereferences a null node. `ByteArrayDepartures.EmptyStringCrashes` and
  `ByteArrays.ByteArray.Read`.
- The positional `read` starts in the current node whatever the position.
  `ByteArrayDepartures.ReadAtElsewhere` and `ByteArrays.ByteArray.ReadAtRightIff`.
- The response parser drops leading blanks of a value (tab, vertical tab, form feed, space), so a value
  comes back unchanged exactly when it has none. `ResponseRoundTrip.LeadingBlankLost` and
  `ResponseRoundTrip.HeaderReturnsIff`.
- `content_len` is an `int`: it is the size of the body exactly below 2^31, and negative from there to 2^32.
  `ResponseRoundTrip.LengthWraps` and `ResponseRoundTrip.PrintThenParse`.
- `HttpResponseParser::execute` on an empty buffer gets -1 for a count, and its `memmove` starts in front of the
  buffer. `ResponseParsers.FreshRuns`, which also says that a parser that starts never does so otherwise, and
  `ResponseParsers.ResponseParser.Execute`.
- `M-SEARCH` and versions other than 1.0 and 1.1 can be printed in a request and are refused by its parser.
  `RequestTarget.RefuseMSearch` and `RequestRoundTrip.PrintThenParse`.
- `http_parser_execute` forgets its marks at each call but keeps `query_start`: a method cut in two is error
  1000, and a call that resumes inside a query throws exactly when the query ends before that old offset.
  `CutTokens.SplitMethodRefused`, `CutTokens.CutQueryThrows` and `CutTokens.ResumedQueryIff`.
- So a request no header of which is printed twice is heard right exactly when every cut is harmless: between
  two tokens, between the last two bytes, right behind `HTTP/1.1`, or inside that version if another cut falls
  right behind it. `CutPrinted.HarmfulPieces` and `CutPrinted.HarmlessPieces`. Only `content-length` can be
  printed twice, by a request that sets it beside a body; then harmless cuts are enough and not needed,
  `CutOverwritten.OverwrittenLineMayBeCut`. `Sessions.ReceivePrinted` adds the body: it comes back exactly when the
  content length says its size and the count of the bytes missing does not look like a failure.
- What `recvRequest` has read beyond the body is dropped, so a pipelined request is lost as far as it was read.
  `Sessions.ReceivePrinted` and `Sessions.RecvRequest`.
- `readFixSize` returns its count as an `int`, so a count that is a multiple of 2^32, or 2^31 or more above
  one, looks like a failure. `Streams.LooksFailedIff`.

## Model

| member | source | states |
|---|---|---|
| EventTable.StepKeeps | captain/iomanager.cpp:102-266 | every call and every dispatched report keeps the mirror of the kernel set, the slots, the pending counter and the conservation of waiters, and trips an assert exactly when `addEvent` names an armed direction or a report names an armed and an unarmed one together and the kernel accepts |
| EventTable.RunKeeps | captain/iomanager.cpp:51-98 | over every sequence of calls, with `epoll_ctl` failing at will, the invariant holds as long as no assert fails |
| EventTable.RunMirrorsKernel | captain/iomanager.cpp:117-156 | after any run, a descriptor is watched iff it has an armed direction and then for exactly those, a slot is filled iff its bit is set, and `m_pendingEventCount` is the number of set bits |
| EventTable.RunRequestsLegal | captain/iomanager.cpp:125-132 | after any run, ADD is asked only of unwatched descriptors and MOD and DEL only of watched ones |
| EventTable.RunConservesWaiters | captain/iomanager.cpp:138-154 | each successful `addEvent` is exactly one of still armed in its own slot, deleted, or handed once to its own scheduler with its own task |
| EventTable.FiringIsFinal | captain/iomanager.cpp:34-48 | however many calls follow, none takes a firing back, and a waiter that has fired or was deleted is never armed, fired or deleted again |
| EventTable.TriggerKeeps | captain/iomanager.cpp:34-48 | triggering an armed direction clears its bit, hands its task over once, and leaves the kernel and the other contexts alone |
| EventTable.DispatchKeeps | captain/iomanager.cpp:353-398 | one readiness report keeps the invariant or aborts, and when it aborts |
| EventTable.HangupOnReaderAborts | captain/iomanager.cpp:361-397 | a hang-up on a descriptor armed for reading only trips the assert of `triggerEvent` |
| EventTable.ResizeKeepsIff | captain/iomanager.cpp:91-112 | `contextResize` to any size keeps the invariant iff every context it drops is unarmed |
| EventTable.StaleResizeLosesWaiter | captain/iomanager.cpp:104-112 | two registrations racing past the size check drop the context of the first: no call deletes, cancels or registers it again, and the invariant is broken |
| EventTable.DroppedOutOfReach | captain/iomanager.cpp:91-112 | after any resize, every armed context it dropped is beyond `delEvent`, `cancelEvent`, `cancelAll` and a second `addEvent`, whatever their arguments and the kernel's luck |
| EventEffects.ReportFires | captain/iomanager.cpp:360-398 | a report that the kernel lets be handled hands the reader to its scheduler iff one is armed and the report says readable, or error or hang-up; the writer likewise; nobody else; those bits alone are cleared; it brings the process down iff it is about an armed direction and one that is not |
| EventEffects.CancelFires | captain/iomanager.cpp:196-227 | `cancelEvent` hands over the waiter of the direction it names iff armed and the kernel accepts, and nobody else |
| EventEffects.CancelAllFires | captain/iomanager.cpp:229-266 | `cancelAll` hands over whoever is armed on the descriptor, the reader first, if the kernel accepts |
| EventEffects.DelDeletes | captain/iomanager.cpp:159-194 | `delEvent` deletes the waiter of the direction it names iff armed and the kernel accepts, and hands nobody over |
| EventEffects.AddArms | captain/iomanager.cpp:102-157 | `addEvent` brings the process down iff the direction is armed; else the table reaches one and a half times the descriptor, and the direction is armed for that task and scheduler iff the kernel accepts; the other direction and the other descriptors stay as they were |
| IOManagers.IOManager.constructor | captain/iomanager.cpp:51-75 | a new manager is the start of every run: 32 empty contexts, nothing watched |
| IOManagers.IOManager.ContextResize | captain/iomanager.cpp:91-99 | the loop leaves the kept contexts and fills the new places with empty ones |
| IOManagers.IOManager.TriggerEvent | captain/iomanager.cpp:34-48 | has the effect of `Trigger` on the whole state |
| IOManagers.IOManager.Add | captain/iomanager.cpp:102-157 | has the effect of `AddEvent`; accepted iff a registration was recorded |
| IOManagers.IOManager.Del | captain/iomanager.cpp:159-194 | has the effect of `DelEvent`; a refusal changes nothing |
| IOManagers.IOManager.Cancel | captain/iomanager.cpp:196-227 | has the effect of `CancelEvent`; a refusal changes nothing |
| IOManagers.IOManager.CancelAll | captain/iomanager.cpp:229-266 | has the effect of `CancelAllEvents`; a refusal changes nothing |
| IOManagers.IOManager.DispatchReport | captain/iomanager.cpp:360-398 | has the effect of `DispatchOne`, which `EventEffects.ReportFires` states in terms of the bits and the waiters |
| IOManagers.IOManager.Dispatch | captain/iomanager.cpp:353-398 | the loop over one `epoll_wait` has the effect of dispatching its reports in order, each as `EventEffects.ReportFires` says |
| IOManagers.BatchKeeps | captain/iomanager.cpp:353-398 | a whole batch keeps the invariant unless it brings the process down |
| IOManagers.BatchAbortsIff | captain/iomanager.cpp:353-398 | a batch brings the process down iff some report, met while it is up, names an unarmed direction beside an armed one |
| SchedulerRuns.StepKeeps | captain/scheduler.cpp:177-257 | every slice step, schedule and idle step keeps the counters, the places of entries, the pins and the single runner; an assert of `swapIn` or `reset` fails iff a callback is picked while the cached fiber is not at rest |
| SchedulerRuns.RunKeeps | captain/scheduler.cpp:163-259 | the same over every interleaving |
| SchedulerRuns.NeverTwoRunners | captain/scheduler.cpp:177-220 | no interleaving runs one fiber on two workers, even queued twice |
| SchedulerRuns.EntriesAndCounters | captain/scheduler.cpp:177-257 | `m_activeThreadCount` and `m_idleThreadCount` are exact, each entry ever queued is in exactly one of queue, worker and discharged, and a pinned entry is held and discharged only by its thread |
| SchedulerRuns.DisciplinedRunsNeverFail | captain/fiber.cpp:126-175 | if nobody schedules, for a worker that still runs, a fiber one keeps for its next callback, and no callback ends with its own fiber so queued, no assert of `swapIn` or `reset` ever fails |
| SchedulerRuns.DisciplinedFromStart | captain/fiber.cpp:126-175 | the same for every such run of any number of threads from the start |
| SchedulerDiscipline.BreachCanFail | captain/scheduler.cpp:221-240 | whoever breaks that discipline leaves a state from which some further run trips an assert, with one worker or more |
| SchedulerDiscipline.DisciplineIsExact | captain/scheduler.cpp:177-257 | for any number of threads and any run from the start: it fails nowhere if disciplined, and from its first breach on it can be continued to a failure if not |
| SchedulerDiscipline.FailsFromStartIff | captain/fiber.cpp:126-175 | a run brings the process down iff at one of its steps a worker picks a callback while the fiber it keeps is neither fresh nor ended |
| SchedulerRuns.SelfScheduledCallbackFails | captain/scheduler.cpp:221-240 | otherwise the next callback can trip the assert of `reset` |
| SchedulerRuns.CallbackSchedulesItself | captain/scheduler.cpp:221-240 | the state that run of four steps leads to |
| SchedulerEffects.ScheduleAppends | captain/include/scheduler.h:69-77 | an entry goes to the back of the queue with its pin and touches nothing else |
| SchedulerEffects.StartTakesFirst | captain/scheduler.cpp:177-240 | a worker takes the first entry not pinned elsewhere and not of a running fiber, leaving the others in order: a fiber that has ended is dropped, any other runs, a callback runs on the kept fiber or on a new one; an assert fails iff the kept fiber is on HOLD, running or READY |
| SchedulerEffects.IdlesWithoutWork | captain/scheduler.cpp:241-257 | a worker that may take nothing goes idle, or leaves for good if its idle fiber has ended, and looks at the queue again when it comes back |
| SchedulerEffects.EndSettles | captain/scheduler.cpp:210-240 | a READY fiber goes to the back of the queue, unpinned; one on HOLD, ended or thrown leaves the queue as it is; the fiber of an ended callback is fresh again and stays with the worker, of one that did not end the worker lets go |
| SchedulerEffects.ReadyFibersWait | captain/scheduler.cpp:212-220 | over every interleaving, a READY fiber has an entry in the queue that any worker may take |
| Schedulers.Scheduler.ScheduleNoLock | captain/include/scheduler.h:69-77 | the entry goes to the back, and a worker is to be woken iff the queue was empty |
| Schedulers.Scheduler.Scan | captain/scheduler.cpp:177-207 | finds the first entry this worker may take, and reports whether it passed one pinned elsewhere |
| Schedulers.Scheduler.FiberSwapIn | captain/fiber.cpp:166-176 | has the effect of `SwapIn`, the assert included |
| Schedulers.Scheduler.StartTurn | captain/scheduler.cpp:177-257 | has the effect of `Start`, which `SchedulerEffects.StartTakesFirst` spells out; tells the other workers iff it passed an entry it could not take as pinned elsewhere |
| Schedulers.Scheduler.StartCallback | captain/scheduler.cpp:221-240 | has the effect of `TakeUp` for a callback: the cached fiber is reset, or a new one made |
| Schedulers.Scheduler.EndTurn | captain/scheduler.cpp:210-240 | has the effect of `End` for each way a slice can end, which `SchedulerEffects.EndSettles` spells out; wakes a worker iff the fiber is READY and the queue was empty |
| Schedulers.Scheduler.LeaveIdleFiber | captain/scheduler.cpp:250-257 | has the effect of `EndIdle` |
| Quiescence.StoppingIsFinalIff | captain/iomanager.cpp:285-292 | in every state reachable by workers, those whose idle fiber has ended included, and outside calls, cancels and deletes included, where `stopping` holds, no step of the workers alone can ever queue or run a fiber again iff no worker holds expired callbacks or a READY fiber |
| Quiescence.DeadForever | captain/scheduler.cpp:265-269 | without such work, once stopping, nothing but an outside call changes that |
| Quiescence.ReachableOk | captain/scheduler.cpp:205-257 | the active count is the workers in a slice, and the pending count the armed bits plus the triggers, by workers or by outside cancels, not counted yet |
| Quiescence.StepAccounts | captain/scheduler.cpp:205-257 | workers lose no task and make none up: a task appears when a fiber queues it, a timer expires or an event fires, and disappears only when a fiber gives way and is not ready |
| Quiescence.StoppingWithCallbackInHand | captain/iomanager.cpp:336-344 | `stopping` holds while a worker has taken a callback out of the timers and not scheduled it |
| Quiescence.StoppingWithReadyFiberInHand | captain/scheduler.cpp:212-220 | `stopping` holds between the decrement of the active count and the re-queueing of a READY fiber |
| HookedIo.StepKeeps | captain/hook.cpp:111-172 | every step of any number of hooked calls keeps each waiting fiber in exactly one of its slot and the run queue, and the owners of each `timer_info` counted: its call until it returns, and each callback that holds a lock on it |
| HookedIo.ReachableOk | captain/hook.cpp:111-172 | the same over every order of readiness, expiry, timeout callbacks and cancellation |
| HookedIo.WaitWakesAtMostOnce | captain/hook.cpp:128-158 | one wait puts its fiber in the run queue at most once, and a call past its wait has no entry there |
| HookedIo.ResumedTimesOutIff | captain/hook.cpp:158-172 | a resumed call returns ETIMEDOUT iff, among the steps of the run, a timeout callback of that same call ran to its end; otherwise it retries |
| HookedIo.LateCallbacksVanish | captain/hook.cpp:131-143 | leaving out of any run the timeout callbacks that lock when their call has returned and no other callback of it holds a lock changes no call, slot, timer, queue or wake |
| HookedIo.LateLockIff | captain/hook.cpp:131-137 | in every reachable state, a callback of a returned call that starts does nothing but leave the handed-out ones iff no other callback of that call holds a lock |
| HookEffects.FinishIff | captain/hook.cpp:131-143 | after any run and at any stage of its call, a timeout callback that ends changes slots, queue or wakes iff no callback of that call ended before, something is armed in its slot and the cancellation succeeds; then it queues exactly the fiber in that slot, its own iff its call waits and is not queued |
| HookedIo.LateLockWakesAnother | captain/hook.cpp:131-143 | a callback of the second wait that locks after the return, while that of the first wait holds the lock, wakes a later call on the same descriptor |
| HookEffects.FireQueues | captain/hook.cpp:145-158 | after any run, readiness or cancellation of a descriptor queues exactly the fiber that waits in its slot, if there is one, and empties the slot |
| HookEffects.RegisterExact | captain/hook.cpp:145-156 | a refused registration returns at once and disarms the timer of the wait; an accepted one puts the call into the slot; a taken slot brings the process down |
| HookEffects.TimeoutNeverLost | captain/hook.cpp:128-143 | over every run, while a call waits, the timeout of that wait is armed, has expired, is running or has run, iff the call has a timeout at all |
| HookEffects.ResultIff | captain/hook.cpp:111-172 | over every run, a call has returned the result of the system call iff an attempt did not block, a refusal iff a registration failed, ETIMEDOUT iff it was checked after a timeout callback of it had run |
| HookedIo.InfoDeadIff | captain/hook.cpp:115-135 | in every reachable state the `timer_info` of a call is dead iff the call has returned and no callback holds a lock on it |
| HookedIo.OvertakenCallbackWakesAnother | captain/hook.cpp:131-143 | a callback that locked before its call returned can cancel the event of a later call on the same descriptor |
| HookedIo.ReturnedStays | captain/hook.cpp:158-172 | a call that returned stays returned with the same result, over every further run |
| TimerRuns.FindFinds | captain/timer.cpp:7-27 | `find` never misses an element of the ordered set |
| TimerRuns.DueExact | captain/timer.cpp:165-171 | whatever address the sentinel gets, the search selects exactly the timers with deadline at most now |
| TimerRuns.DrainExact | captain/timer.cpp:174-185 | the loop hands out each expired callback once, in order; recurring timers come back, one-shots lose their callback, the rest is untouched |
| TimerRuns.ExpireExact | captain/timer.cpp:148-185 | `listExpiredCb` hands out the callbacks of exactly the due timers (all of them on rollover) in deadline order, re-arms the recurring ones at now plus their period and leaves every other timer alone |
| TimerRuns.ExpireHandsOutOnce | captain/timer.cpp:148-185 | an expiry never hands a one-shot out a second time |
| TimerRuns.RekeyKeeps | captain/timer.cpp:55-95 | a deadline changed outside the set keeps the set strictly ordered |
| TimerRuns.StepKeeps | captain/timer.cpp:43-199 | every call keeps the set strictly ordered, a callback present iff the timer is in the set, and one-shots handed out at most once |
| TimerRuns.Run | captain/timer.cpp:43-199 | every run from a state with the invariant ends in one |
| TimerRuns.RunSafe | captain/timer.cpp:43-199 | the same over every run, and `cancel` never erases a missing element |
| TimerRuns.CancelDisarms | captain/timer.cpp:43-52 | a cancelled timer is out of the set without a callback, and no other timer changes |
| TimerRuns.DisarmedForever | captain/timer.cpp:43-95 | a timer disarmed by `cancel` or by its only hand-out is never armed or handed out again |
| TimerEffects.WaitExact | captain/timer.cpp:131-146 | the wait is all ones when no timer is armed, 0 iff some armed deadline is at most now, and otherwise ends at an armed deadline and at none later than another |
| TimerEffects.LookOnly | captain/timer.cpp:131-146 | looking takes the tickle back, remembers the earliest armed deadline and changes no timer |
| TimerEffects.AddExact | captain/timer.cpp:30-37 | a new timer is due its period after its clock, modulo 2^64; the sleeper is signalled iff not signalled since it looked and the timer is now before every other armed one |
| TimerEffects.RefreshExact | captain/timer.cpp:55-69 | the deadline of an armed timer becomes its period from now; nobody is signalled and nothing else changes |
| TimerEffects.ResetExact | captain/timer.cpp:71-95 | the new period counts from now, or from where the last one began; asked for the period it has and not from now, or of a disarmed timer, nothing happens; signalled as by an insertion |
| TimerEffects.CancelExact | captain/timer.cpp:43-53 | the callback is gone, and nothing else changes |
| TimerEffects.ExpireHandsOut | captain/timer.cpp:148-185 | the callbacks of exactly the armed timers due, or of all of them when the clock went back more than an hour, are handed out once, by deadline and address; recurring ones are armed for their period from now, one-shots lose their callback, the rest is as it was and nobody is signalled |
| TimerWake.EarlierDeadlineIsSignalled | captain/timer.cpp:131-146 | over every run with a non-decreasing clock, no wrap-around and no expiry that undercuts, if an armed deadline is below the one the last `getNextTimer` saw, `onTimerInsertedAtFront` was called since |
| TimerWake.RunAwake | captain/timer.cpp:188-199 | the invariant behind it: unseen earlier deadlines only after a signal, deadlines at least now's arming instant |
| TimerWake.ExpireAwakeIff | captain/timer.cpp:148-185 | an expiry, rollover or not, keeps that invariant iff it re-arms no recurring timer below the deadline last seen while no signal is outstanding |
| TimerWake.OnlyRolloverUndercuts | captain/timer.cpp:152-171 | and only one that detects a rollover can do that |
| TimerWake.RefreshMovesEarlierIff | captain/timer.cpp:55-68 | a refresh moves a deadline earlier iff now plus the period leaves 64 bits |
| TimerWake.WrappedRefreshIsSilent | captain/timer.cpp:55-68 | and then the sleeper is not woken |
| TimerWake.RolloverExpiryIsSilent | captain/timer.cpp:148-185 | an expiry with a clock more than an hour back re-arms a recurring timer below the deadline that was seen, and the sleeper is not woken |
| TimerManagers.TimerManager.constructor | captain/timer.cpp:97-99 | a new manager is the start of every run |
| TimerManagers.TimerManager.Search | captain/timer.cpp:165-166 | the walk of the set finds the lower bound of a key |
| TimerManagers.TimerManager.InsertTimer | captain/timer.cpp:188-190 | inserts in order and reports whether the timer is in front |
| TimerManagers.TimerManager.PublishTimer | captain/timer.cpp:188-199 | has the effect of `Publish`: signalled iff in front and not tickled yet |
| TimerManagers.TimerManager.AddTimer | captain/timer.cpp:30-37 | has the effect of `AddTimer` |
| TimerManagers.TimerManager.FindTimer | captain/timer.cpp:45-50 | finds exactly what `Find` finds |
| TimerManagers.TimerManager.Cancel | captain/timer.cpp:43-53 | has the effect of `CancelTimer`; true iff there was a callback |
| TimerManagers.TimerManager.Refresh | captain/timer.cpp:55-69 | has the effect of `RefreshTimer`, which `TimerEffects.RefreshExact` spells out; true iff there was a callback, and a refusal changes nothing |
| TimerManagers.TimerManager.Reset | captain/timer.cpp:71-95 | has the effect of `ResetTimer`, which `TimerEffects.ResetExact` spells out; true iff there was a callback or nothing was to be done, and a refusal changes nothing |
| TimerManagers.TimerManager.GetNextTimer | captain/timer.cpp:131-146 | clears the tickle flag and returns the wait, which `TimerEffects.WaitExact` states by the armed deadlines |
| TimerManagers.TimerManager.ExpiredEnd | captain/timer.cpp:165-171 | the end of the expired prefix |
| TimerManagers.TimerManager.DrainOne | captain/timer.cpp:175-185 | one turn of the loop over the expired timers |
| TimerManagers.TimerManager.DrainExpired | captain/timer.cpp:174-185 | the loop has the effect of `Drain` |
| TimerManagers.TimerManager.ListExpiredCb | captain/timer.cpp:148-185 | has the effect of `ListExpired` |
| ZigzagBits.DecodeEncode32 | captain/bytearray.cpp:127-147 | the bitwise decode undoes the branching encode on every 32-bit word, the minimum included |
| ZigzagBits.EncodeDecode32 | captain/bytearray.cpp:127-147 | and the encode undoes the decode |
| ZigzagBits.DecodeEncode64 | captain/bytearray.cpp:135-151 | the same for 64 bits |
| ZigzagBits.EncodeDecode64 | captain/bytearray.cpp:135-151 | the same for 64 bits |
| ZigzagWords.ShippedDecodeIsZigDecode | captain/bytearray.cpp:143-151 | on a word of any number of bytes, the bitwise decode is the arithmetic one of the typed reads |
| ZigzagWords.ShippedDecodeUndoes | captain/bytearray.cpp:127-151 | so it undoes the branching encode on every value of the word |
| Codec.WireOrder | captain/bytearray.cpp:79-124 | the bytes on the wire are in the array's order, whatever the host's |
| Codec.FixedRoundTrip | captain/bytearray.cpp:225-271 | a fixed-width word read back is the word written |
| Codec.VarintRoundTrip | captain/bytearray.cpp:273-309 | decoding a varint followed by anything yields the value and leaves the rest |
| Codec.VarintFits | captain/bytearray.cpp:158-183 | 5 bytes for 32 bits, 10 for 64 |
| Codec.PrefixFree | captain/bytearray.cpp:158-183 | no varint is a prefix of another |
| Codec.ZigRoundTrip | captain/bytearray.cpp:153-177 | zigzag decode undoes encode on all signed values of a word |
| Codec.StringRoundTripIff | captain/bytearray.cpp:199-217 | a length-prefixed string comes back iff its length fits the prefix |
| Codec.RoundTrip | captain/bytearray.cpp:69-217 | any typed value whose prefix fits comes back, whatever follows it, in either byte order |
| Codec.RoundTripAll | captain/bytearray.cpp:225-356 | any list of typed values comes back and exactly its bytes are consumed |
| CodecShapes.FixedBytesAt | captain/bytearray.cpp:79-124 | on the wire, byte `i` from the least significant end stands at place `i` in little-endian order and at the mirrored place in big-endian order, whatever the host |
| CodecShapes.TwoBytes | captain/bytearray.cpp:79-87 | the two bytes of a 16-bit word in each order |
| CodecShapes.UnVarintExact | captain/bytearray.cpp:273-309 | on any bytes, a varint read takes those that continue and the one that does not, at most as many as it looks at, runs out iff they end before, and has the value of the seven-bit groups taken |
| CodecShapes.TakesGroups | captain/bytearray.cpp:277-309 | the readers of 32 and 64 bits look at 5 and 10 groups and keep the low bits |
| CodecShapes.VarintShape | captain/bytearray.cpp:158-183 | a varint has the least number of groups for its value, all bytes but the last continue, and the groups are the base-128 digits |
| CodecShapes.TypedExactly | captain/include/bytearray.h:67-236 | the values each typed write admits, by the width and sign of its parameter |
| CodecShapes.FixedShape | captain/bytearray.cpp:69-124 | a fixed-width number takes 1, 2, 4 or 8 bytes, in two's complement |
| CodecShapes.VarShape | captain/bytearray.cpp:127-183 | a `uint` is a varint of at most 5 or 10 bytes, an `int` the varint of twice the number, or of twice its negation less one |
| CodecShapes.StringShape | captain/bytearray.cpp:199-217 | a string is its length, in 2, 4 or 8 bytes or as a varint, and its bytes |
| Blocks.RoundUpIsLeast | captain/include/bytearray.h:453-457 | the rounded-up number of nodes is enough and the least |
| Blocks.ShippedCountIff | captain/bytearray.cpp:561-599 | the shipped number of nodes is enough, and equals the rounded-up one, iff the remainder is 0 or exceeds the old room; otherwise it is one node short |
| Blocks.ShippedCountFallsShort | captain/bytearray.cpp:567-577 | one free byte and two to write get no node |
| Blocks.FlatUpdate | captain/bytearray.cpp:383-398 | writing inside one node is writing into the flat view |
| ByteArrays.ByteArray.constructor | captain/bytearray.cpp:34-43 | one empty node, cursor on it |
| ByteArrays.ByteArray.CopyIn | captain/bytearray.cpp:383-398 | `memcpy` into a node changes exactly that stretch of the flat bytes |
| ByteArrays.ByteArray.AddCapacity | captain/bytearray.cpp:561-599 | keeps content and cursor and adds the shipped number of nodes |
| ByteArrays.ByteArray.Write | captain/bytearray.cpp:373-417 | succeeds iff the shipped growth makes enough room, and then changes exactly the bytes from the old position on, for every node size |
| ByteArrays.ByteArray.Read | captain/bytearray.cpp:420-449 | the bytes at the position; out of range iff there are fewer; a crash iff nothing is read at full capacity |
| ByteArrays.ByteArray.ReadAt | captain/bytearray.cpp:452-480 | the bytes from the current node's origin plus the remainder of the position, and exactly when it crashes |
| ByteArrays.ByteArray.ReadAtRightIff | captain/bytearray.cpp:452-480 | these are the bytes asked for iff the position lies in the current node |
| ByteArrays.ByteArray.SetPosition | captain/bytearray.cpp:483-505 | refused beyond the capacity; otherwise cursor and size follow |
| ByteArrays.ByteArray.Clear | captain/bytearray.cpp:359-370 | the first node is left, nothing in it |
| ByteArrays.ByteArray.CursorIsQuotient | captain/bytearray.cpp:498-504 | the cursor node is position divided by node size, the capacity a whole number of nodes, the cursor null iff the position is the capacity |
| ByteArrays.GatherIsSlice | captain/bytearray.cpp:636-668 | segments that cover a stretch gather to that stretch of the flat bytes |
| ByteArrays.ListSegments | captain/bytearray.cpp:645-668 | the walk lists segments that cover the stretch, and runs off the list exactly when it ends too early |
| ByteArrays.Locate | captain/bytearray.cpp:491-504 | the walk from the root ends at the node of the position |
| ByteArrays.ByteArray.GetReadBuffers | captain/bytearray.cpp:636-668 | the segments hold exactly the next readable bytes |
| ByteArrays.ByteArray.GetReadBuffersAt | captain/bytearray.cpp:672-708 | the same from any position up to the cursor; from a later one it crashes exactly past the capacity |
| ByteArrays.ByteArray.GetWriteBuffers | captain/bytearray.cpp:710-742 | the segments cover the next bytes to write, and it crashes exactly when `write` would |
| ByteArrays.ByteArray.Fill | captain/bytearray.cpp:710-742 | filling the segments changes exactly that stretch of the flat bytes |
| ByteArrays.ByteArray.Receive | captain/bytearray.cpp:710-742 | filling the write buffers and setting the position leaves what `write` leaves |
| ByteArrayCodec.VarintBytes | captain/bytearray.cpp:158-183 | the loop computes the varint |
| ByteArrayCodec.ReadGroups | captain/bytearray.cpp:277-309 | the loop reads what the flat decoder reads, and leaves what it leaves |
| ByteArrayCodec.WriteAll | captain/bytearray.cpp:69-217 | every value lands in place iff every chunk finds room after the shipped growth |
| ByteArrayCodec.ReadValue | captain/bytearray.cpp:225-356 | a typed read agrees with the flat decoder, and crashes exactly for an empty string that ends at the capacity |
| ByteArrayCodec.ReadAll | captain/bytearray.cpp:225-356 | a list of values read back, and exactly its bytes consumed |
| ByteArrayCodec.WriteBackRead | tests/test_bytearray.cpp:6-25 | write any list of typed values, reposition, read the same types: the same list and exactly its bytes, for every node size, start position and byte order, with the two exact exceptions |
| ByteArrayDepartures.GrowthFallsShort | captain/bytearray.cpp:561-599 | a new array with nodes of more than one byte cannot take one byte more than a node |
| ByteArrayDepartures.EmptyStringCrashes | captain/bytearray.cpp:420-449 | an empty string that fills the last node crashes when it is read back |
| ByteArrayDepartures.ReadAtElsewhere | captain/bytearray.cpp:452-480 | a positional read of byte 0 from the second node returns byte 2 |
| HttpText.NumberOfDecimal | captain/http/http.cpp:204-205 | a printed number reads back |
| HttpText.DecimalReadsBack | captain/http/http_parser.cpp:214-219 | a decimal read into an `int` is right iff it is below 2^31 |
| HttpText.TrimExact | captain/http/httpclient_parser.cpp:729-760 | exactly the leading blanks go, and none iff there are none |
| HttpText.ConnectionLast | captain/http/http.cpp:259-276 | setting the headers of a printed response in order gives the expected map, key by key |
| HttpText.ConnectionFirst | captain/http/http.cpp:196-209 | the same for a request |
| HeaderReturns.ExpectedComesBack | captain/http/http.cpp:259-276 | each header comes back in its own spelling with its value less leading blanks, but for `connection`, which says `close` or `keep-alive`, and a `content-length` beside a body, the decimal of its size; and there is no other |
| HeaderReturns.DecimalSays | captain/http/http.cpp:272-276 | a printed number is decimal digits of that value, without leading zeros |
| CharacterClasses.TokenChars | captain/http/httpclient_parser.rl:123-126 | a header name of a response is made of the tokens of section 3.2.6 of RFC 7230 |
| CharacterClasses.TargetChars | captain/http/http11_parser.rl:129-142 | path, query and fragment take the characters of sections 3.3 to 3.5 of RFC 3986, and three more with `uri_relaxed` |
| PrintedTexts.ResponseParts | captain/http/http.cpp:243-278 | a response is status line, headers, `connection`, length, empty line and body, in this order |
| PrintedTexts.RequestParts | captain/http/http.cpp:180-211 | a request has `connection` in front of its headers, and no space behind their colons |
| PrintedTexts.StatusText | captain/http/http.cpp:243-257 | a status line with a reason of its own, character by character |
| PrintedTexts.PhraseText | captain/http/http.cpp:243-257 | and one without |
| PrintedTexts.RequestLineText | captain/http/http.cpp:180-194 | a request line, character by character |
| PrintedTexts.LineTexts | captain/http/http.cpp:196-211 | the lines of `connection`, of `content-length` and of a header, character by character |
| HeaderPrinting.DumpHeaders | captain/http/http.cpp:259-265 | the loop over the map prints every header but `connection`, in the order of the map |
| ResponsePrinting.Dump | captain/http/http.cpp:243-278 | the appended text is status line, headers, connection, length, empty line and body, the reason in it the one that was set, else the phrase of the status |
| ResponseLines.ReadName | captain/http/httpclient_parser.cpp:640-1120 | from the start of any line, a token name and its colon lead to the value state of that header through the keyword chains |
| ResponseLines.ReadText | captain/http/httpclient_parser.cpp:1120-1250 | a value is recorded under its name; it sets the length iff it is all digits, chunked iff it is that word, close pending iff it is that word |
| ResponseLines.ReadLine | captain/http/httpclient_parser.cpp:640-3331 | what a whole header line does, whatever line came before |
| ResponseParsing.ReadStatusLine | captain/http/httpclient_parser.cpp:440-640 | version, status and reason are recorded |
| ResponseParsing.ReadHeaders | captain/http/httpclient_parser.cpp:640-3331 | all headers of a map in any order, by induction over the lines |
| ResponseParsing.ReadHead | captain/http/httpclient_parser.cpp:96-3331 | the whole head in one buffer |
| ResponseRoundTrip.PrintThenParse | captain/http/http_parser.cpp:205-261 | printing a response with token names and one-line values and parsing it ends in state 120 at the first byte of the body with the same status, the reason that was set, else the phrase, and the headers as `HeaderReturns.ComeBack` says; close iff closed; chunked iff so encoded; content length the body size iff below 2^31; version iff 1.0 or 1.1, else error 1001 |
| ResponseRoundTrip.ReceivedReply | captain/http/http.cpp:243-278 | status, reason and headers of the response that comes back, in terms of the one printed: the reason that was set, else the phrase |
| ResponseRoundTrip.HeaderReturnsIff | captain/http/http.cpp:259-265 | a header comes back unchanged iff its value starts with no blank |
| ResponseRoundTrip.ParsesHead | captain/http/http_parser.cpp:205-261 | the head alone decides the result, whatever part of the body follows it in the buffer |
| ResponseRoundTrip.LeadingBlankLost | captain/http/httpclient_parser.cpp:729-760 | a value of a blank and a letter comes back as the letter |
| ResponseRoundTrip.LengthWraps | captain/http/http_parser.cpp:214-219 | a body of 2^31 bytes or more, below 2^32, has a negative content length |
| ResponseParsers.ResponseParser.constructor | captain/http/httpclient_parser.cpp:70-92 | the registers at the start |
| ResponseParsers.ResponseParser.Loop | captain/http/httpclient_parser.cpp:112-3285 | the loop over the bytes is the scan by the table |
| ResponseParsers.ResponseParser.Parse | captain/http/httpclient_parser.cpp:96-3308 | one call of the generated parser: it takes what its table takes, aborts iff an assert fails, and reports -1 iff a check does |
| ResponseParsers.ResponseParser.Execute | captain/http/http_parser.cpp:278-287 | with `chunck` the parser starts again and keeps the response; what is left moves to the front, unless the call aborts or strays |
| ResponseParsers.FreshRuns | captain/http/httpclient_parser.cpp:3292-3308 | a parser that starts, or starts again, passes every assert and check on any text, and gets -1 iff there is none |
| ResponseParsers.ScanInBuffer | captain/http/httpclient_parser.cpp:3292-3297 | registers that start inside the buffer stay there |
| ResponseParsers.TakesHead | captain/http/http_parser.cpp:278-287 | a new parser takes exactly the head of a printed response |
| ResponseParsers.ResponseParser.Finish | captain/http/httpclient_parser.cpp:3310-3331 | error iff state 0, finished iff state 120 |
| ResponseParsers.PrintAndParse | captain/http/http_parser.cpp:278-287 | dump, `execute` on the head and any first part of the body, `isFinished`: the count is the size of the head, the body bytes are at the front, and the response is the one printed: status, the reason that was set, else the phrase, and the headers; it aborts iff the text does not fit an `int` |
| ResponseChunks.HexReadsBack | captain/http/httpclient_parser.cpp:150-165 | a size printed in hexadecimal reads back |
| ResponseChunks.ReadsChunkHeader | captain/http/httpclient_parser.cpp:240-250 | a parser that starts, or starts again, takes exactly a printed chunk header, whatever follows, and has its size iff that is below 2^31; the chunks are done iff the size it has is not positive |
| RequestMethods.MethodReadsBack | captain/http/http.cpp:22-50 | `CharsToHttpMethod` undoes `HttpMethodToString`, whatever follows the name |
| RequestMethods.MethodSpelling | captain/http/http.h:26-68 | every method but `M-SEARCH` is spelt in letters the table takes |
| RequestVerbs.VerbNumber | captain/http/http.h:26-68 | each enumerator is printed in its own spelling and read back, whatever follows, as its own number |
| RequestPrinting.Dump | captain/http/http.cpp:180-211 | the appended text is request line, connection, headers, length, empty line and body |
| RequestTarget.ReadMethod | captain/http/http11_parser.rl.cpp:3476-3698 | a method name is read back as its number |
| RequestTarget.ReadTarget | captain/http/http11_parser.rl.cpp:153-1172 | path, query and fragment of any length, with percent triplets, are recorded |
| RequestTarget.ReadEncoded | captain/http/http11_parser.rl.cpp:737-1100 | characters and percent triplets keep the machine in its part |
| RequestTarget.ReadVersion | captain/http/http11_parser.rl.cpp:270-372 | `HTTP/1.0` and `HTTP/1.1` are recorded |
| RequestTarget.RefuseVersion | captain/http/http11_parser.rl.cpp:270-372 | every other version is an error |
| RequestTarget.RefuseMSearch | captain/http/http11_parser.rl.cpp:3476-3698 | `M-SEARCH` is an error |
| RequestLines.ReadLine | captain/http/http11_parser.rl.cpp:372-640 | a header line records its name and its value without leading blanks |
| RequestRoundTrip.ReadHead | captain/http/http11_parser.rl.cpp:91-1172 | the whole head in one buffer |
| RequestRoundTrip.PrintThenParse | captain/http/http_parser.cpp:92-167 | printing a request of the grammar and parsing it finishes in state 348, with exactly the header consumed and the same method, path, query, fragment, version and headers plus connection and length, iff the method is not `M-SEARCH` and the version is 1.0 or 1.1; else it is an error |
| RequestRoundTrip.ReceivedMeans | captain/http/http_parser.cpp:92-167 | method, path, query, fragment, version and headers of the request that comes back, in terms of the one printed |
| Cuts.CutsAgree | captain/http/http11_parser.rl.cpp:91-115 | for any table, the final state and the offset it stops at are the same for every cut of the stream into reads |
| Cuts.ErrorAbsorbs | captain/http/http11_parser.rl.cpp:6628-6632 | after an error every call of any series leaves the state, the data and `query_start` as they are and takes nothing |
| Cuts.ScanControl | captain/http/http11_parser.rl.cpp:91-115 | the parser with all its callbacks follows its table, whatever the sub-table, unless a callback throws |
| Cuts.CutAtRest | captain/http/http11_parser.rl.cpp:91-97 | a cut between two tokens changes neither the state, nor the data, nor the offset |
| Cuts.RestingCutsAgree | captain/http/http11_parser.rl.cpp:91-97 | any number of such cuts give the data of one call on the whole, for any text |
| Cuts.AssertsHold | captain/http/http11_parser.rl.cpp:6636-6640 | the asserts at the end of a call never fail: no mark or field lies outside the buffer |
| Cuts.AssertsHoldOn | captain/http/http_session.cpp:22-49 | nor in any call `recvRequest` makes, after any pieces |
| CutTokens.SplitMethodRefused | captain/http/http11_parser.rl.cpp:94-97 | `GET` in two reads is error 1000, in one read it is GET |
| CutTokens.ResumedQueryIff | captain/http/http11_parser.rl.cpp:94-97 | a call that resumes inside a query, inside a percent triplet or not, throws iff the query, ended by a space or `#`, ends before the offset at which it began in the earlier buffer; otherwise its query is the text from that offset |
| CutTokens.CutQueryThrows | captain/http/http11_parser.rl.cpp:94-97 | `GET /aaaa?x` and `y HTTP/1.1` in two reads throw |
| CutRelation.LagsNext | captain/http/http11_parser.rl.cpp:91-97 | byte by byte, cuts only ever move starts on and make recorded names shorter |
| CutLoss.CutLoses | captain/http/http11_parser.rl.cpp:94-97 | a cut inside a method, path, query, fragment, name or value, or inside a version other than at the end of 1.1, loses it |
| CutLoss.HoldsNext | captain/http/http11_parser.rl.cpp:91-97 | what is lost stays lost at every byte |
| CutPieces.LossStays | captain/http/http_session.cpp:22-49 | and through every later piece, to the end of the request |
| CutPieces.HarmShows | captain/http/http_session.cpp:22-49 | with any harmful cut the calls throw or end with something lost, for any text taken whole |
| CutEven.PieceEven | captain/http/http11_parser.rl.cpp:91-97 | from a harmless cut on, a call records what a single call records |
| CutHarmless.HarmlessKeep | captain/http/http_session.cpp:22-49 | with harmless cuts only, the calls are never refused and end with the data of a single call, for any text taken whole |
| CutHarmless.ScanPastQuery | captain/http/http_parser.cpp:124-127 | behind the query nothing throws and the query stays |
| HeaderTotals.PrintedTotal | captain/http/http.cpp:196-209 | the names of the headers of a printed request, none of them printed twice, add up to the names printed |
| CutPrinted.CallsPaid | captain/http/http_parser.cpp:150-167 | whatever the calls, the header map has no more in names than was recorded |
| CutPrinted.HarmlessPieces | captain/http/http_session.cpp:22-49 | a printed request with harmless cuts only is never refused, and once complete it is the one printed |
| CutPrinted.HarmfulPieces | captain/http/http_session.cpp:22-49 | a printed request, none of its headers printed twice, with a harmful cut throws, or does not finish, or ends as another request |
| CutOverwritten.OverwrittenLineMayBeCut | captain/http/http.cpp:196-209 | but a `content-length` line of the request's own, which the printed one overwrites, can be cut and the request still comes back |
| Streams.ReadFixSize | captain/stream.cpp:5-17 | all the bytes in order, or a failure when the source runs dry; the count as an `int` |
| Streams.WriteFixSize | captain/stream.cpp:31-44 | all the bytes in order, or as many as the sink takes and a failure |
| Streams.LooksFailedIff | captain/stream.cpp:5-17 | the counts that look like a failure as an `int` |
| Sessions.RequestParser.constructor | captain/http/http_parser.cpp:169-182 | the parser at the start |
| Sessions.RequestParser.Loop | captain/http/http11_parser.rl.cpp:110-6620 | the loop over the bytes is the scan by the table |
| Sessions.RequestParser.Execute | captain/http/http_parser.cpp:192-196 | one call of the parser, then what is left is moved to the front |
| Sessions.PrintedLength | captain/http/http_parser.cpp:184-187 | the content length of a printed request is the size of its body |
| Sessions.BodyLengthExact | captain/http/http_parser.cpp:184-187 | text by text: none without the header or for one that is not a number, a number below 2^63 says that many bytes and a larger one none, and a minus sign counts down from 2^64 |
| Sessions.ReadTurn | captain/http/http_session.cpp:22-49 | one turn of the header loop keeps the table's verdict on the bytes so far, and leaves nothing over unless it is the last |
| Sessions.ReadHead | captain/http/http_session.cpp:22-49 | the loop ends ready exactly behind the header, with what follows it at the front of the buffer |
| Sessions.ReadBody | captain/http/http_session.cpp:51-68 | the bytes in the buffer and then the missing ones, or nothing exactly when they run out or the count looks like a failure |
| Sessions.RecvRequest | captain/http/http_session.cpp:11-76 | the body is exactly as many bytes after the header as the content length says, for every cut and every sub-table; nothing comes back iff the header does not end well, the stream ends early or the count of the bytes missing looks like a failure; a later call reads on behind the body, or behind what the header loop had read if that is more |
| Sessions.ReceivePrinted | captain/http/http_session.cpp:11-76 | a printed request received in pieces comes back with its body iff every cut is harmless, the content length says the size of the body and the count of the bytes missing does not look like a failure; if it prints `content-length` twice, only if the last two hold and if all three do; what follows it is left for the next call but for the bytes read beyond the body |
| Sessions.PrintedBody | captain/http/http_session.cpp:51-54 | the content length says the size of every body below 2^63, and of an empty one unless the request has a `content-length` of its own |
| Scanning.Loop | captain/http/http11_parser.rl.cpp:110-6620 | the loop over the bytes that both generated parsers run is the scan by their table |
| AuthorityTargets.AuthorityFinishes | captain/http/http11_parser.rl.cpp:1173-1275 | with the edges of the generated code for a one-letter host, `GET //h/ HTTP/1.1` and an empty line end in state 348 |

## Left out

- Liveness, such as that a timeout always wakes its fiber: the timer is armed before the event, so only safety is decided by the code.
- Real context switching, memory ordering, stacks and destructors: a slice is two atomic steps, so the window at captain/fiber.cpp:237, where a fiber is on HOLD before its context is saved, lies below the granularity.
- The lookup and resize of `addEvent` and the emptiness check of `listExpiredCb` across their change of locks are one step; what a stale resize does is stated by `EventTable.ResizeKeepsIff`.
- `tickle` is not delivered when threads are idle (captain/iomanager.cpp:275): the wake-up property reaches the call of `onTimerInsertedAtFront`.
- EventTable.StaleResizeLosesWaiter: epoll's `data.ptr` is not modelled; through it readiness still finds the dropped context and fires its waiter.
- Closing and reusing a descriptor while events are armed, and negative descriptors.
- A timeout callback of `do_io` is two steps, the lock of its `timer_info`, and the mark with the cancellation; what happens between mark and cancellation is not told apart.
- `do_io` is a step relation over any number of calls, not a method with a loop: its races are between calls, and one call alone has none.
- TimerManagers.TimerManager.AddTimer: an empty `std::function` cannot be passed; the code would take such a timer for a cancelled one that is still in the set.
- IOManagers.IOManager.Add: a call from a thread without a scheduler, where `Scheduler::GetThis()` is null, cannot be made; the code would arm a bit with nobody to hand the task to, and trigger through a null pointer.
- Quiescence.StoppingIsFinalIff: `stopping` reads the timers, the pending count and the scheduler under three locks, one after the other; here it reads them at one instant.
- Timers are records in a map keyed by address, not objects with pointers; addresses are never reused.
- The linked list of `ByteArray` is a sequence of arrays and the cursor an index into it.
- ByteArrays.ByteArray.constructor: with a node size of 0 the object is made and none of its methods is modelled; every later call would divide by it.
- ByteArrays.ByteArray.Receive: a receive that fills all the bytes asked for; partial receives are not modelled.
- `writeToFile`, `readFromFile`, `toString`, `toHexString` and the bit copies of floats and doubles.
- The phrase table of `HttpStatusToString`: a response carries the phrase of its status, any non-empty line.
- Negative status values, and method numbers beyond the table, which print as `<unknown>`.
- ResponseParsers.ResponseParser.Execute: without `chunck` the registers of an earlier call are kept, and reads past the end of the buffer are cut off at it; what such a call records is stated by the table, not in terms of the text.
- The 293 states for targets with an authority, IPv6 addresses, XML and JSON messages: any table of edges stands for them, so what such a message records is not characterised, only that the verdict on it does not depend on the cuts.
- RequestRoundTrip.PrintThenParse: paths that are empty or start with one slash; relative paths and absolute URIs are in the table but not in the round trip.
- Allocation failures of a very large body, and a header buffer of 2^31 bytes or more, whose offsets would not fit an `int`.
- `getHeaderAs` is modelled for `content-length`; locale digit groups of `lexical_cast` are not.
- Sessions.ReceivePrinted: for a request that prints `content-length` twice, the exact cuts are not stated. One that loses the overwritten line is harmless, and one inside its name leaves a header named by the rest of the name, which is harmful or makes up for another loss, depending on the other headers.
- CutPrinted.HarmfulPieces: for the same requests.
- Addresses, sockets, threads, logging, configuration, servlets and the server loops: wrappers and lookups that would only add easy members.
