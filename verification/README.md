# Verified model of the tirtc concurrency and ownership layer

This project models the hand-written protocol code of the tirtc Python SDK, the part that sits
between user threads and the closed native Runtime, and proves what it keeps in every
interleaving: the callback dispatcher and its worker pool, the connect/cancel/disconnect race, the
retryable close coordinator and the ownership tree built on it, the process-wide lease ledger, the
binding of outputs to their parents, the terminal result of an export, and the handle and callback
task ownership of the C extension.

`dafny verify dfyconfig.toml` checks everything.

## How the model is built

* **Blocks as functions, code as methods.** Every block run under a lock is a function from the
  fields before it to the fields after it (`EventQueue`, `ConnectBlocks`, ...). Where the source
  mutates an object, a class with the same fields has a method per block, with the source's own
  branches and scan loops, and its `ensures` equates the new state and the results with that
  function. What the block is *for* is then proved about the function.
* **Threads as transition systems.** One step is one lock-protected block, one wait that ends, or
  one unprotected read or write of a shared field. There are arbitrarily many threads, workers,
  dispatchers, attempts, outputs, parents and handles, and a run is any sequence of enabled steps.
  Native calls answer with arbitrary codes, and Runtime callbacks are steps that may come at any
  time. Main results speak of all runs from the initial state, or of all continuations of a state
  that satisfies a proved invariant.
* **History.** Fields that the code does not have (`stamp`, `sent`, `fates` and `log` in
  `DispatchHistory`, `ended` in `CloseCoordinators`, `trace` in `LeaseLedger`, the counters of
  `OwnershipTree.Node`, `seen` in `CloseWaits`, `live` and `owner` in `NativeHandles`) record what
  happened. No modelled decision reads them.

The files build on each other in this order: `EventQueue` and `Dispatcher`; `DispatchHistory`,
`QueueBounds`, `FrameAccounting`, `FrameLoss` and `DispatchInvariant` for one dispatcher;
`Scheduler`, `SchedulerProgress`, `Waiters` and `DispatchGuarantees` for all of them with their
workers; `CallbackTasks` and `TaskDelivery` for the native hand-off on top of them. `ConnectBlocks`,
`ConnectProtocol`, `ConnectOutcome`, `ConnectOrigin`, `ConnectEffects` and `ConnectProgress` are the
connect race, `ExportTask` and `ExportOutcome` the export, `OutputBinding` and `OutputOrphans` the
outputs. The closes called from callbacks are `CloseWaits`, with `CloseCycles`
and `CloseJoins` for threads that wait for one another, `CloseFlags`, `CloseRuns` and `CloseTraps`
for exactly when that can come about, and `CallbackReach` for the guard. The other files stand by
themselves.

## What the code does not guarantee

The model follows the code. These properties, which a reader might expect, do not hold. Each has a
concrete counterexample, or a run that reaches one, next to the exact condition or the weaker
property that does hold.

* `post` called with both `latest` and `frame` overwrites a queued non-frame event in place and
  leaves `_frame_count` behind (`CounterBreaks`); `CounterExactIff` says this is the only way. The
  flags `_native_sink` derives from a kind exclude each other (`SinkFlagsDisjoint`), so behind it
  the counter is exact.
* An error event that says CONNECTING while the connection is CONNECTED is dropped together with
  its code (`ErrorEventDropped`); `FailingEventAccounted` is the exact condition.
* The timeout's own cancel call is made before the `try` that sets `finished`. When it raises,
  `finished` is never set and the attempt stays active for ever (`FinishedIff`,
  `AttemptLeftActive`); a late disconnect event then makes every `disconnect()` and `close()` wait
  for ever (`CloseWaitsForever`, reached by `EscapeReachable`). `EscapeIff` gives the exact guard,
  `WaitEndsIff` and `ActiveIff` say exactly when the wait ends and the attempt is cleared; a cancel
  error raised inside that `try` leaves it active too (`ActiveByCancel`).
* A lost frame is announced by the next accepted frame, which need not be the next one delivered.
  Frames that were queued behind an evicted one come first (`EvictionAnnouncedLate`), and
  after a refusal the marked frame can itself be evicted (`RefusalMissed`). `EvictionAnnouncedIff`,
  `LaterEvictionDecides` and `RefusalAnnounced` say exactly when the first newer frame delivered
  carries the discontinuity value.
* Between the two halves of `detach`, `_bound` is already None but the output is still in its
  parent's set. Attaching it to the same parent again at that moment lets the pending discard
  unregister the new binding, and the parent then closes with the output still bound
  (`BoundToClosedParent`). `ClosedBoundIff` is the exact condition over all runs and
  `AttachDangerousIff` the exact discipline for a caller.
* No thread ever waits for its own callback directly (`NoSelfWait`), but the guards look at the
  thread's own callback only, and threads can wait for one another: two callbacks close each other's
  replay, detach each other's output, or join a close that waits for them. Such a cycle is for ever,
  whatever its length (`CycleForever`). A caller who begins no close and no detach from a callback
  excludes every cycle in every reachable state (`NoCycle`), and whoever waits is then held up by a
  thread that can go on (`WaitsEnd`). Conversely a single callback that breaks this is exposed: once
  it waits, a continuation that catches it in a cycle exists, with one exception, a callback of an
  output that another thread is detaching, which is in no close of its own (`TrapIff`). Seen before
  the call: `DetachTrapIff`, `JoinTrapIff` and `CloseTrap`, the last without an exception. The
  continuations need other threads to call from callbacks, too, except for one shape: `OneViolator`
  says that with one such thread alone every cycle is a close that it joined from the callback of an
  output attached below after the guard had looked. `DeadlockReachable`, `DeadlockForever`,
  `DeadlockAhead` and `DeadlockMeansMoved` are about that shape.
* A parent can be "closed" while a recording, replay or export beneath it still says "closing": these
  tell their parent before they call `succeed` (`ParentClosedFirst`). Their native objects are
  destroyed by then, and `succeed` is all they have left (`TreeClose`).

## Model

| member | source | states |
|---|---|---|
| Dispatchers.Dispatcher.constructor | src/tirtc/_dispatch.py:116-132 | A new dispatcher is open and empty, with no ticket and no handler running; without a frame capacity the whole capacity is available to frames. |
| Dispatchers.Dispatcher.FindLatest | src/tirtc/_dispatch.py:151-156 | The reverse scan finds the last queued non-frame event of the kind, or none when there is none at all. |
| Dispatchers.Dispatcher.FindNonTerminal | src/tirtc/_dispatch.py:164-170 | The eviction scan finds the first non-terminal event: everything before it is terminal, and none is found only in an all-terminal queue. |
| Dispatchers.Dispatcher.ContainsTerminal | src/tirtc/_dispatch.py:172-174 | True exactly when a terminal event of the kind is queued. |
| Dispatchers.Dispatcher.Post | src/tirtc/_dispatch.py:139-187 | The imperative `post` with its loops refines the queue function `EventQueue.Post`: whole new state, result and whether the caller got a ticket to schedule. |
| Dispatchers.Dispatcher.Append | src/tirtc/_dispatch.py:176-184 | The tail of `post` refines `EventQueue.Admit`. |
| Dispatchers.Dispatcher.DrainBegin | src/tirtc/_dispatch.py:189-198 | The first block of a drain refines its queue function; a stale ticket gives no work. |
| Dispatchers.Dispatcher.DrainEnd | src/tirtc/_dispatch.py:209-214 | The second block of a drain refines its queue function and says whether to schedule again. |
| Dispatchers.Dispatcher.PostNativeTask | src/tirtc/_dispatch.py:218-226 | `post_native_task` after its wait refines its queue function. |
| Dispatchers.Dispatcher.CloseBegin | src/tirtc/_dispatch.py:236-239 | `close` up to its wait changes `_closed` and nothing else. |
| Dispatchers.Dispatcher.Discard | src/tirtc/_dispatch.py:243-251 | The filtering loop of `discard` keeps exactly the native tasks, in order, and refines its queue function. |
| EventQueue.LatestSlot | src/tirtc/_dispatch.py:151-156 | The slot `post` coalesces into is the last matching one; no slot means no match anywhere. |
| EventQueue.FirstNonTerminal | src/tirtc/_dispatch.py:164-172 | The victim of an eviction is non-terminal with only terminals before it; no victim means all are terminal. |
| EventQueue.NativeTasks | src/tirtc/_dispatch.py:245-247 | What `discard` keeps are exactly the queued native tasks. |
| EventQueue.ForceMarker | src/tirtc/_dispatch.py:176-178 | A marked frame ends in the discontinuity flag True and otherwise keeps the number and the values posted, each in its place; one posted with no values gets the flag alone. |
| DispatchHistory.SinkFlagsDisjoint | src/tirtc/_dispatch.py:254-267 | No kind is two of frame, terminal and latest, and no latest kind is a native task. |
| DispatchHistory.SentIsPosted | src/tirtc/_dispatch.py:254-284 | What an operation posts has the kind and values it was given and the flags of its kind; no other operation posts anything. |
| DispatchHistory.IdentityKept | src/tirtc/_dispatch.py:139-251 | Through every operation each post has exactly one place: queued once, running, or settled; what is queued or delivered has exactly the values that were posted, apart from the last value of a marked frame. |
| DispatchHistory.FatesForward | src/tirtc/_dispatch.py:139-251 | Queued events run, are coalesced over, evicted or discarded; a running one only finishes; nothing settled comes back and nothing runs twice. |
| DispatchHistory.BarrierSettlesEverything | src/tirtc/_dispatch.py:231-234 | When the wait condition of `barrier` is met, every event ever posted has run to its end, been coalesced over, evicted, discarded or refused. |
| QueueBounds.CounterExactIff | src/tirtc/_dispatch.py:151-181 | `post` keeps `_frame_count` equal to the queued frames if and only if it does not coalesce a frame over a non-frame. |
| QueueBounds.CounterBreaks | src/tirtc/_dispatch.py:151-156 | The concrete call after which the counter is wrong. |
| QueueBounds.FramesBoundedKept | src/tirtc/_dispatch.py:157-197 | Behind the sinks `_frame_count` equals the number of queued frames and never exceeds the frame capacity, through every operation. |
| QueueBounds.BoundedKept | src/tirtc/_dispatch.py:160-175 | For capacity at least one the queue is within capacity or all-terminal, and never exceeds `capacity - 1` plus the kinds it holds. |
| QueueBounds.KindsNativeTasks | src/tirtc/_dispatch.py:243-247 | Discarding keeps the bound: it cannot remove more kinds than events. |
| QueueBounds.OverCapacity | src/tirtc/_dispatch.py:160-175 | In numbers: at most one event over capacity when no native task is queued, at most two in any mixture. |
| QueueBounds.TerminalsSafe | src/tirtc/_dispatch.py:164-175 | No post changes the fate of an accepted terminal event, and no operation at all drops an accepted native task. |
| QueueBounds.RefusedIff | src/tirtc/_dispatch.py:148-175 | When exactly a post is refused, by kind: a frame at the frame capacity or a full queue; a terminal event when the queue is full of terminals with its own kind among them; any other event when it is full of terminals and there is nothing to overwrite; anything once closed. |
| QueueBounds.EvictsOldest | src/tirtc/_dispatch.py:160-179 | An eviction takes the oldest non-terminal event, only from a full queue and only for a non-frame, and leaves the order of the others. |
| QueueBounds.LatestUnique | src/tirtc/_dispatch.py:151-156 | At most one event of a latest kind is queued. |
| QueueBounds.LatestOverwrites | src/tirtc/_dispatch.py:151-156 | A queued event of the kind of a latest post is overwritten in its place. |
| QueueBounds.LatestFreshKept | src/tirtc/_dispatch.py:151-156 | Through every operation the queued event of a latest kind is the newest accepted post of that kind. |
| FrameAccounting.InOrderKept | src/tirtc/_dispatch.py:139-251 | Events delivered so far followed by events queued are always in post order, frames and native tasks included, whatever was evicted or discarded; only latest kinds may take an older place. |
| FrameAccounting.LossesCoveredKept | src/tirtc/_dispatch.py:157-181 | While open, for every frame refused or evicted either the drop flag is set or a newer frame, queued or delivered, carries the forced discontinuity value. |
| FrameAccounting.NextFrameAnnounces | src/tirtc/_dispatch.py:176-178 | A set drop flag is cleared by the next accepted frame only, and that frame is stored with the forced value. |
| FrameAccounting.RefusalAnnouncedNext | src/tirtc/_dispatch.py:157-178 | After a refused frame and any operations that accept none, the next accepted frame carries the forced value. |
| FrameAccounting.MarkedIffLost | src/tirtc/_dispatch.py:157-178 | Over every run the drop flag is set exactly when a frame has been lost and none accepted since, and an accepted frame is marked exactly then and otherwise stored with the values it was posted with. |
| FrameAccounting.EvictionAnnouncedLate | src/tirtc/_dispatch.py:164-178 | A run in which a frame is evicted and the next delivered frame is not marked. |
| FrameLoss.AnnouncedIff | src/tirtc/_dispatch.py:157-197 | From any state with a pending loss and for every continuation that evicts no newer frame: the first newer frame delivered carries the discontinuity value if and only if no newer frame is queued, or the first one queued carries it already. |
| FrameLoss.EvictionAnnouncedIff | src/tirtc/_dispatch.py:164-179 | For every post that evicts a frame and every continuation that evicts no newer one, the first frame delivered after the lost one carries the value if and only if `_frame_count` was 1 before the call or the next queued frame already carries it. |
| FrameLoss.LaterEvictionDecides | src/tirtc/_dispatch.py:164-179 | For any older loss not announced yet, refused or evicted, the last eviction of a newer frame decides by the same condition. |
| FrameLoss.RefusalAnnounced | src/tirtc/_dispatch.py:157-179 | After a refused frame and in every continuation that evicts no newer frame, the first newer frame delivered carries the value. |
| FrameLoss.RefusalMissed | src/tirtc/_dispatch.py:157-179 | A run in which the marked frame after a refusal is itself evicted and the first newer frame delivered is unmarked. |
| DispatchInvariant.TasksNeverLostKept | src/tirtc/_dispatch.py:164-251 | An accepted native task is queued, running or done, through every operation. |
| DispatchInvariant.DispInvKept | src/tirtc/_dispatch.py:139-251 | Every block keeps the whole invariant of a dispatcher: identity, counter, bound, freshness, order, loss accounting and task safety. |
| Scheduler.TicketInvKept | src/tirtc/_dispatch.py:68-252 | Every block of every thread keeps at most one ticket per dispatcher, in step with `_scheduled` and `_executing`. |
| Scheduler.InvReachable | src/tirtc/_dispatch.py:68-252 | The ticket invariant and each dispatcher's invariant hold after every interleaving of posters, workers, closes and discards. |
| Scheduler.OneTicket | src/tirtc/_dispatch.py:182-216 | At most one outstanding ticket per dispatcher; while it is open, `_scheduled` holds exactly when that ticket exists. |
| Scheduler.SerialAndAwake | src/tirtc/_dispatch.py:68-79 | Callbacks of one dispatcher never overlap, `_executing` holds exactly when a worker handles its event, and a dispatcher with a queued event always has a ticket. |
| Scheduler.BarrierSound | src/tirtc/_dispatch.py:231-234 | Every event accepted before `barrier` returned is settled and keeps its fate in every continuation. |
| Scheduler.WaitsMean | src/tirtc/_dispatch.py:228-240 | In every reachable state a close, and a barrier, can return exactly when nothing is queued and no worker is in the handler, and a barrier of an open dispatcher exactly when nobody has a ticket. |
| Scheduler.SettledStays | src/tirtc/_dispatch.py:139-251 | In every continuation a settled event keeps its fate. |
| Scheduler.CloseAbsorbing | src/tirtc/_dispatch.py:189-241 | After `close` returned, closed, empty and not executing is absorbing and no handler ever runs again, even with a ticket still in the ready queue. |
| Scheduler.DiscardStaleIff | src/tirtc/_dispatch.py:243-251 | `discard` leaves a stale ticket exactly when one is outstanding, no handler runs and no native task is queued. |
| Scheduler.ScheduleIsTicket | src/tirtc/_dispatch.py:182-186 | The flag on which a post calls the executor says exactly that its call created the ticket. |
| DispatchGuarantees.ReachableQueue | src/tirtc/_dispatch.py:139-187 | In every reachable state: counter exact and within the frame capacity, at most one event over capacity (two with native tasks mixed in), at most one queued event per latest kind and that the newest accepted. |
| DispatchGuarantees.TerminalsLive | src/tirtc/_dispatch.py:164-251 | Over every run an accepted terminal event is queued, running or done unless its dispatcher is discarded, a native task even then. |
| DispatchGuarantees.TerminalsDelivered | src/tirtc/_dispatch.py:68-252 | Whenever a run can go no further without new posts, every terminal event accepted along it, on a dispatcher not discarded since, has run to its end. |
| SchedulerProgress.FifoOrder | src/tirtc/_dispatch.py:68-74 | In any interleaving the tickets taken are exactly those that stood first, in order. |
| SchedulerProgress.BoundedBypass | src/tirtc/_dispatch.py:68-74 | With N dispatchers a ready ticket is taken after at most N - 1 others, all of different dispatchers. |
| SchedulerProgress.DrainTerminates | src/tirtc/_dispatch.py:189-216 | Once posting stops every schedule of the remaining steps is finite, with an explicit bound. |
| SchedulerProgress.DrainComplete | src/tirtc/_dispatch.py:189-241 | With at least one worker, a state with no step left satisfies the wait condition of every `barrier` and `close`. |
| Scheduler.WakeupsSent | src/tirtc/_dispatch.py:189-251 | Every step that turns the condition of a waiting `barrier`, `close` or `post_native_task` true runs a block that ends in `notify_all`; the stale-ticket block, which does not notify, never does. |
| Waiters.NobodyLeftAsleep | src/tirtc/_dispatch.py:189-251 | Over every run with sleeping waiters woken by `notify_all` only: nobody sleeps on a condition that is met, and once the workers have nothing left nobody sleeps in `barrier` or `close`, nor in `post_native_task` of a closed dispatcher or for a capacity of at least one. |
| CallbackTasks.NativeCallbackTask.Run | native/extension.c:410-417 | The function is cleared, and called once in the process that created it; a second run does nothing. |
| CallbackTasks.NativeCallbackTask.Finalize | native/extension.c:419-427 | The capsule's destructor runs a task that has not run, in its own process, then frees it. |
| CallbackTasks.FirstCallDecides | native/extension.c:410-427 | Over every history of runs and destructors the first one spends the task, calling the function exactly if it happens in the process that made the task, and the struct is freed exactly by a destructor. |
| CallbackTasks.PostKeepsTerminal | src/tirtc/_dispatch.py:151-175 | A queued terminal event of another kind survives every post, whatever its flags. |
| CallbackTasks.QueueOpKeepsTasks | src/tirtc/_dispatch.py:139-251 | Neither posts nor `close` nor `discard` put a native task into the queue or take one out. |
| CallbackTasks.TaskInvKept | native/extension.c:438-462 | Every step of the Runtime, the workers and the garbage collector keeps: one pending or one past run per task, and freed exactly when nobody refers to it. |
| CallbackTasks.ExactlyOnce | native/extension.c:409-462 | Over every interleaving a task runs at most once, and exactly once by the time its capsule is gone: drained, rejected by a closed dispatcher, dropped with a dead one, kept across `discard`, or run without a capsule. |
| CallbackTasks.AllRunWhenQuiet | src/tirtc/_dispatch.py:272-286 | When the native calls have returned and the dispatcher is drained or gone, every task ever handed over has run exactly once. |
| TaskDelivery.TasksDelivered | native/extension.c:438-462 | In every run of the whole scheduler with native threads handing tasks over: each task runs at most once, and exactly once by the time the run can go no further. |
| ConnectBlocks.Connection.HandleStateEvent | src/tirtc/_core.py:427-455 | The method refines the state-event function: new state, attempt and user callback. |
| ConnectBlocks.Connection.HandleManagedComplete | src/tirtc/_core.py:476-483 | The method refines the completion function. |
| ConnectBlocks.Connection.BeginConnect | src/tirtc/_core.py:485-503 | A new attempt begins exactly outside callbacks, on an open connection, in the right mode and with none active; every refusal is told apart as the source does and changes nothing. |
| ConnectBlocks.Connection.EnterCancelConnect | src/tirtc/_core.py:540-553 | The method refines the decision to perform, join or skip a cancel. |
| ConnectBlocks.Connection.FinishConnect | src/tirtc/_core.py:505-516 | CONNECTED is stored exactly for code 0 without error; the attempt is cleared and finished. |
| ConnectBlocks.FailingEventAccounted | src/tirtc/_core.py:427-455 | A disconnect or error event is folded into a failing attempt or handed to the user callback, except exactly when no attempt is active and it changes nothing or says CONNECTING while CONNECTED. |
| ConnectBlocks.ErrorEventDropped | src/tirtc/_core.py:449-450 | The concrete error event that is dropped. |
| ConnectBlocks.ChangesReported | src/tirtc/_core.py:449-455 | With no attempt active, an event changes `_state` only if it is reported to the user, and what is reported is what `_state` then says. |
| ConnectBlocks.ActiveAttemptAbsorbs | src/tirtc/_core.py:434-448 | While an attempt is active no state event reaches the user, and the CONNECTED event that completes it moves its code to 0. |
| ConnectProtocol.InvKept | src/tirtc/_core.py:476-630 | Every step of connecting threads, cancel calls, events and completions keeps the protocol invariant: one performer per cancel, outcome fields consistent with every thread's position. |
| ConnectOutcome.TerminalUp | src/tirtc/_core.py:427-483 | Over every run `terminal_code` only moves up None < 0 < nonzero, a nonzero code is final, `done` is set exactly when there is a code, and the error of a cancelled attempt is written once. |
| ConnectOutcome.StartsCancelOnce | src/tirtc/_core.py:540-553 | A cancel starts only on an attempt that is not cancelled yet, has no code and whose thread has not made its cancel decision. |
| ConnectOutcome.AtMostOneCancel | src/tirtc/_core.py:518-587 | Over every run at most one cancel is performed per attempt, and none starts once its thread is past its cancel decision. |
| ConnectOutcome.Frozen | src/tirtc/_core.py:505-538 | Once `_finish_connect` has cleared the attempt its code and error never change, so the final unlocked reads are safe. |
| ConnectOutcome.ConnectReturnsIff | src/tirtc/_core.py:505-538 | Over all races `connect()` returns normally exactly when `_finish_connect` stored CONNECTED, which is exactly code 0 without error and without a cancel error. |
| ConnectOutcome.FinishedIff | src/tirtc/_core.py:518-533 | When `connect()` has ended, `finished` is set if and only if it did not end by the timeout's own cancel raising. |
| ConnectOutcome.ActiveIff | src/tirtc/_core.py:505-538 | In every reachable state in which a `connect()` has ended, its attempt is still active if and only if it ended by a raised cancel error or a failed handle close. |
| ConnectOutcome.ActiveByCancel | src/tirtc/_core.py:517-538 | Once the native connect has started, an ended `connect()` with a recorded cancel error always leaves its attempt active; with a token from outside it does so if and only if there is one. |
| ConnectOutcome.AttemptLeftActive | src/tirtc/_core.py:518-533 | Then it stays active in every continuation, and no later connect can begin. |
| ConnectOutcome.EscapeIff | src/tirtc/_core.py:519-557 | A timed-out `connect()` leaves `finished` unset if and only if its own cancel call finds no code yet and the cancel it performs or joins fails. |
| ConnectOutcome.NoEscapeInTime | src/tirtc/_core.py:518-538 | A `connect()` whose wait ends in time always sets `finished` when it ends. |
| ConnectOutcome.CloseWaitsForever | src/tirtc/_core.py:773-778 | After such an escape and a disconnect event, a close passes its cancel call at once and waits for an event no continuation sets. |
| ConnectProgress.WaitEndsIff | src/tirtc/_core.py:640-645 | In every reachable state where no thread of the protocol can move and the attempt has a code, `disconnect()` and `close()` get past their wait for `finished` if and only if its `connect()` did not escape. |
| ConnectOutcome.EscapeReachable | src/tirtc/_core.py:518-533 | A run from the initial state that gets there. |
| ConnectOrigin.CodeOrigin | src/tirtc/_core.py:434-484 | Over every run the recorded code is decided by what was reported while the attempt was active: none if nothing was, 0 if and only if success came first and no failure ever, and otherwise the code of the first failure, 6012 for a disconnect without one, or 6115 if the cancel was settled before anything. |
| ConnectOrigin.CompletionRecorded | src/tirtc/_core.py:476-483 | A completion of the active attempt records exactly its code when there is none, or when it fails and success is recorded, and otherwise changes nothing. |
| ConnectOrigin.ReturnsOnSuccess | src/tirtc/_core.py:517-538 | A finished `connect()` returns normally if and only if success was reported first, no failure ever, and nobody cancelled. |
| ConnectOrigin.ErrorOrigin | src/tirtc/_core.py:540-590 | The error of an attempt is that of the one cancel call that began to cancel it, and its cancel error that of the native cancel or disconnect that failed, if one did. |
| ConnectEffects.FinishedClosesHandle | src/tirtc/_core.py:517-531 | A managed attempt that reaches its finish block has had its handle closed with success. |
| ConnectEffects.CancelLeavesNothing | src/tirtc/_core.py:559-590 | A cancel that is over without an error has disconnected an attempt with a token from outside, and has cancelled a managed one and disconnected it, too, if it was connected. |
| ConnectEffects.ConnectWrites | src/tirtc/_core.py:505-516 | The finish block stores CONNECTED exactly when success and no failure was reported and nobody cancelled; a start that raised stores IDLE; no other step of the connecting thread writes the state. |
| ConnectEffects.SettledIff | src/tirtc/_core.py:793-801 | `_disconnect_finished`, by which a close decides whether to disconnect, is set exactly when, since the last connect began, a cancel got through, a connect ended unconnected or `disconnect()` was completed. |
| ConnectProgress.ProtocolTerminates | src/tirtc/_core.py:518-630 | The threads already in the protocol make boundedly many steps. |
| ConnectProgress.PerformersKept | src/tirtc/_core.py:540-587 | A cancel that is announced and not finished always has a thread performing it. |
| ConnectProgress.ConnectEnds | src/tirtc/_core.py:518-630 | In every reachable state where no thread can move, each `connect()` has ended or waits for the Runtime's completion of a managed attempt it was told to cancel. |
| CloseCoordinators.CloseCoordinator.BeginEnter | src/tirtc/_lifecycle.py:30-55 | `begin` up to its wait refines its function: join, own a new generation, already closed or in use. |
| CloseCoordinators.CloseCoordinator.BeginLeave | src/tirtc/_lifecycle.py:39-45 | The `finally` block of a wait refines its function: the last waiter removes the outcome. |
| CloseCoordinators.CloseCoordinator.Fail | src/tirtc/_lifecycle.py:57-62 | `fail` records an outcome exactly for generations with waiters and allows another try. |
| CloseCoordinators.CloseCoordinator.Succeed | src/tirtc/_lifecycle.py:64-69 | `succeed` records an outcome exactly for generations with waiters and closes for good. |
| CloseCoordinators.InvKept | src/tirtc/_lifecycle.py:30-69 | Every block of every thread keeps: waiter counts exact, one owner of the closing generation, recorded outcomes true and kept as long as somebody waits for them. |
| CloseCoordinators.CloseProtocol | src/tirtc/_lifecycle.py:30-69 | In every reachable state at most one thread owns a close, every waiter left with its own generation's outcome, no outcome exists for the closing generation or without waiters, and no waiter is stranded. |
| CloseCoordinators.MapsDrain | src/tirtc/_lifecycle.py:39-45 | With nobody waiting both dictionaries are empty. |
| CloseCoordinators.ClosedForever | src/tirtc/_lifecycle.py:49-69 | "closed" is absorbing and nobody ever owns a close again. |
| CloseCoordinators.BeginAnswers | src/tirtc/_lifecycle.py:30-55 | In every reachable state `begin` returns at once exactly when some close has succeeded, joins exactly the close somebody owns, refuses exactly when asked to and no close has ever begun, and otherwise, after any number of failed closes, makes its caller own a generation later than all that ended. |
| CloseCoordinators.ReturnedAfterClose | src/tirtc/_lifecycle.py:30-55 | No call returns without waiting or owning unless some close has succeeded. |
| OwnershipTree.InvKept | src/tirtc/_core.py:760-812 | Every step of any number of concurrent, failing and retried closes keeps: each child of a closing node is in its snapshot or done with, and none is left past the visits. |
| OwnershipTree.DescendantsLate | src/tirtc/storage/__init__.py:584-616 | At every depth, what lies beneath a destroyed node is destroyed and closed, up to the last step of its own close. |
| OwnershipTree.TreeClose | src/tirtc/_core.py:331-357 | In every run, when a Client's lease is released every object beneath it, at every depth, has been destroyed exactly once and is closed, or is of a kind that reports to its parent first and has only `succeed` left; each native stop, parent report and destroy is done at most once over all retries. |
| OwnershipTree.ResultStable | src/tirtc/_core.py:176-208 | A recorded result never changes in any continuation, and a closed node stays closed. |
| OwnershipTree.ResultOrigin | src/tirtc/storage/__init__.py:951-983 | Over every run the recorded result of a node is the code of the first native stop that its closes made. |
| OwnershipTree.StoppedIff | src/tirtc/storage/__init__.py:881-886 | Over every run the guard of the native stop is set exactly when the node has been stopped, by its user or by a close, and not played since. |
| OwnershipTree.ListedUntilTold | src/tirtc/_core.py:803-812 | A node is in its parent's set until its close has told the parent, and in no set once it is closed and its closer has left. |
| OwnershipTree.ParentClosedFirst | src/tirtc/_core.py:197-204 | A run in which the parent says "closed" before its recording does. |
| Teardown.RecordingTask.Stop | src/tirtc/_core.py:176-208 | The owned run of `stop` refines its function, guards included. |
| Teardown.FirstStopWins | src/tirtc/storage/__init__.py:951-983 | However often `stop` is retried, the recorded outcome is that of the first accepted native stop, exactly one of file and error. |
| Teardown.ClosedByRun | src/tirtc/storage/__init__.py:951-983 | After any number of runs of `stop` the native object is destroyed and the parent told exactly when one run found the stop accepted and its destroy succeed, and exactly such a run succeeds. |
| Teardown.RawDump.Stop | src/tirtc/_raw_dump.py:65-91 | `stop` refines its function: closed error, cached archive, or one native stop. |
| Teardown.RawDump.Close | src/tirtc/_raw_dump.py:93-107 | The locked part of `close` refines its function: a failing stop is reported only after the dump is closed, and the closing call owes its parent a report. |
| Teardown.RawDump.Report | src/tirtc/_raw_dump.py:108-109 | The closing call takes the dump out of its parent's set, once. |
| Teardown.DumpStable | src/tirtc/_raw_dump.py:65-111 | In every history of calls on any threads the first archive stays, a closed dump never reopens, and it is in its parent's set exactly until it is closed and the closing call has reported it. |
| Teardown.DumpAnswers | src/tirtc/_raw_dump.py:65-111 | What a new stop or close of a dump answers after any history: the archive of the first accepted stop, the native code that failed, closed, or done. |
| Teardown.CloseRaisedButClosed | src/tirtc/_core.py:782-789 | A close that raises has closed the dump exactly when the destroy succeeded and the stop failed: the case the parent's close tolerates. |
| LeaseLedger.Runtime.PreflightShared | src/tirtc/_runtime.py:208-216 | Passes exactly when no shared configuration is set or it is the same. |
| LeaseLedger.Runtime.AcquireRtcLease | src/tirtc/_runtime.py:219-266 | The method refines the acquire function, every refusal included. |
| LeaseLedger.Runtime.AcquireStorageLease | src/tirtc/_runtime.py:269-329 | The method refines the acquire function, every refusal included. |
| LeaseLedger.Runtime.ReleaseLease | src/tirtc/_runtime.py:342-371 | The method refines the release function, every refusal included. |
| LeaseLedger.AcquireRtcKept | src/tirtc/_runtime.py:219-266 | An RTC acquire, granted or refused, keeps caches and trace exact. |
| LeaseLedger.AcquireStorageKept | src/tirtc/_runtime.py:269-329 | A storage acquire, granted or refused, keeps caches and trace exact. |
| LeaseLedger.ReleaseKept | src/tirtc/_runtime.py:342-371 | A release keeps caches and trace exact, and its two sanity errors never happen. |
| LeaseLedger.LedgerExact | src/tirtc/_runtime.py:82-371 | After every sequence of acquires and releases the count, both configurations and the RTC singleton are the functions of the active leases they cache, and per product external-token init and shutdown strictly alternate. |
| LeaseLedger.CachesDetermined | src/tirtc/_runtime.py:82-87 | Ledgers with the same leases agree on every cache. |
| LeaseLedger.ReleaseNeverMiscounts | src/tirtc/_runtime.py:342-371 | After any history a release succeeds exactly for an active lease whose native call, if it needs one, succeeds, a release that raises changes nothing, and one that succeeds takes away that lease alone, with exactly the native call that the other active leases leave to it. |
| LeaseLedger.StorageGrantedIff | src/tirtc/_runtime.py:269-329 | After any history, by the active leases alone: when a storage acquire is granted and which refusal it gets otherwise; a granted one adds that lease and exactly the native call it needs, a refused one changes nothing. |
| LeaseLedger.RtcGrantedIff | src/tirtc/_runtime.py:219-266 | The same for an RTC acquire, which is refused as in use exactly while an RTC lease is active. |
| LeaseLedger.FailuresInvisible | src/tirtc/_runtime.py:219-371 | A raising acquire or release leaves no trace: every history ends in the state, native calls included, of the same history without its failed calls. |
| OutputBinding.InvKept | src/tirtc/_core.py:986-1085 | Every block of attach, detach, output close and parent close keeps the binding invariant, as long as no output is re-attached to a parent inside the tail of its own detach; `OutputOrphans` says what happens otherwise. |
| OutputBinding.BindingSound | src/tirtc/_core.py:760-780 | Over every such interleaving no output is bound to a successfully closed parent, and with no call in progress an output is in a parent's set exactly when it is bound to it. |
| OutputOrphans.ClosedBoundIff | src/tirtc/_core.py:760-780 | Over every run, disciplined or not: after a successful close of a parent an output is still claimed by it if and only if it was claimed but not registered when that close took its snapshot, and nothing has released it since. |
| OutputOrphans.AttachDangerousIff | src/tirtc/storage/__init__.py:1005-1063 | Of an attach the code accepts, some otherwise disciplined continuation ends with the output bound to the closed parent, whatever else is attached and in progress, if and only if a detach of that output from that parent still had its discard to do. |
| OutputOrphans.RegisteredBound | src/tirtc/_core.py:739-752 | Over every run, with no call in progress whatever is in a parent's set is bound to it. |
| OutputOrphans.OrphanSurvives | src/tirtc/storage/__init__.py:864-901 | For any parent, an orphan is in no snapshot and stays bound through every failed and successful close until it is detached or closed itself. |
| OutputOrphans.OutputClosedIff | src/tirtc/_core.py:1046-1085 | Over every run an output is closed exactly when one of its closes has got through, after any number of failed ones, and it is then bound to nothing. |
| OutputBinding.BoundToClosedParent | src/tirtc/_core.py:1006-1044 | The race, as a run from a fresh output and parent. |
| ExportTasks.ExportTask.HandleProgress | src/tirtc/storage/__init__.py:1161-1168 | The progress branch refines its function and says when the user is called. |
| ExportTasks.ExportTask.HandleCompleted | src/tirtc/storage/__init__.py:1172-1186 | The completed branch refines the write of the terminal result. |
| ExportTasks.ExportTask.ProgressDetail | src/tirtc/storage/__init__.py:1192-1202 | The property refines its function: clamped, never lower, and answered from the record unless open. |
| ExportTasks.ExportTask.Report | src/tirtc/storage/__init__.py:1204-1214 | The report is loaded at most once and only when both native calls succeed. |
| ExportTasks.InvKept | src/tirtc/storage/__init__.py:1159-1317 | Every step of stop, wait, events, progress, report and failing or retried closes keeps the result invariant. |
| ExportTasks.ResultWrittenOnce | src/tirtc/storage/__init__.py:1172-1186 | Over all races `_done` is set exactly when terminal, exactly one of file and error is then there and never changes, and progress never falls before the report is loaded. |
| ExportTasks.SameResultForAll | src/tirtc/storage/__init__.py:1224-1317 | Any two callers that get a result get the same recorded file or error, and the result is never missing when read. |
| ExportTasks.FirstResultWins | src/tirtc/storage/__init__.py:1172-1186 | Over every run the first completed event or accepted native stop decides: with code 0 its file is recorded and is what every caller with a file gets; otherwise there is no file, and its code is recorded and is what every caller with an error gets. |
| ExportOutcome.ProgressIsMaximum | src/tirtc/storage/__init__.py:1158-1202 | Over every run the progress is the largest fraction reported while it counts, clamped where the Runtime is asked, and starts anew with the loaded report; the user is notified exactly of events that are not behind it. |
| ExportOutcome.BeginMeets | src/tirtc/storage/__init__.py:1232-1296 | A `stop` or `wait` that begins reads the result exactly when some close has succeeded, joins exactly when another caller is closing, and otherwise, after any number of failures, closes itself, and stops the native task exactly when it is a `stop` and there is no result. |
| ExportOutcome.JoinGets | src/tirtc/storage/__init__.py:1232-1253 | Whoever joined a close raises exactly if that close failed, and otherwise gets the error or the file of the first result. |
| ExportOutcome.OwnerGets | src/tirtc/storage/__init__.py:1248-1253 | The caller that closes raises exactly if its own close failed, and otherwise reads the result. |
| ExportOutcome.ClosedHasAll | src/tirtc/storage/__init__.py:1232-1253 | A closed task has a result and its report, and its native object was destroyed. |
| CallbackReach.CallbackDescendsFrom | src/tirtc/storage/__init__.py:199-213 | On every finite object graph, cycles included, the worklist loop ends and answers true exactly when the target is reachable over the four attributes. |
| CallbackReach.FrontierCrossed | src/tirtc/storage/__init__.py:199-213 | A walk from a visited object to the target passes through a pending one. |
| CallbackReach.GuardIsDescends | src/tirtc/storage/__init__.py:199-213 | On the objects of the SDK the loop decides exactly the guard that the closes of `CloseWaits` make. |
| CloseWaits.InvKept | src/tirtc/storage/__init__.py:282-307 | Every step of closes with their snapshots and checks, of attaches and of detaches keeps: one closer per object, each close past its check, no wait for the own callback. |
| CloseWaits.NoSelfWait | src/tirtc/storage/__init__.py:1047-1063 | Over every run, with `_bound` changing at any time, no thread waits for the dispatcher whose callback it runs, in a Client, CloudStorage, Replay or ExportTask close of any depth or in a detach. |
| CloseWaits.LateCheckMeansMoved | src/tirtc/storage/__init__.py:584-594 | Past its guards a close meets the thread's own callback only if the owner is an output whose `_bound` is not what any of the guards saw. |
| CloseCycles.CycleForever | src/tirtc/_lifecycle.py:30-48 | Threads of which each waits for the next, for the dispatcher whose callback that one runs or for a close it has joined, never move again in any continuation, whatever the length of the cycle. |
| CloseCycles.NoCycle | src/tirtc/storage/__init__.py:857-892 | If no thread in a callback begins a close or a detach, no reachable state has a cycle of waits of any length, whatever is closed, attached and detached by other threads. |
| CloseCycles.WaitsEnd | src/tirtc/storage/__init__.py:857-892 | Under the same discipline every waiting thread is, through those it waits for, held up by a thread that can take a step. |
| CloseCycles.OneViolator | src/tirtc/storage/__init__.py:584-608 | With one thread that breaks the discipline, every cycle goes through it: it has joined a close from the callback of an output that was bound outside when the guard looked, and another thread waits for that callback inside the close. |
| CloseFlags.FlagsKept | src/tirtc/storage/__init__.py:1005-1063 | Every step keeps: `_detaching` is set exactly while one thread is between the check and the unbinding, the output stays bound where it was meanwhile, one thread attaches at a time and only an unbound output, and no callback of a closed object is running. |
| CloseRuns.CloserWaits | src/tirtc/storage/__init__.py:881-887 | Every close of a replay or an export that got past its check can come to wait for its own dispatcher, whatever is left of its snapshot and however the outputs in it stand, without a step of the threads that are to stay where they are. |
| CloseTraps.TrapIff | src/tirtc/storage/__init__.py:857-892 | Let one thread have closed or detached from a callback, and wait, itself or through closes it joined, for the callbacks of some object. Serial callbacks of others can catch it in a cycle of waits if and only if it is in a close of its own or its callback is not one of an output that another thread is detaching. |
| CloseTraps.DetachTrapIff | src/tirtc/storage/__init__.py:1025-1041 | A detach that passes its checks in a callback can end in a cycle if and only if the output of the callback is not being detached. |
| CloseTraps.CloseTrap | src/tirtc/storage/__init__.py:857-887 | A close of a replay or an export that passes its guard in a callback and begins can always come to wait and be caught in a cycle. |
| CloseTraps.JoinTrapIff | src/tirtc/storage/__init__.py:857-869 | One that joins a running close instead can end in a cycle if and only if the callback is in a close already or is not one of an output that is being detached. |
| CloseJoins.DeadlockMeansMoved | src/tirtc/storage/__init__.py:584-594 | A thread that joined a close which in turn waits for the thread's own callback runs a callback of an output that was attached into the closing tree after its guard had looked. |
| CloseJoins.DeadlockForever | src/tirtc/_lifecycle.py:30-48 | Neither thread of such a pair moves again in any continuation. |
| CloseJoins.DeadlockAhead | src/tirtc/storage/__init__.py:1005-1023 | Whenever a callback of an unbound output has joined a close with an open replay still to visit, some continuation ends in that deadlock. |
| CloseJoins.DeadlockReachable | src/tirtc/storage/__init__.py:584-608 | A run from nothing that ends in it. |
| RetryLoop.RetryInUse | src/tirtc/_util.py:145-163 | The loop ends for every timeout, times out only after the deadline, returns the last and only result that is not in-use, and sleeps less than the timeout before its last call. |
| RetryLoop.DelayValues | src/tirtc/_util.py:153-163 | The delays are 1, 2, 4, 8, 16 and then always 20 ms. |
| RetryLoop.DelaySumClosed | src/tirtc/_util.py:153-163 | Closed form of the total delay. |
| RetryLoop.CallsBounded | src/tirtc/_util.py:145-163 | Closed-form bound on the number of calls for every timeout of at least 31 ms. |
| RetryLoop.DefaultCalls | src/tirtc/_util.py:128-142 | At most 255 calls for the default of five seconds. |
| RetryLoop.DefaultCallsTight | src/tirtc/_util.py:145-163 | On the clock where sleeps are exact and nothing else takes time, which meets the assumptions, every timed-out run of the default loop makes exactly 255 calls. |
| RetryLoop.DefaultCallsReached | src/tirtc/_util.py:145-163 | The loop, run on that clock with an operation that always says in-use, is over after 255 calls. |
| RetryLoop.CloseHandle | src/tirtc/_runtime.py:332-339 | The fixed-delay loop makes at most 1001 calls and answers in-use only after its deadline. |
| NativeHandles.NativeHandle.constructor | native/extension.c:310-347 | A new handle has no native object and refers to its callback and parent. |
| NativeHandles.NativeHandle.ClosePointer | native/extension.c:185-225 | The native object is gone exactly when there was none or the destroy said OK. |
| NativeHandles.NativeHandle.PyClose | native/extension.c:1425-1436 | A failed close changes nothing; a successful one drops callback and parent. |
| NativeHandles.NativeHandle.CapsuleDestructor | native/extension.c:288-308 | The destructor refines its function: finalizing interpreter, forked child, failed and successful destroy. |
| NativeHandles.InvKept | native/extension.c:185-356 | Every creation, failed creation, close, failed close, reference change, destructor and fork keeps the handle invariant. |
| NativeHandles.HandlesSafe | native/extension.c:185-250 | Over every history a struct is freed only when its native object is absent, was destroyed with OK or the process is a forked child, and an undestroyed native object keeps its parent's capsule alive. |
| NativeHandles.FailedDestroyKeepsParent | native/extension.c:233-241 | A destroy that fails in the destructor leaks the struct and keeps the parent referenced in every continuation. |
| NativeHandles.ReleasedWhen | native/extension.c:185-306 | Over every run a struct is freed exactly when a destructor could free it, and its callback and parent are referred to exactly until then or until a close that destroyed the native object. |
| NativeHandles.HandleLife | native/extension.c:310-347 | In every history a handle refers to the callback and the parent it was created with until it is closed with OK or freed, and to neither afterwards. |

## Left out

* The native Runtime (media, RTC, cloud storage, log upload): its calls return arbitrary codes and
  its callbacks are steps of the environment.
* Frame and value conversion, enum tables, error classes, argument checks and marshalling: mappings
  without a hard property. Errors are codes or identities.
* File system work (cache probe, deletion of temporary media), logging and build identity.
* Fork handling and interpreter finalization, except for the freeing of handles and of callback
  tasks; the timing of `__del__`. `CallbackTasks.TaskInvKept` and `TaskDelivery` stay in the process
  that created the tasks.
* The example programs and the raw dump file format, whose reader and writer are not part of this model.
* `_ListRequest`, `CloudStorage._list`, seek and speed of `Replay`, `_rtc_callback_client` and
  `normalize_raw_dump_ids`: they would add easy members only.
* Waiting on conditions and events is a guard on the step that follows, except in `Waiters`, which
  models the sleeping threads of a dispatcher. `KeyboardInterrupt` during a wait is modelled in the
  close coordinator only.
* `_native_task_sink` calls handlers of other kinds directly, outside the queue; that they do not
  overlap is up to the Runtime and is not claimed.
* The endless loop of a worker thread is modelled by its steps, not as a method.
* What a handler does: one that raises ends its drain like one that returns.
* Times are real numbers in milliseconds; rounding of floats is not modelled. The clock of the retry
  loops is monotone and a sleep lasts at least as long as asked.
* Liveness when a native cancel or close keeps failing: only the exact conditions above are given.
* A second `_native.close` of the same handle while a first one is inside the native destroy with the
  interpreter lock released.
* Writes of `_state` by `disconnect()` after its wait: one environment step, allowed at any time.
* `OwnershipTree` has no list requests among the children of a CloudStorage, and treats the children
  of one snapshot as visited in any order.
* In `CloseWaits` a raised exception may leave the closes around it at once or later, list requests,
  recordings and dumps are not visited, and a close of an output itself, which makes its own check, is
  not a step. Events may be queued at any time, so a callback may begin while a close waits for its
  dispatcher. `TrapIff` and the three beside it assume that the program can still open one more Client
  with a CloudStorage, a replay and an export; a callback that waits behind another thread's close is
  covered once that thread has come to wait.
- OutputBinding.InvKept: leaves out attaching an output again to the parent whose detach of it is in its tail, because
  the invariant fails there (`BoundToClosedParent`); `OutputOrphans.ClosedBoundIff` covers all runs.
- OutputBinding.BindingSound: leaves out the same runs, for the same reason.
- ConnectBlocks.Connection.BeginConnect: does not keep the deadline, because the protocol lets a timeout happen at any
  time during the wait.
