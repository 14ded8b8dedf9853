# A model of the Xbox runtime's asynchronous core

This project models, and proves properties of, the parts of the runtime that schedule and
account for asynchronous work:

* **The task queue** (`src/com/xasync/task_queue.rs`). `task_order.dfy` is the queue's order,
  `port_sections.dfy` what each critical section of `Port` does to the state under its lock,
  `port.dfy` the `Port` object with its loops, proved to compute those sections, and
  `port_system.dfy` the transition system in which any number of threads interleave at the
  granularity of one critical section, one condition-variable action, or the start or return
  of one callback. `port_ledger.dfy`, `port_invariant.dfy`, `port_preservation.dfy` and
  `port_runs.dfy` prove its invariant; `port_theorems.dfy`, `port_orderly.dfy` and
  `port_serialized.dfy` state what follows; `port_calls.dfy`, `port_submits.dfy` and
  `port_workers.dfy` what each call promises its caller from its beginning to its return, when
  a callback is taken and run, and how many threads there are; `port_contract.dfy` is the
  contract a port keeps towards whoever submits to it. A call made from inside a callback is another activity of the
  system, so nested dispatch and termination are covered.
* **The call engine** (`src/com/xasync/core.rs`, `impl.rs`). `engine_sections.dfy` and
  `engine.dfy` are the per-call state and the 32 bytes of an `XAsyncBlock` as objects;
  `engine_system.dfy` is one block through any number of calls, its provider, caller, queue
  items and executing frames interleaving freely, each of them a token that holds counted
  references. An entry point reads the block in one step and clones the reference in a later
  one, as the code does with nothing held in between. `engine_invariant.dfy`,
  `engine_runs.dfy`, `engine_theorems.dfy` and `engine_sound.dfy` prove conservation of
  references and the single cleanup; `engine_alone.dfy` is the sequential meaning of every
  entry point and queue callback, which the system interleaves; `engine_outcome.dfy` proves
  whose status a finished call has, `engine_completion.dfy` how often a call is delivered,
  `engine_lookup.dfy` when a lookup finds its call, `engine_release.dfy` how a call is released
  under somebody who still needs its block, `engine_waiting.dfy` when a waiter is woken,
  `engine_order.dfy` the order of provider calls. `engine_queue.dfy` runs the engine on its
  queue's two ports, or on one port that is both sides, and proves from the ports what the
  engine relies on.
* **`run_sync`** (`src/com/xasync/mod.rs`), in `run_sync.dfy`: the boxed context shared by a
  worker, the provider and the caller.
* **The staged save update** (`src/com/xgamesave/object.rs`, `storage.rs`), in
  `save_update.dfy`.
* **The two transports and base64** (`src/ipc.rs`, `src/ipc/unixlib.rs`,
  `unixlib/src/lib.rs`), in `transport.dfy`, `requests.dfy`, `transport_theorems.dfy`,
  `base64.dfy` and `base64_bits.dfy`.
* **The picker operation** (`src/com/pickers/async_op.rs`), in `picker.dfy`.

`basics.dfy`, `ledger.dfy`, `bytes.dfy` and `results.dfy` are shared by these.
`dafny verify dfyconfig.toml` checks everything.

Objects that the source mutates are classes whose methods are proved against functions on
their state (`SubmitSection`, `Complete`, `Stage`, `Read`, `Recorded`, ...); the transition
systems are built from the same functions. What those functions decide is then characterised
without them: by what is queued and ready, by the steps of a run, by literal bytes and bits.
Clocks, callbacks, `send`/`recv`, the file system and the environment are parameters or
nondeterministic steps.

## What the code promises only under a condition

* A context that has ended is rid of its callbacks for good exactly when none of them is queued
  or in anybody's hands and either the port has ended too or no submit through the context has
  passed its flag test and not yet taken the port's lock (`PortOrderly.EndedForGoodExactly`):
  the flag is read before the lock. `PortOrderly.SubmitCanSlipIn` reaches a `terminate(wait)`
  about to return with such a submit under way.
* Whoever has read a block finds the call alive when it clones the reference exactly when the
  block's reference has not been taken back or somebody still holds one
  (`EngineLookup.CloneFindsItAliveExactly`). That is so while the call is pending, while the
  entrant itself holds a reference, and for the one reader of a call whose Begin succeeded
  (`PendingCallIsFound`, `SoleReaderFindsItsCall`). Otherwise it can fail:
  `EngineRelease.LookupCanDangle` takes any finished, unheld call to a state in which the caller
  has fetched the result and somebody who entered for anything at all is about to clone a freed
  reference.
* A completion reads the block's callback after the status is out. The engine alone never makes
  that read safe: wherever a completion is about to make it, the call can be released first
  (`EngineRelease.CallbackReadCanComeTooLate`). What makes it safe is the caller: with no new
  read of a finished call whose Begin has returned, the block stays the call's exactly when no
  read already under way would release it and no cleanup has been won
  (`EngineRelease.CallbackReadIsInTimeExactly`); and it stays the call's if Begin succeeds, the
  caller reads the call only after its callback and nobody reports `E_PENDING`
  (`EngineLookup.CallbackIsReadInTime`).
* With its callback set, a finished call that was let in is delivered exactly once exactly when
  no report of `E_PENDING` counted (`EngineCompletion.DeliveredExactlyOnce`);
  `EngineCompletion.DeliveredTwice` is a run in which one did.
* A waiter is woken when its call is over, unless the call's Begin was rejected: then it is
  notified exactly if a completion is already on its way to do so
  (`EngineWaiting.NoLostCompletion`, `NotifiedExactly`), and `RejectedWaiterSleepsOn` is a
  waiter nobody will notify.
* `run_sync`, its worker not cancelled by the pool, conveys the closure's outcome exactly when
  it is not the error `S_OK`, and never finishes exactly when it is the error `E_PENDING`
  (`RunSync.OutcomeConveyedExactly`).
* A submitted update leaves the directory as if executed directly, off the reserved name an
  update's display name takes, exactly when no deleted file that cannot be removed was there to
  remove (`SaveUpdate.WholeDirectoryExactly`). The reserved name holds the display name whatever
  was staged under it, and is a name like any other when there is none.
* Under schedules that last for request and reply, the transports agree exactly up to 16 MiB of
  payload, or on any payload whose reply is a failure
  (`TransportTheorems.TransportsAgreeExactly`): the Unix side refuses a larger payload, TCP sends
  it with a size field of 32 bits.
* Of several handlers registered on a picker operation, the ones that run are the one in place
  at the finish and those registered after it (`Picker.HandlersRunExactly`).

## Model

| member | source | states |
|---|---|---|
| `TaskOrder.InsertKeepsOrder` | src/com/xasync/task_queue.rs:351-362 | inserting at the scanned position keeps the queue sorted by deadline with undelayed callbacks first and first-in-first-out among equals |
| `TaskOrder.ReadyPrefixIsReadySet` | src/com/xasync/task_queue.rs:459-473 | in a sorted queue the popped prefix is exactly the set of callbacks ready now |
| `TaskOrder.FilterSplits` | src/com/xasync/task_queue.rs:257-267 | splitting by owner sends each callback to exactly one side, by its owner |
| `TaskOrder.FilterSorted` | src/com/xasync/task_queue.rs:257-267 | both sides of the split keep the queue's order |
| `PortObject.Port.SubmitLocked` | src/com/xasync/task_queue.rs:320-363 | the refusals, the inline and delayed paths of an Immediate port, the scan and insert, and the workers started are `SubmitSection` |
| `PortObject.Port.StartWorkers` | src/com/xasync/task_queue.rs:372-388 | workers are started once: one, or the parallelism capped at four (two if unknown), or none |
| `PortObject.Port.TerminateLocked` | src/com/xasync/task_queue.rs:249-273 | the popping loop pulls out exactly the owner's callbacks in order and ends the port with the last context |
| `PortObject.Port.TakeOrPark` | src/com/xasync/task_queue.rs:405-446 | the wait loop takes a head that is ready at the entry whatever the deadline; it leaves a terminated port, or when its deadline has passed and the head was not ready, or parks until the earlier of the deadline and the head's, in at most two passes |
| `PortObject.Port.DrainReady` | src/com/xasync/task_queue.rs:459-473 | the drain pops the ready prefix and counts it in flight |
| `PortObject.Port.FinishN` | src/com/xasync/task_queue.rs:448-485 | accounting moves a batch from in flight to dispatched |
| `PortObject.Port.WaitForTask` | src/com/xasync/task_queue.rs:405-446 | a callback returned is ready and counted in flight; a head ready at the entry is the one returned, timeout 0 included; nothing is returned only off a terminated port or past the deadline with no ready head |
| `PortObject.Port.Dispatch` | src/com/xasync/task_queue.rs:497-544 | a dispatch that finds a ready head runs it, and one that runs nothing found the port terminated, or nothing ready and its timeout over; one that runs invokes the first callback and then exactly the snapshot taken after it, in order, and accounts for one more than the snapshot, whatever the callbacks submit |
| `PortObject.Port.TerminateContext` | src/com/xasync/task_queue.rs:249-287 | the context's callbacks and, after the last context, all the rest are invoked as cancelled, once each, in queue order |
| `PortTheorems.ExactlyOneDisposition` | src/com/xasync/task_queue.rs:249-287 | in every reachable state an accepted callback is queued, held by an activity, run or cancelled: exactly one of these, exactly once |
| `PortTheorems.NeverInvokedTwice` | src/com/xasync/task_queue.rs:390-473 | no callback is invoked twice, run, cancelled or both |
| `PortTheorems.NothingDropped` | src/com/xasync/task_queue.rs:275-287 | once the port has terminated and everybody has left it every accepted callback was invoked exactly once |
| `PortTheorems.CountersConserve` | src/com/xasync/task_queue.rs:448-485 | submitted = queued + in flight + dispatched + pulled by termination, at every release of the lock |
| `PortTheorems.InFlightNeverUnderflows` | src/com/xasync/task_queue.rs:448-485 | what an activity will subtract from the in-flight count never exceeds it, nested dispatch included |
| `PortTheorems.NoLostWakeup` | src/com/xasync/task_queue.rs:405-446 | a thread parked on `ready` until a bound misses no callback due before it and no termination, unless a notification is on its way |
| `PortTheorems.NoLostDrainWakeup` | src/com/xasync/task_queue.rs:289-294 | a parked `terminate(wait)` has callbacks in flight and somebody still to account for them, unless a notification is on its way |
| `PortTheorems.TakesTheFirst` | src/com/xasync/task_queue.rs:413-417 | what a thread takes is ready and precedes everything left queued |
| `PortTheorems.SnapshotIsReadySet` | src/com/xasync/task_queue.rs:459-473 | a dispatch's snapshot is exactly the set of callbacks ready at that instant, in queue order |
| `PortTheorems.DispatchRunsItsSnapshot` | src/com/xasync/task_queue.rs:530-544 | through any run, a dispatch invokes its snapshot front to back and leaves only when it is through |
| `PortTheorems.DispatchIsBounded` | src/com/xasync/task_queue.rs:486-496 | a dispatch accounts for exactly one callback more than its snapshot, however much is submitted meanwhile |
| `PortTheorems.TerminationIsScoped` | src/com/xasync/task_queue.rs:245-273 | terminating a context pulls out exactly its own queued callbacks, leaves the others in order, and ends the port exactly when every other context has ended |
| `PortTheorems.OnlyTheLastContextEndsThePort` | src/com/xasync/task_queue.rs:188-192 | no other step ends the port and none revives it |
| `PortTheorems.TerminatedPortIsClosed` | src/com/xasync/task_queue.rs:320-323 | a terminated port accepts nothing in any continuation |
| `PortOrderly.WaitReturnsDrained` | src/com/xasync/task_queue.rs:289-294 | `terminate(wait)` leaves exactly when nothing is in flight; if, when its context was terminated, no submit through it was under way or the port ended, none of its callbacks is then queued, held or running, and none ever will be |
| `PortOrderly.EndedForGoodExactly` | src/com/xasync/task_queue.rs:602-610 | an ended context is rid of its callbacks in every continuation exactly when none is there now and the port has ended too or no submit has passed its flag test without having taken the lock |
| `PortOrderly.SubmitCanSlipIn` | src/com/xasync/task_queue.rs:602-605 | a reachable state in which `terminate(wait)` is about to return and a submit through the context is still to land |
| `PortCalls.TakesIfReady` | src/com/xasync/task_queue.rs:413-417 | a look at a live port's queue takes a callback that is ready exactly when one is |
| `PortCalls.TakesNothing` | src/com/xasync/task_queue.rs:408-445 | a look that takes nothing returns exactly on a terminated port or past a dispatch's deadline; else it parks until the earliest of the deadline and the queued due times, or has seen one come due meanwhile |
| `PortCalls.DispatchStopsFor` | src/com/xasync/task_queue.rs:497-509 | through every run a dispatch looks on until it takes a ready callback, finds the port terminated, or finds nothing ready at or past its entry plus the timeout |
| `PortCalls.TerminationKeepsItsWord` | src/com/xasync/task_queue.rs:275-294 | a waiting termination returns only where nothing is in flight, one that does not wait never waits, and neither returns with callbacks left to cancel |
| `PortCalls.TerminateWaitDrains` | src/com/xasync/task_queue.rs:245-294 | a `terminate(wait)` that has returned, the last context's included, did so in a state of the run with nothing in flight and nobody executing, and there its context was rid of its callbacks for good if no submit was under way when it ended or the port ended |
| `PortCalls.NobodyIsStuck` | src/com/xasync/task_queue.rs:405-446 | every call that has not returned has an enabled next step, unless it is a delayed callback's thread before its time |
| `PortCalls.LastDispatchIsDated` | src/com/xasync/task_queue.rs:448-485 | the time of the last dispatch is there exactly if there was one, and is that of the last accounting |
| `PortSubmits.SubmitIsTakenExactly` | src/com/xasync/task_queue.rs:320-369 | a submit is refused, changing nothing, exactly on a terminated port or a flagged context; else it is queued in its place, run by the submitter, or given a thread, by mode and delay |
| `PortSubmits.SubmitAnswersFor` | src/com/xasync/task_queue.rs:304-323 | through every run a submit is accepted exactly if its context was live when it began and the port when it took the lock, and comes due its delay after it began |
| `PortSubmits.TerminatedContextTakesNothing` | src/com/xasync/task_queue.rs:602-610 | a submit that begins after a termination of its context has begun is refused, however far that termination has got |
| `PortSubmits.NotBeforeItsTime` | src/com/xasync/task_queue.rs:413-417 | no callback is run before it comes due |
| `PortSubmits.SleeperIsInvoked` | src/com/xasync/task_queue.rs:334-347 | a delayed callback of an immediate port is invoked once due, as cancelled exactly if the port had ended when its thread looked |
| `PortWorkers.ThreadsExactly` | src/com/xasync/task_queue.rs:372-388 | a live port has exactly its threads: none before the first queued callback or without a pool, one if serialized, else the parallelism capped at four, two if unknown |
| `PortWorkers.ReadyIsServed` | src/com/xasync/task_queue.rs:390-403 | while a callback is ready on a live pool port some thread is awake or due to wake, or a notification is on its way |
| `PortSerialized.SerializedRunsInOrder` | src/com/xasync/task_queue.rs:372-403 | a serialized port nobody dispatches has at most one callback being run and starts undelayed callbacks in acceptance order |
| `PortSerialized.StartsInQueueOrder` | src/com/xasync/task_queue.rs:351-362 | when the one worker takes a callback, everything accepted that precedes it in queue order, delayed callbacks included, has been started, or a termination has cancelled it or holds it |
| `PortContract.InvokesOutstanding` | src/com/xasync/task_queue.rs:390-403 | every invocation is of an accepted callback never invoked before |
| `PortContract.PortStepContract` | src/com/xasync/task_queue.rs:304-370 | a step makes a callback outstanding exactly by an accepting submit and ends that exactly by invoking it |
| `EngineObject.Block.Read` | src/com/xasync/core.rs:79-95 | a block names the address in its second word exactly when its first word is the signature and the address is not null |
| `EngineObject.Block.Write` | src/com/xasync/core.rs:177-181 | a written block names the address, all 64 bits of it, and its other bytes are zero |
| `EngineObject.Block.Take` | src/com/xasync/core.rs:151-164 | taking returns what the block named and leaves it naming nothing |
| `EngineSections.ResultVerdict` | src/com/xasync/impl.rs:326-354 | a result is delivered exactly when the call succeeded, the identity matches and the buffer holds it; each refusal, and a failed call's own status, exactly in its own case |
| `EngineObject.AsyncState.Begin` | src/com/xasync/impl.rs:143-163 | a begun call is pending and named by its block |
| `EngineObject.AsyncState.CompleteLocked` | src/com/xasync/core.rs:275-296 | only a pending call takes a status and size, and says that it did |
| `EngineObject.AsyncState.CancelLocked` | src/com/xasync/impl.rs:378-385 | a provider is told of a cancellation once, and only while pending |
| `EngineObject.AsyncState.Cleanup` | src/com/xasync/core.rs:185-200 | Cleanup is sent and the block taken the first time only |
| `EngineObject.AsyncState.GetStatus` | src/com/xasync/impl.rs:238-271 | a finished call without a result is released by asking for its status, any other is left as it is |
| `EngineObject.AsyncState.GetResultSize` | src/com/xasync/impl.rs:289-299 | a pending call writes no size and any other call its own, a failed one too; the size of one that succeeded is exactly the room with which XAsyncGetResult delivers and below which it refuses |
| `EngineObject.AsyncState.GetResult` | src/com/xasync/impl.rs:322-364 | refused reads change nothing and answer `E_PENDING` while pending, `E_INVALIDARG` on another identity, `E_NOT_SUFFICIENT_BUFFER` on too little room, in this order; every other releases the call, after GetResult if it succeeded |
| `EngineTheorems.ReferencesConserved` | src/com/xasync/impl.rs:143-212 | a call's reference count is the block's reference, while it has it, plus what queue items and frames hold |
| `EngineTheorems.NeverUsedAfterFree` | src/com/xasync/core.rs:203-264 | everyone who holds a reference finds the call alive, it is alive while the block names it, and it is freed exactly when it is taken and nobody holds one |
| `EngineLookup.CloneFindsItAliveExactly` | src/com/xasync/core.rs:79-95 | whoever has read the block finds the state alive at the clone exactly when it has not been taken back or somebody still holds a reference |
| `EngineLookup.PendingCallIsFound` | src/com/xasync/core.rs:79-95 | a lookup finds its call as long as the call is neither completed nor rejected |
| `EngineLookup.SoleReaderFindsItsCall` | src/com/xasync/impl.rs:230-365 | the lookup of a call's one reader at a time finds it, whatever providers and cancellers do, if its Begin succeeded |
| `EngineRelease.LookupCanDangle` | src/com/xasync/core.rs:151-164 | any finished, unheld call, with a result or without, can be freed between a lookup and its clone |
| `EngineRelease.QuietFinishedCall` | src/com/xasync/core.rs:306-312 | a finished, unheld call is reachable |
| `EngineLookup.PendingCallIsNotCleanedUp` | src/com/xasync/core.rs:183-200 | a call that is neither completed nor rejected has not been sent Cleanup, so what its provider shares with workers is still there |
| `EngineLookup.CallbackIsReadInTime` | src/com/xasync/core.rs:297-304 | a completion finds the block still naming its call if Begin succeeds, the caller reads the call only after its callback and nobody reported `E_PENDING` |
| `EngineRelease.CallbackReadCanComeTooLate` | src/com/xasync/core.rs:297-304 | from every reachable state in which a completion is about to read the callback, a run releases the call before it does |
| `EngineRelease.CallbackReadIsInTimeExactly` | src/com/xasync/core.rs:297-304 | for a finished call whose Begin has returned and of which no read starts any more, the completion can find the call released exactly when a read under way would release it or its cleanup has been won |
| `EngineTheorems.BlockNamesTheOneUntakenCall` | src/com/xasync/impl.rs:86-95 | the block names a call exactly from its Begin until it is taken; Begin is let in exactly when every call has been taken, a lookup exactly when it is not |
| `EngineTheorems.TakenForGood` | src/com/xasync/core.rs:151-164 | a call once taken is never found through the block again |
| `EngineTheorems.CleanupOnce` | src/com/xasync/core.rs:183-200 | Cleanup is sent at most once; with nobody holding a reference, sent, cleaned up, taken and freed coincide |
| `EngineTheorems.TakesItsOwn` | src/com/xasync/core.rs:195-199 | the one token that won the cleanup takes the reference of its own call and of no later one |
| `EngineTheorems.CompletionsAccountedFor` | src/com/xasync/core.rs:297-339 | every completion that counted was delivered, found no callback, or is still on its way |
| `EngineCompletion.NeverDeliveredTwice` | src/com/xasync/core.rs:266-295 | the callback of a call never reported as `E_PENDING` runs at most once, however many parties report it finished, and only when it is finished |
| `EngineCompletion.DeliveredExactlyOnce` | src/com/xasync/core.rs:297-339 | a call let in that nobody holds was delivered, or found no callback, once for each report that counted; with its callback set exactly once exactly when no report of `E_PENDING` counted |
| `EngineCompletion.DeliveredExactlyOnceWithCallback` | src/com/xasync/core.rs:297-339 | the same from the start of a run in which a callback is set whenever it is looked for |
| `EngineCompletion.CompletionsCounted` | src/com/xasync/core.rs:284-295 | the reports that count are those of `E_PENDING` and one that settles the status; of a rejected call at most these |
| `EngineCompletion.DeliveredTwice` | src/com/xasync/core.rs:332-338 | a run in which a call reported as `E_PENDING` and then as `S_OK` invokes its callback twice |
| `EngineOutcome.OutcomeIsReported` | src/com/xasync/core.rs:209-296 | over any run, the status and size of a finished call let in are those of one report of the run: an XAsyncComplete, a DoWork's return, or `E_ABORT` for a cancelled pass or a refused one; nobody being on the way to report, it is finished exactly when something other than `E_PENDING` was reported |
| `EngineOutcome.SoleReportDecides` | src/com/xasync/core.rs:221-236 | reports that agree decide the outcome: a DoWork that returns `hr` when nobody else reports leaves the status `hr` |
| `EngineOutcome.BeginDecides` | src/com/xasync/impl.rs:163-178 | a call is let in exactly when its Begin answers `S_OK`, which leaves its status alone, and is rejected with any other answer as its status |
| `EngineAlone.GetResultAlone` | src/com/xasync/impl.rs:302-365 | undisturbed, XAsyncGetResult leaves a pending, misidentified or too large call as it was, releases a failed one, and else sends GetResult and releases the call |
| `EngineAlone.GetStatusAlone` | src/com/xasync/impl.rs:230-273 | undisturbed, XAsyncGetStatus releases exactly a finished call with nothing to fetch, and does not return from a wait on a pending one |
| `EngineAlone.CompleteAlone` | src/com/xasync/core.rs:266-339 | undisturbed, XAsyncComplete settles a pending call with its status and size, notifies waiters and hands the callback over, or invokes it if the queue refuses; of a finished call it changes nothing |
| `EngineAlone.ScheduleAlone` | src/com/xasync/impl.rs:180-214 | undisturbed, XAsyncSchedule leaves one work item that holds a reference, or, refused, reports `E_ABORT` |
| `EngineAlone.CancelAlone` | src/com/xasync/impl.rs:367-405 | undisturbed, XAsyncCancel tells the provider of a pending call once and schedules a pass; of any other call it changes nothing |
| `EngineAlone.Rechecks` | src/com/xasync/impl.rs:387-405 | a call that completed while its provider was told of the cancellation is scheduled no pass |
| `EngineAlone.BeginAlone` | src/com/xasync/impl.rs:163-178 | undisturbed, a Begin that answers `S_OK` leaves a started call, any other a rejected one that is cleaned up |
| `EngineAlone.WorkAlone` | src/com/xasync/core.rs:203-237 | undisturbed, a work item has the provider do a pass and reports what it returns unless `E_PENDING`; cancelled, it reports `E_ABORT` |
| `EngineAlone.BoxAlone` | src/com/xasync/core.rs:244-264 | a box invokes the callback once, cancelled or not |
| `EngineAlone.NobodyIsStuck` | src/com/xasync/impl.rs:180-405 | every frame and item has an enabled next step, unless its call was freed under its lookup |
| `EngineCompletion.ReachableStatusIsFixed` | src/com/xasync/core.rs:274-296 | once Begin has returned and the call is finished, no step of any run changes its status or size |
| `EngineWaiting.NoLostCompletion` | src/com/xasync/impl.rs:252-257 | a waiter asleep on a call that is over will be notified by a completion on its way, unless the call's Begin was rejected |
| `EngineWaiting.WaitsUntilSettled` | src/com/xasync/impl.rs:234-262 | a waiting XAsyncGetStatus goes on waiting through every step of anybody, exactly until it tests the status itself and finds it settled |
| `EngineWaiting.NotifiedExactly` | src/com/xasync/core.rs:304-304 | once Begin has returned and the status is settled, waiters can still be notified exactly when a completion has not got round to it yet |
| `EngineWaiting.RejectedWaiterSleepsOn` | src/com/xasync/impl.rs:164-173 | a waiter that parked while Begin was under way sleeps on a rejected call nobody will notify |
| `EngineOrder.OrderedShape` | src/com/xasync/mod.rs:41-50 | an ordered sequence of operations is Begin, some DoWork, at most one GetResult, at most one Cleanup, and nothing else |
| `EngineOrder.ProviderIsCalledInOrder` | src/com/xasync/core.rs:185-236 | the operations sent to the provider of an uncancelled, tidy call have that shape in every run |
| `EngineQueue.InvocationFindsItsToken` | src/com/xasync/core.rs:203-206 | the engine is ready for every invocation a port makes of one of its items |
| `EngineQueue.EveryInvocationIsAnItemOrForeign` | src/com/xasync/core.rs:244-264 | a port invokes either another user's callback or exactly one waiting item of the engine, whose state is alive |
| `EngineQueue.DeliveredAcrossShutdown` | src/com/xasync/core.rs:317-338 | run on ports that terminate with callbacks queued, cancelled or refused, each call let in is delivered, or finds no callback, once for each report that counted, and each cleaned-up call is freed |
| `RunSync.Context.Work` | src/com/xasync/mod.rs:338-359 | the worker leaves the outcome, or `E_ABORT` without a payload when the pool cancels it |
| `RunSync.Context.GetResult` | src/com/xasync/mod.rs:385-401 | the payload is copied exactly when the recorded result is `S_OK` and there is one |
| `RunSync.FreedExactlyOnce` | src/com/xasync/mod.rs:406-455 | the context is freed at most once, exactly when the call is rejected or released, which a caller with a final answer has done, and never touched afterwards |
| `RunSync.StartedWithTheCall` | src/com/xasync/mod.rs:360-380 | the worker is there exactly once the call is accepted, and queued exactly while the pool that took it has done nothing with it; refused by the pool it runs at once |
| `RunSync.ReadsTheOutcome` | src/com/xasync/mod.rs:338-401 | in every run, what the caller reads is `E_ABORT` if the pool cancelled the worker in that run, and else the closure's value or error |
| `RunSync.OutcomeConveyedExactly` | src/com/xasync/mod.rs:348-359 | in every run in which the pool did not cancel the worker the outcome is conveyed exactly when it is not the error `S_OK`, and the call stays pending exactly on the error `E_PENDING` |
| `RunSync.CancelledRunAborts` | src/com/xasync/mod.rs:344-346 | in every run in which it did, the call ends in `E_ABORT` |
| `RunSync.FinishedCallsCanBeRead` | src/com/xasync/impl.rs:302-365 | a finished call can be read by a caller with room, and gives its outcome; one without a size is released by asking for its status |
| `SaveUpdate.UpdateState.RetainWrites` | src/com/xgamesave/object.rs:502-503 | staging drops the earlier write of the name and keeps the others in order |
| `SaveUpdate.UpdateState.RetainDeletes` | src/com/xgamesave/object.rs:501-501 | staging a write drops every delete of the name |
| `SaveUpdate.UpdateState.SubmitBlobWrite` | src/com/xgamesave/object.rs:476-505 | a write is staged, or refused without changing anything |
| `SaveUpdate.UpdateState.SubmitBlobDelete` | src/com/xgamesave/object.rs:507-523 | a delete is staged, or refused without changing anything |
| `SaveUpdate.UpdateState.SubmitUpdate` | src/com/xgamesave/object.rs:525-547 | a submit writes, removes and names in that order, stops at the first failed write, and clears the batch exactly on success |
| `SaveUpdate.StageMeans` | src/com/xgamesave/object.rs:501-503 | staging adds exactly that operation to what the batch means, with one write per name and no name both written and deleted |
| `SaveUpdate.FailureTouchesOnlyTheBatch` | src/com/xgamesave/object.rs:530-537 | a failed submit leaves every name alone that the batch does not touch |
| `SaveUpdate.SucceedsExactly` | src/com/xgamesave/object.rs:530-537 | a submit succeeds exactly when the directory can be made and none of the batch's writes fails |
| `SaveUpdate.FailedSubmitStopsAt` | src/com/xgamesave/object.rs:530-537 | a submit that fails at a write has done every write before it and none after it, no delete, and left under that name what the file system left; without the directory it has done nothing |
| `SaveUpdate.FaithfulUntilSuccess` | src/com/xgamesave/storage.rs:125-132 | until a submit succeeds the batch means all that was staged since the last success, and untouched names keep what they held |
| `SaveUpdate.FirstSuccessIsDirectExecution` | src/com/xgamesave/object.rs:525-547 | the first successful submit leaves every name as direct execution of everything staged would, whatever failed in between |
| `SaveUpdate.WholeDirectoryExactly` | src/com/xgamesave/object.rs:538-540 | with or without a display name, every name but the one it takes is as if executed directly exactly when no deleted file that cannot be removed was there |
| `Base64.Base64Encode` | src/ipc.rs:238-261 | the chunk loop computes the encoding |
| `Base64.Base64Decode` | src/ipc.rs:266-290 | the trimming, shifting and aligning loops compute the decoding |
| `Base64.DecodeUndoesEncode` | src/ipc.rs:263-290 | decoding an encoding gives the bytes back, for every byte string |
| `Base64.DecodeFailsExactly` | src/ipc.rs:274-284 | decoding fails exactly on a character outside the alphabet or a stripped length of one more than a multiple of four |
| `Base64Bits.SpelledByTheAlphabet` | src/ipc.rs:233-234 | the 64 symbols are RFC 4648's alphabet place by place, and the pad is `=` |
| `Base64Bits.EncodeLength` | src/ipc.rs:238-261 | an encoding has four characters for every group of up to three bytes |
| `Base64Bits.EncodeSpells` | src/ipc.rs:238-261 | an encoding without its pads spells the bytes' bits, six to a letter, high bits first, the last letter filled up with zeros |
| `Base64Bits.DecodeReadsOff` | src/ipc.rs:266-290 | whatever decodes, canonical or not, decodes to the bits it spells, less than a byte left over |
| `Base64.EncodeUndoesDecodeExactly` | src/ipc.rs:263-290 | a text that decodes is its bytes' encoding exactly when it is padded to a multiple of four by at most two pads with its unused bits zero |
| `Transport.Socket.WriteAll` | unixlib/src/lib.rs:322-345 | the send loop delivers the buffer, retrying interruptions and stopping at a failure |
| `Transport.Socket.ReadExact` | unixlib/src/lib.rs:347-367 | the receive loop fills the buffer from the stream, or fails on a close or an error |
| `Requests.RequestOverTcp` | src/ipc.rs:370-434 | the TCP request is handshake, frame, magic, header, body, every failure `E_FAIL` |
| `Requests.NativeSide.Exchange` | unixlib/src/lib.rs:105-163 | an exchange checks its parameters, connects, writes the frame and parks exactly the reply under a fresh handle, or parks nothing and reports no handle |
| `Requests.NativeSide.FetchReply` | unixlib/src/lib.rs:169-202 | a fetch releases the reply on every path and copies it exactly when it succeeds |
| `Requests.RequestOverUnix` | src/ipc/unixlib.rs:271-335 | exchange and fetch together leave the parked replies as they were |
| `TransportTheorems.WriteDelivers` | unixlib/src/lib.rs:322-345 | a write delivers a prefix of the buffer, all of it exactly when it succeeds, and succeeds when enough sends move something |
| `TransportTheorems.ReadTakes` | unixlib/src/lib.rs:347-367 | a read takes exactly the next bytes of the stream, and fails only for want of bytes when the schedule lasts |
| `TransportTheorems.AnswerIsTheFramedReply` | src/ipc.rs:388-424 | a stream is read as a kind and a body exactly when it starts with the frame of that kind and body |
| `TransportTheorems.FrameBytes` | src/ipc.rs:388-392 | a frame is the letters XSDY, the kind and the size with their low bytes first, and the payload |
| `TransportTheorems.GreetingBytes` | src/ipc.rs:318-323 | a greeting is the letters XDAU and the secret |
| `TransportTheorems.TcpRefusals` | src/ipc.rs:305-386 | without an endpoint `E_NOTIMPL` and without a connection `E_FAIL`, and nothing is sent; without an acceptance byte of one `E_FAIL`, and nothing but the greeting is |
| `TransportTheorems.UnixRefusals` | src/ipc/unixlib.rs:271-300 | nothing is sent exactly without the native side, a path, an address for a payload, room for it, or a connection |
| `TransportTheorems.ExchangeStatus` | unixlib/src/lib.rs:105-163 | the status of an exchange in each case: its parameters, its connection, a reply that breaks off, an invalid one |
| `TransportTheorems.TcpRequestIsTheAnswer` | src/ipc.rs:388-434 | under any schedule TCP gives the service's answer or `E_FAIL` and emits the beginning of one greeting and frame, all of it if answered |
| `TransportTheorems.UnixRequestIsTheAnswer` | unixlib/src/lib.rs:117-163 | under any schedule the Unix path gives the service's answer or `E_FAIL` and emits the beginning of the frame; an oversized payload sends nothing |
| `TransportTheorems.TransportsAgreeExactly` | src/ipc/unixlib.rs:278-334 | under schedules that last for the request and the reply, the same frame goes out and the same answer comes back, exactly up to 16 MiB of payload or a failing reply |
| `Picker.OperationState.Record` | src/com/pickers/async_op.rs:142-156 | finishing records the outcome and picks the handler in place |
| `Picker.OperationState.Register` | src/com/pickers/async_op.rs:180-185 | registering leaves the results alone; a handler not to be told at once is the one any later finish tells |
| `Picker.OperationState.GetResults` | src/com/pickers/async_op.rs:209-224 | results are the file, the null of a cancelled pick, the error, or an illegal call before the finish |
| `Picker.HandlersRunExactly` | src/com/pickers/async_op.rs:142-196 | in every interleaving the handlers that run are the one in place at the finish and those registered after it, each once |
| `Picker.OneRegistrationRunsOnce` | src/com/pickers/async_op.rs:179-196 | a single registration runs exactly once however it races the finish |
| `Picker.HandlersSeeTheOutcome` | src/com/pickers/async_op.rs:165-176 | a handler is passed the final status and reads the recorded outcome; a cancelled pick is a completion without a file |
| `Picker.NoResultsBefore` | src/com/pickers/async_op.rs:209-224 | until the operation is finished GetResults answers `E_ILLEGAL_METHOD_CALL` and no handler runs |
| `Picker.AnswersWhatTheJobReturned` | src/com/pickers/async_op.rs:109-140 | in every run the outcome of a finished operation is exactly what its job returned, was given at once, or the failure to defer, and GetResults answers with it |
| `Picker.OutcomeIsFinal` | src/com/pickers/async_op.rs:142-156 | a finished operation keeps its outcome whatever is registered afterwards |
| `Picker.RefusedDeferralFails` | src/com/pickers/async_op.rs:113-119 | a pick that cannot be deferred never runs its job and still finishes, as `E_FAIL` |

## Left out

- Null out-pointers and unknown handles, answered with `E_POINTER` and `E_INVALIDARG` before anything else happens.
- COM vtables, GUID dispatch, `#[implement]` glue, handle tables, process-kind and settings getters: ABI or easy members.
- Diagnostics, the port reporter, block names and the per-thread identity: they do not influence the modelled state.
- Monitors, waiters and the cached process-queue handle (task_queue.rs:682-830): easy members, and nothing is claimed of the handle after the process queue is replaced.
- Choosing a call's queue in `XAsyncBegin` (impl.rs:96-142): the queue is given.
- Repeated termination of one context: the model lets a context be terminated once, which the code does not enforce.
- Delayed callbacks of an Immediate port are modelled, and counted by the disposition theorems, but bypass the in-flight count and the owner's cancellation as they do in the code.
- `take_state` clears the block's words and drops their reference in one step, which makes the window for a lookup no smaller; the two words are read together; two Begins at the same time on one block are not modelled.
- Runs are continued only while defined: no step follows a clone of a freed reference.
- PortObject.Port.TerminateContext: covers the call without `wait`, because waiting needs other threads; the transition system covers the wait.
- PortObject.Port.Dispatch: covers ports that are not Immediate; callbacks may submit, while nested dispatch and termination are covered by the transition system.
- EngineObject.AsyncState.GetStatus: does not wait; a waiting caller is the parked read of the transition system (`EngineWaiting`), and one inside a dispatch, which does not wait, is a read without waiting.
- EngineOrder.ProviderIsCalledInOrder: assumes the call is not cancelled, is rescheduled only while pending, has nothing waiting on the work queue when it finishes, is rejected only while pending, and is read by one frame at a time.
- EngineCompletion.DeliveredExactlyOnce: says nothing exact of a call whose Begin was rejected; `CompletionsCounted` bounds it.
- RunSync.FreedExactlyOnce: for a call the caller does not cancel; the pool's single invocation of the worker and the single release are steps of its own state machine, as `PortContract.PortStepContract` and `EngineTheorems.CleanupOnce` prove them of the port and of the engine; the COM lookup behind `begin` and `complete` is taken to succeed.
- PortObject.Port.WaitForTask: covers a wait with a deadline, because an unbounded wait needs other threads; the transition system covers a worker's.
- Requests.NativeSide.Exchange: does not tell a timed-out socket call from a failed one, whose statuses the caller cannot tell apart either; interrupted connects are folded into how connecting turns out.
- Socket addresses, timeouts as durations, a `send` that moves nothing without an error, and the XML bodies: I/O or invisible libraries.
- Blob names are plain names in one flat directory; path separators, symbolic links and missing parent directories are not modelled.
- Quota and size estimates, container enumeration and blob reads: easy members.
- The message window behind `run_later` is taken to run a posted job at most once.
