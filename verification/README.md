# Verification of asgiref's sync/async bridge, executors, WSGI adapter and stateless server

A Dafny model of the stateful core of asgiref, with proofs about every program, every interleaving and every run.
`dafny verify dfyconfig.toml` checks it.

## What is modelled

**Contexts, Locals and the bridge** (`asgiref/local.py`, `asgiref/sync.py`). `Contexts` has what a context variable holds
(a Local's thread-tagged dictionary, a thread-critical Local's dictionary, a plain value), the Local accessors and
`_restore_context`. `Programs` is a small language of user programs: get, set and delete, sequence, branch, loop, raise
and catch, `async_to_sync`, `sync_to_async` and task creation, nested to any depth, with values and control that may
depend on everything observed so far. It has two meanings. `Exec` follows the code: contexts are copied, moved to another
thread, re-homed, captured and copied back, and `executors.current` is an attribute of a Local that travels with them.
`Eval` is what the user is promised: one dictionary, and executors passed down lexically. `Transparency` and `Crossings`
relate the two; `Names` is about what user code can count on for the names it uses and the calls it makes, `Affinity` about
the threads that sync code gets, `ThreadCritical` about thread-critical Locals.
`LocalStorage` and `Bridge` are the same code on a heap: context objects whose variables are set in place, shared
dictionary objects, and the one-element list through which `main_wrap` hands the final context over. Their methods are
proved to do what `Exec` says and to disturb no other context.

**CurrentThreadExecutor** (`asgiref/current_thread_executor.py`). `ExecutorProtocol` is a transition system over any number
of executors, threads and work items in which each lock-protected region is one step. `ExecutorInvariant` proves its
invariant for every step, `ExecutorGuarantees` what follows for every run. `Handoff` joins it with the dispatch of
`AsyncToSync.__call__`, with `main_wrap` on the loop's thread and with the `task_context` lists. `ExecutorHistory` and
`HandoffHistory` say which steps of a run make the states what they are. `ThreadExecutor` is the class with its two loops,
run against interfering threads; its locked regions are the protocol's.

**Cancellation** (`asgiref/sync.py`). `Cancellation` is the CancelledError handler of `SyncToAsync.__call__` as a protocol:
any number of tasks, of `sync_to_async` calls with their executor futures, worker threads and `task_context` lists, nested
to any depth, with cancel requests at any time and repeatedly. `CancellationInvariant` proves its invariant for every
step, `CancellationHistory` which steps of a run bring about what a state says, `CancellationGuarantees` what follows.

**WSGI adapter** (`asgiref/wsgi.py`). `Wsgi` has `start_response`, the output loop with its Content-Length arithmetic and
the messages it sends, for any interleaving of `start_response` calls and chunks. `WsgiRequest` has the body loop and
the header part of `build_environ`; `Utf8` its path part, with UTF-8 as in section 3 of RFC 3629.

**StatelessServer** (`asgiref/server.py`). `Server` is the instance table with its eviction and checker loops,
`ServerGuarantees` what every run keeps, `ServerRecency` the recency list it follows, and `ServerChecker` a checker pass
that is suspended while it reports an exception.

## Main results

- A program that starts with its Local storages absent, empty or its own thread's sees one plain dictionary, whatever it
  nests (`Crossings.Transparent`), also on reused worker threads that hold nothing but variables set at the start. For an
  `async_to_sync` call the condition is exact (`Crossings.CallTransparentExactly`), and so is what makes one empty crossing
  visible: a storage tagged by another thread (`Crossings.SyncCrossingExact`), or a loop thread with variables of its own
  that the caller does not set (`Crossings.AsyncCrossingExact`).
- No accepted work item is lost, run twice or run out of order, and none is left behind at exit: each is called exactly
  once unless somebody cancelled it (`ExecutorGuarantees.WorkConservation`, `ExecutorHistory.EveryItemIsCalled`). The walk
  of `submit`, which is not atomic, cannot be told from one that is (`ExecutorGuarantees.WalkIsAtomic`).
- In every interleaving one loop at most takes the awaitable, the main loop if it accepts it (`HandoffHistory.DispatchedOnce`);
  the context restored is the one the awaitable's own steps made (`HandoffHistory.GivesBack`); and every
  `task_context` is the bag of the unfinished `main_wrap` activations that captured it (`Handoff.TaskContextExact`).
- In every interleaving a cancel request reaches the innermost registered task, unless it meets a handler of an earlier
  cancellation (`CancellationGuarantees.TopCancelReaches`), which it cannot if it is the only one
  (`CancellationGuarantees.OneRequestReachesInnermost`). A `sync_to_async` call gives its function's real outcome exactly
  when no handler was entered, or the handler let its task finish before the function did and no request met it afterwards,
  all of it told from the steps of the run (`CancellationGuarantees.OutcomeExactly`).
- Exactly the declared number of body bytes is sent, from the fewest chunks (`Wsgi.DeliveredPayload`), in a well-formed
  response (`Wsgi.WsgiToAsgiInstance.RunApplication`).
- The server's table is a recency list over whole runs, exactly as long as no eviction meets a tie of clock readings
  (`ServerRecency.AgreeExactlyIfUntied`, `ServerRecency.TableIsRecencyList`); it holds at most `max_applications + 1`
  instances and orphans no task (`ServerGuarantees.StepKeepsInv`).

## Where the code does not do what its text says

- `asgiref/local.py:12-23` says that inherited storage is never re-homed. `_restore_context` does not look at the old
  tag, so a thread that crosses while it holds inherited storage takes it over: `Crossings.InheritedStorageLeaks`, and the
  exact condition in `Crossings.SyncCrossingExact`. A worker thread that inherited a context and is then reused for
  another call (`asgiref/sync.py:326-333`) hands it on: `Crossings.ReusedWorkerLeaks`.
- `asgiref/server.py:32-34` says that an instance is reclaimed when there are already `max_applications`. The test is
  `>`, so the table grows to one more: `ServerGuarantees.AtTheLimitNothingIsReclaimed`. With equal clock readings the
  instance evicted need not be the least recently used: `ServerRecency.TiesEvictTheWrongOne`, and exactly when it is in
  `ServerRecency.OldestIsFrontExactly` and `ServerRecency.EvictKeepsExactly`.
- `application_checker` drops an instance by its scope id after reporting an exception. If `application_exception`
  suspends, that may by then be another instance, whose task is orphaned: `ServerChecker.SuspendedReportOrphans` is such
  a run, and `ServerChecker.OwnedExactlyIfHarmless` says exactly when it happens. Nor does the checker outlive a cancelled
  task that it has yet to look at, whoever cancelled it: `ServerChecker.DiesExactlyIfStricken`, and in
  `ServerChecker.SuspendedReportKills` it is the server that did.
- A second cancel request to a task need not reach the innermost registered task: if it meets the handler awaiting its
  executor future, it cancels that future and nothing below: `CancellationGuarantees.SecondCancelMisses`. That is also the
  only way in which the future of a call whose task finished undisturbed is cancelled:
  `CancellationGuarantees.RevokedExactly`.
- A `start_response` call that is rejected for its Content-Length can still replace the limit:
  `Wsgi.RejectedCallLiftsTheLimit`, and exactly when in `Wsgi.RejectedChangesNothing`. A negative Content-Length is
  accepted, and the output is sent without some bytes at the end of every chunk: `Wsgi.NegativeLength`,
  `Wsgi.NeverTooMuch`.

## Model

| member | source | states |
|---|---|---|
| Contexts.WriteReads | asgiref/local.py:173-182 | After a set on a thread, every name reads on that thread as in a dictionary with that one entry changed. |
| Contexts.EraseReads | asgiref/local.py:184-194 | After a delete on a thread, the name is gone and every other name reads as before. |
| Contexts.RestoredReads | asgiref/sync.py:54-71 | After `_restore_context`, every variable of the source reads as it is stored there whatever its tag, and every other as before. |
| Contexts.CrossableIsOwned | asgiref/sync.py:59-66 | All tags can be ignored on a thread if and only if every Local storage is that thread's or empty. |
| Contexts.CoveredIsHidden | asgiref/sync.py:57-71 | Nothing of a context shows through a restore of another if and only if the other sets every variable that is not blank in it. |
| Names.NamesAreApart | asgiref/local.py:101-160 | Two names share a place if and only if they are the same; a thread-critical one has a place of its own on each thread, in sync code and in async code. |
| Names.SetIsFound | asgiref/local.py:162-182 | What is set is what a get finds under that name, and every other name is as it was; on other threads the Local that was written is hidden, thread-critical names stay apart, and context variables are shared. |
| Names.DeletedIsGone | asgiref/local.py:184-194 | A delete raises exactly if there is nothing to delete, and then changes nothing; otherwise the name is gone and every other is as it was. |
| Names.SpawnedWorksOnACopy | asgiref/local.py:80-86 | Whatever a spawned task does, its parent finds every name as it was, thread-critical ones included; the task begins with what its parent found; its exception is not the parent's. |
| Names.WrongMode | asgiref/sync.py:253-263 | `async_to_sync` in a thread with a running loop raises and does nothing at all; likewise `sync_to_async` without one. |
| Names.ThereAndBack | asgiref/sync.py:489-517 | From sync code through async code and back: the function runs on the calling thread with the caller's dictionary, and what it reads, leaves, returns or raises is what it does when called there. |
| Names.ThereAndFurther | asgiref/current_thread_executor.py:92-110 | If the call's own executor has quit, it runs on the thread of the nearest one outside that has not, or not at all if none is left. |
| Names.BackOnTheLoop | asgiref/sync.py:311-319 | From async code through sync code and back to the same loop: the coroutine runs as if it had been awaited, with the worker's executor around it. |
| Transparency.MoveKeepsView | asgiref/sync.py:54-71 | Moving a context with owned storages to another thread keeps everything code can see of it, and makes the storages that thread's. |
| Transparency.ExecKeepsCrossable | asgiref/sync.py:54-71 | Every run, on whatever threads, leaves a context whose storages are the running thread's or empty, if it began with one. |
| Transparency.Simulation | asgiref/sync.py:236-349 | For every program and any start: as long as the crossings it makes are safe, it reads, raises, picks threads and ends as one dictionary and a lexical executor chain would have it. |
| Transparency.SimulateAsyncToSync | asgiref/sync.py:274-346 | The simulation through `AsyncToSync.__call__` and `main_wrap`, on a running loop or a new one, on normal and exceptional exit. |
| Transparency.SimulateSyncToAsync | asgiref/sync.py:519-571 | The simulation through `SyncToAsync.__call__`, on normal and exceptional exit. |
| Crossings.VisibleIsView | asgiref/local.py:162-171 | A context shows its thread exactly one dictionary. |
| Crossings.EnterAsyncIsSafe | asgiref/sync.py:270-296 | Entering an awaitable is a safe crossing if and only if the caller's storages, that of the current executor apart, are its own or empty and the loop's thread has nothing of its own to show; and it leaves a context safe to move. |
| Crossings.CoveredWorkersAreSafe | asgiref/sync.py:274-346 | From a context safe to move, every crossing of every nested run moves a context safe to move, if what reused worker threads hold in contexts of their own is set where the run starts. |
| Crossings.Transparent | asgiref/sync.py:54-71 | Transparency: every read, the outcome and the final visible dictionary of any nesting of crossings, exceptions, deletions and spawned tasks are those of one plain dictionary, also on reused worker threads whose own variables are all set at the start. |
| Crossings.CallTransparentExactly | asgiref/sync.py:270-346 | An `async_to_sync` call looks like one dictionary for all user code covered by the caller's variables if and only if the caller's storages, that of the current executor apart, are its own or empty and the loop's thread holds nothing that the caller does not set. |
| Crossings.InheritedIsolation | asgiref/local.py:12-23 | A thread started on a copy of another's context behaves, over every program in which it does not cross while it still holds foreign storage, as if every Local began empty. |
| Crossings.UncrossedIsolation | asgiref/local.py:12-23 | In particular over every program in which it does not cross at all. |
| Crossings.SyncCrossingExact | asgiref/sync.py:519-571 | An empty `sync_to_async` call changes no read if and only if the caller's Local storages are its own or empty. |
| Crossings.TripExact | asgiref/sync.py:54-71 | The same for a move there and back through a thread with a context of its own: it must in addition be covered. |
| Crossings.AsyncCrossingExact | asgiref/sync.py:270-346 | An empty `async_to_sync` call changes no read if and only if the caller's storages, that of the current executor apart, are its own or empty and the loop's thread has nothing of its own to show. |
| Crossings.InheritedStorageLeaks | asgiref/sync.py:65-66 | A concrete inherited value that becomes readable through a crossing. |
| Crossings.ReusedWorkerLeaks | asgiref/sync.py:326-338 | A concrete value of one caller that a reused worker thread hands to another. |
| Crossings.Bracketing | asgiref/sync.py:270-272 | However the awaitable ends and whatever it nests, `executors.current` is afterwards what it was before the call. |
| Affinity.PlacedOnNearest | asgiref/current_thread_executor.py:92-110 | Below an executor, a thread-sensitive body runs on a thread if and only if that is the thread of the first unbroken executor on the chain, and the nearest executor is not the caller's own. |
| Affinity.PlacedExactly | asgiref/sync.py:489-517 | On which thread a thread-sensitive body runs, and exactly when it is refused: no executor and no fallback, the caller's own executor, or a chain that has all quit. |
| Affinity.EvalAffinity | asgiref/sync.py:489-517 | With lexical executors built on one thread, thread-sensitive bodies run on that thread only, at any depth. |
| Affinity.MoveExecutor | asgiref/sync.py:54-71 | The current executor travels with a context that is moved to another thread. |
| Affinity.ExecAffinity | asgiref/sync.py:236-349 | Every run keeps, whatever else contexts hold, that sync code is on the main thread and async code finds an executor of the main thread's, and leaves the current executor as it was. |
| Affinity.ThreadAffinity | asgiref/sync.py:489-517 | In a call tree rooted at `async_to_sync` on a thread whose `sync_to_async` calls are all thread-sensitive, every sync body runs on that thread, whichever executors have quit, and whatever contexts the caller and the loops' threads have. |
| ThreadCritical.Confinement | asgiref/local.py:37-71 | Over every run, a read of a thread-critical Local on a thread finds only values written on that thread, although its variables are carried through others, and also if reused worker threads hold contexts of their own that were so written. |
| ThreadCritical.Untouched | asgiref/sync.py:57-71 | What async code on a thread keeps at a thread-critical name is the same after any run in which no async code on that thread, spawned tasks apart, sets or deletes the name. |
| ThreadCritical.AsyncValueSurvives | asgiref/local.py:123-152 | An async-side value of a thread-critical Local is unchanged by any `sync_to_async` round trip, also one that comes back to the same loop, unless code there sets or deletes it. |
| LocalStorage.ContextObject.Copy | asgiref/sync.py:276 | A copied context holds the very same objects and shows the same. |
| LocalStorage.ContextObject.Get | asgiref/local.py:162-171 | The read on context objects is the read on contexts as values. |
| LocalStorage.ContextObject.Set | asgiref/local.py:173-182 | The set copies the dictionary first: no object any context held changes, and the context becomes the written one. |
| LocalStorage.ContextObject.Delete | asgiref/local.py:184-194 | The delete likewise, storing a smaller dictionary. |
| LocalStorage.ContextObject.RestoreOne | asgiref/sync.py:57-71 | One round of `_restore_context`: the variable holds the re-homed value and every other is as before, whether or not it had to be set. |
| LocalStorage.ContextObject.Restore | asgiref/sync.py:54-71 | The loop of `_restore_context`, also when the source is the running context. |
| Bridge.Load | asgiref/local.py:162-171 | A get, in a context or in thread-local storage, and the AttributeError when there is nothing. |
| Bridge.Store | asgiref/local.py:173-182 | A set, in a context or in thread-local storage. |
| Bridge.Remove | asgiref/local.py:184-194 | A delete, and the AttributeError when there is nothing. |
| Bridge.InstallExecutor | asgiref/sync.py:270-272 | The new executor is current, on top of the old one, which is remembered. |
| Bridge.BeginAsync | asgiref/sync.py:270-296 | `__call__` up to the dispatch: the context is copied after the executor was installed. |
| Bridge.MainWrap | asgiref/sync.py:373-406 | `main_wrap` leaves in the list a copy of the context the awaitable ended in, whether it returned or raised. |
| Bridge.EndAsync | asgiref/sync.py:343-346 | The finally block: the captured context restored, then the old executor. |
| Bridge.CallAsyncToSync | asgiref/sync.py:236-349 | The whole call does what the concrete meaning says. |
| Bridge.BeginSync | asgiref/sync.py:519-533 | The function's context: a copy, entered on the worker and re-homed there. |
| Bridge.CallSyncToAsync | asgiref/sync.py:519-574 | The whole call does what the concrete meaning says. |
| Bridge.SpawnTask | asgiref/local.py:80-86 | A task works on a copy of the context that never flows back. |
| Bridge.Run | asgiref/sync.py:236-349 | Running any program over context objects does exactly what its concrete meaning says. |
| Bridge.RunAlone | asgiref/local.py:101-105 | Copy-on-write: whatever a program does in one context, every other context looks as it did and no published dictionary is mutated. |
| ExecutorInvariant.StepKeepsInv | asgiref/current_thread_executor.py:57-113 | Every step of any thread keeps the invariant; executors stay broken, and accept, settle and call only more. |
| ExecutorInvariant.RunKeepsInv | asgiref/current_thread_executor.py:57-113 | So does every run. |
| ExecutorGuarantees.WorkConservation | asgiref/current_thread_executor.py:29-40 | Accepted items are the settled ones, the one in hand and the queue, in FIFO order; none is accepted twice or elsewhere; the functions called are those of the items not cancelled first, once each, in order. |
| ExecutorGuarantees.ExitIsFinal | asgiref/current_thread_executor.py:74-83 | After `run_until_future` has exited the executor is broken with an empty queue for ever, and every item it accepted was run or had been cancelled. |
| ExecutorHistory.FactExactly | asgiref/current_thread_executor.py:29-113 | Over every run: an item is cancelled if and only if some step cancelled it, called if and only if its owner claimed it uncancelled, taken by an executor if and only if a round of its walk found that nearest, refused if and only if one found none; an executor is broken if and only if its done callback ran or its future was done before it began; and so on for what was built, submitted, left and returned. |
| ExecutorHistory.EveryItemIsCalled | asgiref/current_thread_executor.py:29-83 | Every item accepted by an executor that has left was called exactly once, and its function has returned, unless somebody cancelled it, and never if somebody did. |
| ExecutorHistory.OwnersCanMove | asgiref/current_thread_executor.py:66-83 | An owner in `run_until_future` can always take its next step unless it waits with nothing to do or is inside a function in which it runs another executor. |
| ExecutorHistory.SubmissionsCanMove | asgiref/current_thread_executor.py:29-110 | A submission can always go on until it is accepted or refused, and can be cancelled exactly until its function is called. |
| ExecutorGuarantees.NoLostWakeup | asgiref/current_thread_executor.py:66-83 | An owner that waits un-notified has an empty queue and is not broken; with work or broken it can wake; and no other executor of its thread waits, so one notify is enough. |
| ExecutorGuarantees.BoundedDrain | asgiref/current_thread_executor.py:66-83 | From the moment it is broken an executor accepts nothing, and makes exactly as many rounds as leave the queue and then the loop. |
| ExecutorGuarantees.WalkEndsAtomically | asgiref/current_thread_executor.py:98-110 | The round that ends the walk gives the item to the executor nearest at that instant, and refuses it exactly when none is left. |
| ExecutorGuarantees.WalkIsAtomic | asgiref/current_thread_executor.py:98-110 | Up to how far walks have got, every run is a run in which `submit` is one atomic step. |
| ExecutorGuarantees.WalkTerminates | asgiref/current_thread_executor.py:98-110 | The walk makes no more rounds than there are executors built before where it is. |
| ExecutorGuarantees.CalledOnItsThread | asgiref/current_thread_executor.py:50-55 | An item submitted to a chain of executors built on one thread is called by that thread only, past broken executors only. |
| Handoff.StepKeepsInv | asgiref/sync.py:285-346 | Every step of any call, loop, executor or submitter keeps what is known about every call. |
| Handoff.ContextHandOff | asgiref/sync.py:311-346 | In every interleaving and on both dispatch paths, what is restored is the context the awaitable ended in, and `call_result` has its outcome by then; a call that never dispatched restores its own copy. |
| HandoffHistory.FactExactly | asgiref/sync.py:308-346 | Over every run: a call went to the main loop if and only if that was running and accepted it, was turned down if and only if it was not or did not, went to a new loop if and only if it was submitted to one; and so on for its list, its context, its outcome and its end. |
| HandoffHistory.DispatchedOnce | asgiref/sync.py:308-340 | Counted over the run, at most one loop takes the awaitable; a new one only after the main loop turned it down, and then it can be submitted to a new one and not offered to the main loop again. |
| HandoffHistory.GivesBack | asgiref/sync.py:311-349 | If a loop took the awaitable, it began in a copy of the caller's context, and has ended, and so has a new loop, when the caller goes on; the context restored is the one its own steps made, and `call_result` has what it returned or raised; if none did, the caller's own context is restored. |
| HandoffHistory.CallsGoOn | asgiref/sync.py:311-346 | In every interleaving a call that no loop has taken can go on to one, the loop that took it can take its next step, and once that is over the executor's done callback can run, and the call can finish when the executor has exited. |
| Handoff.StepKeepsLists | asgiref/sync.py:376-395 | Every step keeps that each `task_context` holds exactly the registered calls, each once. |
| Handoff.TaskContextExact | asgiref/sync.py:376-395 | In every interleaving each `task_context` is the bag of the `main_wrap` activations that captured it and are unfinished. |
| HandoffHistory.TaskContextInOrder | asgiref/sync.py:376-395 | It has them in the order in which they registered. |
| ThreadExecutor.WorkItem.Run | asgiref/current_thread_executor.py:29-40 | The function is called exactly once and what it returns or raises goes to the future; or never, if the future was cancelled. |
| ThreadExecutor.CurrentThreadExecutor.TryAppend | asgiref/current_thread_executor.py:102-107 | The locked region does what the protocol's submission does to an executor, the notify included, or nothing if it is broken; and nothing to other executors. |
| ThreadExecutor.CurrentThreadExecutor.NearestBeyond | asgiref/current_thread_executor.py:98-110 | Past broken executors, the nearest one is the same from there as from the start. |
| ThreadExecutor.CurrentThreadExecutor.Submit | asgiref/current_thread_executor.py:85-113 | Under arbitrary interference between locks: the item ends up once, last, in the nearest unbroken executor and nowhere else, or nowhere when refused; refused only to the own thread or when the whole chain is broken. |
| ThreadExecutor.CurrentThreadExecutor.Happen | asgiref/current_thread_executor.py:66-69 | What another thread does to an executor is what the protocol's submission and done callback do, and keeps that everything is accounted for. |
| ThreadExecutor.CurrentThreadExecutor.Look | asgiref/current_thread_executor.py:75-81 | The locked region of the loop is the protocol's look: it takes the item that waited longest, or leaves, or waits. |
| ThreadExecutor.CurrentThreadExecutor.RunTaken | asgiref/current_thread_executor.py:82 | The item in hand is claimed and called, or dropped, as in the protocol, and everything stays accounted for. |
| ThreadExecutor.CurrentThreadExecutor.TakeAndRun | asgiref/current_thread_executor.py:80-83 | One round settles the item that waited longest. |
| ThreadExecutor.CurrentThreadExecutor.Loop | asgiref/current_thread_executor.py:74-83 | For every schedule of submissions, cancellations and the done callback: accepted is what arrived before it was broken, called are those of the settled that were not cancelled, in order and once each, and it leaves only when broken with everything settled, waits only when un-notified with nothing to do. |
| ThreadExecutor.CurrentThreadExecutor.RunUntilFuture | asgiref/current_thread_executor.py:57-83 | The same with the thread check, and with a future that is done already. |
| CancellationInvariant.LandStep | asgiref/sync.py:556 | A cancel request, wherever it lands, keeps the invariant and dooms the task it lands in. |
| CancellationInvariant.FoundStep | asgiref/sync.py:552-557 | The handler that finds a registered task cancels it and awaits it, keeping the invariant. |
| CancellationInvariant.AfterChildStep | asgiref/sync.py:558-568 | The handler after `await task`, in all its branches, keeps the invariant. |
| CancellationInvariant.StepKeepsInv | asgiref/sync.py:550-574 | Every step of the loop, of a worker or of whoever cancels keeps the invariant, and none takes back a throw, an end, what a handler saw or what a call gave. |
| CancellationInvariant.RunKeepsInv | asgiref/sync.py:550-574 | So does every run. |
| CancellationHistory.StepFact | asgiref/sync.py:550-574 | Every step brings about exactly the facts it should: CancelledError entering the handler, the handler letting its task finish and going on, or cancelling the future, a request meeting it in its last await, in time or not, and the function's return. |
| CancellationHistory.FactExactly | asgiref/sync.py:550-574 | Over every run, each of these facts holds if and only if some step of the run brought it about. |
| CancellationGuarantees.OutcomeExactly | asgiref/sync.py:550-574 | In every interleaving, a call gave what its function returned or raised if and only if CancelledError never entered the handler, or the handler was resumed with its task ended without CancelledError and the future not done, and no step made a request that met its await of the future; and CancelledError otherwise. |
| CancellationGuarantees.HandlerGoesOn | asgiref/sync.py:558-568 | A handler goes on when its task is over: with the future done it gives CancelledError at once and leaves that; if not, it awaits it exactly if the task was not cancelled and no request reached the handler, and otherwise cancels it. |
| CancellationGuarantees.RevokedExactly | asgiref/sync.py:564-568 | The executor future is cancelled by the handler if and only if, with that not done, it found no task or CancelledError came out of `await task`; otherwise if and only if a request met it awaiting the future, and then it had let its task finish. |
| CancellationGuarantees.RequestLands | asgiref/sync.py:556-558 | A request dooms exactly the task at the end of the chain of handlers awaiting their tasks, and that one then waits for nothing else. |
| CancellationGuarantees.HandlerLooks | asgiref/sync.py:554-567 | A handler sees nobody exactly if no `main_wrap` that captured its list is unfinished, and then cancels a future that is not done and gives CancelledError; and otherwise cancels the first in the list, and awaits it. |
| CancellationGuarantees.ListInOrder | asgiref/sync.py:376-395 | A `task_context` holds the tasks that registered in it and are not over, in the order in which they registered. |
| CancellationGuarantees.TasksGoOn | asgiref/sync.py:550-568 | A suspended task can go on exactly if what it awaits is done, or CancelledError was thrown into that. |
| CancellationGuarantees.WorkersGoOn | asgiref/sync.py:537-547 | A worker thread can go on unless its function waits for a task that is not over, or was cancelled before it began. |
| CancellationGuarantees.WaitsForItsTask | asgiref/sync.py:311-346 | In every interleaving a function goes on from `async_to_sync` only when the task it waited for has begun and is over. |
| CancellationGuarantees.NoRequestIsLost | asgiref/sync.py:556-558 | In every interleaving, every request of a handler was thrown into the task it landed in, or still will be. |
| CancellationGuarantees.CancelReachesInnermost | asgiref/sync.py:550-568 | Once no CancelledError is on its way, every cancellation ended in a task with no registered task below, before it began, in an await of its own or in a call where nothing was registered; unless it met a handler of a task that had been cancelled before. |
| CancellationGuarantees.TopCancelReaches | asgiref/sync.py:550-568 | The same for every request to any task, whatever runs before and after it: it is thrown into the task it landed in, where that was at the time, or at its next await if that was running, unless it ended first, cancelled; in a handler it goes no further, and elsewhere it reaches the innermost registered task below, unless it meets a handler of an earlier cancellation. |
| CancellationGuarantees.OneRequestReachesInnermost | asgiref/sync.py:550-568 | In a run with a single request that never happens: the CancelledError is the first that is thrown into the task and into every one below it, and it reaches the innermost registered task. |
| CancellationGuarantees.AwaitingHandlerMisses | asgiref/sync.py:568 | A request that meets a handler awaiting its executor future cancels the future and touches no other task. |
| CancellationGuarantees.SecondCancelMisses | asgiref/sync.py:568 | A concrete run in which a second request leaves the innermost registered task alone. |
| Utf8.DecodeEncoded | asgiref/wsgi.py:60-61 | The first character of an encoding can be read back whatever follows (section 3 of RFC 3629). |
| Utf8.EncodeAppend | asgiref/wsgi.py:60-63 | The encoding of a concatenation is the concatenation of the encodings. |
| Utf8.PrefixCode | asgiref/wsgi.py:62-63 | One encoding begins another if and only if one string begins the other. |
| Utf8.SplitPath | asgiref/wsgi.py:60-63 | The root is stripped exactly when it is a prefix in characters; then PATH_INFO encodes the rest, and SCRIPT_NAME and PATH_INFO make up the path if and only if it was; an error exactly when a surrogate cannot be encoded. |
| WsgiRequest.ReadBody | asgiref/wsgi.py:41-50 | There is a body if and only if some message is the first without more_body and all up to it are http.request messages; and it is what all of those carry, one after the other. |
| WsgiRequest.GroupsHoldValues | asgiref/wsgi.py:90-105 | The list kept for a key is that of the values of all headers with that key, in order, and there is none for any other key. |
| WsgiRequest.ValuesOfThose | asgiref/wsgi.py:90-105 | These are the values of exactly the headers with that key, in their order. |
| WsgiRequest.WithinExactly | asgiref/wsgi.py:101-104 | What the limit allows: no more headers of a kind than that, none at all if it is negative, and anything if it is 0 or None. |
| WsgiRequest.SameKeyExactly | asgiref/wsgi.py:92-98 | Headers have the same key if and only if they have the same name, or the same but for case and dashes and neither is one of the two with keys of their own; any other key is HTTP_ and the name in capitals. |
| WsgiRequest.JoinAppend | asgiref/wsgi.py:106-107 | Joining puts one comma between two values, and nothing else. |
| WsgiRequest.JoinedSplits | asgiref/wsgi.py:106-107 | Values without commas can be read back from the environ. |
| WsgiRequest.GroupHeaders | asgiref/wsgi.py:90-105 | ValueError exactly when some header is one too many of its kind; otherwise the lists of all headers. |
| WsgiRequest.BuildHeaders | asgiref/wsgi.py:89-108 | The environ entries: exactly the keys that headers have, with their values joined by commas. |
| Wsgi.AcceptedExactly | asgiref/wsgi.py:114-129 | `start_response` accepts a call if and only if nothing was sent, it is the first or has exc_info, and status, headers and every Content-Length parse. |
| Wsgi.RejectedBecause | asgiref/wsgi.py:114-129 | Why a call is rejected: the first that applies of a started response, a second call without exc_info, a bad status, a bad header and a bad Content-Length. |
| Wsgi.CodeExactly | asgiref/wsgi.py:121-122 | The status code is what comes before the first space. |
| Wsgi.CodeNeedsSpace | asgiref/wsgi.py:121 | There is one if and only if there is a space. |
| Wsgi.LowerIsLower | asgiref/wsgi.py:124 | A lower-cased name is the name, character by character, without ASCII capitals. |
| Wsgi.LoweredIsEach | asgiref/wsgi.py:124 | The start message has all headers in order, names in lower case and values as they are. |
| Wsgi.StopsAtFirstBad | asgiref/wsgi.py:126-129 | Parsing stops at the first Content-Length that is not a number, leaving what those before it declared. |
| Wsgi.RejectedChangesNothing | asgiref/wsgi.py:110-135 | A rejected `start_response` changes something if and only if nothing was sent, it is the first or has exc_info, status and headers parse, some Content-Length does not, and those before it declare another length than the one in force; and then it changes only the length. |
| Wsgi.RejectedCallLiftsTheLimit | asgiref/wsgi.py:125-129 | A family of rejected calls that lift the limit of the accepted call before them. |
| Wsgi.DeclaredIsLast | asgiref/wsgi.py:126-129 | The declared length is that of the last Content-Length, and none if there is none. |
| Wsgi.LastAcceptedCounts | asgiref/wsgi.py:110-135 | Unless a length fails to parse, start message and limit both come from the last call accepted before the first chunk, the limit being its last Content-Length. |
| Wsgi.ClampedBody | asgiref/wsgi.py:169-179 | From any point of the response, what is sent is the first so many bytes of what is left, from the least number of chunks that make them up. |
| Wsgi.UnclampedBody | asgiref/wsgi.py:169-179 | Without a declared length the output is sent unchanged, chunk by chunk. |
| Wsgi.ChunksOfThose | asgiref/wsgi.py:163 | The chunks are those of exactly the events that yield one, in order. |
| Wsgi.NegativeLength | asgiref/wsgi.py:170-179 | What a negative declared length delivers: of every chunk all but the last bytes, as many as were sent so far and the length below zero. |
| Wsgi.NeverTooMuch | asgiref/wsgi.py:170-174 | No output makes it send more than declared, or anything at all for less than nothing, if and only if the declared length is not negative. |
| Wsgi.WsgiToAsgiInstance.ReadLengths | asgiref/wsgi.py:125-129 | The length left behind by the Content-Length headers, also when one is not a number. |
| Wsgi.WsgiToAsgiInstance.StartResponse | asgiref/wsgi.py:110-135 | The verdict and the state a call leaves, whether it is accepted or raises. |
| Wsgi.WsgiToAsgiInstance.SendChunk | asgiref/wsgi.py:165-176 | One round: the start message before the first chunk only, then the clamped chunk. |
| Wsgi.WsgiToAsgiInstance.SendChunks | asgiref/wsgi.py:163-179 | The loop over any interleaving of `start_response` calls and chunks sends the clamped pieces and stops when enough was sent. |
| Wsgi.WsgiToAsgiInstance.RunApplication | asgiref/wsgi.py:162-184 | A completed response is one start message, the bodies with more to come, and one last body; a crash leaves a beginning of one. |
| Wsgi.WsgiToAsgiInstance.RunWsgiApp | asgiref/wsgi.py:143-184 | The 400 answer, a complete response too, is given exactly when the path or its root cannot be encoded, the query string is not ASCII, or a header is one too many of its kind; otherwise the application runs. |
| Wsgi.Grammar | asgiref/wsgi.py:147-184 | Start, bodies with more, one last body: a complete response. |
| Wsgi.DeliveredPayload | asgiref/wsgi.py:163-184 | The bytes delivered are all of the output, or exactly the declared first part of it from the least number of chunks. |
| Server.Evict | asgiref/server.py:103-104 | Eviction ends, for every max_applications, within the limit when there is one. |
| Server.Oldest | asgiref/server.py:128-134 | The first in insertion order of those last used earliest. |
| Server.StatelessServer.GetOrCreateApplicationInstance | asgiref/server.py:95-122 | The new table and the queue, or the ValueError of a negative limit. |
| Server.StatelessServer.DeleteOldestApplicationInstance | asgiref/server.py:124-134 | Its two loops find and delete exactly one instance, the oldest. |
| Server.StatelessServer.DeleteApplicationInstance | asgiref/server.py:136-144 | The instance goes and its task is asked to cancel unless done; a KeyError changes nothing. |
| Server.StatelessServer.ApplicationCheckerPass | asgiref/server.py:153-162 | One pass over a snapshot, and how a cancelled task ends it. |
| Server.PassedIsLive | asgiref/server.py:153-162 | What a pass leaves: those it looked at that are not done, and the others untouched. |
| ServerGuarantees.StepKeepsInv | asgiref/server.py:95-162 | No orphans and the bound: every operation keeps that each task created is in the table, done or asked to cancel, and that there are at most max_applications + 1 instances. |
| ServerGuarantees.Run | asgiref/server.py:95-162 | So does every run. |
| ServerGuarantees.QueueStays | asgiref/server.py:95-162 | An instance keeps its queue as long as it is in the table, and is taken away only by a delete of it, by a pass that finds its task done, or by a miss on an overfull table; whoever asks is answered with the queue that its scope id has from then on, a new one only if there was none. |
| ServerGuarantees.ForgetKeepsOwned | asgiref/server.py:157-162 | The checker's `del` keeps every task owned if and only if the task it drops is done or asked to cancel. |
| ServerGuarantees.EvictionTakesTheOldest | asgiref/server.py:103-104 | Whatever the clock did, everything evicted was used earlier than anything that stays, or at the same reading and inserted earlier. |
| ServerGuarantees.EvictionAsks | asgiref/server.py:136-144 | Eviction asks exactly the tasks of what it takes to cancel, and takes no more than it has to. |
| ServerGuarantees.AtTheLimitNothingIsReclaimed | asgiref/server.py:103-122 | A table with exactly max_applications instances grows by one, and nothing is reclaimed. |
| ServerRecency.OldestIsFrontExactly | asgiref/server.py:128-134 | Under a clock that does not go back, the oldest entry is the front of the recency list if and only if no entry inserted before the front was last used at the same reading. |
| ServerRecency.EvictKeepsExactly | asgiref/server.py:103-134 | Eviction keeps what the recency list keeps if and only if no instance that the list keeps was inserted before one that it drops and last used at the same reading. |
| ServerRecency.EvictAgrees | asgiref/server.py:103-134 | Without such a tie eviction takes exactly the front of the recency list, and asks those tasks to cancel. |
| ServerRecency.HitAgrees | asgiref/server.py:99-101 | A hit moves the instance to the back of the list and returns the same queue. |
| ServerRecency.MissAgreesExactly | asgiref/server.py:102-122 | A miss drops the front and puts the new instance at the back if and only if there is no tie. |
| ServerRecency.CheckAgrees | asgiref/server.py:153-162 | A checker pass drops the same instances from the list. |
| ServerRecency.StepAgreesExactly | asgiref/server.py:95-162 | Under a clock that does not go back, an operation keeps table and list together if and only if it is no miss that meets a tie; the caller is answered as the list answers in any case. |
| ServerRecency.AgreeExactlyIfUntied | asgiref/server.py:95-162 | Over every run under such a clock, the table is the recency list throughout if and only if no miss meets a tie. |
| ServerRecency.TableIsRecencyList | asgiref/server.py:95-162 | Over every run under a strictly increasing clock, the table is the recency list and every caller is answered as the list answers. |
| ServerRecency.TiesEvictTheWrongOne | asgiref/server.py:128-134 | A family of tables in which the instance just used is the one evicted. |
| ServerChecker.StepKeepsOwnedExactly | asgiref/server.py:153-162 | With a handler that suspends, a step keeps every task owned if and only if the `del` it makes, if any, meets the instance it looked at, another whose task is done or asked, or none. |
| ServerChecker.OwnedExactlyIfHarmless | asgiref/server.py:153-162 | Every task is owned throughout a run if and only if every `del` in it is such. |
| ServerChecker.SuspendedReportOrphans | asgiref/server.py:157-162 | A concrete run that orphans a task while an exception is reported. |
| ServerChecker.DiesExactlyIfStricken | asgiref/server.py:153-162 | Over every run, the checker has died once no pass is under way if and only if it was dead or bound to die, a pass began with a cancelled task in the table, or a task was cancelled while its entry was still to be looked at. |
| ServerChecker.SuspendedReportKills | asgiref/server.py:136-162 | A concrete run in which the server itself cancels a task while an exception is reported, and the checker dies of it. |
| ServerChecker.UninterruptedIsCheck | asgiref/server.py:153-162 | A pass that nobody interrupts does what the pass of the server object does. |

## Left out

- Bridge.Run: thread-local storage, executor identities and the observations are passed along as values rather than kept in objects; only contexts and dictionaries are objects on the heap.
- Bridge.SpawnTask: a spawned task is run at the point where it is spawned; how the observations of tasks on one loop interleave is not captured, which no context can tell.
- Crossings.Transparent: leaves out programs whose reused worker threads hold variables that are not set where the program starts, although it may set them before it gets there; Transparency.Simulation has those, and for the outermost call the condition is exact in Crossings.CallTransparentExactly.
- Crossings.InheritedIsolation: leaves out runs that cross while holding inherited storage, where it is false; the exact condition for a crossing is in Crossings.SyncCrossingExact.
- Affinity.ThreadAffinity: which executors have quit, and the thread used when there is no current executor, are arbitrary; `deadlock_context`, `ThreadSensitiveContext` and `loop_thread_executors` are not modelled beyond that.
- ThreadCritical.AsyncValueSurvives: for a name that was not set, reused worker threads must not hold that Local's variable in a context of their own, or it shows through.
- ThreadExecutor.CurrentThreadExecutor.Loop: functions return, and what they do to other executors is not part of it; nested loops on one thread are in the protocol only.
- Handoff.ContextHandOff: every executor waits for one future, as in `AsyncToSync.__call__`; an interrupt of the waiting thread itself is not modelled.
- CancellationGuarantees.TopCancelReaches: a registered task is on the loop that cancels it (awaiting one of another loop is a RuntimeError); a coroutine's own awaits honour cancellation; which call's `task_context` an `async_to_sync` call captures is arbitrary.
- CancellationGuarantees.OutcomeExactly: a function that itself raises CancelledError counts as one more outcome; in the code that enters the handler too, with the future done and nobody cancelled, and the caller gets the same CancelledError.
- Wsgi.LastAcceptedCounts: says nothing when a length fails to parse; Wsgi.RejectedChangesNothing has that case.
- Wsgi.WsgiToAsgiInstance.StartResponse: Python's int() is a parameter.
- WsgiRequest.BuildHeaders: the other environ entries are constants or copies.
- Server.StatelessServer.ApplicationCheckerPass: `application_exception` does not suspend and does not touch the table; ServerChecker has the other case.
- ServerRecency.AgreeExactlyIfUntied: no task in the table is cancelled by others, since a checker pass fails on one that was, and the clock does not go back.
- A caller's own `context` argument to `sync_to_async`, `ContextVar.reset`, reserved attribute names, and foreign context variables with the name of Local's.
- Re-raising of `exc_info`, detection of async callables, weak references, process checks after a fork, and tracebacks.
- asyncio, ThreadPoolExecutor, Future and Condition are taken to do what they document; thread identifiers are unique, and values compare equal when they are the same.
- Global deadlock freedom and liveness: beyond safety, only who can take a next step, wake-up and drain are stated.
- Entering and leaving AsyncSingleThreadContext and ThreadSensitiveContext.
- The server's main loop, logging and handle().
- asgiref/timeout.py, asgiref/testing.py, asgiref/compatibility.py and asgiref/typing.py.
