# Cedana daemon: a model of its stateful core

Cedana checkpoints and restores processes, containers and GPU workloads with CRIU. This project models the parts
of the daemon where several pieces of state must stay in step, and proves what they promise for every input, every
outcome of the calls they make, and every order of events.

| files | component | main results |
|---|---|---|
| `lazy_jobs*.dfy`, `lazy_manager.dfy` | the lazy job manager: memory, tombstones, a queue of deferred database actions | agreement of memory and database when no put is pending, and no resurrection, also with calls that fall into a running put; where the content of rows and memory comes from; the order of draining does not matter; shutdown tries everything once |
| `criu_driver.dfy`, `criu_bracketing.dfy`, `criu_dispatch.dfy`, `criu_view.dfy`, `criu_replay.dfy` | the CRIU session: prepare, initialize, notification loop, finalize, cleanup, and the fan-out to callbacks in reverse order | bracketing, which notification runs which hook, acknowledgement discipline, no lost errors, what one callback among many gets to see, and that a call depends on its callbacks only through their answers |
| `gpu_hooks.dfy`, `gpu_attach.dfy`, `gpu_restores.dfy`, `gpu_restore_laws.dfy`, `gpu_swallowed.dfy` | the GPU callback inside such a session, with the GPU restores it runs beside CRIU, interleaved | exactly when a GPU failure surfaces, is lost or ends the daemon; exactly when and whom the callback kills; exactly when the lock stays taken and when the GPU is unfrozen |
| `gpu_termination.dfy` | sessions, detaches, syncs, failed attaches and spawns on shared controllers, interleaved | a controller is terminated at most once and never during a session; exactly when a terminated one comes back |
| `gpu_pool.dfy` | the controller pool and its manager | what a sync learns of each controller, and that none in use is ended; listing partitions, a sync converges, shutdown ends after an exact number of passes |
| `gpu_intervals.dfy` | merging of GPU phase intervals | the merge is the measure of the union; named and other time add up to the worker's duration |
| `profile_tree.dfy`, `profile_heap.dfy`, `profile_categories.dfy` | profiling trees: flatten, clean, and the calls that build them | conservation of time, idempotence, and categories that vanish when flattened |
| `process_tree.dfy` | the process table and the breadth-first walk over it | the tree has below each process exactly its readable children in the order of the table, and nobody twice |
| `inherit_keys.dfy`, `inherit_table.dfy`, `inherit_plan.dfy`, `inherit_laws.dfy` | the files handed over to a restore, and the keys declared at dump | every entry finds its file, keys agree and are injective |
| `broadcast.dfy` | the exit-code broadcaster | everyone gets the whole history and one close, exactly for inputs of at most one value |

Code that changes state appears twice: as a function on values, about which the laws are proved, and as a class or a
method with loops that does what the source does and is proved to compute that function. Code that runs concurrently
is a state machine whose events are the steps between two points where another thread may run. Calls into the
system, the database, CRIU and the GPU controller are inputs: an answer for every question, with nothing assumed
about it. Orders that Go leaves open (ranging over a map) are inputs too. Errors are sequences of numbers, so that
joining errors is concatenation and no error is the empty sequence.

`dafny verify dfyconfig.toml` checks the whole project.

Where the source does not meet a law on all inputs, the law is proved with its exact condition:

- A GPU restore that fails and sends its error before a second pre-restore hook replaces the channel is lost, if no hook
  received in between (`RestoreFailureSurfaces`, `OverwrittenIsInvisible`, `SwallowedExample`). Sent after the
  replacement, the error is received (`LateFailureIsHeard`). Sent once the second restore has closed its channel, it ends
  the daemon (`LateFailureEndsDaemon`, `LaterFailureCrashes`); with one pre-restore hook this cannot happen
  (`OneRestoreIsSafe`).
- The termination lock taken in initialize stays taken if another callback's initialize fails afterwards, if the
  freeze fails, or if a finalizer that runs earlier fails (`LockLeaksIff`, `LockLeaks`). The GPU stays frozen in a dump
  that fails before pre-dump (`UnfreezeIff`, `StaysFrozen`).
- A session may lock a controller that was terminated between its lookup and its lock (`SessionSeesItsController`,
  `RaceIsPossible`, `RaceHappens`).
- A pool sync that stores a controller after its termination puts it back for good, since every later termination
  returns at the flag (`TerminatedComesBackIff`, `DeadComesBack`). The manager books it once to clear it and finds it
  busy from then on (`UndeadTurnsBusy`, `UndeadIsSeenOnce`).
- The shutdown loop of the pool takes one pass if there is nothing to end, a second otherwise, and a third if besides a
  busy controller stops answering (`ShutdownStops`, `ThirdPassIsNeeded`).
- Merging intervals counts negative time if the first interval in start order ends before it starts
  (`MergedDuration`).
- Flattening twice renames components exactly if there are any, the root has a name, and its own time is as much as
  the own time of all serial nodes below it (`FlattenTwice`, `RenamedTheSecondTime`).
- Marking a category's component redundant leaves the categories balanced in all that follows exactly if the component
  has no time in one and cannot get any (`MarkRedundantIff`, `MarkedTooEarly`).
- A deleted checkpoint comes back at a reload of a job whose stored copy is remote (`CheckpointComesBackIff`,
  `CheckpointComesBack`), and a job deleted while a reload looks at it comes back too
  (`DeleteInsideReloadResurrects`). The laws about runs therefore take a reload as one event.
- The result of orphan-pts-master is assigned to a variable of its own case and lost (`AckDiscipline`,
  `OrphanAnswerIsLost`, `OrphanFailureIsLost`). In the same way the creation, mode and size of a GPU hostmem file are
  lost: the walk over the files ends, the adapter succeeds, and the restore goes on with what was inherited until then
  (`TroubleIsLostIff`, `TroubleIsLost`).
- A declared external file that can be opened is not inherited if the GPU adapter took its key for a container
  (`DeclaredIsInherited`, `DeclaredIsNotInherited`).
- An inherited external terminal keeps the descriptor number it had, which may be that of another entry or of the
  CRIU socket (`TerminalCollidesIff`, `TerminalCollides`). A file that cannot be opened is passed over, yet fails the
  restore if no later one can be opened (`FailsIff`, `FailsOrNot`).
- With two or more values the broadcaster can block for ever under its lock (`NeverStuckIff`) and lose values
  (`TwoValuesGetLost`).

## Model

| member | source | states |
|---|---|---|
| LazyJobsAgreement.BootEstablishesInv | internal/cedana/job/manager_lazy.go:84-87 | after the first load, memory holds exactly the stored jobs with their content, nothing is pending, and every disagreement with the database is covered by a queued action |
| LazyJobsAgreement.StepKeepsInv | internal/cedana/job/manager_lazy.go:463-522 | whatever the step and whatever the database answers (success, failure before or after taking effect), each job and checkpoint on which memory and database disagree has a queued put action |
| LazyJobsAgreement.RunKeepsInv | internal/cedana/job/manager_lazy.go:119-125 | that coverage holds in every state of every run, requeued failures included |
| LazyJobsAgreement.QuiescentAgreement | internal/cedana/job/manager_lazy.go:463-521 | in every run, once no put is pending, every stored job is in memory, every managed job in memory is stored, and every checkpoint in memory is stored with the same content |
| LazyJobsAgreement.EveryCheckpointHasItsJob | internal/cedana/job/manager_lazy.go:381-399 | in every state of every run a checkpoint in memory belongs to a job in memory |
| LazyJobsAgreement.NoResurrection | internal/cedana/job/manager_lazy.go:184-199 | after a delete, neither the job nor any of its checkpoints is in memory again until the job is created anew, through any reloads, retries and puts |
| LazyJobsAgreement.CheckpointComesBackIff | internal/cedana/job/manager_lazy.go:480-490 | a reload with any failing listings brings a deleted checkpoint back exactly if its job's stored row is remote, the job is not tombstoned, and no wanted job listed up to and including it has a failing listing |
| LazyJobsAgreement.CheckpointComesBack | internal/cedana/job/manager_lazy.go:480-490 | a state that a boot leads to in which it does |
| LazyJobsAgreement.DeleteInsideReloadResurrects | internal/cedana/job/manager_lazy.go:476-490 | a delete that falls between a reload's tombstone check and the rest of its turn is undone, with all the job's stored checkpoints, exactly if the tombstone was not there before |
| LazyJobsSplit.UndisturbedIsWork | internal/cedana/job/manager_lazy.go:498-519 | the finer steps of a put, with no call in between, are the worker's step or the drain's |
| LazyJobsSplit.StepKeepsInv | internal/cedana/job/manager_lazy.go:498-519 | the coverage of every disagreement holds also when API calls fall between the worker's look at memory and the database's answer |
| LazyJobsSplit.QuiescentAgreement | internal/cedana/job/manager_lazy.go:463-521 | in every such run, once no put is pending, memory and database agree as above |
| LazyJobsSplit.NoResurrection | internal/cedana/job/manager_lazy.go:184-199 | a job deleted while the database is at work on a put of it, or at any other time, does not come back, nor do its checkpoints, until it is created anew |
| LazyJobsContents.ReloadContents | internal/cedana/job/manager_lazy.go:468-492 | told from the rows and the memory before: a job that is not tombstoned and is not in memory or stored as remote has exactly its row afterwards if the listing comes to it, its checkpoints have theirs if they can be listed, all else is as it was, and the reload fails exactly if the checkpoints of such a job cannot be listed |
| LazyJobsContents.BootLoadsRows | internal/cedana/job/manager_lazy.go:84-87 | after the first load memory is the table of jobs, contents included, with the checkpoints of these jobs |
| LazyJobsContents.PutJobStores | internal/cedana/job/manager_lazy.go:498-508 | after a put the row is the job that memory holds, or is gone where memory has a tombstone, which goes only if the database confirms |
| LazyJobsContents.PutCheckpointStores | internal/cedana/job/manager_lazy.go:509-519 | the same for a checkpoint |
| LazyJobsContents.DeleteBuries | internal/cedana/job/manager_lazy.go:184-199 | a delete turns the job and exactly its own checkpoints into tombstones with their content, and queues a put for each |
| LazyJobsContents.RowsComeFromMemory | internal/cedana/job/manager_lazy.go:463-522 | in every run each row of a job was there at the start or is exactly what memory held under that id at some time |
| LazyJobsDrain.PutStepIsWork | internal/cedana/job/manager_lazy.go:119-125 | the step used in the drain laws is the worker's own step on a queue of puts |
| LazyJobsDrain.DrainOrderIrrelevant | internal/cedana/job/manager_lazy.go:498-519 | two drains of queues with the same actions in any order and multiplicity, each with any failures and requeues, end in the same database, memory and tombstones |
| LazyJobsDrain.DrainLeaves | internal/cedana/job/manager_lazy.go:498-519 | what any such drain leaves: the row of each job and checkpoint with a put is what memory holds, or gone with its tombstone; rows of checkpoints go with their job's where the database cascades; nothing else changes |
| LazyJobsDrain.DrainFinishes | internal/cedana/job/manager_lazy.go:119-125 | a queue of puts is empty once as many database calls have succeeded as there were actions |
| LazyJobsDrain.ShutdownTriesEachOnce | internal/cedana/job/manager_lazy.go:94-118 | in every run from boot, whatever calls still arrive, the shutdown drain has by its end tried exactly the actions queued before its marker, each once and in order |
| LazyJobsDrain.RunKeepsFresh | internal/cedana/job/manager_lazy.go:94-125 | before shutdown no marker is queued and the last drain has tried nothing, in every run from boot |
| LazyManager.NewManagerLazy | internal/cedana/job/manager_lazy.go:60-87 | a new manager has the state and the outcome of its first sync; if that succeeds, memory is the table of jobs and the invariant holds |
| LazyManager.ManagerLazy.New | internal/cedana/job/manager_lazy.go:139-152 | the whole state changes as the event says; it succeeds exactly for a non-empty id not in memory |
| LazyManager.ManagerLazy.Get | internal/cedana/job/manager_lazy.go:154-172 | the job in memory has what was seen, its own pid, and a GPU if one is attached, for which a put is queued; nothing else changes |
| LazyManager.ManagerLazy.Delete | internal/cedana/job/manager_lazy.go:184-199 | job and checkpoints leave memory, tombstones and put actions take their place |
| LazyManager.ManagerLazy.Find | internal/cedana/job/manager_lazy.go:259-270 | finds jobs with the pid exactly if there are any |
| LazyManager.ManagerLazy.Manage | internal/cedana/job/manager_lazy.go:272-290 | it succeeds exactly for a known job and a pid that no other job has; then the job has what was seen with that pid, and a put is queued |
| LazyManager.ManagerLazy.AddCheckpoint | internal/cedana/job/manager_lazy.go:381-399 | each checkpoint is added with its put action, and nothing at all happens for an unknown job |
| LazyManager.ManagerLazy.RemoveCheckpoint | internal/cedana/job/manager_lazy.go:439-449 | a known checkpoint leaves memory for a tombstone and a put action |
| LazyManager.ManagerLazy.SyncWithDB | internal/cedana/job/manager_lazy.go:463-522 | state and success of one action are those of the specification for every reply of the database |
| LazyManager.ManagerLazy.ReloadJobs | internal/cedana/job/manager_lazy.go:471-492 | the loop over listed jobs, with any failing list of checkpoints, is the recursive reload, and leaves what ReloadContents says |
| LazyManager.ManagerLazy.Turn | internal/cedana/job/manager_lazy.go:119-125 | one turn of the worker is the work event: a failed action goes to the end of the queue |
| LazyManager.ManagerLazy.Tick | internal/cedana/job/manager_lazy.go:126-128 | a reload is queued last |
| LazyManager.ManagerLazy.DrainTurn | internal/cedana/job/manager_lazy.go:100-110 | one turn of the drain is the drain event: a failed action is given up |
| LazyManager.ManagerLazy.DrainBeforeShutdown | internal/cedana/job/manager_lazy.go:94-118 | the loop ends, has tried exactly what was queued, in order, and keeps the invariant, whatever the database answers and whatever API calls arrive between its turns |
| CriuDriver.NotifyCallbackMulti.Include | pkg/criu/notify_callback_multi.go:17-23 | a callback is registered last; none is ignored |
| CriuDriver.NotifyCallbackMulti.IncludeMulti | pkg/criu/notify_callback_multi.go:25-31 | the other's callbacks follow in their order and the other is unchanged, also if it is this one |
| CriuDriver.NotifyCallbackMulti.Run | pkg/criu/notify_callback_multi.go:33-213 | the backward loop is the recursive fan-out: log, error and files |
| CriuDriver.Criu.Prepare | pkg/criu/criu.go:42-83 | in the process that is started, the descriptor named on its command line is the socket and no other is, and every extra file has the number its place gives it, below the socket's; on failure nothing changes |
| CriuDriver.Criu.NotifyLoop | pkg/criu/criu.go:234-327 | the receive loop with its switch over scripts is the recursive one on every list of replies: log, error, and the reply that is handed back, beside an error too |
| CriuDriver.Criu.RunSession | pkg/criu/criu.go:203-327 | the two initialize calls, the loop and the deferred finalize, in the order of the source |
| CriuDriver.Criu.Run | pkg/criu/criu.go:163-328 | a whole call, including the deferred cleanup; no worker is left running |
| CriuBracketing.FanShape | pkg/criu/notify_callback_multi.go:33-213 | the callbacks that ran are the registered ones in reverse order up to the first failure, whose error is returned; external files are concatenated in that order |
| CriuBracketing.AckDiscipline | pkg/criu/criu.go:264-324 | an acknowledgement follows a hook only if every registered callback ran it and returned nothing, with the files they gave; orphan-pts-master, whose result is shadowed, is acknowledged after failures too |
| CriuDispatch.LoopServes | pkg/criu/criu.go:234-327 | the acknowledged notifications are the first replies in their order; each runs the hook that its script names, with its own pid or descriptor, and no other, or none if it names none; the next reply decides the error and the response |
| CriuDispatch.CallServes | pkg/criu/criu.go:234-327 | the same of the log of a whole call, outside of which there is no acknowledgement and no such hook |
| CriuDispatch.BracketsFit | pkg/criu/criu.go:203-232 | a dump runs the initialize and finalize hooks of dumps only, a restore those of restores, and other calls neither |
| CriuBracketing.OrphanAnswerIsLost | pkg/criu/criu.go:302-324 | whatever the callbacks answer to orphan-pts-master, it is acknowledged and the loop goes on |
| CriuBracketing.OrphanFailureIsLost | pkg/criu/criu.go:302-324 | a whole call in which that hook fails, is acknowledged, and no error is returned |
| CriuBracketing.Bracketing | pkg/criu/criu.go:190-232 | finalize runs exactly if the matching initialize returned nothing, then once, with the run's error, after all other hooks and before cleanup; cleanup comes once and last; the result joins the errors of all three |
| CriuBracketing.FailureSurfaces | pkg/criu/criu.go:195-231 | every error of prepare, of a callback (orphan-pts-master apart) and of cleanup is part of the result |
| CriuBracketing.SucceedsIff | pkg/criu/criu.go:142-161 | the call succeeds exactly if there was a response and nothing failed |
| CriuBracketing.WithoutCallbacks | pkg/criu/criu.go:260-262 | without callbacks no hook runs and a notification is an error |
| CriuView.CallbackStory | pkg/criu/criu.go:203-232 | what one callback among many sees: turned away in initialize, or initialize, its own initialize, hooks of the loop and then its finalize exactly if no later-registered finalizer fails |
| CriuView.RunHonest | pkg/criu/criu.go:234-327 | each logged answer is the one the callback gave at that point of the history |
| CriuView.AnswerSurfaces | pkg/criu/criu.go:208-231 | an error that one callback returns is part of the result of the call |
| CriuReplay.CallDependsOnAnswers | pkg/criu/criu.go:163-328 | two sets of callbacks that answer alike wherever one call asks them have the same call: log, error and response |
| GpuHooks.DumpFailureSurfaces | internal/cedana/gpu/controller.go:421-460 | a GPU dump that fails makes the CRIU call fail with its error, whichever hook receives the result |
| GpuAttach.AttachFailureSurfaces | internal/cedana/gpu/controller.go:561-574 | an error of attaching to the restored process is part of the error of the CRIU call |
| GpuAttach.KillsIff | internal/cedana/gpu/controller.go:577-613 | in any call whose hooks all answer, the kills are exactly those at a pre-resume or finalize that answers an error, or a finalize told of a failed run after a restore was started, each of the pid of the last attach, if any |
| GpuRestoreLaws.RestoreFailureSurfaces | internal/cedana/gpu/controller.go:526-613 | a GPU restore that fails at any moment of a call, and sends its error into whatever channel the variable then names, makes the CRIU call fail, unless a pre-restore hook replaces that channel before a hook receives, or the daemon ends |
| GpuSwallowed.OverwrittenIsInvisible | internal/cedana/gpu/controller.go:526-549 | in that excepted case the call is the one that would have been had the restore succeeded at that moment: log, error and response |
| GpuRestoreLaws.SameAnswers | internal/cedana/gpu/controller.go:526-613 | the same of one callback and any hooks: it answers each alike, and the steps of the other restores remain possible |
| GpuRestoreLaws.LateFailureEndsDaemon | internal/cedana/gpu/controller.go:545-549 | after a call that came to its end without an error, a restore that still runs and fails sends on a closed channel |
| GpuRestoreLaws.OneRestoreIsSafe | internal/cedana/gpu/controller.go:526-556 | with at most one pre-restore hook, whatever the interleaving, nothing is sent on a closed channel and none is closed twice |
| GpuSwallowed.SwallowedExample | internal/cedana/gpu/controller.go:526-556 | a whole restore call with one GPU callback and two pre-restores, in which the first GPU restore fails before the second: no error is returned, and the error lies unread in the first channel |
| GpuSwallowed.LateFailureIsHeard | internal/cedana/gpu/controller.go:526-556 | the same call with the failure after the second pre-restore: its error is returned |
| GpuSwallowed.LaterFailureCrashes | internal/cedana/gpu/controller.go:526-556 | the same call with the failure after its end: no error is returned, and the failure ends the daemon |
| GpuHooks.LockLeaksIff | internal/cedana/gpu/controller.go:383-416 | after any call the termination lock is held at most once, and is held exactly if it was taken and either initialize as a whole failed or a later-registered finalizer did |
| GpuSwallowed.LockLeaks | internal/cedana/gpu/controller.go:383-416 | a dump call whose freeze fails: it returns the error and the lock stays taken |
| GpuHooks.UnfreezeIff | internal/cedana/gpu/controller.go:470-507 | unfreeze is issued once if finalize ran, pre-dump had run and leave-running is set or the run failed, otherwise never; and exactly when the GPU is left frozen |
| GpuSwallowed.StaysFrozen | internal/cedana/gpu/controller.go:470-507 | a dump call that CRIU refuses before pre-dump: it is finalized, returns the error, and the GPU stays frozen |
| GpuHooks.GpuCallback.InitializeDump | internal/cedana/gpu/controller.go:383-416 | lock, freeze and error are those of the step the laws are about |
| GpuHooks.GpuCallback.PreDump | internal/cedana/gpu/controller.go:421-460 | the result channel is made and filled, or waited for, as in that step |
| GpuHooks.GpuCallback.PostDump | internal/cedana/gpu/controller.go:463-468 | the result is received at most once |
| GpuHooks.GpuCallback.FinalizeDump | internal/cedana/gpu/controller.go:470-507 | lock released, result received, GPU unfrozen, as in that step |
| GpuHooks.GpuCallback.InitializeRestore | internal/cedana/gpu/controller.go:509-520 | the lock is taken exactly if the controller is found |
| GpuHooks.GpuCallback.PreRestore | internal/cedana/gpu/controller.go:526-556 | the variable names a new channel and a goroutine is to start; those of earlier hooks go on |
| GpuHooks.GpuCallback.StartRestore | internal/cedana/gpu/controller.go:529-530 | which channel will be closed is fixed when the goroutine starts |
| GpuHooks.GpuCallback.EndRestore | internal/cedana/gpu/controller.go:545-554 | an error goes into the channel that the variable names then, waits if there is no room, and ends the daemon if that is closed |
| GpuHooks.GpuCallback.CloseRestore | internal/cedana/gpu/controller.go:530-530 | the channel fixed at the start is closed, or the daemon ends if it was closed or someone waits to send on it |
| GpuHooks.GpuCallback.AttachRestored | internal/cedana/gpu/controller.go:561-574 | the pid is recorded and the error of attaching returned |
| GpuHooks.GpuCallback.PreResume | internal/cedana/gpu/controller.go:577-590 | waits exactly as long as the named channel is empty and open, for ever if there is none; otherwise receives the oldest error, and kills the process if there is one |
| GpuHooks.GpuCallback.FinalizeRestore | internal/cedana/gpu/controller.go:593-613 | waits likewise, but only if the run succeeded and there is a channel; lock released, an error received, the process killed if anything failed |
| GpuTermination.StepKeepsInv | internal/cedana/gpu/controller.go:319-344 | any step of any session, detach, sync, failed attach or failed spawn keeps the invariant that ties the flag, the lock, the map and the closed channel of every controller |
| GpuTermination.ClosedAtMostOnce | internal/cedana/gpu/controller.go:327-344 | in every interleaving the Terminated channel of a controller is closed at most once |
| GpuTermination.NoTerminationInSession | internal/cedana/gpu/controller.go:319-344 | while a session holds a controller's lock no step of anyone terminates it, and its socket file goes exactly if the termination of an earlier controller with the same id removes it |
| GpuTermination.SessionSeesItsController | internal/cedana/gpu/controller.go:387-394 | all lookups of a session find the controller it locked exactly if the first one after locking does |
| GpuTermination.RunsItsCourse | internal/cedana/gpu/controller.go:327-344 | in every interleaving, the thread that sets the flag is the one that takes the controller out of the pool, closes its channel and removes its socket file, in this order, nobody else affects the controller until it gives back the lock, and in the end it was closed once |
| GpuTermination.TerminatedEffect | internal/cedana/gpu/controller.go:332-344 | what a termination that nobody comes between leaves of the whole state |
| GpuTermination.RaceIsPossible | internal/cedana/gpu/controller.go:387-394 | between lookup and lock a termination can complete; the session then holds the lock of a controller that is no longer found |
| GpuTermination.RaceHappens | internal/cedana/gpu/controller.go:387-394 | a run in which it does |
| GpuTermination.FoundAgainIff | internal/cedana/gpu/controller.go:174-205 | an id that was in use may be found in the pool, now or after some events, exactly if it is there, its socket file is, or a running sync has still to store it |
| GpuTermination.TerminatedComesBackIff | internal/cedana/gpu/controller.go:337-344 | after a termination the id may be found again exactly if a running sync has still to store it; if so, the dead controller is then in the pool for ever, whatever happens |
| GpuTermination.UnlockedComesBackIff | internal/cedana/gpu/controller.go:327-344 | at the end of any termination in any run, however interleaved, when the id may be found again |
| GpuTermination.UndeadStays | internal/cedana/gpu/controller.go:330-333 | no event removes a dead controller that is in the pool once its termination is over |
| GpuTermination.DeadComesBack | internal/cedana/gpu/controller.go:205-205 | a run in which a sync stores a controller after its termination |
| GpuPool.ListPartitions | internal/cedana/gpu/controller.go:132-152 | free, busy and stale are disjoint and together are the pool |
| GpuPool.UsedIsKept | internal/cedana/gpu/manager_pool.go:83-160 | no sync, whatever its target, refusals and spawns and whatever the pool knew, ends a controller whose process runs and answers with a running attached process; and the pool learns that pid |
| GpuPool.AnsweringIs | internal/cedana/gpu/controller.go:664-724 | told from the process and the old pool: an unbooked controller that answers is free exactly if neither names an attached pid and shared memory and credentials match, busy exactly if the attached process runs, else stale |
| GpuPool.SilentIs | internal/cedana/gpu/controller.go:664-684 | one that does not answer is as the pool remembers it until the second failure in a row, then stale |
| GpuPool.OthersAre | internal/cedana/gpu/controller.go:132-205 | booked controllers are busy and not asked; unknown ones that do not answer are stale |
| GpuPool.SyncConverges | internal/cedana/gpu/manager_pool.go:98-157 | after a sync busy controllers are untouched; of those it booked to end, exactly the ones whose termination had begun before stay, booked and busy; stale ones are left only where the booking was refused; the number of free ones is exact for every outcome, and the pool size if all spawns and bookings succeed |
| GpuPool.PassIsSync | internal/cedana/gpu/manager_pool.go:83-160 | a pass of the shutdown loop is a sync with target zero, for any order |
| GpuPool.ShutdownStops | internal/cedana/gpu/manager_pool.go:54-70 | the loop takes one pass if there is nothing to end, else two if no busy controller stops answering, else three |
| GpuPool.ThirdPassIsNeeded | internal/cedana/gpu/manager_pool.go:54-70 | a pool in which the first two passes find something to end and the third does not |
| GpuPool.UndeadTurnsBusy | internal/cedana/gpu/manager_pool.go:121-129 | a stale controller whose termination has begun is booked by the first sync that gets its booking, and is in the pool, booked and busy, at every later sync, whatever its target, refusals and spawns |
| GpuPool.UndeadIsSeenOnce | internal/cedana/gpu/manager_pool.go:54-70 | in the shutdown loop it is stale at the pass that first sees it, which is not the last, and busy from then on |
| GpuPool.EndedStaysEnded | internal/cedana/gpu/controller.go:155-212 | what undisturbed syncs have ended is not found again by any later one; a concurrent store is in GpuTermination |
| GpuPool.EndedIsPast | internal/cedana/gpu/manager_pool.go:121-155 | what a sync takes out of the pool loses its socket file, so that the former applies |
| GpuPool.ManagerPool.RefreshAll | internal/cedana/gpu/controller.go:155-212 | the loop over the sockets asks each once and equals the refresh of the whole pool, in any order; one that answers is known, with no failures, its own shared memory and its attached pid |
| GpuPool.ManagerPool.List | internal/cedana/gpu/controller.go:132-152 | the three lists hold each controller of their status once |
| GpuPool.ManagerPool.Sync | internal/cedana/gpu/manager_pool.go:83-160 | counters and pool are those of the specification, for every order, every refused booking, every termination that has begun and every failed spawn; a sync that is skipped or cannot read the directory changes nothing |
| GpuPool.ManagerPool.Shutdown | internal/cedana/gpu/manager_pool.go:50-70 | the loop takes exactly that number of passes and leaves nothing free or stale |
| GpuIntervals.SortedIsUnique | internal/cedana/gpu/profiling.go:147-153 | sorting by start and end has one outcome, so the unstable sort of the source is determined |
| GpuIntervals.MergeSorted | internal/cedana/gpu/profiling.go:155-173 | the loop returns the number of instants covered, plus an exact defect for an inverted first interval |
| GpuIntervals.MergedDuration | internal/cedana/gpu/profiling.go:142-174 | the same for any list in any order, so the result is the measure of the union exactly if the first interval in order is not inverted |
| GpuIntervals.OtherIsUnaccounted | internal/cedana/gpu/profiling.go:189-214 | covered and other time of a worker add up to its duration for every list of phases; both are zero if it is negative |
| GpuIntervals.Clamp | internal/cedana/gpu/profiling.go:189-205 | intervals are cut to the worker's span and empty ones dropped |
| GpuIntervals.CoveredIntervals | internal/cedana/gpu/profiling.go:179-205 | all intervals of all phases are gathered, with the wrapped sum of their bytes and whether they are complete |
| GpuIntervals.BytesWrap | internal/cedana/gpu/profiling.go:176-186 | the named bytes are the sum of the phases' bytes modulo two to the 64 |
| GpuIntervals.OtherRows | internal/cedana/gpu/profiling.go:176-234 | a row exactly for each worker with complete intervals and instants no phase covers, holding their number and the bytes no phase names, in the order of the workers |
| ProfileTree.FlattenIsWalk | pkg/profiling/data.go:35-60 | flattening lists the descendants in preorder, each with its time less its serial children's and a name prefixed with its zero-remainder named ancestors |
| ProfileTree.FlattenConserves | pkg/profiling/data.go:35-60 | all times of the flat tree add up to the root's time plus that of every parallel or redundant node |
| ProfileTree.FlattenTwice | pkg/profiling/data.go:35-60 | flattening again changes no duration, transfer, flag or position, and no name except under an exact condition on the first tree |
| ProfileTree.RenamedTheSecondTime | pkg/profiling/data.go:35-60 | a tree whose component is renamed the second time |
| ProfileTree.CleanFilters | pkg/profiling/data.go:64-85 | cleaning removes exactly the empty nodes at every depth and keeps the preorder of the rest |
| ProfileTree.CleanKeepsNodes | pkg/profiling/data.go:64-85 | a node stays exactly if it has time, IO or a name, so no IO is lost |
| ProfileTree.CleanIsIdempotent | pkg/profiling/data.go:64-85 | cleaning twice is cleaning once, and leaves a tree alone exactly if it is clean |
| ProfileTree.CleanKeepsTotal | pkg/profiling/grpc.go:50-51 | cleaning before flattening does not change the grand total |
| ProfileHeap.FlattenNode | pkg/profiling/data.go:35-60 | the in-place recursion over shared nodes leaves the flat tree in the heap and touches nothing outside the tree |
| ProfileHeap.CleanNode | pkg/profiling/data.go:64-85 | the in-place recursion leaves the clean tree in the heap and touches nothing outside the tree |
| ProfileCategories.UnderCategoryKeeps | pkg/profiling/timing.go:113-129 | finding or making a category and adding a child below it keeps every category balanced and disturbs no other node |
| ProfileCategories.EndStep | pkg/profiling/timing.go:134-141 | ending a timer keeps every category balanced; the time of its own category and that of the serial components in it go up by as much |
| ProfileCategories.TransferStep | pkg/profiling/io.go:293-299 | the same for a read or write through a category wrapper |
| ProfileCategories.EndRecords | pkg/profiling/timing.go:64-141 | ending a timer gives its component exactly that time, its category as much more, and changes nothing else |
| ProfileCategories.TransferRecords | pkg/profiling/io.go:123-441 | a transfer adds its bytes and time to its component, or replaces the time beside a category, and adds the time to a category it counts for |
| ProfileCategories.ComponentCallIs | pkg/profiling/timing.go:51-224 | the component that a timing or IO call makes, and that nothing else changes |
| ProfileCategories.CategoryCallIs | pkg/profiling/timing.go:106-189 | the component that a category call makes, under the first node of that name in the context, or a new one |
| ProfileCategories.IOCallIs | pkg/profiling/io.go:444-468 | adding IO and marking it redundant change that alone |
| ProfileCategories.StepKeepsInv | pkg/profiling/io.go:260-441 | every timing or transfer call keeps each category's time equal to the sum of its serial children's |
| ProfileCategories.MarkRedundantIff | pkg/profiling/io.go:452-459 | once a component is marked redundant, the categories are balanced after every further sequence of calls exactly if it counts for no category or has no time and no open timer or wrapper in one |
| ProfileCategories.MarkedTooEarly | pkg/profiling/io.go:452-459 | a component marked before its timer ends, and the category left unbalanced |
| ProfileCategories.CategoriesVanish | pkg/profiling/data.go:52-59 | after any sequence of calls, in the flattened root a category has zero time, and all that is below it follows it there under its name |
| ProcessTree.BuildTable | pkg/utils/process.go:262-283 | the table lists under each parent exactly the processes that the scan gives that parent, each from its own entry and in the order of the entries; a cancelled scan gives none |
| ProcessTree.FillDescendants | pkg/utils/process.go:76-108 | the queue loop ends and builds exactly the tree of the recursive walk that drops an unreadable process with all below it; a cancelled walk leaves true pids under true parents, each with a prefix of its true children |
| ProcessTree.HangKeepsPromise | pkg/utils/process.go:96-107 | hanging a child under its parent and queueing its children keeps the finished tree that nodes and queue together promise |
| ProcessTree.VisitedOnce | pkg/utils/process.go:76-76 | if every process has one parent, no process occurs twice in the walk |
| ProcessTree.FillProcessState | pkg/utils/process.go:40-108 | the whole call: when it fails and what it returns then; otherwise below every process are exactly the readable ones that the scan gives it as parent, in their order, and no process occurs twice if the scan lists each once |
| InheritKeys.HexInjective | internal/cedana/process/dump_adapters.go:209-217 | two numbers with the same hexadecimal print are equal |
| InheritKeys.KeysInjective | internal/cedana/process/dump_adapters.go:209-217 | equal keys mean equal device pairs, or equal mounts and inodes, and never one of each |
| InheritKeys.KeysAre | internal/cedana/process/dump_adapters.go:209-217 | how the keys are written |
| InheritKeys.HexReads | internal/cedana/process/dump_adapters.go:209-217 | the digits read as a hexadecimal number give the number, without leading zeros |
| InheritKeys.FilesIff | pkg/utils/reflect.go:176-213 | the walk comes to a file exactly if the process or one below it has it |
| InheritKeys.ExternalIff | internal/cedana/process/dump_adapters.go:194-207 | a file is external exactly if no process of the state has its mount and its path does not begin as that of a pipe, socket, anonymous inode or memfd |
| InheritKeys.ExternalFileKeys | internal/cedana/process/dump_adapters.go:187-223 | the loop gathers the keys of the external files in walk order |
| InheritKeys.DeclaredIff | internal/cedana/process/dump_adapters.go:187-223 | a key is declared exactly if an external file of the state has it |
| InheritTable.GpuWalkKeepsInv | internal/cedana/gpu/restore_adapters.go:111-300 | the GPU adapter, for a container or not and however its walk ends, keeps keys distinct and recorded and each slot beside the entry it belongs to |
| InheritLaws.TroubleIsLostIff | internal/cedana/gpu/restore_adapters.go:170-302 | a GPU file that cannot be recreated goes unnoticed exactly if the first trouble is creating, chmodding or truncating a hostmem file; otherwise the adapter fails |
| InheritLaws.TroubleIsLost | internal/cedana/gpu/restore_adapters.go:196-216 | a state in which it goes unnoticed |
| InheritLaws.GpuKeysIff | internal/cedana/gpu/restore_adapters.go:111-300 | which keys the GPU adapter takes, and that it hands each over exactly if it is not for a container |
| InheritTable.WalkKeepsInv | internal/cedana/process/restore_adapters.go:138-239 | so does the process adapter, whatever can be opened and whatever came before |
| InheritLaws.EntriesFindTheirFiles | pkg/criu/criu.go:57-62 | after both adapters, also when the GPU walk ended early, keys are distinct, an entry whose slot holds a file finds it at its number less three, and the socket's number is above all of these |
| InheritLaws.InheritedWasDeclared | internal/cedana/process/restore_adapters.go:150-175 | every external key the process adapter inherits was declared by the dump of the same state |
| InheritLaws.DeclaredIsInherited | internal/cedana/process/restore_adapters.go:150-175 | a declared key whose file the walk comes to, and which is a terminal or can be opened, has an entry in the inherit list exactly if the GPU adapter did not take it for a container |
| InheritLaws.DeclaredIsNotInherited | internal/cedana/gpu/restore_adapters.go:285-297 | a container restore in which it has none |
| InheritLaws.HasEntryIff | internal/cedana/process/restore_adapters.go:138-239 | exactly which keys the request ends up with, told from the saved state and the request |
| InheritLaws.FailsIff | internal/cedana/process/restore_adapters.go:168-189 | told from the state and the request: the adapter fails exactly if the walk comes to an internal terminal or the last file it tries to open cannot be |
| InheritLaws.StopsIff | internal/cedana/process/restore_adapters.go:180-190 | the walk ends exactly at the first internal terminal whose descriptor no earlier internal file has, if not serverless |
| InheritLaws.FailsOrNot | internal/cedana/process/restore_adapters.go:168-172 | a file that cannot be opened, with which the adapter fails or not depending on the next |
| InheritLaws.NumbersDistinct | internal/cedana/process/restore_adapters.go:177-236 | without external terminals all new entries have different numbers below the socket's |
| InheritLaws.TerminalCollidesIff | internal/cedana/process/restore_adapters.go:155-157 | told from the state and the request: an external terminal shares its number with an extra file exactly if the GPU adapter gave that number away or some file is opened when it is the next one, and with the socket exactly if it is the next one in the end |
| InheritLaws.TerminalCollides | internal/cedana/process/restore_adapters.go:155-157 | a state in which it does |
| InheritTable.Options.InheritFiles | internal/cedana/process/restore_adapters.go:114-253 | the loop with its early stop computes map, extra files, inherit list and failure of the specification |
| InheritTable.Options.InheritExternal | internal/cedana/process/restore_adapters.go:152-175 | one external file: which are skipped, which fail, and under which key, number and slot the others are added |
| InheritTable.Options.InheritStdio | internal/cedana/process/restore_adapters.go:176-239 | one internal file: which stop the walk, which are skipped, and under which key, number and slot the others are added |
| InheritTable.Options.InheritGpuFiles | internal/cedana/gpu/restore_adapters.go:111-312 | the shm file and the loop over known GPU files, with its lost errors, compute the specified table and failure |
| Broadcast.StepKeepsInv | pkg/channel/broadcaster.go:22-62 | any step of pump, subscriber or reader keeps, for a history of at most one value, what each channel holds and has delivered |
| Broadcast.FullHistoryThenClose | pkg/channel/broadcaster.go:22-62 | in every interleaving a subscriber reads the history once from its start, reads the end only after all of it, and its channel is closed once and by the time the pump is done |
| Broadcast.NothingBlocks | pkg/channel/broadcaster.go:26-61 | the holder of the lock can always go on, as can the pump when the lock is free; no value is dropped or sent on a closed channel |
| Broadcast.PumpAdvances | pkg/channel/broadcaster.go:26-44 | the pump's own steps bring it closer to its end |
| Broadcast.ReaderFinishes | pkg/channel/broadcaster.go:22-62 | once the pump is done, every subscriber can read what is left in its channel and then the end, by itself, and has then read exactly the history |
| Broadcast.TwoValuesGetStuck | pkg/channel/broadcaster.go:51-54 | for every history of two or more values there is a run in which a replay waits for a channel nobody else has |
| Broadcast.StuckStays | pkg/channel/broadcaster.go:48-54 | then the lock is never released |
| Broadcast.NeverStuckIff | pkg/channel/broadcaster.go:22-62 | no run blocks exactly if the history has at most one value |
| Broadcast.TwoValuesGetLost | pkg/channel/broadcaster.go:31-36 | for every history of two or more values there is a run in which a receiver misses one |
| Broadcast.DealtOnce | pkg/channel/broadcaster.go:31-43 | each receiver is offered the value, or closed, once, and nobody else is |
| Broadcast.Broadcaster.Pump | pkg/channel/broadcaster.go:26-38 | the critical section for one value deals with every receiver and is a run of the state machine |
| Broadcast.Broadcaster.CloseAll | pkg/channel/broadcaster.go:39-44 | likewise for the end of the input |
| Broadcast.Broadcaster.Subscribe | pkg/channel/broadcaster.go:47-61 | the new channel holds the whole history and is a receiver or closed; it blocks, for good, exactly if the history does not fit |

## Left out

- gRPC, HTTP, SQL, S3, containerd and RabbitMQ clients and the commands: plumbing over libraries; the database is a pair of maps whose operations may fail before or after taking effect.
- The 64 slots of the queue of pending actions: it is unbounded here, and only safety is claimed.
- Content of jobs: agreement is about which jobs exist, since reading a job refreshes memory without a put; of content it is claimed that rows are what memory held at some time, and agreement for checkpoints.
- Listing of jobs and checkpoints by the job manager: they read what looking up a job refreshes.
- The flock behind a controller's booking: a try-lock that may refuse.
- CriuDriver.Criu.NotifyLoop: panics on an empty list of terminal rights are not modelled.
- GpuTermination.SessionSeesItsController: a finalize that finds another controller under the same id than the one its initialize locked is not modelled; ids are not reused.
- GpuTermination.TerminatedEffect: killing and reaping the controller's process is not part of the state.
- GpuPool.ShutdownStops: processes answer alike at every pass and every booking is granted; a controller that detaches or a process that dies in between takes further passes.
- GpuRestoreLaws.RestoreFailureSurfaces: the profile that a GPU restore leaves behind is not modelled.
- GpuPool.ManagerPool.Shutdown: every sync gets its turn and can read the directory; the timeout of the loop is not modelled.
- LazyManager.ManagerLazy.DrainBeforeShutdown: API calls arrive between the turns of the drain, each as one step.
- Freezing and dumping of all containers by the event handler: its threads share one error variable.
- Streaming file systems, tar, compression and overlay restore: system calls and foreign formats.
- Generated queries, configuration, plugin loading, health checks, defaults and validation: single branches.
- Wall clock, signals and `/proc`: inputs; the parsing of a status line is not modelled, and neither is the content of a process besides its pid.
- ProcessTree.FillDescendants: takes parents to rank above their children, as the kernel's table has it; on a cyclic table the loop of the source runs until it is cancelled.
- ProcessTree.FillDescendants: nodes are numbered values in a sequence, not objects that refer to each other.
- ProfileTree.FlattenConserves: times are unbounded integers; 64-bit overflow of durations is not modelled (the byte counts of GPU rows do wrap).
- ProfileCategories.StepKeepsInv: calls that rename or retime the node that a context carries are excluded, and marking a node redundant is admitted where it keeps the invariant; nodes are numbered values, so aliasing is equality of numbers.
- InheritLaws.EntriesFindTheirFiles: entries that a request or a plugin brings are kept but not described; numbers are unbounded, though the source keeps 32 bits of them.
- InheritTable.Options.InheritGpuFiles: which paths are GPU files, and recreating them, is an input: other, recreated, or one of the ways to fail.
- Broadcast.Broadcaster.Pump: runs without readers in between; the interleavings with readers are in the state machine.
- Printing and encoding of profiles: no state.
