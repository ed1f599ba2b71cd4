# onderzeeer, verified

onderzeeer is a durable, file-triggered job runner. A watcher waits until a file has settled and files a job for
it in a queue, workers claim jobs and run their command pipelines, and a supervisor keeps the daemon instances that
own those queues. Its command line imports container invocations into structured configuration and prints commands
back.

The project models the parts of onderzeeer whose correctness spans several functions, several tables or whole runs,
and proves what they are for. Where the Go code changes things step by step there are two layers: a specification
on values (a table update, a state machine over the regions under a mutex) that the lemmas are about, and methods
over mutable fields that are proved to take exactly those steps.

| files | what they model |
|---|---|
| `Queue.dfy`, `QueueRuns.dfy`, `QueueHistory.dfy`, `QueueStore.dfy` | the three queue tables; every transaction as one step; runs of transactions; the times and errors that the rows show; the store's methods, which work on a private copy that commits or rolls back |
| `Worker.dfy`, `WorkerPool.dfy` | any number of workers, store calls that fail with or without having committed, executions with arbitrary results, crashes and restarts; the pool's methods over a store, with other workers' steps between one worker's calls |
| `Watcher.dfy`, `WatcherCache.dfy`, `WatcherJobs.dfy`, `WatcherCode.dfy` | the settle protocol, one step per lock region; the bounded cache of delivered files against the same run without it; the jobs that files get; the lock regions as methods |
| `Names.dfy`, `Supervisor.dfy`, `SupervisorShown.dfy`, `SupervisorChecks.dfy`, `SupervisorCode.dfy` | instance names and IDs, the in-memory supervisor, what its steps change in the list of instances, the checks of a start, and starts that run while other goroutines stop instances and runners exit |
| `Registry.dfy`, `RegistryRuns.dfy`, `RegistryReopen.dfy`, `RegistrySaved.dfy`, `RegistryCode.dfy` | the durable supervisor: the instances table, the manager's memory and the live runners over starts, stops, exits, shutdowns, crashes and reopenings, where every save may be lost or take effect and be reported as failed; the manager's methods |
| `Csv.dfy`, `RunOptions.dfy`, `ContainerMounts.dfy`, `ContainerRun.dfy`, `ContainerPrint.dfy`, `ContainerRoundTrip.dfy`, `ContainerSafety.dfy` | the import of `docker run` and `podman run` command lines, the printer, parse-print-parse, and what an import takes or leaves, told from the command line alone |
| `Values.dfy` | config-local values: memoised depth-first search with cycle detection over simultaneous replacement |
| `LogStream.dfy`, `LogStreamText.dfy`, `ShellQuote.dfy` | the bounded log stream and what its readers see of the lines that were written; shell quoting against a reader of the POSIX.1-2017 Shell Command Language |
| `Text.dfy` | strings as Go sees them, options and results |

`dafny verify dfyconfig.toml` checks the whole project.

## How the world outside is represented

* Times are integers passed to each operation. The overtaking results say where they need a clock that never goes back.
* A store call, and every save of the registry, is given whether it reports an error and whether it committed.
* An execution returns an arbitrary error, exit code and output; the text of its error, which the source builds from
  these, is a function of them. Whether a pipeline resolves and its steps are valid is part of the plan of a run.
* The ID generator gives an arbitrary result at each draw, and a caller's context may expire at every point where it
  is looked at.
* WaitStable and the handler return at any later step with any result; which goroutine goes next is arbitrary.
* The file system is a function from canonical paths to what they address, fixed while a start is validated, so
  path equivalence is a fixed relation. A path may be unreadable, which is the source's error return.
* Map iteration order is arbitrary wherever the source ranges over a map: over active paths, over instances, over
  values. Sorted orders are special cases, so what is proved for any order covers them.
* Unicode's letters and digits are a parameter of `Names`, of which only two things are used: it contains the ASCII
  letters and digits, and none of the spaces and name punctuation.

## Where the code does not do what one might expect

* An error exit of the watcher removes the pending entry without comparing versions, so an event that arrives in the
  meantime is lost. `Watcher.ErrorExitLosesIffRescheduled` says exactly when, `Watcher.ErrorExitCanLose` shows a run.
* `automaticName` can return a name that begins with "_". Such a name is registered, and the registry then refuses to
  open. `Names.AutomaticNameReloads` says exactly when a name is rejected, `RegistryReopen.ReopensIff` exactly when the
  daemon comes up again after any run, `RegistryReopen.UnderscoreKeepsDaemonDown` shows a run in which it does not.
* The saved desired state is not always the last committed start or stop. A stop that is committed but reported as
  failed leaves memory behind the disk, and the runner's final write then undoes it:
  `RegistryReopen.UnreportedStopIsUndone` is such a run. `RegistryRuns.SavedIsLastCommitted` says exactly when it
  happens, over all runs: since that start or stop, a final write or a Restore of the instance took effect while memory
  held another wish. If no committed start or stop is reported as failed, it never happens
  (`RegistryRuns.HonestSavesAreKept`).
* A start that is committed but reported as failed leaves a row that the manager does not know. Until the daemon is
  reopened, starting that configuration again draws another ID and the UNIQUE constraints refuse it
  (`RegistryReopen.UnreportedStartIsHidden`, `RegistryReopen.HiddenRowRefuses`, `RegistryReopen.HiddenUntilDown`).
  `RegistryReopen.StartIsRefusedIff` says exactly which starts are refused, `RegistryReopen.ReopeningRepairs` that
  reopening ends it.
* Parse-print-parse is not the identity when a mount text contains CR LF: the CSV reader turns it into LF.
  `ContainerRoundTrip.ParsePrintParse` gives the result for all inputs, `ContainerRoundTrip.RoundTripIsIdentity` says
  exactly when it is the identity, `ContainerRoundTrip.CrLfDoesNotComeBack` shows a command line for which it is not.
* A resolved value can spell a token by concatenation; such text is not read again. `Values.ResultMaySpellAToken` shows
  values for which the resolver returns one. `Values.ResolveTemplateValues` says when that is impossible: the resolved
  values contain no "{" at all exactly if every "{" of the given values lies inside a token of a key.

## Model

| member | source | states |
|---|---|---|
| `Queue.EveryRunKeepsInv` | internal/queue/jobs.go:56-331 | over any sequence of the seven transactions from empty tables: ids and the UNIQUE keys stay unique, every run belongs to a job and has an attempt in 1..attempts, all attempts are present, and statuses of job, newest run and older runs agree |
| `Queue.ClaimNeverConflicts` | internal/queue/store.go:48 | in every such state the run that Claim inserts does not hit UNIQUE(job_id, attempt) |
| `QueueRuns.RunHistory` | internal/queue/jobs.go:112-331 | a job's runs are numbered exactly 1..attempts, one each; only the newest can be RUNNING, exactly when the job is, or SUCCEEDED, exactly when the job is; all others are FAILED |
| `QueueRuns.RowChange` | internal/queue/jobs.go:112-331 | what any transaction can do to any one job row, and that a job becomes RUNNING exactly when Claim picked it as the oldest due job |
| `QueueRuns.TerminalJobsAreFinal` | internal/queue/jobs.go:168-290 | no transaction changes a SUCCEEDED or FAILED job, or the identity of any job |
| `QueueRuns.OutcomesAreFinal` | internal/queue/jobs.go:56-331 | the same over every later run of transactions: no job disappears and outcomes stand |
| `QueueRuns.FailedMeansExhausted` | internal/queue/jobs.go:249-262 | a job is FAILED only with attempts > max_retries |
| `QueueRuns.AttemptBudget` | internal/queue/jobs.go:120-134 | attempts never exceed max_retries + 1 + the number of times that job was recovered while running |
| `QueueRuns.RetriesTerminate` | internal/queue/jobs.go:249-285 | without recoveries the remaining attempts bound the number of changes to a job row, for any run of transactions |
| `QueueRuns.ClaimTakesOldest` | internal/queue/jobs.go:119-140 | Claim takes the unique oldest due job by (available_at, id), and none exactly when none is due |
| `QueueRuns.AheadOnlyShrinks` | internal/queue/jobs.go:220-276 | for a job whose time is strictly past, no transaction adds a job ahead of it, and a Claim takes it or removes one ahead of it |
| `QueueRuns.BoundedOvertaking` | internal/queue/jobs.go:119-140 | until such a job is claimed, at most as many claims happen as there were jobs ahead of it |
| `QueueRuns.DueJobIsTaken` | internal/queue/jobs.go:119-140 | with more claims than that, one of them takes the job |
| `QueueHistory.ColumnsAgree` | internal/queue/jobs.go:112-331 | in every state over every sequence of transactions a row has a time of its end exactly when it has ended, a job one of its start exactly when it was attempted, a command an exit code exactly when it is not RUNNING, and only FAILED runs have an error |
| `QueueHistory.JobsShowTheLastError` | internal/queue/jobs.go:168-331 | in every state a job shows the error of its attempt that ended last, none if that one SUCCEEDED or none has ended |
| `QueueHistory.FailTellsTheReason` | internal/queue/jobs.go:211-290 | the reason reaches the run, the job and exactly the run's RUNNING commands, and no other row changes |
| `QueueHistory.RecoveryTellsTheReason` | internal/queue/jobs.go:295-331 | everything RUNNING is settled with the text "interrupted by daemon restart", its jobs are queued, and nothing else changes |
| `QueueHistory.RetryWaits` | internal/queue/jobs.go:249-276 | a job that failed with retries left can be claimed from now + max(delay, 0) on, and not before |
| `QueueHistory.NewJobWaits` | internal/queue/jobs.go:67-80 | a new job can be claimed from its requested time on, or at once without one |
| `QueueHistory.ClaimedWhenDue` | internal/queue/jobs.go:119-140 | over any run of transactions, the claim that takes a waiting job comes no earlier than that time |
| `QueueStore.Store.Enqueue` | internal/queue/jobs.go:56-110 | the tables become what the specification says for a new, an existing and an invalid request, and the row and the created flag that are returned are the right ones |
| `QueueStore.Store.Claim` | internal/queue/jobs.go:112-166 | job update and run insert commit together on the oldest due job, or nothing changes |
| `QueueStore.Store.Succeed` | internal/queue/jobs.go:168-206 | run and job are finished together if both are RUNNING and the run is the job's newest; a refused call changes nothing |
| `QueueStore.Store.Fail` | internal/queue/jobs.go:211-290 | running commands, run and job are updated together, with requeue or exhaustion decided from attempts; a refused call changes nothing, not even the command rows it updates first |
| `QueueStore.Store.RecoverRunning` | internal/queue/jobs.go:295-331 | all running rows of the three tables are settled in one transaction, and the jobs requeued are counted |
| `QueueStore.Store.StartCommand` | internal/queue/commands.go:12-67 | a command row is inserted exactly when its run is RUNNING and the sequence is free |
| `QueueStore.Store.CompleteCommand` | internal/queue/commands.go:69-97 | exactly a RUNNING command row is completed with the result |
| `Worker.EveryReachedKeeps` | internal/worker/worker.go:191-316 | the system invariant of workers, store and history over every run of steps, with errors, unreported commits and crashes anywhere |
| `Worker.StepsAreTransactions` | internal/worker/worker.go:191-316 | every step of the system changes the tables as one queue transaction or not at all |
| `Worker.SucceededRunsAreComplete` | internal/worker/worker.go:236-316 | every SUCCEEDED run has exactly the commands 1..n of its pipeline, all SUCCEEDED, though Succeed never looks at commands |
| `Worker.FailedRunsArePrefixes` | internal/worker/worker.go:236-382 | every FAILED run has commands 1..k, the first k-1 SUCCEEDED and none RUNNING |
| `Worker.LiveWorkIsExclusive` | internal/worker/worker.go:191-316 | a RUNNING command sits under the RUNNING newest run of a RUNNING job, and no run is held by two workers |
| `WorkerPool.Pool.Boot` | internal/daemon/daemon.go:48-110 | workers start only after a recovery that succeeded, and that is the machine's step |
| `WorkerPool.Pool.ClaimJob` | internal/worker/worker.go:191-216 | a claim is the machine's step: a worker holds a run exactly when the store acknowledged it |
| `WorkerPool.Pool.ProcessJob` | internal/worker/worker.go:236-382 | the worker's loop over the pipeline, with any store faults and executions and any steps of other workers and enqueues before, between and after its calls: a nil error exactly if the plan resolved, every step was valid and started, exited with code 0 and was recorded, and the end was acknowledged; the run is SUCCEEDED or FAILED accordingly unless that last write was lost, with the given reason; each result that reached the store is in the row of its command, status, exit code, output and error; and the worker always lets go |
| `WorkerPool.OutcomesStand` | internal/worker/worker.go:191-316 | every later run of the system leaves each finished run and command as it is, and each SUCCEEDED or FAILED job |
| `WorkerPool.FinishedCommandsStand` | internal/queue/commands.go:69-97 | no transaction changes a command that has finished |
| `WorkerPool.FinishedRunsStand` | internal/queue/jobs.go:168-331 | no transaction changes a run that has finished |
| `Watcher.EveryReachedKeeps` | internal/watcher/watcher.go:784-897 | the protocol invariant over every interleaving of schedule, settle, WaitStable and the handler |
| `Watcher.NoLostEvent` | internal/watcher/watcher.go:808-889 | when a pending entry is removed on a non-error exit, what was handled or skipped came from a WaitStable begun after the last schedule call for that key |
| `Watcher.ErrorExitLosesIffRescheduled` | internal/watcher/watcher.go:822-828 | an error exit leaves later schedule calls unanswered exactly when the version it read is no longer the current one |
| `Watcher.ErrorExitCanLose` | internal/watcher/watcher.go:822-828 | a concrete run in which an event is lost that way |
| `Watcher.OwnersStayCurrent` | internal/watcher/watcher.go:811-817 | every live settle goroutine owns its key's pending entry, so the check at the top of its loop never ends it |
| `Watcher.DecidedOnFreshSnapshot` | internal/watcher/watcher.go:829-838 | a file is handled or skipped only on a snapshot that WaitStable began after the last schedule call that had come when it was decided |
| `Watcher.ScheduleIsRefusedIff` | internal/watcher/watcher.go:784-806 | schedule refuses exactly a key that has no entry while 1024 are pending |
| `Watcher.HandlerIsExclusive` | internal/watcher/watcher.go:790-804 | one goroutine per key, hence no concurrent handler calls for a key, at most 1024 pending entries and at most 4096 cached ones |
| `WatcherCache.OneJobPerPath` | internal/daemon/daemon.go:56-76 | a watch without reprocess_on_change never has two jobs for one path |
| `WatcherCache.SkipIsFiled` | internal/watcher/watcher.go:831-838 | a file is skipped only if its job is in the table already |
| `WatcherCache.CacheIsInvisible` | internal/watcher/watcher.go:836-878 | for every eviction and restart, the tables equal those of the same run with no cache, in which each skip calls the handler |
| `WatcherJobs.EveryJobIsConfigured` | internal/daemon/daemon.go:56-76 | in every reached state each job is one of a configured watch and has the configured max_retries |
| `WatcherJobs.HandledIsFiled` | internal/daemon/daemon.go:56-76 | when a file was handled, or is skipped, its job is in the table: the watch's name, the path, the file's fingerprint if the watch reprocesses changes and "onderzeeer:path" otherwise, and the configured max_retries |
| `WatcherJobs.ChangedFileIsFiledAgain` | internal/daemon/daemon.go:56-76 | with reprocess_on_change, two versions of a file handled or skipped at any two moments of a run, with any evictions and restarts in between, have two different jobs |
| `WatcherJobs.RecordedIsSkipped` | internal/watcher/watcher.go:836-878 | a file just recorded is skipped under the same fingerprint, and under another exactly if the watch does not reprocess |
| `WatcherJobs.OnlyTheVictimIsEvicted` | internal/watcher/watcher.go:857-878 | recording evicts one entry, only when a new key meets a full cache |
| `WatcherCode.PendingFiles.ScheduleFile` | internal/watcher/watcher.go:784-806 | schedule takes the machine's step, and refuses exactly a new key at the limit |
| `WatcherCode.PendingFiles.RecordAndFinish` | internal/watcher/watcher.go:857-878 | recording a delivery, with an eviction, and the version comparison are one step; the entry goes exactly when no schedule call came in between |
| `WatcherCode.PendingFiles.FinishIfCurrent` | internal/watcher/watcher.go:881-889 | the same for a skipped file |
| `WatcherCode.PendingFiles.RemovePending` | internal/watcher/watcher.go:891-897 | the removal on error exits, without a version comparison |
| `Names.Normalize` | internal/control/manager.go:1235-1257 | the loop of automaticName computes the specified text |
| `Names.AutomaticNameReloads` | internal/control/manager.go:1235-1270 | a derived name is accepted again exactly when the file name's first usable character is not "_" |
| `Names.UnderscoreDoesNotReload` | internal/control/manager.go:1252 | the concrete name "_a" |
| `Names.GapsBecomeDashes` | internal/control/manager.go:1238-1251 | what a name may contain stays as it is, and each run of other characters becomes one "-" |
| `Names.AutomaticNameIsTrimmed` | internal/control/manager.go:1252-1257 | the derived name is that text without dots and dashes at its ends, or "onderzeeer" if nothing is left |
| `Names.NumberedIsValid` | internal/control/manager.go:1111-1131 | a numbered name is accepted exactly if its base is, so only the derived base decides about reloading |
| `Names.NumberedInjective` | internal/control/manager.go:1111-1131 | different suffixes give different names, which is why the search for a free one ends |
| `Names.ItoaReadsBack` | internal/control/manager.go:1111-1131 | the suffix is the number in decimal without leading zeros |
| `Supervisor.EveryReachedKeeps` | internal/control/manager.go:381-541 | over every interleaving of starts, stops, shutdowns and exits: names and instances are inverse maps, no name is an ID, the active maps are exactly the active instances' paths, and what the gate guarantees |
| `Supervisor.ReservationsAreExclusive` | internal/control/manager.go:647-789 | no two active instances hold equivalent databases or the same config file, by text, by file or by case-folded equivalence, although validation runs outside the mutex |
| `Supervisor.RoundsAreBounded` | internal/control/manager.go:406-439 | a start looks at the active maps at most once more than there were active instances when it took the gate |
| `Supervisor.FoundByNameAndId` | internal/control/manager.go:1060-1082 | every retained instance is found, without ambiguity, by its exact name and by its full ID |
| `Supervisor.RetentionHolds` | internal/control/manager.go:1151-1191 | terminal instances never exceed the retention limit |
| `SupervisorShown.StartIsShown` | internal/control/manager.go:460-541 | a start shows exactly its own instances, running under their names on their paths from now on, and changes no other instance or name |
| `SupervisorShown.InstancesMoveOn` | internal/control/manager.go:845-1028 | no step changes what an instance is, turns its life back, or touches one that has ended |
| `SupervisorShown.OnlyExitsRemove` | internal/control/manager.go:1001-1027 | only an exit makes an instance disappear: its own if it was to be removed, else ones that have ended, and only when the limit is reached |
| `SupervisorShown.ExitIsShown` | internal/control/manager.go:1001-1027 | an exit is shown with its outcome and time, unless the instance was to be removed |
| `SupervisorShown.ExitFreesItsOwn` | internal/control/manager.go:1010-1027 | it frees its own config and database and no others, and the names of exactly the instances that are gone |
| `SupervisorShown.PrefixFindsTheOnlyOne` | internal/control/manager.go:1060-1082 | a selector that is no name finds an instance exactly if it is the only one whose ID begins with it, and is ambiguous exactly if there are two |
| `SupervisorChecks.CheckConfigs` | internal/control/manager.go:311-380 | no complaint means all config files differ; a complaint names two candidates that do clash |
| `SupervisorChecks.ValidateDatabaseCandidates` | internal/control/manager.go:647-688 | no complaint means all databases are pairwise inequivalent, though missing and existing ones are compared separately |
| `SupervisorChecks.ActiveConfigOwner` | internal/control/manager.go:718-750 | free means no active config is this file by text, by file or by case-folded equivalence; an owner is the owner of one that is |
| `SupervisorChecks.ActiveDatabaseOwner` | internal/control/manager.go:761-789 | free means no active database is equivalent; an owner is the owner of an equivalent one |
| `SupervisorChecks.ValidateActiveCandidates` | internal/control/manager.go:690-716 | no complaint means every candidate is clear of the active paths; a reported owner owns an active path that clashes with the reported candidate |
| `SupervisorCode.AvailableName` | internal/control/manager.go:1111-1131 | the search ends after at most one more try than there are names taken, with the first name in the numbering that is free |
| `SupervisorCode.AvailableId` | internal/control/manager.go:1084-1109 | at most 128 draws; the result is the first drawn ID that is not taken; it fails only on a draw that is no ID or on 128 that are taken |
| `SupervisorCode.Manager.FinishRun` | internal/control/manager.go:1001-1027 | the last region of run takes the machine's step: terminal view, released reservations, oldest terminal instances dropped |
| `SupervisorCode.Manager.Oldest` | internal/control/manager.go:1151-1191 | what is dropped is exactly the excess, never the current instance, and no kept one comes before a dropped one by end, start and ID |
| `SupervisorCode.TrimIsDetermined` | internal/control/manager.go:1170-1180 | the set that is dropped is the only one, in whatever order the map is visited |
| `SupervisorCode.Manager.Round` | internal/control/manager.go:406-439 | one snapshot, validate, recheck turn with any moves of others in between: it goes on only if the maps still match and all candidates are clear of them |
| `SupervisorCode.Manager.Settle` | internal/control/manager.go:406-439 | the loop ends, and ends ready to reserve or with a refusal that is real in the state it returns in: a reported owner is active then and holds a clashing path |
| `SupervisorCode.Manager.Preflight` | internal/control/manager.go:263-386 | which check refuses a start before the gate, each of the three simple errors exactly in its case |
| `SupervisorCode.Manager.StartMany` | internal/control/manager.go:263-541 | all or nothing: one reservation of an instance per candidate as the last step, under the given name or the first free ones, or none at all, with any moves of others before the gate and in every round, from a state the machine reaches to one it reaches; each error is given only for its reason, NoConfigs and InvalidName exactly for theirs; and if nothing hinders the start, nothing cancels it and no shutdown overtakes it, it succeeds |
| `SupervisorCode.UnhinderedStarts` | internal/control/manager.go:263-541 | if the candidates are readable, apart and clear, the name is unused and the draws are good, none of the reasons for an error other than cancellation and shutdown can hold later, since other goroutines only free names and paths |
| `SupervisorCode.NamedAfterwards` | internal/control/manager.go:1111-1131 | each new instance has the given name, or the first free automatic one beside the earlier instances and those of the same start before it |
| `Registry.EveryRunKeeps` | internal/control/registry.go:137-225 | over every run, whatever its saves do and report: rows are keyed by valid IDs with unique names and configurations, what memory knows is on disk under the same name, a saved wish is the last committed one or the one in memory, and live runners are exactly those of the active instances |
| `RegistryRuns.SavedIsLastCommitted` | internal/control/manager.go:855-892 | an instance is on disk exactly if a start of it was committed, and its saved desired state is its last committed start or stop exactly if no final write and no Restore of it took effect since then while memory held another |
| `RegistryRuns.HonestSavesAreKept` | internal/control/manager.go:861-892 | in every run that reports all committed starts and stops of an instance, it is; lost saves and final writes of any outcome do not matter |
| `RegistryReopen.OneRunnerPerId` | internal/control/manager.go:971-1028 | at most one runner per ID is live |
| `RegistryReopen.RestoreLaunchesExactly` | internal/control/registered.go:219-255 | after a reopening, Restore launches an instance with an accepted snapshot exactly if its last committed start or stop was a start, or, when the saved state was spoiled as above, exactly if it was a stop |
| `RegistryReopen.ReopensIff` | internal/control/registry.go:185-225 | after any run the registry opens exactly if no instance was last registered as new under a name derived from a file whose first usable character is "_" |
| `RegistryReopen.UnderscoreKeepsDaemonDown` | internal/control/registry.go:200-203 | one start under a derived name with a leading underscore, then a crash: the daemon does not come up |
| `RegistryReopen.UnreportedStopIsUndone` | internal/control/manager.go:1001-1009 | a run of an open, a start, a stop that is saved and reported as failed, and an exit, after which the saved state is running |
| `RegistryReopen.UnreportedStartIsHidden` | internal/control/registered.go:170-172 | a run that leaves a row the manager does not know |
| `RegistryReopen.HiddenRowRefuses` | internal/control/registry.go:109-116 | such a row refuses every start under its name or of its configuration |
| `RegistryReopen.HiddenUntilDown` | internal/control/registry.go:137-225 | no step but a start that draws its ID changes it or makes it known, until the daemon goes down |
| `RegistryReopen.StartIsRefusedIff` | internal/control/registry.go:109-116 | the UNIQUE constraints refuse a start that the manager's checks let through exactly if one of its registrations meets a row that the manager does not know |
| `RegistryReopen.ReopeningRepairs` | internal/control/registry.go:185-225 | after a reopening the manager knows every row and its saved state, and no start is refused by the table |
| `RegistrySaved.SavedRegistrationIsLast` | internal/control/registry.go:137-163 | over every run an instance is saved exactly if a start of it was committed, and with the name, configuration file and snapshot of the last committed one |
| `RegistrySaved.OthersKeepRegistration` | internal/control/registry.go:165-183 | no other event touches these columns |
| `RegistrySaved.StartLaunchesWhatItSaved` | internal/control/registered.go:170-178 | a start that is reported runs each instance with the configuration it has just saved |
| `RegistrySaved.ResumeIsShown` | internal/control/registered.go:181-196 | a resume that is reported runs the instance with the configuration it had under a new runner, one that is not changes nothing in memory |
| `RegistrySaved.RestoreLaunchesLastConfig` | internal/control/registered.go:219-255 | after a reopening and a Restore every instance that runs has the configuration, name and identity of its last committed start |
| `RegistrySaved.OthersKeepConfig` | internal/control/manager.go:845-1028 | while the daemon is up only a start changes the configuration an instance runs with |
| `RegistrySaved.StopIsShown` | internal/control/manager.go:855-892 | a stop shows an active instance as stopping and leaves the state of any other |
| `RegistrySaved.CloseIsShown` | internal/control/manager.go:932-969 | a shutdown does so for all, and leaves what is wanted |
| `RegistrySaved.ReopeningIsShown` | internal/control/registry.go:185-225 | after a reopening nothing is active, and what failed is shown exactly for rejected snapshots and earlier failures |
| `RegistrySaved.ExitIsShown` | internal/control/manager.go:971-1028 | whatever happens between the two regions of an exit, memory shows how the runner returned, and the disk too if the write took effect |
| `RegistryCode.Daemon.Save` | internal/control/registry.go:137-163 | all registrations or none, under the UNIQUE constraints, whatever the transaction reports |
| `RegistryCode.Daemon.PrepareAll` | internal/control/registered.go:125-169 | the registrations of a start, new and existing, with validated snapshots, can all be begun together; it fails only for an active instance, a name in use, an ID that cannot be drawn, or a snapshot that does not validate |
| `RegistryCode.Daemon.StartRegistered` | internal/control/registered.go:170-178 | commit first, then publish and launch; a save that reports an error publishes nothing, even if it took effect |
| `RegistryCode.Daemon.ResumeRegistered` | internal/control/registered.go:181-196 | the same for a saved snapshot |
| `RegistryCode.Daemon.StopRegistered` | internal/control/manager.go:861-888 | the stop is saved before anything else, and the caller waits exactly for an active instance |
| `RegistryCode.Daemon.EndRun` | internal/control/manager.go:1001-1009 | the exit keeps the current desired state and survives a failed final write |
| `RegistryCode.Daemon.RestoreDesired` | internal/control/registered.go:222-255 | collects exactly what is to be resumed, saves it in one transaction and launches it |
| `RegistryCode.Daemon.LoadRegistered` | internal/control/registry.go:185-225 | every row is loaded, inactive, or none is |
| `Csv.WrittenRecordReadsBack` | internal/config/config.go:287-293 | a written CSV record is read as one record with the same fields, LF in place of CR LF |
| `Csv.ReadsBackExactly` | internal/config/config.go:287-293 | the same fields exactly when none contains CR LF |
| `Csv.RecordSaysItsFields` | internal/cli/container_parse.go:165-171 | conversely, a record is read only from a text that writes its fields, bare or quoted, with commas between them |
| `Csv.PlainFieldsStayPlain` | internal/config/config.go:287-293 | a field is quoted exactly if it holds a line end, a quote or a comma, begins with a space, or is `\.` |
| `RunOptions.ParseContainerRunOption` | internal/config/container_options.go:130-214 | the scanner's loop computes the specified option |
| `RunOptions.OptionsAreLocal` | internal/config/container_options.go:128-214 | an option is read from its own arguments alone, whatever follows |
| `RunOptions.LongOptionForms` | internal/config/container_options.go:139-167 | an option known to take a value has one of the two long forms of that value |
| `RunOptions.ShortOptionForms` | internal/config/container_options.go:169-212 | an unclustered named shorthand has one of the three short forms of its value |
| `RunOptions.LongFormsAreRead` | internal/config/container_options.go:139-167 | conversely, --name=value and --name are read by the table, with each error in its case |
| `RunOptions.ClustersAreRead` | internal/config/container_options.go:169-212 | any switches and then a value option: the value is the rest, without a leading =, or the next argument, and only -e and -v behind a switch count as clustered |
| `RunOptions.SwitchesAreRead` | internal/config/container_options.go:169-212 | switches alone, the last perhaps with = and a text, are one argument without a name |
| `RunOptions.BothGrammarsKnow` | internal/config/container_options.go:51-88 | both runtimes' option tables have --env, --mount, --volume, -e and -v as options with a value |
| `ContainerMounts.ParseLongBindMount` | internal/cli/container_parse.go:165-206 | the loop with its seen flags accepts exactly records of acceptable fields with one type, one source and one target |
| `ContainerMounts.RecordSaysTheMount` | internal/cli/container_parse.go:165-206 | an accepted record consists of type, source, target and the mount's options, and nothing else |
| `ContainerMounts.VolumeSaysTheMount` | internal/cli/container_parse.go:208-230 | an accepted --volume value is the source, the target and at most ro or rw |
| `ContainerMounts.VolumesAreRead` | internal/cli/container_parse.go:208-240 | conversely, source:target, alone or with rw or ro, is read exactly if source and target look like paths |
| `ContainerMounts.EverySpellingIsRead` | internal/cli/container_parse.go:165-206 | every spelling of the source and target keys gives the same mount |
| `ContainerMounts.WrittenMountReadsBack` | internal/config/config.go:281-285 | a written valid mount is read as that mount, LF in place of CR LF |
| `ContainerRun.ParseStructuredContainerRun` | internal/cli/container_parse.go:28-163 | the two loops with their safety flags compute the specification by option groups, refusals included |
| `ContainerPrint.EnvSafeMeaning` | internal/cli/container_parse.go:71-124 | variables are extracted exactly when every option is harmless and no variable is bound twice |
| `ContainerPrint.ImportedIsValid` | internal/config/config.go:352-399 | every structured result passes validateStructuredContainer |
| `ContainerPrint.ExtractionLosesNothing` | internal/cli/container_parse.go:28-163 | the command line is the subcommand, the option groups, perhaps --, the image and the tail; what is extracted is said exactly by groups that say nothing else, and the rest stays in order |
| `ContainerSafety.ImportTakesExactly` | internal/cli/container_parse.go:28-163 | told from the options of the command line alone: if one is unknown, is --tmpfs, --volumes-from or --secret, or is a mount that does not parse, no mount is taken and every mount option stays at its place; otherwise every mount is taken, in order; the same for variables, with their seven option names and the case of one bound twice; all other options stay |
| `ContainerSafety.ReadableIsImported` | internal/cli/container_parse.go:28-163 | every line of readable options with an image is imported, under run and container run, unless one of its arguments is -- |
| `ContainerRoundTrip.ExecutionArgs` | internal/config/config.go:223-268 | the loops print the specified arguments |
| `ContainerRoundTrip.ParsePrintParse` | internal/config/config.go:223-293 | importing the printed arguments gives the same image, arguments left, environment and tail, and the mounts with LF for CR LF |
| `ContainerRoundTrip.RoundTripIsIdentity` | internal/config/config.go:223-293 | it is the identity exactly when no extracted mount text has CR LF |
| `ContainerRoundTrip.CrLfDoesNotComeBack` | internal/cli/container_parse.go:208-230 | `run -v` with a source that ends in CR LF is imported, and comes back changed |
| `ContainerRoundTrip.DockerAndPodmanRoundTrip` | internal/config/container_options.go:51-88 | the same for the two concrete option tables |
| `Values.ReplacerMeansExpand` | internal/config/values.go:136-147 | Go's replacer computes the simultaneous replacement in whatever order it gets the pairs |
| `Values.ExpandFirstToken` | internal/config/values.go:104-106 | text before the first token stays, the token becomes its value, the rest is expanded on its own |
| `Values.TokensNeverOverlap` | internal/config/values.go:92-96 | two tokens of valid names never overlap |
| `Values.Resolver.Resolve` | internal/config/values.go:76-111 | one call of the search: a final value with everything found before kept, or a real cycle |
| `Values.ResolveTemplateValues` | internal/config/values.go:55-118 | it fails on the first key, in visit order, that is no identifier or is one of the six reserved names, exactly if there is one; else with a cycle exactly when there is one; and otherwise returns the one map in which every value has its references filled in, in any visit order; that map is free of "{" exactly if every "{" given lies inside a token of a key |
| `Values.ExpandBraceFree` | internal/config/values.go:104-106 | one filled-in text is free of "{" exactly if its own "{" lie inside tokens and the values filled in are free of it |
| `Values.SolutionIsBraceFreeIff` | internal/config/values.go:55-118 | the same for the whole solution, decided from the given values alone |
| `Values.ResultMaySpellAToken` | internal/config/values.go:104-106 | values {a: "{{", b: "{{a}}c}}", c: "x"} have a solution, and in every solution b spells the token of c |
| `LogStreams.LogStream.Write` | internal/control/logs.go:67-132 | after any pieces the stream holds what the bytes accepted so far determine, and every subscriber's channel has gained exactly the lines published meanwhile, keeping the newest that fit |
| `LogStreams.LogStream.Subscribe` | internal/control/logs.go:164-188 | replaying the history into a new channel never blocks and delivers it whole; after Close the channel is born closed |
| `LogStreams.LogStream.Receive` | internal/control/logs.go:262-289 | a reader takes the oldest line; a closed channel is drained the same way and then ends |
| `LogStreams.LogStream.Close` | internal/control/logs.go:193-216 | an unfinished line is published once and sent to every subscriber, all subscriptions end with their buffered lines kept, and later calls change nothing |
| `LogStreams.SnapshotDependsOnBytes` | internal/control/logs.go:67-162 | two streams that were given the same bytes show the same lines: the longest suffix of complete lines, each cut and marked, that fits both limits |
| `LogStreamText.EveryLineIsShown` | internal/control/logs.go:67-132 | for every line that was written one is shown, in order, and at Close one for an unfinished line: whole if it is short enough, else its first bytes and "... [truncated]" |
| `LogStreamText.NothingIsAltered` | internal/control/logs.go:67-132 | if no line is too long, the bytes published are the bytes written up to the last newline |
| `LogStreamText.NothingIsMissed` | internal/control/logs.go:135-150 | a subscriber loses a line only when its channel is full, and then keeps the newest |
| `ShellQuote.FormatShellInvocation` | internal/cli/check.go:70-77 | the loop builds the specified line |
| `ShellQuote.InvocationReadsBack` | internal/cli/check.go:70-121 | read by sections 2.2.2, 2.2.3 and 2.3 of the Shell Command Language, a formatted invocation is exactly the program and its arguments, for all strings |
| `ShellQuote.ProgramIsACommand` | internal/cli/check.go:79-107 | the program word is read neither as a listed keyword nor as an assignment |
| `ShellQuote.BareWordsStayBare` | internal/cli/check.go:79-121 | an argument is printed as it is exactly if it consists of letters, digits and the ten marks the shell takes as they are, and a program if it also is no keyword and holds no = |
| `ShellQuote.QuotesAreReplaced` | internal/cli/check.go:96-98 | a quoted word is its text between single quotes with each single quote replaced by '"'"' and nothing else |

## Left out

- SQLite itself, SQL text, write-ahead logging and connections: each transaction is one step on maps with the schema's unique keys.
- fsnotify, directory walking and root identity checks: schedule is called at any time with any key, and the root can be lost at any time.
- Process execution, process groups, timeouts and output files: an execution is an arbitrary result.
- HTTP and Unix-socket servers, clients, the web pages, history queries and printed warnings.
- YAML, JSON and fingerprint encodings, glob matching, cancellation checks of error trees and path cleaning.
- The watcher's version counter is unbounded in the model; the source's uint64 wraps around after 2^64 schedule calls for one entry.
- The settle loop is modelled as interleaved steps and its lock regions as methods; there is no single method with the whole loop, since other goroutines act between its regions.
- The known-queue catalog of the manager, attachments and log subscriptions of instances, and the waiting at the end of Stop and Shutdown.
- The identity comparisons at the beginning of startRegistered are the precondition `Matched` of `RegistryCode.Daemon.PrepareAll`; whether a snapshot validates is a parameter of it.
- The times of an instance, other than the two that help to decide which terminal instances are dropped.
- A cancellation while a start waits for the gate, which returns before anything more is looked at; the config loader and the path canonicalisation before it.
- SupervisorCode.Manager.StartMany: does not model the expected-queue and known-queue checks, and another start that holds the gate first; the moves before the gate are stops, shutdowns and exits.
- RunOptions.ParseContainerRunOption: does not model the recorded values of the interactive, tty and detach flags, which only warnings use.
- ContainerRoundTrip.ExecutionArgs: covers the structured Docker and Podman case; the Apptainer and shell branches are not modelled, and the variables come in any given order instead of being sorted first.
- Values.ResolveTemplateValues: does not model the rewriting of pipeline fields with the resolved values, which is one more use of the same replacer.
- LogStreams.LogStream.Write: channel sends and receives are atomic, so a subscriber takes lines between calls and not between two lines of one Write.
