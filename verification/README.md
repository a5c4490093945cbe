# QueueCTL: a verified model of the job queue

QueueCTL is a background job queue over SQLite: clients enqueue jobs, worker pools fetch and run them, failed
attempts are retried with exponential backoff, exhausted jobs wait in a dead-letter queue (DLQ) for an
administrator, and reclaimers take jobs back from workers that went silent. This project models that life cycle in
Dafny and proves what holds in every interleaving of workers, reclaimers and administrators.

`dafny verify dfyconfig.toml` checks the whole project.

## Layout

| file | what it holds |
|---|---|
| Domain.dfy | rows of the three tables; the in-memory `Job`, `ExecutionLog` and `Worker` objects and their mutators |
| Backoff.dfy | the backoff calculator in double precision, against the integer formula |
| Tables.dfy, Queries.dfy | the tables as one value, the effect of each transaction, the order of each query |
| Protocol.dfy | events of an unbounded number of processes; a run is the list of its events |
| Invariants.dfy, History.dfy | what each event keeps; tallies of events against the tables |
| Lifecycle.dfy, Measure.dfy, Timing.dfy | theorems about whole runs |
| Effects.dfy | what single events of a run write, column by column, and what follows: who closed a log, no fetch before its time |
| Drain.dfy | fetching from a queue until it is empty |
| Steps.dfy, Progress.dfy | events in a row from any state; which jobs can still be finished after crashes |
| Witnesses.dfy | concrete runs where a promise fails, beside the exact condition under which it holds |
| Store.dfy, Service.dfy, DeadLetterQueue.dfy, Metrics.dfy, Scheduler.dfy, WorkerPool.dfy | the code itself: classes whose methods update fields in place, with failing repository calls |
| Refinement.dfy | calls of those methods, proved to be enabled events or runs of the protocol |
| Pool.dfy | the worker pool's goroutines, interleaved with every event of the protocol |
| PoolRefinement.dfy, PoolWitnesses.dfy | the pool's code as events of Pool; concrete runs of one pool |

Only a worker that fetched a job reports on it: `hands` holds the attempts under way, a fetch adds one, and a report,
a refusal or a crash takes it away.

A transaction body (`WithTx`) is one event. Everything outside a transaction is one event per statement: a reclaim
pass is a list query, then per job a log query, a worker query and a failure transaction; a DLQ command is a read
and, later, a write. Between any two events every other process may move, crash or hold stale data. In the
imperative layer every repository call may fail whenever the store is `faulty`, any number of times and at any
point; the contracts then say that the tables are either untouched or carry the whole transition. When the store is
`shared`, other connections may commit anything between two statements outside a transaction.

## Assumptions

- Timestamps are integers read from one clock that never goes back; two writes of one jobs row never read the same
  instant. Clock readings and generated ids are parameters. A transaction reads the clock after it has the
  connection, so not before the last commit. Statements outside a transaction (enqueue, prune, purge, the write of a
  DLQ replay) may carry a reading taken before others committed.
- Generated job and log ids are new (`issued` remembers every job id ever handed out).
- A statement that fails has no effect, and a commit that fails rolls back.
- Two executions of one query over an unchanged table within a transaction return the same order. Across
  transactions the order of rows that tie is arbitrary in the protocol; the store uses insertion order.
- `retries_count` and `max_retries` are unbounded integers; the retry budget proved below keeps the counter at most
  `max_retries + 1`.
- Worker pools register themselves only as active or idle (the code never writes `stopped` outside a prune).

## Where the code does less than its documentation

Each of these is a theorem with the exact condition, and a concrete run for the failing side.

- **A replayed job cannot fail.** `Retry` and `Restore` reset the counter, so attempt numbers restart at 1, while the
  "latest" log is the one with the highest number. After a replay of a job with `max_retries >= 1` the old attempt
  `max_retries + 1` stays latest and closed, so every later failure report, from the worker or from a reclaimer, is
  turned down (`Lifecycle.NoFailureAfterReplay`, `Lifecycle.ReplayedJobKeepsRunning`,
  `Witnesses.ReplayedJobCannotFail`). A report is acceptable if and only if no log of the job has a higher attempt
  number (`Lifecycle.OwnFailureAcceptedIff`).
- **Such a job can get stuck.** Once its worker has crashed, or its failure report has been refused, nobody is left to
  report success. A running job without a holder can leave `running`, other than by a late delete, if and only if no
  log outranks its open one (`Progress.LeavesRunningIff`); the queue can be worked off if and only if no job is stuck
  in this way (`Progress.CanFinishIff`). `Witnesses.ReplayedJobIsStuck` is a stuck run; without replays there is none
  (`Progress.RestsOnlyWhenFinished`).
- **Nor does its log close.** Its success, even by the worker that runs it, leaves its log open for good
  (`Witnesses.OutrankedSuccessLeavesTheLogOpen`, `Witnesses.OwnerLeavesItsLogOpen`).
- **Success does not check ownership.** A worker whose attempt was reclaimed still completes the job when another
  worker runs it, and the log of that worker stays open (`Witnesses.StaleWorkerMayComplete`). A success leaves no open
  log if and only if the latest log is the caller's and open (`Witnesses.SuccessClosesIff`). "Exactly-once execution"
  (DESIGN.md) holds for acquisition only: two fetches of a job are always separated by a recorded failure.
- **DLQ delete checks no version.** A delete that read the job before a replay can remove it while it runs
  (`Witnesses.StaleDeleteRemovesARunningJob`). It removes what its caller read if and only if the stored `updated_at`
  is still the one read, and then the job is dead (`Lifecycle.DeleteRemovesWhatWasReadIff`); for jobs that allow
  retries that is also if and only if the job was never replayed (`Lifecycle.DeleteRemovesADeadJobIff`). So a running
  or completed row can vanish other than by purge, in exactly this way (`Lifecycle.CompletedLeavesIff`).
- **Restore does not move the queue.** The update has no queue column: the job ends up in the target queue if and
  only if it was there (`Witnesses.RestoreMovesIff`); `Witnesses.RestoreLeavesTheQueue` is a run where it was not.
- **Backoff can turn negative.** Past the int64 range Go leaves the float conversion to the machine. The cap is
  returned if and only if the converted value reaches it (`Backoff.OutOfRangeIsCappedIff`); with the value amd64
  produces the formula is met if and only if `base * 2^(n-1)` is below 2^63 (`Backoff.FormulaHoldsIffInRange`), and
  otherwise the delay is negative and the job due at once (`Backoff.DefaultDelayCanTurnNegative`). There is no jitter.
- **Stop from another goroutine.** The pool waits for its handlers only when the loop itself notices the cancellation
  and no other `Stop` has finished waiting before (`Pool.CancellationLeavesNothingRunning`). Both other exits
  unregister with handlers at work: after a finished `Stop` (`PoolWitnesses.LateCancellationLeavesAJobRunning`), and after a
  `Stop` that is still waiting, with no cancellation at all (`PoolWitnesses.StopAloneLeavesAJobRunning`). The worker's row is
  then gone, and a reclaimer may charge the attempt of a handler still at work (`PoolWitnesses.ReclaimedUnderALiveHandler`).

## Model

| member | source | states |
|---|---|---|
| Domain.NewJob | internal/domain/job.go:38-72 | which arguments are accepted, and every column of the new job: pending, uncharged, in the default queue when none is named, due at the time given, or now when none is |
| Domain.NewExecutionLog | internal/domain/execution_log.go:30-58 | which arguments are accepted; a new log is open and provisionally failed, started now when no time is given |
| Domain.Job.Assign | internal/service/job_service.go:318 | the write-back copies every field |
| Domain.ExecutionLog.Complete | internal/domain/execution_log.go:81-103 | open to closed, now when no time is given; an unknown status is refused with nothing changed, an end before the start with the status already moved |
| Domain.Worker.Heartbeat | internal/domain/worker.go:96-100 | refreshes only the heartbeat |
| Domain.Worker.SetStatus | internal/domain/worker.go:103-108 | moves status and heartbeat together |
| Backoff.NewExponentialBackoff | internal/retry/backoff.go:20-31 | non-positive delays become 2 s and 30 s, positive ones are kept |
| Backoff.RoundScales | internal/retry/backoff.go:39-40 | scaling by a power of two commutes with rounding to a double |
| Backoff.FloatIsRoundedInteger | internal/retry/backoff.go:34-46 | for every base, in range, the double computation is min(rounded base * 2^(n-1), max) |
| Backoff.FloatBackoffIsExact | internal/retry/backoff.go:33-46 | for bases up to 2^53 ns and products below 2^63 the result is exactly the documented integer formula |
| Backoff.BackoffMonotoneAndCapped | internal/retry/backoff.go:33-46 | for every base and retry number: never above the cap, negative iff the product does not fit an int64 and is converted to a negative value, otherwise positive and never shrinking while conversions reach the cap |
| Backoff.OutOfRangeIsCappedIff | internal/retry/backoff.go:40-45 | for every base: a product that does not fit gives the cap iff the machine converts it to something at least as large |
| Backoff.FormulaHoldsIffInRange | internal/retry/backoff.go:33-46 | with the amd64 conversion the documented formula is met iff the product fits and the base is a double or both products reach the cap; up to 2^53 ns iff base * 2^(n-1) is below 2^63 |
| Backoff.DefaultDelayCanTurnNegative | internal/retry/backoff.go:20-45 | with the default delays of 2 s and 30 s and retry 34, the amd64 conversion gives a negative delay instead of the cap |
| Queries.LogsByAttemptMembers | internal/repository/sqlite/sqlite_execution_log_repository.go:84-90 | the log query returns the job's logs and no others |
| Queries.LogsByAttemptOrder | internal/repository/sqlite/sqlite_execution_log_repository.go:85-90 | they come by attempt number and the last is the row named latest |
| Queries.LatestOfIsLatest | internal/service/job_service.go:304-305 | the latest row has the highest attempt number of the job |
| Queries.LikeMeansContained | internal/repository/sqlite/sqlite_job_repository.go:282-287 | without wildcards the search pattern matches exactly the texts that contain the searched one, in any case |
| Queries.ListingByColumns | internal/repository/sqlite/sqlite_job_repository.go:264-294 | a listing shows the rows of that queue and status with the searched text in payload, error message or type, each once, highest priority first and then latest creation first; what it leaves out was cut off by the limit and comes after all it shows |
| Queries.ContainedTextIsFound | internal/repository/sqlite/sqlite_job_repository.go:282-287 | the search pattern matches every text that contains the searched one, in any case |
| Queries.ListingIsComplete | internal/repository/sqlite/sqlite_job_repository.go:264-294 | a limit at least as large as the number of rows that match queue, status and search hides none |
| Invariants.FetchKeeps | internal/service/job_service.go:232-260 | a fetch, with its log, keeps the system invariant |
| Invariants.SucceedKeeps | internal/service/job_service.go:279-320 | a success by any caller, owner or not, keeps it |
| Invariants.ChargeClosesTheOpenLog | internal/service/job_service.go:346-407 | a failure that names a worker commits only onto the one open attempt of the job, which is that worker's |
| Invariants.ChargeKeeps | internal/service/job_service.go:346-412 | a committed failure keeps the invariant |
| Invariants.ReclaimFailKeeps | internal/service/job_service.go:472-523 | a reclaimer acting on stale data keeps it, and never reaches the call without a worker name |
| Invariants.ReclaimerStepKeeps | internal/service/job_service.go:465-502 | the separate reads of a reclaim pass keep it |
| Invariants.ReplayOverwritesWhatWasRead | internal/dlq/dlq.go:78-96 | a replay that passes the version check overwrites the very row its caller had read, still dead-lettered |
| Invariants.EventKeepsInv | internal/service/job_service.go:226-525 | every event of the protocol keeps the invariant |
| Invariants.ReachableInv | internal/service/job_service.go:226-525 | the invariant holds after every run |
| History.ReachableLedger | internal/service/job_service.go:243-254 | after every run the tallies of fetches, failures, successes, dead-letterings and replays agree with rows and counters |
| History.OutrankedRefusesFailure | internal/service/job_service.go:358-372 | while a closed log outranks the open one no failure is accepted |
| History.LedgerReplay | internal/dlq/dlq.go:88-93 | a replay of a job that allows retries leaves its old last attempt outranking every new one |
| Lifecycle.OpenAttemptsPerStatus | internal/service/job_service.go:226-422 | in every reachable state: one open log while running, none while pending or dead, at most one when completed |
| Lifecycle.RetryBudget | internal/retry/retry.go:37-54 | in every reachable state: counter within 0..max, exactly max+1 when dead, status failed never reached |
| Lifecycle.FailureChargesOneAttempt | internal/service/job_service.go:346-412 | each committed failure closes exactly one open log, of the worker named, charges one retry, and touches no other job |
| Lifecycle.FinishedStaysFinished | internal/repository/sqlite/sqlite_execution_log_repository.go:55-81 | a closed log row never changes again |
| Lifecycle.NoAttemptChargedTwice | internal/service/job_service.go:454-525 | no two committed failures of a run close the same log row, whoever makes them |
| Lifecycle.ExclusiveAcquisition | internal/repository/sqlite/sqlite_job_repository.go:198-261 | two fetches of one job are separated by a committed failure of it |
| Lifecycle.WritesAdvanceTheVersion | internal/repository/sqlite/sqlite_job_repository.go:154-194 | every write of a row advances updated_at and is a legal status move; queue, budget, priority and creation time never change |
| Lifecycle.VersionsNeverRepeat | internal/repository/sqlite/sqlite_job_repository.go:154-194 | along a whole run a row is unchanged or its updated_at is strictly later, so a version identifies its content |
| Lifecycle.RemovalIsPurgeOrDelete | internal/repository/sqlite/sqlite_job_repository.go:370-407 | rows disappear only by a purge of completed jobs or a DLQ delete |
| Lifecycle.DeleteRemovesWhatWasReadIff | internal/dlq/dlq.go:102-118 | a DLQ delete removes the dead row its caller read iff the stored updated_at is still the one read, and then the row is dead |
| Lifecycle.DeleteRemovesADeadJobIff | internal/dlq/dlq.go:102-118 | for jobs that allow retries: the removed row is dead iff its version is the one read, iff the job was never replayed |
| Lifecycle.CompletedLeavesIff | internal/repository/sqlite/sqlite_job_repository.go:370-407 | a completed row leaves iff an old enough purge or a DLQ delete of it runs, and that delete held an earlier version; nothing else changes it |
| Lifecycle.ReplaysNeverExceedDeadLetterings | internal/dlq/dlq.go:78-150 | dead-letterings = replays + 1 while dead, = replays otherwise; at most one replay when retries are allowed |
| Lifecycle.ReplaysBoundedInEveryRun | internal/dlq/dlq.go:78-150 | replays never outnumber dead-letterings in any run, also for jobs no longer in the table |
| Lifecycle.ReplayWritesTheVersionRead | internal/dlq/dlq.go:121-142 | a replay makes pending, due now and uncharged the dead version that was read; every other column, the queue among them, and every other row stay |
| Lifecycle.NoFailureAfterReplay | internal/service/job_service.go:358-372 | in every run, no failure is ever committed for a job that was replayed and allows retries |
| Lifecycle.ReplayedJobKeepsRunning | internal/service/job_service.go:454-525 | such a job, once running, keeps its row until it is completed or deleted, whatever reclaimers do |
| Lifecycle.OwnFailureAccepted | internal/service/job_service.go:358-372 | without replays a report for the open attempt is always accepted |
| Lifecycle.OwnFailureAcceptedIff | internal/service/job_service.go:358-372 | in general it can be accepted iff no log of the job has a higher attempt number |
| Lifecycle.LedgerConservation | internal/service/job_service.go:243-254 | log rows = committed failures + 1 while running or completed; failures = counter without replays |
| Lifecycle.AttemptsHaveNoGaps | internal/service/job_service.go:243-249 | without replays attempts are numbered 1..n, each number carried by exactly one row |
| Effects.FetchTakesTheFirst | internal/repository/sqlite/sqlite_job_repository.go:202-254 | in every run the fetched job is pending, due and of the queue asked for, and no other such job has a higher priority, an earlier run time at equal priority, or an earlier creation at equal both; it becomes running under one new open log, all else unchanged |
| Effects.SuccessCompletesOneAttempt | internal/service/job_service.go:286-320 | in every run a success completes a running job, clears its message, and closes its latest log as successful at that time iff the log is open and the caller's; no other row or column changes |
| Effects.FailureSchedules | internal/retry/retry.go:37-54 | in every run a failure within the budget sets the next run time to the engine's clock reading plus the n-th delay, in range min(base * 2^(n-1), max) with n the new counter; one beyond it dead-letters the job and keeps its run time |
| Effects.PendingWaits | internal/repository/sqlite/sqlite_job_repository.go:202-206 | a row found pending at any point of a run is fetched no earlier than its run time, whatever happens in between |
| Effects.NotBeforeItsTime | internal/service/job_service.go:121-123 | a job enqueued for some time is handed out by no fetch of the run before it |
| Effects.RetryWaitsItsDelay | internal/retry/retry.go:50-54 | after a failure within the budget no later fetch of the run hands the job out before its delay has passed |
| Effects.ClosedLogTellsWho | internal/domain/execution_log.go:81-103 | every closed log of a run was closed by exactly one event: a success iff it is successful, a failure iff it is failed, of the worker it names, with that event's time and message |
| Effects.OpenLogsAreProvisional | internal/domain/execution_log.go:46-58 | in every reachable state an open log is marked failed, without a message |
| Effects.PruneIsExact | internal/service/job_service.go:454-463 | a prune stops exactly the workers whose heartbeat is more than 30 s older than its clock reading |
| Effects.PurgeIsExact | internal/repository/sqlite/sqlite_job_repository.go:370-388 | a purge removes exactly the jobs completed before its cutoff |
| Effects.RegistrationStores | internal/repository/sqlite/sqlite_worker_repository.go:33-55 | a registration stores the node; a refresh stores status and heartbeat and keeps host, queue, concurrency and start time as first inserted |
| Drain.DrainIsOrderedAndComplete | internal/repository/sqlite/sqlite_job_repository.go:202-208 | any number of consecutive fetches at one instant hand out pending jobs of the queue whose run time has come, each once, by falling priority, then rising run time, then rising creation time; at most as many as there are, and the next fetch finds nothing iff all were handed out |
| Drain.DrainRows | internal/repository/sqlite/sqlite_job_repository.go:240-254 | the jobs handed out are running, every other row and the workers are as before |
| Drain.DrainLogs | internal/service/job_service.go:243-256 | each handout adds one open log, of its worker and the next attempt number, in order |
| Drain.DrainQueue | internal/service/job_service.go:226-267 | fetching until the service answers nil ends, and what it handed out is such a sequence; without a failing call, a bad id or a corrupt row it empties the queue |
| Measure.CommitLowersWork | internal/service/job_service.go:226-422 | each fetch, success and failure strictly lowers the remaining work |
| Measure.CommitsAreBounded | internal/retry/retry.go:37-54 | commits of a run plus work left never exceed 2(max+1) per enqueue and per replay |
| Measure.RowsConserved | internal/repository/sqlite/sqlite_job_repository.go:333-407 | rows in the table = enqueued - deleted - purged |
| Progress.OnlyFetchersReport | internal/worker/worker.go:197-253 | in every run whoever reports a success or a failure of a job has fetched it before |
| Progress.HolderCanReportFailure | internal/service/job_service.go:346-412 | while an unreplayed job runs, the worker of its open log can report a failure of it, unless it has crashed |
| Progress.ReclaimersTakeBack | internal/service/job_service.go:454-525 | from any state, once its worker has been silent for 30 s, a running job whose open log is the latest is charged once by reclaimer events alone, all other jobs, logs and hands unchanged |
| Progress.StuckForGood | internal/service/job_service.go:358-372 | a running job that no worker holds and whose open log is outranked stays so through every continuation without a delete of it |
| Progress.LeavesRunningIff | internal/service/job_service.go:358-372 | with its holder gone, a running job can leave running other than by a delete iff no log of it outranks the open one |
| Progress.CanFinishIff | internal/service/job_service.go:226-525 | some continuation without deletes finishes every job iff no job is stuck |
| Progress.WorkedOff | internal/service/job_service.go:226-525 | when none is stuck, registrations, fetches, successes of holders and reclaims alone finish every job and lose none |
| Progress.RestsOnlyWhenFinished | internal/service/job_service.go:226-525 | every run without replays, whichever workers have crashed, extends to one in which all its jobs are completed or dead |
| Timing.UncappedWaiting | internal/retry/backoff.go:33-46 | uncapped delays add up to base * (2^n - 1) |
| Timing.WaitedStep | internal/retry/retry.go:50-53 | every event keeps the bound between first start and next run time |
| Timing.DeadLetterNoEarlierThan | internal/retry/retry.go:37-54 | a job is dead-lettered no earlier than its first start plus all its backoff delays |
| Timing.AliveStep | internal/service/job_service.go:489-501 | a registered, non-silent worker is never judged dead by any reclaimer |
| Timing.AliveIsNeverRobbed | internal/service/job_service.go:504-510 | the same from the stored heartbeats |
| Timing.StoredBeatIsTheLast | internal/worker/worker.go:85-112 | unless a prune comes over 30 s late, the table holds the heartbeat of the latest registration or refresh, and the worker is not stopped; after unregistering it holds no row |
| Timing.LiveWorkerIsNeverRobbed | internal/service/job_service.go:504-510 | from events alone: a worker that registered before it fetched, has not unregistered, and whose last stored heartbeat was never older than 30 s at a prune, loses no attempt to a reclaimer, under any interleaving |
| Timing.RobbedWorkerWasSeenGone | internal/service/job_service.go:489-510 | every attempt a reclaimer fails is one whose worker it had found missing or stopped |
| Timing.LookupDecides | internal/service/job_service.go:489-502 | the worker query goes on to charge the job iff the worker is missing or stopped, and otherwise to the next job |
| Witnesses.SuccessClosesIff | internal/service/job_service.go:304-314 | a success leaves no open log iff the latest log is the caller's and open |
| Witnesses.StaleWorkerMayComplete | internal/service/job_service.go:286-314 | a run in which a worker whose attempt was reclaimed completes the next worker's attempt, and the log of the next stays open |
| Witnesses.OutrankedSuccessLeavesTheLogOpen | internal/service/job_service.go:298-314 | the success of an outranked (replayed) job closes no log and leaves its attempt open, even when the owner reports it |
| Witnesses.OwnerLeavesItsLogOpen | internal/service/job_service.go:298-314 | a run in which the owner completes its replayed job and its own log stays open |
| Witnesses.StaleDeleteRemovesARunningJob | internal/dlq/dlq.go:102-118 | a run in which a late delete removes a running job |
| Witnesses.RestoreMovesIff | internal/dlq/dlq.go:121-150 | after a restore the job is in the target queue iff it was there before |
| Witnesses.RestoreLeavesTheQueue | internal/dlq/dlq.go:121-150 | a run in which a job restored to another queue becomes pending in its old one |
| Witnesses.ReplayedJobCannotFail | internal/dlq/dlq.go:88-93 | a run after which no failure report about the running job is acceptable |
| Witnesses.ReplayedJobIsStuck | internal/worker/worker.go:234-246 | a run after which a replayed job is stuck: its worker is gone, and neither it nor the queue can ever be finished without a delete |
| Store.Store.Begin | internal/repository/sqlite/sqlite_job_repository.go:56-73 | remembers the tables for a rollback |
| Store.Store.Rollback | internal/repository/sqlite/sqlite_job_repository.go:75-80 | restores all three tables |
| Store.Store.Commit | internal/repository/sqlite/sqlite_job_repository.go:82-87 | keeps everything or, when it fails, nothing |
| Store.Store.InsertJob | internal/repository/sqlite/sqlite_job_repository.go:91-115 | adds the row unless the key exists |
| Store.Store.GetJob | internal/repository/sqlite/sqlite_job_repository.go:118-151 | a fresh copy of the row, or not found |
| Store.Store.UpdateJob | internal/repository/sqlite/sqlite_job_repository.go:154-194 | writes five columns iff the stored version is the one held, else conflict or not found; refreshes the caller's version |
| Store.Store.AcquireNextPendingJob | internal/repository/sqlite/sqlite_job_repository.go:198-261 | takes the due pending row of the queue with the highest priority, earliest run time, earliest creation, joining an open transaction; atomic on its own otherwise |
| Store.Store.TakeNext | internal/repository/sqlite/sqlite_job_repository.go:201-254 | select and mark: the due pending row of the queue with the highest priority, earliest run time, earliest creation; none only when none is due |
| Store.Store.QueryJobs | internal/repository/sqlite/sqlite_job_repository.go:264-295 | the rows that match queue, status and search, in priority and creation order, cut at the limit |
| Store.Store.ListJobs | internal/repository/sqlite/sqlite_job_repository.go:297-330 | one fresh object per listed row |
| Store.Store.DeleteJob | internal/repository/sqlite/sqlite_job_repository.go:391-407 | removes the row or reports not found |
| Store.Store.DeleteCompletedJobs | internal/repository/sqlite/sqlite_job_repository.go:370-388 | removes exactly the jobs completed longer ago than asked and reports how many |
| Store.Store.InsertLog | internal/repository/sqlite/sqlite_execution_log_repository.go:32-52 | appends the row unless the key exists |
| Store.Store.UpdateLog | internal/repository/sqlite/sqlite_execution_log_repository.go:55-81 | writes outcome columns of the one row with this id |
| Store.Store.GetLogs | internal/repository/sqlite/sqlite_execution_log_repository.go:84-124 | the job's logs by attempt, the last being the latest |
| Store.Store.Upsert | internal/repository/sqlite/sqlite_worker_repository.go:33-55 | insert, or on conflict store the node's status and heartbeat and keep the other columns |
| Store.Store.GetWorker | internal/repository/sqlite/sqlite_worker_repository.go:58-86 | the row, or not found |
| Store.Store.DeleteWorker | internal/repository/sqlite/sqlite_worker_repository.go:89-105 | removes the row or reports not found |
| Store.Store.PruneStale | internal/repository/sqlite/sqlite_worker_repository.go:150-176 | stops exactly the workers silent for longer than asked, with the clock reading as heartbeat, and counts them |
| Store.Store.ListActive | internal/repository/sqlite/sqlite_worker_repository.go:108-147 | the workers not stopped, each once, oldest first |
| Store.Store.QueryGroups | internal/repository/sqlite/sqlite_job_repository.go:334-338 | one row per occurring queue and status with its count |
| Store.Store.GetQueueStats | internal/repository/sqlite/sqlite_job_repository.go:333-367 | the nested map holds exactly the nonzero counts |
| Service.RetryEngine.HandleFailure | internal/retry/retry.go:32-64 | charges one retry; up to the budget pending and due after the computed delay, beyond it the run time stays |
| Service.OthersLookTheSame | internal/service/job_service.go:472-523 | charging some jobs changes nothing a reclaimer reads about the others |
| Service.JobService.Enqueue | internal/service/job_service.go:109-150 | stores a new pending job, due at the time given or now when none is, with defaults filled in, and wakes the workers; on error nothing changes |
| Service.JobService.FetchNextJob | internal/service/job_service.go:226-267 | the due job of the queue with the highest priority, earliest run time and earliest creation is marked running and gets an open log under a new id, or nothing changed, for every pattern of failing calls; nil only when none is due |
| Service.JobService.HandleJobSuccess | internal/service/job_service.go:270-331 | the whole success transition or nothing: job completed, message cleared, latest log closed as successful iff open and the caller's; accepted iff the stored job is running |
| Service.JobService.CloseLatestLog | internal/service/job_service.go:298-315 | closes the latest log iff it is open and the caller's |
| Service.JobService.HandleJobFailure | internal/service/job_service.go:334-422 | the whole failure transition or nothing: counter, message, next run time after the delay or dead letter, latest log closed as failed; without faults accepted iff the job runs and the latest log is the worker's and open |
| Service.JobService.CheckOwner | internal/service/job_service.go:358-372 | the ownership check |
| Service.JobService.ChargeRow | internal/service/job_service.go:375-388 | pending again after the computed delay, or dead-lettered with the run time kept, written through the version check |
| Service.JobService.ReclaimOne | internal/service/job_service.go:472-523 | with others committing between its statements: which tables each statement met, that a job is passed over as alive iff its latest worker is registered and not stopped, and that it is charged iff it is not and the store accepts the failure |
| Service.JobService.ReclaimAll | internal/service/job_service.go:472-523 | one such turn per listed job, others committing in between; undisturbed it charges exactly the reclaimable jobs, each once, and changes nothing else |
| Service.JobService.ReclaimOrphanedJobs | internal/service/job_service.go:454-525 | prune, list, one turn per listed job, others committing between any two statements; undisturbed exactly the listed reclaimable jobs are charged and all else is framed; nothing charged when a first query fails |
| Service.TurnUndisturbed | internal/service/job_service.go:472-523 | a turn nobody interferes with charges the job iff it is an orphan whose latest log is open |
| DeadLetterQueue.Route | internal/dlq/dlq.go:31-44 | dead-letters the row through the version check, with a default message |
| DeadLetterQueue.DlqService.Retry | internal/dlq/dlq.go:78-99 | with others committing between read and write: writes only over the dead version it read, otherwise nothing; without faults it fails only if the job was not dead or its version has moved |
| DeadLetterQueue.DlqService.Delete | internal/dlq/dlq.go:102-118 | removes a row that was dead when read, whatever it has become; without faults it fails only if the job was not dead or is gone |
| DeadLetterQueue.DlqService.Restore | internal/dlq/dlq.go:121-150 | as Retry; the stored queue does not change, so it is the target iff it was the target |
| DeadLetterQueue.DlqService.GetStats | internal/dlq/dlq.go:153-166 | exactly the queues with dead jobs and their numbers |
| Metrics.SumCounts | internal/metrics/metrics.go:63-70 | the nested sums equal direct counts per status, in any iteration order |
| Metrics.StatusesPartition | internal/metrics/metrics.go:63-70 | the five counts add up to the number of rows |
| Metrics.GetJobCounts | internal/metrics/metrics.go:53-70 | prunes, then returns direct counts that add up to the table |
| Metrics.BusyWorkers | internal/metrics/metrics.go:99-111 | the workers of the open latest logs of the listed running jobs; failing queries only make the set smaller |
| Metrics.CountWorkers | internal/metrics/metrics.go:93-118 | listed workers and the active ones among them; failing queries only make the second number smaller |
| Metrics.BusyMeansRunningUnder | internal/metrics/metrics.go:99-111 | without replays and with at most 1000 running jobs, busy workers are those some job runs under |
| Scheduler.EventScheduler.Notify | internal/scheduler/scheduler.go:36-43 | a wake-up is waiting afterwards, never two |
| Scheduler.NoWakeUpIsLost | internal/scheduler/scheduler.go:36-43 | every notification is followed by a receive or still waiting |
| Scheduler.NoWakeUpIsInvented | internal/scheduler/scheduler.go:36-48 | receives plus the waiting one never exceed the notifications |
| Refinement.EnqueueIsAnEvent | internal/service/job_service.go:109-150 | a successful call on the tables of a system is an enabled enqueue of it; a failed one changes nothing |
| Refinement.FetchIsAnEvent | internal/service/job_service.go:226-267 | the same for a fetch that returns a job; otherwise nothing changed |
| Refinement.SuccessIsAnEvent | internal/service/job_service.go:270-331 | the same for a success report of a worker that holds the job |
| Refinement.FailureIsAnEvent | internal/service/job_service.go:334-422 | the same for a failure report of a worker that holds the job |
| Refinement.RetryIsTwoEvents | internal/dlq/dlq.go:78-99 | a successful retry is an enabled read and, in whatever system its write meets, an enabled replay |
| Refinement.RestoreIsTwoEvents | internal/dlq/dlq.go:121-150 | the same for a restore, with its target queue |
| Refinement.DeleteIsTwoEvents | internal/dlq/dlq.go:102-118 | the same for a delete |
| Refinement.ReclaimIsARun | internal/service/job_service.go:454-525 | a whole undisturbed pass is a run of the protocol (prune, list, the events of each job, end) to the tables it leaves, whatever calls fail; without faults and replays and with at most 1000 running jobs it leaves no orphan |
| Refinement.ReclaimIsEvents | internal/service/job_service.go:454-525 | a pass among any other processes: the prune, the list query and every statement of every turn is its protocol event in whatever system it meets |
| Refinement.TurnMeetsItsEvents | internal/service/job_service.go:472-523 | log query, worker query and failure call of one turn, each on tables others may have changed, are the reclaimer events for what they returned |
| Refinement.PassIsARun | internal/service/job_service.go:454-525 | the events of such a pass, for every list and every pattern of charged jobs |
| Steps.LengthensTheRun | internal/service/job_service.go:226-525 | events that can follow from a reachable state extend the run that reached it |
| Refinement.ReclaimingIsThreeEvents | internal/service/job_service.go:472-523 | one charged job is log read, worker read and failure in a row, with the exact state they lead to |
| Refinement.UnreplayedOrphanIsReclaimable | internal/service/job_service.go:472-510 | an unreplayed job of a dead worker is always accepted for reclaim |
| Refinement.ReclaimLeavesNoOrphan | internal/service/job_service.go:454-525 | after an undisturbed pass without replays and with at most 1000 running jobs every running job has a latest log whose worker is registered and not stopped |
| Refinement.PassChargesTheSilent | internal/service/job_service.go:454-525 | such a pass charges exactly the running jobs whose latest worker is missing, stopped or silent for more than 30 s |
| Refinement.OrphanLeftBehindIff | internal/service/job_service.go:454-525 | in general a job whose worker is missing, stopped or silent for more than 30 s stays behind iff it was not listed or its latest log is closed |
| WorkerPool.WorkerPool.PollAndDispatch | internal/worker/worker.go:161-194 | a slot is taken iff a job is dispatched; the tables after the fetch, and, on whatever others have made of them, the refresh of the node as active unless its call fails; no store access when all slots are busy |
| WorkerPool.WorkerPool.OnWakeUp | internal/worker/worker.go:153-157 | a wake-up is consumed by one poll, which leaves no due job behind when a slot is free and nothing fails |
| WorkerPool.WorkerPool.StoreOutcome | internal/worker/worker.go:200-252 | reports success, or failure for errors and panics alike; stored when accepted and no call fails, otherwise nothing changes |
| WorkerPool.WorkerPool.ExecuteWorker | internal/worker/worker.go:197-253 | gives back slot and count exactly once for success, error and panic, after reporting the outcome; the node becomes idle iff no slot is left in use, and then is refreshed in whatever others have made of the tables |
| PoolRefinement.DispatchIsPoolEvents | internal/worker/worker.go:161-194 | a poll is a run of pool events (take a slot, then fetch or give it back), and counting the executor is its event in whatever state it meets |
| PoolRefinement.ExecutionIsPoolEvents | internal/worker/worker.go:197-253 | whichever repository calls fail, an executor is a run of pool events: handler ends, outcome stored, refused or lost, slot and count given back; the refresh of the node is its event in whatever state it meets |
| PoolRefinement.ReachableMayReport | internal/worker/worker.go:161-253 | in every reachable state of the pool an executor whose handler runs meets what that run needs |
| Pool.AccountedStep | internal/worker/worker.go:161-253 | every event keeps slots = holders and count = executors |
| Pool.HandlersNeverExceedCapacity | internal/worker/worker.go:161-253 | in every interleaving handlers in flight never exceed the semaphore capacity; the wait group counts exactly the executors, plus a dispatch under way |
| Pool.SlotsConserved | internal/worker/worker.go:161-217 | slots taken = slots given back + slots in use, along every run |
| Pool.SlotReleasedOnce | internal/worker/worker.go:215-217 | no executor gives its slot back twice |
| Pool.ReportTellsTheOutcome | internal/worker/worker.go:197-253 | in every interleaving a stored report completes the job iff its handler had returned nil; after an error or a panic it charges one retry |
| Pool.ReportedMeansNotUnder | internal/worker/worker.go:205-252 | replays included: after a stored outcome the job does not run under the pool, after a refused one only if another log has an attempt number at least that of the open one |
| Pool.NewlyUnder | internal/service/job_service.go:226-267 | only the pool's own fetch puts a job under it |
| Pool.JointStep | internal/worker/worker.go:62-265 | every event, replays and failing reports included, keeps: a job running under the pool is in its hands, or its report failed, or another log rivals the open one |
| Pool.RunningJobsAreHeld | internal/worker/worker.go:161-253 | in every interleaving a job running under the pool is held by its dispatcher or an executor, or its report failed, or another log rivals the open one |
| Pool.UnreplayedJobsAreHeld | internal/worker/worker.go:161-253 | without replays of the job and with its outcome not lost, it is held by the dispatcher or an executor |
| Pool.CancellationLeavesNothingRunning | internal/worker/worker.go:119-142 | at unregistration the heartbeat has ended; if the loop left cancelled and no Stop had finished waiting before, no executor is left, and no job runs under the pool but one whose report failed or whose open log has a rival; never one not replayed whose report did not fail |
| Pool.ExecutorsMayReport | internal/worker/worker.go:161-253 | in every interleaving an executor that has not reported still holds its job in the protocol |
| PoolWitnesses.LateCancellationLeavesAJobRunning | internal/worker/worker.go:256-265 | a run in which an earlier, finished Stop makes the cancelled pool unregister while a handler runs |
| PoolWitnesses.StopAloneLeavesAJobRunning | internal/worker/worker.go:140-142 | a run without cancellation in which a waiting Stop makes the pool unregister while a handler runs |
| PoolWitnesses.ReclaimedUnderALiveHandler | internal/service/job_service.go:472-523 | a run in which a reclaimer then charges the attempt of that handler |

## Left out

- CLI commands, PID files, signals, configuration loading, logging and table rendering: process plumbing around the core.
- SQLite internals: locking, WAL, busy timeouts, date text encoding. A transaction is one atomic step that may fail and roll back.
- JSON payload validation is a flag of `Enqueue`; handlers and their registration are a nondeterministic outcome (success, error, panic).
- `GetAverageRuntime`, `GetStats` of the log repository, success rate, utilisation percentage and the total-retries sum of `GetMetrics`: easy or approximate arithmetic.
- `Validate`, `IsRetryable`, `HasFailed`, `ScheduleNextRun`, `Duration`, `SystemConfig`, `DLQEnvelope` and `RetryPolicy`: straight-line checks, or code no modelled path calls.
- The periodic ticker of the scheduler, and liveness of handlers that never return; the 30-second forced exit of the CLI.
- Contexts: a timeout or cancellation of a store call is one of the ways a repository call may fail.
- The worker mutex: `Heartbeat` and `SetStatus` are atomic.
- WorkerPool.WorkerPool.PollAndDispatch: does not model other executors changing the two counters during the call; Pool does, one step at a time.
- WorkerPool.WorkerPool.OnWakeUp: likewise for the poll that follows.
- WorkerPool.WorkerPool.ExecuteWorker: likewise.
- PoolRefinement.DispatchIsPoolEvents: other processes move between fetch and refresh, other executors of the same pool do not.
- PoolRefinement.ExecutionIsPoolEvents: likewise between report and refresh.
- Refinement.ReclaimIsARun: for a pass nobody interferes with; Refinement.ReclaimIsEvents is the one among others.
- Refinement.FailureIsAnEvent: for calls that name a worker; the only caller that may not, the reclaimer, always does in a reachable state (Invariants.ReclaimFailKeeps).
