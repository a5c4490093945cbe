/**
  The three tables as one value, the queries the services ask of it, and the effect of each committed
  statement or transaction. The protocol and the imperative store are both written against these.
*/
module Tables {
  import opened Domain

  /** execution_logs is kept in insertion (rowid) order: rows are appended and closed, never removed. */
  datatype DB = DB(jobs: map<JobId, JobRow>, logs: seq<LogRow>, workers: map<WorkerId, WorkerRow>)

  /** Silence after which a worker counts as dead, in nanoseconds. */
  const STALE_AFTER: Duration := 30_000_000_000

  const EMPTY := DB(map[], [], map[])

  /** Primary keys. */
  predicate Keyed(db: DB) {
    && (forall j | j in db.jobs :: db.jobs[j].id == j)
    && (forall w | w in db.workers :: db.workers[w].id == w)
    && (forall k, i | 0 <= k < |db.logs| && 0 <= i < |db.logs| && db.logs[k].id == db.logs[i].id :: k == i)
  }

  // ---- queries ----

  predicate IsOpen(logs: seq<LogRow>, k: int, j: JobId) {
    0 <= k < |logs| && logs[k].jobId == j && logs[k].finishedAt.None?
  }

  predicate IsLogOf(logs: seq<LogRow>, k: int, j: JobId) {
    0 <= k < |logs| && logs[k].jobId == j
  }

  predicate HasLogs(logs: seq<LogRow>, j: JobId) {
    exists k | 0 <= k < |logs| :: logs[k].jobId == j
  }

  /** Row k comes last when the logs of j are ordered by attempt; among equal attempts any row may. */
  ghost predicate IsLatest(logs: seq<LogRow>, j: JobId, k: int) {
    IsLogOf(logs, k, j) && forall i | IsLogOf(logs, i, j) :: logs[i].attempt <= logs[k].attempt
  }

  /** The row `logs[len(logs)-1]` refers to, if there is one. */
  ghost predicate LatestIs(logs: seq<LogRow>, j: JobId, latest: Option<int>) {
    match latest
    case None => !HasLogs(logs, j)
    case Some(k) => IsLatest(logs, j, k)
  }

  predicate Eligible(row: JobRow, queue: string, now: Time) {
    row.queue == queue && row.status == Pending && row.runAt <= now
  }

  /** a precedes b in ORDER BY priority DESC, run_at ASC, created_at ASC. */
  predicate Precedes(a: JobRow, b: JobRow) {
    a.priority > b.priority
    || (a.priority == b.priority && (a.runAt < b.runAt || (a.runAt == b.runAt && a.createdAt < b.createdAt)))
  }

  /** j may be the first row of the acquisition query; rows that tie on all three columns come in any order. */
  predicate IsNext(jobs: map<JobId, JobRow>, queue: string, now: Time, j: JobId) {
    && j in jobs && Eligible(jobs[j], queue, now)
    && forall i | i in jobs && Eligible(jobs[i], queue, now) :: !Precedes(jobs[i], jobs[j])
  }

  predicate NoneEligible(jobs: map<JobId, JobRow>, queue: string, now: Time) {
    forall i | i in jobs :: !Eligible(jobs[i], queue, now)
  }

  /** The job taken is due in its queue; no other due one has a higher priority, an earlier run time or creation. */
  lemma {:induction false} NextIff(jobs: map<JobId, JobRow>, queue: string, now: Time, j: JobId)
    ensures IsNext(jobs, queue, now, j) <==>
            && j in jobs && jobs[j].queue == queue && jobs[j].status == Pending && jobs[j].runAt <= now
            && forall i | i in jobs && jobs[i].queue == queue && jobs[i].status == Pending && jobs[i].runAt <= now ::
                 && jobs[i].priority <= jobs[j].priority
                 && (jobs[i].priority == jobs[j].priority ==> jobs[j].runAt <= jobs[i].runAt)
                 && (jobs[i].priority == jobs[j].priority && jobs[i].runAt == jobs[j].runAt ==>
                       jobs[j].createdAt <= jobs[i].createdAt)
  {
  }

  predicate IsRunning(db: DB, j: JobId) {
    j in db.jobs && db.jobs[j].status == Running
  }

  predicate DeadWorker(workers: map<WorkerId, WorkerRow>, w: WorkerId) {
    w !in workers || workers[w].status == Stopped
  }

  /** A generated log id: not empty and not the key of a row. */
  predicate LogIdUnused(logs: seq<LogRow>, id: LogId) {
    id != "" && forall k | 0 <= k < |logs| :: logs[k].id != id
  }

  // ---- fetch ----

  function Fetched(db: DB, j: JobId, w: WorkerId, logId: LogId, t1: Time, t2: Time): DB
    requires j in db.jobs
  {
    var row := db.jobs[j].(status := Running, updatedAt := t1);
    db.(jobs := db.jobs[j := row], logs := db.logs + [OpenedLog(logId, row, w, t2)])
  }

  // ---- closing an attempt ----

  predicate Closes(logs: seq<LogRow>, latest: Option<int>, w: WorkerId, anyWorker: bool) {
    && latest.Some? && 0 <= latest.value < |logs|
    && (anyWorker || logs[latest.value].workerId == w) && logs[latest.value].finishedAt.None?
  }

  function CloseLatest(logs: seq<LogRow>, latest: Option<int>, w: WorkerId, anyWorker: bool,
                       outcome: ExecutionStatus, t: Time, msg: string): seq<LogRow>
  {
    if Closes(logs, latest, w, anyWorker)
    then logs[latest.value := ClosedLog(logs[latest.value], outcome, t, msg)]
    else logs
  }

  /** Complete refuses a finishing time that lies before the start; the transaction then rolls back. */
  predicate ClosableAt(logs: seq<LogRow>, latest: Option<int>, w: WorkerId, anyWorker: bool, t: Time) {
    Closes(logs, latest, w, anyWorker) ==> logs[latest.value].startedAt <= t
  }

  // ---- success ----

  predicate SuccessAccepted(db: DB, j: JobId, w: WorkerId, latest: Option<int>, t2: Time) {
    IsRunning(db, j) && ClosableAt(db.logs, latest, w, false, t2)
  }

  function Succeeded(db: DB, j: JobId, w: WorkerId, latest: Option<int>, t1: Time, t2: Time): DB
    requires j in db.jobs
  {
    db.(jobs := db.jobs[j := db.jobs[j].(status := Completed, errorMessage := "", updatedAt := t1)],
        logs := CloseLatest(db.logs, latest, w, false, ExecutionSuccess, t2, ""))
  }

  // ---- failure ----

  /** With a worker named, its attempt must be the latest one and still open. */
  predicate OwnsLatest(logs: seq<LogRow>, w: WorkerId, latest: Option<int>) {
    w != "" && latest.Some? && 0 <= latest.value < |logs|
    ==> logs[latest.value].workerId == w && logs[latest.value].finishedAt.None?
  }

  predicate FailureAccepted(db: DB, j: JobId, w: WorkerId, latest: Option<int>, t3: Time) {
    && IsRunning(db, j)
    && OwnsLatest(db.logs, w, latest)
    && ClosableAt(db.logs, latest, w, w == "", t3)
  }

  predicate Exhausts(row: JobRow) {
    row.retriesCount + 1 > row.maxRetries
  }

  /** The row after one more failure: pending again after `delay`, or dead-lettered. */
  function ChargedRow(row: JobRow, msg: string, delay: Duration, t1: Time, t2: Time): JobRow {
    var failed := row.(retriesCount := row.retriesCount + 1, errorMessage := msg, updatedAt := t2);
    if Exhausts(row) then failed.(status := DeadLetter)
    else failed.(status := Pending, runAt := t1 + delay)
  }

  function Charged(db: DB, j: JobId, w: WorkerId, latest: Option<int>, msg: string, delay: Duration,
                   t1: Time, t2: Time, t3: Time): DB
    requires j in db.jobs
  {
    db.(jobs := db.jobs[j := ChargedRow(db.jobs[j], msg, delay, t1, t2)],
        logs := CloseLatest(db.logs, latest, w, w == "", ExecutionFailed, t3, msg))
  }

  // ---- dead-letter queue ----

  /** The version-checked update writes these columns only; the queue is not among them. */
  function Written(stored: JobRow, job: JobRow, t: Time): JobRow {
    stored.(status := job.status, retriesCount := job.retriesCount, errorMessage := job.errorMessage,
            runAt := job.runAt, updatedAt := t)
  }

  function ReplayedRow(row: JobRow, t1: Time, t2: Time): JobRow {
    row.(status := Pending, retriesCount := 0, errorMessage := "", runAt := t1, updatedAt := t2)
  }

  /** The in-memory job a DLQ command writes back; Restore also sets its queue. */
  function Requeued(read: JobRow, target: Option<string>, t1: Time, t2: Time): JobRow {
    ReplayedRow(read, t1, t2).(queue := if target.Some? then target.value else read.queue)
  }

  function Replayed(db: DB, j: JobId, t1: Time, t2: Time): DB
    requires j in db.jobs
  {
    db.(jobs := db.jobs[j := ReplayedRow(db.jobs[j], t1, t2)])
  }

  function Deleted(db: DB, j: JobId): DB {
    db.(jobs := db.jobs - {j})
  }

  // ---- purge and workers ----

  predicate Purgeable(row: JobRow, cutoff: Time) {
    row.status == Completed && row.updatedAt < cutoff
  }

  function Purged(db: DB, cutoff: Time): DB {
    db.(jobs := map j | j in db.jobs && !Purgeable(db.jobs[j], cutoff) :: db.jobs[j])
  }

  predicate StaleAt(w: WorkerRow, now: Time, maxInactivity: Duration) {
    w.status != Stopped && w.lastHeartbeat < now - maxInactivity
  }

  function PrunedRow(w: WorkerRow, now: Time, maxInactivity: Duration): WorkerRow {
    if StaleAt(w, now, maxInactivity) then w.(status := Stopped, lastHeartbeat := now) else w
  }

  function Pruned(db: DB, now: Time, maxInactivity: Duration): DB {
    db.(workers := map w | w in db.workers :: PrunedRow(db.workers[w], now, maxInactivity))
  }

  /** Insert, or on conflict overwrite status and heartbeat only. */
  function Upserted(db: DB, w: WorkerRow): DB {
    var row := if w.id in db.workers
               then db.workers[w.id].(status := w.status, lastHeartbeat := w.lastHeartbeat)
               else w;
    db.(workers := db.workers[w.id := row])
  }

  function Unregistered(db: DB, w: WorkerId): DB {
    db.(workers := db.workers - {w})
  }
}
