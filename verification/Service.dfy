/** The job service, the retry engine and the dead-letter queue, as they drive the store. */
module Service {
  import opened Domain
  import opened Tables
  import opened Queries
  import opened Store
  import opened Scheduler
  import opened DeadLetterQueue
  import B = Backoff

  const RECLAIM_LIMIT := 1000
  const RECLAIM_MESSAGE := "worker process terminated unexpectedly"

  // ---- what one turn of a reclaim pass does, whatever others commit between its statements ----

  datatype Verdict = LogsFailed | WorkerFailed | Alive | Refused | Hit

  /** The tables that the three statements of a turn met, the tables it left, and how it ended. */
  datatype Turn = Turn(atLogs: DB, atWorker: DB, atCharge: DB, after: DB, verdict: Verdict)

  /** What the logs and the worker read show: nobody is working on the job any more. */
  predicate LooksOrphaned(turn: Turn, j: JobId) {
    || LatestOf(turn.atLogs.logs, j).None?
    || DeadWorker(turn.atWorker.workers, OwnerOf(turn.atLogs.logs, j))
  }

  /** The failure transaction of the turn, on the tables it met. */
  predicate ChargeAccepted(turn: Turn, j: JobId, t3: Time) {
    FailureAccepted(turn.atCharge, j, OwnerOf(turn.atLogs.logs, j), LatestOf(turn.atCharge.logs, j), t3)
  }

  function ChargedBy(d: B.Delays, turn: Turn, j: JobId, outOfRange: int, t1: Time, t2: Time, t3: Time): DB
    requires d.Valid() && j in turn.atCharge.jobs
  {
    Charged(turn.atCharge, j, OwnerOf(turn.atLogs.logs, j), LatestOf(turn.atCharge.logs, j), RECLAIM_MESSAGE,
            B.Calculate(d, turn.atCharge.jobs[j].retriesCount + 1, outOfRange), t1, t2, t3)
  }

  ghost predicate TurnOk(d: B.Delays, faulty: bool, turn: Turn, j: JobId, outOfRange: int,
                         t1: Time, t2: Time, t3: Time)
    requires d.Valid()
  {
    match turn.verdict
    case LogsFailed => faulty && turn.after == turn.atLogs
    case WorkerFailed => faulty && LatestOf(turn.atLogs.logs, j).Some? && turn.after == turn.atWorker
    case Alive => !LooksOrphaned(turn, j) && turn.after == turn.atWorker
    case Refused => LooksOrphaned(turn, j) && turn.after == turn.atCharge && (faulty || !ChargeAccepted(turn, j, t3))
    case Hit =>
      && LooksOrphaned(turn, j) && ChargeAccepted(turn, j, t3)
      && turn.after == ChargedBy(d, turn, j, outOfRange, t1, t2, t3)
  }

  // ---- what one undisturbed pass does ----

  /** Worker named by the latest log, or none. */
  function OwnerOf(logs: seq<LogRow>, j: JobId): WorkerId {
    var k := LatestOf(logs, j);
    if k.None? then "" else logs[k.value].workerId
  }

  /** Running, and without a log or with a latest log whose worker is stopped or missing. */
  predicate Orphan(db: DB, j: JobId) {
    IsRunning(db, j) && (LatestOf(db.logs, j).None? || DeadWorker(db.workers, OwnerOf(db.logs, j)))
  }

  /** An orphan whose failure the store accepts: its latest log, if any, is still open. */
  predicate Reclaimable(db: DB, j: JobId) {
    Orphan(db, j) && OwnsLatest(db.logs, OwnerOf(db.logs, j), LatestOf(db.logs, j))
  }

  /** One more failure charged, at some time and after some delay. */
  predicate ChargedLike(before: JobRow, after: JobRow) {
    && after.retriesCount == before.retriesCount + 1
    && after.status == (if before.retriesCount + 1 > before.maxRetries then DeadLetter else Pending)
    && after.errorMessage == "worker process terminated unexpectedly"
    && (after.status == DeadLetter ==> after.runAt == before.runAt)
    && after == before.(retriesCount := after.retriesCount, status := after.status,
                        errorMessage := after.errorMessage, runAt := after.runAt, updatedAt := after.updatedAt)
  }

  /** The jobs in `charged` were failed once each, their latest logs closed; nothing else changed. */
  ghost predicate ReclaimedFrom(before: DB, after: DB, charged: set<JobId>) {
    && after.jobs.Keys == before.jobs.Keys && after.workers == before.workers && |after.logs| == |before.logs|
    && (forall j | j in before.jobs ::
          if j in charged then ChargedLike(before.jobs[j], after.jobs[j]) else after.jobs[j] == before.jobs[j])
    && (forall k | 0 <= k < |before.logs| ::
          && after.logs[k].jobId == before.logs[k].jobId && after.logs[k].attempt == before.logs[k].attempt
          && after.logs[k].startedAt == before.logs[k].startedAt
          && (after.logs[k] == before.logs[k]
              || (before.logs[k].jobId in charged && before.logs[k].finishedAt.None?
                  && LatestOf(before.logs, before.logs[k].jobId) == Some(k)
                  && after.logs[k].finishedAt.Some? && after.logs[k].status == ExecutionFailed)))
    && (forall j | j in charged && LatestOf(before.logs, j).Some? ::
          after.logs[LatestOf(before.logs, j).value].finishedAt.Some?)
  }

  /** After the first i listed jobs: only reclaimable ones were charged and, without faults, all of them. */
  ghost predicate Processed(start: DB, listed: seq<JobId>, i: nat, charged: set<JobId>, exact: bool)
    requires i <= |listed|
  {
    && (forall j | j in charged :: j in listed[..i] && Reclaimable(start, j))
    && (exact ==> forall j | j in listed[..i] && Reclaimable(start, j) :: j in charged)
  }

  /**
    The loop of a pass: `hits` says of the first jobs listed which were charged, each on the tables left by the
    jobs before it. The i-th job reads the clock at ticks 3i+1 to 3i+3.
    */
  ghost predicate PassOk(d: B.Delays, start: DB, listed: seq<JobId>, hits: seq<bool>, ticks: nat -> Time,
                         outOfRange: int)
    decreases |hits|, 0
  {
    && d.Valid() && |hits| <= |listed|
    && (hits == [] ||
        (&& PassOk(d, start, listed, hits[..|hits| - 1], ticks, outOfRange)
         && (hits[|hits| - 1] ==>
               Reclaimable(PassResult(d, start, listed, hits[..|hits| - 1], ticks, outOfRange), listed[|hits| - 1]))))
  }

  ghost function PassResult(d: B.Delays, start: DB, listed: seq<JobId>, hits: seq<bool>, ticks: nat -> Time,
                            outOfRange: int): DB
    requires PassOk(d, start, listed, hits, ticks, outOfRange)
    decreases |hits|, 1
  {
    if hits == [] then start
    else
      var i := |hits| - 1;
      var db := PassResult(d, start, listed, hits[..i], ticks, outOfRange);
      TurnResult(d, db, listed[i], hits[i], outOfRange, ticks(3 * i + 1), ticks(3 * i + 2), ticks(3 * i + 3))
  }

  function TurnResult(d: B.Delays, db: DB, j: JobId, hit: bool, outOfRange: int, t1: Time, t2: Time, t3: Time): DB
    requires d.Valid() && (hit ==> Reclaimable(db, j))
  {
    if hit then Reclaimed(d, db, j, outOfRange, t1, t2, t3) else db
  }

  /** The failure transaction a reclaimer gets through for an orphan. */
  function Reclaimed(d: B.Delays, db: DB, j: JobId, outOfRange: int, t1: Time, t2: Time, t3: Time): DB
    requires d.Valid() && Reclaimable(db, j)
  {
    Charged(db, j, OwnerOf(db.logs, j), LatestOf(db.logs, j), RECLAIM_MESSAGE,
            B.Calculate(d, db.jobs[j].retriesCount + 1, outOfRange), t1, t2, t3)
  }

  lemma {:induction false} PassNext(d: B.Delays, start: DB, listed: seq<JobId>, hits: seq<bool>, ticks: nat -> Time,
                                    outOfRange: int, hit: bool)
    requires PassOk(d, start, listed, hits, ticks, outOfRange) && |hits| < |listed|
    requires hit ==> Reclaimable(PassResult(d, start, listed, hits, ticks, outOfRange), listed[|hits|])
    ensures PassOk(d, start, listed, hits + [hit], ticks, outOfRange)
    ensures var db, i := PassResult(d, start, listed, hits, ticks, outOfRange), |hits|;
            PassResult(d, start, listed, hits + [hit], ticks, outOfRange) ==
            TurnResult(d, db, listed[i], hit, outOfRange, ticks(3 * i + 1), ticks(3 * i + 2), ticks(3 * i + 3))
  {
    var all := hits + [hit];
    assert all[..|all| - 1] == hits && all[|all| - 1] == hit;
  }

  lemma {:induction false} ProcessedNext(start: DB, listed: seq<JobId>, i: nat, before: set<JobId>, after: set<JobId>,
                                         exact: bool)
    requires i < |listed| && Processed(start, listed, i, before, exact)
    requires after == before || (after == before + {listed[i]} && Reclaimable(start, listed[i]))
    requires exact ==> (listed[i] in after <==> Reclaimable(start, listed[i]))
    ensures Processed(start, listed, i + 1, after, exact)
  {
    assert listed[..i + 1] == listed[..i] + [listed[i]];
  }

  /** A pass that has charged some jobs sees any other job as it was at the start. */
  lemma {:induction false} OthersLookTheSame(before: DB, now: DB, charged: set<JobId>, j: JobId)
    requires ReclaimedFrom(before, now, charged) && j !in charged
    ensures LatestOf(now.logs, j) == LatestOf(before.logs, j)
    ensures OwnerOf(now.logs, j) == OwnerOf(before.logs, j)
    ensures Orphan(now, j) == Orphan(before, j) && Reclaimable(now, j) == Reclaimable(before, j)
  {
    LatestFrame(before.logs, now.logs, |before.logs|, j);
  }

  lemma {:induction false} OneMoreCharged(before: DB, now: DB, charged: set<JobId>, j: JobId, delay: Duration,
                                          t1: Time, t2: Time, t3: Time)
    requires ReclaimedFrom(before, now, charged) && j !in charged && j in now.jobs
    requires Reclaimable(now, j)
    ensures var w, latest := OwnerOf(now.logs, j), LatestOf(now.logs, j);
            ReclaimedFrom(before, Charged(now, j, w, latest, RECLAIM_MESSAGE, delay, t1, t2, t3), charged + {j})
  {
    OthersLookTheSame(before, now, charged, j);
  }

  /** An undisturbed turn charges the job exactly when it is an orphan the store accepts. */
  lemma {:induction false} TurnUndisturbed(d: B.Delays, faulty: bool, turn: Turn, start: DB, before: set<JobId>,
                                           j: JobId, outOfRange: int, t1: Time, t2: Time, t3: Time)
    requires d.Valid() && TurnOk(d, faulty, turn, j, outOfRange, t1, t2, t3)
    requires turn.atWorker == turn.atLogs && turn.atCharge == turn.atLogs
    requires ReclaimedFrom(start, turn.atLogs, before) && j !in before && IsRunning(start, j)
    requires forall k | 0 <= k < |start.logs| :: start.logs[k].startedAt <= t3
    ensures turn.verdict.Hit? ==> Reclaimable(start, j) && Reclaimable(turn.atLogs, j)
    ensures turn.after == TurnResult(d, turn.atLogs, j, turn.verdict.Hit?, outOfRange, t1, t2, t3)
    ensures ReclaimedFrom(start, turn.after, if turn.verdict.Hit? then before + {j} else before)
    ensures !faulty ==> turn.verdict.Hit? == Reclaimable(start, j)
  {
    OthersLookTheSame(start, turn.atLogs, before, j);
    if turn.verdict.Hit? {
      OneMoreCharged(start, turn.atLogs, before, j,
        B.Calculate(d, turn.atLogs.jobs[j].retriesCount + 1, outOfRange), t1, t2, t3);
    }
  }

  /** What the turns of a loop over the listed jobs have to show. */
  ghost predicate TurnsOk(d: B.Delays, faulty: bool, listed: seq<JobId>, turns: seq<Turn>, ticks: nat -> Time,
                          outOfRange: int)
    requires d.Valid()
  {
    && |turns| <= |listed|
    && forall i | 0 <= i < |turns| ::
         TurnOk(d, faulty, turns[i], listed[i], outOfRange, ticks(3 * i + 1), ticks(3 * i + 2), ticks(3 * i + 3))
  }

  lemma {:induction false} TurnsNext(d: B.Delays, faulty: bool, listed: seq<JobId>, turns: seq<Turn>,
                                     ticks: nat -> Time, outOfRange: int, turn: Turn)
    requires d.Valid() && TurnsOk(d, faulty, listed, turns, ticks, outOfRange) && |turns| < |listed|
    requires var i := |turns|;
             TurnOk(d, faulty, turn, listed[i], outOfRange, ticks(3 * i + 1), ticks(3 * i + 2), ticks(3 * i + 3))
    ensures TurnsOk(d, faulty, listed, turns + [turn], ticks, outOfRange)
  {
  }

  /** What the undisturbed loop has to show for the first i of the listed jobs, on tables `now`. */
  ghost predicate LoopDone(d: B.Delays, faulty: bool, start: DB, now: DB, listed: seq<JobId>, i: nat,
                           charged: set<JobId>, hits: seq<bool>, ticks: nat -> Time, outOfRange: int)
    requires i <= |listed|
  {
    && ReclaimedFrom(start, now, charged) && Processed(start, listed, i, charged, !faulty)
    && |hits| == i && PassOk(d, start, listed, hits, ticks, outOfRange)
    && now == PassResult(d, start, listed, hits, ticks, outOfRange)
  }

  lemma {:induction false} LoopBegins(d: B.Delays, faulty: bool, start: DB, listed: seq<JobId>, ticks: nat -> Time,
                                      outOfRange: int)
    requires d.Valid()
    ensures LoopDone(d, faulty, start, start, listed, 0, {}, [], ticks, outOfRange)
  {
  }

  /** One more undisturbed turn. */
  lemma {:induction false} LoopNext(d: B.Delays, faulty: bool, start: DB, turn: Turn, listed: seq<JobId>, i: nat,
                                    charged: set<JobId>, hits: seq<bool>, ticks: nat -> Time, outOfRange: int)
    requires i < |listed| && LoopDone(d, faulty, start, turn.atLogs, listed, i, charged, hits, ticks, outOfRange)
    requires forall k: nat, n: nat | k <= n :: ticks(k) <= ticks(n)
    requires forall k | 0 <= k < |start.logs| :: start.logs[k].startedAt <= ticks(0)
    requires forall k, n | 0 <= k < n < |listed| :: listed[k] != listed[n]
    requires IsRunning(start, listed[i])
    requires turn.atWorker == turn.atLogs && turn.atCharge == turn.atLogs
    requires TurnOk(d, faulty, turn, listed[i], outOfRange, ticks(3 * i + 1), ticks(3 * i + 2), ticks(3 * i + 3))
    ensures LoopDone(d, faulty, start, turn.after, listed, i + 1,
                     if turn.verdict.Hit? then charged + {listed[i]} else charged, hits + [turn.verdict.Hit?],
                     ticks, outOfRange)
  {
    assert ticks(0) <= ticks(3 * i + 3);
    TurnUndisturbed(d, faulty, turn, start, charged, listed[i], outOfRange,
                    ticks(3 * i + 1), ticks(3 * i + 2), ticks(3 * i + 3));
    PassNext(d, start, listed, hits, ticks, outOfRange, turn.verdict.Hit?);
    ProcessedNext(start, listed, i, charged, if turn.verdict.Hit? then charged + {listed[i]} else charged, !faulty);
  }

  lemma {:induction false} ListedRun(jobs: map<JobId, JobRow>, listed: seq<JobId>)
    requires IsListing(jobs, "", Some(Running), "", RECLAIM_LIMIT, listed)
    ensures forall i, n | 0 <= i < n < |listed| :: listed[i] != listed[n]
    ensures forall i | 0 <= i < |listed| :: listed[i] in jobs && jobs[listed[i]].status == Running
  {
  }

  class RetryEngine {
    const delays: B.Delays

    constructor (delays: B.Delays)
      requires delays.Valid()
      ensures this.delays == delays
    {
      this.delays := delays;
    }

    /** Charges one failure to the job: schedules it again, or leaves it for the dead-letter router. */
    method HandleFailure(job: Job, message: string, now: Time, outOfRange: int) returns (delay: Duration, retry: bool)
      requires delays.Valid()
      modifies job
      ensures retry <==> old(job.retriesCount) + 1 <= old(job.maxRetries)
      ensures retry ==>
        && delay == B.Calculate(delays, old(job.retriesCount) + 1, outOfRange)
        && job.Row() == old(job.Row()).(retriesCount := old(job.retriesCount) + 1, errorMessage := message,
                                        status := Pending, runAt := now + delay)
      ensures !retry ==>
        job.Row() == old(job.Row()).(retriesCount := old(job.retriesCount) + 1, errorMessage := message)
    {
      job.retriesCount := job.retriesCount + 1;
      job.errorMessage := message;
      if job.retriesCount > job.maxRetries {
        return 0, false;
      }
      delay := B.Calculate(delays, job.retriesCount, outOfRange);
      job.status := Pending;
      job.runAt := now + delay;
      return delay, true;
    }
  }

  class JobService {
    const store: Store
    const engine: RetryEngine
    const sched: EventScheduler
    const defaultMaxRetries: int

    constructor (store: Store, engine: RetryEngine, sched: EventScheduler, defaultMaxRetries: int)
      requires engine.delays.Valid()
      ensures this.store == store && this.engine == engine && this.sched == sched
      ensures this.defaultMaxRetries == defaultMaxRetries
    {
      this.store, this.engine, this.sched := store, engine, sched;
      this.defaultMaxRetries := defaultMaxRetries;
    }

    ghost predicate Ready()
      reads this, store, sched
    {
      store.Ready() && sched.Valid() && engine.delays.Valid()
    }

    /** Stores a new pending job and wakes the workers. */
    method Enqueue(id: JobId, jobType: string, payload: string, validPayload: bool, queue: string, priority: int,
                   runAt: Option<Time>, maxRetries: int, now: Time) returns (r: Result<Job>)
      requires Ready()
      modifies store, sched
      ensures Ready()
      ensures r.Ok? ==>
        && fresh(r.value) && IsNewJob(r.value.Row()) && id !in old(store.jobs)
        && store.State() == old(store.State()).(jobs := old(store.jobs)[id := r.value.Row()])
        && r.value.id == id && r.value.createdAt == now
        && r.value.queue == (if queue == "" then "default" else queue)
        && r.value.runAt == (if runAt.Some? then runAt.value else now)
        && r.value.maxRetries == (if maxRetries <= 0 then defaultMaxRetries else maxRetries)
        && r.value.jobType == jobType && r.value.payload == payload && r.value.priority == priority
        && r.value.status == Pending && r.value.retriesCount == 0 && r.value.errorMessage == ""
        && r.value.updatedAt == now
        && sched.buffered == 1
      ensures r.Err? ==> store.State() == old(store.State()) && sched.buffered == old(sched.buffered)
      ensures r.Err? ==> jobType == "" || !validPayload || id == "" || id in store.jobs || store.faulty
                         || (maxRetries <= 0 && defaultMaxRetries < 0)
    {
      if jobType == "" || !validPayload {
        return Err(Invalid);
      }
      var q := if queue == "" then "default" else queue;
      var at := if runAt.Some? then runAt.value else now;
      var retries := if maxRetries <= 0 then defaultMaxRetries else maxRetries;
      r := NewJob(id, jobType, payload, q, priority, retries, Some(at), now);
      if r.Ok? {
        var inserted := store.InsertJob(r.value);
        if inserted.Err? {
          return Err(inserted.error);
        }
        sched.Notify();
      }
    }

    /** Takes the next eligible job and opens its execution log, both or neither. */
    method FetchNextJob(queue: string, workerId: WorkerId, logId: LogId, t1: Time, t2: Time)
      returns (r: Result<Option<Job>>)
      requires Ready()
      modifies store
      ensures Ready()
      ensures r.Ok? && r.value.None? ==> store.State() == old(store.State()) && NoneEligible(store.jobs, queue, t1)
      ensures r.Ok? && r.value.Some? ==>
        var job := r.value.value;
        && fresh(job) && workerId != "" && LogIdUnused(old(store.logs), logId)
        && IsNext(old(store.jobs), queue, t1, job.id)
        && store.State() == Fetched(old(store.State()), job.id, workerId, logId, t1, t2)
        && job.Row() == store.jobs[job.id] && job.status == Running
      // the same, column by column
      ensures r.Ok? && r.value.None? ==>
        forall i | i in store.jobs :: !(store.jobs[i].queue == queue && store.jobs[i].status == Pending
                                        && store.jobs[i].runAt <= t1)
      ensures r.Ok? && r.value.Some? ==>
        var j, jobs := r.value.value.id, old(store.jobs);
        && j in jobs && jobs[j].queue == queue && jobs[j].status == Pending && jobs[j].runAt <= t1
        && (forall i | i in jobs && jobs[i].queue == queue && jobs[i].status == Pending && jobs[i].runAt <= t1 ::
              && jobs[i].priority <= jobs[j].priority
              && (jobs[i].priority == jobs[j].priority ==> jobs[j].runAt <= jobs[i].runAt)
              && (jobs[i].priority == jobs[j].priority && jobs[i].runAt == jobs[j].runAt ==>
                    jobs[j].createdAt <= jobs[i].createdAt))
        && store.jobs == jobs[j := jobs[j].(status := Running, updatedAt := t1)]
        && store.logs == old(store.logs)
             + [LogRow(logId, j, workerId, jobs[j].retriesCount + 1, ExecutionFailed, t2, None, "")]
        && store.workers == old(store.workers)
      ensures r.Err? ==> store.State() == old(store.State())
      ensures r.Err? ==>
        || workerId == "" || !LogIdUnused(store.logs, logId) || store.faulty
        || (exists j :: j in store.jobs && (store.jobs[j].retriesCount < 0 || j == ""))
    {
      if workerId == "" {
        return Err(Invalid);
      }
      var began := store.Begin();
      if !began {
        return Err(StoreFault);
      }
      ghost var before := store.State();
      r := AcquireAndLog(queue, workerId, logId, t1, t2);
      if r.Ok? && r.value.Some? {
        NextIff(before.jobs, queue, t1, r.value.value.id);
      }
      if r.Err? {
        store.Rollback();
      } else {
        var committed := store.Commit();
        if !committed {
          return Err(StoreFault);
        }
      }
    }

    /** Body of the fetch transaction. */
    method AcquireAndLog(queue: string, workerId: WorkerId, logId: LogId, t1: Time, t2: Time)
      returns (r: Result<Option<Job>>)
      requires store.Valid() && store.inTx && workerId != ""
      modifies store
      ensures store.Valid() && store.inTx && store.saved == old(store.saved)
      ensures r.Ok? && r.value.None? ==> store.State() == old(store.State()) && NoneEligible(store.jobs, queue, t1)
      ensures r.Ok? && r.value.Some? ==>
        var job := r.value.value;
        && fresh(job) && LogIdUnused(old(store.logs), logId) && IsNext(old(store.jobs), queue, t1, job.id)
        && store.State() == Fetched(old(store.State()), job.id, workerId, logId, t1, t2)
        && job.Row() == store.jobs[job.id] && job.status == Running
      ensures r.Err? ==>
        || !LogIdUnused(old(store.logs), logId) || store.faulty
        || (exists j :: j in old(store.jobs) && (old(store.jobs)[j].retriesCount < 0 || j == ""))
    {
      r := store.AcquireNextPendingJob(queue, t1);
      if r.Err? || r.value.None? {
        return;
      }
      var job := r.value.value;
      var log := NewExecutionLog(logId, job.id, workerId, job.retriesCount + 1, Some(t2), t2);
      if log.Err? {
        return Err(log.error);
      }
      var inserted := store.InsertLog(log.value);
      if inserted.Err? {
        return Err(inserted.error);
      }
    }

    /** Completes a running job. Who is running it is not checked; only the log of the caller is closed. */
    method HandleJobSuccess(job: Job?, workerId: WorkerId, t1: Time, t2: Time) returns (r: Result<()>)
      requires Ready()
      modifies store, if job == null then {} else {job}
      ensures Ready()
      ensures r.Ok? ==>
        && job != null && old(job.status) == Running
        && var latest := LatestOf(old(store.logs), old(job.id));
           && SuccessAccepted(old(store.State()), old(job.id), workerId, latest, t2)
           && store.State() == Succeeded(old(store.State()), old(job.id), workerId, latest, t1, t2)
           && job.Row() == store.jobs[old(job.id)]
      ensures r.Ok? ==>
        var j, jobs, logs, k := old(job.id), old(store.jobs), old(store.logs), LatestOf(old(store.logs), old(job.id));
        && j in jobs && jobs[j].status == Running
        && store.jobs == jobs[j := jobs[j].(status := Completed, errorMessage := "", updatedAt := t1)]
        && store.logs == (if k.Some? && logs[k.value].workerId == workerId && logs[k.value].finishedAt.None?
                          then logs[k.value := logs[k.value].(status := ExecutionSuccess, finishedAt := Some(t2),
                                                              errorMessage := "")]
                          else logs)
        && store.workers == old(store.workers)
      ensures r.Err? ==> store.State() == old(store.State())
      ensures r.Err? && !store.faulty && job != null && old(job.status) == Running ==>
        !SuccessAccepted(old(store.State()), old(job.id), workerId, LatestOf(old(store.logs), old(job.id)), t2)
      ensures (job != null && old(job.status) == Running && !store.faulty && old(job.id) in old(store.jobs)
               && old(store.jobs)[old(job.id)].status != Running) ==> r == Err(AlreadyReclaimed)
    {
      if job == null || job.status != Running {
        return Err(Invalid);
      }
      var began := store.Begin();
      if !began {
        return Err(StoreFault);
      }
      r := CompleteInTx(job, workerId, t1, t2);
      if r.Err? {
        store.Rollback();
      } else {
        var committed := store.Commit();
        if !committed {
          return Err(StoreFault);
        }
      }
    }

    /** Body of the success transaction. */
    method CompleteInTx(job: Job, workerId: WorkerId, t1: Time, t2: Time) returns (r: Result<()>)
      requires store.Valid() && store.inTx
      modifies store`jobs, store`logs, job
      ensures store.Valid()
      ensures r.Ok? ==>
        var latest := LatestOf(old(store.logs), old(job.id));
        && SuccessAccepted(old(store.State()), old(job.id), workerId, latest, t2)
        && store.State() == Succeeded(old(store.State()), old(job.id), workerId, latest, t1, t2)
        && job.Row() == store.jobs[old(job.id)]
      ensures r.Err? && !store.faulty ==>
        !SuccessAccepted(old(store.State()), old(job.id), workerId, LatestOf(old(store.logs), old(job.id)), t2)
      ensures !store.faulty && old(job.id) in old(store.jobs) && old(store.jobs)[old(job.id)].status != Running
              ==> r == Err(AlreadyReclaimed)
    {
      var loaded := store.GetJob(job.id);
      if loaded.Err? {
        return Err(loaded.error);
      }
      var latestJob := loaded.value;
      if latestJob.status != Running {
        return Err(AlreadyReclaimed);
      }
      latestJob.status := Completed;
      latestJob.errorMessage := "";
      var updated := store.UpdateJob(latestJob, t1);
      if updated.Err? {
        return Err(updated.error);
      }
      var closed := CloseLatestLog(latestJob.id, workerId, false, ExecutionSuccess, t2, "");
      if closed.Err? {
        return closed;
      }
      job.Assign(latestJob);
      return Ok(());
    }

    /** Reads the logs of the job and completes the last one, if it is the worker's and still open. */
    method CloseLatestLog(jobId: JobId, workerId: WorkerId, anyWorker: bool, outcome: ExecutionStatus, now: Time,
                          message: string) returns (r: Result<()>)
      requires store.Valid()
      modifies store`logs
      ensures store.Valid()
      ensures r.Ok? ==>
        var latest := LatestOf(old(store.logs), jobId);
        && ClosableAt(old(store.logs), latest, workerId, anyWorker, now)
        && store.logs == CloseLatest(old(store.logs), latest, workerId, anyWorker, outcome, now, message)
      ensures r.Err? ==> store.logs == old(store.logs)
      ensures r.Err? && !store.faulty ==>
        !ClosableAt(old(store.logs), LatestOf(old(store.logs), jobId), workerId, anyWorker, now)
    {
      var logs := store.GetLogs(jobId);
      if logs.Err? {
        return Err(logs.error);
      }
      if |logs.value| > 0 {
        var latestLog := logs.value[|logs.value| - 1];
        ghost var k := LatestOf(store.logs, jobId).value;
        assert latestLog.Row() == store.logs[k];
        if (anyWorker || latestLog.workerId == workerId) && latestLog.finishedAt.None? {
          var ok := latestLog.Complete(Some(outcome), Some(now), now, message);
          if !ok {
            return Err(Invalid);
          }
          assert store.logs[k].id == latestLog.id;
          var updated := store.UpdateLog(latestLog);
          if updated.Err? {
            return Err(updated.error);
          }
        }
      }
      return Ok(());
    }

    /** Records a failed attempt: retries or dead-letters the job and closes the attempt's log. */
    method HandleJobFailure(job: Job?, workerId: WorkerId, failure: Option<string>, outOfRange: int,
                            t1: Time, t2: Time, t3: Time) returns (r: Result<()>)
      requires Ready()
      modifies store, if job == null then {} else {job}
      ensures Ready()
      ensures r.Ok? ==>
        && job != null && failure.Some? && old(job.status) == Running
        && var db, j := old(store.State()), old(job.id);
           && FailureAccepted(db, j, workerId, LatestOf(db.logs, j), t3)
           && store.State() == Charged(db, j, workerId, LatestOf(db.logs, j), failure.value,
                B.Calculate(engine.delays, db.jobs[j].retriesCount + 1, outOfRange), t1, t2, t3)
           && job.Row() == store.jobs[j]
      ensures r.Ok? ==>
        var j, jobs, logs, k := old(job.id), old(store.jobs), old(store.logs), LatestOf(old(store.logs), old(job.id));
        && j in jobs && jobs[j].status == Running
        && var n := jobs[j].retriesCount + 1;
           && store.jobs == jobs[j :=
                if n > jobs[j].maxRetries
                then jobs[j].(status := DeadLetter, retriesCount := n, errorMessage := failure.value, updatedAt := t2)
                else jobs[j].(status := Pending, retriesCount := n, errorMessage := failure.value, updatedAt := t2,
                              runAt := t1 + B.Calculate(engine.delays, n, outOfRange))]
           && store.logs == (if k.Some? && (workerId == "" || logs[k.value].workerId == workerId)
                                && logs[k.value].finishedAt.None?
                             then logs[k.value := logs[k.value].(status := ExecutionFailed, finishedAt := Some(t3),
                                                                 errorMessage := failure.value)]
                             else logs)
           && store.workers == old(store.workers)
      ensures r.Err? ==> store.State() == old(store.State())
      ensures r.Err? && !store.faulty && job != null && failure.Some? && old(job.status) == Running ==>
        !FailureAccepted(old(store.State()), old(job.id), workerId, LatestOf(old(store.logs), old(job.id)), t3)
    {
      if job == null || failure.None? || job.status != Running {
        return Err(Invalid);
      }
      var began := store.Begin();
      if !began {
        return Err(StoreFault);
      }
      r := FailInTx(job, workerId, failure.value, outOfRange, t1, t2, t3);
      if r.Err? {
        store.Rollback();
      } else {
        var committed := store.Commit();
        if !committed {
          return Err(StoreFault);
        }
      }
    }

    /** Body of the failure transaction. */
    method FailInTx(job: Job, workerId: WorkerId, failure: string, outOfRange: int, t1: Time, t2: Time, t3: Time)
      returns (r: Result<()>)
      requires store.Valid() && store.inTx && engine.delays.Valid()
      modifies store`jobs, store`logs, job
      ensures store.Valid()
      ensures r.Ok? ==>
        var db, j := old(store.State()), old(job.id);
        && FailureAccepted(db, j, workerId, LatestOf(db.logs, j), t3)
        && store.State() == Charged(db, j, workerId, LatestOf(db.logs, j), failure,
             B.Calculate(engine.delays, db.jobs[j].retriesCount + 1, outOfRange), t1, t2, t3)
        && job.Row() == store.jobs[j]
      ensures r.Err? && !store.faulty ==>
        !FailureAccepted(old(store.State()), old(job.id), workerId, LatestOf(old(store.logs), old(job.id)), t3)
    {
      var loaded := store.GetJob(job.id);
      if loaded.Err? {
        return Err(loaded.error);
      }
      var latestJob := loaded.value;
      if latestJob.status != Running {
        return Err(AlreadyReclaimed);
      }
      if workerId != "" {
        var owned := CheckOwner(latestJob.id, workerId);
        if owned.Err? {
          return owned;
        }
      }
      r := ChargeAndClose(latestJob, workerId, failure, outOfRange, t1, t2, t3);
      if r.Ok? {
        job.Assign(latestJob);
      }
    }

    /** The writes of the failure transaction, once the caller may charge the job. */
    method ChargeAndClose(latestJob: Job, workerId: WorkerId, failure: string, outOfRange: int,
                          t1: Time, t2: Time, t3: Time) returns (r: Result<()>)
      requires store.Valid() && engine.delays.Valid()
      requires latestJob.id in store.jobs && latestJob.Row() == store.jobs[latestJob.id]
      modifies store`jobs, store`logs, latestJob
      ensures store.Valid()
      ensures r.Ok? ==>
        var db, j := old(store.State()), old(latestJob.id);
        && ClosableAt(db.logs, LatestOf(db.logs, j), workerId, workerId == "", t3)
        && store.State() == Charged(db, j, workerId, LatestOf(db.logs, j), failure,
             B.Calculate(engine.delays, db.jobs[j].retriesCount + 1, outOfRange), t1, t2, t3)
        && latestJob.Row() == store.jobs[j]
      ensures r.Err? && !store.faulty ==>
        !ClosableAt(old(store.logs), LatestOf(old(store.logs), old(latestJob.id)), workerId, workerId == "", t3)
    {
      var charged := ChargeRow(latestJob, failure, outOfRange, t1, t2);
      if charged.Err? {
        return charged;
      }
      r := CloseLatestLog(latestJob.id, workerId, workerId == "", ExecutionFailed, t3, latestJob.errorMessage);
    }

    /** The attempt must still be open and belong to the worker, when there is any log at all. */
    method CheckOwner(jobId: JobId, workerId: WorkerId) returns (r: Result<()>)
      requires store.Valid() && workerId != ""
      ensures r.Ok? ==> OwnsLatest(store.logs, workerId, LatestOf(store.logs, jobId))
      ensures r.Err? && !store.faulty ==> !OwnsLatest(store.logs, workerId, LatestOf(store.logs, jobId))
    {
      var logs := store.GetLogs(jobId);
      if logs.Err? {
        return Err(logs.error);
      }
      if |logs.value| > 0 {
        var latestLog := logs.value[|logs.value| - 1];
        assert latestLog.Row() == store.logs[LatestOf(store.logs, jobId).value];
        if latestLog.workerId != workerId || latestLog.finishedAt.Some? {
          return Err(AlreadyReclaimed);
        }
      }
      return Ok(());
    }

    /** Lets the retry engine decide and writes its decision, through the router when retries are used up. */
    method ChargeRow(latestJob: Job, failure: string, outOfRange: int, t1: Time, t2: Time) returns (r: Result<()>)
      requires store.Valid() && engine.delays.Valid()
      requires latestJob.id in store.jobs && latestJob.Row() == store.jobs[latestJob.id]
      modifies store`jobs, latestJob
      ensures store.Valid()
      ensures r.Ok? ==>
        var j := old(latestJob.id);
        && store.jobs == old(store.jobs)[j := ChargedRow(old(store.jobs)[j], failure,
             B.Calculate(engine.delays, old(latestJob.retriesCount) + 1, outOfRange), t1, t2)]
        && latestJob.Row() == store.jobs[j]
      ensures r.Ok? ==>
        var j, row, n := old(latestJob.id), old(latestJob.Row()), old(latestJob.retriesCount) + 1;
        && j in store.jobs
        && store.jobs[j] ==
           if n > row.maxRetries
           then row.(status := DeadLetter, retriesCount := n, errorMessage := failure, updatedAt := t2)
           else row.(status := Pending, retriesCount := n, errorMessage := failure, updatedAt := t2,
                     runAt := t1 + B.Calculate(engine.delays, n, outOfRange))
      ensures r.Err? ==> store.faulty
    {
      var delay, retry := engine.HandleFailure(latestJob, failure, t1, outOfRange);
      if retry {
        r := store.UpdateJob(latestJob, t2);
      } else {
        r := Route(store, latestJob, Some(failure), t2);
      }
    }

    // ---- reclaim ----

    /**
      Checks one listed job against the workers table and fails it when its worker is gone. Others may commit
      between the three statements.
      */
    method ReclaimOne(job: Job, outOfRange: int, t1: Time, t2: Time, t3: Time)
      returns (charged: bool, ghost turn: Turn)
      requires Ready() && job.status == Running
      modifies store, sched, job
      ensures Ready() && turn.atLogs == old(store.State()) && turn.after == store.State()
      ensures TurnOk(engine.delays, store.faulty, turn, old(job.id), outOfRange, t1, t2, t3)
      ensures charged <==> turn.verdict.Hit?
      ensures turn.verdict.Alive? || turn.verdict.Hit? || turn.verdict.Refused? ==>
        var k, logs, workers := LatestOf(turn.atLogs.logs, old(job.id)), turn.atLogs.logs, turn.atWorker.workers;
        turn.verdict.Alive? <==>
        k.Some? && logs[k.value].workerId in workers && workers[logs[k.value].workerId].status != Stopped
      ensures charged && job.status == Pending ==> sched.buffered == 1
      ensures !store.shared ==> turn.atWorker == turn.atLogs && turn.atCharge == turn.atLogs
    {
      charged := false;
      turn := Turn(store.State(), store.State(), store.State(), store.State(), LogsFailed);
      var logs := store.GetLogs(job.id);
      if logs.Err? {
        return;
      }
      var deadWorker, isStale := "", true;
      if |logs.value| > 0 {
        deadWorker := logs.value[|logs.value| - 1].workerId;
        assert logs.value[|logs.value| - 1].Row() == store.logs[LatestOf(store.logs, job.id).value];
        store.Yield();
        turn := Turn(turn.atLogs, store.State(), store.State(), store.State(), WorkerFailed);
        var gone := WorkerGone(deadWorker);
        if gone.Err? {
          return;
        }
        isStale := gone.value;
      }
      assert deadWorker == OwnerOf(turn.atLogs.logs, job.id);
      if isStale {
        ghost var atCharge;
        charged, atCharge := FailAndNotify(job, deadWorker, outOfRange, t1, t2, t3);
        turn := Turn(turn.atLogs, turn.atWorker, atCharge, store.State(), if charged then Hit else Refused);
      } else {
        turn := turn.(verdict := Alive);
      }
    }

    /** The worker query: not found counts as gone, any other error as a failing query. */
    method WorkerGone(id: WorkerId) returns (r: Result<bool>)
      requires Ready()
      ensures r.Ok? ==> r.value == (id !in store.workers || store.workers[id].status == Stopped)
      ensures r.Err? ==> store.faulty
    {
      var worker := store.GetWorker(id);
      if worker.Err? {
        if worker.error != NotFound {
          return Err(worker.error);
        }
        return Ok(true);
      }
      return Ok(worker.value.status == Stopped);
    }

    /** The failure call of a reclaimer, on the tables it meets, and the wake-up after it. */
    method FailAndNotify(job: Job, deadWorker: WorkerId, outOfRange: int, t1: Time, t2: Time, t3: Time)
      returns (charged: bool, ghost atCharge: DB)
      requires Ready() && job.status == Running
      modifies store, sched, job
      ensures Ready() && (!store.shared ==> atCharge == old(store.State()))
      ensures var j := old(job.id);
        if charged then
          && FailureAccepted(atCharge, j, deadWorker, LatestOf(atCharge.logs, j), t3)
          && store.State() == Charged(atCharge, j, deadWorker, LatestOf(atCharge.logs, j), RECLAIM_MESSAGE,
               B.Calculate(engine.delays, atCharge.jobs[j].retriesCount + 1, outOfRange), t1, t2, t3)
        else
          && (store.faulty || !FailureAccepted(atCharge, j, deadWorker, LatestOf(atCharge.logs, j), t3))
          && store.State() == atCharge
      ensures charged && job.status == Pending ==> sched.buffered == 1
    {
      store.Yield();
      atCharge := store.State();
      var r := HandleJobFailure(job, deadWorker, Some(RECLAIM_MESSAGE), outOfRange, t1, t2, t3);
      charged := r.Ok?;
      if charged && job.status == Pending {
        sched.Notify();
      }
    }

    /** The loop over the listed jobs, from the tables as they were when the list was read. */
    method ReclaimAll(jobs: seq<Job>, ticks: nat -> Time, outOfRange: int, ghost listed: seq<JobId>)
      returns (ghost charged: set<JobId>, ghost hits: seq<bool>, ghost turns: seq<Turn>)
      requires Ready()
      requires forall i: nat, n: nat | i <= n :: ticks(i) <= ticks(n)
      requires !store.shared ==> forall k | 0 <= k < |store.logs| :: store.logs[k].startedAt <= ticks(0)
      requires |jobs| == |listed| && forall i, n | 0 <= i < n < |jobs| :: jobs[i] != jobs[n] && listed[i] != listed[n]
      requires forall i | 0 <= i < |jobs| ::
                 IsRunning(store.State(), listed[i]) && jobs[i].Row() == store.jobs[listed[i]]
      modifies store, sched, jobs
      ensures Ready() && |turns| == |listed|
      ensures TurnsOk(engine.delays, store.faulty, listed, turns, ticks, outOfRange)
      ensures !store.shared ==>
        LoopDone(engine.delays, store.faulty, old(store.State()), store.State(), listed, |listed|, charged, hits,
                 ticks, outOfRange)
    {
      charged, hits, turns := {}, [], [];
      ghost var start := store.State();
      LoopBegins(engine.delays, store.faulty, start, listed, ticks, outOfRange);
      assert forall i | 0 <= i < |jobs| :: jobs[i].id == listed[i];
      for i := 0 to |jobs|
        invariant Ready() && |turns| == i && TurnsOk(engine.delays, store.faulty, listed, turns, ticks, outOfRange)
        invariant !store.shared ==>
          LoopDone(engine.delays, store.faulty, start, store.State(), listed, i, charged, hits, ticks, outOfRange)
        invariant forall n | i <= n < |jobs| :: jobs[n].id == listed[n] && jobs[n].status == Running
      {
        charged, hits, turns := ReclaimTurn(jobs[i], ticks, outOfRange, start, listed, i, charged, hits, turns);
      }
    }

    /** One turn of the loop, after whatever others have committed since the last one. */
    method ReclaimTurn(job: Job, ticks: nat -> Time, outOfRange: int, ghost start: DB, ghost listed: seq<JobId>,
                       i: nat, ghost before: set<JobId>, ghost done: seq<bool>, ghost past: seq<Turn>)
      returns (ghost charged: set<JobId>, ghost hits: seq<bool>, ghost turns: seq<Turn>)
      requires Ready() && i < |listed| && job.id == listed[i] && job.status == Running
      requires |past| == i && TurnsOk(engine.delays, store.faulty, listed, past, ticks, outOfRange)
      requires !store.shared ==>
        && LoopDone(engine.delays, store.faulty, start, store.State(), listed, i, before, done, ticks, outOfRange)
        && (forall k | 0 <= k < |start.logs| :: start.logs[k].startedAt <= ticks(0)) && IsRunning(start, listed[i])
      requires forall k: nat, n: nat | k <= n :: ticks(k) <= ticks(n)
      requires forall k, n | 0 <= k < n < |listed| :: listed[k] != listed[n]
      modifies store, sched, job
      ensures Ready() && |turns| == i + 1 && TurnsOk(engine.delays, store.faulty, listed, turns, ticks, outOfRange)
      ensures !store.shared ==>
        LoopDone(engine.delays, store.faulty, start, store.State(), listed, i + 1, charged, hits, ticks, outOfRange)
    {
      store.Yield();
      var hit;
      ghost var turn;
      hit, turn := ReclaimOne(job, outOfRange, ticks(3 * i + 1), ticks(3 * i + 2), ticks(3 * i + 3));
      if !store.shared {
        LoopNext(engine.delays, store.faulty, start, turn, listed, i, before, done, ticks, outOfRange);
      }
      TurnsNext(engine.delays, store.faulty, listed, past, ticks, outOfRange, turn);
      charged, hits := if hit then before + {listed[i]} else before, done + [hit];
      turns := past + [turn];
    }

    /**
      One pass: prunes silent workers, lists the running jobs and fails those whose worker is gone. Others may
      commit between any two statements; `atList` are the tables the list was read from and `turns` what happened
      to each listed job. `ticks` are the successive readings of the clock. Undisturbed, `charged` names the jobs
      that were failed.
      */
    method ReclaimOrphanedJobs(ticks: nat -> Time, outOfRange: int)
      returns (r: Result<()>, ghost listed: seq<JobId>, ghost charged: set<JobId>, ghost hits: seq<bool>,
               ghost atList: DB, ghost turns: seq<Turn>)
      requires Ready()
      requires forall i: nat, n: nat | i <= n :: ticks(i) <= ticks(n)
      requires !store.shared ==> forall k | 0 <= k < |store.logs| :: store.logs[k].startedAt <= ticks(0)
      modifies store, sched
      ensures Ready()
      ensures r.Err? ==> store.faulty && charged == {} && store.State() == atList
      ensures r.Err? && !store.shared ==>
        store.State() == old(store.State()) || store.State() == Pruned(old(store.State()), ticks(0), STALE_AFTER)
      ensures r.Ok? ==>
        && IsListing(atList.jobs, "", Some(Running), "", 1000, listed)
        && |turns| == |listed| && TurnsOk(engine.delays, store.faulty, listed, turns, ticks, outOfRange)
      ensures r.Ok? && !store.shared ==>
        && atList == Pruned(old(store.State()), ticks(0), STALE_AFTER)
        && LoopDone(engine.delays, store.faulty, atList, store.State(), listed, |listed|, charged, hits,
                    ticks, outOfRange)
    {
      listed, charged, hits, atList, turns := [], {}, [], store.State(), [];
      var pruned := store.PruneStale(STALE_AFTER, ticks(0));
      if pruned.Err? {
        return Err(pruned.error), [], {}, [], atList, [];
      }
      store.Yield();
      atList := store.State();
      var running;
      running, listed := store.ListJobs("", Some(Running), "", RECLAIM_LIMIT);
      if running.Err? {
        return Err(running.error), listed, {}, [], atList, [];
      }
      ListedRun(atList.jobs, listed);
      charged, hits, turns := ReclaimAll(running.value, ticks, outOfRange, listed);
      return Ok(()), listed, charged, hits, atList, turns;
    }
  }
}
