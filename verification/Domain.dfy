/** Entities of the queue: rows of the three tables, and the in-memory objects the services mutate. */
module Domain {

  type JobId = string
  type WorkerId = string
  type LogId = string
  /** Nanoseconds on the shared clock. */
  type Time = int
  type Duration = int

  datatype Option<+T> = None | Some(value: T)

  datatype Error =
    | StoreFault        // the database reported an error
    | NotFound
    | Conflict          // version check of an update failed
    | AlreadyReclaimed  // the job was moved by somebody else
    | Invalid           // an argument or a state check failed

  datatype Result<+T> = Ok(value: T) | Err(error: Error)

  datatype JobStatus = Pending | Running | Completed | Failed | DeadLetter

  /** A row of the jobs table. */
  datatype JobRow = JobRow(
    id: JobId,
    jobType: string,
    payload: string,
    queue: string,
    status: JobStatus,
    priority: int,
    maxRetries: int,
    retriesCount: int,
    errorMessage: string,
    runAt: Time,
    createdAt: Time,
    updatedAt: Time)

  datatype ExecutionStatus = ExecutionSuccess | ExecutionFailed

  /** A row of the execution_logs table. `finishedAt` is None while Go's zero time is stored. */
  datatype LogRow = LogRow(
    id: LogId,
    jobId: JobId,
    workerId: WorkerId,
    attempt: int,
    status: ExecutionStatus,
    startedAt: Time,
    finishedAt: Option<Time>,
    errorMessage: string)

  datatype WorkerStatus = Active | Idle | Stopped

  /** A row of the workers table. */
  datatype WorkerRow = WorkerRow(
    id: WorkerId,
    hostname: string,
    queue: string,
    concurrency: int,
    status: WorkerStatus,
    startedAt: Time,
    lastHeartbeat: Time)

  /** The row NewJob builds: pending, no retries, created and updated at the same instant. */
  predicate IsNewJob(row: JobRow) {
    && row.id != "" && row.jobType != "" && row.queue != ""
    && row.status == Pending
    && row.maxRetries >= 0 && row.retriesCount == 0
    && row.createdAt == row.updatedAt
  }

  /** In-memory job: a private copy of a row that a caller mutates and then writes back. */
  class Job {
    var id: JobId
    var jobType: string
    var payload: string
    var queue: string
    var status: JobStatus
    var priority: int
    var maxRetries: int
    var retriesCount: int
    var errorMessage: string
    var runAt: Time
    var createdAt: Time
    var updatedAt: Time

    constructor (row: JobRow)
      ensures Row() == row
    {
      id := row.id;
      jobType := row.jobType;
      payload := row.payload;
      queue := row.queue;
      status := row.status;
      priority := row.priority;
      maxRetries := row.maxRetries;
      retriesCount := row.retriesCount;
      errorMessage := row.errorMessage;
      runAt := row.runAt;
      createdAt := row.createdAt;
      updatedAt := row.updatedAt;
    }

    function Row(): JobRow
      reads this
    {
      JobRow(id, jobType, payload, queue, status, priority, maxRetries, retriesCount,
             errorMessage, runAt, createdAt, updatedAt)
    }

    /** Overwrites every field with those of `other`. */
    method Assign(other: Job)
      modifies this
      ensures Row() == old(other.Row())
    {
      var row := other.Row();
      id, jobType, payload, queue := row.id, row.jobType, row.payload, row.queue;
      status, priority := row.status, row.priority;
      maxRetries, retriesCount := row.maxRetries, row.retriesCount;
      errorMessage, runAt := row.errorMessage, row.runAt;
      createdAt, updatedAt := row.createdAt, row.updatedAt;
    }
  }

  /** Builds a pending job. A missing run time means now; an empty queue means the default queue. */
  method NewJob(id: JobId, jobType: string, payload: string, queue: string, priority: int,
                maxRetries: int, runAt: Option<Time>, now: Time) returns (r: Result<Job>)
    ensures r.Ok? <==> id != "" && jobType != "" && maxRetries >= 0
    ensures r.Ok? ==>
      && fresh(r.value)
      && IsNewJob(r.value.Row())
      && r.value.status == Pending && r.value.retriesCount == 0 && r.value.errorMessage == ""
      && r.value.updatedAt == now
      && r.value.id == id && r.value.jobType == jobType && r.value.payload == payload
      && r.value.queue == (if queue == "" then "default" else queue)
      && r.value.priority == priority && r.value.maxRetries == maxRetries
      && r.value.runAt == (if runAt.Some? then runAt.value else now)
      && r.value.createdAt == now
  {
    if id == "" || jobType == "" {
      return Err(Invalid);
    }
    var q := if queue == "" then "default" else queue;
    var at := if runAt.Some? then runAt.value else now;
    if maxRetries < 0 {
      return Err(Invalid);
    }
    var job := new Job(JobRow(id, jobType, payload, q, Pending, priority, maxRetries, 0, "", at, now, now));
    return Ok(job);
  }

  /** The row NewExecutionLog builds: marked failed and unfinished until Complete is called. */
  function OpenedLog(id: LogId, job: JobRow, worker: WorkerId, startedAt: Time): LogRow {
    LogRow(id, job.id, worker, job.retriesCount + 1, ExecutionFailed, startedAt, None, "")
  }

  /** In-memory execution log. */
  class ExecutionLog {
    var id: LogId
    var jobId: JobId
    var workerId: WorkerId
    var attempt: int
    var status: ExecutionStatus
    var startedAt: Time
    var finishedAt: Option<Time>
    var errorMessage: string

    constructor (row: LogRow)
      ensures Row() == row
    {
      id, jobId, workerId, attempt := row.id, row.jobId, row.workerId, row.attempt;
      status, startedAt := row.status, row.startedAt;
      finishedAt, errorMessage := row.finishedAt, row.errorMessage;
    }

    function Row(): LogRow
      reads this
    {
      LogRow(id, jobId, workerId, attempt, status, startedAt, finishedAt, errorMessage)
    }

    /**
      Closes the attempt, now when no finishing time is given, unless that time lies before the start; then
      only the status moves. No outcome means a status that is neither success nor failure; it is refused.
      */
    method Complete(outcome: Option<ExecutionStatus>, finished: Option<Time>, now: Time, message: string)
      returns (ok: bool)
      modifies this
      ensures ok <==> outcome.Some? && old(startedAt) <= (if finished.Some? then finished.value else now)
      ensures ok ==>
        Row() == old(Row()).(status := outcome.value, errorMessage := message,
                             finishedAt := Some(if finished.Some? then finished.value else now))
      ensures !ok ==> Row() == old(Row()).(status := if outcome.Some? then outcome.value else old(status))
    {
      if outcome.None? {
        return false;
      }
      status := outcome.value;
      var at := if finished.Some? then finished.value else now;
      if at < startedAt {
        return false;
      }
      finishedAt := Some(at);
      errorMessage := message;
      return true;
    }
  }

  function ClosedLog(log: LogRow, outcome: ExecutionStatus, at: Time, message: string): LogRow {
    log.(status := outcome, finishedAt := Some(at), errorMessage := message)
  }

  /** Starts the log of one attempt, now when no time is given. */
  method NewExecutionLog(id: LogId, jobId: JobId, workerId: WorkerId, attempt: int, startedAt: Option<Time>, now: Time)
    returns (r: Result<ExecutionLog>)
    ensures r.Ok? <==> id != "" && jobId != "" && workerId != "" && attempt > 0
    ensures r.Ok? ==>
      fresh(r.value) &&
      r.value.Row() == LogRow(id, jobId, workerId, attempt, ExecutionFailed,
                              if startedAt.Some? then startedAt.value else now, None, "")
  {
    if id == "" || jobId == "" || workerId == "" || attempt <= 0 {
      return Err(Invalid);
    }
    var at := if startedAt.Some? then startedAt.value else now;
    var log := new ExecutionLog(LogRow(id, jobId, workerId, attempt, ExecutionFailed, at, None, ""));
    return Ok(log);
  }

  /** In-memory worker node; its fields are shared by the pool's goroutines under a mutex. */
  class Worker {
    const id: WorkerId
    const hostname: string
    const queue: string
    const concurrency: int
    const startedAt: Time
    var status: WorkerStatus
    var lastHeartbeat: Time

    constructor (id: WorkerId, hostname: string, queue: string, concurrency: int, now: Time)
      requires id != "" && hostname != "" && concurrency > 0
      ensures Row() == WorkerRow(id, hostname, if queue == "" then "default" else queue, concurrency, Idle, now, now)
    {
      this.id, this.hostname, this.concurrency := id, hostname, concurrency;
      this.queue := if queue == "" then "default" else queue;
      startedAt, lastHeartbeat, status := now, now, Idle;
    }

    function Row(): WorkerRow
      reads this
    {
      WorkerRow(id, hostname, queue, concurrency, status, startedAt, lastHeartbeat)
    }

    method Heartbeat(now: Time)
      modifies this
      ensures Row() == old(Row()).(lastHeartbeat := now)
    {
      lastHeartbeat := now;
    }

    method SetStatus(status: WorkerStatus, now: Time)
      modifies this
      ensures Row() == old(Row()).(status := status, lastHeartbeat := now)
    {
      this.status := status;
      lastHeartbeat := now;
    }
  }
}
