/** What every event of every interleaving keeps. */
module Invariants {
  import opened Domain
  import opened Tables
  import opened Protocol
  import B = Backoff

  // ---- one job and its logs ----

  ghost predicate NoOpen(logs: seq<LogRow>, j: JobId) {
    forall k :: !IsOpen(logs, k, j)
  }

  ghost predicate AtMostOneOpen(logs: seq<LogRow>, j: JobId) {
    forall k, i :: IsOpen(logs, k, j) && IsOpen(logs, i, j) ==> k == i
  }

  ghost predicate RunsAttempt(logs: seq<LogRow>, j: JobId, attempt: int) {
    exists k :: IsOpen(logs, k, j) && logs[k].attempt == attempt
  }

  /** Retry budget and open attempts allowed in each status. `Failed` is allowed nowhere. */
  ghost predicate JobOk(row: JobRow, logs: seq<LogRow>) {
    && 0 <= row.maxRetries && 0 <= row.retriesCount
    && match row.status
       case Pending => row.retriesCount <= row.maxRetries && NoOpen(logs, row.id)
       case Running => && row.retriesCount <= row.maxRetries
                       && RunsAttempt(logs, row.id, row.retriesCount + 1)
                       && AtMostOneOpen(logs, row.id)
       case Completed => row.retriesCount <= row.maxRetries && AtMostOneOpen(logs, row.id)
       case DeadLetter => row.retriesCount == row.maxRetries + 1 && NoOpen(logs, row.id)
       case Failed => false
  }

  /** The logs of j are the same rows in both tables. */
  ghost predicate SameLogsOf(before: seq<LogRow>, after: seq<LogRow>, j: JobId) {
    && |before| <= |after|
    && (forall k | 0 <= k < |before| :: before[k].jobId == after[k].jobId)
    && (forall k | 0 <= k < |before| && before[k].jobId == j :: before[k] == after[k])
    && (forall k | |before| <= k < |after| :: after[k].jobId != j)
  }

  lemma {:induction false} JobOkFrame(row: JobRow, before: seq<LogRow>, after: seq<LogRow>)
    requires JobOk(row, before) && SameLogsOf(before, after, row.id)
    ensures JobOk(row, after)
  {
    assert forall k :: IsOpen(after, k, row.id) ==> IsOpen(before, k, row.id);
    if row.status == Running {
      var k :| IsOpen(before, k, row.id) && before[k].attempt == row.retriesCount + 1;
      assert IsOpen(after, k, row.id);
    }
  }

  // ---- the whole system ----

  ghost predicate JobsOk(s: Sys) {
    forall j | j in s.db.jobs ::
      && s.db.jobs[j].id == j && j in s.issued
      && s.db.jobs[j].updatedAt <= s.now
      && JobOk(s.db.jobs[j], s.db.logs)
  }

  ghost predicate LogsOk(s: Sys) {
    && (forall k | 0 <= k < |s.db.logs| ::
          && s.db.logs[k].jobId in s.issued && s.db.logs[k].workerId != "" && s.db.logs[k].attempt >= 1
          && s.db.logs[k].startedAt <= s.now)
    && (forall k, i | 0 <= k < i < |s.db.logs| :: s.db.logs[k].id != s.db.logs[i].id)
  }

  ghost predicate WorkersOk(s: Sys) {
    forall w | w in s.db.workers :: s.db.workers[w].id == w
  }

  ghost predicate LoggedWorker(logs: seq<LogRow>, w: WorkerId) {
    exists k | 0 <= k < |logs| :: logs[k].workerId == w
  }

  /** A reclaimer never reaches the call that names no worker: every job it listed has a log. */
  ghost predicate ReclaimerOk(logs: seq<LogRow>, p: Reclaimer) {
    && (forall j | j in p.todo :: HasLogs(logs, j))
    && (p.Inspecting? || p.Charging? ==> p.worker != "" && p.todo != [] && LoggedWorker(logs, p.worker))
  }

  ghost predicate ReclaimersOk(s: Sys) {
    forall r | r in s.reclaimers :: ReclaimerOk(s.db.logs, s.reclaimers[r])
  }

  /** A held snapshot is the stored row, or an older version of it. */
  ghost predicate SnapshotOk(jobs: map<JobId, JobRow>, read: JobRow) {
    read.id in jobs ==> jobs[read.id] == read || read.updatedAt < jobs[read.id].updatedAt
  }

  ghost predicate AdminsOk(s: Sys) {
    forall a | a in s.admins ::
      && s.admins[a].read.status == DeadLetter && s.admins[a].read.id in s.issued
      && SnapshotOk(s.db.jobs, s.admins[a].read)
  }

  ghost predicate Inv(s: Sys) {
    s.delays.Valid() && JobsOk(s) && LogsOk(s) && WorkersOk(s) && ReclaimersOk(s) && AdminsOk(s)
  }

  // ---- preservation, one family of events at a time ----

  lemma {:induction false} SnapshotsKept(s: Sys, t: Sys)
    requires AdminsOk(s) && t.admins == s.admins && s.issued <= t.issued
    requires forall j | j in t.db.jobs && j in s.issued ::
               j in s.db.jobs &&
               (t.db.jobs[j] == s.db.jobs[j] || s.db.jobs[j].updatedAt < t.db.jobs[j].updatedAt)
    ensures AdminsOk(t)
  {
  }

  lemma {:induction false} ReclaimersKept(s: Sys, t: Sys)
    requires ReclaimersOk(s) && t.reclaimers == s.reclaimers
    requires |s.db.logs| <= |t.db.logs|
    requires forall k | 0 <= k < |s.db.logs| ::
               t.db.logs[k].jobId == s.db.logs[k].jobId && t.db.logs[k].workerId == s.db.logs[k].workerId
    ensures ReclaimersOk(t)
  {
    forall r | r in t.reclaimers
      ensures ReclaimerOk(t.db.logs, t.reclaimers[r])
    {
      ReclaimerGrows(s.db.logs, t.db.logs, s.reclaimers[r]);
    }
  }

  lemma {:induction false} ReclaimerGrows(before: seq<LogRow>, after: seq<LogRow>, p: Reclaimer)
    requires ReclaimerOk(before, p) && |before| <= |after|
    requires forall k | 0 <= k < |before| ::
               after[k].jobId == before[k].jobId && after[k].workerId == before[k].workerId
    ensures ReclaimerOk(after, p)
  {
    forall j | j in p.todo
      ensures HasLogs(after, j)
    {
      var k :| 0 <= k < |before| && before[k].jobId == j;
      assert after[k].jobId == j;
    }
    if p.Inspecting? || p.Charging? {
      var k :| 0 <= k < |before| && before[k].workerId == p.worker;
      assert after[k].workerId == p.worker;
    }
  }

  /** Jobs other than the written one stay fine when their logs stay the same. */
  lemma {:induction false} OtherJobsKept(s: Sys, t: Sys, j: JobId)
    requires JobsOk(s) && s.issued <= t.issued && s.now <= t.now
    requires t.db.jobs.Keys <= s.db.jobs.Keys + {j}
    requires forall i | i in t.db.jobs && i != j :: t.db.jobs[i] == s.db.jobs[i]
    requires forall i | i != j :: SameLogsOf(s.db.logs, t.db.logs, i)
    requires j in t.db.jobs ==>
               && t.db.jobs[j].id == j && j in t.issued && t.db.jobs[j].updatedAt <= t.now
               && JobOk(t.db.jobs[j], t.db.logs)
    ensures JobsOk(t)
  {
    forall i | i in t.db.jobs && i != j
      ensures JobOk(t.db.jobs[i], t.db.logs)
    {
      JobOkFrame(s.db.jobs[i], s.db.logs, t.db.logs);
    }
  }

  lemma {:induction false} EnqueueKeeps(s: Sys, e: Event)
    requires Inv(s) && e.Enqueue? && Enabled(s, e)
    ensures Inv(Apply(s, e))
  {
    var t := Apply(s, e);
    var j := e.row.id;
    assert forall k :: !IsOpen(t.db.logs, k, j);
    OtherJobsKept(s, t, j);
    ReclaimersKept(s, t);
    SnapshotsKept(s, t);
  }

  lemma {:induction false} FetchKeeps(s: Sys, e: Event)
    requires Inv(s) && e.Fetch? && Enabled(s, e)
    ensures Inv(Apply(s, e))
  {
    var t := Apply(s, e);
    var k := |s.db.logs|;
    assert IsOpen(t.db.logs, k, e.j);
    assert forall i :: IsOpen(t.db.logs, i, e.j) ==> i == k || IsOpen(s.db.logs, i, e.j);
    OtherJobsKept(s, t, e.j);
    ReclaimersKept(s, t);
    SnapshotsKept(s, t);
  }

  /** Closing touches one open row of j, and of it neither the identity nor the attempt number. */
  lemma {:induction false} ClosingFrame(logs: seq<LogRow>, j: JobId, latest: Option<int>, w: WorkerId,
                                        anyWorker: bool, outcome: ExecutionStatus, at: Time, msg: string)
    requires LatestIs(logs, j, latest)
    ensures var after := CloseLatest(logs, latest, w, anyWorker, outcome, at, msg);
            && |after| == |logs|
            && (forall k | 0 <= k < |logs| ::
                  && after[k].id == logs[k].id && after[k].jobId == logs[k].jobId
                  && after[k].workerId == logs[k].workerId && after[k].attempt == logs[k].attempt
                  && after[k].startedAt == logs[k].startedAt
                  && (after[k] == logs[k] || (IsOpen(logs, k, j) && latest == Some(k) && after[k].finishedAt.Some?)))
            && (forall i | i != j :: SameLogsOf(logs, after, i))
  {
  }

  lemma {:induction false} SucceedKeeps(s: Sys, e: Event)
    requires Inv(s) && e.Succeed? && Enabled(s, e)
    ensures Inv(Apply(s, e))
  {
    var t := Apply(s, e);
    ClosingFrame(s.db.logs, e.j, e.latest, e.w, false, ExecutionSuccess, e.t2, "");
    assert AtMostOneOpen(t.db.logs, e.j) by {
      assert forall i :: IsOpen(t.db.logs, i, e.j) ==> IsOpen(s.db.logs, i, e.j);
    }
    assert JobOk(t.db.jobs[e.j], t.db.logs) by {
      assert JobOk(s.db.jobs[e.j], s.db.logs);
    }
    OtherJobsKept(s, t, e.j);
    ReclaimersKept(s, t);
    SnapshotsKept(s, t);
  }

  /** A committed failure finds the one open attempt, owned by the worker it names, and closes it. */
  lemma {:induction false} ChargeClosesTheOpenLog(s: Sys, c: Charge)
    requires JobsOk(s) && c.w != "" && ChargeEnabled(s, c) && LatestIs(s.db.logs, c.j, c.latest)
    ensures c.latest.Some? && IsOpen(s.db.logs, c.latest.value, c.j)
    ensures s.db.logs[c.latest.value].workerId == c.w
    ensures Closes(s.db.logs, c.latest, c.w, false)
    ensures s.db.logs[c.latest.value].attempt == s.db.jobs[c.j].retriesCount + 1
  {
    var k :| IsOpen(s.db.logs, k, c.j) && s.db.logs[k].attempt == s.db.jobs[c.j].retriesCount + 1;
    assert s.db.logs[k].jobId == c.j;
    assert HasLogs(s.db.logs, c.j);
    var l := c.latest.value;
    assert IsLogOf(s.db.logs, l, c.j);
    assert IsOpen(s.db.logs, l, c.j);
  }

  lemma {:induction false} ChargeKeeps(s: Sys, c: Charge)
    requires Inv(s) && c.w != "" && ChargeEnabled(s, c) && LatestIs(s.db.logs, c.j, c.latest)
    ensures Inv(ApplyCharge(s, c))
  {
    var t := ApplyCharge(s, c);
    ChargeClosesTheOpenLog(s, c);
    ClosingFrame(s.db.logs, c.j, c.latest, c.w, false, ExecutionFailed, c.t3, c.msg);
    assert forall i :: IsOpen(t.db.logs, i, c.j) ==> IsOpen(s.db.logs, i, c.j);
    OtherJobsKept(s, t, c.j);
    ReclaimersKept(s, t);
    SnapshotsKept(s, t);
  }

  /** A reclaimer moves on to its next job. */
  lemma {:induction false} MovingOnKeeps(s: Sys, r: nat)
    requires Inv(s) && r in s.reclaimers
    ensures Inv(s.(reclaimers := s.reclaimers[r := Scanning(Rest(s.reclaimers[r].todo))]))
  {
    assert ReclaimerOk(s.db.logs, s.reclaimers[r]);
  }

  lemma {:induction false} ReclaimFailKeeps(s: Sys, e: Event)
    requires Inv(s) && e.ReclaimFail? && Enabled(s, e)
    ensures e.c.w != "" && Inv(Apply(s, e))
  {
    assert ReclaimerOk(s.db.logs, s.reclaimers[e.r]);
    ChargeKeeps(s, e.c);
    MovingOnKeeps(ApplyCharge(s, e.c), e.r);
  }

  /** Reclaimer bookkeeping: only the phase of one reclaimer moves. */
  lemma {:induction false} ReclaimerStepKeeps(s: Sys, e: Event)
    requires Inv(s) && Enabled(s, e)
    requires e.ListRunning? || e.ReadLogs? || e.ReadWorker? || e.SkipJob? || e.EndReclaim?
    ensures Inv(Apply(s, e))
  {
    if e.ListRunning? {
      forall j | j in e.ids
        ensures HasLogs(s.db.logs, j)
      {
        assert JobOk(s.db.jobs[j], s.db.logs);
        var k :| IsOpen(s.db.logs, k, j);
        assert s.db.logs[k].jobId == j;
      }
    } else if e.ReadLogs? {
      var p := s.reclaimers[e.r];
      assert ReclaimerOk(s.db.logs, p);
      assert HasLogs(s.db.logs, p.todo[0]);
      assert s.db.logs[e.latest.value].workerId != "";
    } else if e.SkipJob? {
      MovingOnKeeps(s, e.r);
    } else if e.ReadWorker? {
      assert ReclaimerOk(s.db.logs, s.reclaimers[e.r]);
    }
  }

  lemma {:induction false} AdminStepKeeps(s: Sys, e: Event)
    requires Inv(s) && Enabled(s, e)
    requires e.AdminRead? || e.AdminDelete? || e.AdminQuit?
    ensures Inv(Apply(s, e))
  {
  }

  /** The version check makes a replay overwrite exactly the dead-lettered row its caller read. */
  lemma {:induction false} ReplayOverwritesWhatWasRead(s: Sys, e: Event)
    requires Inv(s) && e.AdminReplay? && Enabled(s, e)
    ensures && s.db.jobs[e.j] == s.admins[e.a].read && s.db.jobs[e.j].status == DeadLetter
            && Apply(s, e).db == Replayed(s.db, e.j, e.t1, e.t2)
  {
    assert SnapshotOk(s.db.jobs, s.admins[e.a].read);
  }

  lemma {:induction false} ReplayKeeps(s: Sys, e: Event)
    requires Inv(s) && e.AdminReplay? && Enabled(s, e)
    ensures Inv(Apply(s, e))
  {
    var t := Apply(s, e);
    ReplayOverwritesWhatWasRead(s, e);
    assert JobOk(s.db.jobs[e.j], s.db.logs);
    OtherJobsKept(s, t, e.j);
    SnapshotsKept(s, t.(admins := s.admins));
  }

  lemma {:induction false} EnvironmentStepKeeps(s: Sys, e: Event)
    requires Inv(s) && Enabled(s, e)
    requires e.Upsert? || e.Unregister? || e.Prune? || e.Purge? || e.Abandon?
    ensures Inv(Apply(s, e))
  {
  }

  lemma {:induction false} JobEventKeeps(s: Sys, e: Event)
    requires Inv(s) && Enabled(s, e)
    requires e.Enqueue? || e.Fetch? || e.Succeed? || e.WorkerFail? || e.ReclaimFail? || e.AdminReplay?
    ensures Inv(Apply(s, e))
  {
    match e
    case Enqueue(_) => EnqueueKeeps(s, e);
    case Fetch(_, _, _, _, _, _) => FetchKeeps(s, e);
    case Succeed(_, _, _, _, _) => SucceedKeeps(s, e);
    case WorkerFail(c) => ChargeKeeps(s, c);
    case ReclaimFail(_, _) => ReclaimFailKeeps(s, e);
    case AdminReplay(_, _, _, _, _) => ReplayKeeps(s, e);
    case _ => assert false;
  }

  lemma {:induction false} EventKeepsInv(s: Sys, e: Event)
    requires Inv(s) && Enabled(s, e)
    ensures Inv(Apply(s, e))
  {
    if e.Enqueue? || e.Fetch? || e.Succeed? || e.WorkerFail? || e.ReclaimFail? || e.AdminReplay? {
      JobEventKeeps(s, e);
    } else if e.AdminRead? || e.AdminDelete? || e.AdminQuit? {
      AdminStepKeeps(s, e);
    } else if e.Upsert? || e.Unregister? || e.Prune? || e.Purge? || e.Abandon? {
      EnvironmentStepKeeps(s, e);
    } else {
      ReclaimerStepKeeps(s, e);
    }
  }

  lemma {:induction false} ReachableInv(d: B.Delays, run: seq<Event>)
    requires Feasible(d, run)
    ensures Inv(After(d, run))
  {
    if run != [] {
      ReachableInv(d, run[..|run| - 1]);
      EventKeepsInv(After(d, run[..|run| - 1]), run[|run| - 1]);
    }
  }
}
