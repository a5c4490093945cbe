/** How much work a run can do, and how many rows it leaves. */
module Measure {
  import opened Domain
  import opened Tables
  import opened Protocol
  import opened Invariants
  import opened History
  import opened Lifecycle
  import B = Backoff

  /** Commits a job can still take: a fetch and an outcome for each attempt left. */
  function Work(row: JobRow): int {
    if row.status == Completed || row.status == DeadLetter then 0
    else 2 * (row.maxRetries + 1 - row.retriesCount) - (if row.status == Running then 1 else 0)
  }

  ghost function TotalWork(jobs: map<JobId, JobRow>): int
    decreases |jobs|
  {
    if jobs == map[] then 0
    else
      var j :| j in jobs;
      Work(jobs[j]) + TotalWork(jobs - {j})
  }

  lemma {:induction false} TotalWithout(jobs: map<JobId, JobRow>, j: JobId)
    requires j in jobs
    ensures TotalWork(jobs) == Work(jobs[j]) + TotalWork(jobs - {j})
    decreases |jobs|
  {
    var i :| i in jobs && TotalWork(jobs) == Work(jobs[i]) + TotalWork(jobs - {i});
    if i != j {
      TotalWithout(jobs - {i}, j);
      TotalWithout(jobs - {j}, i);
      assert jobs - {i} - {j} == jobs - {j} - {i};
    }
  }

  /** Writing one row moves the total by the difference of that row. */
  lemma {:induction false} TotalAfterWrite(jobs: map<JobId, JobRow>, j: JobId, row: JobRow)
    ensures TotalWork(jobs[j := row]) ==
            TotalWork(jobs) + Work(row) - (if j in jobs then Work(jobs[j]) else 0)
  {
    var after := jobs[j := row];
    TotalWithout(after, j);
    if j in jobs {
      TotalWithout(jobs, j);
      assert after - {j} == jobs - {j};
    } else {
      assert after - {j} == jobs;
    }
  }

  /** Dropping rows never adds work. */
  lemma {:induction false} TotalOfFewer(few: map<JobId, JobRow>, jobs: map<JobId, JobRow>)
    requires forall j | j in jobs :: Work(jobs[j]) >= 0
    requires forall j | j in few :: j in jobs && few[j] == jobs[j]
    ensures 0 <= TotalWork(few) <= TotalWork(jobs)
    decreases |jobs|
  {
    if jobs != map[] {
      var j :| j in jobs;
      TotalWithout(jobs, j);
      if j in few {
        TotalWithout(few, j);
        TotalOfFewer(few - {j}, jobs - {j});
      } else {
        TotalOfFewer(few, jobs - {j});
      }
    }
  }

  predicate IsCommit(e: Event) {
    e.Fetch? || e.Succeed? || ChargeOf(e).Some?
  }

  function Commits(run: seq<Event>): nat {
    if run == [] then 0 else Commits(run[..|run| - 1]) + if IsCommit(run[|run| - 1]) then 1 else 0
  }

  /** Work an event brings in: an enqueue or a replay grants maxRetries + 1 attempts. */
  function Granted(s: Sys, e: Event): int {
    if e.Enqueue? then 2 * (e.row.maxRetries + 1)
    else if e.AdminReplay? && e.j in s.db.jobs then 2 * (s.db.jobs[e.j].maxRetries + 1)
    else 0
  }

  ghost function Budget(d: B.Delays, run: seq<Event>): int
    requires Feasible(d, run)
  {
    if run == [] then 0
    else Budget(d, run[..|run| - 1]) + Granted(After(d, run[..|run| - 1]), run[|run| - 1])
  }

  lemma {:induction false} FetchLowersWork(s: Sys, e: Event)
    requires Inv(s) && Enabled(s, e) && e.Fetch?
    ensures TotalWork(Apply(s, e).db.jobs) == TotalWork(s.db.jobs) - 1
  {
    TotalAfterWrite(s.db.jobs, e.j, Apply(s, e).db.jobs[e.j]);
  }

  lemma {:induction false} SuccessLowersWork(s: Sys, e: Event)
    requires Inv(s) && Enabled(s, e) && e.Succeed?
    ensures TotalWork(Apply(s, e).db.jobs) <= TotalWork(s.db.jobs) - 1
  {
    assert JobOk(s.db.jobs[e.j], s.db.logs);
    TotalAfterWrite(s.db.jobs, e.j, Apply(s, e).db.jobs[e.j]);
  }

  lemma {:induction false} FailureLowersWork(s: Sys, c: Charge)
    requires Inv(s) && ChargeEnabled(s, c)
    ensures TotalWork(ApplyCharge(s, c).db.jobs) == TotalWork(s.db.jobs) - 1
  {
    assert JobOk(s.db.jobs[c.j], s.db.logs);
    TotalAfterWrite(s.db.jobs, c.j, ApplyCharge(s, c).db.jobs[c.j]);
  }

  lemma {:induction false} ReplayGrantsWork(s: Sys, e: Event)
    requires Inv(s) && Enabled(s, e) && e.AdminReplay?
    ensures TotalWork(Apply(s, e).db.jobs) == TotalWork(s.db.jobs) + Granted(s, e)
  {
    ReplayOverwritesWhatWasRead(s, e);
    TotalAfterWrite(s.db.jobs, e.j, Apply(s, e).db.jobs[e.j]);
  }

  /** Deletes and purges drop rows, everything else leaves the jobs alone. */
  lemma {:induction false} OthersAddNoWork(s: Sys, e: Event)
    requires Inv(s) && Enabled(s, e) && !IsCommit(e) && !e.Enqueue? && !e.AdminReplay?
    ensures TotalWork(Apply(s, e).db.jobs) <= TotalWork(s.db.jobs)
  {
    var jobs, jobs' := s.db.jobs, Apply(s, e).db.jobs;
    assert forall j | j in jobs' :: j in jobs && jobs'[j] == jobs[j];
    WorkIsNatural(s);
    TotalOfFewer(jobs', jobs);
  }

  lemma {:induction false} WorkIsNatural(s: Sys)
    requires Inv(s)
    ensures forall j | j in s.db.jobs :: Work(s.db.jobs[j]) >= 0
  {
  }

  /** Each fetch, success or failure strictly lowers the total; only enqueues and replays raise it. */
  lemma {:induction false} CommitLowersWork(s: Sys, e: Event)
    requires Inv(s) && Enabled(s, e)
    ensures TotalWork(Apply(s, e).db.jobs) + (if IsCommit(e) then 1 else 0)
            <= TotalWork(s.db.jobs) + Granted(s, e)
  {
    if e.Fetch? {
      FetchLowersWork(s, e);
    } else if e.Succeed? {
      SuccessLowersWork(s, e);
    } else if ChargeOf(e).Some? {
      ChargeNamesAWorker(s, e);
      FailureLowersWork(s, ChargeOf(e).value);
    } else if e.AdminReplay? {
      ReplayGrantsWork(s, e);
    } else if e.Enqueue? {
      TotalAfterWrite(s.db.jobs, e.row.id, e.row);
    } else {
      OthersAddNoWork(s, e);
    }
  }

  /** Every run, replays included: its commits and the work left never exceed what was granted. */
  lemma {:induction false} CommitsAreBounded(d: B.Delays, run: seq<Event>)
    requires Feasible(d, run)
    ensures Commits(run) + TotalWork(After(d, run).db.jobs) <= Budget(d, run)
    ensures TotalWork(After(d, run).db.jobs) >= 0
  {
    ReachableInv(d, run);
    TotalOfFewer(After(d, run).db.jobs, After(d, run).db.jobs);
    if run != [] {
      var p := run[..|run| - 1];
      CommitsAreBounded(d, p);
      ReachableInv(d, p);
      CommitLowersWork(After(d, p), run[|run| - 1]);
    }
  }

  // ---- conservation of rows ----

  function Enqueued(run: seq<Event>): nat {
    if run == [] then 0 else Enqueued(run[..|run| - 1]) + if run[|run| - 1].Enqueue? then 1 else 0
  }

  function Removed(run: seq<Event>): nat {
    if run == [] then 0
    else
      var e := run[|run| - 1];
      Removed(run[..|run| - 1]) + if e.AdminDelete? then 1 else if e.Purge? then |e.gone| else 0
  }

  /** Rows in the jobs table = enqueued - deleted - purged. */
  lemma {:induction false} RowsConserved(d: B.Delays, run: seq<Event>)
    requires Feasible(d, run)
    ensures |After(d, run).db.jobs| == Enqueued(run) - Removed(run)
  {
    if run != [] {
      var p := run[..|run| - 1];
      RowsConserved(d, p);
      ReachableInv(d, p);
      RowsStep(After(d, p), run[|run| - 1]);
    }
  }

  lemma {:induction false} RowsStep(s: Sys, e: Event)
    requires Inv(s) && Enabled(s, e)
    ensures |Apply(s, e).db.jobs| == |s.db.jobs| + (if e.Enqueue? then 1 else 0)
            - (if e.AdminDelete? then 1 else if e.Purge? then |e.gone| else 0)
  {
    KeysAfter(s, e);
    KeyCount(s.db.jobs);
    KeyCount(Apply(s, e).db.jobs);
  }

  lemma {:induction false} KeyCount(jobs: map<JobId, JobRow>)
    ensures |jobs| == |jobs.Keys|
  {
  }
}
