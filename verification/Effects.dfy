/** What single events of a run write, column by column, and what follows for the rest of the run. */
module Effects {
  import opened Domain
  import opened Tables
  import opened Protocol
  import opened Invariants
  import opened History
  import opened Lifecycle
  import B = Backoff

  // ---- fetch ----

  /**
    The fetched job is due in the queue asked for; no other due job has a higher priority, nor an equal one and an
    earlier run time, nor both equal and an earlier creation. It is running afterwards, under one new open log.
    */
  ghost predicate TakesTheFirst(before: DB, after: DB, e: Event)
    requires e.Fetch?
  {
    var jobs := before.jobs;
    && e.j in jobs && jobs[e.j].queue == e.queue && jobs[e.j].status == Pending && jobs[e.j].runAt <= e.t1
    && (forall o | o in jobs && jobs[o].queue == e.queue && jobs[o].status == Pending && jobs[o].runAt <= e.t1 ::
          && jobs[o].priority <= jobs[e.j].priority
          && (jobs[o].priority == jobs[e.j].priority ==> jobs[e.j].runAt <= jobs[o].runAt)
          && (jobs[o].priority == jobs[e.j].priority && jobs[o].runAt == jobs[e.j].runAt ==>
                jobs[e.j].createdAt <= jobs[o].createdAt))
    && after.jobs == jobs[e.j := jobs[e.j].(status := Running, updatedAt := e.t1)]
    && after.logs == before.logs + [LogRow(e.logId, e.j, e.w, jobs[e.j].retriesCount + 1, ExecutionFailed, e.t2,
                                           None, "")]
    && after.workers == before.workers
  }

  lemma {:induction false} FetchTakesTheFirst(d: B.Delays, run: seq<Event>, i: nat)
    requires Feasible(d, run) && i < |run| && run[i].Fetch?
    ensures Feasible(d, run[..i]) && Feasible(d, run[..i + 1])
    ensures TakesTheFirst(After(d, run[..i]).db, After(d, run[..i + 1]).db, run[i])
  {
    PrefixFeasible(d, run, i);
    ReachableInv(d, run[..i]);
    FetchEffect(After(d, run[..i]), run[i]);
  }

  lemma {:induction false} FetchEffect(s: Sys, e: Event)
    requires Inv(s) && Enabled(s, e) && e.Fetch?
    ensures TakesTheFirst(s.db, Apply(s, e).db, e)
  {
    NextIff(s.db.jobs, e.queue, e.t1, e.j);
  }

  // ---- success ----

  /**
    A success completes a running job and closes its latest log as successful, provided that log is open and the
    caller's; no other row and no other column changes.
    */
  ghost predicate CompletesOneAttempt(before: DB, after: DB, e: Event)
    requires e.Succeed?
  {
    && e.j in before.jobs && before.jobs[e.j].status == Running
    && after.jobs == before.jobs[e.j := before.jobs[e.j].(status := Completed, errorMessage := "", updatedAt := e.t1)]
    && after.workers == before.workers
    && e.latest.Some?
    && var k, logs := e.latest.value, before.logs;
       && 0 <= k < |logs| && logs[k].jobId == e.j
       && (forall o | 0 <= o < |logs| && logs[o].jobId == e.j :: logs[o].attempt <= logs[k].attempt)
       && after.logs ==
          if logs[k].workerId == e.w && logs[k].finishedAt == None
          then logs[k := logs[k].(status := ExecutionSuccess, finishedAt := Some(e.t2), errorMessage := "")]
          else logs
  }

  lemma {:induction false} SuccessCompletesOneAttempt(d: B.Delays, run: seq<Event>, i: nat)
    requires Feasible(d, run) && i < |run| && run[i].Succeed?
    ensures Feasible(d, run[..i]) && Feasible(d, run[..i + 1])
    ensures CompletesOneAttempt(After(d, run[..i]).db, After(d, run[..i + 1]).db, run[i])
  {
    PrefixFeasible(d, run, i);
    ReachableInv(d, run[..i]);
    SuccessEffect(After(d, run[..i]), run[i]);
  }

  lemma {:induction false} SuccessEffect(s: Sys, e: Event)
    requires Inv(s) && Enabled(s, e) && e.Succeed?
    ensures CompletesOneAttempt(s.db, Apply(s, e).db, e)
  {
    assert JobOk(s.db.jobs[e.j], s.db.logs);
    var k :| IsOpen(s.db.logs, k, e.j);
    assert s.db.logs[k].jobId == e.j;
    assert forall o | 0 <= o < |s.db.logs| && s.db.logs[o].jobId == e.j :: IsLogOf(s.db.logs, o, e.j);
  }

  // ---- failure ----

  /**
    With n the new retry number: up to the budget the job is pending and due when the n-th delay, counted from the
    engine's clock reading, has passed; beyond it the job is dead and keeps its run time. In range the n-th delay is
    base * 2^(n-1), at most max.
    */
  ghost predicate SchedulesTheRetry(d: B.Delays, before: DB, after: DB, c: Charge)
    requires d.Valid()
  {
    && c.j in before.jobs
    && var row := before.jobs[c.j];
       var n := row.retriesCount + 1;
       && 1 <= n <= row.maxRetries + 1
       && (n <= row.maxRetries ==>
             after.jobs == before.jobs[c.j := row.(status := Pending, retriesCount := n, errorMessage := c.msg,
                                                   runAt := c.t1 + B.Calculate(d, n, c.outOfRange),
                                                   updatedAt := c.t2)])
       && (n == row.maxRetries + 1 ==>
             after.jobs == before.jobs[c.j := row.(status := DeadLetter, retriesCount := n, errorMessage := c.msg,
                                                   updatedAt := c.t2)])
       && (d.base <= 9_007_199_254_740_992 && d.base * B.Pow2(n - 1) < 9_223_372_036_854_775_808 ==>
             B.Calculate(d, n, c.outOfRange) ==
             if d.base * B.Pow2(n - 1) > d.max then d.max else d.base * B.Pow2(n - 1))
  }

  lemma {:induction false} FailureSchedules(d: B.Delays, run: seq<Event>, i: nat)
    requires Feasible(d, run) && i < |run| && ChargeOf(run[i]).Some?
    ensures Feasible(d, run[..i]) && Feasible(d, run[..i + 1]) && d.Valid()
    ensures SchedulesTheRetry(d, After(d, run[..i]).db, After(d, run[..i + 1]).db, ChargeOf(run[i]).value)
  {
    PrefixFeasible(d, run, i);
    ReachableInv(d, run[..i]);
    ChargeNamesAWorker(After(d, run[..i]), run[i]);
    ScheduleEffect(After(d, run[..i]), ChargeOf(run[i]).value);
  }

  lemma {:induction false} ScheduleEffect(s: Sys, c: Charge)
    requires Inv(s) && ChargeEnabled(s, c)
    ensures SchedulesTheRetry(s.delays, s.db, ApplyCharge(s, c).db, c)
  {
    assert JobOk(s.db.jobs[c.j], s.db.logs);
    var n := s.db.jobs[c.j].retriesCount + 1;
    if s.delays.base <= 9_007_199_254_740_992 && s.delays.base * B.Pow2(n - 1) < 9_223_372_036_854_775_808 {
      B.FloatBackoffIsExact(s.delays, n, c.outOfRange);
    }
  }

  // ---- no fetch before the run time ----

  /** Unless the clock has passed its run time, a job that was pending is still the same row, or gone. */
  ghost predicate StillWaits(s: Sys, j: JobId, row: JobRow) {
    j in s.issued && (row.runAt <= s.now || (j in s.db.jobs ==> s.db.jobs[j] == row))
  }

  lemma {:induction false} StillWaitsStep(s: Sys, e: Event, j: JobId, row: JobRow)
    requires Inv(s) && Enabled(s, e) && StillWaits(s, j, row) && row.status == Pending
    ensures StillWaits(Apply(s, e), j, row)
    ensures e.Fetch? && e.j == j ==> row.runAt <= e.t1
  {
    if !Touches(e, j) {
      Untouched(s, e, j);
      ClockNeverGoesBack(s, e);
    } else if e.Fetch? {
      assert Apply(s, e).now >= e.t1;
    } else if e.Enqueue? || e.AdminDelete? || e.Purge? {
      KeysMove(s, e);
      ClockNeverGoesBack(s, e);
    } else {
      KeysStay(s, e);
      ClockNeverGoesBack(s, e);
    }
  }

  lemma {:induction false} ClockNeverGoesBack(s: Sys, e: Event)
    requires s.delays.Valid() && Enabled(s, e)
    ensures s.now <= Apply(s, e).now
  {
  }

  /** The same after m events of a run. */
  ghost predicate WaitsAt(d: B.Delays, run: seq<Event>, m: nat, j: JobId, row: JobRow)
    requires m <= |run|
  {
    Feasible(d, run[..m]) && StillWaits(After(d, run[..m]), j, row)
  }

  lemma {:induction false} WaitsNext(d: B.Delays, run: seq<Event>, m: nat, j: JobId, row: JobRow)
    requires Feasible(d, run) && m < |run| && WaitsAt(d, run, m, j, row) && row.status == Pending
    ensures WaitsAt(d, run, m + 1, j, row)
    ensures run[m].Fetch? && run[m].j == j ==> row.runAt <= run[m].t1
  {
    PrefixFeasible(d, run, m);
    ReachableInv(d, run[..m]);
    StillWaitsStep(After(d, run[..m]), run[m], j, row);
  }

  lemma {:induction false} WaitsThroughout(d: B.Delays, run: seq<Event>, i: nat, m: nat, j: JobId, row: JobRow)
    requires Feasible(d, run) && i <= m <= |run| && WaitsAt(d, run, i, j, row) && row.status == Pending
    ensures WaitsAt(d, run, m, j, row)
    decreases m
  {
    if i < m {
      var n := m - 1;
      WaitsThroughout(d, run, i, n, j, row);
      WaitsNext(d, run, n, j, row);
      assert run[..m] == run[..n + 1];
    }
  }

  /** A row found pending after i events is fetched no earlier than it says. */
  lemma {:induction false} PendingWaits(d: B.Delays, run: seq<Event>, i: nat, m: nat, j: JobId, row: JobRow)
    requires Feasible(d, run) && i <= m < |run| && RowIs(d, run, i, j, row) && row.status == Pending
    requires run[m].Fetch? && run[m].j == j
    ensures row.runAt <= run[m].t1
  {
    ReachableInv(d, run[..i]);
    WaitsThroughout(d, run, i, m, j, row);
    WaitsNext(d, run, m, j, row);
  }

  /** A job enqueued for some time is handed out by no fetch before it. */
  lemma {:induction false} NotBeforeItsTime(d: B.Delays, run: seq<Event>, i: nat, m: nat)
    requires Feasible(d, run) && i < |run| && m < |run|
    requires run[i].Enqueue? && run[m].Fetch? && run[m].j == run[i].row.id
    ensures i < m && run[i].row.runAt <= run[m].t1
  {
    var row := run[i].row;
    PrefixFeasible(d, run, i);
    PrefixFeasible(d, run, m);
    if m <= i {
      ReachableInv(d, run[..m]);
      IssuedForGood(d, run, m, i, row.id);
    } else {
      PendingWaits(d, run, i + 1, m, row.id, row);
    }
  }

  lemma {:induction false} PendingAgain(d: B.Delays, run: seq<Event>, i: nat, row: JobRow)
    requires Feasible(d, run) && i < |run| && ChargeOf(run[i]).Some? && d.Valid()
    requires RowIs(d, run, i, ChargeOf(run[i]).value.j, row) && row.retriesCount < row.maxRetries
    ensures row.retriesCount >= 0
    ensures var c, n := ChargeOf(run[i]).value, row.retriesCount + 1;
            && RowIs(d, run, i + 1, c.j,
                     row.(status := Pending, retriesCount := n, errorMessage := c.msg,
                          runAt := c.t1 + B.Calculate(d, n, c.outOfRange), updatedAt := c.t2))
            && (d.base <= 9_007_199_254_740_992 && d.base * B.Pow2(n - 1) < 9_223_372_036_854_775_808 ==>
                  B.Calculate(d, n, c.outOfRange) ==
                  if d.base * B.Pow2(n - 1) > d.max then d.max else d.base * B.Pow2(n - 1))
  {
    FailureSchedules(d, run, i);
  }

  /** A job charged within its budget is handed out by no later fetch before its delay has passed. */
  lemma {:induction false} RetryWaitsItsDelay(d: B.Delays, run: seq<Event>, i: nat, m: nat, row: JobRow)
    requires Feasible(d, run) && i < m < |run| && ChargeOf(run[i]).Some? && d.Valid()
    requires RowIs(d, run, i, ChargeOf(run[i]).value.j, row) && row.retriesCount < row.maxRetries
    requires run[m].Fetch? && run[m].j == ChargeOf(run[i]).value.j
    ensures row.retriesCount >= 0
    ensures var c, n := ChargeOf(run[i]).value, row.retriesCount + 1;
            && c.t1 + B.Calculate(d, n, c.outOfRange) <= run[m].t1
            && (d.base <= 9_007_199_254_740_992 && d.base * B.Pow2(n - 1) < 9_223_372_036_854_775_808 ==>
                  c.t1 + (if d.base * B.Pow2(n - 1) > d.max then d.max else d.base * B.Pow2(n - 1)) <= run[m].t1)
  {
    PendingAgain(d, run, i, row);
    var c, n := ChargeOf(run[i]).value, row.retriesCount + 1;
    PendingWaits(d, run, i + 1, m, c.j, row.(status := Pending, retriesCount := n, errorMessage := c.msg,
                                             runAt := c.t1 + B.Calculate(d, n, c.outOfRange), updatedAt := c.t2));
  }

  // ---- who closed a log ----

  /** The event that closes row k: a success or a failure of the worker the row names, and what it leaves there. */
  predicate ClosedBy(e: Event, k: nat, log: LogRow) {
    && log.finishedAt.Some?
    && match log.status
       case ExecutionSuccess =>
         && e.Succeed? && e.j == log.jobId && e.w == log.workerId && e.latest == Some(k)
         && log.finishedAt.value == e.t2 && log.errorMessage == ""
       case ExecutionFailed =>
         && ChargeOf(e).Some?
         && var c := ChargeOf(e).value;
            && c.j == log.jobId && c.w == log.workerId && c.latest == Some(k)
            && log.finishedAt.value == c.t3 && log.errorMessage == c.msg
  }

  /** A row closed after an event was closed before, or by it. */
  lemma {:induction false} ClosingEvent(s: Sys, e: Event, k: nat)
    requires Inv(s) && Enabled(s, e) && k < |Apply(s, e).db.logs| && Apply(s, e).db.logs[k].finishedAt.Some?
    ensures k < |s.db.logs|
    ensures s.db.logs[k].finishedAt.None? ==> ClosedBy(e, k, Apply(s, e).db.logs[k])
    ensures s.db.logs[k].finishedAt.Some? ==> Apply(s, e).db.logs[k] == s.db.logs[k]
  {
    if e.Succeed? {
      SuccessEffect(s, e);
    } else if ChargeOf(e).Some? {
      ChargeNamesAWorker(s, e);
      ChargeEffect(s, ChargeOf(e).value);
    }
  }

  /** Event m closes log k: open before it, this row after it. */
  ghost predicate ClosesAt(d: B.Delays, run: seq<Event>, m: nat, k: nat, log: LogRow)
    requires m < |run|
  {
    OpenAt(d, run, m, k) && LogIs(d, run, m + 1, k, log)
  }

  ghost predicate OpenAt(d: B.Delays, run: seq<Event>, m: nat, k: nat)
    requires m <= |run|
  {
    Feasible(d, run[..m]) && k < |After(d, run[..m]).db.logs| && After(d, run[..m]).db.logs[k].finishedAt.None?
  }

  lemma {:induction false} ClosedNow(d: B.Delays, run: seq<Event>, m: nat, k: nat, log: LogRow)
    requires Feasible(d, run) && m < |run| && LogIs(d, run, m + 1, k, log) && log.finishedAt.Some?
    ensures LogIs(d, run, m, k, log) || (ClosesAt(d, run, m, k, log) && ClosedBy(run[m], k, log))
  {
    PrefixFeasible(d, run, m);
    ReachableInv(d, run[..m]);
    ClosingEvent(After(d, run[..m]), run[m], k);
  }

  /** The event that closed a row found closed after n events. */
  lemma {:induction false} WhoClosed(d: B.Delays, run: seq<Event>, n: nat, k: nat, log: LogRow) returns (m: nat)
    requires Feasible(d, run) && n <= |run| && LogIs(d, run, n, k, log) && log.finishedAt.Some?
    ensures m < n && ClosesAt(d, run, m, k, log) && ClosedBy(run[m], k, log)
    decreases n
  {
    if n > 0 {
      ClosedNow(d, run, n - 1, k, log);
      if LogIs(d, run, n - 1, k, log) {
        m := WhoClosed(d, run, n - 1, k, log);
      } else {
        m := n - 1;
      }
    }
  }

  /**
    Every closed log was closed by one event of the run and by no other: successful ones by a success of the worker
    the log names, failed ones by a failure of it.
    */
  lemma {:induction false} ClosedLogTellsWho(d: B.Delays, run: seq<Event>, k: nat, log: LogRow) returns (m: nat)
    requires Feasible(d, run) && LogIs(d, run, |run|, k, log) && log.finishedAt.Some?
    ensures m < |run| && ClosesAt(d, run, m, k, log) && ClosedBy(run[m], k, log)
    ensures log.status == ExecutionSuccess <==> run[m].Succeed?
    ensures log.status == ExecutionFailed <==> ChargeOf(run[m]).Some?
    ensures forall n | 0 <= n < |run| && n != m :: !OpenAt(d, run, n, k) || OpenAt(d, run, n + 1, k)
  {
    m := WhoClosed(d, run, |run|, k, log);
    forall n | 0 <= n < |run| && n != m && OpenAt(d, run, n, k)
      ensures OpenAt(d, run, n + 1, k)
    {
      PrefixFeasible(d, run, n);
      if n < m {
        StaysThere(d, run, n, k);
        if !OpenAt(d, run, n + 1, k) {
          FinishedStaysFinished(d, run, n + 1, m, k, After(d, run[..n + 1]).db.logs[k]);
        }
      } else {
        FinishedStaysFinished(d, run, m + 1, n, k, log);
      }
    }
  }

  /** Log rows are never removed. */
  lemma {:induction false} StaysThere(d: B.Delays, run: seq<Event>, m: nat, k: nat)
    requires Feasible(d, run) && m < |run| && OpenAt(d, run, m, k)
    ensures Feasible(d, run[..m + 1]) && k < |After(d, run[..m + 1]).db.logs|
  {
    PrefixFeasible(d, run, m);
    LogsGrow(After(d, run[..m]), run[m]);
  }

  lemma {:induction false} LogsGrow(s: Sys, e: Event)
    requires s.delays.Valid() && Enabled(s, e)
    ensures |s.db.logs| <= |Apply(s, e).db.logs|
  {
  }

  /** An open log is provisionally failed, without a message. */
  lemma {:induction false} OpenLogsAreProvisional(d: B.Delays, run: seq<Event>)
    requires Feasible(d, run)
    ensures Provisional(After(d, run).db.logs)
  {
    if run != [] {
      var p, e := run[..|run| - 1], run[|run| - 1];
      OpenLogsAreProvisional(d, p);
      ReachableInv(d, p);
      StaysProvisional(After(d, p), e);
    }
  }

  ghost predicate Provisional(logs: seq<LogRow>) {
    forall k | 0 <= k < |logs| && logs[k].finishedAt.None? ::
      logs[k].status == ExecutionFailed && logs[k].errorMessage == ""
  }

  lemma {:induction false} StaysProvisional(s: Sys, e: Event)
    requires Inv(s) && Enabled(s, e) && Provisional(s.db.logs)
    ensures Provisional(Apply(s, e).db.logs)
  {
    if e.Succeed? {
      SuccessEffect(s, e);
    } else if ChargeOf(e).Some? {
      ChargeNamesAWorker(s, e);
      ChargeEffect(s, ChargeOf(e).value);
    }
  }

  // ---- workers and purge ----

  /** A prune stops the workers silent for more than 30 s, with its own clock reading as heartbeat, and no others. */
  lemma {:induction false} PruneIsExact(d: B.Delays, run: seq<Event>, i: nat)
    requires Feasible(d, run) && i < |run| && run[i].Prune?
    ensures Feasible(d, run[..i]) && Feasible(d, run[..i + 1])
    ensures var before, after, t := After(d, run[..i]).db, After(d, run[..i + 1]).db, run[i].t;
            && after.jobs == before.jobs && after.logs == before.logs && after.workers.Keys == before.workers.Keys
            && forall w | w in before.workers ::
                 after.workers[w] ==
                 if before.workers[w].status != Stopped && before.workers[w].lastHeartbeat < t - 30_000_000_000
                 then before.workers[w].(status := Stopped, lastHeartbeat := t) else before.workers[w]
  {
    PrefixFeasible(d, run, i);
  }

  /** A purge removes the jobs completed before its cutoff, and no others. */
  lemma {:induction false} PurgeIsExact(d: B.Delays, run: seq<Event>, i: nat)
    requires Feasible(d, run) && i < |run| && run[i].Purge?
    ensures Feasible(d, run[..i]) && Feasible(d, run[..i + 1])
    ensures var before, after := After(d, run[..i]).db, After(d, run[..i + 1]).db;
            && after.logs == before.logs && after.workers == before.workers
            && (forall j | j in after.jobs :: j in before.jobs && after.jobs[j] == before.jobs[j])
            && forall j | j in before.jobs ::
                 j !in after.jobs <==>
                 before.jobs[j].status == Completed && before.jobs[j].updatedAt < run[i].cutoff
  {
    PrefixFeasible(d, run, i);
  }

  /** A registration stores the node; a refresh stores status and heartbeat only and keeps what was first inserted. */
  lemma {:induction false} RegistrationStores(d: B.Delays, run: seq<Event>, i: nat)
    requires Feasible(d, run) && i < |run| && run[i].Upsert?
    ensures Feasible(d, run[..i]) && Feasible(d, run[..i + 1])
    ensures var before, after, node := After(d, run[..i]).db, After(d, run[..i + 1]).db, run[i].node;
            && after.jobs == before.jobs && after.logs == before.logs
            && after.workers.Keys == before.workers.Keys + {node.id}
            && after.workers[node.id].status == node.status
            && after.workers[node.id].lastHeartbeat == node.lastHeartbeat
            && after.workers[node.id] ==
               (if node.id in before.workers then before.workers[node.id] else node)
                 .(status := node.status, lastHeartbeat := node.lastHeartbeat)
            && forall w | w in before.workers && w != node.id :: after.workers[w] == before.workers[w]
  {
    PrefixFeasible(d, run, i);
  }
}
