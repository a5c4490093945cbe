/** Safety of whole runs, for any number of workers, reclaimers and administrators. */
module Lifecycle {
  import opened Domain
  import opened Tables
  import opened Protocol
  import opened Invariants
  import opened History
  import B = Backoff

  function OpenRows(logs: seq<LogRow>, j: JobId): set<int> {
    set k | 0 <= k < |logs| && IsOpen(logs, k, j)
  }

  /** One open attempt while running, none while pending or dead-lettered, at most one once completed. */
  lemma {:induction false} OpenAttemptsPerStatus(d: B.Delays, run: seq<Event>, j: JobId)
    requires Feasible(d, run) && j in After(d, run).db.jobs
    ensures var db := After(d, run).db;
            match db.jobs[j].status
            case Running => |OpenRows(db.logs, j)| == 1
            case Completed => |OpenRows(db.logs, j)| <= 1
            case _ => OpenRows(db.logs, j) == {}
  {
    ReachableInv(d, run);
    var db := After(d, run).db;
    assert JobOk(db.jobs[j], db.logs);
    if k :| IsOpen(db.logs, k, j) {
      if AtMostOneOpen(db.logs, j) {
        assert OpenRows(db.logs, j) == {k};
      }
    } else {
      assert OpenRows(db.logs, j) == {};
    }
  }

  /** Retry budget in every reachable state; `Failed` is never reached. */
  lemma {:induction false} RetryBudget(d: B.Delays, run: seq<Event>, j: JobId)
    requires Feasible(d, run) && j in After(d, run).db.jobs
    ensures var row := After(d, run).db.jobs[j];
            && row.status != Failed
            && if row.status == DeadLetter then row.retriesCount == row.maxRetries + 1
               else 0 <= row.retriesCount <= row.maxRetries
  {
    ReachableInv(d, run);
  }

  // ---- failures ----

  /** What a committed failure does: it closes one open log, of the worker it names, and charges one retry. */
  ghost predicate ChargesOneAttempt(before: DB, after: DB, c: Charge) {
    && c.latest.Some?
    && var k := c.latest.value;
       && IsOpen(before.logs, k, c.j) && before.logs[k].workerId == c.w
       && after.logs == before.logs[k := before.logs[k].(status := ExecutionFailed, finishedAt := Some(c.t3),
                                                         errorMessage := c.msg)]
       && c.j in before.jobs && after.jobs.Keys == before.jobs.Keys
       && after.jobs[c.j].retriesCount == before.jobs[c.j].retriesCount + 1
       && after.jobs[c.j].errorMessage == c.msg && after.jobs[c.j].updatedAt == c.t2
       && after.workers == before.workers
       && (after.jobs[c.j].status == DeadLetter <==> before.jobs[c.j].retriesCount == before.jobs[c.j].maxRetries)
       && (after.jobs[c.j].status == Pending <==> before.jobs[c.j].retriesCount < before.jobs[c.j].maxRetries)
       && forall i | i in before.jobs && i != c.j :: after.jobs[i] == before.jobs[i]
  }

  lemma {:induction false} FailureChargesOneAttempt(d: B.Delays, run: seq<Event>, i: nat)
    requires Feasible(d, run) && i < |run| && ChargeOf(run[i]).Some?
    ensures Feasible(d, run[..i]) && Feasible(d, run[..i + 1])
    ensures ChargesOneAttempt(After(d, run[..i]).db, After(d, run[..i + 1]).db, ChargeOf(run[i]).value)
  {
    PrefixFeasible(d, run, i);
    ReachableInv(d, run[..i]);
    ChargeNamesAWorker(After(d, run[..i]), run[i]);
    ChargeEffect(After(d, run[..i]), ChargeOf(run[i]).value);
  }

  lemma {:induction false} ChargeEffect(s: Sys, c: Charge)
    requires Inv(s) && c.w != "" && ChargeEnabled(s, c) && LatestIs(s.db.logs, c.j, c.latest)
    ensures ChargesOneAttempt(s.db, ApplyCharge(s, c).db, c)
  {
    ChargeClosesTheOpenLog(s, c);
    assert JobOk(s.db.jobs[c.j], s.db.logs);
  }

  /** After m events log k is this row. */
  ghost predicate LogIs(d: B.Delays, run: seq<Event>, m: nat, k: nat, row: LogRow)
    requires m <= |run|
  {
    Feasible(d, run[..m]) && k < |After(d, run[..m]).db.logs| && After(d, run[..m]).db.logs[k] == row
  }

  /** A finished attempt is never reopened or closed again. */
  lemma {:induction false} FinishedStaysFinished(d: B.Delays, run: seq<Event>, i: nat, n: nat, k: nat, row: LogRow)
    requires Feasible(d, run) && i <= n <= |run| && LogIs(d, run, i, k, row) && row.finishedAt.Some?
    ensures LogIs(d, run, n, k, row)
    decreases n
  {
    if i < n {
      var m := n - 1;
      FinishedStaysFinished(d, run, i, m, k, row);
      FinishedNext(d, run, m, k, row);
      assert run[..n] == run[..m + 1];
    }
  }

  lemma {:induction false} FinishedNext(d: B.Delays, run: seq<Event>, m: nat, k: nat, row: LogRow)
    requires Feasible(d, run) && m < |run| && LogIs(d, run, m, k, row) && row.finishedAt.Some?
    ensures LogIs(d, run, m + 1, k, row)
  {
    PrefixFeasible(d, run, m);
    ReachableInv(d, run[..m]);
    FinishedKept(After(d, run[..m]), run[m], k);
  }

  lemma {:induction false} FinishedKept(s: Sys, e: Event, k: nat)
    requires Inv(s) && Enabled(s, e) && k < |s.db.logs| && s.db.logs[k].finishedAt.Some?
    ensures var t := Apply(s, e); k < |t.db.logs| && t.db.logs[k] == s.db.logs[k]
  {
  }

  /** No attempt is charged twice, whoever the two callers are and however stale what they know. */
  lemma {:induction false} NoAttemptChargedTwice(d: B.Delays, run: seq<Event>, i: nat, n: nat)
    requires Feasible(d, run) && i < n < |run|
    requires ChargeOf(run[i]).Some? && ChargeOf(run[n]).Some?
    ensures ChargeOf(run[i]).value.latest != ChargeOf(run[n]).value.latest
  {
    FailureChargesOneAttempt(d, run, i);
    FailureChargesOneAttempt(d, run, n);
    var k := ChargeOf(run[i]).value.latest.value;
    FinishedStaysFinished(d, run, i + 1, n, k, After(d, run[..i + 1]).db.logs[k]);
  }

  // ---- acquisition ----

  lemma {:induction false} TallyGrowth(run: seq<Event>, i: nat, n: nat, j: JobId)
    requires i <= n <= |run|
    ensures TallyOf(run[..i], j).fetches <= TallyOf(run[..n], j).fetches
    ensures TallyOf(run[..i], j).failures < TallyOf(run[..n], j).failures ==>
              exists m :: i <= m < n && IsChargeOf(run[m], j)
    decreases n
  {
    if i < n {
      var m := n - 1;
      TallyGrowth(run, i, m, j);
      TallySnoc(run, m, j);
      assert run[..n] == run[..m + 1];
      if IsChargeOf(run[m], j) {
        assert i <= m < n;
      } else {
        assert TallyOf(run[..n], j).failures == TallyOf(run[..m], j).failures;
      }
    }
  }

  lemma {:induction false} TallySnoc(run: seq<Event>, i: nat, j: JobId)
    requires i < |run|
    ensures TallyOf(run[..i + 1], j) == Bump(TallyOf(run[..i], j), run[i], j)
  {
    var p := run[..i + 1];
    assert p[..|p| - 1] == run[..i] && p[|p| - 1] == run[i];
  }

  /** Two fetches of one job are separated by a committed failure of it. */
  lemma {:induction false} ExclusiveAcquisition(d: B.Delays, run: seq<Event>, i: nat, n: nat)
    requires Feasible(d, run) && i < n < |run|
    requires run[i].Fetch? && run[n].Fetch? && run[i].j == run[n].j
    ensures exists m :: i < m < n && IsChargeOf(run[m], run[i].j)
  {
    var j := run[i].j;
    PrefixFeasible(d, run, i);
    PrefixFeasible(d, run, n);
    ReachableLedger(d, run[..i + 1], j);
    ReachableLedger(d, run[..n], j);
    TallyGrowth(run, i + 1, n, j);
  }

  // ---- moves of one row ----

  predicate LegalMove(before: JobStatus, after: JobStatus) {
    match before
    case Pending => after == Running
    case Running => after == Completed || after == Pending || after == DeadLetter
    case DeadLetter => after == Pending
    case _ => false
  }

  /** The row is the same, or its version has advanced along a legal move; queue and budget never change. */
  predicate Advances(row: JobRow, row': JobRow) {
    || row' == row
    || (&& row.updatedAt < row'.updatedAt && LegalMove(row.status, row'.status)
        && row'.queue == row.queue && row'.maxRetries == row.maxRetries
        && row'.priority == row.priority && row'.createdAt == row.createdAt)
  }

  lemma {:induction false} OutcomeAdvances(s: Sys, e: Event, j: JobId)
    requires Inv(s) && Enabled(s, e) && ((e.Fetch? && e.j == j) || (e.Succeed? && e.j == j))
    ensures j in s.db.jobs && Advances(s.db.jobs[j], Apply(s, e).db.jobs[j])
  {
  }

  lemma {:induction false} ChargeAdvances(s: Sys, c: Charge)
    requires Inv(s) && ChargeEnabled(s, c)
    ensures Advances(s.db.jobs[c.j], ApplyCharge(s, c).db.jobs[c.j])
  {
  }

  /** Every write of a row advances its version and makes a legal move. */
  lemma {:induction false} WritesAdvanceTheVersion(s: Sys, e: Event, j: JobId)
    requires Inv(s) && Enabled(s, e) && j in s.db.jobs && j in Apply(s, e).db.jobs
    ensures Advances(s.db.jobs[j], Apply(s, e).db.jobs[j])
  {
    if !Touches(e, j) {
      Untouched(s, e, j);
    } else if e.AdminReplay? {
      ReplayOverwritesWhatWasRead(s, e);
    } else if ChargeOf(e).Some? {
      ChargeNamesAWorker(s, e);
      ChargeAdvances(s, ChargeOf(e).value);
    } else if e.Fetch? || e.Succeed? {
      OutcomeAdvances(s, e, j);
    } else {
      KeysAfter(s, e);
    }
  }

  /** Ids are never reused, so a job present at both ends of a stretch of a run was present before its last event. */
  lemma {:induction false} PresentBefore(s: Sys, e: Event, j: JobId)
    requires Inv(s) && Enabled(s, e) && j in s.issued && j in Apply(s, e).db.jobs
    ensures j in s.db.jobs && j in Apply(s, e).issued
  {
    KeysAfter(s, e);
  }

  /** After m events the id of j has been handed out. */
  ghost predicate IssuedBy(d: B.Delays, run: seq<Event>, m: nat, j: JobId)
    requires m <= |run|
  {
    Feasible(d, run[..m]) && j in After(d, run[..m]).issued
  }

  lemma {:induction false} IssuedForGood(d: B.Delays, run: seq<Event>, i: nat, n: nat, j: JobId)
    requires Feasible(d, run) && i <= n <= |run| && IssuedBy(d, run, i, j)
    ensures IssuedBy(d, run, n, j)
    decreases n
  {
    if i < n {
      var m := n - 1;
      IssuedForGood(d, run, i, m, j);
      IssuedNext(d, run, m, j);
      assert run[..n] == run[..m + 1];
    }
  }

  lemma {:induction false} IssuedNext(d: B.Delays, run: seq<Event>, m: nat, j: JobId)
    requires Feasible(d, run) && m < |run| && IssuedBy(d, run, m, j)
    ensures IssuedBy(d, run, m + 1, j)
  {
    PrefixFeasible(d, run, m);
  }

  /** After m events the row of j is this one. */
  ghost predicate RowIs(d: B.Delays, run: seq<Event>, m: nat, j: JobId, row: JobRow)
    requires m <= |run|
  {
    Feasible(d, run[..m]) && j in After(d, run[..m]).db.jobs && After(d, run[..m]).db.jobs[j] == row
  }

  predicate SameOrNewer(before: JobRow, after: JobRow) {
    after == before || before.updatedAt < after.updatedAt
  }

  /** Between two points of a run a row is the same, or its version is strictly later. */
  lemma {:induction false} VersionsNeverRepeat(d: B.Delays, run: seq<Event>, i: nat, n: nat, j: JobId,
                                               before: JobRow, after: JobRow)
    requires Feasible(d, run) && i <= n <= |run| && RowIs(d, run, i, j, before) && RowIs(d, run, n, j, after)
    ensures SameOrNewer(before, after)
    decreases n
  {
    if i < n {
      var m := n - 1;
      assert run[..n] == run[..m + 1];
      var row := VersionBefore(d, run, i, m, j, before, after);
      VersionsNeverRepeat(d, run, i, m, j, before, row);
    }
  }

  lemma {:induction false} VersionBefore(d: B.Delays, run: seq<Event>, i: nat, m: nat, j: JobId, before: JobRow,
                                         after: JobRow) returns (row: JobRow)
    requires Feasible(d, run) && i <= m < |run| && RowIs(d, run, i, j, before) && RowIs(d, run, m + 1, j, after)
    ensures RowIs(d, run, m, j, row) && SameOrNewer(row, after)
  {
    IssuedOnce(d, run, i, m, j, before);
    row := VersionNext(d, run, m, j, after);
  }

  lemma {:induction false} IssuedOnce(d: B.Delays, run: seq<Event>, i: nat, n: nat, j: JobId, row: JobRow)
    requires Feasible(d, run) && i <= n <= |run| && RowIs(d, run, i, j, row)
    ensures IssuedBy(d, run, n, j)
  {
    ReachableInv(d, run[..i]);
    IssuedForGood(d, run, i, n, j);
  }

  lemma {:induction false} VersionNext(d: B.Delays, run: seq<Event>, m: nat, j: JobId, after: JobRow)
    returns (before: JobRow)
    requires Feasible(d, run) && m < |run| && IssuedBy(d, run, m, j) && RowIs(d, run, m + 1, j, after)
    ensures RowIs(d, run, m, j, before) && SameOrNewer(before, after)
  {
    PrefixFeasible(d, run, m);
    ReachableInv(d, run[..m]);
    PresentBefore(After(d, run[..m]), run[m], j);
    WritesAdvanceTheVersion(After(d, run[..m]), run[m], j);
    before := After(d, run[..m]).db.jobs[j];
  }

  /** A row disappears only in a purge of completed jobs, or under a DLQ delete. */
  lemma {:induction false} RemovalIsPurgeOrDelete(s: Sys, e: Event, j: JobId)
    requires Inv(s) && Enabled(s, e) && j in s.db.jobs && j !in Apply(s, e).db.jobs
    ensures (e.Purge? && s.db.jobs[j].status == Completed) || (e.AdminDelete? && e.j == j)
  {
    KeysAfter(s, e);
  }

  /** An administrator about to delete still sees the row it read unless the job was replayed meanwhile. */
  ghost predicate DeleteHeld(s: Sys, t: Tally, j: JobId) {
    forall a | a in s.admins && s.admins[a].HoldsForDelete? && s.admins[a].read.id == j && j in s.db.jobs ::
      s.db.jobs[j] == s.admins[a].read || t.replays > 0
  }

  lemma {:induction false} DeleteHeldStep(s: Sys, t: Tally, e: Event, j: JobId)
    requires Inv(s) && Enabled(s, e) && DeleteHeld(s, t, j)
    ensures DeleteHeld(Apply(s, e), Bump(t, e, j), j)
  {
    if !Touches(e, j) {
      HeldElsewhere(s, t, e, j);
    } else if e.Succeed? || e.Fetch? || IsChargeOf(e, j) {
      HeldByALoser(s, t, e, j);
    } else if !e.AdminReplay? {
      KeysAfter(s, e);
    }
  }

  lemma {:induction false} HeldElsewhere(s: Sys, t: Tally, e: Event, j: JobId)
    requires Inv(s) && Enabled(s, e) && DeleteHeld(s, t, j) && !Touches(e, j)
    ensures DeleteHeld(Apply(s, e), t, j)
  {
    Untouched(s, e, j);
  }

  /** A row that can be fetched, completed or failed is not dead: whoever holds it dead has lost it to a replay. */
  lemma {:induction false} HeldByALoser(s: Sys, t: Tally, e: Event, j: JobId)
    requires Inv(s) && Enabled(s, e) && DeleteHeld(s, t, j)
    requires (e.Succeed? && e.j == j) || (e.Fetch? && e.j == j) || IsChargeOf(e, j)
    ensures DeleteHeld(Apply(s, e), t, j)
  {
    assert s.db.jobs[j].status != DeadLetter;
    assert forall a | a in s.admins :: s.admins[a].read.status == DeadLetter;
  }

  lemma {:induction false} ReachableDeleteHeld(d: B.Delays, run: seq<Event>, j: JobId)
    requires Feasible(d, run)
    ensures DeleteHeld(After(d, run), TallyOf(run, j), j)
  {
    if run != [] {
      var p := run[..|run| - 1];
      ReachableInv(d, p);
      ReachableDeleteHeld(d, p, j);
      DeleteHeldStep(After(d, p), TallyOf(p, j), run[|run| - 1], j);
    }
  }

  /**
    DLQ Delete checks no version. It removes the dead row its caller read exactly when the stored version is
    still the one read: the check Retry makes and Delete does not.
    */
  lemma {:induction false} DeleteRemovesWhatWasReadIff(d: B.Delays, run: seq<Event>, i: nat)
    requires Feasible(d, run) && i < |run| && run[i].AdminDelete?
    ensures Feasible(d, run[..i])
    ensures var s, e := After(d, run[..i]), run[i];
            && e.a in s.admins && e.j in s.db.jobs
            && (s.db.jobs[e.j] == s.admins[e.a].read <==> s.db.jobs[e.j].updatedAt == s.admins[e.a].read.updatedAt)
            && (s.db.jobs[e.j].updatedAt == s.admins[e.a].read.updatedAt ==> s.db.jobs[e.j].status == DeadLetter)
  {
    PrefixFeasible(d, run, i);
    ReachableInv(d, run[..i]);
    assert SnapshotOk(After(d, run[..i]).db.jobs, After(d, run[..i]).admins[run[i].a].read);
  }

  /** For jobs that allow retries the removed row is dead exactly when its version is the one read. */
  lemma {:induction false} DeleteRemovesADeadJobIff(d: B.Delays, run: seq<Event>, i: nat)
    requires Feasible(d, run) && i < |run| && run[i].AdminDelete?
    ensures Feasible(d, run[..i])
    ensures var s, e := After(d, run[..i]), run[i];
            && e.a in s.admins && e.j in s.db.jobs
            && (s.db.jobs[e.j].maxRetries > 0 ==>
                  && (s.db.jobs[e.j].status == DeadLetter <==> TallyOf(run[..i], e.j).replays == 0)
                  && (s.db.jobs[e.j].status == DeadLetter <==>
                        s.db.jobs[e.j].updatedAt == s.admins[e.a].read.updatedAt))
  {
    PrefixFeasible(d, run, i);
    DeleteRemovesWhatWasReadIff(d, run, i);
    var j := run[i].j;
    ReachableDeleteHeld(d, run[..i], j);
    ReachableLedger(d, run[..i], j);
  }

  /**
    A completed job leaves the table in an old enough purge, or under a DLQ delete, and then exactly one whose
    caller read an earlier, dead version. Nothing else touches it.
    */
  lemma {:induction false} CompletedLeavesIff(s: Sys, e: Event, j: JobId)
    requires Inv(s) && Enabled(s, e) && j in s.db.jobs && s.db.jobs[j].status == Completed
    ensures j !in Apply(s, e).db.jobs <==>
            (e.Purge? && s.db.jobs[j].updatedAt < e.cutoff) || (e.AdminDelete? && e.j == j)
    ensures e.AdminDelete? && e.j == j ==> s.admins[e.a].read.updatedAt < s.db.jobs[j].updatedAt
    ensures j in Apply(s, e).db.jobs ==> Apply(s, e).db.jobs[j] == s.db.jobs[j]
  {
    if !Touches(e, j) {
      Untouched(s, e, j);
    } else if e.AdminDelete? {
      assert SnapshotOk(s.db.jobs, s.admins[e.a].read);
    } else if e.AdminReplay? {
      ReplayOverwritesWhatWasRead(s, e);
    } else {
      assert e.Purge?;
    }
  }

  // ---- dead-letter replays ----

  /** Replays never outnumber dead-letterings, however many administrators race. */
  lemma {:induction false} ReplaysNeverExceedDeadLetterings(d: B.Delays, run: seq<Event>, j: JobId)
    requires Feasible(d, run) && j in After(d, run).db.jobs
    ensures var t, row := TallyOf(run, j), After(d, run).db.jobs[j];
            && t.exhausted == t.replays + (if row.status == DeadLetter then 1 else 0)
            && (row.maxRetries > 0 ==> t.replays <= 1)
  {
    ReachableLedger(d, run, j);
  }

  /** The same bound along every run, whether or not the job is still in the table. */
  lemma {:induction false} ReplaysBoundedInEveryRun(d: B.Delays, run: seq<Event>, j: JobId)
    requires Feasible(d, run)
    ensures TallyOf(run, j).replays <= TallyOf(run, j).exhausted
  {
    if run != [] {
      var p, e := run[..|run| - 1], run[|run| - 1];
      ReplaysBoundedInEveryRun(d, p, j);
      if e.AdminReplay? && e.j == j {
        ReachableInv(d, p);
        ReplayOverwritesWhatWasRead(After(d, p), e);
        ReachableLedger(d, p, j);
      }
    }
  }

  /** Every replay takes back exactly the dead-lettered version its administrator read. */
  lemma {:induction false} ReplayWritesTheVersionRead(d: B.Delays, run: seq<Event>, i: nat)
    requires Feasible(d, run) && i < |run| && run[i].AdminReplay?
    ensures Feasible(d, run[..i]) && Feasible(d, run[..i + 1])
    ensures var s, t, e := After(d, run[..i]), After(d, run[..i + 1]), run[i];
            && e.a in s.admins && e.j in s.db.jobs && s.db.jobs[e.j] == s.admins[e.a].read
            && s.db.jobs[e.j].status == DeadLetter
            && t.db.logs == s.db.logs && t.db.workers == s.db.workers
            && t.db.jobs == s.db.jobs[e.j := s.db.jobs[e.j].(status := Pending, retriesCount := 0, errorMessage := "",
                                                             runAt := e.t1, updatedAt := e.t2)]
  {
    PrefixFeasible(d, run, i);
    ReachableInv(d, run[..i]);
    ReplayOverwritesWhatWasRead(After(d, run[..i]), run[i]);
  }

  /**
    After a replay of a job that allows retries, no failure of it is ever recorded, by its worker or by a
    reclaimer: the old attempt maxRetries + 1 stays the latest log. Such a job can only succeed or be deleted.
    */
  lemma {:induction false} NoFailureAfterReplay(d: B.Delays, run: seq<Event>, i: nat)
    requires Feasible(d, run) && i < |run| && ChargeOf(run[i]).Some?
    ensures Feasible(d, run[..i])
    ensures var j, s := ChargeOf(run[i]).value.j, After(d, run[..i]);
            && j in s.db.jobs
            && (TallyOf(run[..i], j).replays == 0 || s.db.jobs[j].maxRetries == 0)
  {
    PrefixFeasible(d, run, i);
    var c := ChargeOf(run[i]).value;
    ReachableLedger(d, run[..i], c.j);
    LedgerCharge(After(d, run[..i]), TallyOf(run[..i], c.j), run[i], c);
  }

  /** After m events of the run, job j has been replayed and its row is this one. */
  ghost predicate ReplayedRowIs(d: B.Delays, run: seq<Event>, m: nat, j: JobId, row: JobRow)
    requires m <= |run|
  {
    RowIs(d, run, m, j, row) && TallyOf(run[..m], j).replays > 0
  }

  predicate EndsIt(e: Event, j: JobId) {
    (e.Succeed? && e.j == j) || (e.AdminDelete? && e.j == j)
  }

  /** It stays running, row untouched, for as long as nobody completes or removes it. */
  lemma {:induction false} ReplayedJobKeepsRunning(d: B.Delays, run: seq<Event>, i: nat, n: nat, j: JobId, row: JobRow)
    requires Feasible(d, run) && i <= n <= |run| && ReplayedRowIs(d, run, i, j, row)
    requires row.status == Running && row.maxRetries > 0
    requires forall m | i <= m < n :: !EndsIt(run[m], j)
    ensures ReplayedRowIs(d, run, n, j, row)
    decreases n
  {
    if i < n {
      var m := n - 1;
      ReplayedJobKeepsRunning(d, run, i, m, j, row);
      KeepsRunningStep(d, run, m, j, row);
      assert run[..n] == run[..m + 1];
    }
  }

  lemma {:induction false} KeepsRunningStep(d: B.Delays, run: seq<Event>, m: nat, j: JobId, row: JobRow)
    requires Feasible(d, run) && m < |run| && ReplayedRowIs(d, run, m, j, row)
    requires row.status == Running && row.maxRetries > 0 && !EndsIt(run[m], j)
    ensures ReplayedRowIs(d, run, m + 1, j, row)
  {
    PrefixFeasible(d, run, m);
    TallySnoc(run, m, j);
    ReachableInv(d, run[..m]);
    if ChargeOf(run[m]).Some? {
      NoFailureAfterReplay(d, run, m);
    }
    RunningRowKept(After(d, run[..m]), run[m], j);
  }

  lemma {:induction false} RunningRowKept(s: Sys, e: Event, j: JobId)
    requires Inv(s) && Enabled(s, e) && IsRunning(s.db, j) && !IsChargeOf(e, j)
    requires !EndsIt(e, j)
    ensures j in Apply(s, e).db.jobs && Apply(s, e).db.jobs[j] == s.db.jobs[j]
  {
    if !Touches(e, j) {
      Untouched(s, e, j);
    } else if e.AdminReplay? {
      ReplayOverwritesWhatWasRead(s, e);
    }
  }

  /** Own failures of an unreplayed running job are always accepted: its open attempt is the latest log. */
  lemma {:induction false} OwnFailureAccepted(s: Sys, j: JobId, k: int, latest: Option<int>, t3: Time)
    requires Inv(s) && j in s.db.jobs && s.db.jobs[j].status == Running
    requires Unreplayed(s.db, j) && IsOpen(s.db.logs, k, j) && LatestIs(s.db.logs, j, latest) && s.now <= t3
    ensures latest == Some(k) && FailureAccepted(s.db, j, s.db.logs[k].workerId, latest, t3)
  {
    assert JobOk(s.db.jobs[j], s.db.logs);
    assert s.db.logs[k].jobId == j;
    assert HasLogs(s.db.logs, j);
    var l := latest.value;
    assert IsLogOf(s.db.logs, k, j);
    RowsMonotone(s.db.logs, l, |s.db.logs|, j);
    if l < k {
      RowsMonotone(s.db.logs, l, k, j);
    } else if k < l {
      RowsMonotone(s.db.logs, k, l, j);
    }
  }

  /**
    Exactly when a failure report for the open attempt k is accepted: no other log of the job carries a
    higher attempt number, and with equal numbers the query must happen to put k last.
    */
  lemma {:induction false} OwnFailureAcceptedIff(s: Sys, j: JobId, k: int, t3: Time)
    requires Inv(s) && IsRunning(s.db, j) && IsOpen(s.db.logs, k, j) && s.now <= t3
    ensures (exists latest :: LatestIs(s.db.logs, j, latest)
               && FailureAccepted(s.db, j, s.db.logs[k].workerId, latest, t3))
            <==> (forall i | IsLogOf(s.db.logs, i, j) :: s.db.logs[i].attempt <= s.db.logs[k].attempt)
  {
    assert JobOk(s.db.jobs[j], s.db.logs);
    if latest :| LatestIs(s.db.logs, j, latest) && FailureAccepted(s.db, j, s.db.logs[k].workerId, latest, t3) {
      assert s.db.logs[k].jobId == j;
      assert HasLogs(s.db.logs, j);
      assert IsOpen(s.db.logs, latest.value, j);
      assert latest.value == k;
    }
    if forall i | IsLogOf(s.db.logs, i, j) :: s.db.logs[i].attempt <= s.db.logs[k].attempt {
      assert LatestIs(s.db.logs, j, Some(k));
    }
  }

  // ---- the ledger, for readers ----

  /** Log rows = committed failures, plus one while running or completed; replays included. */
  lemma {:induction false} LedgerConservation(d: B.Delays, run: seq<Event>, j: JobId)
    requires Feasible(d, run) && j in After(d, run).db.jobs
    ensures var t, db := TallyOf(run, j), After(d, run).db;
            && RowsOf(db.logs, j) == t.failures + (if TookAttempt(db.jobs[j]) then 1 else 0)
            && (t.replays == 0 ==> t.failures == db.jobs[j].retriesCount)
  {
    ReachableLedger(d, run, j);
  }

  /** Without replays the attempt numbers are 1..n, each carried by exactly one row. */
  lemma {:induction false} AttemptsHaveNoGaps(d: B.Delays, run: seq<Event>, j: JobId, a: int) returns (k: nat)
    requires Feasible(d, run) && j in After(d, run).db.jobs && TallyOf(run, j).replays == 0
    requires 1 <= a <= RowsOf(After(d, run).db.logs, j)
    ensures var logs := After(d, run).db.logs;
            && IsLogOf(logs, k, j) && logs[k].attempt == a
            && forall i | IsLogOf(logs, i, j) ::
                 1 <= logs[i].attempt <= RowsOf(logs, j) && (logs[i].attempt == a ==> i == k)
  {
    ReachableLedger(d, run, j);
    var logs := After(d, run).db.logs;
    k := RowNumbered(logs, |logs|, j, a);
    forall i | IsLogOf(logs, i, j)
      ensures 1 <= logs[i].attempt <= RowsOf(logs, j) && (logs[i].attempt == a ==> i == k)
    {
      RowsMonotone(logs, i, |logs|, j);
      if i < k {
        RowsMonotone(logs, i, k, j);
      } else if k < i {
        RowsMonotone(logs, k, i, j);
      }
    }
  }

  lemma {:induction false} RowNumbered(logs: seq<LogRow>, n: nat, j: JobId, a: int) returns (k: nat)
    requires n <= |logs| && 1 <= a <= RowsBefore(logs, n, j)
    ensures k < n && logs[k].jobId == j && RowsBefore(logs, k, j) + 1 == a
  {
    if logs[n - 1].jobId == j && RowsBefore(logs, n, j) == a {
      k := n - 1;
    } else {
      k := RowNumbered(logs, n - 1, j, a);
    }
  }
}
