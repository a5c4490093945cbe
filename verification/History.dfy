/** Counting along a run: what the tables say about how a job got where it is. */
module History {
  import opened Domain
  import opened Tables
  import opened Protocol
  import opened Invariants
  import B = Backoff

  // ---- tallies of events ----

  datatype Tally = Tally(fetches: nat, failures: nat, exhausted: nat, successes: nat, replays: nat)

  const ZERO := Tally(0, 0, 0, 0, 0)

  /** Events that commit something on job j. */
  function Bump(t: Tally, e: Event, j: JobId): Tally {
    if e.Fetch? && e.j == j then t.(fetches := t.fetches + 1)
    else if IsChargeOf(e, j) then
      t.(failures := t.failures + 1, exhausted := t.exhausted + if ChargeOf(e).value.exhausted then 1 else 0)
    else if e.Succeed? && e.j == j then t.(successes := t.successes + 1)
    else if e.AdminReplay? && e.j == j then t.(replays := t.replays + 1)
    else t
  }

  function TallyOf(run: seq<Event>, j: JobId): Tally {
    if run == [] then ZERO else Bump(TallyOf(run[..|run| - 1], j), run[|run| - 1], j)
  }

  // ---- rows of the log table ----

  /** Number of logs of j among the first n rows. */
  function RowsBefore(logs: seq<LogRow>, n: nat, j: JobId): nat
    requires n <= |logs|
  {
    if n == 0 then 0 else RowsBefore(logs, n - 1, j) + if logs[n - 1].jobId == j then 1 else 0
  }

  function RowsOf(logs: seq<LogRow>, j: JobId): nat {
    RowsBefore(logs, |logs|, j)
  }

  /** The logs of j are numbered 1, 2, 3, ... in the order they were inserted. */
  ghost predicate Numbered(logs: seq<LogRow>, j: JobId) {
    forall k | 0 <= k < |logs| && logs[k].jobId == j :: logs[k].attempt == RowsBefore(logs, k, j) + 1
  }

  predicate TookAttempt(row: JobRow) {
    row.status == Running || row.status == Completed
  }

  /** Attempt numbers and the retry counter agree with the log: true of every job never replayed. */
  ghost predicate Unreplayed(db: DB, j: JobId) {
    j in db.jobs ==>
      && Numbered(db.logs, j)
      && db.jobs[j].retriesCount + (if TookAttempt(db.jobs[j]) then 1 else 0) == RowsOf(db.logs, j)
  }

  lemma {:induction false} RowsFrame(a: seq<LogRow>, b: seq<LogRow>, n: nat, j: JobId)
    requires n <= |a| && n <= |b|
    requires forall k | 0 <= k < n :: a[k].jobId == b[k].jobId
    ensures RowsBefore(a, n, j) == RowsBefore(b, n, j)
  {
    if n > 0 {
      RowsFrame(a, b, n - 1, j);
    }
  }

  lemma {:induction false} RowsMonotone(logs: seq<LogRow>, m: nat, n: nat, j: JobId)
    requires m <= n <= |logs|
    ensures RowsBefore(logs, m, j) <= RowsBefore(logs, n, j)
    ensures m < n && logs[m].jobId == j ==> RowsBefore(logs, m, j) + 1 <= RowsBefore(logs, n, j)
  {
    if m < n {
      RowsMonotone(logs, m, n - 1, j);
    }
  }

  /** The newest log of j carries the highest number. */
  lemma {:induction false} NewestRow(logs: seq<LogRow>, n: nat, j: JobId) returns (k: nat)
    requires n <= |logs| && RowsBefore(logs, n, j) > 0
    ensures k < n && logs[k].jobId == j && RowsBefore(logs, k, j) + 1 == RowsBefore(logs, n, j)
  {
    if logs[n - 1].jobId == j {
      k := n - 1;
    } else {
      k := NewestRow(logs, n - 1, j);
    }
  }

  lemma {:induction false} UnreplayedFrame(before: DB, after: DB, j: JobId)
    requires Unreplayed(before, j) && SameLogsOf(before.logs, after.logs, j)
    requires j in after.jobs ==> j in before.jobs && before.jobs[j] == after.jobs[j]
    ensures Unreplayed(after, j)
    ensures RowsOf(after.logs, j) == RowsOf(before.logs, j)
  {
    SameRows(before.logs, after.logs, j);
    forall k | 0 <= k < |before.logs|
      ensures RowsBefore(after.logs, k, j) == RowsBefore(before.logs, k, j)
    {
      RowsFrame(before.logs, after.logs, k, j);
    }
  }

  lemma {:induction false} SameRows(before: seq<LogRow>, after: seq<LogRow>, j: JobId)
    requires SameLogsOf(before, after, j)
    ensures RowsOf(after, j) == RowsOf(before, j)
  {
    RowsFrame(before, after, |before|, j);
    NoRowsAdded(after, |before|, |after|, j);
  }

  lemma {:induction false} NoRowsAdded(logs: seq<LogRow>, m: nat, n: nat, j: JobId)
    requires m <= n <= |logs|
    requires forall k | m <= k < n :: logs[k].jobId != j
    ensures RowsBefore(logs, n, j) == RowsBefore(logs, m, j)
  {
    if m < n {
      NoRowsAdded(logs, m, n - 1, j);
    }
  }

  // ---- what one event does to one job ----

  predicate Touches(e: Event, j: JobId) {
    || (e.Enqueue? && e.row.id == j)
    || (e.Fetch? && e.j == j) || (e.Succeed? && e.j == j) || IsChargeOf(e, j)
    || (e.AdminReplay? && e.j == j) || (e.AdminDelete? && e.j == j)
    || (e.Purge? && j in e.gone)
  }

  /** An event that does not name the job leaves its row and its logs alone. */
  lemma {:induction false} Untouched(s: Sys, e: Event, j: JobId)
    requires Inv(s) && Enabled(s, e) && !Touches(e, j)
    ensures var t := Apply(s, e);
            && (j in t.db.jobs <==> j in s.db.jobs)
            && (j in s.db.jobs ==> t.db.jobs[j] == s.db.jobs[j])
            && SameLogsOf(s.db.logs, t.db.logs, j)
            && (j in t.issued <==> j in s.issued)
  {
    if e.Succeed? {
      ClosingFrame(s.db.logs, e.j, e.latest, e.w, false, ExecutionSuccess, e.t2, "");
    } else if ChargeOf(e).Some? {
      ChargeNamesAWorker(s, e);
      var c := ChargeOf(e).value;
      ClosingFrame(s.db.logs, c.j, c.latest, c.w, false, ExecutionFailed, c.t3, c.msg);
    } else if e.Enqueue? || e.Fetch? || e.AdminReplay? || e.AdminDelete? {
    } else if e.Purge? {
    } else {
      assert Apply(s, e).db.jobs == s.db.jobs && Apply(s, e).db.logs == s.db.logs;
    }
  }

  /** The ids an event adds to the jobs table, and those it takes away. */
  lemma {:induction false} KeysAfter(s: Sys, e: Event)
    requires Inv(s) && Enabled(s, e)
    ensures var before, after := s.db.jobs.Keys, Apply(s, e).db.jobs.Keys;
            if e.Enqueue? then e.row.id !in before && after == before + {e.row.id}
            else if e.AdminDelete? then e.j in before && after == before - {e.j}
            else if e.Purge? then e.gone <= before && after == before - e.gone
            else after == before
    ensures Apply(s, e).issued == s.issued + if e.Enqueue? then {e.row.id} else {}
  {
    if e.Enqueue? || e.AdminDelete? || e.Purge? {
      KeysMove(s, e);
    } else if e.Fetch? || e.Succeed? || e.AdminReplay? || ChargeOf(e).Some? {
      KeysStay(s, e);
    } else {
      assert Apply(s, e).db.jobs == s.db.jobs;
    }
  }

  lemma {:induction false} KeysMove(s: Sys, e: Event)
    requires Inv(s) && Enabled(s, e) && (e.Enqueue? || e.AdminDelete? || e.Purge?)
    ensures var before, after := s.db.jobs.Keys, Apply(s, e).db.jobs.Keys;
            if e.Enqueue? then e.row.id !in before && after == before + {e.row.id}
            else if e.AdminDelete? then e.j in before && after == before - {e.j}
            else e.gone <= before && after == before - e.gone
    ensures Apply(s, e).issued == s.issued + if e.Enqueue? then {e.row.id} else {}
  {
  }

  lemma {:induction false} KeysStay(s: Sys, e: Event)
    requires Inv(s) && Enabled(s, e) && (e.Fetch? || e.Succeed? || e.AdminReplay? || ChargeOf(e).Some?)
    ensures Apply(s, e).db.jobs.Keys == s.db.jobs.Keys && Apply(s, e).issued == s.issued
  {
  }

  lemma {:induction false} ChargeNamesAWorker(s: Sys, e: Event)
    requires Inv(s) && Enabled(s, e) && ChargeOf(e).Some?
    ensures var c := ChargeOf(e).value;
            && c.w != "" && ChargeEnabled(s, c) && LatestIs(s.db.logs, c.j, c.latest)
            && Apply(s, e).db == ApplyCharge(s, c).db && Apply(s, e).now == c.t3
            && Apply(s, e).issued == s.issued
  {
    if e.ReclaimFail? {
      ReclaimFailKeeps(s, e);
    }
  }

  // ---- the ledger ----

  /** A job replayed although it allows retries: an old, closed attempt outranks every new one. */
  ghost predicate Outranked(db: DB, j: JobId)
    requires j in db.jobs
  {
    && db.jobs[j].retriesCount == 0 && db.jobs[j].status != DeadLetter
    && exists k :: IsLogOf(db.logs, k, j) && db.logs[k].finishedAt.Some? && db.logs[k].attempt >= 2
  }

  ghost predicate Ledger(s: Sys, t: Tally, j: JobId) {
    && (j !in s.issued ==> t == ZERO)
    && RowsOf(s.db.logs, j) == t.fetches
    && (j in s.db.jobs ==>
          var row := s.db.jobs[j];
          && t.fetches == t.failures + (if TookAttempt(row) then 1 else 0)
          && t.exhausted == t.replays + (if row.status == DeadLetter then 1 else 0)
          && t.successes == (if row.status == Completed then 1 else 0)
          && (t.replays == 0 ==> Unreplayed(s.db, j) && row.retriesCount == t.failures)
          && (t.replays > 0 && row.maxRetries > 0 ==> t.replays == 1 && Outranked(s.db, j)))
  }

  lemma {:induction false} LedgerUntouched(s: Sys, t: Tally, e: Event, j: JobId)
    requires Inv(s) && Enabled(s, e) && Ledger(s, t, j) && !Touches(e, j)
    ensures Ledger(Apply(s, e), Bump(t, e, j), j)
  {
    Untouched(s, e, j);
    var s' := Apply(s, e);
    SameRows(s.db.logs, s'.db.logs, j);
    if j in s.db.jobs {
      if t.replays == 0 {
        UnreplayedFrame(s.db, s'.db, j);
      } else if s.db.jobs[j].maxRetries > 0 {
        var k :| IsLogOf(s.db.logs, k, j) && s.db.logs[k].finishedAt.Some? && s.db.logs[k].attempt >= 2;
        assert IsLogOf(s'.db.logs, k, j) && s'.db.logs[k] == s.db.logs[k];
      }
    }
  }

  lemma {:induction false} LedgerFetch(s: Sys, t: Tally, e: Event)
    requires Inv(s) && Enabled(s, e) && e.Fetch? && Ledger(s, t, e.j)
    ensures Ledger(Apply(s, e), Bump(t, e, e.j), e.j)
  {
    var j := e.j;
    var before, after := s.db.logs, Apply(s, e).db.logs;
    var n := |before|;
    RowsFrame(before, after, n, j);
    assert RowsOf(after, j) == RowsOf(before, j) + 1;
    if t.replays == 0 {
      forall k | 0 <= k < |after| && after[k].jobId == j
        ensures after[k].attempt == RowsBefore(after, k, j) + 1
      {
        RowsFrame(before, after, if k < n then k else n, j);
      }
    } else if s.db.jobs[j].maxRetries > 0 {
      var k :| IsLogOf(before, k, j) && before[k].finishedAt.Some? && before[k].attempt >= 2;
      assert IsLogOf(after, k, j) && after[k] == before[k];
    }
  }

  /** Closing a log changes no attempt number and no row count. */
  lemma {:induction false} NumberingSurvivesClosing(before: seq<LogRow>, after: seq<LogRow>, j: JobId)
    requires |after| == |before|
    requires forall k | 0 <= k < |before| ::
               after[k].jobId == before[k].jobId && after[k].attempt == before[k].attempt
    ensures RowsOf(after, j) == RowsOf(before, j)
    ensures Numbered(before, j) ==> Numbered(after, j)
  {
    RowsFrame(before, after, |before|, j);
    forall k | 0 <= k < |before|
      ensures RowsBefore(after, k, j) == RowsBefore(before, k, j)
    {
      RowsFrame(before, after, k, j);
    }
  }

  lemma {:induction false} LedgerSucceed(s: Sys, t: Tally, e: Event)
    requires Inv(s) && Enabled(s, e) && e.Succeed? && Ledger(s, t, e.j)
    ensures Ledger(Apply(s, e), Bump(t, e, e.j), e.j)
  {
    var j := e.j;
    var before, after := s.db.logs, Apply(s, e).db.logs;
    ClosingFrame(before, j, e.latest, e.w, false, ExecutionSuccess, e.t2, "");
    NumberingSurvivesClosing(before, after, j);
    if t.replays > 0 && s.db.jobs[j].maxRetries > 0 {
      var k :| IsLogOf(before, k, j) && before[k].finishedAt.Some? && before[k].attempt >= 2;
      assert IsLogOf(after, k, j) && after[k] == before[k];
    }
  }

  /** Once a job with retries has been replayed, no failure of it is ever accepted. */
  lemma {:induction false} OutrankedRefusesFailure(s: Sys, c: Charge)
    requires Inv(s) && c.w != "" && c.j in s.db.jobs && Outranked(s.db, c.j)
    requires LatestIs(s.db.logs, c.j, c.latest)
    ensures !ChargeEnabled(s, c)
  {
    if ChargeEnabled(s, c) {
      ChargeClosesTheOpenLog(s, c);
    }
  }

  lemma {:induction false} LedgerChargeCore(s: Sys, t: Tally, c: Charge)
    requires Inv(s) && c.w != "" && ChargeEnabled(s, c) && LatestIs(s.db.logs, c.j, c.latest)
    requires Ledger(s, t, c.j)
    ensures t.replays == 0 || s.db.jobs[c.j].maxRetries == 0
    ensures Ledger(ApplyCharge(s, c),
                   t.(failures := t.failures + 1, exhausted := t.exhausted + if c.exhausted then 1 else 0), c.j)
  {
    if Outranked(s.db, c.j) {
      OutrankedRefusesFailure(s, c);
    }
    ClosingFrame(s.db.logs, c.j, c.latest, c.w, false, ExecutionFailed, c.t3, c.msg);
    NumberingSurvivesClosing(s.db.logs, ApplyCharge(s, c).db.logs, c.j);
  }

  lemma {:induction false} LedgerCharge(s: Sys, t: Tally, e: Event, c: Charge)
    requires Inv(s) && Enabled(s, e) && ChargeOf(e) == Some(c) && Ledger(s, t, c.j)
    ensures Ledger(Apply(s, e), Bump(t, e, c.j), c.j)
    ensures t.replays == 0 || s.db.jobs[c.j].maxRetries == 0
  {
    ChargeNamesAWorker(s, e);
    LedgerChargeCore(s, t, c);
  }

  lemma {:induction false} LedgerReplay(s: Sys, t: Tally, e: Event)
    requires Inv(s) && Enabled(s, e) && e.AdminReplay? && Ledger(s, t, e.j)
    ensures Ledger(Apply(s, e), Bump(t, e, e.j), e.j)
  {
    ReplayOverwritesWhatWasRead(s, e);
    var j := e.j;
    var row := s.db.jobs[j];
    assert JobOk(row, s.db.logs);
    if row.maxRetries > 0 {
      assert t.replays == 0;
      var k := NewestRow(s.db.logs, |s.db.logs|, j);
      assert s.db.logs[k].attempt == row.maxRetries + 1;
      assert !IsOpen(s.db.logs, k, j);
      assert IsLogOf(s.db.logs, k, j) && s.db.logs[k].finishedAt.Some? && s.db.logs[k].attempt >= 2;
      assert Outranked(Apply(s, e).db, j);
    }
  }

  lemma {:induction false} LedgerEnqueue(s: Sys, t: Tally, e: Event)
    requires Inv(s) && Enabled(s, e) && e.Enqueue? && Ledger(s, t, e.row.id)
    ensures Ledger(Apply(s, e), Bump(t, e, e.row.id), e.row.id)
  {
  }

  lemma {:induction false} LedgerStep(s: Sys, t: Tally, e: Event, j: JobId)
    requires Inv(s) && Enabled(s, e) && Ledger(s, t, j)
    ensures Inv(Apply(s, e)) && Ledger(Apply(s, e), Bump(t, e, j), j)
  {
    EventKeepsInv(s, e);
    LedgerStepCore(s, t, e, j);
  }

  lemma {:induction false} LedgerStepCore(s: Sys, t: Tally, e: Event, j: JobId)
    requires Inv(s) && Enabled(s, e) && Ledger(s, t, j)
    ensures Ledger(Apply(s, e), Bump(t, e, j), j)
  {
    if !Touches(e, j) {
      LedgerUntouched(s, t, e, j);
    } else if ChargeOf(e).Some? {
      LedgerCharge(s, t, e, ChargeOf(e).value);
    } else if e.Enqueue? {
      LedgerEnqueue(s, t, e);
    } else if e.Fetch? {
      LedgerFetch(s, t, e);
    } else if e.Succeed? {
      LedgerSucceed(s, t, e);
    } else if e.AdminReplay? {
      LedgerReplay(s, t, e);
    } else {
      assert e.AdminDelete? || e.Purge?;
    }
  }

  lemma {:induction false} ReachableLedger(d: B.Delays, run: seq<Event>, j: JobId)
    requires Feasible(d, run)
    ensures Inv(After(d, run)) && Ledger(After(d, run), TallyOf(run, j), j)
  {
    ReachableInv(d, run);
    if run != [] {
      var p := run[..|run| - 1];
      ReachableLedger(d, p, j);
      LedgerStep(After(d, p), TallyOf(p, j), run[|run| - 1], j);
    }
  }
}
