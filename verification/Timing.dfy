/** Time: how long a job lives before it is dead-lettered, and who may be taken for dead. */
module Timing {
  import opened Domain
  import opened Tables
  import opened Protocol
  import opened Invariants
  import opened History
  import B = Backoff
  import L = Lifecycle

  // ---- lower bound on a job's life ----

  /** Delays waited through by a job that failed n times. */
  function WaitedFor(d: B.Delays, n: nat): int
    requires d.Valid()
  {
    if n == 0 then 0 else WaitedFor(d, n - 1) + B.IntegerDelay(d, n)
  }

  ghost predicate InRange(d: B.Delays, maxRetries: int) {
    d.base <= B.MANTISSA && (maxRetries >= 1 ==> d.base * B.Pow2(maxRetries - 1) < B.INT64)
  }

  /** As long as no delay is capped the waiting adds up to base * (2^n - 1). */
  lemma {:induction false} UncappedWaiting(d: B.Delays, n: nat)
    requires d.Valid() && (n >= 1 ==> d.base * B.Pow2(n - 1) <= d.max)
    ensures WaitedFor(d, n) == d.base * (B.Pow2(n) - 1)
  {
    if n >= 1 {
      if n >= 2 {
        B.ScaledMonotone(d.base, n - 2, n - 1);
      }
      UncappedWaiting(d, n - 1);
      var p := B.Pow2(n - 1);
      assert B.Pow2(n) == 2 * p;
      assert d.base * (p - 1) + d.base * p == d.base * (2 * p - 1);
    }
  }

  /** Counted from the start of the first attempt, every failure has been waited for. */
  ghost predicate Waited(s: Sys, j: JobId)
    requires s.delays.Valid()
  {
    j in s.db.jobs ==>
      var row := s.db.jobs[j];
      forall k | IsLogOf(s.db.logs, k, j) && s.db.logs[k].attempt == 1 ::
        var first := s.db.logs[k].startedAt;
        match row.status
        case Pending =>
          row.retriesCount >= 0 && first + WaitedFor(s.delays, row.retriesCount) <= row.runAt
        case Running =>
          && row.retriesCount >= 0
          && forall i | IsOpen(s.db.logs, i, j) ::
               first + WaitedFor(s.delays, row.retriesCount) <= s.db.logs[i].startedAt
        case DeadLetter =>
          row.maxRetries >= 0 && first + WaitedFor(s.delays, row.maxRetries) <= row.updatedAt
        case _ => true
  }

  lemma {:induction false} WaitedFetch(s: Sys, e: Event)
    requires Inv(s) && Enabled(s, e) && e.Fetch? && Unreplayed(s.db, e.j) && Waited(s, e.j)
    ensures Waited(Apply(s, e), e.j)
  {
    var j := e.j;
    var row := s.db.jobs[j];
    var after := Apply(s, e).db.logs;
    var n := |s.db.logs|;
    assert JobOk(row, s.db.logs);
    forall k, i | IsLogOf(after, k, j) && after[k].attempt == 1 && IsOpen(after, i, j)
      ensures after[k].startedAt + WaitedFor(s.delays, row.retriesCount) <= after[i].startedAt
    {
      assert i == n by {
        if i < n {
          assert IsOpen(s.db.logs, i, j);
        }
      }
      if k < n {
        assert IsLogOf(s.db.logs, k, j);
      }
    }
  }

  /** When the failure is handled, every delay granted so far has passed. */
  lemma {:induction false} WaitedUntilCharge(s: Sys, c: Charge, k: int)
    requires Inv(s) && c.w != "" && ChargeEnabled(s, c) && LatestIs(s.db.logs, c.j, c.latest)
    requires Waited(s, c.j) && IsLogOf(s.db.logs, k, c.j) && s.db.logs[k].attempt == 1
    ensures s.db.jobs[c.j].retriesCount >= 0
    ensures s.db.logs[k].startedAt + WaitedFor(s.delays, s.db.jobs[c.j].retriesCount) <= c.t1
  {
    ChargeClosesTheOpenLog(s, c);
    assert JobOk(s.db.jobs[c.j], s.db.logs);
    assert s.db.logs[c.latest.value].startedAt <= s.now;
  }

  /** The delay the engine grants is the integer one. */
  lemma {:induction false} DelayIsInteger(s: Sys, c: Charge)
    requires s.delays.Valid() && c.j in s.db.jobs
    requires var row := s.db.jobs[c.j];
             0 <= row.retriesCount && !Exhausts(row) && InRange(s.delays, row.maxRetries)
    ensures var n := s.db.jobs[c.j].retriesCount + 1;
            WaitedFor(s.delays, n) == WaitedFor(s.delays, n - 1) + DelayOf(s, c)
  {
    var row := s.db.jobs[c.j];
    var n := row.retriesCount + 1;
    B.ScaledMonotone(s.delays.base, n - 1, row.maxRetries - 1);
    B.FloatBackoffIsExact(s.delays, n, c.outOfRange);
  }

  lemma {:induction false} WaitedCharge(s: Sys, c: Charge)
    requires Inv(s) && c.w != "" && ChargeEnabled(s, c) && LatestIs(s.db.logs, c.j, c.latest)
    requires Waited(s, c.j) && InRange(s.delays, s.db.jobs[c.j].maxRetries)
    ensures Waited(ApplyCharge(s, c), c.j)
  {
    var row := s.db.jobs[c.j];
    assert JobOk(row, s.db.logs);
    ClosingFrame(s.db.logs, c.j, c.latest, c.w, false, ExecutionFailed, c.t3, c.msg);
    if !Exhausts(row) {
      DelayIsInteger(s, c);
    }
    var after := ApplyCharge(s, c);
    forall k | IsLogOf(after.db.logs, k, c.j) && after.db.logs[k].attempt == 1
      ensures after.db.logs[k].startedAt + WaitedFor(s.delays, row.retriesCount) <= c.t1
    {
      WaitedUntilCharge(s, c, k);
    }
  }

  lemma {:induction false} WaitedFrame(s: Sys, t: Sys, j: JobId)
    requires s.delays.Valid() && t.delays == s.delays && Waited(s, j)
    requires j in t.db.jobs ==> j in s.db.jobs && t.db.jobs[j] == s.db.jobs[j]
    requires SameLogsOf(s.db.logs, t.db.logs, j)
    ensures Waited(t, j)
  {
    var before, after := s.db.logs, t.db.logs;
    assert forall k :: IsLogOf(after, k, j) ==> IsLogOf(before, k, j) && after[k] == before[k];
    assert forall k :: IsOpen(after, k, j) ==> IsOpen(before, k, j);
  }

  lemma {:induction false} WaitedStep(s: Sys, e: Event, j: JobId)
    requires Inv(s) && Enabled(s, e) && Unreplayed(s.db, j) && Waited(s, j)
    requires !(e.AdminReplay? && e.j == j)
    requires j in Apply(s, e).db.jobs ==> InRange(s.delays, Apply(s, e).db.jobs[j].maxRetries)
    ensures Waited(Apply(s, e), j)
  {
    if !Touches(e, j) {
      WaitedElsewhere(s, e, j);
    } else if e.Fetch? {
      WaitedFetch(s, e);
    } else if ChargeOf(e).Some? {
      WaitedFailure(s, e);
    } else {
      WaitedAtTheEnds(s, e, j);
    }
  }

  lemma {:induction false} WaitedElsewhere(s: Sys, e: Event, j: JobId)
    requires Inv(s) && Enabled(s, e) && Waited(s, j) && !Touches(e, j)
    ensures Waited(Apply(s, e), j)
  {
    Untouched(s, e, j);
    WaitedFrame(s, Apply(s, e), j);
  }

  lemma {:induction false} WaitedFailure(s: Sys, e: Event)
    requires Inv(s) && Enabled(s, e) && ChargeOf(e).Some? && Waited(s, ChargeOf(e).value.j)
    requires var j, t := ChargeOf(e).value.j, Apply(s, e);
             j in t.db.jobs ==> InRange(s.delays, t.db.jobs[j].maxRetries)
    ensures Waited(Apply(s, e), ChargeOf(e).value.j)
  {
    ChargeNamesAWorker(s, e);
    var c := ChargeOf(e).value;
    KeysAfter(s, e);
    BudgetIsFixed(s, e, c.j);
    WaitedCharge(s, c);
    assert Apply(s, e).db == ApplyCharge(s, c).db;
  }

  /** A new job has no logs, and of a completed or removed one nothing is asked. */
  lemma {:induction false} WaitedAtTheEnds(s: Sys, e: Event, j: JobId)
    requires Inv(s) && Enabled(s, e) && Touches(e, j)
    requires e.Enqueue? || e.Succeed? || e.AdminDelete? || e.Purge?
    ensures Waited(Apply(s, e), j)
  {
    if e.AdminDelete? || e.Purge? {
      KeysAfter(s, e);
    }
  }

  lemma {:induction false} ReachableWaited(d: B.Delays, run: seq<Event>, j: JobId)
    requires Feasible(d, run) && TallyOf(run, j).replays == 0
    requires j in After(d, run).db.jobs && InRange(d, After(d, run).db.jobs[j].maxRetries)
    ensures Waited(After(d, run), j)
  {
    if run != [] {
      var p, e := run[..|run| - 1], run[|run| - 1];
      var s := After(d, p);
      ReachableLedger(d, p, j);
      if j in s.db.jobs {
        assert Apply(s, e).db.jobs[j].maxRetries == s.db.jobs[j].maxRetries by {
          BudgetIsFixed(s, e, j);
        }
        ReachableWaited(d, p, j);
      }
      WaitedStep(s, e, j);
    }
  }

  lemma {:induction false} BudgetIsFixed(s: Sys, e: Event, j: JobId)
    requires Inv(s) && Enabled(s, e) && j in s.db.jobs && j in Apply(s, e).db.jobs
    ensures Apply(s, e).db.jobs[j].maxRetries == s.db.jobs[j].maxRetries
  {
    L.WritesAdvanceTheVersion(s, e, j);
  }

  /** When n delays stay below the cap, all of base * (2^n - 1) lies between the two times. */
  predicate UncappedBetween(d: B.Delays, n: int, started: Time, at: Time)
    requires d.Valid() && n >= 0
  {
    n >= 1 && d.base * B.Pow2(n - 1) <= d.max ==> started + d.base * (B.Pow2(n) - 1) <= at
  }

  /**
    A job dead-lettered without replays spent at least all its backoff delays between the start of its
    first attempt and the moment it was dead-lettered.
    */
  lemma {:induction false} DeadLetterNoEarlierThan(d: B.Delays, run: seq<Event>, j: JobId, first: int)
    requires Feasible(d, run) && TallyOf(run, j).replays == 0
    requires j in After(d, run).db.jobs && After(d, run).db.jobs[j].status == DeadLetter
    requires InRange(d, After(d, run).db.jobs[j].maxRetries)
    requires IsLogOf(After(d, run).db.logs, first, j) && After(d, run).db.logs[first].attempt == 1
    ensures var row, started := After(d, run).db.jobs[j], After(d, run).db.logs[first].startedAt;
            && row.maxRetries >= 0
            && started + WaitedFor(d, row.maxRetries) <= row.updatedAt
            && UncappedBetween(d, row.maxRetries, started, row.updatedAt)
  {
    DeadLetterWaited(d, run, j, first);
    UncappedBound(d, After(d, run).db.jobs[j].maxRetries, After(d, run).db.logs[first].startedAt,
                  After(d, run).db.jobs[j].updatedAt);
  }

  lemma {:induction false} UncappedBound(d: B.Delays, n: int, started: Time, at: Time)
    requires d.Valid() && n >= 0 && started + WaitedFor(d, n) <= at
    ensures UncappedBetween(d, n, started, at)
  {
    if n >= 1 && d.base * B.Pow2(n - 1) <= d.max {
      UncappedWaiting(d, n);
    }
  }

  lemma {:induction false} DeadLetterWaited(d: B.Delays, run: seq<Event>, j: JobId, first: int)
    requires Feasible(d, run) && TallyOf(run, j).replays == 0
    requires j in After(d, run).db.jobs && After(d, run).db.jobs[j].status == DeadLetter
    requires InRange(d, After(d, run).db.jobs[j].maxRetries)
    requires IsLogOf(After(d, run).db.logs, first, j) && After(d, run).db.logs[first].attempt == 1
    ensures var row := After(d, run).db.jobs[j];
            && row.maxRetries >= 0
            && After(d, run).db.logs[first].startedAt + WaitedFor(d, row.maxRetries) <= row.updatedAt
  {
    ReachableInv(d, run);
    ReachableWaited(d, run, j);
  }

  // ---- a live worker is never robbed ----

  /** What the pool of worker w and the clock must provide for w to count as alive throughout the run. */
  ghost predicate StaysAlive(d: B.Delays, run: seq<Event>, w: WorkerId)
    requires Feasible(d, run)
  {
    run == [] ||
    (var s, e := After(d, run[..|run| - 1]), run[|run| - 1];
     && StaysAlive(d, run[..|run| - 1], w)
     && (e.Fetch? && e.w == w ==> w in s.db.workers)           // registered before it fetches
     && e != Unregister(w)
     && (e.Prune? && w in s.db.workers ==> s.db.workers[w].lastHeartbeat >= e.t - STALE_AFTER))
  }

  ghost predicate SeenAlive(s: Sys, w: WorkerId) {
    && (LoggedWorker(s.db.logs, w) ==> w in s.db.workers)
    && (w in s.db.workers ==> s.db.workers[w].status != Stopped)
    && forall r | r in s.reclaimers && s.reclaimers[r].Charging? :: s.reclaimers[r].worker != w
  }

  /** Workers named in the log table after an event: those named before, and the one that fetched. */
  lemma {:induction false} LoggedWorkersAfter(s: Sys, e: Event, w: WorkerId)
    requires Inv(s) && Enabled(s, e) && LoggedWorker(Apply(s, e).db.logs, w)
    ensures LoggedWorker(s.db.logs, w) || (e.Fetch? && e.w == w)
  {
    var after := Apply(s, e).db.logs;
    var k :| 0 <= k < |after| && after[k].workerId == w;
    if e.Succeed? {
      ClosingFrame(s.db.logs, e.j, e.latest, e.w, false, ExecutionSuccess, e.t2, "");
    } else if ChargeOf(e).Some? {
      ChargeNamesAWorker(s, e);
      var c := ChargeOf(e).value;
      ClosingFrame(s.db.logs, c.j, c.latest, c.w, false, ExecutionFailed, c.t3, c.msg);
    }
    if k < |s.db.logs| {
      assert s.db.logs[k].workerId == w;
    }
  }

  lemma {:induction false} AliveStep(s: Sys, e: Event, w: WorkerId)
    requires Inv(s) && Enabled(s, e) && SeenAlive(s, w) && w != ""
    requires e.Fetch? && e.w == w ==> w in s.db.workers
    requires e != Unregister(w)
    requires e.Prune? && w in s.db.workers ==> s.db.workers[w].lastHeartbeat >= e.t - STALE_AFTER
    ensures SeenAlive(Apply(s, e), w)
  {
    var t := Apply(s, e);
    if LoggedWorker(t.db.logs, w) {
      LoggedWorkersAfter(s, e, w);
    }
    if e.ReadWorker? {
      assert ReclaimerOk(s.db.logs, s.reclaimers[e.r]);
    }
  }

  lemma {:induction false} ReachableAlive(d: B.Delays, run: seq<Event>, w: WorkerId)
    requires Feasible(d, run) && StaysAlive(d, run, w) && w != ""
    ensures SeenAlive(After(d, run), w)
  {
    if run != [] {
      var p := run[..|run| - 1];
      ReachableAlive(d, p, w);
      ReachableInv(d, p);
      AliveStep(After(d, p), run[|run| - 1], w);
    }
  }

  /** No reclaimer fails an attempt of a worker that stayed alive until then. */
  lemma {:induction false} AliveIsNeverRobbed(d: B.Delays, run: seq<Event>, w: WorkerId, i: nat)
    requires Feasible(d, run) && i < |run| && run[i].ReclaimFail? && w != ""
    requires Feasible(d, run[..i]) && StaysAlive(d, run[..i], w)
    ensures var logs, latest := After(d, run[..i]).db.logs, run[i].c.latest;
            latest.Some? && 0 <= latest.value < |logs| && logs[latest.value].workerId != w
  {
    PrefixFeasible(d, run, i);
    ReachableInv(d, run[..i]);
    ReachableAlive(d, run[..i], w);
    var s := After(d, run[..i]);
    ChargeNamesAWorker(s, run[i]);
    ChargeClosesTheOpenLog(s, run[i].c);
  }

  // ---- the same from registrations alone ----

  /** Heartbeat of the latest registration or refresh of w since it last unregistered. */
  function LastBeat(run: seq<Event>, w: WorkerId): Option<Time> {
    if run == [] then None
    else
      var e := run[|run| - 1];
      if e.Upsert? && e.node.id == w then Some(e.node.lastHeartbeat)
      else if e == Unregister(w) then None
      else LastBeat(run[..|run| - 1], w)
  }

  /** No prune before event n came more than 30 s after the heartbeat w had last stored. */
  predicate BeatsInTime(run: seq<Event>, n: nat, w: WorkerId)
    requires n <= |run|
  {
    forall i | 0 <= i < n && run[i].Prune? && LastBeat(run[..i], w).Some? ::
      LastBeat(run[..i], w).value >= run[i].t - 30_000_000_000
  }

  /** The workers table holds that heartbeat, and w is not stopped. */
  ghost predicate HoldsBeat(s: Sys, w: WorkerId, beat: Option<Time>) {
    && (w in s.db.workers <==> beat.Some?)
    && (w in s.db.workers ==> s.db.workers[w].lastHeartbeat == beat.value && s.db.workers[w].status != Stopped)
  }

  /** As long as no prune comes too late, the table holds the heartbeat w stored last, and w is not stopped. */
  lemma {:induction false} StoredBeatIsTheLast(d: B.Delays, run: seq<Event>, w: WorkerId)
    requires Feasible(d, run) && BeatsInTime(run, |run|, w)
    ensures HoldsBeat(After(d, run), w, LastBeat(run, w))
  {
    if run != [] {
      var p, e := run[..|run| - 1], run[|run| - 1];
      assert forall i | 0 <= i < |p| :: run[i] == p[i] && run[..i] == p[..i];
      StoredBeatIsTheLast(d, p, w);
      assert run[..|p|] == p;
      BeatStep(After(d, p), e, w, LastBeat(p, w));
    }
  }

  lemma {:induction false} BeatStep(s: Sys, e: Event, w: WorkerId, beat: Option<Time>)
    requires s.delays.Valid() && Enabled(s, e) && HoldsBeat(s, w, beat)
    requires e.Prune? && beat.Some? ==> beat.value >= e.t - 30_000_000_000
    ensures HoldsBeat(Apply(s, e), w,
                      if e.Upsert? && e.node.id == w then Some(e.node.lastHeartbeat)
                      else if e == Unregister(w) then None else beat)
  {
    if !e.Upsert? && !e.Unregister? && !e.Prune? {
      WorkersKept(s, e);
    }
  }

  lemma {:induction false} WorkersKept(s: Sys, e: Event)
    requires s.delays.Valid() && Enabled(s, e) && !e.Upsert? && !e.Unregister? && !e.Prune?
    ensures Apply(s, e).db.workers == s.db.workers
  {
    if e.Fetch? || e.Succeed? || e.AdminReplay? || ChargeOf(e).Some? {
      WorkersKeptByJobs(s, e);
    }
  }

  lemma {:induction false} WorkersKeptByJobs(s: Sys, e: Event)
    requires s.delays.Valid() && Enabled(s, e)
    requires e.Fetch? || e.Succeed? || e.AdminReplay? || ChargeOf(e).Some?
    ensures Apply(s, e).db.workers == s.db.workers
  {
  }

  /** What the goroutines of a live worker do: it registers before it fetches, and does not unregister. */
  predicate StaysRegistered(run: seq<Event>, n: nat, w: WorkerId)
    requires n <= |run|
  {
    forall i | 0 <= i < n ::
      run[i] != Unregister(w) && (run[i].Fetch? && run[i].w == w ==> LastBeat(run[..i], w).Some?)
  }

  lemma {:induction false} BeatsKeepAlive(d: B.Delays, run: seq<Event>, w: WorkerId)
    requires Feasible(d, run) && BeatsInTime(run, |run|, w) && StaysRegistered(run, |run|, w)
    ensures StaysAlive(d, run, w)
  {
    if run != [] {
      var p := run[..|run| - 1];
      assert forall i | 0 <= i < |p| :: run[i] == p[i] && run[..i] == p[..i];
      BeatsKeepAlive(d, p, w);
      StoredBeatIsTheLast(d, p, w);
      assert run[..|p|] == p;
    }
  }

  /** Both speak only of what comes before event i. */
  lemma {:induction false} SameBefore(run: seq<Event>, i: nat, w: WorkerId)
    requires i <= |run| && BeatsInTime(run, i, w) && StaysRegistered(run, i, w)
    ensures |run[..i]| == i && BeatsInTime(run[..i], i, w) && StaysRegistered(run[..i], i, w)
  {
    assert forall n | 0 <= n < i :: run[..i][n] == run[n] && run[..i][..n] == run[..n];
  }

  /**
    A worker that registered before it fetched, has not unregistered, and whose last stored heartbeat was never
    older than 30 s at a prune, loses no attempt to a reclaimer.
    */
  lemma {:induction false} LiveWorkerIsNeverRobbed(d: B.Delays, run: seq<Event>, w: WorkerId, i: nat)
    requires Feasible(d, run) && i < |run| && run[i].ReclaimFail? && w != ""
    requires BeatsInTime(run, i, w) && StaysRegistered(run, i, w)
    ensures Feasible(d, run[..i])
    ensures var logs, latest := After(d, run[..i]).db.logs, run[i].c.latest;
            latest.Some? && 0 <= latest.value < |logs| && logs[latest.value].workerId != w
  {
    PrefixFeasible(d, run, i);
    SameBefore(run, i, w);
    BeatsKeepAlive(d, run[..i], w);
    AliveIsNeverRobbed(d, run, w, i);
  }

  // ---- whom a reclaimer may charge ----

  /** Event m is reclaimer r looking up worker w and finding no row, or a stopped one. */
  ghost predicate SeenGoneAt(d: B.Delays, run: seq<Event>, m: nat, r: nat, w: WorkerId)
    requires m < |run|
  {
    && run[m] == ReadWorker(r) && Feasible(d, run[..m])
    && var workers := After(d, run[..m]).db.workers; w !in workers || workers[w].status == Stopped
  }

  /** Only the lookup of its worker puts a reclaimer into this phase. */
  lemma {:induction false} ChargingStep(s: Sys, e: Event, r: nat)
    requires s.delays.Valid() && Enabled(s, e) && Inv(Apply(s, e))
    requires r in Apply(s, e).reclaimers && Apply(s, e).reclaimers[r].Charging?
    ensures e != ReadWorker(r) ==> r in s.reclaimers && s.reclaimers[r] == Apply(s, e).reclaimers[r]
    ensures e == ReadWorker(r) ==>
              var w, workers := Apply(s, e).reclaimers[r].worker, s.db.workers;
              w !in workers || workers[w].status == Stopped
  {
    assert ReclaimerOk(Apply(s, e).db.logs, Apply(s, e).reclaimers[r]);
  }

  /** After n events reclaimer r is about to charge an attempt of w. */
  ghost predicate ChargesAt(d: B.Delays, run: seq<Event>, n: nat, r: nat, w: WorkerId)
    requires n <= |run|
  {
    && Feasible(d, run[..n]) && r in After(d, run[..n]).reclaimers
    && After(d, run[..n]).reclaimers[r].Charging? && After(d, run[..n]).reclaimers[r].worker == w
  }

  lemma {:induction false} ChargesBefore(d: B.Delays, run: seq<Event>, n: nat, r: nat, w: WorkerId)
    requires Feasible(d, run) && n < |run| && ChargesAt(d, run, n + 1, r, w)
    ensures ChargesAt(d, run, n, r, w) || SeenGoneAt(d, run, n, r, w)
  {
    PrefixFeasible(d, run, n);
    ReachableInv(d, run[..n + 1]);
    ChargingStep(After(d, run[..n]), run[n], r);
  }

  lemma {:induction false} ChargingHasSeenItGone(d: B.Delays, run: seq<Event>, n: nat, r: nat, w: WorkerId)
    returns (m: nat)
    requires Feasible(d, run) && n <= |run| && ChargesAt(d, run, n, r, w)
    ensures m < n && SeenGoneAt(d, run, m, r, w)
  {
    if n > 0 {
      ChargesBefore(d, run, n - 1, r, w);
      if SeenGoneAt(d, run, n - 1, r, w) {
        m := n - 1;
      } else {
        m := ChargingHasSeenItGone(d, run, n - 1, r, w);
      }
    }
  }

  /** Every attempt a reclaimer fails is one whose worker it found missing or stopped before. */
  lemma {:induction false} RobbedWorkerWasSeenGone(d: B.Delays, run: seq<Event>, i: nat) returns (m: nat)
    requires Feasible(d, run) && i < |run| && run[i].ReclaimFail?
    ensures m < i && SeenGoneAt(d, run, m, run[i].r, run[i].c.w)
  {
    PrefixFeasible(d, run, i);
    m := ChargingHasSeenItGone(d, run, i, run[i].r, run[i].c.w);
  }

  /** The lookup goes on to charge the job exactly when the worker is missing or stopped, and else to the next job. */
  lemma {:induction false} LookupDecides(d: B.Delays, run: seq<Event>, i: nat)
    requires Feasible(d, run) && i < |run| && run[i].ReadWorker?
    ensures Feasible(d, run[..i]) && Feasible(d, run[..i + 1])
    ensures var s, t, r := After(d, run[..i]), After(d, run[..i + 1]), run[i].r;
            && r in s.reclaimers && s.reclaimers[r].Inspecting? && s.reclaimers[r].todo != []
            && var todo, w := s.reclaimers[r].todo, s.reclaimers[r].worker;
               t == s.(reclaimers := s.reclaimers[r :=
                 if w !in s.db.workers || s.db.workers[w].status == Stopped then Charging(todo, w)
                 else Scanning(todo[1..])])
  {
    PrefixFeasible(d, run, i);
    ReachableInv(d, run[..i]);
    assert ReclaimerOk(After(d, run[..i]).db.logs, After(d, run[..i]).reclaimers[run[i].r]);
  }
}
