/**
  What can still happen when workers crash: which jobs can be worked off, and which are stuck. Only the worker that
  fetched a job reports on it, so a job whose holder is gone depends on reclaimers.
*/
module Progress {
  import opened Domain
  import opened Tables
  import opened Protocol
  import opened Invariants
  import opened History
  import opened Lifecycle
  import opened Measure
  import opened Steps
  import B = Backoff
  import Q = Queries

  // ---- who reports ----

  ghost predicate FetchedBefore(run: seq<Event>, n: nat, h: Hold)
    requires n <= |run|
  {
    exists i :: 0 <= i < n && run[i].Fetch? && run[i].w == h.w && run[i].j == h.j
  }

  lemma {:induction false} HandsAfter(s: Sys, e: Event, h: Hold)
    requires s.delays.Valid() && Enabled(s, e) && h in Apply(s, e).hands
    ensures h in s.hands || (e.Fetch? && e.w == h.w && e.j == h.j)
  {
  }

  lemma {:induction false} HoldersHaveFetched(d: B.Delays, run: seq<Event>, h: Hold)
    requires Feasible(d, run) && h in After(d, run).hands
    ensures FetchedBefore(run, |run|, h)
  {
    if run != [] {
      var p, e := run[..|run| - 1], run[|run| - 1];
      HandsAfter(After(d, p), e, h);
      if h in After(d, p).hands {
        HoldersHaveFetched(d, p, h);
        var i :| 0 <= i < |p| && p[i].Fetch? && p[i].w == h.w && p[i].j == h.j;
        assert run[i] == p[i];
      } else {
        assert run[|run| - 1].Fetch?;
      }
    }
  }

  /** Whoever reports on a job, success or failure, has fetched it. */
  lemma {:induction false} OnlyFetchersReport(d: B.Delays, run: seq<Event>, n: nat)
    requires Feasible(d, run) && n < |run| && (run[n].Succeed? || run[n].WorkerFail?)
    ensures FetchedBefore(run, n, if run[n].Succeed? then Hold(run[n].w, run[n].j) else Hold(run[n].c.w, run[n].c.j))
  {
    PrefixFeasible(d, run, n);
    var h := if run[n].Succeed? then Hold(run[n].w, run[n].j) else Hold(run[n].c.w, run[n].c.j);
    HoldersHaveFetched(d, run[..n], h);
    var i :| 0 <= i < n && run[..n][i].Fetch? && run[..n][i].w == h.w && run[..n][i].j == h.j;
    assert run[i] == run[..n][i];
  }

  /** While an unreplayed job runs, the worker of its open log can report a failure, as long as it has not crashed. */
  lemma {:induction false} HolderCanReportFailure(d: B.Delays, run: seq<Event>, j: JobId, k: int) returns (e: Event)
    requires Feasible(d, run) && IsRunning(After(d, run).db, j) && TallyOf(run, j).replays == 0
    requires IsOpen(After(d, run).db.logs, k, j)
    requires Hold(After(d, run).db.logs[k].workerId, j) in After(d, run).hands
    ensures e.WorkerFail? && e.c.j == j && e.c.w == After(d, run).db.logs[k].workerId && e.c.latest == Some(k)
    ensures Enabled(After(d, run), e)
  {
    ReachableLedger(d, run, j);
    var s := After(d, run);
    var latest := Q.LatestOf(s.db.logs, j);
    Q.LatestOfIsLatest(s.db.logs, j);
    OwnFailureAccepted(s, j, k, latest, s.now + 1);
    e := WorkerFail(Charge(j, s.db.logs[k].workerId, latest, "failed", 0, s.now, s.now + 1, s.now + 1,
                           Exhausts(s.db.jobs[j])));
  }

  // ---- stuck jobs ----

  /** No worker has the job in its hands. */
  ghost predicate Unheld(s: Sys, j: JobId) {
    forall w :: Hold(w, j) !in s.hands
  }

  /** Some log of the job carries a higher attempt number than its open one. */
  ghost predicate OpenIsOutranked(logs: seq<LogRow>, j: JobId) {
    exists k, i :: IsOpen(logs, k, j) && IsLogOf(logs, i, j) && logs[k].attempt < logs[i].attempt
  }

  ghost predicate Stuck(s: Sys, j: JobId) {
    IsRunning(s.db, j) && Unheld(s, j) && OpenIsOutranked(s.db.logs, j)
  }

  /** A job replayed although it allows retries is in that position whenever it runs. */
  lemma {:induction false} OutrankedWhileRunning(s: Sys, j: JobId)
    requires Inv(s) && IsRunning(s.db, j) && Outranked(s.db, j)
    ensures OpenIsOutranked(s.db.logs, j)
  {
    assert JobOk(s.db.jobs[j], s.db.logs);
    var k :| IsOpen(s.db.logs, k, j) && s.db.logs[k].attempt == 1;
    var top :| IsLogOf(s.db.logs, top, j) && s.db.logs[top].finishedAt.Some? && s.db.logs[top].attempt >= 2;
  }

  /** The ownership check turns down every failure of a job whose open log is outranked. */
  lemma {:induction false} OutrankedOpenRefusesFailure(s: Sys, e: Event, j: JobId)
    requires Inv(s) && Enabled(s, e) && IsRunning(s.db, j) && OpenIsOutranked(s.db.logs, j)
    ensures !IsChargeOf(e, j)
  {
    assert JobOk(s.db.jobs[j], s.db.logs);
    if IsChargeOf(e, j) {
      ChargeNamesAWorker(s, e);
      ChargeClosesTheOpenLog(s, ChargeOf(e).value);
    }
  }

  lemma {:induction false} RunningUntouched(s: Sys, e: Event, j: JobId)
    requires Inv(s) && Enabled(s, e) && IsRunning(s.db, j) && !IsChargeOf(e, j) && !EndsIt(e, j)
    ensures !Touches(e, j)
  {
    if e.AdminReplay? {
      ReplayOverwritesWhatWasRead(s, e);
    }
  }

  lemma {:induction false} StuckStep(s: Sys, e: Event, j: JobId)
    requires Inv(s) && Enabled(s, e) && Stuck(s, j) && !(e.AdminDelete? && e.j == j)
    ensures Stuck(Apply(s, e), j)
  {
    OutrankedOpenRefusesFailure(s, e, j);
    RunningUntouched(s, e, j);
    Untouched(s, e, j);
    var k, i :| IsOpen(s.db.logs, k, j) && IsLogOf(s.db.logs, i, j) && s.db.logs[k].attempt < s.db.logs[i].attempt;
    var after := Apply(s, e).db.logs;
    assert IsOpen(after, k, j) && IsLogOf(after, i, j) && after[k].attempt < after[i].attempt;
  }

  ghost predicate Spares(es: seq<Event>, j: JobId) {
    forall i | 0 <= i < |es| :: !(es[i].AdminDelete? && es[i].j == j)
  }

  ghost predicate SparesAll(es: seq<Event>) {
    forall i | 0 <= i < |es| :: !es[i].AdminDelete?
  }

  lemma {:induction false} NothingDeleted(es: seq<Event>)
    requires forall e | e in es :: IsWork(e)
    ensures SparesAll(es) && forall j :: Spares(es, j)
  {
    assert forall i | 0 <= i < |es| :: es[i] in es;
  }

  lemma {:induction false} StuckAlong(path: seq<Sys>, es: seq<Event>, j: JobId, n: nat)
    requires Joins(path, es) && n <= |es| && Inv(path[0]) && Stuck(path[0], j) && Spares(es, j)
    ensures Inv(path[n]) && Stuck(path[n], j)
  {
    if n > 0 {
      StuckAlong(path, es, j, n - 1);
      assert Goes(path[n - 1], es[n - 1], path[n]);
      StuckStep(path[n - 1], es[n - 1], j);
      EventKeepsInv(path[n - 1], es[n - 1]);
    }
  }

  /** A stuck job stays stuck through anything but a late delete. */
  lemma {:induction false} StuckForGood(s: Sys, es: seq<Event>, t: Sys, j: JobId)
    requires Inv(s) && Stuck(s, j) && Leads(s, es, t) && Spares(es, j)
    ensures Stuck(t, j)
  {
    var path :| Joins(path, es) && path[0] == s && path[|es|] == t;
    StuckAlong(path, es, j, |es|);
  }

  // ---- reclaimers alone take a job back ----

  lemma {:induction false} UnusedReclaimer(taken: set<nat>) returns (r: nat)
    ensures forall x | x in taken :: x < r
    decreases |taken|
  {
    r := 0;
    if taken != {} {
      var x :| x in taken;
      var above := UnusedReclaimer(taken - {x});
      r := if x < above then above else x + 1;
      assert forall y | y in taken :: y == x || y in taken - {x};
    }
  }

  /** Events in which nobody is deleted, replayed, purged or given up. */
  predicate IsWork(e: Event) {
    e.Upsert? || e.Fetch? || e.Succeed? || IsReclaiming(e)
  }

  predicate IsReclaiming(e: Event) {
    e.Prune? || e.ListRunning? || e.ReadLogs? || e.ReadWorker? || e.ReclaimFail? || e.EndReclaim?
  }

  /** t is s after the one failure of j that closes log k; hands and other processes are as they were. */
  ghost predicate TakenBack(s: Sys, j: JobId, k: int, t: Sys)
    requires IsRunning(s.db, j) && IsOpen(s.db.logs, k, j)
  {
    && Inv(t) && t.hands == s.hands && t.issued == s.issued
    && t.reclaimers == s.reclaimers && t.admins == s.admins && t.delays == s.delays
    && t.db.jobs.Keys == s.db.jobs.Keys && (forall i | i in s.db.jobs && i != j :: t.db.jobs[i] == s.db.jobs[i])
    && var before, after := s.db.jobs[j], t.db.jobs[j];
       && after == before.(retriesCount := before.retriesCount + 1, errorMessage := after.errorMessage,
                           status := if before.retriesCount + 1 > before.maxRetries then DeadLetter else Pending,
                           runAt := after.runAt, updatedAt := after.updatedAt)
       && (after.status == DeadLetter ==> after.runAt == before.runAt)
       && |t.db.logs| == |s.db.logs| && t.db.logs[k].finishedAt.Some?
       && t.db.logs == s.db.logs[k := t.db.logs[k]]
       && t.db.logs[k] == s.db.logs[k].(status := ExecutionFailed, finishedAt := t.db.logs[k].finishedAt,
                                        errorMessage := t.db.logs[k].errorMessage)
  }

  function StaleTime(s: Sys, w: WorkerId): (t: Time)
    ensures s.now < t && (w in s.db.workers ==> s.db.workers[w].lastHeartbeat < t - STALE_AFTER)
  {
    var silent := if w in s.db.workers then s.db.workers[w].lastHeartbeat + STALE_AFTER else s.now;
    Later(s.now, silent) + 1
  }

  /**
    When its worker stays silent for 30 s, a running job whose open log is the latest is taken back by a reclaimer,
    with nobody else's help.
    */
  lemma {:induction false} ReclaimersTakeBack(s: Sys, j: JobId, k: int) returns (es: seq<Event>, t: Sys)
    requires Inv(s) && IsRunning(s.db, j) && IsOpen(s.db.logs, k, j) && IsLatest(s.db.logs, j, k)
    ensures Leads(s, es, t) && TakenBack(s, j, k, t)
    ensures forall e | e in es :: IsReclaiming(e)
  {
    var r := UnusedReclaimer(s.reclaimers.Keys);
    assert r !in s.reclaimers.Keys;
    var now := StaleTime(s, s.db.logs[k].workerId);
    var looks, s3 := JudgedDead(s, r, j, k, now);
    var charge, s5 := ChargedAtLast(s3, s.reclaimers, r, j, k);
    ChargedIsTakenBack(s, j, k, now, s5);
    ThenAll(s, looks, s3, charge, s5);
    es, t := looks + charge, s5;
  }

  lemma {:induction false} JudgedDead(s: Sys, r: nat, j: JobId, k: int, now: Time) returns (es: seq<Event>, t: Sys)
    requires Inv(s) && r !in s.reclaimers && IsRunning(s.db, j) && IsLatest(s.db.logs, j, k) && s.now < now
    requires var w := s.db.logs[k].workerId; w in s.db.workers ==> s.db.workers[w].lastHeartbeat < now - STALE_AFTER
    ensures Leads(s, es, t) && Inv(t) && forall e | e in es :: IsReclaiming(e)
    ensures t == s.(db := Pruned(s.db, now, STALE_AFTER), now := now,
                    reclaimers := s.reclaimers[r := Charging([j], s.db.logs[k].workerId)])
  {
    var opening := [Prune(now), ListRunning(r, [j])];
    var s2 := OpeningOfAPass(s, r, [j], now);
    SilentIsDead(s.db, s.db.logs[k].workerId, now);
    var looks;
    looks, t := LookedUpDead(s2, r, j, k);
    ThenAll(s, opening, s2, looks, t);
    es := opening + looks;
    assert s.reclaimers[r := Scanning([j])][r := Charging([j], s.db.logs[k].workerId)]
        == s.reclaimers[r := Charging([j], s.db.logs[k].workerId)];
  }

  /** The tables after a reclaimer failed the attempt of log k. */
  function Recovered(d: B.Delays, db: DB, j: JobId, k: int, now: Time): DB
    requires d.Valid() && j in db.jobs && 0 <= k < |db.logs|
  {
    Charged(db, j, db.logs[k].workerId, Some(k), "worker process terminated unexpectedly",
            B.Calculate(d, db.jobs[j].retriesCount + 1, 0), now, now, now)
  }

  lemma {:induction false} ChargedAtLast(s3: Sys, rest: map<nat, Reclaimer>, r: nat, j: JobId, k: int)
    returns (es: seq<Event>, t: Sys)
    requires Inv(s3) && IsRunning(s3.db, j) && IsOpen(s3.db.logs, k, j) && IsLatest(s3.db.logs, j, k)
    requires r !in rest && s3.reclaimers == rest[r := Charging([j], s3.db.logs[k].workerId)]
    requires s3.db.jobs[j].updatedAt < s3.now
    ensures Leads(s3, es, t) && Inv(t) && |es| == 2 && es[0].ReclaimFail? && es[1].EndReclaim?
    ensures t == s3.(db := Recovered(s3.delays, s3.db, j, k, s3.now), reclaimers := rest)
  {
    var e, s4 := ChargedNow(s3, rest, r, j, k);
    t := EndOfAPass(rest, r, Scanning([]), s4);
    ThenAll(s3, [e], s4, [EndReclaim(r)], t);
    es := [e] + [EndReclaim(r)];
  }

  lemma {:induction false} ChargedNow(s3: Sys, rest: map<nat, Reclaimer>, r: nat, j: JobId, k: int)
    returns (e: Event, s4: Sys)
    requires Inv(s3) && IsRunning(s3.db, j) && IsOpen(s3.db.logs, k, j) && IsLatest(s3.db.logs, j, k)
    requires s3.reclaimers == rest[r := Charging([j], s3.db.logs[k].workerId)]
    requires s3.db.jobs[j].updatedAt < s3.now
    ensures e.ReclaimFail? && Leads(s3, [e], s4) && Inv(s4)
    ensures s4 == s3.(db := Recovered(s3.delays, s3.db, j, k, s3.now), reclaimers := rest[r := Scanning([])])
  {
    var now := s3.now;
    e, s4 := JobIsCharged(s3, r, j, k, "worker process terminated unexpectedly", 0, now, now, now);
    assert Rest([j]) == [];
    Overwritten(s3.reclaimers, rest, r, Charging([j], s3.db.logs[k].workerId), Scanning([]));
  }

  lemma {:induction false} Overwritten(all: map<nat, Reclaimer>, rest: map<nat, Reclaimer>, r: nat, p: Reclaimer,
                                       q: Reclaimer)
    requires all == rest[r := p]
    ensures all[r := q] == rest[r := q]
  {
  }

  lemma {:induction false} SilentIsDead(db: DB, w: WorkerId, now: Time)
    requires w in db.workers ==> db.workers[w].lastHeartbeat < now - STALE_AFTER
    ensures DeadWorker(Pruned(db, now, STALE_AFTER).workers, w)
  {
  }

  lemma {:induction false} LookedUpDead(s: Sys, r: nat, j: JobId, k: int) returns (es: seq<Event>, t: Sys)
    requires Inv(s) && r in s.reclaimers && s.reclaimers[r] == Scanning([j]) && IsLatest(s.db.logs, j, k)
    requires DeadWorker(s.db.workers, s.db.logs[k].workerId)
    ensures es == [ReadLogs(r, Some(k)), ReadWorker(r)] && Leads(s, es, t) && Inv(t)
    ensures t == s.(reclaimers := s.reclaimers[r := Charging([j], s.db.logs[k].workerId)])
  {
    es := [ReadLogs(r, Some(k)), ReadWorker(r)];
    t := WorkerIsLookedUp(s, r, j, k);
  }

  lemma {:induction false} ChargedIsTakenBack(s: Sys, j: JobId, k: int, now: Time, t: Sys)
    requires Inv(s) && IsRunning(s.db, j) && IsOpen(s.db.logs, k, j) && Inv(t) && s.now < now
    requires t == s.(now := now, db := Recovered(s.delays, Pruned(s.db, now, STALE_AFTER), j, k, now))
    ensures TakenBack(s, j, k, t)
  {
    assert s.db.logs[k].workerId != "";
  }

  // ---- one job ----

  /** Some continuation in which nobody deletes the job takes it out of `running`. */
  ghost predicate CanLeave(s: Sys, j: JobId) {
    exists es, t :: Leads(s, es, t) && Spares(es, j) && !IsRunning(t.db, j)
  }

  /** With its holder gone, a running job can leave `running` exactly when no log outranks its open one. */
  lemma {:induction false} LeavesRunningIff(s: Sys, j: JobId)
    requires Inv(s) && IsRunning(s.db, j) && Unheld(s, j)
    ensures CanLeave(s, j) <==> !OpenIsOutranked(s.db.logs, j)
  {
    if OpenIsOutranked(s.db.logs, j) {
      forall es, t | Leads(s, es, t) && Spares(es, j)
        ensures IsRunning(t.db, j)
      {
        StuckForGood(s, es, t, j);
      }
    } else {
      var k := OpenLatest(s, j);
      var es, t := ReclaimersTakeBack(s, j, k);
      NothingDeleted(es);
      assert t.db.jobs[j].status == DeadLetter || t.db.jobs[j].status == Pending;
      assert Leads(s, es, t) && Spares(es, j) && !IsRunning(t.db, j);
    }
  }

  lemma {:induction false} OpenLatest(s: Sys, j: JobId) returns (k: int)
    requires Inv(s) && IsRunning(s.db, j) && !OpenIsOutranked(s.db.logs, j)
    ensures IsOpen(s.db.logs, k, j) && IsLatest(s.db.logs, j, k)
  {
    assert JobOk(s.db.jobs[j], s.db.logs);
    k :| IsOpen(s.db.logs, k, j);
  }

  lemma {:induction false} UnreplayedIsNotOutranked(s: Sys, j: JobId)
    requires Inv(s) && IsRunning(s.db, j) && Unreplayed(s.db, j)
    ensures !OpenIsOutranked(s.db.logs, j)
  {
    Q.LatestOfIsLatest(s.db.logs, j);
    forall k | IsOpen(s.db.logs, k, j)
      ensures IsLatest(s.db.logs, j, k)
    {
      OwnFailureAccepted(s, j, k, Q.LatestOf(s.db.logs, j), s.now);
    }
  }

  // ---- the whole queue ----

  ghost predicate Finished(jobs: map<JobId, JobRow>) {
    forall j | j in jobs :: jobs[j].status == Completed || jobs[j].status == DeadLetter
  }

  /** Some continuation without DLQ deletes ends with every job completed or dead-lettered. */
  ghost predicate CanFinish(s: Sys) {
    exists es, t :: Leads(s, es, t) && SparesAll(es) && Finished(t.db.jobs)
  }

  /** Less work is left, no job is lost and none is stuck. */
  ghost predicate Better(s: Sys, t: Sys) {
    && Inv(t) && t.db.jobs.Keys == s.db.jobs.Keys && TotalWork(t.db.jobs) < TotalWork(s.db.jobs)
    && forall i :: !Stuck(t, i)
  }

  lemma {:induction false} NotStuckElsewhere(s: Sys, t: Sys, i: JobId)
    requires !Stuck(s, i) && SameLogsOf(s.db.logs, t.db.logs, i)
    requires i in t.db.jobs ==> i in s.db.jobs && t.db.jobs[i] == s.db.jobs[i]
    requires forall w :: Hold(w, i) in s.hands ==> Hold(w, i) in t.hands
    ensures !Stuck(t, i)
  {
    if Stuck(t, i) {
      var k, n :| IsOpen(t.db.logs, k, i) && IsLogOf(t.db.logs, n, i) && t.db.logs[k].attempt < t.db.logs[n].attempt;
      assert IsOpen(s.db.logs, k, i) && IsLogOf(s.db.logs, n, i);
    }
  }

  lemma {:induction false} LongId(logs: seq<LogRow>, n: nat) returns (id: LogId)
    requires n <= |logs|
    ensures id != "" && forall k | 0 <= k < n :: |logs[k].id| < |id|
  {
    id := "x";
    for m := 0 to n
      invariant id != "" && forall k | 0 <= k < m :: |logs[k].id| < |id|
    {
      if |logs[m].id| >= |id| {
        id := logs[m].id + "x";
      }
    }
  }

  /** While a job is pending, some fetch by any worker is possible. */
  lemma {:induction false} SomeFetch(s: Sys, j: JobId, w: WorkerId) returns (e: Event)
    requires Inv(s) && j in s.db.jobs && s.db.jobs[j].status == Pending && w != ""
    ensures e.Fetch? && e.w == w && Enabled(s, e)
  {
    var row := s.db.jobs[j];
    var t := if row.runAt > s.now then row.runAt else s.now + 1;
    var due := set i | i in s.db.jobs && Eligible(s.db.jobs[i], row.queue, t);
    assert j in due;
    var first := Q.FirstToAcquire(s.db.jobs, due);
    var logId := LongId(s.db.logs, |s.db.logs|);
    e := Fetch(w, row.queue, first, logId, t, t);
  }

  /** Whoever holds a running job can report its success. */
  lemma {:induction false} HolderCanSucceed(s: Sys, j: JobId, w: WorkerId) returns (e: Event)
    requires Inv(s) && IsRunning(s.db, j) && Hold(w, j) in s.hands
    ensures e.Succeed? && e.j == j && e.w == w && Enabled(s, e)
  {
    Q.LatestOfIsLatest(s.db.logs, j);
    e := Succeed(w, j, Q.LatestOf(s.db.logs, j), s.now + 1, s.now + 1);
  }

  lemma {:induction false} AfterFetch(s: Sys, e: Event)
    requires Inv(s) && Enabled(s, e) && e.Fetch? && forall i :: !Stuck(s, i)
    ensures Better(s, Apply(s, e))
  {
    var t := Apply(s, e);
    EventKeepsInv(s, e);
    KeysAfter(s, e);
    FetchLowersWork(s, e);
    forall i
      ensures !Stuck(t, i)
    {
      if i == e.j {
        assert Hold(e.w, e.j) in t.hands;
      } else {
        Untouched(s, e, i);
        NotStuckElsewhere(s, t, i);
      }
    }
  }

  lemma {:induction false} AfterSuccess(s: Sys, e: Event)
    requires Inv(s) && Enabled(s, e) && e.Succeed? && forall i :: !Stuck(s, i)
    ensures Better(s, Apply(s, e))
  {
    var t := Apply(s, e);
    EventKeepsInv(s, e);
    KeysAfter(s, e);
    SuccessLowersWork(s, e);
    forall i
      ensures !Stuck(t, i)
    {
      SuccessStrandsNobody(s, e, i);
    }
  }

  lemma {:induction false} SuccessStrandsNobody(s: Sys, e: Event, i: JobId)
    requires Inv(s) && Enabled(s, e) && e.Succeed? && !Stuck(s, i)
    ensures !Stuck(Apply(s, e), i)
  {
    if i != e.j {
      Untouched(s, e, i);
      NotStuckElsewhere(s, Apply(s, e), i);
    }
  }

  lemma {:induction false} AfterTakingBack(s: Sys, j: JobId, k: int, t: Sys)
    requires Inv(s) && IsRunning(s.db, j) && IsOpen(s.db.logs, k, j) && TakenBack(s, j, k, t)
    requires forall i :: !Stuck(s, i)
    ensures Better(s, t)
  {
    assert t.db.jobs == s.db.jobs[j := t.db.jobs[j]];
    assert JobOk(s.db.jobs[j], s.db.logs);
    TotalAfterWrite(s.db.jobs, j, t.db.jobs[j]);
    forall i
      ensures !Stuck(t, i)
    {
      if i != j {
        NotStuckElsewhere(s, t, i);
      }
    }
  }

  lemma {:induction false} AfterRegistering(s: Sys, node: WorkerRow)
    requires Inv(s) && node.id != "" && node.status != Stopped && forall i :: !Stuck(s, i)
    ensures Enabled(s, Upsert(node))
    ensures var t := Apply(s, Upsert(node)); Inv(t) && t.db.jobs == s.db.jobs && forall i :: !Stuck(t, i)
  {
    var t := Apply(s, Upsert(node));
    EventKeepsInv(s, Upsert(node));
    forall i
      ensures !Stuck(t, i)
    {
      NotStuckElsewhere(s, t, i);
    }
  }

  /** A worker registers and fetches. */
  lemma {:induction false} NewWorkerFetches(s: Sys, j: JobId) returns (es: seq<Event>, t: Sys)
    requires Inv(s) && j in s.db.jobs && s.db.jobs[j].status == Pending && forall i :: !Stuck(s, i)
    ensures Leads(s, es, t) && Better(s, t) && forall e | e in es :: IsWork(e)
  {
    var node := WorkerRow("w", "host", s.db.jobs[j].queue, 1, Idle, 0, 0);
    AfterRegistering(s, node);
    var s1 := Apply(s, Upsert(node));
    var e := SomeFetch(s1, j, "w");
    AfterFetch(s1, e);
    t := Apply(s1, e);
    OneEvent(s, Upsert(node));
    OneEvent(s1, e);
    ThenAll(s, [Upsert(node)], s1, [e], t);
    es := [Upsert(node)] + [e];
  }

  /** An unfinished job lets the work go down: by a fetch, by its holder's success, or by a reclaim. */
  lemma {:induction false} OneStepBetter(s: Sys, j: JobId) returns (es: seq<Event>, t: Sys)
    requires Inv(s) && j in s.db.jobs && s.db.jobs[j].status !in {Completed, DeadLetter}
    requires forall i :: !Stuck(s, i)
    ensures Leads(s, es, t) && Better(s, t) && forall e | e in es :: IsWork(e)
  {
    assert JobOk(s.db.jobs[j], s.db.logs);
    if s.db.jobs[j].status == Pending {
      es, t := NewWorkerFetches(s, j);
    } else if w :| Hold(w, j) in s.hands {
      var e := HolderCanSucceed(s, j, w);
      OneEvent(s, e);
      AfterSuccess(s, e);
      es, t := [e], Apply(s, e);
    } else {
      assert !Stuck(s, j);
      var k := OpenLatest(s, j);
      es, t := ReclaimersTakeBack(s, j, k);
      AfterTakingBack(s, j, k, t);
    }
  }

  /** Fetches, successes of holders and reclaims are enough to finish every job when none is stuck. */
  lemma {:induction false} WorkedOff(s: Sys) returns (es: seq<Event>, t: Sys)
    requires Inv(s) && forall i :: !Stuck(s, i)
    ensures Leads(s, es, t) && Finished(t.db.jobs) && t.db.jobs.Keys == s.db.jobs.Keys
    ensures forall e | e in es :: IsWork(e)
    decreases TotalWork(s.db.jobs)
  {
    if j :| j in s.db.jobs && s.db.jobs[j].status !in {Completed, DeadLetter} {
      var front, mid := OneStepBetter(s, j);
      WorkIsNatural(s);
      TotalOfFewer(s.db.jobs, s.db.jobs);
      var back;
      back, t := WorkedOff(mid);
      ThenAll(s, front, mid, back, t);
      es := front + back;
    } else {
      NoEvents(s);
      es, t := [], s;
    }
  }

  /** The queue can be worked off, deleting nothing, exactly when no job is stuck. */
  lemma {:induction false} CanFinishIff(s: Sys)
    requires Inv(s)
    ensures CanFinish(s) <==> forall j :: !Stuck(s, j)
  {
    if forall j :: !Stuck(s, j) {
      var es, t := WorkedOff(s);
      NothingDeleted(es);
      assert Leads(s, es, t) && SparesAll(es) && Finished(t.db.jobs);
    }
    forall es, t, j | Leads(s, es, t) && SparesAll(es) && Stuck(s, j)
      ensures !Finished(t.db.jobs)
    {
      StuckForGood(s, es, t, j);
    }
  }

  /**
    Runs without replays only come to rest with every job completed or dead-lettered, whichever workers have
    crashed: from any of their states the queue can be worked off.
    */
  lemma {:induction false} RestsOnlyWhenFinished(d: B.Delays, run: seq<Event>) returns (es: seq<Event>)
    requires Feasible(d, run) && forall j | j in After(d, run).db.jobs :: TallyOf(run, j).replays == 0
    ensures Feasible(d, run + es) && Finished(After(d, run + es).db.jobs)
    ensures After(d, run + es).db.jobs.Keys == After(d, run).db.jobs.Keys
    ensures forall e | e in es :: IsWork(e)
  {
    var s := After(d, run);
    ReachableInv(d, run);
    forall j
      ensures !Stuck(s, j)
    {
      if IsRunning(s.db, j) {
        ReachableLedger(d, run, j);
        UnreplayedIsNotOutranked(s, j);
      }
    }
    var t;
    es, t := WorkedOff(s);
    LengthensTheRun(d, run, es, t);
  }
}
