/** Concrete runs showing where the code does less than its documentation says, and the exact conditions. */
module Witnesses {
  import opened Domain
  import opened Tables
  import opened Protocol
  import opened Invariants
  import opened History
  import B = Backoff
  import P = Progress
  import opened Steps

  function JobNamed(j: JobId, maxRetries: nat): JobRow {
    JobRow(j, "type", "{}", "default", Pending, 0, maxRetries, 0, "", 0, 0, 0)
  }

  lemma {:induction false} Extend(d: B.Delays, run: seq<Event>, e: Event)
    requires Feasible(d, run) && Enabled(After(d, run), e)
    ensures Feasible(d, run + [e]) && After(d, run + [e]) == Apply(After(d, run), e)
    ensures forall j :: TallyOf(run + [e], j) == Bump(TallyOf(run, j), e, j)
  {
    Extended(d, run, e);
    var r := run + [e];
    assert r[..|r| - 1] == run && r[|r| - 1] == e;
  }

  // ---- success does not check who runs the job ----

  /**
    A success leaves the job without an open log exactly when the latest log is the caller's and open.
    */
  lemma {:induction false} SuccessClosesIff(s: Sys, e: Event)
    requires Inv(s) && Enabled(s, e) && e.Succeed?
    ensures NoOpen(Apply(s, e).db.logs, e.j) <==>
            e.latest.Some? && IsOpen(s.db.logs, e.latest.value, e.j)
            && s.db.logs[e.latest.value].workerId == e.w
  {
    assert JobOk(s.db.jobs[e.j], s.db.logs);
    var k :| IsOpen(s.db.logs, k, e.j);
    ClosingFrame(s.db.logs, e.j, e.latest, e.w, false, ExecutionSuccess, e.t2, "");
    var after := Apply(s, e).db.logs;
    if NoOpen(after, e.j) {
      assert !IsOpen(after, k, e.j);
    } else {
      var i :| IsOpen(after, i, e.j);
      assert IsOpen(s.db.logs, i, e.j);
    }
  }

  /** When another log outranks the open one, a success closes nothing, whoever reports it. */
  lemma {:induction false} OutrankedSuccessLeavesTheLogOpen(s: Sys, e: Event)
    requires Inv(s) && Enabled(s, e) && e.Succeed? && P.OpenIsOutranked(s.db.logs, e.j)
    ensures Apply(s, e).db.logs == s.db.logs && exists k :: IsOpen(s.db.logs, k, e.j)
  {
    assert JobOk(s.db.jobs[e.j], s.db.logs);
    if Closes(s.db.logs, e.latest, e.w, false) {
      assert IsOpen(s.db.logs, e.latest.value, e.j);
    }
  }

  /**
    A job is taken back from its silent owner and fetched by the next worker; then the owner reports success. The
    job is completed, and the log of the next worker stays open.
    */
  lemma {:induction false} StaleWorkerMayComplete() returns (run: seq<Event>, k: int)
    ensures Feasible(B.UNIT, run) && |run| > 0
    ensures run[|run| - 1].Succeed? && run[|run| - 1].w == "owner" && run[|run| - 1].j == "j"
    ensures var db := After(B.UNIT, run).db;
            && "j" in db.jobs && db.jobs["j"].status == Completed
            && IsOpen(db.logs, k, "j") && db.logs[k].workerId == "next"
  {
    run := TakenFromItsOwner();
    run := FetchedByTheNext(run);
    k := 1;
    var s := After(B.UNIT, run);
    ReachableInv(B.UNIT, run);
    var e := P.HolderCanSucceed(s, "j", "owner");
    LateSuccess(s, e);
    Extend(B.UNIT, run, e);
    run := run + [e];
  }

  lemma {:induction false} LateSuccess(s: Sys, e: Event)
    requires s.delays.Valid() && Enabled(s, e) && e.Succeed? && e.w == "owner" && e.j == "j"
    requires |s.db.logs| == 2 && s.db.logs[0].jobId == "j" && s.db.logs[0].attempt == 1
    requires IsOpen(s.db.logs, 1, "j") && s.db.logs[1].attempt == 2 && s.db.logs[1].workerId == "next"
    ensures var db := Apply(s, e).db; "j" in db.jobs && db.jobs["j"].status == Completed && db.logs == s.db.logs
  {
    assert IsLatest(s.db.logs, "j", 1);
    assert e.latest == Some(1);
  }

  /** The owner has fetched the job and fallen silent; a reclaimer has failed its attempt. */
  lemma {:induction false} TakenFromItsOwner() returns (run: seq<Event>)
    ensures Feasible(B.UNIT, run)
    ensures var s := After(B.UNIT, run);
            && Inv(s) && s.db.jobs.Keys == {"j"}
             && s.db.jobs["j"].status == Pending && s.db.jobs["j"].retriesCount == 1
            && |s.db.logs| == 1 && s.db.logs[0].jobId == "j" && s.db.logs[0].attempt == 1
            && s.hands == multiset{Hold("owner", "j")}
  {
    var first := FirstAttempt("owner", 1);
    ReachableInv(B.UNIT, first);
    var s := After(B.UNIT, first);
    assert IsLatest(s.db.logs, "j", 0);
    var es, t := P.ReclaimersTakeBack(s, "j", 0);
    LengthensTheRun(B.UNIT, first, es, t);
    run := first + es;
  }

  lemma {:induction false} FetchedByTheNext(before: seq<Event>) returns (run: seq<Event>)
    requires Feasible(B.UNIT, before)
    requires var s := After(B.UNIT, before);
             && Inv(s) && s.db.jobs.Keys == {"j"}
             && s.db.jobs["j"].status == Pending && s.db.jobs["j"].retriesCount == 1
             && |s.db.logs| == 1 && s.db.logs[0].jobId == "j" && s.db.logs[0].attempt == 1
             && s.hands == multiset{Hold("owner", "j")}
    ensures Feasible(B.UNIT, run)
    ensures var s := After(B.UNIT, run);
            && IsRunning(s.db, "j") && Hold("owner", "j") in s.hands
            && |s.db.logs| == 2 && s.db.logs[0].jobId == "j" && s.db.logs[0].attempt == 1
            && IsOpen(s.db.logs, 1, "j") && s.db.logs[1].attempt == 2 && s.db.logs[1].workerId == "next"
  {
    Extend(B.UNIT, before, Upsert(Node("next")));
    run := before + [Upsert(Node("next"))];
    ReachableInv(B.UNIT, run);
    var e := P.SomeFetch(After(B.UNIT, run), "j", "next");
    Extend(B.UNIT, run, e);
    run := run + [e];
  }

  function Node(w: WorkerId): WorkerRow {
    WorkerRow(w, "host", "default", 1, Idle, 0, 0)
  }

  /** A worker registers; one job is enqueued, and the worker fetches it. */
  lemma {:induction false} FirstAttempt(w: WorkerId, maxRetries: nat) returns (run: seq<Event>)
    requires w != ""
    ensures Feasible(B.UNIT, run)
    ensures var s, row := After(B.UNIT, run), JobNamed("j", maxRetries).(status := Running, updatedAt := 1);
            && s.db == DB(map["j" := row], [OpenedLog("a1", row, w, 1)], map[w := Node(w)])
            && s.now == 1 && s.admins == map[] && s.reclaimers == map[] && s.hands == multiset{Hold(w, "j")}
    ensures TallyOf(run, "j").replays == 0
  {
    var e0 := Upsert(Node(w));
    Extend(B.UNIT, [], e0);
    var e1 := Enqueue(JobNamed("j", maxRetries));
    Extend(B.UNIT, [e0], e1);
    var e2 := Fetch(w, "default", "j", "a1", 1, 1);
    assert [] + [e0] == [e0] && [e0] + [e1] == [e0, e1];
    Extend(B.UNIT, [e0, e1], e2);
    run := [e0, e1] + [e2];
  }

  // ---- a delete that lost its race ----

  ghost predicate DeadLettered(s: Sys, maxRetries: nat, version: Time) {
    && s.db.jobs.Keys == {"j"}
    && s.db.jobs["j"].id == "j" && s.db.jobs["j"].status == DeadLetter && s.db.jobs["j"].queue == "default"
    && s.db.jobs["j"].maxRetries == maxRetries && s.db.jobs["j"].updatedAt == version
    && s.now <= version && s.hands == multiset{}
  }

  /** From a dead-lettered job: an administrator reads and replays it, and a worker fetches it. */
  lemma {:induction false} ReplayAndFetch(before: seq<Event>, a: nat, logId: LogId, maxRetries: nat, version: Time)
    returns (run: seq<Event>)
    requires Feasible(B.UNIT, before) && DeadLettered(After(B.UNIT, before), maxRetries, version)
    requires a !in After(B.UNIT, before).admins && logId != ""
    requires forall k | 0 <= k < |After(B.UNIT, before).db.logs| :: After(B.UNIT, before).db.logs[k].id != logId
    ensures Feasible(B.UNIT, run)
    ensures var s, t := After(B.UNIT, before), After(B.UNIT, run);
            && IsRunning(t.db, "j") && t.admins == s.admins && t.hands == multiset{Hold("w", "j")}
            && IsOpen(t.db.logs, |s.db.logs|, "j") && t.db.logs[|s.db.logs|].workerId == "w"
            && t.db.jobs["j"].maxRetries == maxRetries
    ensures TallyOf(run, "j").replays == TallyOf(before, "j").replays + 1
  {
    run := Replay(before, a, None, maxRetries, version);
    var e := Fetch("w", "default", "j", logId, version + 2, version + 2);
    Extend(B.UNIT, run, e);
    run := run + [e];
  }

  lemma {:induction false} Replay(before: seq<Event>, a: nat, target: Option<string>, maxRetries: nat, version: Time)
    returns (run: seq<Event>)
    requires Feasible(B.UNIT, before) && DeadLettered(After(B.UNIT, before), maxRetries, version)
    requires a !in After(B.UNIT, before).admins
    ensures Feasible(B.UNIT, run)
    ensures var s, t := After(B.UNIT, before), After(B.UNIT, run);
            && t.db.logs == s.db.logs && t.admins == s.admins && t.now == version + 1 && t.hands == s.hands
            && t.db.jobs.Keys == {"j"}
            && t.db.jobs["j"] == ReplayedRow(s.db.jobs["j"], version + 1, version + 1)
    ensures |run| > 0 && run[|run| - 1] == AdminReplay(a, "j", target, version + 1, version + 1)
    ensures TallyOf(run, "j").replays == TallyOf(before, "j").replays + 1
  {
    var s := After(B.UNIT, before);
    ReadsDeadJob(s, a, maxRetries, version);
    var e1 := AdminRead(a, "j", false);
    Extend(B.UNIT, before, e1);
    run := before + [e1];
    ReplaysDeadJob(s, a, target, maxRetries, version);
    var e2 := AdminReplay(a, "j", target, version + 1, version + 1);
    Extend(B.UNIT, run, e2);
    run := run + [e2];
  }

  function Holding(s: Sys, a: nat): Sys
    requires "j" in s.db.jobs
  {
    s.(admins := s.admins[a := HoldsForReplay(s.db.jobs["j"])])
  }

  lemma {:induction false} ReadsDeadJob(s: Sys, a: nat, maxRetries: nat, version: Time)
    requires s.delays.Valid() && DeadLettered(s, maxRetries, version) && a !in s.admins
    ensures Enabled(s, AdminRead(a, "j", false)) && Apply(s, AdminRead(a, "j", false)) == Holding(s, a)
  {
  }

  lemma {:induction false} ReplaysDeadJob(s: Sys, a: nat, target: Option<string>, maxRetries: nat, version: Time)
    requires s.delays.Valid() && DeadLettered(s, maxRetries, version) && a !in s.admins
    ensures var e := AdminReplay(a, "j", target, version + 1, version + 1);
            && Enabled(Holding(s, a), e)
            && var t := Apply(Holding(s, a), e);
               && t.db.logs == s.db.logs && t.admins == s.admins && t.now == version + 1 && t.hands == s.hands
               && t.db.jobs.Keys == {"j"}
               && t.db.jobs["j"] == ReplayedRow(s.db.jobs["j"], version + 1, version + 1)
  {
    assert s.admins[a := HoldsForReplay(s.db.jobs["j"])] - {a} == s.admins;
  }

  /** One attempt, and it fails: with no retries allowed the job is dead-lettered at once. */
  lemma {:induction false} FailOnce() returns (run: seq<Event>)
    ensures Feasible(B.UNIT, run) && DeadLettered(After(B.UNIT, run), 0, 2)
    ensures |After(B.UNIT, run).db.logs| == 1 && After(B.UNIT, run).db.logs[0].id == "a1"
    ensures After(B.UNIT, run).admins == map[]
  {
    var first := FirstAttempt("w", 0);
    assert IsLatest(After(B.UNIT, first).db.logs, "j", 0);
    var e := WorkerFail(Charge("j", "w", Some(0), "boom", 0, 2, 2, 2, true));
    Extend(B.UNIT, first, e);
    run := first + [e];
  }

  /** One administrator reads the job to delete it; another replays it; a worker starts it; the delete lands. */
  lemma {:induction false} StaleDeleteRemovesARunningJob() returns (run: seq<Event>, e: Event)
    ensures Feasible(B.UNIT, run) && e.AdminDelete? && e.j == "j" && Enabled(After(B.UNIT, run), e)
    ensures var s := After(B.UNIT, run);
            && IsRunning(s.db, "j") && "j" !in Apply(s, e).db.jobs
            && exists k :: IsOpen(Apply(s, e).db.logs, k, "j")
  {
    run := FailOnceAndRead();
    run := ReplayAndFetch(run, 2, "a2", 0, 2);
    e := AdminDelete(1, "j");
    LateDelete(After(B.UNIT, run), 1);
  }

  /** The administrator who wants to delete the job has read it. */
  lemma {:induction false} FailOnceAndRead() returns (run: seq<Event>)
    ensures Feasible(B.UNIT, run) && DeadLettered(After(B.UNIT, run), 0, 2)
    ensures |After(B.UNIT, run).db.logs| == 1 && After(B.UNIT, run).db.logs[0].id == "a1"
    ensures var admins := After(B.UNIT, run).admins;
            admins.Keys == {1} && admins[1].HoldsForDelete? && admins[1].read.id == "j"
  {
    var once := FailOnce();
    var e := AdminRead(1, "j", true);
    Extend(B.UNIT, once, e);
    run := once + [e];
  }

  lemma {:induction false} LateDelete(s: Sys, k: int)
    requires s.delays.Valid() && IsRunning(s.db, "j") && IsOpen(s.db.logs, k, "j")
    requires 1 in s.admins && s.admins[1].HoldsForDelete? && s.admins[1].read.id == "j"
    ensures Enabled(s, AdminDelete(1, "j"))
    ensures var t := Apply(s, AdminDelete(1, "j")); "j" !in t.db.jobs && IsOpen(t.db.logs, k, "j")
  {
  }

  // ---- a restore to another queue ----

  /** Restore moves a job to the target queue exactly when it was there already. */
  lemma {:induction false} RestoreMovesIff(s: Sys, e: Event)
    requires Inv(s) && Enabled(s, e) && e.AdminReplay? && e.target.Some?
    ensures Apply(s, e).db.jobs[e.j].queue == e.target.value <==> s.db.jobs[e.j].queue == e.target.value
    ensures Apply(s, e).db.jobs[e.j].queue == s.db.jobs[e.j].queue
  {
  }

  /** A dead job of the default queue is restored to "urgent" and becomes pending in the default queue. */
  lemma {:induction false} RestoreLeavesTheQueue() returns (run: seq<Event>)
    ensures Feasible(B.UNIT, run) && |run| > 0
    ensures run[|run| - 1].AdminReplay? && run[|run| - 1].j == "j" && run[|run| - 1].target == Some("urgent")
    ensures var db := After(B.UNIT, run).db;
            "j" in db.jobs && db.jobs["j"].status == Pending && db.jobs["j"].queue == "default"
  {
    var once := FailOnce();
    run := Replay(once, 1, Some("urgent"), 0, 2);
  }

  // ---- a replayed job that fails again ----

  /** Two failures exhaust a job with one retry. */
  lemma {:induction false} FailTwice() returns (run: seq<Event>)
    ensures Feasible(B.UNIT, run) && DeadLettered(After(B.UNIT, run), 1, 6)
    ensures var logs := After(B.UNIT, run).db.logs;
            |logs| == 2 && logs[0].id == "a1" && logs[1].id == "a2"
    ensures TallyOf(run, "j").replays == 0 && After(B.UNIT, run).admins == map[]
  {
    var first := FirstAttempt("w", 1);
    var e := WorkerFail(Charge("j", "w", Some(0), "boom", 0, 2, 2, 2, false));
    FirstFailure(After(B.UNIT, first), e);
    Extend(B.UNIT, first, e);
    run := FailAgain(first + [e]);
  }

  lemma {:induction false} FirstFailure(s: Sys, e: Event)
    requires s.delays == B.UNIT && e == WorkerFail(Charge("j", "w", Some(0), "boom", 0, 2, 2, 2, false))
    requires s.now == 1 && s.admins == map[] && s.reclaimers == map[] && s.hands == multiset{Hold("w", "j")}
    requires var row := JobNamed("j", 1).(status := Running, updatedAt := 1);
             s.db.jobs == map["j" := row] && s.db.logs == [OpenedLog("a1", row, "w", 1)]
    ensures Enabled(s, e) && FailedOnce(Apply(s, e))
  {
    assert IsLatest(s.db.logs, "j", 0);
    B.SmallIsExact(1);
    B.FloatIsRoundedInteger(B.UNIT, 1, 0);
    assert DelayOf(s, e.c) == 1;
  }

  ghost predicate FailedOnce(s: Sys) {
    && s.db.jobs == map["j" := JobNamed("j", 1).(retriesCount := 1, errorMessage := "boom", runAt := 3, updatedAt := 2)]
    && s.now == 2 && s.admins == map[] && s.reclaimers == map[] && s.hands == multiset{}
    && |s.db.logs| == 1 && s.db.logs[0].id == "a1" && s.db.logs[0].jobId == "j" && s.db.logs[0].attempt == 1
  }

  lemma {:induction false} FetchAgain(before: seq<Event>) returns (run: seq<Event>)
    requires Feasible(B.UNIT, before) && TallyOf(before, "j").replays == 0
    requires FailedOnce(After(B.UNIT, before))
    ensures Feasible(B.UNIT, run) && TallyOf(run, "j").replays == 0
    ensures var s, t := After(B.UNIT, before), After(B.UNIT, run);
            && t.now == 5 && t.admins == map[] && t.reclaimers == map[] && t.hands == multiset{Hold("w", "j")}
            && t.db.jobs == map["j" := s.db.jobs["j"].(status := Running, updatedAt := 5)]
            && t.db.logs == s.db.logs + [OpenedLog("a2", s.db.jobs["j"], "w", 5)]
  {
    var e := Fetch("w", "default", "j", "a2", 5, 5);
    SecondFetch(After(B.UNIT, before), e);
    Extend(B.UNIT, before, e);
    run := before + [e];
  }

  lemma {:induction false} SecondFetch(s: Sys, e: Event)
    requires s.delays.Valid() && FailedOnce(s) && e == Fetch("w", "default", "j", "a2", 5, 5)
    ensures Enabled(s, e)
    ensures var t := Apply(s, e);
            && t.now == 5 && t.admins == map[] && t.reclaimers == map[] && t.hands == multiset{Hold("w", "j")}
            && t.db.jobs == map["j" := s.db.jobs["j"].(status := Running, updatedAt := 5)]
            && t.db.logs == s.db.logs + [OpenedLog("a2", s.db.jobs["j"], "w", 5)]
  {
  }

  lemma {:induction false} FailAgain(before: seq<Event>) returns (run: seq<Event>)
    requires Feasible(B.UNIT, before) && TallyOf(before, "j").replays == 0
    requires FailedOnce(After(B.UNIT, before))
    ensures Feasible(B.UNIT, run) && DeadLettered(After(B.UNIT, run), 1, 6)
    ensures var logs := After(B.UNIT, run).db.logs;
            |logs| == 2 && logs[0].id == "a1" && logs[1].id == "a2"
    ensures TallyOf(run, "j").replays == 0 && After(B.UNIT, run).admins == map[]
  {
    var second := FetchAgain(before);
    var e := WorkerFail(Charge("j", "w", Some(1), "boom", 0, 6, 6, 6, true));
    LastAttemptFails(After(B.UNIT, second), e);
    Extend(B.UNIT, second, e);
    run := second + [e];
  }

  /** The failure of the only open attempt of a job without retries left dead-letters it. */
  lemma {:induction false} LastAttemptFails(s: Sys, e: Event)
    requires s.delays == B.UNIT && s.now == 5 && s.db.jobs.Keys == {"j"} && s.hands == multiset{Hold("w", "j")}
    requires s.db.jobs["j"] == JobNamed("j", 1).(status := Running, retriesCount := 1, errorMessage := "boom",
                                                        runAt := 3, updatedAt := 5)
    requires |s.db.logs| == 2 && s.db.logs[0].jobId == "j" && s.db.logs[0].attempt == 1
    requires s.db.logs[1] == OpenedLog("a2", s.db.jobs["j"], "w", 5)
    requires e == WorkerFail(Charge("j", "w", Some(1), "boom", 0, 6, 6, 6, true))
    ensures Enabled(s, e) && DeadLettered(Apply(s, e), 1, 6)
    ensures Apply(s, e).admins == s.admins && |Apply(s, e).db.logs| == 2
    ensures Apply(s, e).db.logs[0] == s.db.logs[0] && Apply(s, e).db.logs[1].id == "a2"
  {
    assert IsLatest(s.db.logs, "j", 1);
  }

  /** A job with one retry fails twice, is replayed, and runs again under log k. */
  lemma {:induction false} ReplayedAndRunning() returns (run: seq<Event>, k: int)
    ensures Feasible(B.UNIT, run) && TallyOf(run, "j").replays == 1
    ensures var s := After(B.UNIT, run);
            && Inv(s) && IsRunning(s.db, "j") && Outranked(s.db, "j") && P.OpenIsOutranked(s.db.logs, "j")
            && s.hands == multiset{Hold("w", "j")}
            && IsOpen(s.db.logs, k, "j") && s.db.logs[k].workerId == "w"
  {
    var twice := FailTwice();
    run := ReplayAndFetch(twice, 1, "a3", 1, 6);
    k := |After(B.UNIT, twice).db.logs|;
    ReachableLedger(B.UNIT, run, "j");
    P.OutrankedWhileRunning(After(B.UNIT, run), "j");
  }

  /** A replayed job starts running again, and then no failure report about it can be accepted. */
  lemma {:induction false} ReplayedJobCannotFail() returns (run: seq<Event>)
    ensures Feasible(B.UNIT, run)
    ensures IsRunning(After(B.UNIT, run).db, "j") && TallyOf(run, "j").replays == 1
    ensures forall c: Charge | c.j == "j" && c.w != "" ::
              !(ChargeEnabled(After(B.UNIT, run), c) && LatestIs(After(B.UNIT, run).db.logs, "j", c.latest))
  {
    var k;
    run, k := ReplayedAndRunning();
    var s := After(B.UNIT, run);
    forall c: Charge | c.j == "j" && c.w != ""
      ensures !(ChargeEnabled(s, c) && LatestIs(s.db.logs, "j", c.latest))
    {
      if LatestIs(s.db.logs, "j", c.latest) {
        OutrankedRefusesFailure(s, c);
      }
    }
  }

  /** Its owner completes the replayed job, and the owner's log stays open. */
  lemma {:induction false} OwnerLeavesItsLogOpen() returns (run: seq<Event>, k: int)
    ensures Feasible(B.UNIT, run) && |run| > 0
    ensures run[|run| - 1].Succeed? && run[|run| - 1].w == "w" && run[|run| - 1].j == "j"
    ensures var db := After(B.UNIT, run).db;
            && "j" in db.jobs && db.jobs["j"].status == Completed
            && IsOpen(db.logs, k, "j") && db.logs[k].workerId == "w"
  {
    run, k := ReplayedAndRunning();
    var e := P.HolderCanSucceed(After(B.UNIT, run), "j", "w");
    OutrankedSuccessLeavesTheLogOpen(After(B.UNIT, run), e);
    Extend(B.UNIT, run, e);
    run := run + [e];
  }

  /** Its worker crashes, or its failure is refused: only a late DLQ delete can end it. */
  lemma {:induction false} ReplayedJobIsStuck() returns (run: seq<Event>)
    ensures Feasible(B.UNIT, run)
    ensures P.Stuck(After(B.UNIT, run), "j") && !P.CanLeave(After(B.UNIT, run), "j") && !P.CanFinish(After(B.UNIT, run))
  {
    var k;
    run, k := ReplayedAndRunning();
    LastHolderGone(After(B.UNIT, run), "w", "j");
    Extend(B.UNIT, run, Abandon("w", "j"));
    run := run + [Abandon("w", "j")];
    ReachableInv(B.UNIT, run);
    NoWayOut(After(B.UNIT, run), "j");
  }

  lemma {:induction false} NoWayOut(s: Sys, j: JobId)
    requires Inv(s) && P.Stuck(s, j)
    ensures !P.CanLeave(s, j) && !P.CanFinish(s)
  {
    P.LeavesRunningIff(s, j);
    P.CanFinishIff(s);
  }

  lemma {:induction false} LastHolderGone(s: Sys, w: WorkerId, j: JobId)
    requires Inv(s) && IsRunning(s.db, j) && P.OpenIsOutranked(s.db.logs, j) && s.hands == multiset{Hold(w, j)}
    ensures Enabled(s, Abandon(w, j)) && P.Stuck(Apply(s, Abandon(w, j)), j)
  {
  }
}
