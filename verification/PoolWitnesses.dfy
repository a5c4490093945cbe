/** Concrete runs of one pool: the two ways out of the polling loop that leave a handler behind. */
module PoolWitnesses {
  import opened Domain
  import opened Tables
  import opened Protocol
  import opened Pool
  import B = Backoff
  import W = Witnesses

  lemma {:induction false} Extend(d: B.Delays, id: WorkerId, capacity: nat, run: seq<PoolEvent>, e: PoolEvent)
    requires PoolRun(d, id, capacity, run) && CanDo(AfterAll(d, id, capacity, run), e)
    ensures PoolRun(d, id, capacity, run + [e])
    ensures AfterAll(d, id, capacity, run + [e]) == Do(AfterAll(d, id, capacity, run), e)
  {
    var r := run + [e];
    assert r[..|r| - 1] == run && r[|r| - 1] == e;
  }

  /** An event that leaves the store alone moves the pool only. */
  lemma {:induction false} ExtendQuietly(id: WorkerId, run: seq<PoolEvent>, e: PoolEvent)
    returns (after: seq<PoolEvent>)
    requires PoolRun(B.UNIT, id, 1, run) && PoolReady(AfterAll(B.UNIT, id, 1, run).pool, e)
    requires StoreEvent(AfterAll(B.UNIT, id, 1, run).pool, e).None? && !e.ReportRefused?
    ensures PoolRun(B.UNIT, id, 1, after)
    ensures var s := AfterAll(B.UNIT, id, 1, run); AfterAll(B.UNIT, id, 1, after) == Joint(s.sys, PoolAfter(s.pool, e))
  {
    Extend(B.UNIT, id, 1, run, e);
    after := run + [e];
  }

  /** The node is registered and nothing else has happened. */
  ghost predicate OnlyRegistered(s: Sys, id: WorkerId) {
    s == Protocol.Start(B.UNIT).(db := DB(map[], [], map[id := W.Node(id)]))
  }

  /** Start registers the node before anything else. */
  lemma {:induction false} Registers(id: WorkerId) returns (run: seq<PoolEvent>)
    requires id != ""
    ensures PoolRun(B.UNIT, id, 1, run)
    ensures var s := AfterAll(B.UNIT, id, 1, run);
            && OnlyRegistered(s.sys, id)
            && s.pool == PoolState(id, 1, 0, 0, map[], 0, Selecting, Fresh, false, true, false, {})
  {
    var e := Other(Upsert(W.Node(id)));
    Extend(B.UNIT, id, 1, [], e);
    run := [] + [e];
  }

  /** Another goroutine calls Stop while nothing runs, so its wait ends at once; then the context is cancelled. */
  lemma {:induction false} StopEndsEarly(id: WorkerId) returns (run: seq<PoolEvent>)
    requires id != ""
    ensures PoolRun(B.UNIT, id, 1, run)
    ensures var s := AfterAll(B.UNIT, id, 1, run);
            && OnlyRegistered(s.sys, id)
            && s.pool == PoolState(id, 1, 0, 0, map[], 0, Selecting, Finished, true, true, false, {})
  {
    run := Registers(id);
    run := ExtendQuietly(id, run, ExternalStop);
    run := ExtendQuietly(id, run, WaitReturns);
    run := ExtendQuietly(id, run, Cancel);
  }

  /** The tables once the pool has fetched the job. */
  function UnderWay(id: WorkerId, workers: map<WorkerId, WorkerRow>): DB {
    Fetched(DB(map["j" := W.JobNamed("j", 0)], [], workers), "j", id, "a1", 1, 1)
  }

  ghost predicate IsUnderWay(s: Sys, id: WorkerId, workers: map<WorkerId, WorkerRow>) {
    s.db == UnderWay(id, workers) && s.now == 1 && s.reclaimers == map[]
  }

  /** A selecting loop, free to pick any ready case, takes a slot; meanwhile a job is enqueued. */
  lemma {:induction false} TakesASlot(id: WorkerId, before: seq<PoolEvent>) returns (run: seq<PoolEvent>)
    requires PoolRun(B.UNIT, id, 1, before)
    requires var s := AfterAll(B.UNIT, id, 1, before);
             OnlyRegistered(s.sys, id) && s.pool.loop.Selecting? && s.pool.sem == 0
    ensures PoolRun(B.UNIT, id, 1, run)
    ensures var s, t := AfterAll(B.UNIT, id, 1, before), AfterAll(B.UNIT, id, 1, run);
            && t.pool == s.pool.(sem := 1, loop := Polling)
            && t.sys.db == DB(map["j" := W.JobNamed("j", 0)], [], map[id := W.Node(id)])
            && t.sys.now == 0 && t.sys.reclaimers == map[]
  {
    Extend(B.UNIT, id, 1, before, Other(Enqueue(W.JobNamed("j", 0))));
    run := before + [Other(Enqueue(W.JobNamed("j", 0)))];
    run := ExtendQuietly(id, run, TryAcquire);
  }

  /** And fetches the job. */
  lemma {:induction false} FetchesTheJob(id: WorkerId, before: seq<PoolEvent>) returns (run: seq<PoolEvent>)
    requires id != "" && PoolRun(B.UNIT, id, 1, before)
    requires var s := AfterAll(B.UNIT, id, 1, before);
             OnlyRegistered(s.sys, id) && s.pool.loop.Selecting? && s.pool.sem == 0
    ensures PoolRun(B.UNIT, id, 1, run)
    ensures var s, t := AfterAll(B.UNIT, id, 1, before), AfterAll(B.UNIT, id, 1, run);
            t.pool == s.pool.(sem := 1, loop := Holding("j")) && IsUnderWay(t.sys, id, map[id := W.Node(id)])
  {
    var polling := TakesASlot(id, before);
    var e := FetchJob(Fetch(id, "default", "j", "a1", 1, 1));
    Extend(B.UNIT, id, 1, polling, e);
    run := polling + [e];
  }

  /** And starts an executor for it. */
  lemma {:induction false} StartsTheExecutor(id: WorkerId, before: seq<PoolEvent>) returns (run: seq<PoolEvent>)
    requires id != "" && PoolRun(B.UNIT, id, 1, before)
    requires var s := AfterAll(B.UNIT, id, 1, before);
             && OnlyRegistered(s.sys, id) && s.pool.loop.Selecting? && s.pool.sem == 0
             && s.pool.wg == 0 && s.pool.execs == map[] && s.pool.spawned == 0
    ensures PoolRun(B.UNIT, id, 1, run)
    ensures var s, t := AfterAll(B.UNIT, id, 1, before), AfterAll(B.UNIT, id, 1, run);
            && t.pool == s.pool.(sem := 1, wg := 1, execs := map[0 := Handling("j")], spawned := 1)
            && IsUnderWay(t.sys, id, map[id := W.Node(id)])
  {
    var fetched := FetchesTheJob(id, before);
    var counted := ExtendQuietly(id, fetched, CountUp);
    run := ExtendQuietly(id, counted, Spawn);
  }

  lemma {:induction false} NodeGoes(s: Sys, id: WorkerId)
    requires s.delays.Valid() && IsUnderWay(s, id, map[id := W.Node(id)])
    ensures IsUnderWay(Apply(s, Unregister(id)), id, map[])
  {
    assert map[id := W.Node(id)] - {id} == map[];
  }

  /** The heartbeat ends and the deferred clean-up removes the node. */
  lemma {:induction false} CleansUp(id: WorkerId, before: seq<PoolEvent>) returns (run: seq<PoolEvent>)
    requires PoolRun(B.UNIT, id, 1, before)
    requires IsUnderWay(AfterAll(B.UNIT, id, 1, before).sys, id, map[id := W.Node(id)])
    requires var p := AfterAll(B.UNIT, id, 1, before).pool;
             p.loop.Returned? && p.heartbeat && (p.cancelled || !p.once.Fresh?)
    ensures PoolRun(B.UNIT, id, 1, run)
    ensures var s, t := AfterAll(B.UNIT, id, 1, before), AfterAll(B.UNIT, id, 1, run);
            && t.pool == s.pool.(heartbeat := false, loop := Unregistered(s.pool.loop.cancelled, s.pool.loop.late))
            && IsUnderWay(t.sys, id, map[])
  {
    var ended := ExtendQuietly(id, before, HeartbeatEnds);
    NodeGoes(AfterAll(B.UNIT, id, 1, ended).sys, id);
    Extend(B.UNIT, id, 1, ended, UnregisterNode);
    run := ended + [UnregisterNode];
  }

  /** The pool has left, a handler is still at work, its job runs under a worker that is in no table. */
  ghost predicate LeftBehind(s: Joint, cancelled: bool, late: bool) {
    && s.pool.loop == Unregistered(cancelled, late) && 0 in s.pool.execs && s.pool.execs[0] == Handling("j")
    && RunsUnder(s.sys.db, "j", s.pool.id) && s.pool.id !in s.sys.db.workers
  }

  lemma {:induction false} UnderWayRunsUnder(id: WorkerId)
    ensures RunsUnder(UnderWay(id, map[]), "j", id)
  {
    assert IsOpen(UnderWay(id, map[]).logs, 0, "j");
  }

  /** With a Stop from elsewhere already finished, the cancelled pool unregisters while a handler is still running. */
  lemma {:induction false} LateCancellationLeavesAJobRunning(id: WorkerId) returns (run: seq<PoolEvent>)
    requires id != ""
    ensures PoolRun(B.UNIT, id, 1, run) && LeftBehind(AfterAll(B.UNIT, id, 1, run), true, true)
  {
    run := StopEndsEarly(id);
    run := StartsTheExecutor(id, run);
    run := ExtendQuietly(id, run, SeeCancel);
    run := ExtendQuietly(id, run, StopReturns);
    run := CleansUp(id, run);
    UnderWayRunsUnder(id);
  }

  /** Without any cancellation, a Stop from elsewhere that still waits makes the pool leave its handler behind. */
  lemma {:induction false} StopAloneLeavesAJobRunning(id: WorkerId) returns (run: seq<PoolEvent>)
    requires id != ""
    ensures PoolRun(B.UNIT, id, 1, run) && LeftBehind(AfterAll(B.UNIT, id, 1, run), false, false)
    ensures IsUnderWay(AfterAll(B.UNIT, id, 1, run).sys, id, map[])
  {
    run := Registers(id);
    run := StartsTheExecutor(id, run);
    run := ExtendQuietly(id, run, ExternalStop);
    run := ExtendQuietly(id, run, SeeStop);
    run := CleansUp(id, run);
    UnderWayRunsUnder(id);
  }

  // ---- and such a job is taken away from its handler ----

  /** Another process moves; the pool does not. */
  lemma {:induction false} ExtendElsewhere(id: WorkerId, before: seq<PoolEvent>, f: Event, t: Sys)
    returns (run: seq<PoolEvent>)
    requires PoolRun(B.UNIT, id, 1, before) && !OwnEvent(AfterAll(B.UNIT, id, 1, before).pool, f)
    requires var s := AfterAll(B.UNIT, id, 1, before).sys; Enabled(s, f) && t == Apply(s, f)
    ensures PoolRun(B.UNIT, id, 1, run) && |run| > 0 && run[|run| - 1] == Other(f)
    ensures AfterAll(B.UNIT, id, 1, run) == Joint(t, AfterAll(B.UNIT, id, 1, before).pool)
  {
    Extend(B.UNIT, id, 1, before, Other(f));
    run := before + [Other(f)];
  }

  lemma {:induction false} ListsTheJob(s: Sys, id: WorkerId)
    requires s.delays.Valid() && IsUnderWay(s, id, map[])
    ensures Enabled(s, ListRunning(0, ["j"]))
    ensures Apply(s, ListRunning(0, ["j"])) == s.(reclaimers := map[0 := Scanning(["j"])])
  {
  }

  lemma {:induction false} ReadsItsLog(s: Sys, id: WorkerId)
    requires s.delays.Valid() && s.db == UnderWay(id, map[]) && s.reclaimers == map[0 := Scanning(["j"])]
    ensures Enabled(s, ReadLogs(0, Some(0)))
    ensures Apply(s, ReadLogs(0, Some(0))) == s.(reclaimers := map[0 := Inspecting(["j"], id)])
  {
    assert IsLatest(UnderWay(id, map[]).logs, "j", 0);
  }

  lemma {:induction false} FindsNoWorker(s: Sys, id: WorkerId)
    requires s.delays.Valid() && s.db == UnderWay(id, map[]) && s.reclaimers == map[0 := Inspecting(["j"], id)]
    ensures Enabled(s, ReadWorker(0))
    ensures Apply(s, ReadWorker(0)) == s.(reclaimers := map[0 := Charging(["j"], id)])
  {
  }

  /** A reclaimer lists the job, reads its log and finds no such worker. */
  lemma {:induction false} JudgesTheWorkerDead(id: WorkerId, before: seq<PoolEvent>) returns (run: seq<PoolEvent>)
    requires id != "" && PoolRun(B.UNIT, id, 1, before) && IsUnderWay(AfterAll(B.UNIT, id, 1, before).sys, id, map[])
    ensures PoolRun(B.UNIT, id, 1, run)
    ensures var s, t := AfterAll(B.UNIT, id, 1, before), AfterAll(B.UNIT, id, 1, run);
            t.pool == s.pool && t.sys == s.sys.(reclaimers := map[0 := Charging(["j"], id)])
  {
    var s := AfterAll(B.UNIT, id, 1, before).sys;
    ListsTheJob(s, id);
    run := ExtendElsewhere(id, before, ListRunning(0, ["j"]), s.(reclaimers := map[0 := Scanning(["j"])]));
    ReadsItsLog(s.(reclaimers := map[0 := Scanning(["j"])]), id);
    run := ExtendElsewhere(id, run, ReadLogs(0, Some(0)), s.(reclaimers := map[0 := Inspecting(["j"], id)]));
    FindsNoWorker(s.(reclaimers := map[0 := Inspecting(["j"], id)]), id);
    run := ExtendElsewhere(id, run, ReadWorker(0), s.(reclaimers := map[0 := Charging(["j"], id)]));
  }

  /** After such an exit a reclaimer charges an attempt whose handler is still at work. */
  lemma {:induction false} ReclaimedUnderALiveHandler(id: WorkerId) returns (run: seq<PoolEvent>)
    requires id != ""
    ensures PoolRun(B.UNIT, id, 1, run) && |run| > 0
    ensures run[|run| - 1].Other? && run[|run| - 1].e.ReclaimFail? && run[|run| - 1].e.c.j == "j"
    ensures var s := AfterAll(B.UNIT, id, 1, run);
            && 0 in s.pool.execs && s.pool.execs[0] == Handling("j")
            && "j" in s.sys.db.jobs && s.sys.db.jobs["j"].status == DeadLetter
  {
    run := StopAloneLeavesAJobRunning(id);
    run := JudgesTheWorkerDead(id, run);
    var e := ReclaimFail(0, Charge("j", id, Some(0), "gone", 0, 2, 2, 2, true));
    assert IsLatest(UnderWay(id, map[]).logs, "j", 0);
    run := ExtendElsewhere(id, run, e, Apply(AfterAll(B.UNIT, id, 1, run).sys, e));
  }
}
