/** Aggregated statistics, compared with direct counts of the tables. */
module Metrics {
  import opened Domain
  import opened Tables
  import opened Store
  import opened Queries
  import opened Protocol
  import opened Invariants
  import opened History
  import opened Lifecycle
  import opened Pool

  datatype JobCounts = JobCounts(pending: int, running: int, completed: int, failed: int, dead: int)

  function CountWith(jobs: map<JobId, JobRow>, status: JobStatus): nat {
    |set j | j in jobs && jobs[j].status == status|
  }

  /** Jobs of one status in some of the queues. */
  function CountIn(jobs: map<JobId, JobRow>, queues: set<string>, status: JobStatus): nat {
    |set j | j in jobs && jobs[j].queue in queues && jobs[j].status == status|
  }

  function Entry(counts: map<JobStatus, int>, status: JobStatus): int {
    if status in counts then counts[status] else 0
  }

  lemma {:induction false} AnotherQueue(jobs: map<JobId, JobRow>, queues: set<string>, q: string, status: JobStatus)
    requires q !in queues
    ensures CountIn(jobs, queues + {q}, status) == CountIn(jobs, queues, status) + StatusCount(jobs, q, status)
  {
    var a := set j | j in jobs && jobs[j].queue in queues && jobs[j].status == status;
    var b := set j | j in jobs && jobs[j].queue == q && jobs[j].status == status;
    assert a * b == {};
    assert (set j | j in jobs && jobs[j].queue in queues + {q} && jobs[j].status == status) == a + b;
  }

  /** Every job is in a queue the statistics name. */
  lemma {:induction false} AllQueues(jobs: map<JobId, JobRow>, stats: map<string, map<JobStatus, int>>,
                                     status: JobStatus)
    requires AreQueueStats(jobs, stats)
    ensures CountIn(jobs, stats.Keys, status) == CountWith(jobs, status)
  {
    forall j | j in jobs
      ensures jobs[j].queue in stats
    {
      var same := set i | i in jobs && jobs[i].queue == jobs[j].queue && jobs[i].status == jobs[j].status;
      assert j in same;
      assert StatusCount(jobs, jobs[j].queue, jobs[j].status) > 0;
    }
    assert (set j | j in jobs && jobs[j].queue in stats.Keys && jobs[j].status == status)
        == (set j | j in jobs && jobs[j].status == status);
  }

  function CountAmong(jobs: map<JobId, JobRow>, statuses: set<JobStatus>): nat {
    |set j | j in jobs && jobs[j].status in statuses|
  }

  lemma {:induction false} AnotherStatus(jobs: map<JobId, JobRow>, statuses: set<JobStatus>, s: JobStatus)
    requires s !in statuses
    ensures CountAmong(jobs, statuses + {s}) == CountAmong(jobs, statuses) + CountWith(jobs, s)
  {
    var a := set j | j in jobs && jobs[j].status in statuses;
    var b := set j | j in jobs && jobs[j].status == s;
    assert a * b == {};
    assert (set j | j in jobs && jobs[j].status in statuses + {s}) == a + b;
  }

  /** The five statuses split the table. */
  lemma {:induction false} StatusesPartition(jobs: map<JobId, JobRow>)
    ensures CountWith(jobs, Pending) + CountWith(jobs, Running) + CountWith(jobs, Completed)
            + CountWith(jobs, Failed) + CountWith(jobs, DeadLetter) == |jobs|
  {
    assert CountAmong(jobs, {}) == 0;
    AnotherStatus(jobs, {}, Pending);
    AnotherStatus(jobs, {Pending}, Running);
    AnotherStatus(jobs, {Pending, Running}, Completed);
    AnotherStatus(jobs, {Pending, Running, Completed}, Failed);
    AnotherStatus(jobs, {Pending, Running, Completed, Failed}, DeadLetter);
    var all := {Pending, Running, Completed, Failed, DeadLetter};
    assert {} + {Pending} == {Pending};
    assert {Pending} + {Running} == {Pending, Running};
    assert {Pending, Running} + {Completed} == {Pending, Running, Completed};
    assert {Pending, Running, Completed} + {Failed} == {Pending, Running, Completed, Failed};
    assert {Pending, Running, Completed, Failed} + {DeadLetter} == all;
    forall s: JobStatus
      ensures s in all
    {
      match s
      case Pending =>
      case Running =>
      case Completed =>
      case Failed =>
      case DeadLetter =>
    }
    AllStatuses(jobs, all);
  }

  lemma {:induction false} AllStatuses(jobs: map<JobId, JobRow>, all: set<JobStatus>)
    requires forall s: JobStatus :: s in all
    ensures CountAmong(jobs, all) == |jobs|
  {
    assert (set j | j in jobs && jobs[j].status in all) == jobs.Keys;
    assert |jobs.Keys| == |jobs|;
  }

  lemma {:induction false} NextQueue(jobs: map<JobId, JobRow>, stats: map<string, map<JobStatus, int>>,
                                     done: set<string>, q: string, status: JobStatus)
    requires AreQueueStats(jobs, stats) && q in stats && q !in done
    ensures CountIn(jobs, done + {q}, status) == CountIn(jobs, done, status) + Entry(stats[q], status)
  {
    AnotherQueue(jobs, done, q, status);
    assert (q in stats && status in stats[q]) <==> StatusCount(jobs, q, status) > 0;
  }

  /** Direct counts over the queues in `done`. */
  function CountsOver(jobs: map<JobId, JobRow>, done: set<string>): JobCounts {
    JobCounts(CountIn(jobs, done, Pending), CountIn(jobs, done, Running), CountIn(jobs, done, Completed),
              CountIn(jobs, done, Failed), CountIn(jobs, done, DeadLetter))
  }

  /** Direct counts over the whole table. */
  function DirectCounts(jobs: map<JobId, JobRow>): JobCounts {
    JobCounts(CountWith(jobs, Pending), CountWith(jobs, Running), CountWith(jobs, Completed),
              CountWith(jobs, Failed), CountWith(jobs, DeadLetter))
  }

  function Plus(c: JobCounts, counts: map<JobStatus, int>): JobCounts {
    JobCounts(c.pending + Entry(counts, Pending), c.running + Entry(counts, Running),
              c.completed + Entry(counts, Completed), c.failed + Entry(counts, Failed),
              c.dead + Entry(counts, DeadLetter))
  }

  lemma {:induction false} CountsNext(jobs: map<JobId, JobRow>, stats: map<string, map<JobStatus, int>>,
                                      done: set<string>, q: string)
    requires AreQueueStats(jobs, stats) && q in stats && q !in done
    ensures CountsOver(jobs, done + {q}) == Plus(CountsOver(jobs, done), stats[q])
  {
    NextQueue(jobs, stats, done, q, Pending);
    NextQueue(jobs, stats, done, q, Running);
    NextQueue(jobs, stats, done, q, Completed);
    NextQueue(jobs, stats, done, q, Failed);
    NextQueue(jobs, stats, done, q, DeadLetter);
  }

  lemma {:induction false} CountsAtStart(jobs: map<JobId, JobRow>)
    ensures CountsOver(jobs, {}) == JobCounts(0, 0, 0, 0, 0)
  {
    forall s: JobStatus
      ensures CountIn(jobs, {}, s) == 0
    {
      var none: set<string> := {};
      assert (set j | j in jobs && jobs[j].queue in none && jobs[j].status == s) == {};
    }
  }

  lemma {:induction false} CountsAtEnd(jobs: map<JobId, JobRow>, stats: map<string, map<JobStatus, int>>)
    requires AreQueueStats(jobs, stats)
    ensures CountsOver(jobs, stats.Keys) == DirectCounts(jobs)
  {
    AllQueues(jobs, stats, Pending);
    AllQueues(jobs, stats, Running);
    AllQueues(jobs, stats, Completed);
    AllQueues(jobs, stats, Failed);
    AllQueues(jobs, stats, DeadLetter);
  }

  /** Adds up the per-queue maps, in whatever order they are visited. */
  method SumCounts(ghost jobs: map<JobId, JobRow>, stats: map<string, map<JobStatus, int>>) returns (c: JobCounts)
    requires AreQueueStats(jobs, stats)
    ensures c == DirectCounts(jobs)
  {
    c := JobCounts(0, 0, 0, 0, 0);
    var left := stats.Keys;
    ghost var done: set<string> := {};
    CountsAtStart(jobs);
    while left != {}
      invariant forall q | q in stats :: q in left || q in done
      invariant forall q | q in done :: q in stats && q !in left
      invariant forall q | q in left :: q in stats
      invariant c == CountsOver(jobs, done)
      decreases left
    {
      var q :| q in left;
      CountsNext(jobs, stats, done, q);
      c := Plus(c, stats[q]);
      left, done := left - {q}, done + {q};
    }
    assert done == stats.Keys;
    CountsAtEnd(jobs, stats);
  }

  /** Prunes silent workers, then counts the jobs of each status from the grouped statistics. */
  method GetJobCounts(store: Store, maxInactivity: Duration, now: Time) returns (r: Result<JobCounts>)
    requires store.Ready()
    modifies store
    ensures store.Ready() && store.jobs == old(store.jobs) && store.logs == old(store.logs)
    ensures store.State() == old(store.State()) || store.State() == Pruned(old(store.State()), now, maxInactivity)
    ensures r.Err? ==> store.faulty
    ensures r.Ok? ==>
      && r.value == DirectCounts(store.jobs)
      && r.value.pending == |set j | j in store.jobs && store.jobs[j].status == Pending|
      && r.value.running == |set j | j in store.jobs && store.jobs[j].status == Running|
      && r.value.completed == |set j | j in store.jobs && store.jobs[j].status == Completed|
      && r.value.failed == |set j | j in store.jobs && store.jobs[j].status == Failed|
      && r.value.dead == |set j | j in store.jobs && store.jobs[j].status == DeadLetter|
      && r.value.pending + r.value.running + r.value.completed + r.value.failed + r.value.dead == |store.jobs|
  {
    var _ := store.PruneStale(maxInactivity, now);
    var stats := store.GetQueueStats();
    if stats.Err? {
      return Err(stats.error);
    }
    var counts := SumCounts(store.jobs, stats.value);
    StatusesPartition(store.jobs);
    return Ok(counts);
  }

  // ---- active workers ----

  const SCAN_LIMIT := 1000

  /** The worker of the latest log of j, if that log is open. */
  function HolderOf(logs: seq<LogRow>, j: JobId): Option<WorkerId> {
    var k := LatestOf(logs, j);
    if k.Some? && logs[k.value].finishedAt.None? then Some(logs[k.value].workerId) else None
  }

  /** Workers of the open latest logs of the first n listed jobs. */
  function HoldersAmong(logs: seq<LogRow>, ids: seq<JobId>, n: nat): set<WorkerId>
    requires n <= |ids|
  {
    if n == 0 then {}
    else
      var holder := HolderOf(logs, ids[n - 1]);
      HoldersAmong(logs, ids, n - 1) + if holder.Some? then {holder.value} else {}
  }

  lemma {:induction false} HoldersAre(logs: seq<LogRow>, ids: seq<JobId>, n: nat, w: WorkerId)
    requires n <= |ids|
    ensures w in HoldersAmong(logs, ids, n) <==> exists i :: 0 <= i < n && HolderOf(logs, ids[i]) == Some(w)
  {
    if n > 0 {
      HoldersAre(logs, ids, n - 1, w);
      assert HolderOf(logs, ids[n - 1]) == Some(w) ==> 0 <= n - 1 < n;
    }
  }

  /** What a scan of the running jobs may have listed: nothing when its query failed. */
  ghost predicate IsScan(store: Store, listed: seq<JobId>)
    reads store
  {
    IsListing(store.jobs, "", Some(Running), "", 1000, listed) || (store.faulty && listed == [])
  }

  /** Collects the workers that hold one of the running jobs the scan lists; failing log queries only drop some. */
  method BusyWorkers(store: Store) returns (busy: set<WorkerId>, ghost listed: seq<JobId>)
    requires store.Ready()
    ensures IsScan(store, listed) && busy <= HoldersAmong(store.logs, listed, |listed|)
    ensures !store.faulty ==> busy == HoldersAmong(store.logs, listed, |listed|)
  {
    busy := {};
    var running;
    running, listed := store.ListJobs("", Some(Running), "", SCAN_LIMIT);
    if running.Err? {
      return {}, [];
    }
    ListedById(store.jobs, listed);
    busy := HoldersOf(store, running.value, listed);
  }

  lemma {:induction false} ListedById(jobs: map<JobId, JobRow>, listed: seq<JobId>)
    requires IsListing(jobs, "", Some(Running), "", 1000, listed) && forall j | j in jobs :: jobs[j].id == j
    ensures forall n | 0 <= n < |listed| :: listed[n] in jobs && jobs[listed[n]].id == listed[n]
  {
  }

  method HoldersOf(store: Store, jobs: seq<Job>, ghost listed: seq<JobId>) returns (busy: set<WorkerId>)
    requires store.Ready() && |jobs| == |listed| && forall n | 0 <= n < |jobs| :: jobs[n].id == listed[n]
    ensures busy <= HoldersAmong(store.logs, listed, |listed|)
    ensures !store.faulty ==> busy == HoldersAmong(store.logs, listed, |listed|)
  {
    busy := {};
    for i := 0 to |jobs|
      invariant busy <= HoldersAmong(store.logs, listed, i)
      invariant !store.faulty ==> busy == HoldersAmong(store.logs, listed, i)
    {
      var holder := CurrentHolder(store, jobs[i].id);
      if holder.Some? {
        busy := busy + {holder.value};
      }
    }
  }

  method CurrentHolder(store: Store, j: JobId) returns (holder: Option<WorkerId>)
    requires store.Ready()
    ensures holder == HolderOf(store.logs, j) || (store.faulty && holder == None)
  {
    var logs := store.GetLogs(j);
    if logs.Ok? && |logs.value| > 0 {
      var latestLog := logs.value[|logs.value| - 1];
      assert latestLog.Row() == store.logs[LatestOf(store.logs, j).value];
      if latestLog.finishedAt.None? {
        return Some(latestLog.workerId);
      }
    }
    return None;
  }

  predicate CountsAsActive(row: WorkerRow, busy: set<WorkerId>) {
    row.status == Active || row.id in busy
  }

  function ActiveAmong(rows: seq<WorkerRow>, n: nat, busy: set<WorkerId>): nat
    requires n <= |rows|
  {
    if n == 0 then 0 else ActiveAmong(rows, n - 1, busy) + if CountsAsActive(rows[n - 1], busy) then 1 else 0
  }

  lemma {:induction false} FewerBusyFewerActive(rows: seq<WorkerRow>, n: nat, few: set<WorkerId>, many: set<WorkerId>)
    requires n <= |rows| && few <= many
    ensures ActiveAmong(rows, n, few) <= ActiveAmong(rows, n, many)
  {
    if n > 0 {
      FewerBusyFewerActive(rows, n - 1, few, many);
    }
  }

  lemma {:induction false} ActiveAmongCounts(rows: seq<WorkerRow>, n: nat, busy: set<WorkerId>)
    requires n <= |rows|
    ensures ActiveAmong(rows, n, busy) == |set i | 0 <= i < n && (rows[i].status == Active || rows[i].id in busy)|
  {
    var after := set i | 0 <= i < n && (rows[i].status == Active || rows[i].id in busy);
    if n == 0 {
      assert after == {};
    } else {
      ActiveAmongCounts(rows, n - 1, busy);
      var before := set i | 0 <= i < n - 1 && (rows[i].status == Active || rows[i].id in busy);
      assert after == if CountsAsActive(rows[n - 1], busy) then before + {n - 1} else before;
    }
  }

  lemma {:induction false} ActiveMeansHolding(logs: seq<LogRow>, rows: seq<WorkerRow>, listed: seq<JobId>)
    ensures ActiveAmong(rows, |rows|, HoldersAmong(logs, listed, |listed|)) ==
            |set i | 0 <= i < |rows| && (rows[i].status == Active
                     || exists n :: 0 <= n < |listed| && HolderOf(logs, listed[n]) == Some(rows[i].id))|
  {
    var busy := HoldersAmong(logs, listed, |listed|);
    ActiveAmongCounts(rows, |rows|, busy);
    forall i | 0 <= i < |rows|
      ensures rows[i].id in busy <==> exists n :: 0 <= n < |listed| && HolderOf(logs, listed[n]) == Some(rows[i].id)
    {
      HoldersAre(logs, listed, |listed|, rows[i].id);
    }
    assert (set i | 0 <= i < |rows| && (rows[i].status == Active || rows[i].id in busy))
        == set i | 0 <= i < |rows| && (rows[i].status == Active
                   || exists n :: 0 <= n < |listed| && HolderOf(logs, listed[n]) == Some(rows[i].id));
  }

  /** Counts the listed workers and those among them that are active; failing queries can only lower the second. */
  method CountWorkers(store: Store)
    returns (r: Result<(nat, nat)>, ghost rows: seq<WorkerRow>, ghost listed: seq<JobId>)
    requires store.Ready()
    ensures r.Err? ==> store.faulty
    ensures r.Ok? ==> IsActiveListing(store.workers, rows) && r.value.1 == |rows|
    ensures r.Ok? ==>
      && IsScan(store, listed) && r.value.0 <= ActiveAmong(rows, |rows|, HoldersAmong(store.logs, listed, |listed|))
    ensures !store.faulty ==> r.value.0 == ActiveAmong(rows, |rows|, HoldersAmong(store.logs, listed, |listed|))
    ensures !store.faulty ==>
      r.value.0 == |set i | 0 <= i < |rows| && (rows[i].status == Active
                            || exists n :: 0 <= n < |listed| && HolderOf(store.logs, listed[n]) == Some(rows[i].id))|
  {
    rows, listed := [], [];
    var workers := store.ListActive();
    if workers.Err? {
      return Err(workers.error), rows, listed;
    }
    rows := workers.value;
    var busy;
    busy, listed := BusyWorkers(store);
    var active: nat := 0;
    for n := 0 to |workers.value|
      invariant active == ActiveAmong(rows, n, busy)
    {
      if CountsAsActive(workers.value[n], busy) {
        active := active + 1;
      }
    }
    ActiveMeansHolding(store.logs, rows, listed);
    FewerBusyFewerActive(rows, |rows|, busy, HoldersAmong(store.logs, listed, |listed|));
    return Ok((active, |workers.value|)), rows, listed;
  }

  /** On systems without replays and at most 1000 running jobs, the busy workers are those a job runs under. */
  lemma {:induction false} BusyMeansRunningUnder(s: Sys, listed: seq<JobId>, w: WorkerId)
    requires Inv(s) && (forall j | j in s.db.jobs :: Unreplayed(s.db, j))
    requires IsListing(s.db.jobs, "", Some(Running), "", 1000, listed)
    requires |Matching(s.db.jobs, "", Some(Running), "")| <= 1000
    ensures w in HoldersAmong(s.db.logs, listed, |listed|) <==> exists j :: RunsUnder(s.db, j, w)
  {
    HoldersAre(s.db.logs, listed, |listed|, w);
    if i :| 0 <= i < |listed| && HolderOf(s.db.logs, listed[i]) == Some(w) {
      HolderRuns(s.db, listed, i, w);
    }
    if j :| RunsUnder(s.db, j, w) {
      RunnerHolds(s, j, w);
      assert j in Matching(s.db.jobs, "", Some(Running), "");
      ListingIsComplete(s.db.jobs, "", Some(Running), "", SCAN_LIMIT, listed, j);
      var i :| 0 <= i < |listed| && listed[i] == j;
      assert HolderOf(s.db.logs, listed[i]) == Some(w);
    }
  }

  lemma {:induction false} HolderRuns(db: DB, listed: seq<JobId>, i: nat, w: WorkerId)
    requires IsListing(db.jobs, "", Some(Running), "", 1000, listed) && i < |listed|
    requires HolderOf(db.logs, listed[i]) == Some(w)
    ensures RunsUnder(db, listed[i], w)
  {
    var k := LatestOf(db.logs, listed[i]).value;
    assert listed[i] in Matching(db.jobs, "", Some(Running), "");
    assert IsOpen(db.logs, k, listed[i]);
  }

  lemma {:induction false} RunnerHolds(s: Sys, j: JobId, w: WorkerId)
    requires Inv(s) && Unreplayed(s.db, j) && RunsUnder(s.db, j, w)
    ensures HolderOf(s.db.logs, j) == Some(w)
  {
    var k :| IsOpen(s.db.logs, k, j) && s.db.logs[k].workerId == w;
    LatestOfIsLatest(s.db.logs, j);
    OwnFailureAccepted(s, j, k, LatestOf(s.db.logs, j), s.now);
  }
}
