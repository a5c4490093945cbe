/**
  The SQLite repositories over one connection. Every repository call may fail when `faulty` is set, in which
  case it changes nothing; `saved` is what a rollback of the open transaction restores.
*/
module Store {
  import opened Domain
  import opened Tables
  import opened Queries

  /** rows are the workers not stopped, each once, oldest first. */
  ghost predicate IsActiveListing(workers: map<WorkerId, WorkerRow>, rows: seq<WorkerRow>) {
    && (forall i | 0 <= i < |rows| ::
          rows[i].id in workers && workers[rows[i].id] == rows[i] && rows[i].status != Stopped)
    && (forall w | w in workers && workers[w].status != Stopped :: workers[w] in rows)
    && (forall i, n | 0 <= i < n < |rows| :: rows[i] != rows[n] && rows[i].startedAt <= rows[n].startedAt)
  }

  lemma {:induction false} OldestOf(workers: map<WorkerId, WorkerRow>, some: set<WorkerId>) returns (w: WorkerId)
    requires some != {} && forall v | v in some :: v in workers
    ensures w in some && forall v | v in some :: workers[w].startedAt <= workers[v].startedAt
    decreases |some|
  {
    w :| w in some;
    if some - {w} != {} {
      var v := OldestOf(workers, some - {w});
      if workers[v].startedAt < workers[w].startedAt {
        w := v;
      }
    }
  }

  /** Some of the matching jobs are listed in order, and those left do not belong before them. */
  ghost predicate ListedSoFar(jobs: map<JobId, JobRow>, all: set<JobId>, left: set<JobId>, ids: seq<JobId>) {
    && left <= all && (forall j | j in all :: j in jobs)
    && (forall i | 0 <= i < |ids| :: ids[i] in all && ids[i] !in left)
    && (forall j | j in all :: j in left || j in ids)
    && (forall i, j | 0 <= i < |ids| && j in left :: !ListedBefore(jobs[j], jobs[ids[i]]))
    && (forall i, n | 0 <= i < n < |ids| :: ids[i] != ids[n] && !ListedBefore(jobs[ids[n]], jobs[ids[i]]))
  }

  lemma {:induction false} NextListed(jobs: map<JobId, JobRow>, all: set<JobId>, left: set<JobId>, ids: seq<JobId>,
                                      j: JobId)
    requires ListedSoFar(jobs, all, left, ids) && j in left
    requires forall i | i in left :: !ListedBefore(jobs[i], jobs[j])
    ensures ListedSoFar(jobs, all, left - {j}, ids + [j])
  {
  }

  /** The oldest ones are listed, the rest is still to come. */
  ghost predicate ActiveSoFar(workers: map<WorkerId, WorkerRow>, rows: seq<WorkerRow>, left: set<WorkerId>) {
    && (forall w | w in left :: w in workers && workers[w].status != Stopped && workers[w] !in rows)
    && (forall i | 0 <= i < |rows| ::
          rows[i].id in workers && workers[rows[i].id] == rows[i] && rows[i].status != Stopped)
    && (forall w | w in workers && workers[w].status != Stopped :: w in left || workers[w] in rows)
    && (forall i, w | 0 <= i < |rows| && w in left :: rows[i].startedAt <= workers[w].startedAt)
    && (forall i, n | 0 <= i < n < |rows| :: rows[i] != rows[n] && rows[i].startedAt <= rows[n].startedAt)
  }

  lemma {:induction false} NextActive(workers: map<WorkerId, WorkerRow>, rows: seq<WorkerRow>, left: set<WorkerId>,
                                      w: WorkerId)
    requires ActiveSoFar(workers, rows, left) && w in left
    requires forall v | v in workers :: workers[v].id == v
    requires forall v | v in left :: workers[w].startedAt <= workers[v].startedAt
    ensures ActiveSoFar(workers, rows + [workers[w]], left - {w})
  {
    forall v | v in left - {w}
      ensures workers[v] !in rows + [workers[w]]
    {
      assert workers[v].id == v && workers[w].id == w;
    }
  }

  datatype GroupRow = GroupRow(queue: string, status: JobStatus, count: nat)

  function StatusCount(jobs: map<JobId, JobRow>, queue: string, status: JobStatus): nat {
    |set j | j in jobs && jobs[j].queue == queue && jobs[j].status == status|
  }

  /** Exactly the nonzero counts. */
  ghost predicate AreQueueStats(jobs: map<JobId, JobRow>, stats: map<string, map<JobStatus, int>>) {
    forall q, s ::
      && ((q in stats && s in stats[q]) <==> StatusCount(jobs, q, s) > 0)
      && (q in stats && s in stats[q] ==> stats[q][s] == StatusCount(jobs, q, s))
  }

  /** Each group that was scanned has its count, and there is no other entry. */
  ghost predicate StatsSoFar(jobs: map<JobId, JobRow>, stats: map<string, map<JobStatus, int>>,
                             groups: seq<(string, JobStatus)>)
  {
    forall q, s ::
      && ((q in stats && s in stats[q]) <==> (q, s) in groups)
      && (q in stats && s in stats[q] ==> stats[q][s] == StatusCount(jobs, q, s))
  }

  /** rows are distinct groups of the jobs with their counts. */
  ghost predicate AreGroups(jobs: map<JobId, JobRow>, rows: seq<GroupRow>, groups: seq<(string, JobStatus)>) {
    && |rows| == |groups|
    && (forall i | 0 <= i < |rows| ::
          && groups[i] == (rows[i].queue, rows[i].status)
          && rows[i].count == StatusCount(jobs, rows[i].queue, rows[i].status) && rows[i].count > 0)
    && (forall i, n | 0 <= i < n < |rows| :: groups[i] != groups[n])
  }

  lemma {:induction false} GroupIsInhabited(jobs: map<JobId, JobRow>, g: (string, JobStatus))
    requires exists j :: j in jobs && (jobs[j].queue, jobs[j].status) == g
    ensures StatusCount(jobs, g.0, g.1) > 0
  {
    var j :| j in jobs && (jobs[j].queue, jobs[j].status) == g;
    var some := set i | i in jobs && jobs[i].queue == g.0 && jobs[i].status == g.1;
    assert j in some;
    assert StatusCount(jobs, g.0, g.1) == |some|;
  }

  /** stats[queue][status] = count, making the inner map first when it is missing. */
  function AddGroup(stats: map<string, map<JobStatus, int>>, row: GroupRow): map<string, map<JobStatus, int>> {
    var counts := if row.queue in stats then stats[row.queue] else map[];
    stats[row.queue := counts[row.status := row.count]]
  }

  lemma {:induction false} StatsNext(jobs: map<JobId, JobRow>, stats: map<string, map<JobStatus, int>>,
                                     groups: seq<(string, JobStatus)>, row: GroupRow)
    requires StatsSoFar(jobs, stats, groups) && row.count == StatusCount(jobs, row.queue, row.status)
    ensures StatsSoFar(jobs, AddGroup(stats, row), groups + [(row.queue, row.status)])
  {
    var after := AddGroup(stats, row);
    var g := (row.queue, row.status);
    forall q, s
      ensures (q in after && s in after[q]) <==> (q, s) in groups + [g]
      ensures q in after && s in after[q] ==> after[q][s] == StatusCount(jobs, q, s)
    {
      assert (q in after && s in after[q]) <==> (q in stats && s in stats[q]) || (q, s) == g;
    }
  }

  lemma {:induction false} StatsComplete(jobs: map<JobId, JobRow>, stats: map<string, map<JobStatus, int>>,
                                         groups: seq<(string, JobStatus)>)
    requires StatsSoFar(jobs, stats, groups)
    requires forall j | j in jobs :: (jobs[j].queue, jobs[j].status) in groups
    requires forall g | g in groups :: StatusCount(jobs, g.0, g.1) > 0
    ensures AreQueueStats(jobs, stats)
  {
    forall q, s
      ensures (q, s) in groups <==> StatusCount(jobs, q, s) > 0
    {
      var some := set j | j in jobs && jobs[j].queue == q && jobs[j].status == s;
      if StatusCount(jobs, q, s) > 0 {
        var j :| j in some;
      }
    }
  }

  class Store {
    var jobs: map<JobId, JobRow>
    var logs: seq<LogRow>
    var workers: map<WorkerId, WorkerRow>
    var inTx: bool
    var saved: DB
    const faulty: bool
    const shared: bool   // other processes use the database too

    constructor (faulty: bool, shared: bool)
      ensures Ready() && State() == EMPTY && this.faulty == faulty && this.shared == shared
    {
      jobs, logs, workers := map[], [], map[];
      inTx, saved := false, EMPTY;
      this.faulty, this.shared := faulty, shared;
    }

    function State(): DB
      reads this
    {
      DB(jobs, logs, workers)
    }

    ghost predicate Valid()
      reads this
    {
      Keyed(State()) && (inTx ==> Keyed(saved))
    }

    /** No transaction is open. */
    ghost predicate Ready()
      reads this
    {
      Valid() && !inTx
    }

    method Fails() returns (fails: bool)
      ensures fails ==> faulty
    {
      fails := false;
      if faulty {
        fails := *;
      }
    }

    // ---- transactions ----

    /** BEGIN plus the write that takes the lock. */
    method Begin() returns (ok: bool)
      requires Ready()
      modifies this`inTx, this`saved
      ensures inTx == ok && Valid() && (ok ==> saved == State()) && (!ok ==> faulty)
    {
      var fails := Fails();
      if fails {
        return false;
      }
      inTx, saved := true, DB(jobs, logs, workers);
      return true;
    }

    method Rollback()
      requires Valid() && inTx
      modifies this
      ensures Ready() && State() == old(saved)
    {
      jobs, logs, workers, inTx := saved.jobs, saved.logs, saved.workers, false;
    }

    /** A commit that fails leaves the tables as they were at BEGIN. */
    method Commit() returns (ok: bool)
      requires Valid() && inTx
      modifies this
      ensures Ready() && State() == if ok then old(State()) else old(saved)
      ensures !ok ==> faulty
    {
      var fails := Fails();
      if fails {
        Rollback();
        return false;
      }
      inTx := false;
      return true;
    }

    /** Between two statements outside a transaction other connections may commit anything. */
    method Yield()
      requires Ready()
      modifies this
      ensures Ready() && (!shared ==> State() == old(State()))
    {
      var js: map<JobId, JobRow>, ls: seq<LogRow>, ws: map<WorkerId, WorkerRow> := *, *, *;
      if shared && Keyed(DB(js, ls, ws)) {
        jobs, logs, workers := js, ls, ws;
      }
    }

    // ---- jobs ----

    method InsertJob(job: Job) returns (r: Result<()>)
      requires Valid()
      modifies this`jobs
      ensures Valid()
      ensures r.Ok? ==> job.id !in old(jobs) && jobs == old(jobs)[job.id := job.Row()]
      ensures r.Err? ==> jobs == old(jobs) && (faulty || job.id in jobs)
    {
      var fails := Fails();
      if fails || job.id in jobs {
        return Err(StoreFault);
      }
      jobs := jobs[job.id := job.Row()];
      return Ok(());
    }

    method GetJob(id: JobId) returns (r: Result<Job>)
      requires Valid()
      ensures r.Ok? ==> id in jobs && fresh(r.value) && r.value.Row() == jobs[id]
      ensures r.Err? ==> (id !in jobs && r.error == NotFound) || (faulty && r.error == StoreFault)
    {
      var fails := Fails();
      if fails {
        return Err(StoreFault);
      }
      if id !in jobs {
        return Err(NotFound);
      }
      var job := new Job(jobs[id]);
      return Ok(job);
    }

    /** Optimistic update: writes only when the stored version is the one the caller holds. */
    method UpdateJob(job: Job, now: Time) returns (r: Result<()>)
      requires Valid()
      modifies this`jobs, job`updatedAt
      ensures Valid()
      ensures r.Ok? ==>
        && job.id in old(jobs) && old(jobs[job.id].updatedAt) == old(job.updatedAt)
        && jobs == old(jobs)[job.id := Written(old(jobs)[job.id], old(job.Row()), now)]
        && jobs[job.id] == old(jobs)[job.id].(status := job.status, retriesCount := job.retriesCount,
                                              errorMessage := job.errorMessage, runAt := job.runAt, updatedAt := now)
        && job.Row() == old(job.Row()).(updatedAt := now)
      ensures r.Err? ==> jobs == old(jobs) && job.Row() == old(job.Row())
      ensures r == Err(Conflict) ==> job.id in jobs && jobs[job.id].updatedAt != job.updatedAt
      ensures r == Err(NotFound) ==> faulty || job.id !in jobs
      ensures !faulty ==> r.Ok? || r == Err(Conflict) || r == Err(NotFound)
    {
      var fails := Fails();
      if fails {
        return Err(StoreFault);
      }
      if job.id in jobs && jobs[job.id].updatedAt == job.updatedAt {
        jobs := jobs[job.id := Written(jobs[job.id], job.Row(), now)];
        job.updatedAt := now;
        return Ok(());
      }
      var checkFails := Fails();
      if !checkFails && job.id in jobs {
        return Err(Conflict);
      }
      return Err(NotFound);
    }

    /** Finds the next eligible job and marks it running, joining the caller's transaction if there is one. */
    method AcquireNextPendingJob(queue: string, now: Time) returns (r: Result<Option<Job>>)
      requires Valid()
      modifies this
      ensures Valid() && inTx == old(inTx) && (inTx ==> saved == old(saved))
      ensures r.Ok? && r.value.None? ==> State() == old(State()) && NoneEligible(jobs, queue, now)
      ensures r.Ok? && r.value.Some? ==>
        var job := r.value.value;
        && fresh(job) && IsNext(old(jobs), queue, now, job.id)
        && job.Row() == old(jobs)[job.id].(status := Running, updatedAt := now)
        && State() == old(State()).(jobs := old(jobs)[job.id := job.Row()])
      ensures r.Ok? && r.value.Some? ==>
        var id, was := r.value.value.id, old(jobs);
        && id in was && was[id].queue == queue && was[id].status == Pending && was[id].runAt <= now
        && forall i | i in was && was[i].queue == queue && was[i].status == Pending && was[i].runAt <= now ::
             && was[i].priority <= was[id].priority
             && (was[i].priority == was[id].priority ==> was[id].runAt <= was[i].runAt)
             && (was[i].priority == was[id].priority && was[i].runAt == was[id].runAt ==>
                   was[id].createdAt <= was[i].createdAt)
      ensures r.Ok? && r.value.None? ==>
        forall i | i in jobs :: !(jobs[i].queue == queue && jobs[i].status == Pending && jobs[i].runAt <= now)
      ensures r.Err? ==> faulty && (!inTx ==> State() == old(State()))
    {
      var nested := inTx;
      if !nested {
        var ok := Begin();
        if !ok {
          return Err(StoreFault);
        }
      }
      r := TakeNext(queue, now);
      if !nested {
        if r.Err? {
          Rollback();
        } else {
          var ok := Commit();
          if !ok {
            return Err(StoreFault);
          }
        }
      }
    }

    /** First row of the acquisition query. */
    method FirstDue(queue: string, now: Time) returns (id: Option<JobId>)
      ensures id.None? ==> NoneEligible(jobs, queue, now)
      ensures id.Some? ==> IsNext(jobs, queue, now, id.value)
    {
      var due := set j | j in jobs && Eligible(jobs[j], queue, now);
      if due == {} {
        assert forall i | i in jobs :: i !in due;
        return None;
      }
      ghost var first := FirstToAcquire(jobs, due);
      assert IsNext(jobs, queue, now, first);
      var j :| j in jobs && IsNext(jobs, queue, now, j);
      return Some(j);
    }

    method TakeNext(queue: string, now: Time) returns (r: Result<Option<Job>>)
      requires Valid()
      modifies this`jobs
      ensures Valid()
      ensures r.Ok? && r.value.None? ==> jobs == old(jobs) && NoneEligible(jobs, queue, now)
      ensures r.Ok? && r.value.Some? ==>
        var job := r.value.value;
        && fresh(job) && IsNext(old(jobs), queue, now, job.id)
        && job.Row() == old(jobs)[job.id].(status := Running, updatedAt := now)
        && jobs == old(jobs)[job.id := job.Row()]
      ensures r.Ok? && r.value.Some? ==>
        var id, was := r.value.value.id, old(jobs);
        && id in was && was[id].queue == queue && was[id].status == Pending && was[id].runAt <= now
        && forall i | i in was && was[i].queue == queue && was[i].status == Pending && was[i].runAt <= now ::
             && was[i].priority <= was[id].priority
             && (was[i].priority == was[id].priority ==> was[id].runAt <= was[i].runAt)
             && (was[i].priority == was[id].priority && was[i].runAt == was[id].runAt ==>
                   was[id].createdAt <= was[i].createdAt)
      ensures r.Ok? && r.value.None? ==>
        forall i | i in jobs :: !(jobs[i].queue == queue && jobs[i].status == Pending && jobs[i].runAt <= now)
      ensures r.Err? ==> faulty && jobs == old(jobs)
    {
      var fails := Fails();
      if fails {
        return Err(StoreFault);
      }
      var next := FirstDue(queue, now);
      if next.None? {
        return Ok(None);
      }
      var id := next.value;
      NextIff(jobs, queue, now, id);
      var job := new Job(jobs[id]);
      fails := Fails();
      if fails {
        return Err(StoreFault);
      }
      jobs := jobs[id := jobs[id].(status := Running, updatedAt := now)];
      job.status := Running;
      job.updatedAt := now;
      return Ok(Some(job));
    }

    /** The rows of the listing query, in its order. */
    method QueryJobs(queue: string, status: Option<JobStatus>, search: string, limit: int)
      returns (rows: seq<JobRow>, ghost ids: seq<JobId>)
      requires Valid()
      ensures IsListing(jobs, queue, status, search, limit, ids) && |rows| == |ids|
      ensures forall i | 0 <= i < |rows| :: rows[i] == jobs[ids[i]]
    {
      var left := Matching(jobs, queue, status, search);
      rows, ids := [], [];
      while left != {} && (limit <= 0 || |rows| < limit)
        invariant |rows| == |ids| && (limit > 0 ==> |rows| <= limit)
        invariant ListedSoFar(jobs, Matching(jobs, queue, status, search), left, ids)
        invariant forall i | 0 <= i < |ids| :: rows[i] == jobs[ids[i]]
        decreases left
      {
        ghost var first := FirstListed(jobs, left);
        var j :| j in left && forall i | i in left :: i in jobs && !ListedBefore(jobs[i], jobs[j]);
        NextListed(jobs, Matching(jobs, queue, status, search), left, ids, j);
        rows, ids, left := rows + [jobs[j]], ids + [j], left - {j};
      }
    }

    method ListJobs(queue: string, status: Option<JobStatus>, search: string, limit: int)
      returns (r: Result<seq<Job>>, ghost ids: seq<JobId>)
      requires Valid()
      ensures r.Err? ==> faulty
      ensures r.Ok? ==>
        && IsListing(jobs, queue, status, search, limit, ids) && |r.value| == |ids|
        && (forall i | 0 <= i < |ids| :: fresh(r.value[i]) && r.value[i].Row() == jobs[ids[i]])
        && (forall i, n | 0 <= i < n < |ids| :: r.value[i] != r.value[n])
    {
      ids := [];
      var fails := Fails();
      if fails {
        return Err(StoreFault), ids;
      }
      var rows;
      rows, ids := QueryJobs(queue, status, search, limit);
      var list: seq<Job> := [];
      for i := 0 to |rows|
        invariant |list| == i
        invariant forall k | 0 <= k < i :: fresh(list[k]) && list[k].Row() == rows[k]
        invariant forall k, n | 0 <= k < n < i :: list[k] != list[n]
      {
        fails := Fails();
        if fails {
          return Err(StoreFault), ids;
        }
        var job := new Job(rows[i]);
        list := list + [job];
      }
      return Ok(list), ids;
    }

    method DeleteJob(id: JobId) returns (r: Result<()>)
      requires Valid()
      modifies this`jobs
      ensures Valid()
      ensures r.Ok? ==> id in old(jobs) && jobs == old(jobs) - {id}
      ensures r.Err? ==> jobs == old(jobs)
      ensures r.Err? ==> (r.error == NotFound && id !in jobs) || (faulty && r.error == StoreFault)
    {
      var fails := Fails();
      if fails {
        return Err(StoreFault);
      }
      if id !in jobs {
        return Err(NotFound);
      }
      jobs := jobs - {id};
      return Ok(());
    }

    /** Removes the completed jobs last written before now - olderThan and reports how many there were. */
    method DeleteCompletedJobs(olderThan: Duration, now: Time) returns (r: Result<nat>)
      requires Valid()
      modifies this`jobs
      ensures Valid()
      ensures r.Ok? ==> State() == Purged(old(State()), now - olderThan) && |jobs| == |old(jobs)| - r.value
      ensures r.Ok? ==> forall j :: j in jobs <==>
        j in old(jobs) && !(old(jobs)[j].status == Completed && old(jobs)[j].updatedAt < now - olderThan)
      ensures r.Ok? ==> forall j | j in jobs :: jobs[j] == old(jobs)[j]
      ensures r.Err? ==> faulty && jobs == old(jobs)
    {
      var fails := Fails();
      if fails {
        return Err(StoreFault);
      }
      var gone := set j | j in jobs && Purgeable(jobs[j], now - olderThan);
      var kept := map j | j in jobs && !Purgeable(jobs[j], now - olderThan) :: jobs[j];
      assert jobs.Keys == kept.Keys + gone;
      assert |jobs.Keys| == |kept.Keys| + |gone|;
      jobs := kept;
      return Ok(|gone|);
    }

    /** One row per queue and status that occurs, in any order. */
    method QueryGroups() returns (rows: seq<GroupRow>, ghost groups: seq<(string, JobStatus)>)
      requires Valid()
      ensures AreGroups(jobs, rows, groups)
      ensures forall j | j in jobs :: (jobs[j].queue, jobs[j].status) in groups
    {
      var left := set j | j in jobs :: (jobs[j].queue, jobs[j].status);
      ghost var all := left;
      rows, groups := [], [];
      while left != {}
        invariant left <= all && AreGroups(jobs, rows, groups)
        invariant forall g | g in all :: g in left || g in groups
        invariant forall g | g in groups :: g !in left
        decreases left
      {
        var g :| g in left;
        GroupIsInhabited(jobs, g);
        rows, groups := rows + [GroupRow(g.0, g.1, StatusCount(jobs, g.0, g.1))], groups + [g];
        left := left - {g};
      }
    }

    /** Job counts by queue and status; combinations that do not occur have no entry. */
    method GetQueueStats() returns (r: Result<map<string, map<JobStatus, int>>>)
      requires Valid()
      ensures r.Err? ==> faulty
      ensures r.Ok? ==> AreQueueStats(jobs, r.value)
      ensures r.Ok? ==> forall q, s ::
        var n := |set j | j in jobs && jobs[j].queue == q && jobs[j].status == s|;
        && ((q in r.value && s in r.value[q]) <==> n > 0)
        && (q in r.value && s in r.value[q] ==> r.value[q][s] == n)
    {
      var fails := Fails();
      if fails {
        return Err(StoreFault);
      }
      var rows;
      ghost var groups;
      rows, groups := QueryGroups();
      var stats: map<string, map<JobStatus, int>> := map[];
      for i := 0 to |rows|
        invariant StatsSoFar(jobs, stats, groups[..i])
      {
        fails := Fails();
        if fails {
          return Err(StoreFault);
        }
        assert groups[..i + 1] == groups[..i] + [groups[i]];
        StatsNext(jobs, stats, groups[..i], rows[i]);
        stats := AddGroup(stats, rows[i]);
      }
      assert groups[..|rows|] == groups;
      StatsComplete(jobs, stats, groups);
      return Ok(stats);
    }

    // ---- execution logs ----

    method InsertLog(log: ExecutionLog) returns (r: Result<()>)
      requires Valid()
      modifies this`logs
      ensures Valid()
      ensures r.Ok? ==> logs == old(logs) + [log.Row()] && forall k | 0 <= k < |old(logs)| :: old(logs)[k].id != log.id
      ensures r.Err? ==> logs == old(logs) && (faulty || exists k :: 0 <= k < |logs| && logs[k].id == log.id)
    {
      var fails := Fails();
      if fails || exists k | 0 <= k < |logs| :: logs[k].id == log.id {
        return Err(StoreFault);
      }
      logs := logs + [log.Row()];
      return Ok(());
    }

    /** Writes status, finishing time and message of the row with this id. */
    method UpdateLog(log: ExecutionLog) returns (r: Result<()>)
      requires Valid()
      modifies this`logs
      ensures Valid()
      ensures r.Ok? ==> forall k | 0 <= k < |old(logs)| && old(logs)[k].id == log.id ::
        logs == old(logs)[k := old(logs)[k].(status := log.status, finishedAt := log.finishedAt,
                                                 errorMessage := log.errorMessage)]
      ensures r.Ok? ==> exists k :: 0 <= k < |old(logs)| && old(logs)[k].id == log.id
      ensures r.Err? ==> logs == old(logs) && (faulty || forall k | 0 <= k < |logs| :: logs[k].id != log.id)
    {
      var fails := Fails();
      if fails {
        return Err(StoreFault);
      }
      if k :| 0 <= k < |logs| && logs[k].id == log.id {
        logs := logs[k := logs[k].(status := log.status, finishedAt := log.finishedAt,
                                                 errorMessage := log.errorMessage)];
        return Ok(());
      }
      return Err(NotFound);
    }

    /** The logs of a job by attempt; the last one is the row LatestOf names. */
    method GetLogs(jobId: JobId) returns (r: Result<seq<ExecutionLog>>)
      requires Valid()
      ensures r.Err? ==> faulty
      ensures r.Ok? ==>
        var rows := LogsByAttempt(logs, |logs|, jobId);
        && |r.value| == |rows|
        && (forall i | 0 <= i < |rows| :: fresh(r.value[i]) && r.value[i].Row() == rows[i])
        && (rows == [] <==> LatestOf(logs, jobId).None?)
        && (rows != [] ==> r.value[|rows| - 1].Row() == logs[LatestOf(logs, jobId).value])
    {
      var fails := Fails();
      if fails {
        return Err(StoreFault);
      }
      var rows := LogsByAttempt(logs, |logs|, jobId);
      LogsByAttemptOrder(logs, |logs|, jobId);
      var list: seq<ExecutionLog> := [];
      for i := 0 to |rows|
        invariant |list| == i
        invariant forall k | 0 <= k < i :: fresh(list[k]) && list[k].Row() == rows[k]
      {
        fails := Fails();
        if fails {
          return Err(StoreFault);
        }
        var log := new ExecutionLog(rows[i]);
        list := list + [log];
      }
      return Ok(list);
    }

    // ---- workers ----

    method Upsert(node: Worker) returns (r: Result<()>)
      requires Valid()
      modifies this`workers
      ensures Valid()
      ensures r.Ok? ==> State() == Upserted(old(State()), node.Row())
      ensures r.Ok? ==>
        workers == old(workers)[node.id :=
          if node.id in old(workers)
          then old(workers)[node.id].(status := node.status, lastHeartbeat := node.lastHeartbeat)
          else WorkerRow(node.id, node.hostname, node.queue, node.concurrency, node.status, node.startedAt,
                         node.lastHeartbeat)]
      ensures r.Err? ==> faulty && workers == old(workers)
    {
      var fails := Fails();
      if fails {
        return Err(StoreFault);
      }
      var row := node.Row();
      if node.id in workers {
        row := workers[node.id].(status := node.status, lastHeartbeat := node.lastHeartbeat);
      }
      workers := workers[node.id := row];
      return Ok(());
    }

    method GetWorker(id: WorkerId) returns (r: Result<WorkerRow>)
      requires Valid()
      ensures r.Ok? ==> id in workers && r.value == workers[id]
      ensures r.Err? ==> (r.error == NotFound && id !in workers) || (faulty && r.error == StoreFault)
    {
      var fails := Fails();
      if fails {
        return Err(StoreFault);
      }
      if id !in workers {
        return Err(NotFound);
      }
      return Ok(workers[id]);
    }

    method DeleteWorker(id: WorkerId) returns (r: Result<()>)
      requires Valid()
      modifies this`workers
      ensures Valid()
      ensures r.Ok? ==> id in old(workers) && State() == Unregistered(old(State()), id)
      ensures r.Ok? ==> workers == old(workers) - {id}
      ensures r.Err? ==> workers == old(workers) && (faulty || id !in workers)
    {
      var fails := Fails();
      if fails || id !in workers {
        return Err(if fails then StoreFault else NotFound);
      }
      workers := workers - {id};
      return Ok(());
    }

    /** Marks silent workers stopped and reports how many rows changed. */
    method PruneStale(maxInactivity: Duration, now: Time) returns (r: Result<nat>)
      requires Valid()
      modifies this`workers
      ensures Valid()
      ensures r.Ok? ==>
        && State() == Pruned(old(State()), now, maxInactivity)
        && workers.Keys == old(workers).Keys
        && (forall w | w in workers ::
              workers[w] == if old(workers)[w].status != Stopped && old(workers)[w].lastHeartbeat < now - maxInactivity
                            then old(workers)[w].(status := Stopped, lastHeartbeat := now) else old(workers)[w])
        && r.value == |set w | w in old(workers) && old(workers)[w].status != Stopped
                               && old(workers)[w].lastHeartbeat < now - maxInactivity|
      ensures r.Err? ==> faulty && workers == old(workers)
    {
      var fails := Fails();
      if fails {
        return Err(StoreFault);
      }
      var stale := set w | w in workers && StaleAt(workers[w], now, maxInactivity);
      workers := map w | w in workers :: PrunedRow(workers[w], now, maxInactivity);
      assert stale == set w | w in old(workers) && old(workers)[w].status != Stopped
                              && old(workers)[w].lastHeartbeat < now - maxInactivity;
      return Ok(|stale|);
    }

    /** The workers not stopped, oldest first. */
    method ListActive() returns (r: Result<seq<WorkerRow>>)
      requires Valid()
      ensures r.Err? ==> faulty
      ensures r.Ok? ==> IsActiveListing(workers, r.value)
      ensures r.Ok? ==>
        && (forall i | 0 <= i < |r.value| ::
              r.value[i].id in workers && workers[r.value[i].id] == r.value[i] && r.value[i].status != Stopped)
        && (forall w | w in workers && workers[w].status != Stopped :: workers[w] in r.value)
        && (forall i, n | 0 <= i < n < |r.value| :: r.value[i].startedAt <= r.value[n].startedAt)
    {
      var fails := Fails();
      if fails {
        return Err(StoreFault);
      }
      var left := set w | w in workers && workers[w].status != Stopped;
      var rows: seq<WorkerRow> := [];
      while left != {}
        invariant ActiveSoFar(workers, rows, left)
        decreases left
      {
        ghost var first := OldestOf(workers, left);
        var w :| w in left && forall v | v in left :: v in workers && workers[w].startedAt <= workers[v].startedAt;
        NextActive(workers, rows, left, w);
        rows, left := rows + [workers[w]], left - {w};
      }
      return Ok(rows);
    }
  }
}
