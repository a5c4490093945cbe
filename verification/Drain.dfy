/** Fetching at one instant, with nothing in between, until the queue has no due job left. */
module Drain {
  import opened Domain
  import opened Tables
  import opened Service

  /** The jobs a fetch from this queue may return now. */
  function Due(jobs: map<JobId, JobRow>, queue: string, now: Time): set<JobId> {
    set j | j in jobs && Eligible(jobs[j], queue, now)
  }

  /** What one fetch hands out: the job, to whom, under which log id and when the log was opened. */
  datatype Handout = Handout(j: JobId, w: WorkerId, logId: LogId, t2: Time)

  function HandedOver(db: DB, now: Time, h: Handout): DB
    requires h.j in db.jobs
  {
    Fetched(db, h.j, h.w, h.logId, now, h.t2)
  }

  /** Each of them is a row the acquisition query may return at its turn. */
  ghost predicate Consecutive(db: DB, queue: string, now: Time, got: seq<Handout>)
    decreases |got|, 0
  {
    got == [] ||
    (&& Consecutive(db, queue, now, got[..|got| - 1])
     && IsNext(FetchAll(db, queue, now, got[..|got| - 1]).jobs, queue, now, got[|got| - 1].j))
  }

  /** The tables after these fetches. */
  ghost function FetchAll(db: DB, queue: string, now: Time, got: seq<Handout>): DB
    requires Consecutive(db, queue, now, got)
    decreases |got|, 1
  {
    if got == [] then db
    else HandedOver(FetchAll(db, queue, now, got[..|got| - 1]), now, got[|got| - 1])
  }

  lemma {:induction false} OneMore(db: DB, queue: string, now: Time, got: seq<Handout>, h: Handout)
    requires Consecutive(db, queue, now, got)
    requires IsNext(FetchAll(db, queue, now, got).jobs, queue, now, h.j)
    ensures Consecutive(db, queue, now, got + [h])
    ensures FetchAll(db, queue, now, got + [h]) == HandedOver(FetchAll(db, queue, now, got), now, h)
  {
    var all := got + [h];
    assert all[..|all| - 1] == got && all[|all| - 1] == h;
  }

  function Ids(got: seq<Handout>): set<JobId> {
    if got == [] then {} else Ids(got[..|got| - 1]) + {got[|got| - 1].j}
  }

  /** One fetch takes one job out of the due ones and leaves the rows of the others. */
  lemma {:induction false} DueStep(db: DB, queue: string, now: Time, h: Handout)
    requires IsNext(db.jobs, queue, now, h.j)
    ensures var after := HandedOver(db, now, h).jobs;
            && Due(after, queue, now) == Due(db.jobs, queue, now) - {h.j}
            && forall j | j in Due(after, queue, now) :: after[j] == db.jobs[j]
  {
  }

  /** What is left is what was due at first without what was handed out, rows untouched and none of them better. */
  ghost predicate Left(db: DB, queue: string, now: Time, got: seq<Handout>)
    requires Consecutive(db, queue, now, got)
  {
    var due, after := Due(db.jobs, queue, now), FetchAll(db, queue, now, got).jobs;
    && Ids(got) <= due && |Ids(got)| == |got|
    && (forall i | 0 <= i < |got| :: got[i].j in Ids(got))
    && Due(after, queue, now) == due - Ids(got)
    && (forall j | j in due - Ids(got) :: j in after && after[j] == db.jobs[j])
    && forall i, j | 0 <= i < |got| && j in due - Ids(got) :: !Precedes(db.jobs[j], db.jobs[got[i].j])
  }

  lemma {:induction false} AlwaysLeft(db: DB, queue: string, now: Time, got: seq<Handout>)
    requires Consecutive(db, queue, now, got)
    ensures Left(db, queue, now, got)
    decreases |got|
  {
    if got != [] {
      var front, h := got[..|got| - 1], got[|got| - 1];
      AlwaysLeft(db, queue, now, front);
      var before := FetchAll(db, queue, now, front);
      DueStep(before, queue, now, h);
      assert h.j in Due(before.jobs, queue, now) && Ids(got) == Ids(front) + {h.j};
      assert Due(db.jobs, queue, now) - Ids(got) == Due(before.jobs, queue, now) - {h.j};
      assert forall i | 0 <= i < |front| :: got[i] == front[i];
    }
  }

  /** Handed out earlier means a higher priority, or an earlier run time, or an earlier creation. */
  lemma {:induction false} HandedOutOnceInOrder(db: DB, queue: string, now: Time, got: seq<Handout>)
    requires Consecutive(db, queue, now, got)
    ensures forall i | 0 <= i < |got| :: got[i].j in Due(db.jobs, queue, now)
    ensures forall i, n | 0 <= i < n < |got| ::
              && got[i].j in db.jobs && got[n].j in db.jobs && got[i].j != got[n].j
              && db.jobs[got[i].j].priority >= db.jobs[got[n].j].priority
              && (db.jobs[got[i].j].priority == db.jobs[got[n].j].priority ==>
                    db.jobs[got[i].j].runAt <= db.jobs[got[n].j].runAt)
              && (db.jobs[got[i].j].priority == db.jobs[got[n].j].priority
                  && db.jobs[got[i].j].runAt == db.jobs[got[n].j].runAt ==>
                    db.jobs[got[i].j].createdAt <= db.jobs[got[n].j].createdAt)
    decreases |got|
  {
    AlwaysLeft(db, queue, now, got);
    if got != [] {
      var front, h := got[..|got| - 1], got[|got| - 1];
      HandedOutOnceInOrder(db, queue, now, front);
      AlwaysLeft(db, queue, now, front);
      assert h.j in Due(FetchAll(db, queue, now, front).jobs, queue, now);
      assert forall i | 0 <= i < |front| :: got[i] == front[i];
    }
  }

  lemma {:induction false} LeftCount(due: set<JobId>, gone: set<JobId>)
    requires gone <= due
    ensures |due - gone| == |due| - |gone|
  {
  }

  /** The due jobs, by the columns the query compares. */
  lemma {:induction false} DueByColumns(jobs: map<JobId, JobRow>, queue: string, now: Time)
    ensures Due(jobs, queue, now) ==
            set j | j in jobs && jobs[j].queue == queue && jobs[j].status == Pending && jobs[j].runAt <= now
  {
  }

  /**
    Any number of consecutive fetches at one instant hand out due jobs, each once: by falling priority, then by
    rising run time, then by rising creation time. There are at most as many as jobs were due, and the next fetch
    finds nothing exactly when all of them have been handed out.
    */
  lemma {:induction false} DrainIsOrderedAndComplete(db: DB, queue: string, now: Time, got: seq<Handout>)
    requires Consecutive(db, queue, now, got)
    ensures forall i | 0 <= i < |got| ::
              && got[i].j in db.jobs && db.jobs[got[i].j].queue == queue
              && db.jobs[got[i].j].status == Pending && db.jobs[got[i].j].runAt <= now
    ensures forall i, n | 0 <= i < n < |got| ::
              && got[i].j in db.jobs && got[n].j in db.jobs && got[i].j != got[n].j
              && db.jobs[got[i].j].priority >= db.jobs[got[n].j].priority
              && (db.jobs[got[i].j].priority == db.jobs[got[n].j].priority ==>
                    db.jobs[got[i].j].runAt <= db.jobs[got[n].j].runAt)
              && (db.jobs[got[i].j].priority == db.jobs[got[n].j].priority
                  && db.jobs[got[i].j].runAt == db.jobs[got[n].j].runAt ==>
                    db.jobs[got[i].j].createdAt <= db.jobs[got[n].j].createdAt)
    ensures var jobs := db.jobs;
            var due := set j | j in jobs && jobs[j].queue == queue && jobs[j].status == Pending && jobs[j].runAt <= now;
            && |got| <= |due|
            && (NoneEligible(FetchAll(db, queue, now, got).jobs, queue, now) <==> |got| == |due|)
  {
    HandedOutOnceInOrder(db, queue, now, got);
    AlwaysLeft(db, queue, now, got);
    DueByColumns(db.jobs, queue, now);
    var due, after := Due(db.jobs, queue, now), FetchAll(db, queue, now, got).jobs;
    LeftCount(due, Ids(got));
    NoneLeftIff(after, queue, now);
  }

  /** What was handed out is running, every other row as it was. */
  lemma {:induction false} DrainRows(db: DB, queue: string, now: Time, got: seq<Handout>)
    requires Consecutive(db, queue, now, got)
    ensures var after := FetchAll(db, queue, now, got);
            && after.workers == db.workers && after.jobs.Keys == db.jobs.Keys
            && forall j | j in db.jobs ::
                 after.jobs[j] ==
                 if j in Ids(got) then db.jobs[j].(status := Running, updatedAt := now) else db.jobs[j]
    decreases |got|
  {
    if got != [] {
      var front, h := got[..|got| - 1], got[|got| - 1];
      DrainRows(db, queue, now, front);
      var before := FetchAll(db, queue, now, front);
      assert before.jobs[h.j].status == Pending;
      assert h.j !in Ids(front);
    }
  }

  /** Each handout has added one open log, in order. */
  lemma {:induction false} DrainLogs(db: DB, queue: string, now: Time, got: seq<Handout>)
    requires Consecutive(db, queue, now, got)
    ensures var after := FetchAll(db, queue, now, got);
            && |after.logs| == |db.logs| + |got| && after.logs[..|db.logs|] == db.logs
            && forall i | 0 <= i < |got| ::
                 && got[i].j in db.jobs
                 && after.logs[|db.logs| + i] ==
                    LogRow(got[i].logId, db.jobs[got[i].j].id, got[i].w, db.jobs[got[i].j].retriesCount + 1,
                           ExecutionFailed, got[i].t2, None, "")
    decreases |got|
  {
    if got != [] {
      var front, h := got[..|got| - 1], got[|got| - 1];
      DrainLogs(db, queue, now, front);
      DrainRows(db, queue, now, front);
      var before, after := FetchAll(db, queue, now, front).logs, FetchAll(db, queue, now, got).logs;
      assert after[..|before|] == before;
      assert after[..|db.logs|] == before[..|db.logs|];
      forall i | 0 <= i < |got|
        ensures got[i].j in db.jobs &&
                after[|db.logs| + i] ==
                LogRow(got[i].logId, db.jobs[got[i].j].id, got[i].w, db.jobs[got[i].j].retriesCount + 1,
                       ExecutionFailed, got[i].t2, None, "")
      {
        if i < |front| {
          assert got[i] == front[i];
        }
      }
    }
  }

  lemma {:induction false} NoneLeftIff(jobs: map<JobId, JobRow>, queue: string, now: Time)
    ensures NoneEligible(jobs, queue, now) <==> |Due(jobs, queue, now)| == 0
  {
    if j :| j in jobs && Eligible(jobs[j], queue, now) {
      assert j in Due(jobs, queue, now);
    }
  }

  /**
    Fetches until the service answers that nothing is left. It ends; `got` is what it handed out, in order, and
    without a failing call, a bad id or a corrupt row it hands out every due job.
    */
  method DrainQueue(svc: JobService, queue: string, workerId: WorkerId, logIds: nat -> LogId, now: Time, t2: Time)
    returns (jobs: seq<Job>, empty: bool, ghost got: seq<Handout>)
    requires svc.Ready()
    modifies svc.store
    ensures svc.Ready() && |jobs| == |got|
    ensures forall i | 0 <= i < |got| :: fresh(jobs[i]) && jobs[i].id == got[i].j && jobs[i].status == Running
    ensures Consecutive(old(svc.store.State()), queue, now, got)
    ensures svc.store.State() == FetchAll(old(svc.store.State()), queue, now, got)
    ensures empty ==> |got| == |Due(old(svc.store.jobs), queue, now)| && NoneEligible(svc.store.jobs, queue, now)
    ensures !empty ==>
      || workerId == "" || svc.store.faulty || !LogIdUnused(svc.store.logs, logIds(|got|))
      || (exists j :: j in svc.store.jobs && (svc.store.jobs[j].retriesCount < 0 || j == ""))
  {
    ghost var db := svc.store.State();
    jobs, got := [], [];
    while true
      invariant svc.Ready() && |jobs| == |got|
      invariant forall i | 0 <= i < |got| :: fresh(jobs[i]) && jobs[i].id == got[i].j && jobs[i].status == Running
      invariant Consecutive(db, queue, now, got) && svc.store.State() == FetchAll(db, queue, now, got)
      decreases |Due(db.jobs, queue, now)| - |got|
    {
      var r, more := FetchOneMore(svc, queue, workerId, logIds(|jobs|), now, t2, db, got);
      if r.Err? {
        return jobs, false, got;
      }
      if r.value.None? {
        return jobs, true, got;
      }
      jobs, got := jobs + [r.value.value], more;
    }
  }

  method FetchOneMore(svc: JobService, queue: string, workerId: WorkerId, logId: LogId, now: Time, t2: Time,
                      ghost db: DB, ghost got: seq<Handout>)
    returns (r: Result<Option<Job>>, ghost more: seq<Handout>)
    requires svc.Ready() && Consecutive(db, queue, now, got)
    requires svc.store.State() == FetchAll(db, queue, now, got)
    modifies svc.store
    ensures svc.Ready() && Consecutive(db, queue, now, more)
    ensures svc.store.State() == FetchAll(db, queue, now, more) && |more| <= |Due(db.jobs, queue, now)|
    ensures r.Ok? && r.value.Some? ==>
      var job := r.value.value;
      fresh(job) && job.status == Running && more == got + [Handout(job.id, workerId, logId, t2)]
    ensures r.Err? || r.value.None? ==> more == got
    ensures r.Ok? && r.value.None? ==>
      |got| == |Due(db.jobs, queue, now)| && NoneEligible(svc.store.jobs, queue, now)
    ensures r.Err? ==>
      || workerId == "" || svc.store.faulty || !LogIdUnused(svc.store.logs, logId)
      || (exists j :: j in svc.store.jobs && (svc.store.jobs[j].retriesCount < 0 || j == ""))
  {
    more := got;
    r := svc.FetchNextJob(queue, workerId, logId, now, t2);
    if r.Ok? && r.value.Some? {
      ghost var h := Handout(r.value.value.id, workerId, logId, t2);
      OneMore(db, queue, now, got, h);
      more := got + [h];
    }
    DrainIsOrderedAndComplete(db, queue, now, more);
    DueByColumns(db.jobs, queue, now);
  }
}
