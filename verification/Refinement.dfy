/**
  The service methods as events of the protocol. Each method here calls one of them on a store whose tables are
  those of a system state, and proves that what the call did is an enabled event, or a run of events, of that
  system. The conditions on ids and clock readings are the protocol's own.
*/
module Refinement {
  import opened Domain
  import opened Tables
  import opened Queries
  import opened Protocol
  import opened Invariants
  import opened History
  import opened Lifecycle
  import opened Steps
  import opened Service
  import opened DeadLetterQueue
  import B = Backoff

  ghost predicate Step(s: Sys, e: Event, after: DB) {
    s.delays.Valid() && Enabled(s, e) && Apply(s, e).db == after
  }

  /** The store holds the tables of s. */
  ghost predicate Mirrors(svc: JobService, s: Sys)
    reads svc, svc.store, svc.sched
  {
    svc.Ready() && Inv(s) && svc.store.State() == s.db && svc.engine.delays == s.delays
  }

  /** A reading of the clock later than every version stored so far. */
  ghost predicate Fresher(s: Sys, t: Time) {
    s.now <= t && forall j | j in s.db.jobs :: s.db.jobs[j].updatedAt < t
  }

  // ---- single calls ----

  method EnqueueIsAnEvent(svc: JobService, id: JobId, jobType: string, payload: string, validPayload: bool,
                          queue: string, priority: int, runAt: Option<Time>, maxRetries: int, now: Time, ghost s: Sys)
    returns (r: Result<Job>)
    requires Mirrors(svc, s) && id !in s.issued
    modifies svc.store, svc.sched
    ensures svc.Ready()
    ensures r.Ok? ==> Step(s, Enqueue(r.value.Row()), svc.store.State())
    ensures r.Err? ==> svc.store.State() == s.db
  {
    r := svc.Enqueue(id, jobType, payload, validPayload, queue, priority, runAt, maxRetries, now);
  }

  method FetchIsAnEvent(svc: JobService, queue: string, w: WorkerId, logId: LogId, t1: Time, t2: Time, ghost s: Sys)
    returns (r: Result<Option<Job>>)
    requires Mirrors(svc, s) && Fresher(s, t1) && t1 <= t2
    modifies svc.store
    ensures svc.Ready()
    ensures r.Ok? && r.value.Some? ==> Step(s, Fetch(w, queue, r.value.value.id, logId, t1, t2), svc.store.State())
    ensures r.Ok? && r.value.None? ==> svc.store.State() == s.db && NoneEligible(s.db.jobs, queue, t1)
    ensures r.Err? ==> svc.store.State() == s.db
  {
    r := svc.FetchNextJob(queue, w, logId, t1, t2);
  }

  method SuccessIsAnEvent(svc: JobService, job: Job, w: WorkerId, t1: Time, t2: Time, ghost s: Sys)
    returns (r: Result<()>)
    requires Mirrors(svc, s) && Hold(w, job.id) in s.hands && Fresher(s, t1) && t1 <= t2
    modifies svc.store, job
    ensures svc.Ready()
    ensures r.Ok? ==>
      Step(s, Succeed(w, old(job.id), LatestOf(s.db.logs, old(job.id)), t1, t2), svc.store.State())
    ensures r.Err? ==> svc.store.State() == s.db
  {
    LatestOfIsLatest(s.db.logs, job.id);
    r := svc.HandleJobSuccess(job, w, t1, t2);
  }

  /** The charge a HandleJobFailure call makes when the store accepts it. */
  function ChargeBy(s: Sys, j: JobId, w: WorkerId, msg: string, outOfRange: int, t1: Time, t2: Time, t3: Time): Charge
    requires j in s.db.jobs
  {
    Charge(j, w, LatestOf(s.db.logs, j), msg, outOfRange, t1, t2, t3, Exhausts(s.db.jobs[j]))
  }

  method FailureIsAnEvent(svc: JobService, job: Job, w: WorkerId, failure: Option<string>, outOfRange: int,
                          t1: Time, t2: Time, t3: Time, ghost s: Sys) returns (r: Result<()>)
    requires Mirrors(svc, s) && Hold(w, job.id) in s.hands && w != "" && s.now <= t1 && Fresher(s, t2) && t1 <= t2 <= t3
    modifies svc.store, job
    ensures svc.Ready()
    ensures r.Ok? ==>
      && failure.Some? && old(job.id) in s.db.jobs
      && Step(s, WorkerFail(ChargeBy(s, old(job.id), w, failure.value, outOfRange, t1, t2, t3)), svc.store.State())
    ensures r.Err? ==> svc.store.State() == s.db
  {
    LatestOfIsLatest(s.db.logs, job.id);
    r := svc.HandleJobFailure(job, w, failure, outOfRange, t1, t2, t3);
  }

  // ---- DLQ commands: a read, whatever others commit, and a write ----

  /** Whatever system the write meets, as long as the command still holds what it read, it is this event. */
  ghost predicate WritesAsAnEvent(before: DB, a: nat, held: Admin, e: Event, t: Time, after: DB) {
    forall s: Sys | Inv(s) && s.db == before && a in s.admins && s.admins[a] == held && Fresher(s, t) ::
      Step(s, e, after)
  }

  ghost predicate ReadsAsAnEvent(s: Sys, a: nat, j: JobId, forDelete: bool, held: Admin) {
    && s.delays.Valid() && Enabled(s, AdminRead(a, j, forDelete))
    && Apply(s, AdminRead(a, j, forDelete)).admins == s.admins[a := held]
  }

  lemma {:induction false} ReplayWrites(before: DB, a: nat, read: JobRow, target: Option<string>, t1: Time, t2: Time)
    requires read.id in before.jobs && before.jobs[read.id].updatedAt == read.updatedAt && t1 <= t2
    ensures var row := before.jobs[read.id];
            WritesAsAnEvent(before, a, HoldsForReplay(read), AdminReplay(a, read.id, target, t1, t2), t2,
                            before.(jobs := before.jobs[read.id := Written(row, ReplayedRow(read, t1, t2), t2)]))
  {
    var after := before.(jobs := before.jobs[read.id := Written(before.jobs[read.id], ReplayedRow(read, t1, t2), t2)]);
    forall s: Sys | Inv(s) && s.db == before && a in s.admins && s.admins[a] == HoldsForReplay(read) && Fresher(s, t2)
      ensures Step(s, AdminReplay(a, read.id, target, t1, t2), after)
    {
      ReplayStep(s, a, read, target, t1, t2);
    }
  }

  lemma {:induction false} ReplayStep(s: Sys, a: nat, read: JobRow, target: Option<string>, t1: Time, t2: Time)
    requires Inv(s) && a in s.admins && s.admins[a] == HoldsForReplay(read) && Fresher(s, t2)
    requires read.id in s.db.jobs && s.db.jobs[read.id].updatedAt == read.updatedAt && t1 <= t2
    ensures var row := s.db.jobs[read.id];
            Step(s, AdminReplay(a, read.id, target, t1, t2),
                 s.db.(jobs := s.db.jobs[read.id := Written(row, ReplayedRow(read, t1, t2), t2)]))
  {
  }

  lemma {:induction false} DeleteWrites(before: DB, a: nat, read: JobRow, t: Time)
    requires read.id in before.jobs
    ensures WritesAsAnEvent(before, a, HoldsForDelete(read), AdminDelete(a, read.id), t, Deleted(before, read.id))
  {
    forall s: Sys | Inv(s) && s.db == before && a in s.admins && s.admins[a] == HoldsForDelete(read) && Fresher(s, t)
      ensures Step(s, AdminDelete(a, read.id), Deleted(before, read.id))
    {
      DeleteStep(s, a, read);
    }
  }

  lemma {:induction false} DeleteStep(s: Sys, a: nat, read: JobRow)
    requires Inv(s) && a in s.admins && s.admins[a] == HoldsForDelete(read) && read.id in s.db.jobs
    ensures Step(s, AdminDelete(a, read.id), Deleted(s.db, read.id))
  {
  }

  lemma {:induction false} DeadRowIsRead(s: Sys, a: nat, j: JobId, forDelete: bool)
    requires Inv(s) && a !in s.admins && j in s.db.jobs && s.db.jobs[j].status == DeadLetter
    ensures s.db.jobs[j].id == j
    ensures ReadsAsAnEvent(s, a, j, forDelete,
                           if forDelete then HoldsForDelete(s.db.jobs[j]) else HoldsForReplay(s.db.jobs[j]))
  {
  }

  method RetryIsTwoEvents(dlq: DlqService, id: JobId, t1: Time, t2: Time, ghost s: Sys, ghost a: nat)
    returns (r: Result<()>, ghost read: JobRow, ghost before: DB)
    requires dlq.store.Ready() && Inv(s) && dlq.store.State() == s.db && a !in s.admins && t1 <= t2
    modifies dlq.store
    ensures dlq.store.Ready()
    ensures r.Ok? ==>
      && ReadsAsAnEvent(s, a, id, false, HoldsForReplay(read))
      && WritesAsAnEvent(before, a, HoldsForReplay(read), AdminReplay(a, id, None, t1, t2), t2, dlq.store.State())
    ensures r.Err? ==> dlq.store.State() == before
  {
    r, read, before := dlq.Retry(id, t1, t2);
    if r.Ok? {
      DeadRowIsRead(s, a, id, false);
      ReplayWrites(before, a, read, None, t1, t2);
    }
  }

  method RestoreIsTwoEvents(dlq: DlqService, id: JobId, targetQueue: string, t1: Time, t2: Time,
                            ghost s: Sys, ghost a: nat)
    returns (r: Result<()>, ghost read: JobRow, ghost before: DB)
    requires dlq.store.Ready() && Inv(s) && dlq.store.State() == s.db && a !in s.admins && t1 <= t2
    modifies dlq.store
    ensures dlq.store.Ready()
    ensures r.Ok? ==>
      && ReadsAsAnEvent(s, a, id, false, HoldsForReplay(read))
      && WritesAsAnEvent(before, a, HoldsForReplay(read), AdminReplay(a, id, Some(targetQueue), t1, t2), t2,
                         dlq.store.State())
    ensures r.Err? ==> dlq.store.State() == before
  {
    r, read, before := dlq.Restore(id, targetQueue, t1, t2);
    if r.Ok? {
      DeadRowIsRead(s, a, id, false);
      ReplayWrites(before, a, read, Some(targetQueue), t1, t2);
    }
  }

  method DeleteIsTwoEvents(dlq: DlqService, id: JobId, t: Time, ghost s: Sys, ghost a: nat)
    returns (r: Result<()>, ghost before: DB)
    requires dlq.store.Ready() && Inv(s) && dlq.store.State() == s.db && a !in s.admins
    modifies dlq.store
    ensures dlq.store.Ready()
    ensures r.Ok? ==>
      && id in s.db.jobs
      && ReadsAsAnEvent(s, a, id, true, HoldsForDelete(s.db.jobs[id]))
      && WritesAsAnEvent(before, a, HoldsForDelete(s.db.jobs[id]), AdminDelete(a, id), t, dlq.store.State())
    ensures r.Err? ==> dlq.store.State() == before
  {
    r, before := dlq.Delete(id);
    if r.Ok? {
      DeadRowIsRead(s, a, id, true);
      DeleteWrites(before, a, s.db.jobs[id], t);
    }
  }

  // ---- a reclaim pass ----

  /** Every job a reclaimer has listed has a log; this is the row its query puts last. */
  lemma {:induction false} LatestRow(s: Sys, r: nat, j: JobId) returns (k: int)
    requires Inv(s) && r in s.reclaimers && j in s.reclaimers[r].todo
    ensures LatestOf(s.db.logs, j) == Some(k) && IsLatest(s.db.logs, j, k)
    ensures OwnerOf(s.db.logs, j) == s.db.logs[k].workerId
  {
    LatestOfIsLatest(s.db.logs, j);
    assert ReclaimerOk(s.db.logs, s.reclaimers[r]);
    assert HasLogs(s.db.logs, j);
    k := LatestOf(s.db.logs, j).value;
  }

  /** One charged job of a reclaim pass is three events: read the logs, read the worker, fail the job. */
  lemma {:induction false} ReclaimingIsThreeEvents(s: Sys, r: nat, j: JobId, outOfRange: int, t1: Time, t2: Time,
                                                   t3: Time) returns (es: seq<Event>, t: Sys)
    requires Inv(s) && r in s.reclaimers && s.reclaimers[r].Scanning?
    requires s.reclaimers[r].todo != [] && s.reclaimers[r].todo[0] == j
    requires Reclaimable(s.db, j)
    requires s.now <= t1 <= t2 <= t3 && s.db.jobs[j].updatedAt < t2
    ensures |es| == 3 && es[2].ReclaimFail? && es[2].c.j == j && Leads(s, es, t) && Inv(t)
    ensures t == MovedOn(s, r).(db := Reclaimed(s.delays, s.db, j, outOfRange, t1, t2, t3), now := t3)
  {
    var k := LatestRow(s, r, j);
    var s2 := WorkerIsLookedUp(s, r, j, k);
    SameMove(s, r, Charging(s.reclaimers[r].todo, OwnerOf(s.db.logs, j)));
    var e;
    e, t := JobIsCharged(s2, r, j, k, RECLAIM_MESSAGE, outOfRange, t1, t2, t3);
    ThenAll(s, [ReadLogs(r, Some(k)), ReadWorker(r)], s2, [e], t);
    es := [ReadLogs(r, Some(k)), ReadWorker(r)] + [e];
  }

  /** A job that is not charged: its worker is alive, the call is refused, or a query fails. */
  lemma {:induction false} PassingOver(s: Sys, r: nat) returns (es: seq<Event>, t: Sys)
    requires Inv(s) && r in s.reclaimers && s.reclaimers[r].Scanning? && s.reclaimers[r].todo != []
    ensures Leads(s, es, t) && Inv(t) && t == MovedOn(s, r)
  {
    var j := s.reclaimers[r].todo[0];
    if DeadWorker(s.db.workers, OwnerOf(s.db.logs, j)) {
      es, t := [SkipJob(r)], MovedOn(s, r);
      OneEvent(s, SkipJob(r));
      ReclaimerStepKeeps(s, SkipJob(r));
    } else {
      var k := LatestRow(s, r, j);
      t := WorkerIsLookedUp(s, r, j, k);
      es := [ReadLogs(r, Some(k)), ReadWorker(r)];
    }
  }

  /** Jobs the loop has not come to yet are as they were. */
  lemma {:induction false} RowsAhead(d: B.Delays, start: DB, listed: seq<JobId>, hits: seq<bool>, ticks: nat -> Time,
                                     outOfRange: int, n: nat)
    requires PassOk(d, start, listed, hits, ticks, outOfRange) && |hits| <= n < |listed|
    requires forall i, k | 0 <= i < k < |listed| :: listed[i] != listed[k]
    requires listed[n] in start.jobs
    ensures var db := PassResult(d, start, listed, hits, ticks, outOfRange);
            listed[n] in db.jobs && db.jobs[listed[n]] == start.jobs[listed[n]]
    decreases |hits|
  {
    if hits != [] {
      RowsAhead(d, start, listed, hits[..|hits| - 1], ticks, outOfRange, n);
    }
  }

  /** Where the loop of a pass stands after i jobs, on tables db and not later than `now`. */
  ghost predicate Reached(s: Sys, r: nat, listed: seq<JobId>, i: nat, now: Time, db: DB, t: Sys)
    requires i <= |listed|
  {
    && Inv(t) && t.db == db && t.delays == s.delays && t.now <= now
    && t.reclaimers == s.reclaimers[r := Scanning(listed[i..])] && t.admins == s.admins
  }

  lemma {:induction false} MovedAlong(s: Sys, r: nat, listed: seq<JobId>, i: nat, t: Sys)
    requires i < |listed| && t.reclaimers == s.reclaimers[r := Scanning(listed[i..])]
    ensures r in t.reclaimers && t.reclaimers[r].Scanning?
    ensures t.reclaimers[r].todo != [] && t.reclaimers[r].todo[0] == listed[i]
    ensures MovedOn(t, r).reclaimers == s.reclaimers[r := Scanning(listed[i + 1..])]
  {
    assert Rest(listed[i..]) == listed[i + 1..];
  }

  /** One turn of the loop. */
  lemma {:induction false} TurnIsARun(s: Sys, r: nat, listed: seq<JobId>, i: nat, hit: bool, outOfRange: int, t: Sys,
                                      t0: Time, t1: Time, t2: Time, t3: Time) returns (es: seq<Event>, u: Sys)
    requires i < |listed| && Reached(s, r, listed, i, t0, t.db, t) && t0 <= t1 <= t2 <= t3
    requires hit ==> Reclaimable(t.db, listed[i]) && t.db.jobs[listed[i]].updatedAt < t2
    ensures Leads(t, es, u)
    ensures Reached(s, r, listed, i + 1, t3, TurnResult(s.delays, t.db, listed[i], hit, outOfRange, t1, t2, t3), u)
  {
    MovedAlong(s, r, listed, i, t);
    if hit {
      es, u := ReclaimingIsThreeEvents(t, r, listed[i], outOfRange, t1, t2, t3);
    } else {
      es, u := PassingOver(t, r);
    }
  }

  /** The loop of a pass, from the state in which its reclaimer has just listed the running jobs. */
  lemma {:induction false} LoopIsARun(s: Sys, r: nat, listed: seq<JobId>, hits: seq<bool>, ticks: nat -> Time,
                                      outOfRange: int) returns (es: seq<Event>, t: Sys)
    requires Inv(s) && r in s.reclaimers && s.reclaimers[r] == Scanning(listed)
    requires forall i, k | 0 <= i < k < |listed| :: listed[i] != listed[k]
    requires forall i | 0 <= i < |listed| :: listed[i] in s.db.jobs && s.db.jobs[listed[i]].updatedAt < ticks(0)
    requires s.now <= ticks(0) && forall i: nat, n: nat | i <= n :: ticks(i) <= ticks(n)
    requires PassOk(s.delays, s.db, listed, hits, ticks, outOfRange)
    ensures Leads(s, es, t)
    ensures Reached(s, r, listed, |hits|, ticks(3 * |hits|),
                    PassResult(s.delays, s.db, listed, hits, ticks, outOfRange), t)
    decreases |hits|
  {
    if hits == [] {
      es, t := [], s;
      LoopStarts(s, r, listed, ticks(0));
    } else {
      var front, before := LoopIsARun(s, r, listed, hits[..|hits| - 1], ticks, outOfRange);
      es, t := LoopGoesOn(s, r, listed, hits, ticks, outOfRange, front, before);
    }
  }

  lemma {:induction false} LoopStarts(s: Sys, r: nat, listed: seq<JobId>, now: Time)
    requires Inv(s) && r in s.reclaimers && s.reclaimers[r] == Scanning(listed) && s.now <= now
    ensures Leads(s, [], s) && Reached(s, r, listed, 0, now, s.db, s)
  {
    NoEvents(s);
    assert listed[0..] == listed;
    assert s.reclaimers[r := Scanning(listed)] == s.reclaimers;
  }

  lemma {:induction false} LoopGoesOn(s: Sys, r: nat, listed: seq<JobId>, hits: seq<bool>, ticks: nat -> Time,
                                      outOfRange: int, front: seq<Event>, before: Sys)
    returns (es: seq<Event>, t: Sys)
    requires PassOk(s.delays, s.db, listed, hits, ticks, outOfRange) && hits != []
    requires forall i, k | 0 <= i < k < |listed| :: listed[i] != listed[k]
    requires forall i | 0 <= i < |listed| :: listed[i] in s.db.jobs && s.db.jobs[listed[i]].updatedAt < ticks(0)
    requires forall i: nat, n: nat | i <= n :: ticks(i) <= ticks(n)
    requires Leads(s, front, before)
    requires var i := |hits| - 1;
             Reached(s, r, listed, i, ticks(3 * i),
                     PassResult(s.delays, s.db, listed, hits[..i], ticks, outOfRange), before)
    ensures Leads(s, es, t)
    ensures Reached(s, r, listed, |hits|, ticks(3 * |hits|),
                    PassResult(s.delays, s.db, listed, hits, ticks, outOfRange), t)
  {
    var i := |hits| - 1;
    TurnIsDue(s.delays, s.db, listed, hits, ticks, outOfRange);
    es, t := LoopNext(s, front, r, listed, i, hits[i], outOfRange, before,
                      ticks(3 * i), ticks(3 * i + 1), ticks(3 * i + 2), ticks(3 * i + 3));
  }

  lemma {:induction false} TurnIsDue(d: B.Delays, start: DB, listed: seq<JobId>, hits: seq<bool>, ticks: nat -> Time,
                                     outOfRange: int)
    requires PassOk(d, start, listed, hits, ticks, outOfRange) && hits != []
    requires forall i, k | 0 <= i < k < |listed| :: listed[i] != listed[k]
    requires forall i | 0 <= i < |listed| :: listed[i] in start.jobs && start.jobs[listed[i]].updatedAt < ticks(0)
    requires forall i: nat, n: nat | i <= n :: ticks(i) <= ticks(n)
    ensures var i := |hits| - 1;
            var db := PassResult(d, start, listed, hits[..i], ticks, outOfRange);
            && ticks(3 * i) <= ticks(3 * i + 1) <= ticks(3 * i + 2) <= ticks(3 * i + 3)
            && listed[i] in db.jobs && db.jobs[listed[i]].updatedAt < ticks(3 * i + 2)
  {
    var i := |hits| - 1;
    RowsAhead(d, start, listed, hits[..i], ticks, outOfRange, i);
    assert ticks(0) <= ticks(3 * i + 2);
  }

  lemma {:induction false} LoopNext(s: Sys, front: seq<Event>, r: nat, listed: seq<JobId>, i: nat, hit: bool,
                                    outOfRange: int, t: Sys, t0: Time, t1: Time, t2: Time, t3: Time)
    returns (es: seq<Event>, u: Sys)
    requires i < |listed| && Leads(s, front, t) && Reached(s, r, listed, i, t0, t.db, t) && t0 <= t1 <= t2 <= t3
    requires hit ==> Reclaimable(t.db, listed[i]) && t.db.jobs[listed[i]].updatedAt < t2
    ensures Leads(s, es, u)
    ensures Reached(s, r, listed, i + 1, t3, TurnResult(s.delays, t.db, listed[i], hit, outOfRange, t1, t2, t3), u)
  {
    var turn;
    turn, u := TurnIsARun(s, r, listed, i, hit, outOfRange, t, t0, t1, t2, t3);
    ThenAll(s, front, t, turn, u);
    es := front + turn;
  }

  lemma {:induction false} ListedAreRunning(s: Sys, listed: seq<JobId>, t: Time)
    requires IsListing(s.db.jobs, "", Some(Running), "", 1000, listed) && Fresher(s, t)
    ensures forall i, k | 0 <= i < k < |listed| :: listed[i] != listed[k]
    ensures forall i | 0 <= i < |listed| :: IsRunning(s.db, listed[i]) && s.db.jobs[listed[i]].updatedAt < t
  {
  }

  /** A pass up to its last turn. */
  lemma {:induction false} BeforeTheEnd(s: Sys, r: nat, listed: seq<JobId>, hits: seq<bool>, ticks: nat -> Time,
                                        outOfRange: int) returns (s2: Sys, es: seq<Event>, s3: Sys)
    requires Inv(s) && r !in s.reclaimers
    requires Fresher(s, ticks(0)) && forall i: nat, n: nat | i <= n :: ticks(i) <= ticks(n)
    requires IsListing(s.db.jobs, "", Some(Running), "", 1000, listed) && |hits| == |listed|
    requires PassOk(s.delays, Pruned(s.db, ticks(0), STALE_AFTER), listed, hits, ticks, outOfRange)
    ensures Leads(s, [Prune(ticks(0)), ListRunning(r, listed)], s2) && Leads(s2, es, s3)
    ensures Inv(s3) && s3.reclaimers == s.reclaimers[r := Scanning(listed[|listed|..])] && s3.admins == s.admins
    ensures s3.db == PassResult(s.delays, Pruned(s.db, ticks(0), STALE_AFTER), listed, hits, ticks, outOfRange)
  {
    ListedAreRunning(s, listed, ticks(0));
    s2 := OpeningOfAPass(s, r, listed, ticks(0));
    es, s3 := LoopIsARun(s2, r, listed, hits, ticks, outOfRange);
  }

  /** A finished pass: prune, list, the events of each job, end. */
  lemma {:induction false} PassIsARun(s: Sys, r: nat, listed: seq<JobId>, hits: seq<bool>, ticks: nat -> Time,
                                      outOfRange: int) returns (es: seq<Event>, t: Sys)
    requires Inv(s) && r !in s.reclaimers
    requires Fresher(s, ticks(0)) && forall i: nat, n: nat | i <= n :: ticks(i) <= ticks(n)
    requires IsListing(s.db.jobs, "", Some(Running), "", 1000, listed) && |hits| == |listed|
    requires PassOk(s.delays, Pruned(s.db, ticks(0), STALE_AFTER), listed, hits, ticks, outOfRange)
    ensures Leads(s, [Prune(ticks(0)), ListRunning(r, listed)] + es + [EndReclaim(r)], t)
    ensures t.db == PassResult(s.delays, Pruned(s.db, ticks(0), STALE_AFTER), listed, hits, ticks, outOfRange)
    ensures t.reclaimers == s.reclaimers && t.admins == s.admins
  {
    var opening := [Prune(ticks(0)), ListRunning(r, listed)];
    var s2, s3;
    s2, es, s3 := BeforeTheEnd(s, r, listed, hits, ticks, outOfRange);
    t := EndOfAPass(s.reclaimers, r, Scanning(listed[|listed|..]), s3);
    ThenThree(s, opening, s2, es, s3, [EndReclaim(r)], t);
  }

  /** What a call of ReclaimOrphanedJobs is, as events: a whole pass, or what came before the query that failed. */
  ghost predicate IsPass(es: seq<Event>, r: nat, t: Time) {
    exists listed, turns :: es == [Prune(t), ListRunning(r, listed)] + turns + [EndReclaim(r)]
  }

  /**
    A pass that nobody interferes with is a run of the protocol, however many of its repository calls fail. If
    none fails, no job was replayed and at most 1000 are running, then no orphan is left.
    */
  method ReclaimIsARun(svc: JobService, ticks: nat -> Time, outOfRange: int, ghost s: Sys, ghost r: nat)
    returns (res: Result<()>, ghost es: seq<Event>, ghost t: Sys)
    requires Mirrors(svc, s) && r !in s.reclaimers && !svc.store.shared
    requires Fresher(s, ticks(0)) && forall i: nat, n: nat | i <= n :: ticks(i) <= ticks(n)
    modifies svc.store, svc.sched
    ensures svc.Ready()
    ensures Leads(s, es, t) && t.db == svc.store.State() && t.reclaimers == s.reclaimers && t.admins == s.admins
    ensures if res.Ok? then IsPass(es, r, ticks(0)) else es == [] || es == [Prune(ticks(0))]
    ensures !svc.store.faulty ==> res.Ok?
    ensures !svc.store.faulty && (forall i | i in s.db.jobs :: Unreplayed(s.db, i))
            && |Matching(s.db.jobs, "", Some(Running), "")| <= 1000 ==>
              forall j :: !Orphan(svc.store.State(), j)
  {
    ghost var listed, charged, hits, atList, seen;
    res, listed, charged, hits, atList, seen := svc.ReclaimOrphanedJobs(ticks, outOfRange);
    ghost var after := svc.store.State();
    if res.Ok? {
      assert listed[..|listed|] == listed;
      ghost var turns;
      turns, t := PassIsARun(s, r, listed, hits, ticks, outOfRange);
      es := [Prune(ticks(0)), ListRunning(r, listed)] + turns + [EndReclaim(r)];
      if !svc.store.faulty && (forall i | i in s.db.jobs :: Unreplayed(s.db, i))
         && |Matching(s.db.jobs, "", Some(Running), "")| <= 1000 {
        forall j
          ensures !Orphan(after, j)
        {
          ReclaimLeavesNoOrphan(s, ticks(0), listed, charged, after, j);
        }
      }
    } else {
      es, t := BrokenPass(s, ticks(0), after);
    }
  }

  /** A pass whose first statements fail is a prune, or nothing. */
  lemma {:induction false} BrokenPass(s: Sys, now: Time, after: DB) returns (es: seq<Event>, t: Sys)
    requires Inv(s) && (after == s.db || after == Pruned(s.db, now, STALE_AFTER))
    ensures es == [] || es == [Prune(now)]
    ensures Leads(s, es, t) && t.db == after && t.reclaimers == s.reclaimers && t.admins == s.admins
  {
    if after == s.db {
      NoEvents(s);
      es, t := [], s;
    } else {
      OneEvent(s, Prune(now));
      es, t := [Prune(now)], Apply(s, Prune(now));
    }
  }

  // ---- a pass among other processes: each statement is its event in whatever system it meets ----

  /** The system that statement n of a turn meets: these tables, and the reclaimer in this phase. */
  ghost predicate Meets(s: Sys, db: DB, r: nat, phase: Reclaimer) {
    Inv(s) && s.db == db && r in s.reclaimers && s.reclaimers[r] == phase
  }

  ghost function InPhase(s: Sys, r: nat, phase: Reclaimer): Sys {
    s.(reclaimers := s.reclaimers[r := phase])
  }

  /** The log query names the worker of the latest attempt, or fails and the job is passed over. */
  ghost predicate LogReadIsAnEvent(turn: Turn, r: nat, todo: seq<JobId>)
    requires todo != []
  {
    forall s: Sys | Meets(s, turn.atLogs, r, Scanning(todo)) ::
      if turn.verdict.LogsFailed? then Goes(s, SkipJob(r), InPhase(s, r, Scanning(Rest(todo))))
      else Goes(s, ReadLogs(r, LatestOf(turn.atLogs.logs, todo[0])),
                InPhase(s, r, Inspecting(todo, OwnerOf(turn.atLogs.logs, todo[0]))))
  }

  /** The worker query fails, or finds the worker alive, or shows that it is gone. */
  ghost predicate WorkerReadIsAnEvent(turn: Turn, r: nat, todo: seq<JobId>)
    requires todo != []
  {
    var owner := OwnerOf(turn.atLogs.logs, todo[0]);
    forall s: Sys | Meets(s, turn.atWorker, r, Inspecting(todo, owner)) ::
      match turn.verdict
      case LogsFailed => true
      case WorkerFailed => Goes(s, SkipJob(r), InPhase(s, r, Scanning(Rest(todo))))
      case Alive => Goes(s, ReadWorker(r), InPhase(s, r, Scanning(Rest(todo))))
      case _ => Goes(s, ReadWorker(r), InPhase(s, r, Charging(todo, owner)))
  }

  /** The failure call is refused or commits. */
  ghost predicate ChargeIsAnEvent(turn: Turn, r: nat, todo: seq<JobId>, outOfRange: int, d: B.Delays,
                                  t1: Time, t2: Time, t3: Time)
    requires todo != []
  {
    var owner := OwnerOf(turn.atLogs.logs, todo[0]);
    forall s: Sys | Meets(s, turn.atCharge, r, Charging(todo, owner)) ::
      && (turn.verdict.Refused? ==> Goes(s, SkipJob(r), InPhase(s, r, Scanning(Rest(todo)))) && turn.after == s.db)
      && (turn.verdict.Hit? && s.delays == d && s.now <= t1 && Fresher(s, t2) && t1 <= t2 <= t3 ==>
            && todo[0] in s.db.jobs
            && Goes(s, ReclaimFail(r, ChargeBy(s, todo[0], owner, RECLAIM_MESSAGE, outOfRange, t1, t2, t3)),
                    InPhase(s, r, Scanning(Rest(todo))).(db := turn.after, now := t3)))
  }

  ghost predicate TurnIsEvents(turn: Turn, r: nat, todo: seq<JobId>, outOfRange: int, d: B.Delays,
                               t1: Time, t2: Time, t3: Time)
    requires todo != []
  {
    && LogReadIsAnEvent(turn, r, todo) && WorkerReadIsAnEvent(turn, r, todo)
    && ChargeIsAnEvent(turn, r, todo, outOfRange, d, t1, t2, t3)
  }

  lemma {:induction false} LogReadMeets(turn: Turn, r: nat, todo: seq<JobId>, s: Sys)
    requires todo != [] && Meets(s, turn.atLogs, r, Scanning(todo))
    ensures if turn.verdict.LogsFailed? then Goes(s, SkipJob(r), InPhase(s, r, Scanning(Rest(todo))))
            else Goes(s, ReadLogs(r, LatestOf(turn.atLogs.logs, todo[0])),
                      InPhase(s, r, Inspecting(todo, OwnerOf(turn.atLogs.logs, todo[0]))))
  {
    var _ := LatestRow(s, r, todo[0]);
  }

  lemma {:induction false} WorkerReadMeets(turn: Turn, r: nat, todo: seq<JobId>, s: Sys, d: B.Delays, faulty: bool,
                                           outOfRange: int, t1: Time, t2: Time, t3: Time)
    requires todo != [] && Meets(s, turn.atWorker, r, Inspecting(todo, OwnerOf(turn.atLogs.logs, todo[0])))
    requires d.Valid() && TurnOk(d, faulty, turn, todo[0], outOfRange, t1, t2, t3) && !turn.verdict.LogsFailed?
    ensures var next := if turn.verdict.WorkerFailed? || turn.verdict.Alive? then Scanning(Rest(todo))
                        else Charging(todo, OwnerOf(turn.atLogs.logs, todo[0]));
            Goes(s, if turn.verdict.WorkerFailed? then SkipJob(r) else ReadWorker(r), InPhase(s, r, next))
  {
    assert ReclaimerOk(s.db.logs, s.reclaimers[r]);
  }

  lemma {:induction false} ChargeMeets(turn: Turn, r: nat, todo: seq<JobId>, s: Sys, d: B.Delays, faulty: bool,
                                       outOfRange: int, t1: Time, t2: Time, t3: Time)
    requires todo != [] && Meets(s, turn.atCharge, r, Charging(todo, OwnerOf(turn.atLogs.logs, todo[0])))
    requires d.Valid() && TurnOk(d, faulty, turn, todo[0], outOfRange, t1, t2, t3) && turn.verdict.Hit?
    requires s.delays == d && s.now <= t1 && Fresher(s, t2) && t1 <= t2 <= t3
    ensures todo[0] in s.db.jobs
    ensures var owner := OwnerOf(turn.atLogs.logs, todo[0]);
            Goes(s, ReclaimFail(r, ChargeBy(s, todo[0], owner, RECLAIM_MESSAGE, outOfRange, t1, t2, t3)),
                 InPhase(s, r, Scanning(Rest(todo))).(db := turn.after, now := t3))
  {
    LatestOfIsLatest(s.db.logs, todo[0]);
  }

  /** A turn that behaves as the method promises is those events, whatever others do in between. */
  lemma {:induction false} TurnMeetsItsEvents(turn: Turn, r: nat, todo: seq<JobId>, d: B.Delays, faulty: bool,
                                              outOfRange: int, t1: Time, t2: Time, t3: Time)
    requires todo != [] && d.Valid() && TurnOk(d, faulty, turn, todo[0], outOfRange, t1, t2, t3)
    ensures TurnIsEvents(turn, r, todo, outOfRange, d, t1, t2, t3)
  {
    var owner := OwnerOf(turn.atLogs.logs, todo[0]);
    forall s: Sys | Meets(s, turn.atLogs, r, Scanning(todo))
      ensures if turn.verdict.LogsFailed? then Goes(s, SkipJob(r), InPhase(s, r, Scanning(Rest(todo))))
              else Goes(s, ReadLogs(r, LatestOf(turn.atLogs.logs, todo[0])), InPhase(s, r, Inspecting(todo, owner)))
    {
      LogReadMeets(turn, r, todo, s);
    }
    WorkerReads(turn, r, todo, d, faulty, outOfRange, t1, t2, t3);
    Charges(turn, r, todo, d, faulty, outOfRange, t1, t2, t3);
  }

  lemma {:induction false} WorkerReads(turn: Turn, r: nat, todo: seq<JobId>, d: B.Delays, faulty: bool,
                                       outOfRange: int, t1: Time, t2: Time, t3: Time)
    requires todo != [] && d.Valid() && TurnOk(d, faulty, turn, todo[0], outOfRange, t1, t2, t3)
    ensures WorkerReadIsAnEvent(turn, r, todo)
  {
    if !turn.verdict.LogsFailed? {
      var next := if turn.verdict.WorkerFailed? || turn.verdict.Alive? then Scanning(Rest(todo))
                  else Charging(todo, OwnerOf(turn.atLogs.logs, todo[0]));
      forall s: Sys | Meets(s, turn.atWorker, r, Inspecting(todo, OwnerOf(turn.atLogs.logs, todo[0])))
        ensures Goes(s, if turn.verdict.WorkerFailed? then SkipJob(r) else ReadWorker(r), InPhase(s, r, next))
      {
        WorkerReadMeets(turn, r, todo, s, d, faulty, outOfRange, t1, t2, t3);
      }
    }
  }

  lemma {:induction false} Charges(turn: Turn, r: nat, todo: seq<JobId>, d: B.Delays, faulty: bool,
                                   outOfRange: int, t1: Time, t2: Time, t3: Time)
    requires todo != [] && d.Valid() && TurnOk(d, faulty, turn, todo[0], outOfRange, t1, t2, t3)
    ensures ChargeIsAnEvent(turn, r, todo, outOfRange, d, t1, t2, t3)
  {
    var owner := OwnerOf(turn.atLogs.logs, todo[0]);
    forall s: Sys | Meets(s, turn.atCharge, r, Charging(todo, owner))
      ensures turn.verdict.Refused? ==> Goes(s, SkipJob(r), InPhase(s, r, Scanning(Rest(todo)))) && turn.after == s.db
      ensures turn.verdict.Hit? && s.delays == d && s.now <= t1 && Fresher(s, t2) && t1 <= t2 <= t3 ==>
                && todo[0] in s.db.jobs
                && Goes(s, ReclaimFail(r, ChargeBy(s, todo[0], owner, RECLAIM_MESSAGE, outOfRange, t1, t2, t3)),
                        InPhase(s, r, Scanning(Rest(todo))).(db := turn.after, now := t3))
    {
      if turn.verdict.Hit? && s.delays == d && s.now <= t1 && Fresher(s, t2) && t1 <= t2 <= t3 {
        ChargeMeets(turn, r, todo, s, d, faulty, outOfRange, t1, t2, t3);
      }
    }
  }

  /**
    A pass among any other processes. The prune is its event in the system the call starts from, the list query in
    whatever system it meets, and so is every statement of the turn of each listed job.
    */
  method ReclaimIsEvents(svc: JobService, ticks: nat -> Time, outOfRange: int, ghost s: Sys, ghost r: nat)
    returns (res: Result<()>, ghost listed: seq<JobId>, ghost atList: DB, ghost turns: seq<Turn>)
    requires Mirrors(svc, s) && Fresher(s, ticks(0))
    requires forall i: nat, n: nat | i <= n :: ticks(i) <= ticks(n)
    modifies svc.store, svc.sched
    ensures svc.Ready() && Step(s, Prune(ticks(0)), Pruned(s.db, ticks(0), STALE_AFTER))
    ensures res.Err? ==> svc.store.faulty && svc.store.State() == atList
    ensures res.Ok? ==> |turns| == |listed| && forall i | 0 <= i < |listed| ::
      TurnIsEvents(turns[i], r, listed[i..], outOfRange, svc.engine.delays,
                   ticks(3 * i + 1), ticks(3 * i + 2), ticks(3 * i + 3))
    ensures res.Ok? ==> forall s2: Sys | Inv(s2) && s2.db == atList && r !in s2.reclaimers ::
      Goes(s2, ListRunning(r, listed), InPhase(s2, r, Scanning(listed)))
  {
    ghost var charged, hits;
    res, listed, charged, hits, atList, turns := svc.ReclaimOrphanedJobs(ticks, outOfRange);
    if res.Ok? {
      TurnsMeetTheirEvents(svc, r, listed, turns, ticks, outOfRange);
      ListIsAnEvent(atList, r, listed);
    }
  }

  lemma {:induction false} ListIsAnEvent(atList: DB, r: nat, listed: seq<JobId>)
    requires IsListing(atList.jobs, "", Some(Running), "", 1000, listed)
    ensures forall s2: Sys | Inv(s2) && s2.db == atList && r !in s2.reclaimers ::
              Goes(s2, ListRunning(r, listed), InPhase(s2, r, Scanning(listed)))
  {
  }

  lemma {:induction false} TurnsMeetTheirEvents(svc: JobService, r: nat, listed: seq<JobId>, turns: seq<Turn>,
                                                ticks: nat -> Time, outOfRange: int)
    requires svc.engine.delays.Valid() && |turns| == |listed|
    requires TurnsOk(svc.engine.delays, svc.store.faulty, listed, turns, ticks, outOfRange)
    ensures forall i | 0 <= i < |listed| ::
              TurnIsEvents(turns[i], r, listed[i..], outOfRange, svc.engine.delays,
                           ticks(3 * i + 1), ticks(3 * i + 2), ticks(3 * i + 3))
  {
    forall i | 0 <= i < |listed|
      ensures TurnIsEvents(turns[i], r, listed[i..], outOfRange, svc.engine.delays,
                           ticks(3 * i + 1), ticks(3 * i + 2), ticks(3 * i + 3))
    {
      assert listed[i..][0] == listed[i];
      TurnMeetsItsEvents(turns[i], r, listed[i..], svc.engine.delays, svc.store.faulty, outOfRange,
                         ticks(3 * i + 1), ticks(3 * i + 2), ticks(3 * i + 3));
    }
  }

  // ---- one undisturbed pass ----

  /** Of an unreplayed running job the latest log is the open one, so an orphan can always be reclaimed. */
  lemma {:induction false} UnreplayedOrphanIsReclaimable(s: Sys, j: JobId)
    requires Inv(s) && Unreplayed(s.db, j) && Orphan(s.db, j)
    ensures Reclaimable(s.db, j)
  {
    assert JobOk(s.db.jobs[j], s.db.logs);
    var k :| IsOpen(s.db.logs, k, j);
    LatestOfIsLatest(s.db.logs, j);
    OwnFailureAccepted(s, j, k, LatestOf(s.db.logs, j), s.now);
  }

  /** The list shows every orphan the prune leaves, and the store accepts its failure. */
  lemma {:induction false} OrphanIsListed(s: Sys, t: Time, listed: seq<JobId>, j: JobId)
    requires Inv(s) && s.now <= t && (forall i | i in s.db.jobs :: Unreplayed(s.db, i))
    requires |Matching(s.db.jobs, "", Some(Running), "")| <= 1000
    requires IsListing(s.db.jobs, "", Some(Running), "", 1000, listed)
    requires Orphan(Pruned(s.db, t, STALE_AFTER), j)
    ensures j in listed && Reclaimable(Pruned(s.db, t, STALE_AFTER), j)
  {
    var s' := s.(db := Pruned(s.db, t, STALE_AFTER), now := t);
    assert s' == Apply(s, Prune(t));
    EventKeepsInv(s, Prune(t));
    UnreplayedOrphanIsReclaimable(s', j);
    ListingIsComplete(s.db.jobs, "", Some(Running), "", RECLAIM_LIMIT, listed, j);
  }

  /**
    After an undisturbed pass over a system without replays and with at most 1000 running jobs, every running job has
    a latest log whose worker is in the table and not stopped. `after` and `charged` are what
    JobService.ReclaimOrphanedJobs leaves behind when no repository call fails.
    */
  lemma {:induction false} ReclaimLeavesNoOrphan(s: Sys, t: Time, listed: seq<JobId>, charged: set<JobId>, after: DB,
                                                 j: JobId)
    requires Inv(s) && s.now <= t && (forall i | i in s.db.jobs :: Unreplayed(s.db, i))
    requires |Matching(s.db.jobs, "", Some(Running), "")| <= 1000
    requires IsListing(s.db.jobs, "", Some(Running), "", 1000, listed)
    requires var pruned := Pruned(s.db, t, STALE_AFTER);
             && ReclaimedFrom(pruned, after, charged)
             && (forall i | i in charged :: i in listed && Reclaimable(pruned, i))
             && (forall i | i in listed && Reclaimable(pruned, i) :: i in charged)
    ensures !Orphan(after, j)
    ensures j in after.jobs && after.jobs[j].status == Running ==>
              var k := LatestOf(after.logs, j);
              && k.Some? && after.logs[k.value].workerId in after.workers
              && after.workers[after.logs[k.value].workerId].status != Stopped
    ensures j in after.jobs && j !in charged ==> after.jobs[j] == s.db.jobs[j]
    ensures j in charged ==> ChargedLike(s.db.jobs[j], after.jobs[j])
                             && after.jobs[j].status in {Pending, DeadLetter}
  {
    if j !in charged {
      OthersLookTheSame(Pruned(s.db, t, STALE_AFTER), after, charged, j);
      if Orphan(Pruned(s.db, t, STALE_AFTER), j) {
        OrphanIsListed(s, t, listed, j);
      }
    }
  }

  /** It charges the running jobs whose latest worker is missing, stopped or silent for over 30 s, and no others. */
  lemma {:induction false} PassChargesTheSilent(s: Sys, t: Time, listed: seq<JobId>, charged: set<JobId>, after: DB,
                                                j: JobId)
    requires Inv(s) && s.now <= t && (forall i | i in s.db.jobs :: Unreplayed(s.db, i))
    requires |Matching(s.db.jobs, "", Some(Running), "")| <= 1000
    requires IsListing(s.db.jobs, "", Some(Running), "", 1000, listed)
    requires var pruned := Pruned(s.db, t, STALE_AFTER);
             && ReclaimedFrom(pruned, after, charged)
             && (forall i | i in charged :: i in listed && Reclaimable(pruned, i))
             && (forall i | i in listed && Reclaimable(pruned, i) :: i in charged)
    ensures j in charged <==>
            && j in s.db.jobs && s.db.jobs[j].status == Running
            && var k, workers := LatestOf(s.db.logs, j), s.db.workers;
               k.None? ||
               var w := s.db.logs[k.value].workerId;
               w !in workers || workers[w].status == Stopped || workers[w].lastHeartbeat < t - 30_000_000_000
  {
    ReclaimLeavesNoOrphan(s, t, listed, charged, after, j);
    if j !in charged {
      OthersLookTheSame(Pruned(s.db, t, STALE_AFTER), after, charged, j);
    }
  }

  /** In general an orphan stays exactly when it was not listed or its latest log is closed. */
  lemma {:induction false} OrphanLeftBehindIff(s: Sys, t: Time, listed: seq<JobId>, charged: set<JobId>, after: DB,
                                               j: JobId)
    requires Inv(s) && s.now <= t
    requires IsListing(s.db.jobs, "", Some(Running), "", 1000, listed)
    requires var pruned := Pruned(s.db, t, STALE_AFTER);
             && ReclaimedFrom(pruned, after, charged)
             && (forall i | i in charged :: i in listed && Reclaimable(pruned, i))
             && (forall i | i in listed && Reclaimable(pruned, i) :: i in charged)
    ensures var k, workers := LatestOf(s.db.logs, j), s.db.workers;
            Orphan(after, j) <==>
            && j in s.db.jobs && s.db.jobs[j].status == Running
            && (k.None? ||
                var w := s.db.logs[k.value].workerId;
                w !in workers || workers[w].status == Stopped || workers[w].lastHeartbeat < t - 30_000_000_000)
            && (j !in listed || (k.Some? && s.db.logs[k.value].finishedAt.Some?))
  {
    var pruned := Pruned(s.db, t, STALE_AFTER);
    EventKeepsInv(s, Prune(t));
    var k := LatestOf(s.db.logs, j);
    if k.Some? {
      assert s.db.logs[k.value].workerId != "";
    }
    if j !in charged {
      OthersLookTheSame(pruned, after, charged, j);
    }
  }
}
