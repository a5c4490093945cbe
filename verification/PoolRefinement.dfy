/** One turn of the polling loop and one executor, proved to be runs of the pool's events. */
module PoolRefinement {
  import opened Domain
  import opened Tables
  import opened Queries
  import opened Protocol
  import opened Invariants
  import opened Pool
  import opened Refinement
  import B = Backoff
  import W = WorkerPool

  ghost predicate PoolGoes(s: Joint, e: PoolEvent, t: Joint) {
    s.sys.delays.Valid() && CanDo(s, e) && t == Do(s, e)
  }

  ghost predicate PoolJoins(path: seq<Joint>, es: seq<PoolEvent>) {
    |path| == |es| + 1 && forall i | 0 <= i < |es| :: PoolGoes(path[i], es[i], path[i + 1])
  }

  /** From s the events es can happen one after the other, and the last one leads to t. */
  ghost predicate PoolLeads(s: Joint, es: seq<PoolEvent>, t: Joint) {
    exists path :: PoolJoins(path, es) && path[0] == s && path[|es|] == t
  }

  lemma {:induction false} NoPoolEvents(s: Joint)
    ensures PoolLeads(s, [], s)
  {
    assert PoolJoins([s], []);
  }

  lemma {:induction false} ThenPoolEvent(s: Joint, es: seq<PoolEvent>, t: Joint, e: PoolEvent, u: Joint)
    requires PoolLeads(s, es, t) && PoolGoes(t, e, u)
    ensures PoolLeads(s, es + [e], u)
  {
    var p :| PoolJoins(p, es) && p[0] == s && p[|es|] == t;
    var path, all := p + [u], es + [e];
    forall i | 0 <= i < |all|
      ensures PoolGoes(path[i], all[i], path[i + 1])
    {
      if i < |es| {
        assert path[i] == p[i] && path[i + 1] == p[i + 1];
      }
    }
    assert PoolJoins(path, all);
  }

  /** The pool object and its store are those of the joint state. */
  ghost predicate Agrees(wp: W.WorkerPool, s: Joint)
    reads wp, wp.svc, wp.svc.store, wp.svc.sched, wp.node
  {
    && Mirrors(wp.svc, s.sys) && wp.Registered() && wp.id != "" && wp.node.status != Stopped
    && s.pool.id == wp.id && s.pool.capacity == wp.capacity && s.pool.sem == wp.sem && s.pool.wg == wp.wg
    && Accounted(s.pool)
  }

  // ---- dispatch ----

  /** The registration is refreshed or not, and the executor to come is counted. */
  ghost predicate IsAnnouncement(es: seq<PoolEvent>, node: WorkerRow) {
    es == [CountUp] || es == [Other(Upsert(node)), CountUp]
  }

  /** From u these events count the executor of job j and leave the tables `after`. */
  ghost predicate Announces(u: Joint, es: seq<PoolEvent>, j: JobId, after: DB) {
    exists v :: PoolLeads(u, es, v) && v.sys.db == after && v.pool == u.pool.(wg := u.pool.wg + 1, loop := Counted(j))
  }

  lemma {:induction false} SlotIsTaken(s: Joint) returns (t: Joint)
    requires s.sys.delays.Valid() && s.pool.loop.Selecting? && s.pool.sem < s.pool.capacity
    ensures PoolLeads(s, [TryAcquire], t)
    ensures t == Joint(s.sys, s.pool.(sem := s.pool.sem + 1, loop := Polling))
  {
    NoPoolEvents(s);
    t := Do(s, TryAcquire);
    ThenPoolEvent(s, [], s, TryAcquire, t);
    assert [] + [TryAcquire] == [TryAcquire];
  }

  lemma {:induction false} SlotIsGivenBack(s: Joint) returns (t: Joint)
    requires s.sys.delays.Valid() && s.pool.loop.Selecting? && s.pool.sem < s.pool.capacity
    ensures PoolLeads(s, [TryAcquire, FetchNothing], t) && t == s
  {
    var polling := SlotIsTaken(s);
    t := Do(polling, FetchNothing);
    ThenPoolEvent(s, [TryAcquire], polling, FetchNothing, t);
    assert [TryAcquire] + [FetchNothing] == [TryAcquire, FetchNothing];
  }

  lemma {:induction false} JobIsFetched(s: Joint, f: Event) returns (t: Joint)
    requires s.sys.delays.Valid() && s.pool.loop.Selecting? && s.pool.sem < s.pool.capacity
    requires OwnFetch(s.pool, f) && Enabled(s.sys, f)
    ensures PoolLeads(s, [TryAcquire, FetchJob(f)], t)
    ensures t == Joint(Apply(s.sys, f), s.pool.(sem := s.pool.sem + 1, loop := Holding(f.j)))
  {
    var polling := SlotIsTaken(s);
    t := Do(polling, FetchJob(f));
    ThenPoolEvent(s, [TryAcquire], polling, FetchJob(f), t);
    assert [TryAcquire] + [FetchJob(f)] == [TryAcquire, FetchJob(f)];
  }

  /** What follows the fetch, in whatever state others have left. */
  lemma {:induction false} AnnouncementLeads(u: Joint, j: JobId, node: WorkerRow, after: DB)
    returns (es: seq<PoolEvent>)
    requires u.sys.delays.Valid() && u.pool.loop == Holding(j) && node.id != "" && node.status != Stopped
    requires after == u.sys.db || after == Upserted(u.sys.db, node)
    ensures es == (if after == u.sys.db then [CountUp] else [Other(Upsert(node)), CountUp])
    ensures Announces(u, es, j, after)
  {
    NoPoolEvents(u);
    var mid;
    es, mid := [], u;
    if after != u.sys.db {
      mid := NodeRefreshed(u, [], u, node);
      es := [] + [Other(Upsert(node))];
    }
    var v := ExecutorIsAnnounced(u, es, mid);
    es := es + [CountUp];
    assert PoolLeads(u, es, v);
  }

  lemma {:induction false} Announced(j: JobId, met: DB, node: WorkerRow, after: DB) returns (es: seq<PoolEvent>)
    requires node.id != "" && node.status != Stopped && (after == met || after == Upserted(met, node))
    ensures IsAnnouncement(es, node)
    ensures forall u: Joint | u.sys.delays.Valid() && u.sys.db == met && u.pool.loop == Holding(j) ::
              Announces(u, es, j, after)
  {
    es := if after == met then [CountUp] else [Other(Upsert(node)), CountUp];
    forall u: Joint | u.sys.delays.Valid() && u.sys.db == met && u.pool.loop == Holding(j)
      ensures Announces(u, es, j, after)
    {
      var _ := AnnouncementLeads(u, j, node, after);
    }
  }

  lemma {:induction false} ExecutorIsAnnounced(s: Joint, es: seq<PoolEvent>, mid: Joint) returns (t: Joint)
    requires PoolLeads(s, es, mid) && mid.sys.delays.Valid() && mid.pool.loop.Holding?
    ensures PoolLeads(s, es + [CountUp], t)
    ensures t == Joint(mid.sys, mid.pool.(wg := mid.pool.wg + 1, loop := Counted(mid.pool.loop.j)))
  {
    t := Do(mid, CountUp);
    ThenPoolEvent(s, es, mid, CountUp, t);
  }

  /**
    A turn of the loop among other processes: it takes a slot and gives it back, or takes a slot and fetches; then,
    in whatever state it meets, the executor is counted. When nobody else uses the database it meets the state the
    fetch left.
    */
  method DispatchIsPoolEvents(wp: W.WorkerPool, logId: LogId, t1: Time, t2: Time, t3: Time, ghost s: Joint)
    returns (job: Job?, ghost t: Joint, ghost es: seq<PoolEvent>, ghost met: DB)
    requires Agrees(wp, s) && s.pool.loop.Selecting? && Fresher(s.sys, t1) && t1 <= t2
    modifies wp, wp.node, wp.svc.store
    ensures wp.svc.Ready()
    ensures job == null ==>
      && t == s && PoolLeads(s, es, t) && (es == [] || es == [TryAcquire, FetchNothing])
      && s.sys.db == wp.svc.store.State() && s.pool.sem == wp.sem && s.pool.wg == wp.wg
    ensures job != null ==>
      && PoolLeads(s, [TryAcquire, FetchJob(Fetch(wp.id, wp.queue, job.id, logId, t1, t2))], t)
      && t.pool.loop == Holding(job.id) && t.pool.sem == wp.sem && t.pool.wg + 1 == wp.wg
      && IsAnnouncement(es, wp.node.Row())
      && (forall u: Joint | u.sys.delays.Valid() && u.sys.db == met && u.pool.loop == Holding(job.id) ::
            Announces(u, es, job.id, wp.svc.store.State()))
      && (!wp.svc.store.shared ==> met == t.sys.db)
  {
    ghost var fetched;
    job, fetched, met := wp.PollAndDispatch(logId, t1, t2, t3);
    if job != null {
      t := JobIsFetched(s, Fetch(wp.id, wp.queue, job.id, logId, t1, t2));
      es := Announced(job.id, met, wp.node.Row(), wp.svc.store.State());
    } else if s.pool.sem < s.pool.capacity {
      t := SlotIsGivenBack(s);
      es := [TryAcquire, FetchNothing];
    } else {
      NoPoolEvents(s);
      es, t := [], s;
    }
  }

  // ---- execution ----

  /** The handler ends, its outcome is stored, refused or lost, slot and count go back. */
  ghost predicate IsExecution(es: seq<PoolEvent>, x: nat, outcome: Outcome) {
    && |es| == 4 && es[0] == HandlerReturns(x, outcome) && Reports(es[1], x)
    && es[2] == ReleaseSlot(x) && es[3] == ExecutorDone(x)
  }

  predicate Reports(e: PoolEvent, x: nat) {
    (e.Report? && e.x == x) || (e.ReportRefused? && e.x == x) || (e.ReportLost? && e.x == x)
  }

  /** From u these events leave the tables `after` and the pool as it is. */
  ghost predicate Refreshes(u: Joint, es: seq<PoolEvent>, after: DB) {
    exists v :: PoolLeads(u, es, v) && v.sys.db == after && v.pool == u.pool
  }

  /** The event of an accepted outcome. */
  function OutcomeEvent(s: Sys, w: WorkerId, j: JobId, outcome: Outcome, message: string, outOfRange: int,
                        t1: Time, t2: Time, t3: Time): Event
    requires j in s.db.jobs
  {
    if outcome.Succeeds? then Succeed(w, j, LatestOf(s.db.logs, j), t1, t2)
    else WorkerFail(ChargeBy(s, j, w, message, outOfRange, t1, t2, t3))
  }

  predicate Timely(s: Sys, j: JobId, t1: Time, t2: Time, t3: Time) {
    s.now <= t1 <= t2 <= t3 && (j in s.db.jobs ==> s.db.jobs[j].updatedAt < t1)
  }

  /** What the pool object says of acceptance and effect is what the protocol says. */
  lemma {:induction false} AcceptedIsEnabled(wp: W.WorkerPool, s: Sys, j: JobId, outcome: Outcome, message: string,
                                             outOfRange: int, t1: Time, t2: Time, t3: Time)
    requires Inv(s) && wp.id != "" && Hold(wp.id, j) in s.hands && Timely(s, j, t1, t2, t3)
    requires wp.svc.engine.delays == s.delays && wp.OutcomeAccepted(s.db, j, outcome, t2, t3)
    ensures j in s.db.jobs
    ensures Step(s, OutcomeEvent(s, wp.id, j, outcome, message, outOfRange, t1, t2, t3),
                 wp.OutcomeStored(s.db, j, outcome, message, outOfRange, t1, t2, t3))
  {
    LatestOfIsLatest(s.db.logs, j);
  }

  lemma {:induction false} NotAcceptedIsRefused(wp: W.WorkerPool, s: Sys, j: JobId, outcome: Outcome, t1: Time,
                                                t2: Time, t3: Time)
    requires Inv(s) && wp.id != "" && Timely(s, j, t1, t2, t3) && !wp.OutcomeAccepted(s.db, j, outcome, t2, t3)
    ensures Refuses(s.db, j, wp.id, outcome, LatestOf(s.db.logs, j))
  {
    LatestOfIsLatest(s.db.logs, j);
    var latest := LatestOf(s.db.logs, j);
    assert latest.Some? ==> s.db.logs[latest.value].startedAt <= s.now;
  }

  lemma {:induction false} HandlerEnds(s: Joint, x: nat, j: JobId, outcome: Outcome) returns (t: Joint)
    requires s.sys.delays.Valid() && x in s.pool.execs && s.pool.execs[x] == Handling(j)
    ensures PoolLeads(s, [HandlerReturns(x, outcome)], t)
    ensures t == Joint(s.sys, s.pool.(execs := s.pool.execs[x := Finishing(j, outcome)]))
  {
    NoPoolEvents(s);
    t := Do(s, HandlerReturns(x, outcome));
    ThenPoolEvent(s, [], s, HandlerReturns(x, outcome), t);
    assert [] + [HandlerReturns(x, outcome)] == [HandlerReturns(x, outcome)];
  }

  lemma {:induction false} ReportIsStored(s: Joint, x: nat, j: JobId, outcome: Outcome, f: Event, stored: DB)
    returns (t: Joint)
    requires x in s.pool.execs && s.pool.execs[x] == Finishing(j, outcome) && Step(s.sys, f, stored)
    requires if outcome.Succeeds? then f.Succeed? && f.j == j && f.w == s.pool.id
             else f.WorkerFail? && f.c.j == j && f.c.w == s.pool.id
    ensures PoolGoes(s, Report(x, f), t) && t.sys.db == stored && t.sys.delays == s.sys.delays
    ensures t.pool == s.pool.(execs := s.pool.execs[x := Reported])
  {
    t := Do(s, Report(x, f));
  }

  lemma {:induction false} ReportIsDropped(s: Joint, x: nat, j: JobId, outcome: Outcome, e: PoolEvent)
    returns (t: Joint)
    requires s.sys.delays.Valid() && Hold(s.pool.id, j) in s.sys.hands
    requires x in s.pool.execs && s.pool.execs[x] == Finishing(j, outcome)
    requires || e == ReportLost(x)
             || (e.ReportRefused? && e.x == x && Refuses(s.sys.db, j, s.pool.id, outcome, e.latest))
    ensures PoolGoes(s, e, t) && t.sys.db == s.sys.db && t.sys.delays == s.sys.delays
    ensures t.pool == s.pool.(execs := s.pool.execs[x := Reported], lost := t.pool.lost)
  {
    t := Do(s, e);
  }

  /** The outcome is reported, one way or the other. */
  lemma {:induction false} OutcomeLeads(wp: W.WorkerPool, s: Joint, x: nat, j: JobId, outcome: Outcome,
                                        message: string, outOfRange: int, t1: Time, t2: Time, t3: Time, stored: DB)
    returns (e: PoolEvent, t: Joint)
    requires Inv(s.sys) && wp.id != "" && s.pool.id == wp.id && wp.svc.engine.delays == s.sys.delays
    requires Hold(wp.id, j) in s.sys.hands && Timely(s.sys, j, t1, t2, t3)
    requires x in s.pool.execs && s.pool.execs[x] == Finishing(j, outcome)
    requires wp.OutcomeReported(s.sys.db, j, outcome, message, outOfRange, t1, t2, t3, stored)
    ensures Reports(e, x) && (e.ReportLost? ==> wp.svc.store.faulty)
    ensures PoolGoes(s, e, t) && t.sys.db == stored && t.sys.delays == s.sys.delays
    ensures t.pool == s.pool.(execs := s.pool.execs[x := Reported], lost := t.pool.lost)
  {
    if !wp.OutcomeAccepted(s.sys.db, j, outcome, t2, t3) {
      NotAcceptedIsRefused(wp, s.sys, j, outcome, t1, t2, t3);
      e := ReportRefused(x, LatestOf(s.sys.db.logs, j));
      t := ReportIsDropped(s, x, j, outcome, e);
    } else {
      AcceptedIsEnabled(wp, s.sys, j, outcome, message, outOfRange, t1, t2, t3);
      if stored == wp.OutcomeStored(s.sys.db, j, outcome, message, outOfRange, t1, t2, t3) {
        var f := OutcomeEvent(s.sys, wp.id, j, outcome, message, outOfRange, t1, t2, t3);
        e := Report(x, f);
        t := ReportIsStored(s, x, j, outcome, f, stored);
      } else {
        e := ReportLost(x);
        t := ReportIsDropped(s, x, j, outcome, e);
      }
    }
  }

  /** Slot and count go back. */
  lemma {:induction false} ExecutorLeads(s: Joint, es: seq<PoolEvent>, t: Joint, x: nat) returns (u: Joint)
    requires PoolLeads(s, es, t) && t.sys.delays.Valid() && t.pool.sem > 0 && t.pool.wg > 0
    requires x in t.pool.execs && t.pool.execs[x] == Reported
    ensures PoolLeads(s, es + [ReleaseSlot(x)] + [ExecutorDone(x)], u) && u.sys == t.sys
    ensures u.pool == t.pool.(sem := t.pool.sem - 1, wg := t.pool.wg - 1, execs := t.pool.execs - {x})
  {
    var released := Do(t, ReleaseSlot(x));
    ThenPoolEvent(s, es, t, ReleaseSlot(x), released);
    u := Do(released, ExecutorDone(x));
    ThenPoolEvent(s, es + [ReleaseSlot(x)], released, ExecutorDone(x), u);
    assert t.pool.execs[x := Released] - {x} == t.pool.execs - {x};
  }

  lemma {:induction false} ExecutorIsCounted(p: PoolState, x: nat)
    requires Accounted(p) && x in p.execs && !p.execs[x].Released?
    ensures p.sem > 0 && p.wg > 0
  {
    assert x in SlotHolders(p.execs) && x in p.execs.Keys;
    assert |p.execs| == |p.execs.Keys|;
  }

  /** Executor x of the pool is about to report on job j, which is in its hands. */
  ghost predicate AboutToReport(wp: W.WorkerPool, s: Joint, x: nat, j: JobId) {
    && Inv(s.sys) && wp.id != "" && s.pool.id == wp.id && wp.svc.engine.delays == s.sys.delays
    && Hold(wp.id, j) in s.sys.hands
    && x in s.pool.execs && s.pool.execs[x] == Handling(j) && s.pool.sem > 0 && s.pool.wg > 0
  }

  lemma {:induction false} MayReport(wp: W.WorkerPool, s: Joint, x: nat, j: JobId)
    requires Inv(s.sys) && Accounted(s.pool) && HandsMatch(s) && wp.id != "" && s.pool.id == wp.id
    requires wp.svc.engine.delays == s.sys.delays
    requires x in s.pool.execs && s.pool.execs[x] == Handling(j)
    ensures AboutToReport(wp, s, x, j)
  {
    ExecutorIsCounted(s.pool, x);
    assert x in Carriers(s.pool.execs, j);
  }

  /** In the reachable states of the pool every executor whose handler runs is in that position. */
  lemma {:induction false} ReachableMayReport(d: B.Delays, capacity: nat, run: seq<PoolEvent>, wp: W.WorkerPool,
                                              x: nat, j: JobId)
    requires PoolRun(d, wp.id, capacity, run) && wp.id != "" && wp.svc.engine.delays == d
    requires var p := AfterAll(d, wp.id, capacity, run).pool; x in p.execs && p.execs[x] == Handling(j)
    ensures AboutToReport(wp, AfterAll(d, wp.id, capacity, run), x, j)
  {
    AlwaysJointInv(d, wp.id, capacity, run);
    AlwaysHandsMatch(d, wp.id, capacity, run);
    MayReport(wp, AfterAll(d, wp.id, capacity, run), x, j);
  }

  lemma {:induction false} HandlerReports(wp: W.WorkerPool, s: Joint, x: nat, j: JobId, outcome: Outcome,
                                          message: string, outOfRange: int, t1: Time, t2: Time, t3: Time, stored: DB)
    returns (e: PoolEvent, t: Joint)
    requires AboutToReport(wp, s, x, j) && Timely(s.sys, j, t1, t2, t3)
    requires wp.OutcomeReported(s.sys.db, j, outcome, message, outOfRange, t1, t2, t3, stored)
    ensures Reports(e, x) && (e.ReportLost? ==> wp.svc.store.faulty)
    ensures PoolLeads(s, [HandlerReturns(x, outcome)] + [e], t) && t.sys.db == stored && t.sys.delays.Valid()
    ensures t.pool == s.pool.(execs := s.pool.execs[x := Reported], lost := t.pool.lost)
  {
    var s1 := HandlerEnds(s, x, j, outcome);
    e, t := OutcomeLeads(wp, s1, x, j, outcome, message, outOfRange, t1, t2, t3, stored);
    ThenPoolEvent(s, [HandlerReturns(x, outcome)], s1, e, t);
    assert s.pool.execs[x := Finishing(j, outcome)][x := Reported] == s.pool.execs[x := Reported];
  }

  lemma {:induction false} ExecutionLeads(wp: W.WorkerPool, s: Joint, x: nat, j: JobId, outcome: Outcome,
                                          message: string, outOfRange: int, t1: Time, t2: Time, t3: Time, stored: DB)
    returns (e: PoolEvent, u: Joint)
    requires AboutToReport(wp, s, x, j) && Timely(s.sys, j, t1, t2, t3)
    requires wp.OutcomeReported(s.sys.db, j, outcome, message, outOfRange, t1, t2, t3, stored)
    ensures Reports(e, x) && (e.ReportLost? ==> wp.svc.store.faulty)
    ensures PoolLeads(s, [HandlerReturns(x, outcome)] + [e] + [ReleaseSlot(x)] + [ExecutorDone(x)], u)
    ensures u.sys.db == stored && u.sys.delays.Valid()
    ensures u.pool == s.pool.(sem := s.pool.sem - 1, wg := s.pool.wg - 1, execs := s.pool.execs - {x},
                              lost := u.pool.lost)
  {
    var s2;
    e, s2 := HandlerReports(wp, s, x, j, outcome, message, outOfRange, t1, t2, t3, stored);
    u := ExecutorLeads(s, [HandlerReturns(x, outcome)] + [e], s2, x);
    assert s.pool.execs[x := Reported] - {x} == s.pool.execs - {x};
  }

  lemma {:induction false} NodeRefreshed(s: Joint, es: seq<PoolEvent>, t: Joint, node: WorkerRow) returns (u: Joint)
    requires PoolLeads(s, es, t) && t.sys.delays.Valid() && node.id != "" && node.status != Stopped
    ensures PoolLeads(s, es + [Other(Upsert(node))], u)
    ensures u.sys.db == Upserted(t.sys.db, node) && u.pool == t.pool && u.sys.delays.Valid()
  {
    u := Do(t, Other(Upsert(node)));
    ThenPoolEvent(s, es, t, Other(Upsert(node)), u);
  }

  lemma {:induction false} Refreshed(met: DB, node: WorkerRow, after: DB) returns (es: seq<PoolEvent>)
    requires node.id != "" && node.status != Stopped && (after == met || after == Upserted(met, node))
    ensures es == [] || es == [Other(Upsert(node))]
    ensures forall u: Joint | u.sys.delays.Valid() && u.sys.db == met :: Refreshes(u, es, after)
  {
    es := if after == met then [] else [Other(Upsert(node))];
    forall u: Joint | u.sys.delays.Valid() && u.sys.db == met
      ensures Refreshes(u, es, after)
    {
      NoPoolEvents(u);
      if after != met {
        var v := NodeRefreshed(u, [], u, node);
        assert [] + [Other(Upsert(node))] == es;
      }
    }
  }

  lemma {:induction false} ExecutionIsARun(wp: W.WorkerPool, s: Joint, x: nat, j: JobId, outcome: Outcome,
                                           message: string, outOfRange: int, t1: Time, t2: Time, t3: Time, stored: DB)
    returns (es: seq<PoolEvent>, t: Joint)
    requires AboutToReport(wp, s, x, j) && Timely(s.sys, j, t1, t2, t3)
    requires wp.OutcomeReported(s.sys.db, j, outcome, message, outOfRange, t1, t2, t3, stored)
    ensures PoolLeads(s, es, t) && IsExecution(es, x, outcome) && (es[1].ReportLost? ==> wp.svc.store.faulty)
    ensures t.sys.db == stored && t.pool.sem == s.pool.sem - 1 && t.pool.wg == s.pool.wg - 1
    ensures t.pool.execs == s.pool.execs - {x}
  {
    var e;
    e, t := ExecutionLeads(wp, s, x, j, outcome, message, outOfRange, t1, t2, t3, stored);
    es := [HandlerReturns(x, outcome)] + [e] + [ReleaseSlot(x)] + [ExecutorDone(x)];
  }

  /**
    An executor among other processes, from the end of its handler to the end of the goroutine, whichever of its
    repository calls fail: its four events, and then, in whatever state it meets, the refresh of the registration.
    */
  method ExecutionIsPoolEvents(wp: W.WorkerPool, job: Job, outcome: Outcome, message: string, outOfRange: int,
                               t1: Time, t2: Time, t3: Time, ghost s: Joint, ghost x: nat)
    returns (ghost es: seq<PoolEvent>, ghost t: Joint, ghost refresh: seq<PoolEvent>, ghost met: DB)
    requires Agrees(wp, s) && AboutToReport(wp, s, x, job.id) && job.status == Running
    requires Timely(s.sys, job.id, t1, t2, t3)
    modifies wp, wp.node, job, wp.svc.store
    ensures wp.svc.Ready() && PoolLeads(s, es, t) && IsExecution(es, x, outcome)
    ensures es[1].ReportLost? ==> wp.svc.store.faulty
    ensures t.pool.sem == wp.sem && t.pool.wg == wp.wg && t.pool.execs == s.pool.execs - {x}
    ensures refresh == [] || refresh == [Other(Upsert(wp.node.Row()))]
    ensures forall u: Joint | u.sys.delays.Valid() && u.sys.db == met :: Refreshes(u, refresh, wp.svc.store.State())
    ensures !wp.svc.store.shared ==> met == t.sys.db
  {
    ghost var j, stored := job.id, wp.svc.store.State();
    stored, met := wp.ExecuteWorker(job, outcome, message, outOfRange, t1, t2, t3);
    es, t := ExecutionIsARun(wp, s, x, j, outcome, message, outOfRange, t1, t2, t3, stored);
    refresh := Refreshed(met, wp.node.Row(), wp.svc.store.State());
  }
}
