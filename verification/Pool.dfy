/**
  One worker pool among other processes: its polling loop, its executors, Stop, cancellation and the
  heartbeat goroutine, interleaved with every event of the job protocol.
*/
module Pool {
  import opened Domain
  import opened Tables
  import opened Protocol
  import opened Invariants
  import opened History
  import opened Lifecycle
  import B = Backoff

  datatype Outcome = Succeeds | Errors | Panics

  /** An executor goroutine up to wg.Done; what follows only refreshes the worker row. */
  datatype Exec =
    | Handling(j: JobId)                       // the handler runs
    | Finishing(j: JobId, outcome: Outcome)    // it returned or panicked; the outcome is not yet stored
    | Reported                                 // outcome stored or refused
    | Released                                 // slot given back

  /** The goroutine of Start. `late`: Stop had already finished waiting when the cancellation was noticed. */
  datatype Loop =
    | Selecting
    | Polling                                  // holds a slot, about to fetch
    | Holding(j: JobId)                        // fetched, before wg.Add
    | Counted(j: JobId)                        // after wg.Add, before the goroutine starts
    | Stopping(late: bool)                     // inside Stop on the cancellation path
    | Returned(cancelled: bool, late: bool)    // deferred clean-up: waits for the heartbeat
    | Unregistered(cancelled: bool, late: bool)

  /** sync.Once around closing the stop channel and wg.Wait. */
  datatype Once = Fresh | Waiting | Finished

  datatype PoolState = PoolState(
    id: WorkerId,
    capacity: nat,
    sem: nat,
    wg: nat,
    execs: map<nat, Exec>,
    spawned: nat,
    loop: Loop,
    once: Once,
    cancelled: bool,
    heartbeat: bool,
    waited: bool,          // wg.Wait returned while the loop was inside Stop
    lost: set<JobId>)      // jobs with an outcome of this pool that could not be stored

  datatype Joint = Joint(sys: Sys, pool: PoolState)

  datatype PoolEvent =
    | TryAcquire
    | FetchJob(e: Event)
    | FetchNothing
    | CountUp
    | Spawn
    | HandlerReturns(x: nat, outcome: Outcome)
    | Report(x: nat, e: Event)
    | ReportRefused(x: nat, latest: Option<int>)
    | ReportLost(x: nat)   // a repository call of the report failed
    | ReleaseSlot(x: nat)
    | ExecutorDone(x: nat)
    | ExternalStop
    | WaitReturns
    | Cancel
    | SeeCancel
    | SeeStop
    | StopReturns
    | HeartbeatEnds
    | UnregisterNode
    | Other(e: Event)      // another process, or a registration refresh of this one

  function LoopHolds(loop: Loop): nat {
    if loop.Polling? || loop.Holding? || loop.Counted? then 1 else 0
  }

  predicate OwnFetch(p: PoolState, e: Event) {
    e.Fetch? && e.w == p.id
  }

  /** What nobody else does under this pool's id. */
  predicate OwnEvent(p: PoolState, e: Event) {
    || OwnFetch(p, e) || (e.Succeed? && e.w == p.id) || (e.WorkerFail? && e.c.w == p.id)
    || (e.Abandon? && e.w == p.id)
  }

  /** The store turns the report down: success of a job not running, or failure of an attempt not owned. */
  ghost predicate Refuses(db: DB, j: JobId, w: WorkerId, outcome: Outcome, latest: Option<int>) {
    if outcome.Succeeds? then !IsRunning(db, j)
    else LatestIs(db.logs, j, latest) && !(IsRunning(db, j) && OwnsLatest(db.logs, w, latest))
  }

  /** What the pool itself must be ready for. */
  predicate PoolReady(p: PoolState, e: PoolEvent) {
    match e
    case TryAcquire => p.loop.Selecting? && p.sem < p.capacity
    case FetchJob(f) => p.loop.Polling? && OwnFetch(p, f)
    case FetchNothing => p.loop.Polling? && p.sem > 0
    case CountUp => p.loop.Holding?
    case Spawn => p.loop.Counted?
    case HandlerReturns(x, outcome) => x in p.execs && p.execs[x].Handling?
    case Report(x, f) =>
      && x in p.execs && p.execs[x].Finishing?
      && (if p.execs[x].outcome.Succeeds? then f.Succeed? && f.j == p.execs[x].j && f.w == p.id
          else f.WorkerFail? && f.c.j == p.execs[x].j && f.c.w == p.id)
    case ReportRefused(x, latest) => x in p.execs && p.execs[x].Finishing?
    case ReportLost(x) => x in p.execs && p.execs[x].Finishing?
    case ReleaseSlot(x) => x in p.execs && p.execs[x].Reported? && p.sem > 0
    case ExecutorDone(x) => x in p.execs && p.execs[x].Released? && p.wg > 0
    case ExternalStop => p.once.Fresh?
    case WaitReturns => p.once.Waiting? && p.wg == 0
    case Cancel => true
    case SeeCancel => p.loop.Selecting? && p.cancelled
    case SeeStop => p.loop.Selecting? && !p.once.Fresh?
    case StopReturns => p.loop.Stopping? && p.once.Finished?
    case HeartbeatEnds => p.heartbeat && (p.cancelled || !p.once.Fresh?)
    case UnregisterNode => p.loop.Returned? && !p.heartbeat
    case Other(f) => !OwnEvent(p, f)
  }

  function PoolAfter(p: PoolState, e: PoolEvent): PoolState
    requires PoolReady(p, e)
  {
    match e
    case TryAcquire => p.(sem := p.sem + 1, loop := Polling)
    case FetchJob(f) => p.(loop := Holding(f.j))
    case FetchNothing => p.(sem := p.sem - 1, loop := Selecting)
    case CountUp => p.(wg := p.wg + 1, loop := Counted(p.loop.j))
    case Spawn => p.(execs := p.execs[p.spawned := Handling(p.loop.j)], spawned := p.spawned + 1, loop := Selecting)
    case HandlerReturns(x, outcome) => p.(execs := p.execs[x := Finishing(p.execs[x].j, outcome)])
    case Report(x, f) => p.(execs := p.execs[x := Reported])
    case ReportRefused(x, latest) => p.(execs := p.execs[x := Reported])
    case ReportLost(x) => p.(execs := p.execs[x := Reported], lost := p.lost + {p.execs[x].j})
    case ReleaseSlot(x) => p.(execs := p.execs[x := Released], sem := p.sem - 1)
    case ExecutorDone(x) => p.(execs := p.execs - {x}, wg := p.wg - 1)
    case ExternalStop => p.(once := Waiting)
    case WaitReturns => p.(once := Finished, waited := p.waited || p.loop.Stopping?)
    case Cancel => p.(cancelled := true)
    case SeeCancel => p.(loop := Stopping(p.once.Finished?), once := if p.once.Fresh? then Waiting else p.once)
    case SeeStop => p.(loop := Returned(false, false))
    case StopReturns => p.(loop := Returned(true, p.loop.late))
    case HeartbeatEnds => p.(heartbeat := false)
    case UnregisterNode => p.(loop := Unregistered(p.loop.cancelled, p.loop.late))
    case Other(f) => p
  }

  /** The event of the job protocol that goes with it, if there is one. */
  function StoreEvent(p: PoolState, e: PoolEvent): Option<Event>
    requires PoolReady(p, e)
  {
    match e
    case FetchJob(f) => Some(f)
    case Report(_, f) => Some(f)
    case ReportRefused(x, _) => Some(Abandon(p.id, p.execs[x].j))
    case ReportLost(x) => Some(Abandon(p.id, p.execs[x].j))
    case Other(f) => Some(f)
    case UnregisterNode => Some(Unregister(p.id))
    case _ => None
  }

  ghost predicate CanDo(s: Joint, e: PoolEvent) {
    && PoolReady(s.pool, e)
    && (StoreEvent(s.pool, e).Some? ==> Enabled(s.sys, StoreEvent(s.pool, e).value))
    && (e.ReportRefused? ==>
          Refuses(s.sys.db, s.pool.execs[e.x].j, s.pool.id, s.pool.execs[e.x].outcome, e.latest))
  }

  function Do(s: Joint, e: PoolEvent): Joint
    requires s.sys.delays.Valid() && CanDo(s, e)
  {
    var f := StoreEvent(s.pool, e);
    Joint(if f.Some? then Apply(s.sys, f.value) else s.sys, PoolAfter(s.pool, e))
  }

  function Begin(d: B.Delays, id: WorkerId, capacity: nat): Joint {
    Joint(Protocol.Start(d), PoolState(id, capacity, 0, 0, map[], 0, Selecting, Fresh, false, true, false, {}))
  }

  ghost predicate PoolRun(d: B.Delays, id: WorkerId, capacity: nat, run: seq<PoolEvent>)
    decreases |run|, 0
  {
    d.Valid() &&
    (run == [] ||
     (PoolRun(d, id, capacity, run[..|run| - 1]) && CanDo(AfterAll(d, id, capacity, run[..|run| - 1]), run[|run| - 1])))
  }

  ghost function AfterAll(d: B.Delays, id: WorkerId, capacity: nat, run: seq<PoolEvent>): (s: Joint)
    requires PoolRun(d, id, capacity, run)
    ensures s.sys.delays == d && s.pool.id == id && s.pool.capacity == capacity
    decreases |run|, 1
  {
    if run == [] then Begin(d, id, capacity)
    else Do(AfterAll(d, id, capacity, run[..|run| - 1]), run[|run| - 1])
  }

  // ---- slots ----

  function SlotHolders(execs: map<nat, Exec>): set<nat> {
    set x | x in execs && !execs[x].Released?
  }

  function Handlers(execs: map<nat, Exec>): set<nat> {
    set x | x in execs && execs[x].Handling?
  }

  /** Every slot in use is held by the loop or by one executor, and the wait group counts the executors. */
  ghost predicate Accounted(p: PoolState) {
    && p.sem == |SlotHolders(p.execs)| + LoopHolds(p.loop)
    && p.sem <= p.capacity
    && p.wg == |p.execs| + (if p.loop.Counted? then 1 else 0)
    && forall x | x in p.execs :: x < p.spawned
  }

  lemma {:induction false} SlotsAfterWrite(execs: map<nat, Exec>, x: nat, v: Exec)
    ensures |SlotHolders(execs[x := v])| ==
            |SlotHolders(execs)| + (if v.Released? then 0 else 1)
            - (if x in execs && !execs[x].Released? then 1 else 0)
  {
    var rest := SlotHolders(execs) - {x};
    assert SlotHolders(execs[x := v]) == if v.Released? then rest else rest + {x};
    assert SlotHolders(execs) == if x in execs && !execs[x].Released? then rest + {x} else rest;
  }

  lemma {:induction false} ExecutorLeaves(execs: map<nat, Exec>, x: nat)
    requires x in execs && execs[x].Released?
    ensures |execs - {x}| == |execs| - 1 && |SlotHolders(execs - {x})| == |SlotHolders(execs)|
  {
    assert SlotHolders(execs - {x}) == SlotHolders(execs);
    assert execs.Keys == (execs - {x}).Keys + {x};
    assert |execs.Keys| == |execs| && |(execs - {x}).Keys| == |execs - {x}|;
  }

  lemma {:induction false} ExecutorCount(execs: map<nat, Exec>, x: nat, v: Exec)
    ensures |execs[x := v]| == |execs| + if x in execs then 0 else 1
  {
    assert execs[x := v].Keys == execs.Keys + {x};
    assert |execs.Keys| == |execs| && |execs[x := v].Keys| == |execs[x := v]|;
  }

  /** An executor moves from one phase to the next. */
  lemma {:induction false} PhaseStep(p: PoolState, x: nat, v: Exec, sem: nat)
    requires Accounted(p) && x in p.execs && !p.execs[x].Released?
    requires sem == p.sem - if v.Released? then 1 else 0
    ensures Accounted(p.(execs := p.execs[x := v], sem := sem))
  {
    SlotsAfterWrite(p.execs, x, v);
    ExecutorCount(p.execs, x, v);
  }

  /** Moves of the loop, of Stop and of the heartbeat leave the executors alone. */
  lemma {:induction false} LoopStep(p: PoolState, e: PoolEvent)
    requires Accounted(p) && PoolReady(p, e) && !e.Spawn? && !e.HandlerReturns? && !e.Report?
    requires !e.ReportRefused? && !e.ReportLost? && !e.ReleaseSlot? && !e.ExecutorDone?
    ensures Accounted(PoolAfter(p, e))
  {
    match e
    case TryAcquire =>
    case FetchJob(_) =>
    case FetchNothing =>
    case CountUp =>
    case ExternalStop =>
    case WaitReturns =>
    case Cancel =>
    case SeeCancel =>
    case SeeStop =>
    case StopReturns =>
    case HeartbeatEnds =>
    case UnregisterNode =>
    case Other(_) =>
    case _ => assert false;
  }

  lemma {:induction false} SpawnStep(p: PoolState)
    requires Accounted(p) && p.loop.Counted?
    ensures Accounted(PoolAfter(p, Spawn))
  {
    SlotsAfterWrite(p.execs, p.spawned, Handling(p.loop.j));
    ExecutorCount(p.execs, p.spawned, Handling(p.loop.j));
  }

  lemma {:induction false} DoneStep(p: PoolState, x: nat)
    requires Accounted(p) && PoolReady(p, ExecutorDone(x))
    ensures Accounted(PoolAfter(p, ExecutorDone(x)))
  {
    ExecutorLeaves(p.execs, x);
  }

  lemma {:induction false} LostStep(p: PoolState, x: nat)
    requires Accounted(p) && PoolReady(p, ReportLost(x))
    ensures Accounted(PoolAfter(p, ReportLost(x)))
  {
    PhaseStep(p, x, Reported, p.sem);
  }

  lemma {:induction false} AccountedStep(p: PoolState, e: PoolEvent)
    requires Accounted(p) && PoolReady(p, e)
    ensures Accounted(PoolAfter(p, e))
  {
    match e
    case Spawn => SpawnStep(p);
    case HandlerReturns(x, outcome) => PhaseStep(p, x, Finishing(p.execs[x].j, outcome), p.sem);
    case Report(x, _) => PhaseStep(p, x, Reported, p.sem);
    case ReportRefused(x, _) => PhaseStep(p, x, Reported, p.sem);
    case ReportLost(x) => LostStep(p, x);
    case ReleaseSlot(x) => PhaseStep(p, x, Released, p.sem - 1);
    case ExecutorDone(x) => DoneStep(p, x);
    case _ => LoopStep(p, e);
  }

  lemma {:induction false} AlwaysAccounted(d: B.Delays, id: WorkerId, capacity: nat, run: seq<PoolEvent>)
    requires PoolRun(d, id, capacity, run)
    ensures Accounted(AfterAll(d, id, capacity, run).pool)
  {
    if run != [] {
      AlwaysAccounted(d, id, capacity, run[..|run| - 1]);
      AccountedStep(AfterAll(d, id, capacity, run[..|run| - 1]).pool, run[|run| - 1]);
    }
  }

  /** However dispatch, returns, errors and panics interleave, handlers never exceed the capacity. */
  lemma {:induction false} HandlersNeverExceedCapacity(d: B.Delays, id: WorkerId, capacity: nat, run: seq<PoolEvent>)
    requires PoolRun(d, id, capacity, run)
    ensures var p := AfterAll(d, id, capacity, run).pool;
            && |Handlers(p.execs)| <= |SlotHolders(p.execs)| <= p.sem <= capacity
            && p.wg == |p.execs| + (if p.loop.Counted? then 1 else 0)
  {
    AlwaysAccounted(d, id, capacity, run);
    var p := AfterAll(d, id, capacity, run).pool;
    SubsetSize(Handlers(p.execs), SlotHolders(p.execs));
  }

  lemma {:induction false} SubsetSize(a: set<nat>, b: set<nat>)
    requires a <= b
    ensures |a| <= |b|
    decreases |a|
  {
    if a != {} {
      var x :| x in a;
      SubsetSize(a - {x}, b - {x});
    }
  }

  /** Slots taken and given back along a run. */
  function Taken(run: seq<PoolEvent>): nat {
    if run == [] then 0 else Taken(run[..|run| - 1]) + if run[|run| - 1].TryAcquire? then 1 else 0
  }

  function GivenBack(run: seq<PoolEvent>): nat {
    if run == [] then 0
    else
      var e := run[|run| - 1];
      GivenBack(run[..|run| - 1]) + if e.FetchNothing? || e.ReleaseSlot? then 1 else 0
  }

  lemma {:induction false} SlotsStep(p: PoolState, e: PoolEvent)
    requires PoolReady(p, e)
    ensures PoolAfter(p, e).sem ==
            p.sem + (if e.TryAcquire? then 1 else 0) - (if e.FetchNothing? || e.ReleaseSlot? then 1 else 0)
  {
  }

  /** Slots are conserved: those taken are those given back plus those in use. */
  lemma {:induction false} SlotsConserved(d: B.Delays, id: WorkerId, capacity: nat, run: seq<PoolEvent>)
    requires PoolRun(d, id, capacity, run)
    ensures Taken(run) == GivenBack(run) + AfterAll(d, id, capacity, run).pool.sem
  {
    if run != [] {
      SlotsConserved(d, id, capacity, run[..|run| - 1]);
      SlotsStep(AfterAll(d, id, capacity, run[..|run| - 1]).pool, run[|run| - 1]);
    }
  }

  /** The executor has given its slot back. */
  predicate GaveBack(p: PoolState, x: nat) {
    x < p.spawned && (x !in p.execs || p.execs[x].Released?)
  }

  lemma {:induction false} GaveBackForGood(p: PoolState, e: PoolEvent, x: nat)
    requires Accounted(p) && PoolReady(p, e)
    ensures GaveBack(p, x) ==> GaveBack(PoolAfter(p, e), x) && e != ReleaseSlot(x)
    ensures e == ReleaseSlot(x) ==> GaveBack(PoolAfter(p, e), x)
  {
  }

  ghost predicate ReleasedIn(run: seq<PoolEvent>, x: nat) {
    exists i :: 0 <= i < |run| && run[i] == ReleaseSlot(x)
  }

  /** No executor gives its slot back twice, whichever way its handler ended. */
  lemma {:induction false} SlotReleasedOnce(d: B.Delays, id: WorkerId, capacity: nat, run: seq<PoolEvent>, x: nat)
    requires PoolRun(d, id, capacity, run)
    ensures ReleasedIn(run, x) ==> GaveBack(AfterAll(d, id, capacity, run).pool, x)
    ensures run != [] && ReleasedIn(run[..|run| - 1], x) ==> run[|run| - 1] != ReleaseSlot(x)
  {
    if run != [] {
      var p := run[..|run| - 1];
      SlotReleasedOnce(d, id, capacity, p, x);
      AlwaysAccounted(d, id, capacity, p);
      GaveBackForGood(AfterAll(d, id, capacity, p).pool, run[|run| - 1], x);
      if i :| 0 <= i < |run| && run[i] == ReleaseSlot(x) {
        if i < |run| - 1 {
          assert p[i] == ReleaseSlot(x);
        }
      }
    }
  }

  // ---- what is reported ----

  /** An executor that is about to report does so for the way its handler ended. */
  lemma {:induction false} HandlerHasEnded(d: B.Delays, id: WorkerId, capacity: nat, run: seq<PoolEvent>, x: nat)
    returns (m: nat)
    requires PoolRun(d, id, capacity, run)
    requires var execs := AfterAll(d, id, capacity, run).pool.execs; x in execs && execs[x].Finishing?
    ensures m < |run| && run[m] == HandlerReturns(x, AfterAll(d, id, capacity, run).pool.execs[x].outcome)
  {
    var p, e := run[..|run| - 1], run[|run| - 1];
    FinishingStep(AfterAll(d, id, capacity, p).pool, e, x);
    if e.HandlerReturns? && e.x == x {
      m := |p|;
    } else {
      m := HandlerHasEnded(d, id, capacity, p, x);
      assert run[m] == p[m];
    }
  }

  lemma {:induction false} FinishingStep(p: PoolState, e: PoolEvent, x: nat)
    requires PoolReady(p, e) && x in PoolAfter(p, e).execs && PoolAfter(p, e).execs[x].Finishing?
    ensures if e.HandlerReturns? && e.x == x then e.outcome == PoolAfter(p, e).execs[x].outcome
            else x in p.execs && p.execs[x] == PoolAfter(p, e).execs[x]
  {
  }

  /** A job is completed exactly by the report of a handler that returned nil; errors and panics charge a retry. */
  lemma {:induction false} ReportTellsTheOutcome(d: B.Delays, id: WorkerId, capacity: nat, run: seq<PoolEvent>)
    returns (m: nat)
    requires PoolRun(d, id, capacity, run) && run != [] && run[|run| - 1].Report?
    ensures PoolRun(d, id, capacity, run[..|run| - 1])
    ensures m < |run| - 1 && run[m].HandlerReturns? && run[m].x == run[|run| - 1].x
    ensures var s, t := AfterAll(d, id, capacity, run[..|run| - 1]), AfterAll(d, id, capacity, run);
            && run[m].x in s.pool.execs && s.pool.execs[run[m].x].Finishing?
            && var j := s.pool.execs[run[m].x].j;
               && IsRunning(s.sys.db, j) && j in t.sys.db.jobs
               && (run[m].outcome == Succeeds ==> t.sys.db.jobs[j].status == Completed)
               && (run[m].outcome != Succeeds ==>
                     && t.sys.db.jobs[j].status in {Pending, DeadLetter}
                     && t.sys.db.jobs[j].retriesCount == s.sys.db.jobs[j].retriesCount + 1)
  {
    var p, e := run[..|run| - 1], run[|run| - 1];
    m := HandlerHasEnded(d, id, capacity, p, e.x);
    assert run[m] == p[m];
  }

  // ---- jobs running under the pool ----

  ghost predicate RunsUnder(db: DB, j: JobId, w: WorkerId) {
    IsRunning(db, j) && exists k :: IsOpen(db.logs, k, j) && db.logs[k].workerId == w
  }

  predicate Carries(x: Exec, j: JobId) {
    (x.Handling? && x.j == j) || (x.Finishing? && x.j == j)
  }

  ghost predicate Held(p: PoolState, j: JobId) {
    || (p.loop.Holding? && p.loop.j == j) || (p.loop.Counted? && p.loop.j == j)
    || exists x :: x in p.execs && Carries(p.execs[x], j)
  }

  /** Another log of the job carries an attempt number at least that of the open one. */
  ghost predicate Rivalled(logs: seq<LogRow>, j: JobId) {
    exists k, i :: IsOpen(logs, k, j) && IsLogOf(logs, i, j) && i != k && logs[k].attempt <= logs[i].attempt
  }

  /** Why a job may run under the pool. */
  ghost predicate Explained(s: Joint, j: JobId) {
    Held(s.pool, j) || j in s.pool.lost || Rivalled(s.sys.db.logs, j)
  }

  /** What joins the two layers: a job running under the pool is in the hands of the pool, or its report failed. */
  ghost predicate JointInv(s: Joint) {
    Inv(s.sys) && Accounted(s.pool) && forall j | RunsUnder(s.sys.db, j, s.pool.id) :: Explained(s, j)
  }

  /** Without a replay, an event keeps log numbering and retry counters in agreement. */
  lemma {:induction false} UnreplayedStep(s: Sys, e: Event, j: JobId)
    requires Inv(s) && Enabled(s, e) && Unreplayed(s.db, j) && !(e.AdminReplay? && e.j == j)
    ensures Unreplayed(Apply(s, e).db, j)
  {
    if j in s.db.jobs {
      UnreplayedRow(s, e, j);
    } else if j !in s.issued {
      NoRowsAdded(s.db.logs, 0, |s.db.logs|, j);
      LedgerStepCore(s, ZERO, e, j);
    } else if j in Apply(s, e).db.jobs {
      PresentBefore(s, e, j);
    }
  }

  lemma {:induction false} UnreplayedRow(s: Sys, e: Event, j: JobId)
    requires Inv(s) && Enabled(s, e) && j in s.db.jobs && Unreplayed(s.db, j) && !(e.AdminReplay? && e.j == j)
    ensures Unreplayed(Apply(s, e).db, j)
  {
    var t := TallyFor(s, j);
    LedgerStepCore(s, t, e, j);
    assert Bump(t, e, j).replays == 0;
  }

  /** A history that explains the row of an unreplayed job. */
  lemma {:induction false} TallyFor(s: Sys, j: JobId) returns (t: Tally)
    requires Inv(s) && j in s.db.jobs && Unreplayed(s.db, j)
    ensures t.replays == 0 && Ledger(s, t, j)
  {
    var row := s.db.jobs[j];
    assert JobOk(row, s.db.logs);
    t := Tally(RowsOf(s.db.logs, j), row.retriesCount, if row.status == DeadLetter then 1 else 0,
               if row.status == Completed then 1 else 0, 0);
  }

  /** Only the pool's own fetch puts a job under it. */
  lemma {:induction false} NewlyUnder(s: Sys, e: Event, j: JobId, w: WorkerId)
    requires Inv(s) && Enabled(s, e) && RunsUnder(Apply(s, e).db, j, w)
    ensures RunsUnder(s.db, j, w) || (e.Fetch? && e.w == w && e.j == j)
  {
    if !Touches(e, j) {
      UnderUntouched(s, e, j, w);
    } else if e.Fetch? {
      FetchedUnder(s, e, w);
    } else {
      NotRunningAfter(s, e, j);
    }
  }

  lemma {:induction false} UnderUntouched(s: Sys, e: Event, j: JobId, w: WorkerId)
    requires Inv(s) && Enabled(s, e) && RunsUnder(Apply(s, e).db, j, w) && !Touches(e, j)
    ensures RunsUnder(s.db, j, w)
  {
    Untouched(s, e, j);
    var after := Apply(s, e).db;
    var k :| IsOpen(after.logs, k, j) && after.logs[k].workerId == w;
    assert IsOpen(s.db.logs, k, j);
  }

  /** The job was pending, so its only open log is the new one. */
  lemma {:induction false} FetchedUnder(s: Sys, e: Event, w: WorkerId)
    requires Inv(s) && Enabled(s, e) && e.Fetch? && RunsUnder(Apply(s, e).db, e.j, w)
    ensures e.w == w
  {
    var after := Apply(s, e).db.logs;
    var k :| IsOpen(after, k, e.j) && after[k].workerId == w;
    assert JobOk(s.db.jobs[e.j], s.db.logs);
    if k < |s.db.logs| {
      assert IsOpen(s.db.logs, k, e.j);
    }
  }

  /** Only a fetch makes a job running. */
  lemma {:induction false} NotRunningAfter(s: Sys, e: Event, j: JobId)
    requires Inv(s) && Enabled(s, e) && Touches(e, j) && !e.Fetch?
    ensures !IsRunning(Apply(s, e).db, j)
  {
    if ChargeOf(e).Some? {
      ChargeNamesAWorker(s, e);
    } else if e.AdminReplay? {
      ReplayOverwritesWhatWasRead(s, e);
    } else if e.AdminDelete? || e.Purge? {
      KeysAfter(s, e);
    }
  }

  /** A stored outcome ends running under the pool, and so does a refused one unless another log rivals the open one. */
  lemma {:induction false} ReportedMeansNotUnder(s: Joint, e: PoolEvent)
    requires Inv(s.sys) && CanDo(s, e) && (e.Report? || e.ReportRefused?)
    ensures var j, t := s.pool.execs[e.x].j, Do(s, e);
            RunsUnder(t.sys.db, j, s.pool.id) ==> e.ReportRefused? && Rivalled(t.sys.db.logs, j)
  {
    if e.Report? {
      if e.e.WorkerFail? {
        ChargeNamesAWorker(s.sys, e.e);
      }
    } else {
      RefusedMeansRivalled(s, e);
    }
  }

  lemma {:induction false} RefusedMeansRivalled(s: Joint, e: PoolEvent)
    requires Inv(s.sys) && CanDo(s, e) && e.ReportRefused?
    ensures var j := s.pool.execs[e.x].j; RunsUnder(s.sys.db, j, s.pool.id) ==> Rivalled(s.sys.db.logs, j)
  {
    var j, logs := s.pool.execs[e.x].j, s.sys.db.logs;
    if RunsUnder(s.sys.db, j, s.pool.id) {
      var k :| IsOpen(logs, k, j) && logs[k].workerId == s.pool.id;
      assert logs[k].jobId == j;
      assert HasLogs(logs, j);
      assert e.latest.value != k;
      assert IsLogOf(logs, k, j) && IsLogOf(logs, e.latest.value, j);
    }
  }

  /** While the job keeps running, its rival stays. */
  lemma {:induction false} RivalStays(s: Sys, e: Event, j: JobId)
    requires Inv(s) && Enabled(s, e) && IsRunning(s.db, j) && IsRunning(Apply(s, e).db, j) && Rivalled(s.db.logs, j)
    ensures Rivalled(Apply(s, e).db.logs, j)
  {
    if Touches(e, j) {
      if !e.Fetch? {
        NotRunningAfter(s, e, j);
      }
    } else {
      Untouched(s, e, j);
      var k, i :| IsOpen(s.db.logs, k, j) && IsLogOf(s.db.logs, i, j) && i != k
                  && s.db.logs[k].attempt <= s.db.logs[i].attempt;
      var after := Apply(s, e).db.logs;
      assert IsOpen(after, k, j) && IsLogOf(after, i, j);
    }
  }

  lemma {:induction false} HeldStep(s: Joint, e: PoolEvent, j: JobId)
    requires JointInv(s) && CanDo(s, e) && RunsUnder(Do(s, e).sys.db, j, s.pool.id)
    ensures Explained(Do(s, e), j)
  {
    var f := StoreEvent(s.pool, e);
    if f.Some? {
      NewlyUnder(s.sys, f.value, j, s.pool.id);
    }
    if !RunsUnder(s.sys.db, j, s.pool.id) {
      assert e.FetchJob? && e.e.j == j;
    } else if (e.Report? || e.ReportRefused?) && s.pool.execs[e.x].j == j {
      ReportedMeansNotUnder(s, e);
    } else if e.ReportLost? && s.pool.execs[e.x].j == j {
      assert j in Do(s, e).pool.lost;
    } else {
      StaysExplained(s, e, j);
    }
  }

  lemma {:induction false} StaysExplained(s: Joint, e: PoolEvent, j: JobId)
    requires JointInv(s) && CanDo(s, e)
    requires RunsUnder(s.sys.db, j, s.pool.id) && RunsUnder(Do(s, e).sys.db, j, s.pool.id)
    requires e.Report? || e.ReportRefused? || e.ReportLost? ==> s.pool.execs[e.x].j != j
    ensures Explained(Do(s, e), j)
  {
    if Held(s.pool, j) {
      HeldMoves(s.pool, e, j);
    } else if j in s.pool.lost {
      assert j in PoolAfter(s.pool, e).lost;
    } else {
      RivalMoves(s, e, j);
    }
  }

  lemma {:induction false} RivalMoves(s: Joint, e: PoolEvent, j: JobId)
    requires Inv(s.sys) && CanDo(s, e) && Rivalled(s.sys.db.logs, j)
    requires IsRunning(s.sys.db, j) && IsRunning(Do(s, e).sys.db, j)
    ensures Rivalled(Do(s, e).sys.db.logs, j)
  {
    if StoreEvent(s.pool, e).Some? {
      RivalStays(s.sys, StoreEvent(s.pool, e).value, j);
    }
  }

  /** Moves of the pool hand a job on, except the report that ends it and a fetch of another one. */
  lemma {:induction false} HeldMoves(p: PoolState, e: PoolEvent, j: JobId)
    requires PoolReady(p, e) && Held(p, j) && Accounted(p)
    requires e.Report? || e.ReportRefused? || e.ReportLost? ==> p.execs[e.x].j != j
    ensures Held(PoolAfter(p, e), j)
  {
    var p' := PoolAfter(p, e);
    if e.Spawn? && p.loop.j == j {
      assert Carries(p'.execs[p.spawned], j);
    } else if x :| x in p.execs && Carries(p.execs[x], j) {
      assert x in p'.execs && Carries(p'.execs[x], j);
    }
  }

  lemma {:induction false} JointStep(s: Joint, e: PoolEvent)
    requires JointInv(s) && CanDo(s, e)
    ensures JointInv(Do(s, e))
  {
    AccountedStep(s.pool, e);
    var f := StoreEvent(s.pool, e);
    if f.Some? {
      EventKeepsInv(s.sys, f.value);
    }
    forall j | RunsUnder(Do(s, e).sys.db, j, s.pool.id)
      ensures Explained(Do(s, e), j)
    {
      HeldStep(s, e, j);
    }
  }

  lemma {:induction false} AlwaysJointInv(d: B.Delays, id: WorkerId, capacity: nat, run: seq<PoolEvent>)
    requires PoolRun(d, id, capacity, run)
    ensures JointInv(AfterAll(d, id, capacity, run))
  {
    if run != [] {
      AlwaysJointInv(d, id, capacity, run[..|run| - 1]);
      JointStep(AfterAll(d, id, capacity, run[..|run| - 1]), run[|run| - 1]);
    }
  }

  /**
    In every interleaving, replays included, a job running under the pool is held by its dispatcher or an executor,
    or its outcome could not be stored, or another log of it rivals the open one.
    */
  lemma {:induction false} RunningJobsAreHeld(d: B.Delays, id: WorkerId, capacity: nat, run: seq<PoolEvent>, j: JobId)
    requires PoolRun(d, id, capacity, run) && RunsUnder(AfterAll(d, id, capacity, run).sys.db, j, id)
    ensures Explained(AfterAll(d, id, capacity, run), j)
  {
    AlwaysJointInv(d, id, capacity, run);
  }

  /** The run contains no DLQ replay of the job. */
  ghost predicate NeverReplayed(run: seq<PoolEvent>, j: JobId) {
    forall i | 0 <= i < |run| :: !(run[i].Other? && run[i].e.AdminReplay? && run[i].e.j == j)
  }

  lemma {:induction false} StaysUnreplayed(d: B.Delays, id: WorkerId, capacity: nat, run: seq<PoolEvent>, j: JobId)
    requires PoolRun(d, id, capacity, run) && NeverReplayed(run, j)
    ensures Unreplayed(AfterAll(d, id, capacity, run).sys.db, j)
  {
    if run != [] {
      var p, e := run[..|run| - 1], run[|run| - 1];
      StaysUnreplayed(d, id, capacity, p, j);
      AlwaysJointInv(d, id, capacity, p);
      UnreplayedMove(AfterAll(d, id, capacity, p), e, j);
    }
  }

  lemma {:induction false} UnreplayedMove(s: Joint, e: PoolEvent, j: JobId)
    requires Inv(s.sys) && CanDo(s, e) && Unreplayed(s.sys.db, j)
    requires !(e.Other? && e.e.AdminReplay? && e.e.j == j)
    ensures Unreplayed(Do(s, e).sys.db, j)
  {
    if StoreEvent(s.pool, e).Some? {
      UnreplayedStep(s.sys, StoreEvent(s.pool, e).value, j);
    }
  }

  /** Without replays the open log is the latest one, and no other carries its number. */
  lemma {:induction false} UnreplayedHasNoRival(s: Sys, j: JobId)
    requires Inv(s) && IsRunning(s.db, j) && Unreplayed(s.db, j)
    ensures !Rivalled(s.db.logs, j)
  {
    forall k, i | IsOpen(s.db.logs, k, j) && IsLogOf(s.db.logs, i, j) && i != k
      ensures s.db.logs[i].attempt < s.db.logs[k].attempt
    {
      NoRival(s, j, k, i);
    }
  }

  lemma {:induction false} NoRival(s: Sys, j: JobId, k: int, i: int)
    requires Inv(s) && IsRunning(s.db, j) && Unreplayed(s.db, j)
    requires IsOpen(s.db.logs, k, j) && IsLogOf(s.db.logs, i, j) && i != k
    ensures s.db.logs[i].attempt < s.db.logs[k].attempt
  {
    assert JobOk(s.db.jobs[j], s.db.logs);
    if k < i {
      RowsMonotone(s.db.logs, k, i, j);
      RowsMonotone(s.db.logs, i, |s.db.logs|, j);
    } else {
      RowsMonotone(s.db.logs, i, k, j);
    }
  }

  /** Without replays of it and with its outcome stored, a job running under the pool is in the pool's hands. */
  lemma {:induction false} UnreplayedJobsAreHeld(d: B.Delays, id: WorkerId, capacity: nat, run: seq<PoolEvent>,
                                                 j: JobId)
    requires PoolRun(d, id, capacity, run) && NeverReplayed(run, j)
    requires var s := AfterAll(d, id, capacity, run); RunsUnder(s.sys.db, j, id) && j !in s.pool.lost
    ensures Held(AfterAll(d, id, capacity, run).pool, j)
  {
    RunningJobsAreHeld(d, id, capacity, run, j);
    AlwaysJointInv(d, id, capacity, run);
    StaysUnreplayed(d, id, capacity, run, j);
    UnreplayedHasNoRival(AfterAll(d, id, capacity, run).sys, j);
  }

  // ---- graceful shutdown ----

  /** Once wg.Wait has returned to a loop inside Stop, no executor is left and none will start. */
  ghost predicate ShutdownOk(p: PoolState) {
    && (p.waited ==> p.execs == map[] && (p.loop.Stopping? || p.loop.Returned? || p.loop.Unregistered?))
    && (p.loop.Stopping? && p.once.Finished? ==> p.waited || p.loop.late)
    && (p.loop.Returned? && p.loop.cancelled ==> p.waited || p.loop.late)
    && (p.loop.Unregistered? && p.loop.cancelled ==> p.waited || p.loop.late)
    && (p.loop.Stopping? ==> !p.once.Fresh?)
    && (p.loop.Unregistered? ==> !p.heartbeat)
    && ((p.loop.Returned? || p.loop.Unregistered?) && p.loop.late ==> p.loop.cancelled)
  }

  lemma {:induction false} ShutdownStep(p: PoolState, e: PoolEvent)
    requires Accounted(p) && ShutdownOk(p) && PoolReady(p, e)
    ensures ShutdownOk(PoolAfter(p, e))
  {
    if e.WaitReturns? {
      assert |p.execs| == 0;
    }
  }

  lemma {:induction false} AlwaysShutdownOk(d: B.Delays, id: WorkerId, capacity: nat, run: seq<PoolEvent>)
    requires PoolRun(d, id, capacity, run)
    ensures ShutdownOk(AfterAll(d, id, capacity, run).pool)
  {
    if run != [] {
      AlwaysShutdownOk(d, id, capacity, run[..|run| - 1]);
      AlwaysAccounted(d, id, capacity, run[..|run| - 1]);
      ShutdownStep(AfterAll(d, id, capacity, run[..|run| - 1]).pool, run[|run| - 1]);
    }
  }

  /**
    The loop leaves in one of three ways: cancelled, cancelled after another goroutine's Stop had already finished
    waiting (late), or because it noticed such a Stop without a cancellation. Only the first waits for the
    executors: at unregistration no executor is left, and a job still running under the pool is one whose outcome
    could not be stored or was refused in favour of another log; without replays nothing runs under it. The heartbeat
    has ended in all three.
    */
  lemma {:induction false} CancellationLeavesNothingRunning(d: B.Delays, id: WorkerId, capacity: nat,
                                                            run: seq<PoolEvent>, j: JobId)
    requires PoolRun(d, id, capacity, run) && AfterAll(d, id, capacity, run).pool.loop.Unregistered?
    ensures var s := AfterAll(d, id, capacity, run);
            && !s.pool.heartbeat && (s.pool.loop.late ==> s.pool.loop.cancelled)
            && (s.pool.loop.cancelled && !s.pool.loop.late ==>
                  && s.pool.execs == map[] && s.pool.wg == 0 && s.pool.sem == 0
                  && (RunsUnder(s.sys.db, j, id) ==> j in s.pool.lost || Rivalled(s.sys.db.logs, j))
                  && (NeverReplayed(run, j) && j !in s.pool.lost ==> !RunsUnder(s.sys.db, j, id)))
  {
    AlwaysShutdownOk(d, id, capacity, run);
    AlwaysJointInv(d, id, capacity, run);
    var s := AfterAll(d, id, capacity, run);
    if s.pool.loop.cancelled && !s.pool.loop.late {
      assert SlotHolders(s.pool.execs) == {};
      if RunsUnder(s.sys.db, j, id) {
        RunningJobsAreHeld(d, id, capacity, run, j);
        if NeverReplayed(run, j) && j !in s.pool.lost {
          UnreplayedJobsAreHeld(d, id, capacity, run, j);
        }
      }
    }
  }

  // ---- the pool and the protocol agree on what is in its hands ----

  function Carriers(execs: map<nat, Exec>, j: JobId): set<nat> {
    set x | x in execs && Carries(execs[x], j)
  }

  function LoopCarries(loop: Loop, j: JobId): nat {
    if (loop.Holding? && loop.j == j) || (loop.Counted? && loop.j == j) then 1 else 0
  }

  /** The dispatcher and the executors that carry job j. */
  function CarryCount(p: PoolState, j: JobId): nat {
    |Carriers(p.execs, j)| + LoopCarries(p.loop, j)
  }

  /** For each job, the attempts in the pool's hands are those its goroutines carry. */
  ghost predicate HandsMatch(s: Joint) {
    forall j :: s.sys.hands[Hold(s.pool.id, j)] == CarryCount(s.pool, j)
  }

  /** What an event adds to the pool's hands, or takes away. */
  function HandsChange(p: PoolState, e: PoolEvent, j: JobId): int
    requires PoolReady(p, e)
  {
    if e.FetchJob? then (if e.e.j == j then 1 else 0)
    else if e.Report? || e.ReportRefused? || e.ReportLost? then (if p.execs[e.x].j == j then -1 else 0)
    else 0
  }

  lemma {:induction false} CarriersAfterWrite(execs: map<nat, Exec>, x: nat, v: Exec, j: JobId)
    ensures |Carriers(execs[x := v], j)| ==
            |Carriers(execs, j)| + (if Carries(v, j) then 1 else 0)
            - (if x in execs && Carries(execs[x], j) then 1 else 0)
  {
    var rest := Carriers(execs, j) - {x};
    assert Carriers(execs[x := v], j) == if Carries(v, j) then rest + {x} else rest;
    assert Carriers(execs, j) == if x in execs && Carries(execs[x], j) then rest + {x} else rest;
  }

  /** Events of others leave the pool's hands alone. */
  lemma {:induction false} OthersKeepHands(s: Sys, p: PoolState, e: Event, j: JobId)
    requires s.delays.Valid() && Enabled(s, e) && !OwnEvent(p, e)
    ensures Apply(s, e).hands[Hold(p.id, j)] == s.hands[Hold(p.id, j)]
  {
  }

  lemma {:induction false} CarryStep(p: PoolState, e: PoolEvent, j: JobId)
    requires Accounted(p) && PoolReady(p, e)
    ensures CarryCount(PoolAfter(p, e), j) == CarryCount(p, j) + HandsChange(p, e, j)
  {
    match e
    case Spawn => CarriersAfterWrite(p.execs, p.spawned, Handling(p.loop.j), j);
    case HandlerReturns(x, outcome) => CarriersAfterWrite(p.execs, x, Finishing(p.execs[x].j, outcome), j);
    case Report(x, _) => CarriersAfterWrite(p.execs, x, Reported, j);
    case ReportRefused(x, _) => CarriersAfterWrite(p.execs, x, Reported, j);
    case ReportLost(x) => CarriersAfterWrite(p.execs, x, Reported, j);
    case ReleaseSlot(x) => CarriersAfterWrite(p.execs, x, Released, j);
    case ExecutorDone(x) => assert Carriers(p.execs - {x}, j) == Carriers(p.execs, j);
    case _ =>
  }

  lemma {:induction false} FetchTakes(s: Sys, e: Event)
    requires s.delays.Valid() && Enabled(s, e) && e.Fetch?
    ensures Apply(s, e).hands == s.hands + multiset{Hold(e.w, e.j)}
  {
  }

  lemma {:induction false} ReportGives(s: Sys, e: Event, h: Hold)
    requires s.delays.Valid() && Enabled(s, e)
    requires || e == Abandon(h.w, h.j) || (e.Succeed? && e.w == h.w && e.j == h.j)
             || (e.WorkerFail? && e.c.w == h.w && e.c.j == h.j)
    ensures h in s.hands && Apply(s, e).hands == s.hands - multiset{h}
  {
  }

  lemma {:induction false} HandsStep(s: Joint, e: PoolEvent, j: JobId)
    requires s.sys.delays.Valid() && CanDo(s, e)
    ensures Do(s, e).sys.hands[Hold(s.pool.id, j)] == s.sys.hands[Hold(s.pool.id, j)] + HandsChange(s.pool, e, j)
  {
    var p := s.pool;
    if e.FetchJob? {
      FetchTakes(s.sys, e.e);
    } else if e.Report? || e.ReportRefused? || e.ReportLost? {
      ReportGives(s.sys, StoreEvent(p, e).value, Hold(p.id, p.execs[e.x].j));
    } else if e.Other? || e.UnregisterNode? {
      OthersKeepHands(s.sys, p, StoreEvent(p, e).value, j);
    } else {
      assert StoreEvent(p, e).None?;
    }
  }

  lemma {:induction false} AlwaysHandsMatch(d: B.Delays, id: WorkerId, capacity: nat, run: seq<PoolEvent>)
    requires PoolRun(d, id, capacity, run)
    ensures HandsMatch(AfterAll(d, id, capacity, run))
  {
    if run != [] {
      var before := AfterAll(d, id, capacity, run[..|run| - 1]);
      AlwaysHandsMatch(d, id, capacity, run[..|run| - 1]);
      AlwaysAccounted(d, id, capacity, run[..|run| - 1]);
      forall j
        ensures var t := AfterAll(d, id, capacity, run); t.sys.hands[Hold(id, j)] == CarryCount(t.pool, j)
      {
        CarryStep(before.pool, run[|run| - 1], j);
        HandsStep(before, run[|run| - 1], j);
      }
    } else {
      assert forall j :: Carriers(map[], j) == {};
    }
  }

  /** In every interleaving an executor that has not reported still has its job in the protocol's sense. */
  lemma {:induction false} ExecutorsMayReport(d: B.Delays, id: WorkerId, capacity: nat, run: seq<PoolEvent>, x: nat,
                                              j: JobId)
    requires PoolRun(d, id, capacity, run)
    requires var p := AfterAll(d, id, capacity, run).pool; x in p.execs && Carries(p.execs[x], j)
    ensures Hold(id, j) in AfterAll(d, id, capacity, run).sys.hands
  {
    AlwaysHandsMatch(d, id, capacity, run);
    assert x in Carriers(AfterAll(d, id, capacity, run).pool.execs, j);
  }
}
