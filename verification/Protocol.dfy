/**
  Interleavings of any number of workers, reclaimers and administrators over one database.
  A transaction is one event; everything the code does outside a transaction is split at each statement.
  A run is the list of its events: `After` replays it, `Feasible` says every event was possible.
*/
module Protocol {
  import opened Domain
  import opened Tables
  import B = Backoff

  /** Where one pass of ReclaimOrphanedJobs stands; `todo` is the rest of the list it read, current job first. */
  datatype Reclaimer =
    | Scanning(todo: seq<JobId>)
    | Inspecting(todo: seq<JobId>, worker: WorkerId)   // latest log read: the attempt names `worker`
    | Charging(todo: seq<JobId>, worker: WorkerId)     // judged stale; about to call HandleJobFailure

  /** A DLQ command between its read and its write. Retry and Restore write the same columns. */
  datatype Admin =
    | HoldsForReplay(read: JobRow)
    | HoldsForDelete(read: JobRow)

  /** A worker has job j in its hands: it fetched it and has neither reported on that attempt nor crashed. */
  datatype Hold = Hold(w: WorkerId, j: JobId)

  datatype Sys = Sys(
    delays: B.Delays,
    db: DB,
    now: Time,                         // latest clock reading used by any commit so far
    issued: set<JobId>,                // every job id handed out so far
    hands: multiset<Hold>,             // one entry per attempt under way
    reclaimers: map<nat, Reclaimer>,
    admins: map<nat, Admin>)

  function Start(delays: B.Delays): Sys {
    Sys(delays, EMPTY, 0, {}, multiset{}, map[], map[])
  }

  /** One HandleJobFailure transaction: its arguments, the latest log it saw, and its clock readings. */
  datatype Charge = Charge(j: JobId, w: WorkerId, latest: Option<int>, msg: string, outOfRange: int,
                           t1: Time, t2: Time, t3: Time, exhausted: bool)

  datatype Event =
    | Enqueue(row: JobRow)
    | Fetch(w: WorkerId, queue: string, j: JobId, logId: LogId, t1: Time, t2: Time)
    | Succeed(w: WorkerId, j: JobId, latest: Option<int>, t1: Time, t2: Time)
    | WorkerFail(c: Charge)
    | Abandon(w: WorkerId, j: JobId)   // its report was refused or could not be stored, or the worker crashed
    | Upsert(node: WorkerRow)
    | Unregister(w: WorkerId)
    | Prune(t: Time)
    | ListRunning(r: nat, ids: seq<JobId>)
    | ReadLogs(r: nat, latest: Option<int>)
    | ReadWorker(r: nat)
    | ReclaimFail(r: nat, c: Charge)
    | SkipJob(r: nat)                  // the call was refused, or a query failed
    | EndReclaim(r: nat)               // finished, aborted or crashed
    | AdminRead(a: nat, j: JobId, forDelete: bool)
    | AdminReplay(a: nat, j: JobId, target: Option<string>, t1: Time, t2: Time)   // target: Restore's queue
    | AdminDelete(a: nat, j: JobId)
    | AdminQuit(a: nat)                // version conflict, refusal or crash
    | Purge(gone: set<JobId>, cutoff: Time, t: Time)

  // ---- which events are possible ----

  predicate ChargeEnabled(s: Sys, c: Charge)
  {
    && FailureAccepted(s.db, c.j, c.w, c.latest, c.t3)
    && s.now <= c.t1 <= c.t2 <= c.t3
    && s.db.jobs[c.j].updatedAt < c.t2
    && c.exhausted == Exhausts(s.db.jobs[c.j])
  }

  ghost predicate Enabled(s: Sys, e: Event) {
    match e
    case Enqueue(row) =>
      IsNewJob(row) && row.id !in s.issued
    case Fetch(w, queue, j, logId, t1, t2) =>
      && w != "" && LogIdUnused(s.db.logs, logId)
      && s.now <= t1 <= t2
      && IsNext(s.db.jobs, queue, t1, j) && s.db.jobs[j].updatedAt < t1
    case Succeed(w, j, latest, t1, t2) =>
      && Hold(w, j) in s.hands
      && SuccessAccepted(s.db, j, w, latest, t2) && LatestIs(s.db.logs, j, latest)
      && s.now <= t1 <= t2 && s.db.jobs[j].updatedAt < t1
    case WorkerFail(c) =>
      && Hold(c.w, c.j) in s.hands
      && c.w != "" && ChargeEnabled(s, c) && LatestIs(s.db.logs, c.j, c.latest)
    case Abandon(w, j) => Hold(w, j) in s.hands
    case Upsert(node) =>
      node.id != "" && node.status != Stopped
    case Unregister(w) => true
    case Prune(t) => true
    case ListRunning(r, ids) =>
      r !in s.reclaimers && forall j | j in ids :: IsRunning(s.db, j)
    case ReadLogs(r, latest) =>
      && r in s.reclaimers && s.reclaimers[r].Scanning? && s.reclaimers[r].todo != []
      && LatestIs(s.db.logs, s.reclaimers[r].todo[0], latest)
    case ReadWorker(r) =>
      r in s.reclaimers && s.reclaimers[r].Inspecting?
    case ReclaimFail(r, c) =>
      && r in s.reclaimers && s.reclaimers[r].Charging? && s.reclaimers[r].todo != []
      && c.j == s.reclaimers[r].todo[0] && c.w == s.reclaimers[r].worker
      && ChargeEnabled(s, c) && LatestIs(s.db.logs, c.j, c.latest)
    case SkipJob(r) => r in s.reclaimers && s.reclaimers[r].todo != []
    case EndReclaim(r) => r in s.reclaimers
    case AdminRead(a, j, forDelete) =>
      a !in s.admins && j in s.db.jobs && s.db.jobs[j].status == DeadLetter
    case AdminReplay(a, j, target, t1, t2) =>
      && a in s.admins && s.admins[a].HoldsForReplay? && s.admins[a].read.id == j
      && j in s.db.jobs && s.db.jobs[j].updatedAt == s.admins[a].read.updatedAt
      && t1 <= t2 && s.db.jobs[j].updatedAt < t2
    case AdminDelete(a, j) =>
      && a in s.admins && s.admins[a].HoldsForDelete? && s.admins[a].read.id == j
      && j in s.db.jobs
    case AdminQuit(a) => a in s.admins
    case Purge(gone, cutoff, t) =>
      gone == set j | j in s.db.jobs && Purgeable(s.db.jobs[j], cutoff)
  }

  // ---- what they do ----

  /** Delay the retry engine computes for the failure of this row. */
  function DelayOf(s: Sys, c: Charge): Duration
    requires c.j in s.db.jobs && s.delays.Valid()
  {
    B.Calculate(s.delays, s.db.jobs[c.j].retriesCount + 1, c.outOfRange)
  }

  function ApplyCharge(s: Sys, c: Charge): Sys
    requires c.j in s.db.jobs && s.delays.Valid()
  {
    s.(db := Charged(s.db, c.j, c.w, c.latest, c.msg, DelayOf(s, c), c.t1, c.t2, c.t3), now := c.t3)
  }

  /** The worker is done with one attempt of j. */
  function LetGo(s: Sys, w: WorkerId, j: JobId): Sys {
    s.(hands := s.hands - multiset{Hold(w, j)})
  }

  function Apply(s: Sys, e: Event): Sys
    requires s.delays.Valid() && Enabled(s, e)
  {
    match e
    case Enqueue(row) =>
      s.(db := s.db.(jobs := s.db.jobs[row.id := row]), issued := s.issued + {row.id},
        now := Later(s.now, row.createdAt))
    case Fetch(w, queue, j, logId, t1, t2) =>
      s.(db := Fetched(s.db, j, w, logId, t1, t2), hands := s.hands + multiset{Hold(w, j)}, now := t2)
    case Succeed(w, j, latest, t1, t2) =>
      LetGo(s, w, j).(db := Succeeded(s.db, j, w, latest, t1, t2), now := t2)
    case WorkerFail(c) => LetGo(ApplyCharge(s, c), c.w, c.j)
    case Abandon(w, j) => LetGo(s, w, j)
    case Upsert(node) => s.(db := Upserted(s.db, node))
    case Unregister(w) => s.(db := Unregistered(s.db, w))
    case Prune(t) => s.(db := Pruned(s.db, t, STALE_AFTER), now := Later(s.now, t))
    case ListRunning(r, ids) => s.(reclaimers := s.reclaimers[r := Scanning(ids)])
    case ReadLogs(r, latest) =>
      var todo := s.reclaimers[r].todo;
      s.(reclaimers := s.reclaimers[r :=
        if latest.None? then Charging(todo, "") else Inspecting(todo, s.db.logs[latest.value].workerId)])
    case ReadWorker(r) =>
      var p := s.reclaimers[r];
      s.(reclaimers := s.reclaimers[r :=
        if DeadWorker(s.db.workers, p.worker) then Charging(p.todo, p.worker) else Scanning(Rest(p.todo))])
    case ReclaimFail(r, c) =>
      ApplyCharge(s, c).(reclaimers := s.reclaimers[r := Scanning(Rest(s.reclaimers[r].todo))])
    case SkipJob(r) => s.(reclaimers := s.reclaimers[r := Scanning(Rest(s.reclaimers[r].todo))])
    case EndReclaim(r) => s.(reclaimers := s.reclaimers - {r})
    case AdminRead(a, j, forDelete) =>
      s.(admins := s.admins[a := if forDelete then HoldsForDelete(s.db.jobs[j]) else HoldsForReplay(s.db.jobs[j])])
    case AdminReplay(a, j, target, t1, t2) =>
      var job := Requeued(s.admins[a].read, target, t1, t2);
      var written := Written(s.db.jobs[j], job, t2);
      s.(db := s.db.(jobs := s.db.jobs[j := written]), admins := s.admins - {a}, now := Later(s.now, t2))
    case AdminDelete(a, j) => s.(db := Deleted(s.db, j), admins := s.admins - {a})
    case AdminQuit(a) => s.(admins := s.admins - {a})
    case Purge(gone, cutoff, t) => s.(db := Purged(s.db, cutoff), now := Later(s.now, t))
  }

  function Later(a: Time, b: Time): Time {
    if a < b then b else a
  }

  function Rest(todo: seq<JobId>): seq<JobId> {
    if todo == [] then [] else todo[1..]
  }

  // ---- runs ----

  ghost predicate Feasible(d: B.Delays, run: seq<Event>)
    decreases |run|, 0
  {
    d.Valid() &&
    (run == [] ||
     (Feasible(d, run[..|run| - 1]) && Enabled(After(d, run[..|run| - 1]), run[|run| - 1])))
  }

  ghost function After(d: B.Delays, run: seq<Event>): (s: Sys)
    requires Feasible(d, run)
    ensures s.delays == d
    decreases |run|, 1
  {
    if run == [] then Start(d)
    else Apply(After(d, run[..|run| - 1]), run[|run| - 1])
  }

  /** Every prefix of a run is a run; event i leads from the state before it to the state after it. */
  lemma {:induction false} PrefixFeasible(d: B.Delays, run: seq<Event>, i: nat)
    requires Feasible(d, run) && i <= |run|
    ensures Feasible(d, run[..i])
    ensures i < |run| ==>
      && Feasible(d, run[..i + 1])
      && Enabled(After(d, run[..i]), run[i])
      && After(d, run[..i + 1]) == Apply(After(d, run[..i]), run[i])
    decreases |run| - i
  {
    if i == |run| {
      assert run[..i] == run;
    } else {
      PrefixFeasible(d, run, i + 1);
      var p := run[..i + 1];
      assert p[..|p| - 1] == run[..i];
      assert p[|p| - 1] == run[i];
    }
  }

  /** An event that can happen after a run makes it longer. */
  lemma {:induction false} Extended(d: B.Delays, run: seq<Event>, e: Event)
    requires Feasible(d, run) && Enabled(After(d, run), e)
    ensures Feasible(d, run + [e]) && After(d, run + [e]) == Apply(After(d, run), e)
  {
    var all := run + [e];
    assert all[..|all| - 1] == run && all[|all| - 1] == e;
  }

  /** The job whose failure the event commits, if it is one. */
  function ChargeOf(e: Event): Option<Charge> {
    match e
    case WorkerFail(c) => Some(c)
    case ReclaimFail(_, c) => Some(c)
    case _ => None
  }

  predicate IsChargeOf(e: Event, j: JobId) {
    ChargeOf(e).Some? && ChargeOf(e).value.j == j
  }
}
