/** One turn of the polling loop and one executor, as code over the service; Pool gives their interleavings. */
module WorkerPool {
  import opened Domain
  import opened Tables
  import opened Queries
  import opened Service
  import opened Pool
  import B = Backoff

  class WorkerPool {
    const id: WorkerId
    const queue: string
    const capacity: nat
    const svc: JobService
    const node: Worker
    var sem: nat    // tokens in the semaphore channel
    var wg: nat     // WaitGroup counter

    constructor (svc: JobService, node: Worker, queue: string, capacity: nat)
      ensures sem == 0 && wg == 0 && this.capacity == capacity && this.svc == svc && this.node == node
      ensures Registered() && id == node.id && this.queue == if queue == "" then "default" else queue
    {
      this.svc, this.node, this.id, this.capacity := svc, node, node.id, capacity;
      this.queue := if queue == "" then "default" else queue;
      sem, wg := 0, 0;
    }

    /** The node registered for this pool carries its id. */
    predicate Registered() {
      node.id == id
    }

    /** The tables are `db`, but for the registration of this node, which may have been refreshed. */
    ghost predicate UpToRegistration(db: DB)
      reads svc.store, node
    {
      svc.store.State() == db || svc.store.State() == Upserted(db, node.Row())
    }

    /**
      Takes a slot if one is free and polls; the slot is given back at once when there is no job. `fetched` are the
      tables after the fetch, and `met` those that others have left when the registration is refreshed.
      */
    method PollAndDispatch(logId: LogId, t1: Time, t2: Time, t3: Time)
      returns (job: Job?, ghost fetched: DB, ghost met: DB)
      requires Registered() && svc.Ready() && sem <= capacity
      modifies this, node, svc.store
      ensures svc.Ready() && sem <= capacity
      ensures job == null ==> sem == old(sem) && wg == old(wg) && svc.store.State() == old(svc.store.State())
      ensures old(sem) == capacity ==> job == null
      ensures job == null && old(sem) < capacity ==>
        || NoneEligible(svc.store.jobs, queue, t1) || svc.store.faulty
        || id == "" || !LogIdUnused(svc.store.logs, logId)
        || (exists j :: j in svc.store.jobs && (svc.store.jobs[j].retriesCount < 0 || j == ""))
      ensures job != null ==>
        && sem == old(sem) + 1 && wg == old(wg) + 1 && fresh(job)
        && LogIdUnused(old(svc.store.logs), logId)
        && IsNext(old(svc.store.jobs), queue, t1, job.id)
        && fetched == Fetched(old(svc.store.State()), job.id, id, logId, t1, t2) && UpToRegistration(met)
        && job.Row() == fetched.jobs[job.id] && job.status == Running && node.status == Active
      ensures !svc.store.shared ==> met == fetched
      ensures job != null && old(node.status) == Active ==> svc.store.State() == met && node.Row() == old(node.Row())
      ensures job != null && old(node.status) != Active ==>
        && node.Row() == old(node.Row()).(status := Active, lastHeartbeat := t3)
        && (svc.store.State() == Upserted(met, node.Row()) || (svc.store.faulty && svc.store.State() == met))
    {
      job, fetched, met := null, svc.store.State(), svc.store.State();
      if sem < capacity {
        sem := sem + 1;
        var polled := svc.FetchNextJob(queue, id, logId, t1, t2);
        if polled.Err? {
          sem := sem - 1;
          return;
        }
        if polled.value.None? {
          sem := sem - 1;
          return;
        }
        job := polled.value.value;
        fetched := svc.store.State();
        svc.store.Yield();
        met := svc.store.State();
        if node.status != Active {
          node.SetStatus(Active, t3);
          var _ := svc.store.Upsert(node);
        }
        wg := wg + 1;
      }
    }

    /** The loop's case for a wake-up: it is taken from the channel, and one poll follows. */
    method OnWakeUp(logId: LogId, t1: Time, t2: Time, t3: Time) returns (job: Job?, ghost fetched: DB, ghost met: DB)
      requires Registered() && svc.Ready() && sem <= capacity && svc.sched.buffered == 1
      modifies this, node, svc.store, svc.sched
      ensures svc.Ready() && sem <= capacity && svc.sched.buffered == 0
      ensures job == null ==> sem == old(sem) && wg == old(wg) && svc.store.State() == old(svc.store.State())
      ensures job == null && old(sem) < capacity && !svc.store.faulty ==>
        || NoneEligible(svc.store.jobs, queue, t1) || id == "" || !LogIdUnused(svc.store.logs, logId)
        || (exists j :: j in svc.store.jobs && (svc.store.jobs[j].retriesCount < 0 || j == ""))
      ensures job != null ==>
        && IsNext(old(svc.store.jobs), queue, t1, job.id)
        && fetched == Fetched(old(svc.store.State()), job.id, id, logId, t1, t2) && UpToRegistration(met)
        && sem == old(sem) + 1 && wg == old(wg) + 1
    {
      var _ := svc.sched.Receive();
      job, fetched, met := PollAndDispatch(logId, t1, t2, t3);
    }

    /**
      Stores the outcome of a handler that returned, failed or panicked, then gives back the slot and the
      WaitGroup count, exactly once in every case. `stored` are the tables once the outcome has been reported, and
      `met` those that others have left when the registration is refreshed.
      */
    method ExecuteWorker(job: Job, outcome: Outcome, message: string, outOfRange: int,
                         t1: Time, t2: Time, t3: Time) returns (ghost stored: DB, ghost met: DB)
      requires Registered() && svc.Ready() && sem > 0 && wg > 0 && job.status == Running
      modifies this, node, job, svc.store
      ensures svc.Ready() && sem == old(sem) - 1 && wg == old(wg) - 1 && UpToRegistration(met)
      ensures !svc.store.shared ==> met == stored
      ensures if old(sem) == 1 && old(node.status) != Idle then
          && node.Row() == old(node.Row()).(status := Idle, lastHeartbeat := t3)
          && (svc.store.State() == Upserted(met, node.Row()) || (svc.store.faulty && svc.store.State() == met))
        else node.Row() == old(node.Row()) && svc.store.State() == met
      ensures OutcomeReported(old(svc.store.State()), old(job.id), outcome, message, outOfRange, t1, t2, t3, stored)
      ensures var j, jobs := old(job.id), old(svc.store.jobs);
        || stored == old(svc.store.State())
        || (&& j in jobs && jobs[j].status == Running && j in stored.jobs
            && if outcome == Succeeds then stored.jobs[j].status == Completed && stored.jobs[j].errorMessage == ""
               else && stored.jobs[j].status in {Pending, DeadLetter} && stored.jobs[j].errorMessage == message
                    && stored.jobs[j].retriesCount == jobs[j].retriesCount + 1)
    {
      StoreOutcome(job, outcome, message, outOfRange, t1, t2, t3);
      stored := svc.store.State();
      svc.store.Yield();
      met := svc.store.State();
      sem := sem - 1;
      wg := wg - 1;
      if sem == 0 && node.status != Idle {
        node.SetStatus(Idle, t3);
        var _ := svc.store.Upsert(node);
      }
    }

    /** The store takes the outcome: the job still runs and, for a failure, its latest log is this pool's and open. */
    predicate OutcomeAccepted(db: DB, j: JobId, outcome: Outcome, t2: Time, t3: Time) {
      var latest := LatestOf(db.logs, j);
      if outcome.Succeeds? then SuccessAccepted(db, j, id, latest, t2) else FailureAccepted(db, j, id, latest, t3)
    }

    /** The transition the report asks for. */
    function OutcomeStored(db: DB, j: JobId, outcome: Outcome, message: string, outOfRange: int,
                           t1: Time, t2: Time, t3: Time): DB
      requires j in db.jobs && svc.engine.delays.Valid()
    {
      var latest := LatestOf(db.logs, j);
      if outcome.Succeeds? then Succeeded(db, j, id, latest, t1, t2)
      else Charged(db, j, id, latest, message,
                   B.Calculate(svc.engine.delays, db.jobs[j].retriesCount + 1, outOfRange), t1, t2, t3)
    }

    /** What the executor reported is stored when it is accepted; refused, or on a fault, nothing is. */
    ghost predicate OutcomeReported(db: DB, j: JobId, outcome: Outcome, message: string, outOfRange: int,
                                    t1: Time, t2: Time, t3: Time, stored: DB)
      requires svc.engine.delays.Valid()
    {
      if OutcomeAccepted(db, j, outcome, t2, t3)
      then || stored == OutcomeStored(db, j, outcome, message, outOfRange, t1, t2, t3)
           || (svc.store.faulty && stored == db)
      else stored == db
    }

    method StoreOutcome(job: Job, outcome: Outcome, message: string, outOfRange: int, t1: Time, t2: Time, t3: Time)
      requires svc.Ready() && job.status == Running
      modifies job, svc.store
      ensures svc.Ready()
      ensures OutcomeReported(old(svc.store.State()), old(job.id), outcome, message, outOfRange, t1, t2, t3,
                              svc.store.State())
      ensures var j, jobs, after := old(job.id), old(svc.store.jobs), svc.store.jobs;
        || svc.store.State() == old(svc.store.State())
        || (&& j in jobs && jobs[j].status == Running && j in after
            && if outcome == Succeeds then after[j].status == Completed && after[j].errorMessage == ""
               else && after[j].status in {Pending, DeadLetter} && after[j].errorMessage == message
                    && after[j].retriesCount == jobs[j].retriesCount + 1)
    {
      if outcome.Succeeds? {
        var _ := svc.HandleJobSuccess(job, id, t1, t2);
      } else {
        var _ := svc.HandleJobFailure(job, id, Some(message), outOfRange, t1, t2, t3);
      }
    }
  }
}
