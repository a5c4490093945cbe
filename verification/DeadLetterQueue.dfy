/** Routing to the dead-letter queue and its administration. */
module DeadLetterQueue {
  import opened Domain
  import opened Tables
  import opened Store

  /** Marks the job dead-lettered and writes it back. */
  method Route(store: Store, job: Job, message: Option<string>, now: Time) returns (r: Result<()>)
    requires store.Valid()
    modifies store`jobs, job
    ensures store.Valid()
    ensures r.Ok? ==>
      && old(job.id) in old(store.jobs) && old(store.jobs[job.id].updatedAt) == old(job.updatedAt)
      && job.Row() == old(job.Row()).(status := DeadLetter, updatedAt := now,
           errorMessage := if message.Some? then message.value else "Unknown execution failure")
      && store.jobs == old(store.jobs)[job.id := Written(old(store.jobs)[job.id], job.Row(), now)]
    ensures r.Err? ==> store.jobs == old(store.jobs)
    ensures r.Err? && !store.faulty ==>
      old(job.id) in old(store.jobs) ==> old(store.jobs[job.id].updatedAt) != old(job.updatedAt)
  {
    job.status := DeadLetter;
    job.errorMessage := if message.Some? then message.value else "Unknown execution failure";
    r := store.UpdateJob(job, now);
  }

  predicate IsDead(jobs: map<JobId, JobRow>, id: JobId) {
    id in jobs && jobs[id].status == DeadLetter
  }

  predicate StillAt(jobs: map<JobId, JobRow>, id: JobId, version: Time) {
    id in jobs && jobs[id].updatedAt == version
  }

  /** The update writes the same columns whether or not the queue was set in memory. */
  lemma {:induction false} SameWrite(stored: JobRow, read: JobRow, target: string, t1: Time, t2: Time)
    ensures Written(stored, Requeued(read, Some(target), t1, read.updatedAt), t2)
            == Written(stored, ReplayedRow(read, t1, t2), t2)
    ensures Written(stored, ReplayedRow(read, t1, t2), t2)
            == stored.(status := Pending, retriesCount := 0, errorMessage := "", runAt := t1, updatedAt := t2)
  {
  }

  class DlqService {
    const store: Store

    constructor (store: Store)
      ensures this.store == store
    {
      this.store := store;
    }

    /**
      Sends a dead job back to pending. The read and the versioned write are separate statements, so `before`
      are the tables as others have left them when the write runs, and `read` is the row this call had read.
      */
    method Retry(id: JobId, t1: Time, t2: Time) returns (r: Result<()>, ghost read: JobRow, ghost before: DB)
      requires store.Ready()
      modifies store
      ensures store.Ready()
      ensures r.Err? ==> store.State() == before
      ensures !store.shared ==> before == old(store.State())
      ensures r.Err? && !store.faulty ==>
        !IsDead(old(store.jobs), id) || !StillAt(before.jobs, id, old(store.jobs)[id].updatedAt)
      ensures r.Ok? ==>
        && id in old(store.jobs) && read == old(store.jobs)[id] && read.status == DeadLetter
        && id in before.jobs && before.jobs[id].updatedAt == read.updatedAt
        && store.State() == before.(jobs := before.jobs[id := Written(before.jobs[id], ReplayedRow(read, t1, t2), t2)])
        && store.jobs == before.jobs[id := before.jobs[id].(status := Pending, retriesCount := 0, errorMessage := "",
                                                            runAt := t1, updatedAt := t2)]
    {
      read, before := *, store.State();
      var loaded := store.GetJob(id);
      if loaded.Err? {
        return Err(loaded.error), read, before;
      }
      var job := loaded.value;
      read := job.Row();
      if job.status != DeadLetter {
        return Err(Invalid), read, before;
      }
      job.status := Pending;
      job.retriesCount := 0;
      job.errorMessage := "";
      job.runAt := t1;
      assert job.Row() == ReplayedRow(read, t1, read.updatedAt);
      store.Yield();
      before := store.State();
      r := store.UpdateJob(job, t2);
    }

    /** Removes a dead job; the row is not checked again when the delete runs. */
    method Delete(id: JobId) returns (r: Result<()>, ghost before: DB)
      requires store.Ready()
      modifies store
      ensures store.Ready()
      ensures r.Err? ==> store.State() == before
      ensures !store.shared ==> before == old(store.State())
      ensures r.Err? && !store.faulty ==> !IsDead(old(store.jobs), id) || id !in before.jobs
      ensures r.Ok? ==>
        && id in old(store.jobs) && old(store.jobs)[id].status == DeadLetter
        && id in before.jobs && store.State() == Deleted(before, id) && store.jobs == before.jobs - {id}
    {
      before := store.State();
      var loaded := store.GetJob(id);
      if loaded.Err? {
        return Err(loaded.error), before;
      }
      if loaded.value.status != DeadLetter {
        return Err(Invalid), before;
      }
      store.Yield();
      before := store.State();
      r := store.DeleteJob(id);
    }

    /** Like Retry. The new queue is set in memory only: the update does not write that column. */
    method Restore(id: JobId, targetQueue: string, t1: Time, t2: Time)
      returns (r: Result<()>, ghost read: JobRow, ghost before: DB)
      requires store.Ready()
      modifies store
      ensures store.Ready()
      ensures r.Err? ==> store.State() == before
      ensures !store.shared ==> before == old(store.State())
      ensures r.Err? && !store.faulty ==>
        targetQueue == "" || !IsDead(old(store.jobs), id) || !StillAt(before.jobs, id, old(store.jobs)[id].updatedAt)
      ensures r.Ok? ==>
        && targetQueue != "" && id in old(store.jobs) && read == old(store.jobs)[id] && read.status == DeadLetter
        && id in before.jobs && before.jobs[id].updatedAt == read.updatedAt
        && store.State() == before.(jobs := before.jobs[id := Written(before.jobs[id], ReplayedRow(read, t1, t2), t2)])
        && store.jobs == before.jobs[id := before.jobs[id].(status := Pending, retriesCount := 0, errorMessage := "",
                                                            runAt := t1, updatedAt := t2)]
        && store.jobs[id].queue == before.jobs[id].queue
        && (store.jobs[id].queue == targetQueue <==> before.jobs[id].queue == targetQueue)
    {
      read, before := *, store.State();
      if targetQueue == "" {
        return Err(Invalid), read, before;
      }
      var loaded := store.GetJob(id);
      if loaded.Err? {
        return Err(loaded.error), read, before;
      }
      var job := loaded.value;
      read := job.Row();
      if job.status != DeadLetter {
        return Err(Invalid), read, before;
      }
      job.queue := targetQueue;
      job.status := Pending;
      job.retriesCount := 0;
      job.errorMessage := "";
      job.runAt := t1;
      assert job.Row() == Requeued(read, Some(targetQueue), t1, read.updatedAt);
      store.Yield();
      before := store.State();
      r := store.UpdateJob(job, t2);
      if r.Ok? {
        SameWrite(before.jobs[id], read, targetQueue, t1, t2);
      }
    }

    /** Dead-letter counts: exactly the queues that hold dead jobs, with their numbers. */
    method GetStats() returns (r: Result<map<string, int>>)
      requires store.Ready()
      ensures r.Err? ==> store.faulty
      ensures r.Ok? ==> forall q ::
        var n := |set j | j in store.jobs && store.jobs[j].queue == q && store.jobs[j].status == DeadLetter|;
        (q in r.value <==> n > 0) && (q in r.value ==> r.value[q] == n)
    {
      var stats := store.GetQueueStats();
      if stats.Err? {
        return Err(stats.error);
      }
      var dead: map<string, int> := map[];
      var left := stats.value.Keys;
      while left != {}
        invariant left <= stats.value.Keys
        invariant forall q :: q in dead <==>
          q in stats.value && q !in left && DeadLetter in stats.value[q] && stats.value[q][DeadLetter] > 0
        invariant forall q | q in dead :: dead[q] == stats.value[q][DeadLetter]
        decreases left
      {
        var q :| q in left;
        left := left - {q};
        if DeadLetter in stats.value[q] && stats.value[q][DeadLetter] > 0 {
          dead := dead[q := stats.value[q][DeadLetter]];
        }
      }
      assert forall q ::
        (q in stats.value && DeadLetter in stats.value[q]) <==> StatusCount(store.jobs, q, DeadLetter) > 0;
      return Ok(dead);
    }
  }
}
