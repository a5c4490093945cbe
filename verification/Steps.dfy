/** Several events in a row, from any state, and the events of one reclaimer. */
module Steps {
  import opened Domain
  import opened Tables
  import opened Protocol
  import opened Invariants
  import B = Backoff

  // ---- several events in a row ----

  ghost predicate Goes(s: Sys, e: Event, t: Sys) {
    s.delays.Valid() && Enabled(s, e) && t == Apply(s, e)
  }

  ghost predicate Joins(path: seq<Sys>, es: seq<Event>) {
    |path| == |es| + 1 && forall i | 0 <= i < |es| :: Goes(path[i], es[i], path[i + 1])
  }

  /** From s the events es can happen one after the other, and the last one leads to t. */
  ghost predicate Leads(s: Sys, es: seq<Event>, t: Sys) {
    exists path :: Joins(path, es) && path[0] == s && path[|es|] == t
  }

  lemma {:induction false} NoEvents(s: Sys)
    ensures Leads(s, [], s)
  {
    assert Joins([s], []);
  }

  lemma {:induction false} OneEvent(s: Sys, e: Event)
    requires s.delays.Valid() && Enabled(s, e)
    ensures Leads(s, [e], Apply(s, e))
  {
    assert Joins([s, Apply(s, e)], [e]);
  }

  lemma {:induction false} ThenAll(s: Sys, es: seq<Event>, t: Sys, fs: seq<Event>, u: Sys)
    requires Leads(s, es, t) && Leads(t, fs, u)
    ensures Leads(s, es + fs, u)
  {
    var p :| Joins(p, es) && p[0] == s && p[|es|] == t;
    var q :| Joins(q, fs) && q[0] == t && q[|fs|] == u;
    var all, path := es + fs, p + q[1..];
    forall i | 0 <= i < |all|
      ensures Goes(path[i], all[i], path[i + 1])
    {
      if i < |es| {
        assert path[i] == p[i] && path[i + 1] == p[i + 1];
      } else {
        assert path[i] == q[i - |es|] && path[i + 1] == q[i + 1 - |es|];
      }
    }
    assert Joins(path, all);
  }

  lemma {:induction false} ThenThree(s: Sys, es: seq<Event>, t: Sys, fs: seq<Event>, u: Sys, gs: seq<Event>, v: Sys)
    requires Leads(s, es, t) && Leads(t, fs, u) && Leads(u, gs, v)
    ensures Leads(s, es + fs + gs, v)
  {
    ThenAll(s, es, t, fs, u);
    ThenAll(s, es + fs, u, gs, v);
  }

  /** From a state of a run, events that can follow make a longer run. */
  lemma {:induction false} LengthensTheRun(d: B.Delays, run: seq<Event>, es: seq<Event>, t: Sys)
    requires Feasible(d, run) && Leads(After(d, run), es, t)
    ensures Feasible(d, run + es) && After(d, run + es) == t
  {
    var path :| Joins(path, es) && path[0] == After(d, run) && path[|es|] == t;
    Along(d, run, es, path, |es|);
    assert es[..|es|] == es;
  }

  lemma {:induction false} Along(d: B.Delays, run: seq<Event>, es: seq<Event>, path: seq<Sys>, n: nat)
    requires Feasible(d, run) && Joins(path, es) && path[0] == After(d, run) && n <= |es|
    ensures Feasible(d, run + es[..n]) && After(d, run + es[..n]) == path[n]
  {
    if n == 0 {
      assert run + es[..0] == run;
    } else {
      Along(d, run, es, path, n - 1);
      OneFurther(d, run, es, path, n - 1);
    }
  }

  lemma {:induction false} OneFurther(d: B.Delays, run: seq<Event>, es: seq<Event>, path: seq<Sys>, n: nat)
    requires Joins(path, es) && n < |es|
    requires Feasible(d, run + es[..n]) && After(d, run + es[..n]) == path[n]
    ensures Feasible(d, run + es[..n + 1]) && After(d, run + es[..n + 1]) == path[n + 1]
  {
    assert Goes(path[n], es[n], path[n + 1]);
    Extended(d, run + es[..n], es[n]);
    assert run + es[..n + 1] == run + es[..n] + [es[n]];
  }

  // ---- a reclaimer ----

  /** The reclaimer has dealt with the current job and moved on. */
  function MovedOn(s: Sys, r: nat): Sys
    requires r in s.reclaimers
  {
    s.(reclaimers := s.reclaimers[r := Scanning(Rest(s.reclaimers[r].todo))])
  }

  lemma {:induction false} SameMove(s: Sys, r: nat, p: Reclaimer)
    requires r in s.reclaimers && p.todo == s.reclaimers[r].todo
    ensures var s2 := s.(reclaimers := s.reclaimers[r := p]);
            s2.reclaimers[r] == p && MovedOn(s2, r) == MovedOn(s, r)
  {
    assert s.reclaimers[r := p][r := Scanning(Rest(p.todo))] == s.reclaimers[r := Scanning(Rest(p.todo))];
  }

  /** Prune and list. */
  lemma {:induction false} OpeningOfAPass(s: Sys, r: nat, listed: seq<JobId>, t: Time) returns (s2: Sys)
    requires Inv(s) && r !in s.reclaimers && s.now <= t
    requires forall i | 0 <= i < |listed| :: IsRunning(s.db, listed[i])
    ensures Leads(s, [Prune(t), ListRunning(r, listed)], s2) && Inv(s2)
    ensures s2 == s.(db := Pruned(s.db, t, STALE_AFTER), now := t, reclaimers := s.reclaimers[r := Scanning(listed)])
  {
    var e1, e2 := Prune(t), ListRunning(r, listed);
    OneEvent(s, e1);
    EnvironmentStepKeeps(s, e1);
    var s1 := Apply(s, e1);
    OneEvent(s1, e2);
    ReclaimerStepKeeps(s1, e2);
    s2 := Apply(s1, e2);
    ThenAll(s, [e1], s1, [e2], s2);
    assert [e1] + [e2] == [e1, e2];
  }

  /** The first read: the attempt of the latest log names the worker to look up. */
  lemma {:induction false} LogsAreRead(s: Sys, r: nat, j: JobId, k: int) returns (t: Sys)
    requires Inv(s) && r in s.reclaimers && s.reclaimers[r].Scanning?
    requires s.reclaimers[r].todo != [] && s.reclaimers[r].todo[0] == j && IsLatest(s.db.logs, j, k)
    ensures Leads(s, [ReadLogs(r, Some(k))], t) && Inv(t)
    ensures t == s.(reclaimers := s.reclaimers[r := Inspecting(s.reclaimers[r].todo, s.db.logs[k].workerId)])
  {
    var e := ReadLogs(r, Some(k));
    OneEvent(s, e);
    ReclaimerStepKeeps(s, e);
    t := Apply(s, e);
  }

  /** The second read: the reclaimer moves on, or holds the name of a dead worker. */
  lemma {:induction false} WorkerIsRead(s: Sys, r: nat) returns (t: Sys)
    requires Inv(s) && r in s.reclaimers && s.reclaimers[r].Inspecting?
    ensures Leads(s, [ReadWorker(r)], t) && Inv(t)
    ensures var p := s.reclaimers[r];
            t == if DeadWorker(s.db.workers, p.worker)
                 then s.(reclaimers := s.reclaimers[r := Charging(p.todo, p.worker)])
                 else MovedOn(s, r)
  {
    OneEvent(s, ReadWorker(r));
    ReclaimerStepKeeps(s, ReadWorker(r));
    t := Apply(s, ReadWorker(r));
  }

  lemma {:induction false} WorkerIsLookedUp(s: Sys, r: nat, j: JobId, k: int) returns (t: Sys)
    requires Inv(s) && r in s.reclaimers && s.reclaimers[r].Scanning?
    requires s.reclaimers[r].todo != [] && s.reclaimers[r].todo[0] == j && IsLatest(s.db.logs, j, k)
    ensures Leads(s, [ReadLogs(r, Some(k)), ReadWorker(r)], t) && Inv(t)
    ensures var owner := s.db.logs[k].workerId;
            t == if DeadWorker(s.db.workers, owner)
                 then s.(reclaimers := s.reclaimers[r := Charging(s.reclaimers[r].todo, owner)])
                 else MovedOn(s, r)
  {
    var s1 := LogsAreRead(s, r, j, k);
    t := WorkerIsRead(s1, r);
    ThenAll(s, [ReadLogs(r, Some(k))], s1, [ReadWorker(r)], t);
    assert [ReadLogs(r, Some(k))] + [ReadWorker(r)] == [ReadLogs(r, Some(k)), ReadWorker(r)];
  }

  /** The failure call of a reclaimer that has judged the job's worker dead, when the latest log is still open. */
  lemma {:induction false} JobIsCharged(s: Sys, r: nat, j: JobId, k: int, msg: string, outOfRange: int, t1: Time,
                                        t2: Time, t3: Time) returns (e: Event, t: Sys)
    requires Inv(s) && r in s.reclaimers && s.reclaimers[r].todo != [] && s.reclaimers[r].todo[0] == j
    requires IsRunning(s.db, j) && IsLatest(s.db.logs, j, k) && IsOpen(s.db.logs, k, j)
    requires s.reclaimers[r] == Charging(s.reclaimers[r].todo, s.db.logs[k].workerId)
    requires s.now <= t1 <= t2 <= t3 && s.db.jobs[j].updatedAt < t2
    ensures e.ReclaimFail? && e.r == r && e.c.j == j && Leads(s, [e], t) && Inv(t)
    ensures t == MovedOn(s, r).(db := Charged(s.db, j, s.db.logs[k].workerId, Some(k), msg,
                                  B.Calculate(s.delays, s.db.jobs[j].retriesCount + 1, outOfRange), t1, t2, t3),
                                now := t3)
  {
    assert s.db.logs[k].startedAt <= s.now;
    e := ReclaimFail(r, Charge(j, s.db.logs[k].workerId, Some(k), msg, outOfRange, t1, t2, t3, Exhausts(s.db.jobs[j])));
    OneEvent(s, e);
    ReclaimFailKeeps(s, e);
    t := Apply(s, e);
  }

  lemma {:induction false} EndOfAPass(rest: map<nat, Reclaimer>, r: nat, p: Reclaimer, t: Sys) returns (u: Sys)
    requires Inv(t) && r !in rest && t.reclaimers == rest[r := p]
    ensures Leads(t, [EndReclaim(r)], u) && Inv(u) && u == t.(reclaimers := rest)
  {
    OneEvent(t, EndReclaim(r));
    ReclaimerStepKeeps(t, EndReclaim(r));
    assert rest[r := p] - {r} == rest;
    u := Apply(t, EndReclaim(r));
  }
}
