/** The self-heal sweep over the jobs of a controller. */
module Watchdog {
  import opened MetricApi
  import opened JobHealth
  import opened ControllerSteps
  import opened ControllerSoundness
  import opened ControllerLoops
  import opened RemoteWriteController
  import opened RemoteWriteJobs

  /** The registered jobs that are stalled, in any order. */
  method StalledKeys(c: Controller, now: Time) returns (stalled: seq<Key>)
    requires c.Valid() && KeysOk(c.st)
    ensures ListsStalled(c.cfg, c.st, now, stalled)
  {
    stalled := [];
    var rest := c.jobs.Keys;
    while rest != {}
      invariant rest <= c.jobs.Keys && NoDuplicates(stalled)
      invariant forall k :: k in stalled <==> k in c.jobs && k !in rest && Stalled(c.cfg, c.jobs[k].Rec(), now)
      decreases rest
    {
      var key :| key in rest;
      var isStalled := c.IsJobStalledLocked(c.jobs[key], now);
      if isStalled {
        stalled := stalled + [key];
      }
      rest := rest - {key};
    }
    forall k | k in c.jobs
      ensures KeyOk(c.st, k) && c.jobs[k].Rec() == JobOf(c.st, k)
    {
      assert KeyOk(c.st, k);
    }
  }

  method RecreateStalledJob(c: Controller, key: Key, job: RemoteWriteJob, now: Time) returns (ghost at: Time)
    requires c.Valid() && key in c.jobs && c.jobs[key] == job && job.stopOpen
    requires KeyOk(c.st, key)
    modifies c`jobs, c`all, c`st, c`clock, job`stopOpen
    ensures c.Valid() && old(c.clock) <= at <= c.clock
    ensures c.st == Recreate(old(c.st), key, now, at)
    ensures fresh(c.Repr() - old(c.Repr()))
  {
    ghost var previous := c.st.jobs[key];
    assert job.Rec() == c.st.store[previous];
    var nextRecreateCount := job.recreateCount + 1;
    var carriedStalledSince, carriedHadHealthyTargets := job.stalledSince, job.lastHadTargets;
    var ok;
    ok, at := c.Restart(key, job, job.access);
    if ok {
      c.CarryForward(key, c.jobs[key], now, previous, nextRecreateCount, carriedStalledSince, carriedHadHealthyTargets);
    }
  }

  /** The two steps of the watchdog for a job whose stall has been recorded. */
  method EscalateOrRecreate(c: Controller, key: Key, job: RemoteWriteJob, now: Time)
    returns (exited: bool, ghost at: Time)
    requires c.Valid() && key in c.jobs && c.jobs[key] == job && job.stopOpen
    requires KeyOk(c.st, key) && job.Rec() == JobOf(c.st, key)
    modifies c, job`stopOpen
    ensures c.Valid() && old(c.clock) <= at && (exited || at <= c.clock)
    ensures Swept(c.st, exited) == Heal(c.cfg, old(c.st), key, now, at)
    ensures c.exitCodes == old(c.exitCodes) + if exited then [1] else []
    ensures fresh(c.Repr() - old(c.Repr()))
  {
    exited, at := false, c.clock;
    var escalate := c.ShouldEscalatePodRestart(job, now);
    if escalate {
      exited := c.TrySelfRestart(key, now);
    } else if job.lastHadTargets && (job.lastRecreateAt == 0 || now - job.lastRecreateAt >= c.cfg.Backoff()) {
      at := RecreateStalledJob(c, key, job, now);
    }
  }

  method HealStalledJob(c: Controller, key: Key, job: RemoteWriteJob, now: Time) returns (exited: bool, ghost at: Time)
    requires c.Valid() && key in c.jobs && c.jobs[key] == job && job.stopOpen
    requires KeyOk(c.st, key)
    modifies c, job
    ensures c.Valid() && old(c.clock) <= at && (exited || at <= c.clock)
    ensures Swept(c.st, exited) == SweepKey(c.cfg, old(c.st), key, now, at)
    ensures c.exitCodes == old(c.exitCodes) + if exited then [1] else []
    ensures fresh(c.Repr() - old(c.Repr()))
  {
    c.ObserveStall(key, job, now);
    assert c.Repr() == old(c.Repr());
    exited, at := EscalateOrRecreate(c, key, job, now);
  }

  /** Visits key i of the sweep. */
  method VisitStalledJob(c: Controller, ghost s: State, now: Time, keys: seq<Key>, ghost clk: seq<Time>, i: nat)
    returns (exited: bool, ghost at: Time)
    requires c.Valid() && Sound(c.st) && i < |keys| && Sweeping(c.cfg, s, c.st, now, keys, clk, i)
    modifies c, c.Repr()
    ensures c.Valid() && Sound(c.st) && old(c.clock) <= at && (exited || at <= c.clock)
    ensures Swept(c.st, exited) == SweepFrom(c.cfg, s, now, keys[..i + 1], clk + [at])
    ensures c.exitCodes == old(c.exitCodes) + if exited then [1] else []
    ensures fresh(c.Repr() - old(c.Repr()))
  {
    SweepReaches(c.cfg, s, c.st, now, keys, clk, i);
    StopKeepsSound(c.st, keys[i]);
    exited, at := HealStalledJob(c, keys[i], c.jobs[keys[i]], now);
    SweepKeyKeepsSound(c.cfg, old(c.st), keys[i], now, at);
    SweepNext(c.cfg, s, old(c.st), now, keys, clk, i, at);
  }

  /** The sweep. On an exit the readings are padded: the remaining keys are not visited. */
  method EvaluateSelfHeal(c: Controller, now: Time) returns (exited: bool, ghost keys: seq<Key>, ghost clk: seq<Time>)
    requires c.Valid() && Sound(c.st)
    modifies c, c.Repr()
    ensures c.Valid() && Sound(c.st)
    ensures ListsStalled(c.cfg, old(c.st), now, keys)
    ensures |clk| == |keys| && Readings(old(c.clock), clk)
    ensures Swept(c.st, exited) == SweepFrom(c.cfg, old(c.st), now, keys, clk)
    ensures c.exitCodes == old(c.exitCodes) + if exited then [1] else []
  {
    var stalledKeys := StalledKeys(c, now);
    keys, clk := stalledKeys, [];
    exited := false;
    for i := 0 to |stalledKeys|
      invariant c.Valid() && Sound(c.st) && fresh(c.Repr() - old(c.Repr()))
      invariant Sweeping(c.cfg, old(c.st), c.st, now, keys, clk, i)
      invariant c.exitCodes == old(c.exitCodes)
    {
      ghost var s := c.st;
      ghost var at;
      exited, at := VisitStalledJob(c, old(c.st), now, stalledKeys, clk, i);
      if exited {
        clk := SweepExits(c.cfg, old(c.st), s, now, keys, clk, i, at);
        return;
      }
      SweepGoesOn(c.cfg, old(c.st), s, now, keys, clk, i, at, c.st);
      clk := clk + [at];
    }
    assert keys[..|keys|] == keys;
  }
}
