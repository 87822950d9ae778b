/** Registrations stay sound: what stopping a job relies on. */
module ControllerSoundness {
  import opened MetricApi
  import opened JobHealth
  import opened ControllerSteps

  /** Registrations are sound, and a stop channel is open exactly while registered. */
  predicate Sound(s: State) {
    && KeysOk(s)
    && forall id: nat :: id < |s.store| ==> (s.store[id].stopOpen <==> Live(s, id))
  }

  lemma CreateKeepsSound(s: State, ma: MetricAccess, at: Time)
    requires Sound(s) && Collectable(ma) && KeyOf(ma) !in s.jobs
    ensures Sound(CreateJob(s, ma, at))
  {
    var s' := CreateJob(s, ma, at);
    forall k | k in s'.jobs
      ensures KeyOk(s', k)
    {
      if k != KeyOf(ma) {
        assert KeyOk(s, k);
      }
    }
    forall id: nat | id < |s'.store|
      ensures s'.store[id].stopOpen <==> Live(s', id)
    {
      if id < |s.store| {
        assert s.store[id].stopOpen <==> Live(s, id);
        if KeyOf(s.store[id].access) != KeyOf(ma) {
          assert Live(s, id) == Live(s', id);
        }
      }
    }
  }

  lemma StopKeepsSound(s: State, key: Key)
    requires Sound(s) && key in s.jobs && KeyOk(s, key)
    ensures Sound(StopJob(s, key))
    ensures s.store[s.jobs[key]].stopOpen
  {
    var s' := StopJob(s, key);
    var dead := s.jobs[key];
    assert Live(s, dead);
    forall k | k in s'.jobs
      ensures KeyOk(s', k)
    {
      assert KeyOk(s, k);
    }
    forall id: nat | id < |s'.store|
      ensures s'.store[id].stopOpen <==> Live(s', id)
    {
      assert s.store[id].stopOpen <==> Live(s, id);
    }
  }

  /** s' is s with struct id rewritten and one entry added. */
  ghost predicate Rewrites(s: State, s': State, id: nat, e: Entry) {
    && id < |s.store|
    && |s'.store| == |s.store|
    && (forall i: nat :: i < |s.store| && i != id ==> s'.store[i] == s.store[i])
    && s'.store[id].access == s.store[id].access
    && s'.store[id].stopOpen == s.store[id].stopOpen
    && s'.jobs == s.jobs
    && s.clock <= s'.clock
    && s'.isLeader == s.isLeader
    && s'.lastSelfRestartAt == s.lastSelfRestartAt
    && s'.selfRestartTotal == s.selfRestartTotal
    && s'.log == s.log + [e]
  }

  lemma RewriteKeepsSound(s: State, s': State, id: nat, e: Entry)
    requires Sound(s) && Rewrites(s, s', id, e)
    ensures Sound(s')
  {
    forall k | k in s'.jobs
      ensures KeyOk(s', k)
    {
      assert KeyOk(s, k);
    }
    forall i: nat | i < |s'.store|
      ensures s'.store[i].stopOpen <==> Live(s', i)
    {
      assert s.store[i].stopOpen <==> Live(s, i);
    }
  }

  lemma RunKeepsSound(s: State, id: nat, wall: Time)
    requires Sound(s) && id < |s.store|
    ensures Sound(RecordRun(s, id, wall))
  {}

  lemma AppendKeepsSound(s: State, s': State)
    requires Sound(s) && s'.store == s.store && s'.jobs == s.jobs
    ensures Sound(s')
  {}

  lemma ReconcileItemKeepsSound(s: State, ma: MetricAccess, at: Time)
    requires Sound(s)
    ensures Sound(ReconcileItem(s, ma, at))
  {
    var key := KeyOf(ma);
    if WantsJob(ma) {
      if key in s.jobs {
        assert KeyOk(s, key);
        if ConfigChanged(JobOf(s, key).access, ma) {
          StopKeepsSound(s, key);
          if Collectable(ma) {
            CreateKeepsSound(StopJob(s, key), ma, at);
          }
        }
      } else if Collectable(ma) {
        CreateKeepsSound(s, ma, at);
      }
    }
  }

  lemma SeedKeepsSound(s: State, key: Key, now: Time)
    requires Sound(s) && key in s.jobs && KeyOk(s, key)
    ensures Sound(SeedStall(s, key, now)) && KeyOk(SeedStall(s, key, now), key)
  {
    var s' := SeedStall(s, key, now);
    if s.store[s.jobs[key]].stalledSince == 0 {
      RewriteKeepsSound(s, s', s.jobs[key], SeenStalled(s.jobs[key], key, now));
    }
  }

  lemma CarryKeepsSound(s: State, key: Key, previous: nat, now: Time)
    requires Sound(s) && key in s.jobs && KeyOk(s, key) && previous < |s.store|
    ensures Sound(Carry(s, key, previous, now))
  {
    RewriteKeepsSound(s, Carry(s, key, previous, now), s.jobs[key], Recreated(s.jobs[key], key, previous, now));
  }

  lemma RecreateKeepsSound(s: State, key: Key, now: Time, at: Time)
    requires Sound(s) && key in s.jobs && KeyOk(s, key)
    ensures Sound(Recreate(s, key, now, at))
  {
    StopKeepsSound(s, key);
    var ma := JobOf(s, key).access;
    CreateKeepsSound(StopJob(s, key), ma, at);
    var s2 := CreateJob(StopJob(s, key), ma, at);
    assert KeyOk(s2, key);
    CarryKeepsSound(s2, key, s.jobs[key], now);
  }

  lemma SweepKeyKeepsSound(cfg: Config, s: State, key: Key, now: Time, at: Time)
    requires Sound(s) && key in s.jobs && KeyOk(s, key)
    ensures Sound(SweepKey(cfg, s, key, now, at).state)
  {
    var s1 := SeedStall(s, key, now);
    SeedKeepsSound(s, key, now);
    RecreateKeepsSound(s1, key, now, at);
    if Escalates(cfg, s.isLeader, JobOf(s1, key), now) && CooldownOpen(cfg, s1, now) {
      AppendKeepsSound(s1, Exit(s1, key, now));
    }
  }
}
