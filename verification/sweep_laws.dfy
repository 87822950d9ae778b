/** A sweep, whatever the order in which it visits the stalled jobs. */
module SweepLaws {
  import opened MetricApi
  import opened JobHealth
  import opened ControllerSteps

  /** What a sweep that does not exit makes of one registered job. */
  function SweptJob(cfg: Config, isLeader: bool, j: Job, now: Time, at: Time): Job {
    if !Stalled(cfg, j, now) then j
    else
      var seeded := Seed(j, now);
      if Escalates(cfg, isLeader, j, now) || !j.lastHadTargets || Throttled(cfg, j, now) then seeded
      else Successor(seeded, now, at)
  }

  /** The job of a key calls for a restart, cooldown apart. */
  predicate Due(cfg: Config, s: State, key: Key, now: Time)
    requires key in s.jobs && s.jobs[key] < |s.store|
  {
    Stalled(cfg, JobOf(s, key), now) && Escalates(cfg, s.isLeader, JobOf(s, key), now)
  }

  /** Seeding the stall start now does not make a job due: the restart grace is positive. */
  lemma SeedIsNotDue(cfg: Config, isLeader: bool, j: Job, now: Time)
    ensures Escalates(cfg, isLeader, Seed(j, now), now) == Escalates(cfg, isLeader, j, now)
  {}

  predicate SweepReady(cfg: Config, s: State, now: Time, keys: seq<Key>, clk: seq<Time>) {
    && KeysOk(s)
    && |keys| == |clk|
    && NoDuplicates(keys)
    && forall k :: k in keys ==> k in s.jobs && KeyOk(s, k) && Stalled(cfg, JobOf(s, k), now)
  }

  lemma RecreateShape(s: State, key: Key, now: Time, at: Time)
    requires key in s.jobs && KeyOk(s, key)
    ensures var s' := Recreate(s, key, now, at);
      && s'.jobs == s.jobs[key := |s.store|]
      && |s'.store| == |s.store| + 1
      && s'.store[|s.store|] == Successor(JobOf(s, key), now, at)
      && (forall id: nat :: id < |s.store| && id != s.jobs[key] ==> s'.store[id] == s.store[id])
      && s'.isLeader == s.isLeader
      && s'.selfRestartTotal == s.selfRestartTotal
      && s'.lastSelfRestartAt == s.lastSelfRestartAt
  {}

  lemma SweepOneExit(cfg: Config, s: State, key: Key, now: Time, at: Time)
    requires key in s.jobs && KeyOk(s, key) && Stalled(cfg, JobOf(s, key), now)
    ensures var r := SweepKey(cfg, s, key, now, at);
      && (r.exited <==> CooldownOpen(cfg, s, now) && Due(cfg, s, key, now))
      && r.state.isLeader == s.isLeader
      && (r.exited ==> r.state.selfRestartTotal == s.selfRestartTotal + 1 && r.state.lastSelfRestartAt == now)
      && (!r.exited ==>
            && r.state.selfRestartTotal == s.selfRestartTotal
            && r.state.lastSelfRestartAt == s.lastSelfRestartAt)
  {
    SeedIsNotDue(cfg, s.isLeader, JobOf(s, key), now);
    RecreateShape(SeedStall(s, key, now), key, now, at);
  }

  lemma SweepOneJob(cfg: Config, s: State, key: Key, now: Time, at: Time)
    requires key in s.jobs && KeyOk(s, key) && Stalled(cfg, JobOf(s, key), now)
    requires !SweepKey(cfg, s, key, now, at).exited
    ensures var s' := SweepKey(cfg, s, key, now, at).state;
      && KeyOk(s', key)
      && JobOf(s', key) == SweptJob(cfg, s.isLeader, JobOf(s, key), now, at)
  {
    SeedIsNotDue(cfg, s.isLeader, JobOf(s, key), now);
    RecreateShape(SeedStall(s, key, now), key, now, at);
  }

  lemma SweepOther(cfg: Config, s: State, key: Key, now: Time, at: Time, k: Key)
    requires key in s.jobs && KeyOk(s, key) && k in s.jobs && KeyOk(s, k) && k != key
    ensures var s' := SweepKey(cfg, s, key, now, at).state;
      k in s'.jobs && KeyOk(s', k) && JobOf(s', k) == JobOf(s, k)
  {
    var s1 := SeedStall(s, key, now);
    assert s1.jobs == s.jobs && JobOf(s1, k) == JobOf(s, k);
    RecreateShape(s1, key, now, at);
  }

  lemma SweepIsReady(cfg: Config, s: State, now: Time, keys: seq<Key>, clk: seq<Time>)
    requires KeysOk(s) && |keys| == |clk| && ListsStalled(cfg, s, now, keys)
    ensures SweepReady(cfg, s, now, keys, clk)
  {}

  lemma SweepReadyRest(cfg: Config, s: State, now: Time, keys: seq<Key>, clk: seq<Time>)
    requires SweepReady(cfg, s, now, keys, clk) && keys != []
    ensures SweepReady(cfg, SweepKey(cfg, s, keys[0], now, clk[0]).state, now, keys[1..], clk[1..])
  {
    var s' := SweepKey(cfg, s, keys[0], now, clk[0]).state;
    SweepKeyFrame(cfg, s, keys[0], now, clk[0]);
    forall k | k in keys[1..]
      ensures k in s'.jobs && KeyOk(s', k) && Stalled(cfg, JobOf(s', k), now)
    {
      assert k in keys && k != keys[0];
      SweepOther(cfg, s, keys[0], now, clk[0], k);
    }
  }

  /** A sweep exits, at most once, iff a job was already due before it and the cooldown
      was open: no sweep makes another job due. It counts the restart if it exits. */
  lemma {:induction false} SweepExitsIff(cfg: Config, s: State, now: Time, keys: seq<Key>, clk: seq<Time>)
    requires SweepReady(cfg, s, now, keys, clk)
    ensures var r := SweepFrom(cfg, s, now, keys, clk);
      && (r.exited <==> CooldownOpen(cfg, s, now) && exists k :: k in keys && Due(cfg, s, k, now))
      && r.state.selfRestartTotal == s.selfRestartTotal + (if r.exited then 1 else 0)
      && r.state.lastSelfRestartAt == (if r.exited then now else s.lastSelfRestartAt)
    decreases |keys|
  {
    if keys != [] {
      var r := SweepKey(cfg, s, keys[0], now, clk[0]);
      SweepOneExit(cfg, s, keys[0], now, clk[0]);
      if r.exited {
        assert keys[0] in keys && Due(cfg, s, keys[0], now);
      } else {
        SweepReadyRest(cfg, s, now, keys, clk);
        SweepExitsIff(cfg, r.state, now, keys[1..], clk[1..]);
        forall k | k in keys[1..]
          ensures k in keys && Due(cfg, r.state, k, now) == Due(cfg, s, k, now)
        {
          assert k != keys[0];
          SweepOther(cfg, s, keys[0], now, clk[0], k);
        }
        assert forall k :: k in keys ==> k == keys[0] || k in keys[1..];
      }
    }
  }

  /** Without an exit, the sweep is a function of each registered job by itself, and the
      set of registered keys stays the same: the failed-recreate branch is never taken. */
  lemma {:induction false} SweepIsPointwise(cfg: Config, s: State, now: Time, keys: seq<Key>, clk: seq<Time>)
    requires SweepReady(cfg, s, now, keys, clk)
    requires !SweepFrom(cfg, s, now, keys, clk).exited
    ensures var s' := SweepFrom(cfg, s, now, keys, clk).state;
      && KeysOk(s')
      && s'.jobs.Keys == s.jobs.Keys
      && s'.isLeader == s.isLeader
      && (forall i :: 0 <= i < |keys| ==> SweptAt(cfg, s, s', now, keys[i], clk[i]))
      && (forall k :: k in s.jobs && k !in keys ==> SameJob(s, s', k))
    decreases |keys|
  {
    if keys == [] {
      assert forall k :: k in s.jobs ==> KeyOk(s, k);
    } else {
      var s1 := SweepKey(cfg, s, keys[0], now, clk[0]).state;
      var s' := SweepFrom(cfg, s, now, keys, clk).state;
      SweepOneExit(cfg, s, keys[0], now, clk[0]);
      SweepOneJob(cfg, s, keys[0], now, clk[0]);
      SweepKeyFrame(cfg, s, keys[0], now, clk[0]);
      SweepReadyRest(cfg, s, now, keys, clk);
      SweepIsPointwise(cfg, s1, now, keys[1..], clk[1..]);
      SweptFirst(cfg, s, s', now, keys, clk);
    }
  }

  /** The job of key after a sweep is the swept job of before. */
  ghost predicate SweptAt(cfg: Config, s: State, s': State, now: Time, key: Key, at: Time) {
    && key in s.jobs && KeyOk(s, key) && key in s'.jobs && KeyOk(s', key)
    && JobOf(s', key) == SweptJob(cfg, s.isLeader, JobOf(s, key), now, at)
  }

  ghost predicate SameJob(s: State, s': State, key: Key) {
    && key in s.jobs && KeyOk(s, key) && key in s'.jobs && KeyOk(s', key)
    && JobOf(s', key) == JobOf(s, key)
  }

  /** From the sweep of the rest to the whole sweep. */
  lemma SweptFirst(cfg: Config, s: State, s': State, now: Time, keys: seq<Key>, clk: seq<Time>)
    requires SweepReady(cfg, s, now, keys, clk) && keys != []
    requires !SweepKey(cfg, s, keys[0], now, clk[0]).exited
    requires var s1 := SweepKey(cfg, s, keys[0], now, clk[0]).state;
      && s1.isLeader == s.isLeader
      && SweptAt(cfg, s, s1, now, keys[0], clk[0])
      && (forall i :: 0 <= i < |keys[1..]| ==> SweptAt(cfg, s1, s', now, keys[1..][i], clk[1..][i]))
      && (forall k :: k in s1.jobs && k !in keys[1..] ==> SameJob(s1, s', k))
    ensures forall i :: 0 <= i < |keys| ==> SweptAt(cfg, s, s', now, keys[i], clk[i])
    ensures forall k :: k in s.jobs && k !in keys ==> SameJob(s, s', k)
  {
    var s1 := SweepKey(cfg, s, keys[0], now, clk[0]).state;
    assert keys[0] !in keys[1..];
    forall i | 0 <= i < |keys|
      ensures SweptAt(cfg, s, s', now, keys[i], clk[i])
    {
      if i == 0 {
        assert SameJob(s1, s', keys[0]);
      } else {
        assert SweptAt(cfg, s1, s', now, keys[1..][i - 1], clk[1..][i - 1]);
        SweepOther(cfg, s, keys[0], now, clk[0], keys[i]);
      }
    }
    forall k | k in s.jobs && k !in keys
      ensures SameJob(s, s', k)
    {
      assert KeyOk(s, k);
      SweepOther(cfg, s, keys[0], now, clk[0], k);
      assert k !in keys[1..] && SameJob(s1, s', k);
    }
  }

  /** The order of the sweep does not matter: both the exit and, without one, the job of
      every key are the same, given the same clock reading for each recreated key. */
  lemma SweepOrderIsIrrelevant(cfg: Config, s: State, now: Time,
                               keys: seq<Key>, clk: seq<Time>, keys': seq<Key>, clk': seq<Time>)
    requires SweepReady(cfg, s, now, keys, clk) && SweepReady(cfg, s, now, keys', clk')
    requires forall k :: k in keys <==> k in keys'
    requires forall i, j :: 0 <= i < |keys| && 0 <= j < |keys'| && keys[i] == keys'[j] ==> clk[i] == clk'[j]
    ensures var r, r' := SweepFrom(cfg, s, now, keys, clk), SweepFrom(cfg, s, now, keys', clk');
      && r.exited == r'.exited
      && (!r.exited ==>
            && r.state.jobs.Keys == r'.state.jobs.Keys
            && forall k :: k in r.state.jobs ==>
                 KeyOk(r.state, k) && KeyOk(r'.state, k) && JobOf(r.state, k) == JobOf(r'.state, k))
  {
    SweepExitsIff(cfg, s, now, keys, clk);
    SweepExitsIff(cfg, s, now, keys', clk');
    var r, r' := SweepFrom(cfg, s, now, keys, clk), SweepFrom(cfg, s, now, keys', clk');
    if !r.exited {
      SweepIsPointwise(cfg, s, now, keys, clk);
      SweepIsPointwise(cfg, s, now, keys', clk');
      forall k | k in r.state.jobs
        ensures KeyOk(r.state, k) && KeyOk(r'.state, k) && JobOf(r.state, k) == JobOf(r'.state, k)
      {
        assert k in s.jobs;
        if k in keys {
          var i :| 0 <= i < |keys| && keys[i] == k;
          var j :| 0 <= j < |keys'| && keys'[j] == k;
          assert SweptAt(cfg, s, r.state, now, keys[i], clk[i]);
          assert SweptAt(cfg, s, r'.state, now, keys'[j], clk'[j]);
        } else {
          assert SameJob(s, r.state, k) && SameJob(s, r'.state, k);
        }
      }
    }
  }
}
