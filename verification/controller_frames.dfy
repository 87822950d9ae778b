/** What an event leaves alone in the job registered under a key. */
module ControllerFrames {
  import opened MetricApi
  import opened JobHealth
  import opened ControllerSteps
  import opened ControllerRuns
  import opened SweepLaws

  /** Old structs change at most their stop channel; the restart throttle is untouched. */
  ghost predicate Kept(s: State, s': State) {
    && |s.store| <= |s'.store|
    && (forall id: nat :: id < |s.store| ==>
          s'.store[id] == s.store[id].(stopOpen := s'.store[id].stopOpen))
    && s'.isLeader == s.isLeader
    && s'.lastSelfRestartAt == s.lastSelfRestartAt
    && s'.selfRestartTotal == s.selfRestartTotal
  }

  lemma KeptTransitive(s: State, s1: State, s2: State)
    requires Kept(s, s1) && Kept(s1, s2)
    ensures Kept(s, s2)
  {}

  lemma StopKeysKept(s: State, keys: seq<Key>)
    requires AllRegistered(s)
    ensures Kept(s, StopKeys(s, keys))
    decreases |keys|
  {
    if keys != [] {
      if keys[0] in s.jobs {
        StopKeysKept(StopJob(s, keys[0]), keys[1..]);
        KeptTransitive(s, StopJob(s, keys[0]), StopKeys(s, keys));
      } else {
        StopKeysKept(s, keys[1..]);
      }
    }
  }

  lemma ReconcileItemsKept(s: State, items: seq<MetricAccess>, clk: seq<Time>)
    requires AllRegistered(s) && |items| == |clk|
    ensures Kept(s, ReconcileItems(s, items, clk))
    decreases |items|
  {
    if items != [] {
      var s1 := ReconcileItem(s, items[0], clk[0]);
      assert Kept(s, s1);
      ReconcileItemsKept(s1, items[1..], clk[1..]);
      KeptTransitive(s, s1, ReconcileItems(s, items, clk));
    }
  }

  lemma ReconcileKept(s: State, items: seq<MetricAccess>, clk: seq<Time>, leftovers: seq<Key>)
    requires AllRegistered(s) && |items| == |clk|
    ensures Kept(s, Reconcile(s, items, clk, leftovers))
  {
    var s1 := ReconcileItems(s, items, clk);
    ReconcileItemsKept(s, items, clk);
    StopKeysKept(s1, leftovers);
    KeptTransitive(s, s1, StopKeys(s1, leftovers));
  }

  /** The fields of a job that the watchdog's timing rests on. */
  predicate SameTimers(j: Job, j': Job) {
    && j'.access == j.access
    && j'.createdAt == j.createdAt
    && j'.lastClean == j.lastClean
    && j'.stalledSince == j.stalledSince
    && j'.recreateCount == j.recreateCount
    && j'.lastRecreateAt == j.lastRecreateAt
  }

  /** e ends a clean cycle of the job registered under key. */
  predicate CleansKey(s: State, e: Event, key: Key) {
    e.EndCycle? && e.outcome.Clean() && key in s.jobs && s.jobs[key] == e.id
  }

  /** key is registered before and after e, with the same struct. */
  predicate KeepsStruct(s: State, s': State, key: Key) {
    key in s.jobs && key in s'.jobs && s'.jobs[key] == s.jobs[key]
  }

  lemma KeptTimers(s: State, s': State, key: Key)
    requires key in s.jobs && KeyOk(s, key) && KeepsStruct(s, s', key) && Kept(s, s')
    ensures s'.jobs[key] < |s'.store| && SameTimers(JobOf(s, key), JobOf(s', key))
  {}

  lemma StoppingTimersKept(cfg: Config, s: State, e: Event, s': State, key: Key)
    requires Next(cfg, s, e, s') && (e.ReconcileTo? || e.StopAll?)
    requires KeepsStruct(s, s', key) && KeyOk(s, key)
    ensures s'.jobs[key] < |s'.store| && SameTimers(JobOf(s, key), JobOf(s', key))
    ensures s'.lastSelfRestartAt == s.lastSelfRestartAt
  {
    if e.ReconcileTo? {
      ReconcileKept(s, e.items, e.clk, e.leftovers);
    } else {
      StopKeysKept(s, e.keys);
    }
    KeptTimers(s, s', key);
  }

  /** Outside sweeps, a job that is not restarted keeps its timers until a clean cycle. */
  lemma TimersKept(cfg: Config, s: State, e: Event, s': State, key: Key)
    requires Next(cfg, s, e, s') && !e.Sweep? && !e.EndCycle?
    requires KeepsStruct(s, s', key)
    ensures KeyOk(s, key) && s'.jobs[key] < |s'.store|
    ensures SameTimers(JobOf(s, key), JobOf(s', key))
    ensures s'.lastSelfRestartAt == s.lastSelfRestartAt
  {
    assert KeyOk(s, key);
    if e.ReconcileTo? || e.StopAll? {
      StoppingTimersKept(cfg, s, e, s', key);
    }
  }

  lemma CycleTimersKept(cfg: Config, s: State, e: Event, s': State, key: Key)
    requires Next(cfg, s, e, s') && e.EndCycle?
    requires key in s.jobs
    ensures KeepsStruct(s, s', key)
    ensures KeyOk(s, key) && s'.jobs[key] < |s'.store|
    ensures !CleansKey(s, e, key) ==> SameTimers(JobOf(s, key), JobOf(s', key))
    ensures s'.lastSelfRestartAt == s.lastSelfRestartAt
  {
    assert KeyOk(s, key);
  }

  /** A sweep that does not exit, seen from one key. */
  lemma SweepSeen(cfg: Config, s: State, e: Event, s': State, key: Key) returns (at: Time)
    requires Next(cfg, s, e, s') && e.Sweep? && key in s.jobs
    requires !SweepFrom(cfg, s, e.now, e.keys, e.clk).exited
    ensures KeyOk(s, key) && key in s'.jobs && KeyOk(s', key)
    ensures JobOf(s', key) == SweptJob(cfg, s.isLeader, JobOf(s, key), e.now, at)
    ensures Stalled(cfg, JobOf(s, key), e.now) ==> at in e.clk
    ensures s'.lastSelfRestartAt == s.lastSelfRestartAt
    ensures s'.isLeader == s.isLeader
  {
    SweepIsReady(cfg, s, e.now, e.keys, e.clk);
    SweepIsPointwise(cfg, s, e.now, e.keys, e.clk);
    SweepExitsIff(cfg, s, e.now, e.keys, e.clk);
    assert KeyOk(s, key);
    if key in e.keys {
      var i :| 0 <= i < |e.keys| && e.keys[i] == key;
      at := e.clk[i];
      assert SweptAt(cfg, s, s', e.now, e.keys[i], e.clk[i]);
    } else {
      at := 0;
      assert SameJob(s, s', key);
    }
  }
}
