/** What stays recorded: the collected metrics of a key, and the last run and last error of
    a job struct, are what the latest event that writes them wrote. */
module Recorded {
  import opened MetricApi
  import opened JobHealth
  import opened ControllerSteps
  import opened History
  import opened ControllerRuns
  import opened SweepLaws

  /** s' has the collected metrics of s; its old structs differ at most in the stop channel
      and the start of the stall, and its new ones have recorded nothing. */
  ghost predicate RecordsKept(s: State, s': State) {
    && |s.store| <= |s'.store|
    && s'.collected == s.collected
    && (forall id: nat :: id < |s.store| ==> SameRecord(s.store[id], s'.store[id]))
    && (forall id: nat :: |s.store| <= id < |s'.store| ==> NothingRecorded(s'.store[id]))
  }

  predicate SameRecord(j: Job, j': Job) {
    j' == j.(stopOpen := j'.stopOpen, stalledSince := j'.stalledSince)
  }

  predicate NothingRecorded(j: Job) {
    && j.lastRun == 0 && j.lastError == None
    && j.metricsCount == 0 && j.successCount == 0 && j.failureCount == 0
    && j.lastSuccess == 0 && j.lastSeriesCount == 0 && j.consecutiveEmpty == 0
    && !j.lastSucceeded && j.lastClean == 0
  }

  lemma KeptInTurn(s: State, s1: State, s2: State)
    requires RecordsKept(s, s1) && RecordsKept(s1, s2)
    ensures RecordsKept(s, s2)
  {
    forall id: nat | id < |s.store|
      ensures SameRecord(s.store[id], s2.store[id])
    {
      assert SameRecord(s.store[id], s1.store[id]) && SameRecord(s1.store[id], s2.store[id]);
    }
    forall id: nat | |s.store| <= id < |s2.store|
      ensures NothingRecorded(s2.store[id])
    {
      if id < |s1.store| {
        assert NothingRecorded(s1.store[id]) && SameRecord(s1.store[id], s2.store[id]);
      }
    }
  }

  lemma {:induction false} StopKeysKeepsRecords(s: State, keys: seq<Key>)
    requires AllRegistered(s)
    ensures RecordsKept(s, StopKeys(s, keys))
    decreases |keys|
  {
    if keys != [] {
      var s1 := if keys[0] in s.jobs then StopJob(s, keys[0]) else s;
      assert RecordsKept(s, s1);
      StopKeysKeepsRecords(s1, keys[1..]);
      KeptInTurn(s, s1, StopKeys(s, keys));
    }
  }

  lemma ReconcileItemKeepsRecords(s: State, ma: MetricAccess, at: Time)
    requires AllRegistered(s)
    ensures RecordsKept(s, ReconcileItem(s, ma, at))
  {}

  lemma {:induction false} ReconcileItemsKeepsRecords(s: State, items: seq<MetricAccess>, clk: seq<Time>)
    requires AllRegistered(s) && |items| == |clk|
    ensures RecordsKept(s, ReconcileItems(s, items, clk))
    decreases |items|
  {
    if items != [] {
      var s1 := ReconcileItem(s, items[0], clk[0]);
      ReconcileItemKeepsRecords(s, items[0], clk[0]);
      ReconcileItemsKeepsRecords(s1, items[1..], clk[1..]);
      KeptInTurn(s, s1, ReconcileItems(s, items, clk));
    }
  }

  lemma RecreateKeepsRecords(s: State, key: Key, now: Time, at: Time)
    requires key in s.jobs && KeyOk(s, key)
    ensures RecordsKept(s, Recreate(s, key, now, at))
  {}

  lemma SweepKeyKeepsRecords(cfg: Config, s: State, key: Key, now: Time, at: Time)
    requires key in s.jobs && KeyOk(s, key)
    ensures RecordsKept(s, SweepKey(cfg, s, key, now, at).state)
  {
    var s1 := SeedStall(s, key, now);
    assert RecordsKept(s, s1);
    RecreateKeepsRecords(s1, key, now, at);
    assert RecordsKept(s1, Exit(s1, key, now)) && RecordsKept(s1, s1);
    KeptInTurn(s, s1, SweepKey(cfg, s, key, now, at).state);
  }

  lemma {:induction false} SweepKeepsRecords(cfg: Config, s: State, now: Time, keys: seq<Key>, clk: seq<Time>)
    requires SweepReady(cfg, s, now, keys, clk)
    ensures RecordsKept(s, SweepFrom(cfg, s, now, keys, clk).state)
    decreases |keys|
  {
    if keys != [] {
      var r := SweepKey(cfg, s, keys[0], now, clk[0]);
      SweepKeyKeepsRecords(cfg, s, keys[0], now, clk[0]);
      if !r.exited {
        SweepReadyRest(cfg, s, now, keys, clk);
        SweepKeepsRecords(cfg, r.state, now, keys[1..], clk[1..]);
        KeptInTurn(s, r.state, SweepFrom(cfg, s, now, keys, clk).state);
      }
    }
  }

  /** The events of a collection cycle. */
  predicate OfCycle(e: Event) {
    e.SeeTargets? || e.FailTarget? || e.EndCycle? || e.FinishRun?
  }

  lemma OtherEventsKeepRecords(cfg: Config, s: State, e: Event, s': State)
    requires Next(cfg, s, e, s') && !OfCycle(e)
    ensures RecordsKept(s, s')
  {
    match e {
      case ReconcileTo(items, clk, leftovers) =>
        ReconcileItemsKeepsRecords(s, items, clk);
        StopKeysKeepsRecords(ReconcileItems(s, items, clk), leftovers);
        KeptInTurn(s, ReconcileItems(s, items, clk), s');
      case Sweep(now, keys, clk) =>
        SweepIsReady(cfg, s, now, keys, clk);
        SweepKeepsRecords(cfg, s, now, keys, clk);
      case StopAll(keys) => StopKeysKeepsRecords(s, keys);
      case _ =>
    }
  }

  // ---------------------------------------------------------------------------
  // Collected metrics

  /** Event e stores metrics for key: those of the targets, or none without targets. */
  predicate Stores(s: State, e: Event, key: Key, metrics: seq<Metric>) {
    || (e.SeeTargets? && e.id < |s.store| && KeyOf(s.store[e.id].access) == key && metrics == e.metrics)
    || (e.EndCycle? && e.outcome.NoTargets? && e.id < |s.store| && KeyOf(s.store[e.id].access) == key && metrics == [])
  }

  ghost predicate LeavesCollected(s: State, e: Event, key: Key) {
    forall metrics :: !Stores(s, e, key, metrics)
  }

  lemma EventStores(cfg: Config, s: State, e: Event, s': State, key: Key)
    requires Next(cfg, s, e, s')
    ensures forall metrics :: Stores(s, e, key, metrics) ==> key in s'.collected && s'.collected[key] == metrics
    ensures LeavesCollected(s, e, key) ==>
      (key in s'.collected <==> key in s.collected) &&
      (key in s.collected ==> s'.collected[key] == s.collected[key])
  {
    if OfCycle(e) {
      if e.SeeTargets? {
        assert Stores(s, e, KeyOf(s.store[e.id].access), e.metrics);
      } else if e.EndCycle? && e.outcome.NoTargets? {
        assert Stores(s, e, KeyOf(s.store[e.id].access), []);
      }
    } else {
      OtherEventsKeepRecords(cfg, s, e, s');
    }
  }

  /** The collected metrics of a key are those that the latest event storing any for it
      carried: the healthy targets' samples, or none after a cycle without targets. */
  lemma {:induction false} CollectedIsLatest(cfg: Config, start: Time, es: seq<Event>, ss: seq<State>, key: Key,
                                             i: nat, n: nat, metrics: seq<Metric>)
    requires IsRun(cfg, start, es, ss) && i < n <= |es|
    requires Stores(ss[i], es[i], key, metrics)
    requires forall m :: i < m < n ==> LeavesCollected(ss[m], es[m], key)
    ensures key in ss[n].collected && ss[n].collected[key] == metrics
    decreases n
  {
    assert Next(cfg, ss[n - 1], es[n - 1], ss[n]);
    EventStores(cfg, ss[n - 1], es[n - 1], ss[n], key);
    if i < n - 1 {
      CollectedIsLatest(cfg, start, es, ss, key, i, n - 1, metrics);
    }
  }

  /** A key for which nothing was ever stored is not served. */
  lemma {:induction false} NothingCollected(cfg: Config, start: Time, es: seq<Event>, ss: seq<State>, key: Key, n: nat)
    requires IsRun(cfg, start, es, ss) && n <= |es|
    requires forall m :: 0 <= m < n ==> LeavesCollected(ss[m], es[m], key)
    ensures key !in ss[n].collected
  {
    if n > 0 {
      NothingCollected(cfg, start, es, ss, key, n - 1);
      assert Next(cfg, ss[n - 1], es[n - 1], ss[n]);
      EventStores(cfg, ss[n - 1], es[n - 1], ss[n], key);
    }
  }

  // ---------------------------------------------------------------------------
  // The last run and the last error

  /** Event e sets the last run of struct id to wall. */
  predicate SetsRun(e: Event, id: nat, wall: Time) {
    e == FinishRun(id, wall) || (e.EndCycle? && e.id == id && e.outcome == NoTargets(wall))
  }

  /** Event e sets the last error of struct id. */
  predicate SetsError(e: Event, id: nat, error: string) {
    e == FailTarget(id, error) || (e.EndCycle? && e.id == id && e.outcome == SendFailed(error))
  }

  ghost predicate LeavesRun(e: Event, id: nat) {
    forall wall :: !SetsRun(e, id, wall)
  }

  ghost predicate LeavesError(e: Event, id: nat) {
    forall error :: !SetsError(e, id, error)
  }

  lemma RunIsSet(e: Event, id: nat)
    ensures e.FinishRun? && e.id == id ==> SetsRun(e, id, e.wall)
    ensures e.EndCycle? && e.id == id && e.outcome.NoTargets? ==> SetsRun(e, id, e.outcome.wall)
  {}

  lemma ErrorIsSet(e: Event, id: nat)
    ensures e.FailTarget? && e.id == id ==> SetsError(e, id, e.error)
    ensures e.EndCycle? && e.id == id && e.outcome.SendFailed? ==> SetsError(e, id, e.outcome.error)
  {}

  lemma EventSets(cfg: Config, s: State, e: Event, s': State, id: nat)
    requires Next(cfg, s, e, s') && id < |s.store|
    ensures id < |s'.store|
    ensures forall wall :: SetsRun(e, id, wall) ==> s'.store[id].lastRun == wall
    ensures forall error :: SetsError(e, id, error) ==> s'.store[id].lastError == Some(error)
    ensures LeavesRun(e, id) ==> s'.store[id].lastRun == s.store[id].lastRun
    ensures LeavesError(e, id) ==> s'.store[id].lastError == s.store[id].lastError
  {
    if OfCycle(e) {
      RunIsSet(e, id);
      ErrorIsSet(e, id);
    } else {
      OtherEventsKeepRecords(cfg, s, e, s');
      assert SameRecord(s.store[id], s'.store[id]);
    }
  }

  lemma EventMakes(cfg: Config, s: State, e: Event, s': State, id: nat)
    requires Next(cfg, s, e, s') && |s.store| <= id < |s'.store|
    ensures NothingRecorded(s'.store[id])
  {
    if !OfCycle(e) {
      OtherEventsKeepRecords(cfg, s, e, s');
    }
  }

  /** The last run of a struct is the time that the latest event setting it carried: the end
      of its latest cycle, or the cycle that found no targets. */
  lemma {:induction false} RunIsLatest(cfg: Config, start: Time, es: seq<Event>, ss: seq<State>, id: nat,
                                       i: nat, n: nat, wall: Time)
    requires IsRun(cfg, start, es, ss) && i < n <= |es|
    requires SetsRun(es[i], id, wall) && forall m :: i < m < n ==> LeavesRun(es[m], id)
    ensures id < |ss[n].store| && ss[n].store[id].lastRun == wall
    decreases n
  {
    assert Next(cfg, ss[n - 1], es[n - 1], ss[n]);
    if i < n - 1 {
      RunIsLatest(cfg, start, es, ss, id, i, n - 1, wall);
    }
    EventSets(cfg, ss[n - 1], es[n - 1], ss[n], id);
  }

  /** Its last error is that of the latest failed target or failed send. */
  lemma {:induction false} ErrorIsLatest(cfg: Config, start: Time, es: seq<Event>, ss: seq<State>, id: nat,
                                         i: nat, n: nat, error: string)
    requires IsRun(cfg, start, es, ss) && i < n <= |es|
    requires SetsError(es[i], id, error) && forall m :: i < m < n ==> LeavesError(es[m], id)
    ensures id < |ss[n].store| && ss[n].store[id].lastError == Some(error)
    decreases n
  {
    assert Next(cfg, ss[n - 1], es[n - 1], ss[n]);
    if i < n - 1 {
      ErrorIsLatest(cfg, start, es, ss, id, i, n - 1, error);
    }
    EventSets(cfg, ss[n - 1], es[n - 1], ss[n], id);
  }

  /** Before that, and after every recreate, there is neither. */
  lemma {:induction false} NothingSet(cfg: Config, start: Time, es: seq<Event>, ss: seq<State>, id: nat, n: nat)
    requires IsRun(cfg, start, es, ss) && n <= |es| && id < |ss[n].store|
    ensures (forall m :: 0 <= m < n ==> LeavesRun(es[m], id)) ==> ss[n].store[id].lastRun == 0
    ensures (forall m :: 0 <= m < n ==> LeavesError(es[m], id)) ==> ss[n].store[id].lastError == None
  {
    if n > 0 {
      assert Next(cfg, ss[n - 1], es[n - 1], ss[n]);
      if id < |ss[n - 1].store| {
        NothingSet(cfg, start, es, ss, id, n - 1);
        EventSets(cfg, ss[n - 1], es[n - 1], ss[n], id);
      } else {
        EventMakes(cfg, ss[n - 1], es[n - 1], ss[n], id);
      }
    }
  }

  // ---------------------------------------------------------------------------
  // The log

  /** What the events other than reconciles, sweeps and stops are on record as. */
  lemma EventIsLogged(cfg: Config, s: State, e: Event, s': State)
    requires Next(cfg, s, e, s') && !e.ReconcileTo? && !e.Sweep? && !e.StopAll?
    ensures
      match e
      case Tick(_) => s'.log == s.log
      case StartLeading => s'.log == s.log + [BecameLeader]
      case SeeTargets(id, _) => s'.log == s.log + [SawTargets(id)]
      case FailTarget(id, _) => s'.log == s.log + [TargetFailed(id)]
      case FinishRun(_, _) => s'.log == s.log
      case EndCycle(id, o, at) =>
        && s'.log != [] && Past(s'.log) == s.log
        && var last := Last(s'.log);
        && last.CycleEnded? && last.id == id && last.outcome == o && last.at == at
        && id < |s.store|
        && last.key == s.store[id].access.namespace + "/" + s.store[id].access.name
        && (last.live <==> last.key in s.jobs && s.jobs[last.key] == id)
      case Load(ma, at) =>
        if ma.remoteWrite.Some? && ma.remoteWrite.value.enabled &&
           ma.remoteWrite.value.targetType in ["prometheus", "pushgateway", "remote_write"] then
          s'.log == s.log + [Created(|s.store|, ma.namespace + "/" + ma.name, at)]
        else s'.log == s.log
      case _ => true
  {}
}
