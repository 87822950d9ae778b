/** The loops of the controller, one iteration at a time. */
module ControllerLoops {
  import opened MetricApi
  import opened JobHealth
  import opened ControllerSteps
  import opened ControllerSoundness

  /** One more key to stop. */
  lemma {:induction false} StopKeysSnoc(s: State, keys: seq<Key>, key: Key)
    requires AllRegistered(s)
    ensures StopKeys(s, keys + [key]) ==
      var s' := StopKeys(s, keys);
      if key in s'.jobs then StopJob(s', key) else s'
    decreases |keys|
  {
    var longer := keys + [key];
    if keys != [] {
      assert longer[1..] == keys[1..] + [key];
      StopKeysSnoc(if keys[0] in s.jobs then StopJob(s, keys[0]) else s, keys[1..], key);
    } else {
      assert longer[1..] == [];
    }
  }

  /** The keys stopped so far, and the rest of those that are not desired. */
  ghost predicate Stopping(s: State, s': State, desired: set<Key>, rest: set<Key>, keys: seq<Key>)
    requires AllRegistered(s)
  {
    && s' == StopKeys(s, keys)
    && NoDuplicates(keys)
    && rest == s'.jobs.Keys - desired
    && (forall k :: k in keys <==> k in s.jobs && k !in desired && k !in rest)
    && (forall k :: k in s'.jobs ==> k in s.jobs && k !in keys)
  }

  lemma StoppingSnoc(s: State, s': State, desired: set<Key>, rest: set<Key>, keys: seq<Key>, key: Key)
    requires AllRegistered(s) && Stopping(s, s', desired, rest, keys) && key in rest
    ensures key in s'.jobs && s'.jobs[key] < |s'.store|
    ensures Stopping(s, StopJob(s', key), desired, rest - {key}, keys + [key])
  {
    StopKeysSnoc(s, keys, key);
  }

  /** One more resource to load. */
  lemma {:induction false} LoadFromSnoc(s: State, items: seq<MetricAccess>, clk: seq<Time>, ma: MetricAccess, at: Time)
    requires |items| == |clk|
    ensures LoadFrom(s, items + [ma], clk + [at]) == LoadOne(LoadFrom(s, items, clk), ma, at)
    decreases |items|
  {
    var items', clk' := items + [ma], clk + [at];
    if items != [] {
      assert items'[1..] == items[1..] + [ma] && clk'[1..] == clk[1..] + [at];
      LoadFromSnoc(LoadOne(s, items[0], clk[0]), items[1..], clk[1..], ma, at);
    } else {
      assert items'[1..] == [] && clk'[1..] == [];
    }
  }

  /** One more resource to reconcile. */
  lemma {:induction false} ReconcileItemsSnoc(s: State, items: seq<MetricAccess>, clk: seq<Time>,
                                              ma: MetricAccess, at: Time)
    requires AllRegistered(s) && |items| == |clk|
    ensures ReconcileItems(s, items + [ma], clk + [at]) == ReconcileItem(ReconcileItems(s, items, clk), ma, at)
    decreases |items|
  {
    var items', clk' := items + [ma], clk + [at];
    if items != [] {
      assert items'[1..] == items[1..] + [ma] && clk'[1..] == clk[1..] + [at];
      ReconcileItemsSnoc(ReconcileItem(s, items[0], clk[0]), items[1..], clk[1..], ma, at);
    } else {
      assert items'[1..] == [] && clk'[1..] == [];
    }
  }

  /** The resources reconciled so far, and the clock readings taken for them. */
  ghost predicate Reconciling(s: State, s': State, items: seq<MetricAccess>, clk: seq<Time>)
    requires AllRegistered(s)
  {
    && |clk| == |items|
    && s' == ReconcileItems(s, items, clk)
    && s.clock <= s'.clock
    && Readings(s.clock, clk)
    && forall j :: 0 <= j < |clk| ==> clk[j] <= s'.clock
  }

  lemma ReconcilingSnoc(s: State, s': State, items: seq<MetricAccess>, clk: seq<Time>, n: nat, at: Time)
    requires Sound(s) && Sound(s') && n < |items| && Reconciling(s, s', items[..n], clk) && s'.clock <= at
    requires at <= ReconcileItem(s', items[n], at).clock
    ensures Sound(ReconcileItem(s', items[n], at))
    ensures Reconciling(s, ReconcileItem(s', items[n], at), items[..n + 1], clk + [at])
  {
    ReconcileItemsSnoc(s, items[..n], clk, items[n], at);
    ReconcileItemKeepsSound(s', items[n], at);
    OneMore(items, n);
  }

  /** One more key to sweep, if the sweep gets that far. */
  lemma {:induction false} SweepSnoc(cfg: Config, s: State, now: Time, keys: seq<Key>, clk: seq<Time>,
                                     key: Key, at: Time)
    requires KeysOk(s) && |keys| == |clk|
    requires forall k :: k in keys + [key] ==> k in s.jobs
    requires !SweepFrom(cfg, s, now, keys, clk).exited
    ensures var s' := SweepFrom(cfg, s, now, keys, clk).state;
      && KeysOk(s') && s'.jobs.Keys == s.jobs.Keys && KeyOk(s', key)
      && SweepFrom(cfg, s, now, keys + [key], clk + [at]) == SweepKey(cfg, s', key, now, at)
    decreases |keys|
  {
    var keys', clk' := keys + [key], clk + [at];
    if keys != [] {
      assert keys'[1..] == keys[1..] + [key] && clk'[1..] == clk[1..] + [at];
      assert keys'[0] == keys[0] && keys[0] in keys';
      SweepKeyFrame(cfg, s, keys[0], now, clk[0]);
      assert forall k :: k in keys'[1..] ==> k in keys';
      SweepSnoc(cfg, SweepKey(cfg, s, keys[0], now, clk[0]).state, now, keys[1..], clk[1..], key, at);
    } else {
      assert keys'[1..] == [] && clk'[1..] == [] && key in keys';
    }
  }

  /** A sweep that has exited ignores the remaining keys. */
  lemma {:induction false} SweepStops(cfg: Config, s: State, now: Time, keys: seq<Key>, clk: seq<Time>,
                                      keys': seq<Key>, clk': seq<Time>)
    requires KeysOk(s) && |keys| == |clk| && |keys'| == |clk'|
    requires forall k :: k in keys + keys' ==> k in s.jobs
    requires SweepFrom(cfg, s, now, keys, clk).exited
    ensures SweepFrom(cfg, s, now, keys + keys', clk + clk') == SweepFrom(cfg, s, now, keys, clk)
    decreases |keys|
  {
    var all, clks := keys + keys', clk + clk';
    assert all[0] == keys[0] && clks[0] == clk[0] && keys[0] in all;
    var r := SweepKey(cfg, s, keys[0], now, clk[0]);
    if !r.exited {
      SweepKeyFrame(cfg, s, keys[0], now, clk[0]);
      assert all[1..] == keys[1..] + keys' && clks[1..] == clk[1..] + clk';
      assert forall k :: k in all[1..] ==> k in all;
      SweepStops(cfg, r.state, now, keys[1..], clk[1..], keys', clk');
    }
  }

  /** The sweep has visited n keys without exiting. */
  ghost predicate Sweeping(cfg: Config, s: State, s': State, now: Time, keys: seq<Key>, clk: seq<Time>, n: nat) {
    && KeysOk(s)
    && n == |clk| <= |keys|
    && (forall k :: k in keys ==> k in s.jobs)
    && SweptSoFar(cfg, s, s', now, keys[..n], clk)
    && s.clock <= s'.clock
    && Readings(s.clock, clk)
    && forall j :: 0 <= j < |clk| ==> clk[j] <= s'.clock
  }

  ghost predicate SweptSoFar(cfg: Config, s: State, s': State, now: Time, keys: seq<Key>, clk: seq<Time>)
    requires KeysOk(s) && |keys| == |clk|
    requires forall k :: k in keys ==> k in s.jobs
  {
    SweepFrom(cfg, s, now, keys, clk) == Swept(s', false)
  }

  lemma SweepReaches(cfg: Config, s: State, s': State, now: Time, keys: seq<Key>, clk: seq<Time>, n: nat)
    requires Sweeping(cfg, s, s', now, keys, clk, n) && n < |keys|
    ensures keys[n] in s'.jobs && KeyOk(s', keys[n])
  {
    OneMore(keys, n);
    SweepSnoc(cfg, s, now, keys[..n], clk, keys[n], 0);
  }

  lemma SweepNext(cfg: Config, s: State, s': State, now: Time, keys: seq<Key>, clk: seq<Time>, n: nat, at: Time)
    requires Sweeping(cfg, s, s', now, keys, clk, n) && n < |keys| && keys[n] in s'.jobs && KeyOk(s', keys[n])
    ensures SweepFrom(cfg, s, now, keys[..n + 1], clk + [at]) == SweepKey(cfg, s', keys[n], now, at)
  {
    OneMore(keys, n);
    SweepSnoc(cfg, s, now, keys[..n], clk, keys[n], at);
  }

  lemma SweepGoesOn(cfg: Config, s: State, s': State, now: Time, keys: seq<Key>, clk: seq<Time>, n: nat, at: Time,
                    s1: State)
    requires Sweeping(cfg, s, s', now, keys, clk, n) && n < |keys|
    requires SweptSoFar(cfg, s, s1, now, keys[..n + 1], clk + [at]) && s'.clock <= at <= s1.clock
    ensures Sweeping(cfg, s, s1, now, keys, clk + [at], n + 1)
  {}

  /** The readings of a sweep that exits at key n, padded for the keys it does not visit. */
  lemma SweepExits(cfg: Config, s: State, s': State, now: Time, keys: seq<Key>, clk: seq<Time>, n: nat, at: Time)
    returns (padded: seq<Time>)
    requires Sweeping(cfg, s, s', now, keys, clk, n) && n < |keys| && s'.clock <= at
    requires SweepFrom(cfg, s, now, keys[..n + 1], clk + [at]).exited
    ensures |padded| == |keys| && Readings(s.clock, padded)
    ensures SweepFrom(cfg, s, now, keys, padded) == SweepFrom(cfg, s, now, keys[..n + 1], clk + [at])
  {
    var rest := seq(|keys| - n - 1, _ => at);
    assert keys == keys[..n + 1] + keys[n + 1..];
    SweepStops(cfg, s, now, keys[..n + 1], clk + [at], keys[n + 1..], rest);
    padded := clk + [at] + rest;
  }
}
