/** The log only grows, and what it adds is not earlier than the clock was. */
module LogOrder {
  import opened MetricApi
  import opened JobHealth
  import opened ControllerSteps
  import opened ControllerRuns
  import opened SweepLaws

  /** Entries whose time is read off the clock as they are added. */
  predicate ReadsClock(e: Entry) {
    e.Created? || (e.CycleEnded? && e.outcome.Clean())
  }

  ghost predicate Later(s: State, s': State) {
    && |s.log| <= |s'.log|
    && s'.log[..|s.log|] == s.log
    && s.clock <= s'.clock
    && forall p :: |s.log| <= p < |s'.log| && ReadsClock(s'.log[p]) ==> s.clock <= s'.log[p].at
  }

  lemma LaterTransitive(s: State, s1: State, s2: State)
    requires Later(s, s1) && Later(s1, s2)
    ensures Later(s, s2)
  {
    assert s2.log[..|s.log|] == s1.log[..|s.log|];
    forall p | |s.log| <= p < |s2.log| && ReadsClock(s2.log[p])
      ensures s.clock <= s2.log[p].at
    {
      if p < |s1.log| {
        assert s2.log[p] == s1.log[p];
      }
    }
  }

  lemma {:induction false} StopKeysLater(s: State, keys: seq<Key>)
    requires AllRegistered(s)
    ensures Later(s, StopKeys(s, keys))
    decreases |keys|
  {
    if keys != [] {
      var s1 := if keys[0] in s.jobs then StopJob(s, keys[0]) else s;
      StopKeysLater(s1, keys[1..]);
      LaterTransitive(s, s1, StopKeys(s, keys));
    }
  }

  lemma ReconcileItemLater(s: State, ma: MetricAccess, at: Time)
    requires AllRegistered(s) && s.clock <= at
    ensures Later(s, ReconcileItem(s, ma, at)) && ReconcileItem(s, ma, at).clock <= at
  {}

  lemma {:induction false} ReconcileItemsLater(s: State, items: seq<MetricAccess>, clk: seq<Time>)
    requires AllRegistered(s) && |items| == |clk| && Readings(s.clock, clk)
    ensures Later(s, ReconcileItems(s, items, clk))
    decreases |items|
  {
    if items != [] {
      var s1 := ReconcileItem(s, items[0], clk[0]);
      ReconcileItemLater(s, items[0], clk[0]);
      ReadingsRest(s.clock, clk, s1.clock);
      ReconcileItemsLater(s1, items[1..], clk[1..]);
      LaterTransitive(s, s1, ReconcileItems(s, items, clk));
    }
  }

  lemma RecreateLater(s: State, key: Key, now: Time, at: Time)
    requires key in s.jobs && KeyOk(s, key) && s.clock <= at
    ensures Later(s, Recreate(s, key, now, at)) && Recreate(s, key, now, at).clock <= at
  {
    assert Recreate(s, key, now, at).log ==
      s.log + [Stopped(s.jobs[key], key), Created(|s.store|, key, at), Recreated(|s.store|, key, s.jobs[key], now)];
  }

  lemma SweepKeyLater(cfg: Config, s: State, key: Key, now: Time, at: Time)
    requires key in s.jobs && KeyOk(s, key) && s.clock <= at
    ensures Later(s, SweepKey(cfg, s, key, now, at).state) && SweepKey(cfg, s, key, now, at).state.clock <= at
  {
    var s1 := SeedStall(s, key, now);
    RecreateLater(s1, key, now, at);
    LaterTransitive(s, s1, SweepKey(cfg, s, key, now, at).state);
  }

  lemma {:induction false} SweepLater(cfg: Config, s: State, now: Time, keys: seq<Key>, clk: seq<Time>)
    requires SweepReady(cfg, s, now, keys, clk) && Readings(s.clock, clk)
    ensures Later(s, SweepFrom(cfg, s, now, keys, clk).state)
    decreases |keys|
  {
    if keys != [] {
      var r := SweepKey(cfg, s, keys[0], now, clk[0]);
      SweepKeyLater(cfg, s, keys[0], now, clk[0]);
      if !r.exited {
        SweepReadyRest(cfg, s, now, keys, clk);
        ReadingsRest(s.clock, clk, r.state.clock);
        SweepLater(cfg, r.state, now, keys[1..], clk[1..]);
        LaterTransitive(s, r.state, SweepFrom(cfg, s, now, keys, clk).state);
      }
    }
  }

  lemma EventLater(cfg: Config, s: State, e: Event, s': State)
    requires Next(cfg, s, e, s')
    ensures Later(s, s')
  {
    match e {
      case ReconcileTo(items, clk, leftovers) =>
        ReconcileItemsLater(s, items, clk);
        StopKeysLater(ReconcileItems(s, items, clk), leftovers);
        LaterTransitive(s, ReconcileItems(s, items, clk), s');
      case Sweep(now, keys, clk) =>
        SweepIsReady(cfg, s, now, keys, clk);
        SweepLater(cfg, s, now, keys, clk);
      case StopAll(keys) => StopKeysLater(s, keys);
      case _ =>
    }
  }

  lemma {:induction false} RunLater(cfg: Config, start: Time, es: seq<Event>, ss: seq<State>, i: nat, n: nat)
    requires IsRun(cfg, start, es, ss) && i <= n < |ss|
    ensures Later(ss[i], ss[n])
    decreases n
  {
    if i < n {
      RunLater(cfg, start, es, ss, i, n - 1);
      assert Next(cfg, ss[n - 1], es[n - 1], ss[n]);
      EventLater(cfg, ss[n - 1], es[n - 1], ss[n]);
      LaterTransitive(ss[i], ss[n - 1], ss[n]);
    }
  }
}
