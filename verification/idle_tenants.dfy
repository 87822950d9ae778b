/** Tenants with nothing to collect are left alone: as long as clean cycles keep coming,
    no sweep recreates the job or restarts the process because of it. */
module IdleTenants {
  import opened MetricApi
  import opened JobHealth
  import opened ControllerSteps
  import opened History
  import opened ControllerInvariant
  import opened ControllerSoundness
  import opened ControllerRuns
  import opened SweepLaws
  import opened ControllerSafety
  import opened LogOrder

  predicate Acts(e: Entry, key: Key) {
    (e.Recreated? || e.Exited?) && e.key == key
  }

  /** From log to log', nothing was recreated or restarted on account of key. */
  ghost predicate Spares(log: Log, log': Log, key: Key) {
    && |log| <= |log'|
    && log'[..|log|] == log
    && forall p :: |log| <= p < |log'| ==> !Acts(log'[p], key)
  }

  lemma SparesTransitive(log: Log, log1: Log, log2: Log, key: Key)
    requires Spares(log, log1, key) && Spares(log1, log2, key)
    ensures Spares(log, log2, key)
  {}

  lemma StopKeysSpares(s: State, keys: seq<Key>, key: Key)
    requires AllRegistered(s)
    ensures Spares(s.log, StopKeys(s, keys).log, key)
    decreases |keys|
  {
    if keys != [] {
      if keys[0] in s.jobs {
        StopKeysSpares(StopJob(s, keys[0]), keys[1..], key);
        SparesTransitive(s.log, StopJob(s, keys[0]).log, StopKeys(s, keys).log, key);
      } else {
        StopKeysSpares(s, keys[1..], key);
      }
    }
  }

  lemma ReconcileItemSpares(s: State, ma: MetricAccess, at: Time, key: Key)
    requires AllRegistered(s)
    ensures Spares(s.log, ReconcileItem(s, ma, at).log, key)
  {}

  lemma ReconcileItemsSpares(s: State, items: seq<MetricAccess>, clk: seq<Time>, key: Key)
    requires AllRegistered(s) && |items| == |clk|
    ensures Spares(s.log, ReconcileItems(s, items, clk).log, key)
    decreases |items|
  {
    if items != [] {
      var s1 := ReconcileItem(s, items[0], clk[0]);
      ReconcileItemSpares(s, items[0], clk[0], key);
      ReconcileItemsSpares(s1, items[1..], clk[1..], key);
      SparesTransitive(s.log, s1.log, ReconcileItems(s, items, clk).log, key);
    }
  }

  lemma SweepKeySpares(cfg: Config, s: State, k: Key, now: Time, at: Time, key: Key)
    requires k in s.jobs && KeyOk(s, k) && k != key
    ensures Spares(s.log, SweepKey(cfg, s, k, now, at).state.log, key)
  {
    var s1 := SeedStall(s, k, now);
    assert Spares(s.log, s1.log, key);
    var r := Recreate(s1, k, now, at);
    assert r.log == s1.log + [Stopped(s1.jobs[k], k), Created(|s1.store|, k, at),
                              Recreated(|s1.store|, k, s1.jobs[k], now)];
    assert Spares(s1.log, r.log, key);
    SparesTransitive(s.log, s1.log, r.log, key);
  }

  /** A sweep acts only on account of the keys it found stalled, exit or not. */
  lemma SweepSpares(cfg: Config, s: State, now: Time, keys: seq<Key>, clk: seq<Time>, key: Key)
    requires SweepReady(cfg, s, now, keys, clk) && key !in keys
    ensures Spares(s.log, SweepFrom(cfg, s, now, keys, clk).state.log, key)
    ensures key in s.jobs ==> SameJob(s, SweepFrom(cfg, s, now, keys, clk).state, key)
    decreases |keys|
  {
    if key in s.jobs {
      assert KeyOk(s, key);
    }
    if keys != [] {
      var r := SweepKey(cfg, s, keys[0], now, clk[0]);
      SweepKeySpares(cfg, s, keys[0], now, clk[0], key);
      if key in s.jobs {
        SweepOther(cfg, s, keys[0], now, clk[0], key);
      }
      if !r.exited {
        SweepReadyRest(cfg, s, now, keys, clk);
        SweepKeyFrame(cfg, s, keys[0], now, clk[0]);
        assert key !in keys[1..];
        SweepSpares(cfg, r.state, now, keys[1..], clk[1..], key);
        SparesTransitive(s.log, r.state.log, SweepFrom(cfg, s, now, keys, clk).state.log, key);
      }
    }
  }

  /** The creation of a job of key, or a clean cycle of the job registered under it. */
  predicate Refreshes(e: Entry, key: Key) {
    || (e.Created? && e.key == key)
    || (e.CycleEnded? && e.key == key && e.live && e.outcome.Clean())
  }

  ghost predicate RefreshedWithin(log: Log, key: Key, span: int, now: Time) {
    exists q :: 0 <= q < |log| && Refreshes(log[q], key) && now <= log[q].at + span
  }

  /** A sweep within the stall grace of a clean cycle or the creation does not touch the
      registered job at all. */
  lemma RecentlyCleanIsUntouched(cfg: Config, start: Time, s: State, e: Event, key: Key)
    requires Inv(cfg, start, s) && CanStep(cfg, s, e) && e.Sweep?
    requires key in s.jobs ==> RefreshedWithin(s.log, key, cfg.StallGrace(), e.now)
    ensures key !in e.keys
    ensures Spares(s.log, Step(cfg, s, e).log, key)
    ensures key in s.jobs ==> SameJob(s, Step(cfg, s, e), key)
  {
    SweepIsReady(cfg, s, e.now, e.keys, e.clk);
    if key in s.jobs {
      assert KeyOk(s, key);
      assert Bounds(cfg, s.log, key, JobOf(s, key));
      assert JobTimed(cfg, start, s.clock, JobOf(s, key));
      var q :| 0 <= q < |s.log| && Refreshes(s.log[q], key) && e.now <= s.log[q].at + cfg.StallGrace();
      assert EntryBound(cfg, s.log[q], key, JobOf(s, key));
      assert !Stalled(cfg, JobOf(s, key), e.now);
    }
    SweepSpares(cfg, s, e.now, e.keys, e.clk, key);
  }

  lemma OtherEventsSpare(cfg: Config, s: State, e: Event, key: Key)
    requires Sound(s) && CanStep(cfg, s, e) && !e.Sweep?
    ensures Spares(s.log, Step(cfg, s, e).log, key)
  {
    match e {
      case Load(ma, at) => assert Spares(s.log, LoadOne(s, ma, at).log, key);
      case ReconcileTo(items, clk, leftovers) =>
        var s1 := ReconcileItems(s, items, clk);
        ReconcileItemsSpares(s, items, clk, key);
        StopKeysSpares(s1, leftovers, key);
        SparesTransitive(s.log, s1.log, StopKeys(s1, leftovers).log, key);
      case StopAll(keys) => StopKeysSpares(s, keys, key);
      case _ =>
    }
  }

  /** If every sweep of a run comes within the stall grace of a clean cycle or the creation
      of the job registered under key, the run never recreates that job or exits for it. */
  lemma {:induction false} IdleTenantIsLeftAlone(cfg: Config, start: Time, es: seq<Event>, ss: seq<State>,
                                                 key: Key, n: nat)
    requires IsRun(cfg, start, es, ss) && n < |ss|
    requires forall i :: 0 <= i < n && es[i].Sweep? && key in ss[i].jobs ==>
      RefreshedWithin(ss[i].log, key, cfg.StallGrace(), es[i].now)
    ensures forall p :: 0 <= p < |ss[n].log| ==> !Acts(ss[n].log[p], key)
  {
    if n > 0 {
      var s, e := ss[n - 1], es[n - 1];
      IdleTenantIsLeftAlone(cfg, start, es, ss, key, n - 1);
      RunKeepsInvariant(cfg, start, es, ss, n - 1);
      assert Next(cfg, s, e, ss[n]);
      if e.Sweep? {
        RecentlyCleanIsUntouched(cfg, start, s, e, key);
      } else {
        OtherEventsSpare(cfg, s, e, key);
      }
      forall p | 0 <= p < |ss[n].log|
        ensures !Acts(ss[n].log[p], key)
      {
        if p < |s.log| {
          assert ss[n].log[..|s.log|][p] == ss[n].log[p];
        }
      }
    }
  }

  /** After each creation or clean cycle of key another follows within the span, or the
      run ends within it. */
  ghost predicate KeptFresh(log: Log, key: Key, span: int, end: Time) {
    forall q :: 0 <= q < |log| && Refreshes(log[q], key) ==>
      end <= log[q].at + span || FollowedWithin(log, key, span, q)
  }

  ghost predicate FollowedWithin(log: Log, key: Key, span: int, q: nat)
    requires q < |log| && Refreshes(log[q], key)
  {
    exists r :: q < r < |log| && Refreshes(log[r], key) && log[r].at <= log[q].at + span
  }

  lemma LatestRefresh(log: Log, key: Key, c: nat) returns (q: nat)
    requires c < |log| && Refreshes(log[c], key)
    ensures q < |log| && Refreshes(log[q], key)
    ensures forall r :: q < r < |log| ==> !Refreshes(log[r], key)
  {
    q := |log| - 1;
    while !Refreshes(log[q], key)
      invariant c <= q < |log|
      invariant forall r :: q < r < |log| ==> !Refreshes(log[r], key)
      decreases q
    {
      q := q - 1;
    }
  }

  /** If a history keeps the key fresh, so does its part up to now: a refresh that is still
      to come is not earlier than the clock. */
  lemma FreshSoFar(log: Log, longer: Log, key: Key, span: int, now: Time, end: Time, c: nat)
    requires |log| <= |longer| && longer[..|log|] == log && now <= end
    requires forall p :: |log| <= p < |longer| && Refreshes(longer[p], key) ==> now <= longer[p].at
    requires KeptFresh(longer, key, span, end)
    requires c < |log| && Refreshes(log[c], key)
    ensures RefreshedWithin(log, key, span, now)
  {
    var q := LatestRefresh(log, key, c);
    assert forall p :: 0 <= p < |log| ==> longer[p] == log[p];
    if longer[q].at + span < end {
      assert FollowedWithin(longer, key, span, q);
    }
  }

  lemma FreshAtSweep(cfg: Config, start: Time, es: seq<Event>, ss: seq<State>, key: Key, i: nat, n: nat)
    requires IsRun(cfg, start, es, ss) && i < n < |ss| && es[i].Sweep? && key in ss[i].jobs
    requires KeptFresh(ss[n].log, key, cfg.StallGrace(), ss[n].clock)
    ensures RefreshedWithin(ss[i].log, key, cfg.StallGrace(), es[i].now)
  {
    var log := ss[i].log;
    RunKeepsInvariant(cfg, start, es, ss, i);
    assert Next(cfg, ss[i], es[i], ss[i + 1]);
    RunLater(cfg, start, es, ss, i, n);
    HolderWasCreated(log, key, ss[i].jobs[key]);
    var c :| 0 <= c < |log| && log[c].Created? && log[c].id == ss[i].jobs[key] && log[c].key == key;
    FreshSoFar(log, ss[n].log, key, cfg.StallGrace(), es[i].now, ss[n].clock, c);
  }

  /** If clean cycles and creations of a tenant's job are never more than the stall grace
      apart, up to the end of the run, the run never recreates the job or exits for it. */
  lemma CleanTenantIsLeftAlone(cfg: Config, start: Time, es: seq<Event>, ss: seq<State>, key: Key, n: nat)
    requires IsRun(cfg, start, es, ss) && n < |ss|
    requires KeptFresh(ss[n].log, key, cfg.StallGrace(), ss[n].clock)
    ensures forall p :: 0 <= p < |ss[n].log| ==> !Acts(ss[n].log[p], key)
  {
    forall i | 0 <= i < n && es[i].Sweep? && key in ss[i].jobs
      ensures RefreshedWithin(ss[i].log, key, cfg.StallGrace(), es[i].now)
    {
      FreshAtSweep(cfg, start, es, ss, key, i, n);
    }
    IdleTenantIsLeftAlone(cfg, start, es, ss, key, n);
  }
}
