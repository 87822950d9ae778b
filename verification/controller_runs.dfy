/** Runs of the controller: interleavings of its critical sections. */
module ControllerRuns {
  import opened MetricApi
  import opened JobHealth
  import opened ControllerSteps
  import opened ControllerInvariant
  import opened ControllerSoundness
  import opened ControllerKeeps
  import opened SweepLaws

  /** clk holds the clock readings taken inside the critical section. A sweep's now is
      read before the lock is taken, so it may lag behind the clock. */
  datatype Event =
    | Tick(t: Time)
    | StartLeading
    | Load(ma: MetricAccess, at: Time)
    | ReconcileTo(items: seq<MetricAccess>, clk: seq<Time>, leftovers: seq<Key>)
    | Sweep(now: Time, keys: seq<Key>, clk: seq<Time>)
    | StopAll(keys: seq<Key>)
    | SeeTargets(id: nat, metrics: seq<Metric>)
    | FailTarget(id: nat, error: string)
    | EndCycle(id: nat, outcome: Outcome, at: Time)
    | FinishRun(id: nat, wall: Time)

  /** The controller is started once, so loading comes before anything else that makes
      jobs, and the API server lists distinct resources: a resource that is loaded has had
      no job yet. Nothing else is ordered. */
  ghost predicate CanStep(cfg: Config, s: State, e: Event)
    requires Sound(s)
  {
    match e
    case Tick(t) => s.clock <= t
    case StartLeading => true
    case Load(ma, at) =>
      s.clock <= at && forall id: nat :: id < |s.store| ==> KeyOf(s.store[id].access) != KeyOf(ma)
    case ReconcileTo(items, clk, leftovers) =>
      && |items| == |clk| && Readings(s.clock, clk)
      && ListsLeftovers(ReconcileItems(s, items, clk), DesiredKeys(items), leftovers)
    case Sweep(now, keys, clk) =>
      0 < now <= s.clock && |keys| == |clk| && Readings(s.clock, clk) && ListsStalled(cfg, s, now, keys)
    case StopAll(keys) => ListsLeftovers(s, {}, keys)
    case SeeTargets(id, _) => id < |s.store|
    case FailTarget(id, _) => id < |s.store|
    case EndCycle(id, o, at) => id < |s.store| && CycleOk(s, o, at)
    case FinishRun(id, _) => id < |s.store|
  }

  ghost function Step(cfg: Config, s: State, e: Event): State
    requires Sound(s) && CanStep(cfg, s, e)
  {
    match e
    case Tick(t) => s.(clock := t)
    case StartLeading => Lead(s)
    case Load(ma, at) => LoadOne(s, ma, at)
    case ReconcileTo(items, clk, leftovers) => Reconcile(s, items, clk, leftovers)
    case Sweep(now, keys, clk) => SweepFrom(cfg, s, now, keys, clk).state
    case StopAll(keys) => StopKeys(s, keys)
    case SeeTargets(id, metrics) => RecordTargetsSeen(s, id, metrics)
    case FailTarget(id, error) => RecordTargetError(s, id, error)
    case EndCycle(id, o, at) => RecordCycle(s, id, o, at)
    case FinishRun(id, wall) => RecordRun(s, id, wall)
  }

  /** One event. Sound(s) restricts nothing: RunKeepsInvariant shows it of every run. */
  ghost predicate Next(cfg: Config, s: State, e: Event, s': State) {
    Sound(s) && CanStep(cfg, s, e) && s' == Step(cfg, s, e)
  }

  /** ss are the states of a run of a fresh controller through the events es. */
  ghost predicate IsRun(cfg: Config, start: Time, es: seq<Event>, ss: seq<State>) {
    && 0 < start
    && |ss| == |es| + 1
    && ss[0] == Fresh(start)
    && forall i :: 0 <= i < |es| ==> Next(cfg, ss[i], es[i], ss[i + 1])
  }

  // ---------------------------------------------------------------------------
  // Each event keeps the invariant

  lemma SweepKeyKeeps(cfg: Config, start: Time, s: State, key: Key, now: Time, at: Time)
    requires Inv(cfg, start, s) && key in s.jobs && KeyOk(s, key)
    requires 0 < now <= s.clock <= at && Stalled(cfg, JobOf(s, key), now)
    ensures Inv(cfg, start, SweepKey(cfg, s, key, now, at).state)
    ensures SweepKey(cfg, s, key, now, at).state.clock <= at
  {
    var s1 := SeedStall(s, key, now);
    SeedKeeps(cfg, start, s, key, now);
    var j := JobOf(s1, key);
    assert KeyOk(s1, key) && Stalled(cfg, j, now);
    if Escalates(cfg, s.isLeader, j, now) {
      if CooldownOpen(cfg, s1, now) {
        ExitKeeps(cfg, start, s1, key, now);
      }
    } else if j.lastHadTargets && !Throttled(cfg, j, now) {
      RecreateKeeps(cfg, start, s1, key, now, at);
    }
  }

  lemma {:induction false} SweepKeeps(cfg: Config, start: Time, s: State, now: Time, keys: seq<Key>, clk: seq<Time>)
    requires Inv(cfg, start, s) && 0 < now <= s.clock
    requires SweepReady(cfg, s, now, keys, clk) && Readings(s.clock, clk)
    ensures Inv(cfg, start, SweepFrom(cfg, s, now, keys, clk).state)
    decreases |keys|
  {
    if keys != [] {
      var key, at := keys[0], clk[0];
      var r := SweepKey(cfg, s, key, now, at);
      SweepKeyKeeps(cfg, start, s, key, now, at);
      if !r.exited {
        SweepReadyRest(cfg, s, now, keys, clk);
        SweepClock(cfg, s, key, now, at);
        ReadingsRest(s.clock, clk, r.state.clock);
        SweepKeeps(cfg, start, r.state, now, keys[1..], clk[1..]);
      }
    }
  }

  lemma SweepClock(cfg: Config, s: State, key: Key, now: Time, at: Time)
    requires key in s.jobs && KeyOk(s, key) && s.clock <= at
    ensures s.clock <= SweepKey(cfg, s, key, now, at).state.clock <= at
  {}

  lemma {:induction false} StopKeysKeeps(cfg: Config, start: Time, s: State, keys: seq<Key>)
    requires Inv(cfg, start, s)
    ensures Inv(cfg, start, StopKeys(s, keys))
    decreases |keys|
  {
    if keys != [] {
      if keys[0] in s.jobs {
        assert KeyOk(s, keys[0]);
        StopKeeps(cfg, start, s, keys[0]);
        StopKeysKeeps(cfg, start, StopJob(s, keys[0]), keys[1..]);
      } else {
        StopKeysKeeps(cfg, start, s, keys[1..]);
      }
    }
  }

  lemma ReconcileItemKeeps(cfg: Config, start: Time, s: State, ma: MetricAccess, at: Time)
    requires Inv(cfg, start, s) && s.clock <= at
    ensures Inv(cfg, start, ReconcileItem(s, ma, at))
    ensures ReconcileItem(s, ma, at).clock <= at
  {
    var key := KeyOf(ma);
    if WantsJob(ma) {
      if key in s.jobs {
        assert KeyOk(s, key);
        if ConfigChanged(JobOf(s, key).access, ma) {
          StopKeeps(cfg, start, s, key);
          if Collectable(ma) {
            CreateKeeps(cfg, start, StopJob(s, key), ma, at);
          }
        }
      } else if Collectable(ma) {
        CreateKeeps(cfg, start, s, ma, at);
      }
    }
  }

  lemma {:induction false} ReconcileItemsKeeps(cfg: Config, start: Time, s: State,
                                               items: seq<MetricAccess>, clk: seq<Time>)
    requires Inv(cfg, start, s) && |items| == |clk| && Readings(s.clock, clk)
    ensures Inv(cfg, start, ReconcileItems(s, items, clk))
    decreases |items|
  {
    if items != [] {
      ReconcileItemKeeps(cfg, start, s, items[0], clk[0]);
      ReadingsRest(s.clock, clk, ReconcileItem(s, items[0], clk[0]).clock);
      ReconcileItemsKeeps(cfg, start, ReconcileItem(s, items[0], clk[0]), items[1..], clk[1..]);
    }
  }

  lemma LoadKeeps(cfg: Config, start: Time, s: State, ma: MetricAccess, at: Time)
    requires Inv(cfg, start, s) && s.clock <= at
    requires forall id: nat :: id < |s.store| ==> KeyOf(s.store[id].access) != KeyOf(ma)
    ensures Inv(cfg, start, LoadOne(s, ma, at))
  {
    var key := KeyOf(ma);
    assert key in s.jobs ==> KeyOk(s, key);
    if Collectable(ma) {
      CreateKeeps(cfg, start, s, ma, at);
    }
  }

  lemma StepKeeps(cfg: Config, start: Time, s: State, e: Event)
    requires Inv(cfg, start, s) && CanStep(cfg, s, e)
    ensures Inv(cfg, start, Step(cfg, s, e))
  {
    match e {
      case Tick(t) => TickKeeps(cfg, start, s, t);
      case StartLeading => LeadKeeps(cfg, start, s);
      case Load(ma, at) => LoadKeeps(cfg, start, s, ma, at);
      case ReconcileTo(items, clk, leftovers) =>
        ReconcileItemsKeeps(cfg, start, s, items, clk);
        StopKeysKeeps(cfg, start, ReconcileItems(s, items, clk), leftovers);
      case Sweep(now, keys, clk) =>
        SweepIsReady(cfg, s, now, keys, clk);
        SweepKeeps(cfg, start, s, now, keys, clk);
      case StopAll(keys) => StopKeysKeeps(cfg, start, s, keys);
      case SeeTargets(id, metrics) => TargetsSeenKeeps(cfg, start, s, id, metrics);
      case FailTarget(id, error) => TargetErrorKeeps(cfg, start, s, id, error);
      case EndCycle(id, o, at) => CycleKeeps(cfg, start, s, id, o, at);
      case FinishRun(id, wall) => RunKeeps(cfg, start, s, id, wall);
    }
  }

  lemma FreshIsInvariant(cfg: Config, start: Time)
    requires 0 < start
    ensures Inv(cfg, start, Fresh(start))
  {}

  /** Every state of every run satisfies the invariant. */
  lemma {:induction false} RunKeepsInvariant(cfg: Config, start: Time, es: seq<Event>, ss: seq<State>, i: nat)
    requires IsRun(cfg, start, es, ss) && i < |ss|
    ensures Inv(cfg, start, ss[i])
  {
    if i == 0 {
      FreshIsInvariant(cfg, start);
    } else {
      RunKeepsInvariant(cfg, start, es, ss, i - 1);
      assert Next(cfg, ss[i - 1], es[i - 1], ss[i]);
      StepKeeps(cfg, start, ss[i - 1], es[i - 1]);
    }
  }
}
