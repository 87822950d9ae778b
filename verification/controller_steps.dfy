/** The controller as a state machine. Each step is one critical section under the
    controller's lock, so a run is any interleaving of them: cycles of registered
    jobs, late cycles of jobs that were already stopped, reconciles and sweeps.
    The log is a history variable that the controller itself never reads. */
module ControllerSteps {
  import opened MetricApi
  import opened JobHealth

  datatype Entry =
    | BecameLeader
    | Created(id: nat, key: Key, at: Time)
    | Stopped(id: nat, key: Key)
    | Recreated(id: nat, key: Key, previous: nat, at: Time)
    | SeenStalled(id: nat, key: Key, at: Time)
    | Exited(id: nat, key: Key, at: Time)
    | SawTargets(id: nat)
    | TargetFailed(id: nat)
    | CycleEnded(id: nat, key: Key, live: bool, outcome: Outcome, at: Time)

  /** store holds every job struct ever made, in order of creation; jobs registers
      some of them. A struct that is not registered may still be written to by the
      goroutine that was running it. */
  datatype State = State(
    clock: Time,
    jobs: map<Key, nat>,
    store: seq<Job>,
    collected: map<Key, seq<Metric>>,
    isLeader: bool,
    lastSelfRestartAt: Time,
    selfRestartTotal: int,
    log: seq<Entry>)

  function Fresh(start: Time): State {
    State(start, map[], [], map[], false, 0, 0, [])
  }

  /** The registered job of a key. */
  function JobOf(s: State, key: Key): Job
    requires key in s.jobs && s.jobs[key] < |s.store|
  {
    s.store[s.jobs[key]]
  }

  /** Struct id is the one registered under its own key. */
  predicate Live(s: State, id: nat)
    requires id < |s.store|
  {
    var key := KeyOf(s.store[id].access);
    key in s.jobs && s.jobs[key] == id
  }

  // ---------------------------------------------------------------------------
  // Creating and stopping jobs

  function CreateJob(s: State, ma: MetricAccess, at: Time): State
    requires ma.remoteWrite.Some?
  {
    if SupportedType(ma.remoteWrite.value.targetType) then
      var key := KeyOf(ma);
      s.(jobs := s.jobs[key := |s.store|],
         store := s.store + [NewJob(ma, at)],
         clock := at,
         log := s.log + [Created(|s.store|, key, at)])
    else
      s
  }

  function StopJob(s: State, key: Key): State
    requires key in s.jobs && s.jobs[key] < |s.store|
  {
    var id := s.jobs[key];
    s.(jobs := s.jobs - {key},
       store := s.store[id := s.store[id].(stopOpen := false)],
       log := s.log + [Stopped(id, key)])
  }

  predicate AllRegistered(s: State) {
    forall key :: key in s.jobs ==> s.jobs[key] < |s.store|
  }

  /** Stops the keys of a list one after the other, skipping those not registered. */
  function StopKeys(s: State, keys: seq<Key>): (s': State)
    requires AllRegistered(s)
    ensures AllRegistered(s')
    decreases |keys|
  {
    if keys == [] then s
    else if keys[0] in s.jobs then StopKeys(StopJob(s, keys[0]), keys[1..])
    else StopKeys(s, keys[1..])
  }

  // ---------------------------------------------------------------------------
  // Collection cycles

  function RecordTargetsSeen(s: State, id: nat, metrics: seq<Metric>): State
    requires id < |s.store|
  {
    s.(store := s.store[id := s.store[id].(lastHadTargets := true)],
       collected := s.collected[KeyOf(s.store[id].access) := metrics],
       log := s.log + [SawTargets(id)])
  }

  function RecordTargetError(s: State, id: nat, error: string): State
    requires id < |s.store|
  {
    s.(store := s.store[id := AfterTargetError(s.store[id], error)],
       log := s.log + [TargetFailed(id)])
  }

  function RecordRun(s: State, id: nat, wall: Time): State
    requires id < |s.store|
  {
    s.(store := s.store[id := s.store[id].(lastRun := wall)])
  }

  /** The end of a cycle; a clean one reads the clock (at). */
  function RecordCycle(s: State, id: nat, o: Outcome, at: Time): State
    requires id < |s.store|
  {
    var j := s.store[id];
    var key := KeyOf(j.access);
    s.(store := s.store[id := AfterCycle(j, o, at)],
       collected := if o.NoTargets? then s.collected[key := []] else s.collected,
       clock := if o.Clean() then at else s.clock,
       log := s.log + [CycleEnded(id, key, Live(s, id), o, at)])
  }

  /** The clock readings of the end of a cycle. */
  predicate CycleOk(s: State, o: Outcome, at: Time) {
    match o
    case Success(series, successAt) => series > 0 && s.clock <= successAt <= at
    case CleanEmpty => s.clock <= at
    case _ => true
  }

  // ---------------------------------------------------------------------------
  // Loading and reconciling

  /** Loading takes the lock once per resource. */
  function LoadOne(s: State, ma: MetricAccess, at: Time): State {
    if WantsJob(ma) then CreateJob(s, ma, at) else s
  }

  function LoadFrom(s: State, items: seq<MetricAccess>, clk: seq<Time>): State
    requires |items| == |clk|
    decreases |items|
  {
    if items == [] then s else LoadFrom(LoadOne(s, items[0], clk[0]), items[1..], clk[1..])
  }

  /** What counts as a change that restarts a job. */
  predicate ConfigChanged(o: MetricAccess, n: MetricAccess) {
    || o.metricIsolation != n.metricIsolation
    || |o.metrics| != |n.metrics|
    || (exists m :: m in n.metrics && m !in o.metrics)
    || (o.remoteWrite.Some? && n.remoteWrite.Some? &&
        RemoteWriteChanged(o.remoteWrite.value, n.remoteWrite.value))
  }

  predicate RemoteWriteChanged(o: RemoteWriteSpec, n: RemoteWriteSpec) {
    || o.interval != n.interval
    || o.targetType != n.targetType
    || o.extraLabels != n.extraLabels
    || |o.relabelings| != |n.relabelings|
    || (o.prometheus.Some? && n.prometheus.Some? &&
        (o.prometheus.value.replicas != n.prometheus.value.replicas ||
         o.prometheus.value.statefulSetName != n.prometheus.value.statefulSetName))
  }

  /** One item of the desired list: create, restart on a change, or keep. */
  function ReconcileItem(s: State, ma: MetricAccess, at: Time): (s': State)
    requires AllRegistered(s)
    ensures AllRegistered(s')
  {
    var key := KeyOf(ma);
    if !WantsJob(ma) then s
    else if key !in s.jobs then CreateJob(s, ma, at)
    else if ConfigChanged(JobOf(s, key).access, ma) then CreateJob(StopJob(s, key), ma, at)
    else s
  }

  function ReconcileItems(s: State, items: seq<MetricAccess>, clk: seq<Time>): (s': State)
    requires AllRegistered(s)
    requires |items| == |clk|
    ensures AllRegistered(s')
    decreases |items|
  {
    if items == [] then s
    else ReconcileItems(ReconcileItem(s, items[0], clk[0]), items[1..], clk[1..])
  }

  function DesiredKeys(items: seq<MetricAccess>): set<Key> {
    set ma | ma in items && WantsJob(ma) :: KeyOf(ma)
  }

  /** keys lists the registered keys that are not desired, each once, in some order. */
  ghost predicate ListsLeftovers(s: State, desired: set<Key>, keys: seq<Key>) {
    && NoDuplicates(keys)
    && forall k :: k in keys <==> (k in s.jobs && k !in desired)
  }

  /** A reconcile: the items in order, then the leftovers in any order. */
  function Reconcile(s: State, items: seq<MetricAccess>, clk: seq<Time>, leftovers: seq<Key>): (s': State)
    requires AllRegistered(s)
    requires |items| == |clk|
    ensures AllRegistered(s')
  {
    StopKeys(ReconcileItems(s, items, clk), leftovers)
  }

  // ---------------------------------------------------------------------------
  // The watchdog sweep

  /** The restart throttle: open if there was no self-restart within the cooldown. */
  predicate CooldownOpen(cfg: Config, s: State, now: Time) {
    s.lastSelfRestartAt == 0 || now - s.lastSelfRestartAt >= cfg.RestartCooldown()
  }

  function SeedStall(s: State, key: Key, now: Time): State
    requires key in s.jobs && s.jobs[key] < |s.store|
  {
    var id := s.jobs[key];
    if s.store[id].stalledSince == 0 then
      s.(store := s.store[id := Seed(s.store[id], now)],
         log := s.log + [SeenStalled(id, key, now)])
    else
      s
  }

  function Lead(s: State): State {
    s.(isLeader := true, log := s.log + [BecameLeader])
  }

  function Exit(s: State, key: Key, now: Time): State
    requires key in s.jobs
  {
    s.(lastSelfRestartAt := now,
       selfRestartTotal := s.selfRestartTotal + 1,
       log := s.log + [Exited(s.jobs[key], key, now)])
  }

  /** Copies the throttle state of struct previous onto the registered job of a key. */
  function Carry(s: State, key: Key, previous: nat, now: Time): State
    requires key in s.jobs && s.jobs[key] < |s.store| && previous < |s.store|
  {
    var id := s.jobs[key];
    var p := s.store[previous];
    s.(store := s.store[id := s.store[id].(
                  lastRecreateAt := now,
                  recreateCount := p.recreateCount + 1,
                  stalledSince := p.stalledSince,
                  lastHadTargets := p.lastHadTargets)],
       log := s.log + [Recreated(id, key, previous, now)])
  }

  /** Stop, create from the stopped struct's resource, carry the throttle state over. */
  function Recreate(s: State, key: Key, now: Time, at: Time): State
    requires key in s.jobs && s.jobs[key] < |s.store|
    requires JobOf(s, key).access.remoteWrite.Some?
    requires KeyOf(JobOf(s, key).access) == key
  {
    var id := s.jobs[key];
    var ma := s.store[id].access;
    var created := CreateJob(StopJob(s, key), ma, at);
    if SupportedType(ma.remoteWrite.value.targetType) then Carry(created, key, id, now) else created
  }

  datatype Swept = Swept(state: State, exited: bool)

  /** What the sweep does for a stalled key once its stall is on record. at is the clock
      reading of a recreate. */
  function Heal(cfg: Config, s: State, key: Key, now: Time, at: Time): Swept
    requires key in s.jobs && s.jobs[key] < |s.store|
    requires JobOf(s, key).access.remoteWrite.Some?
    requires KeyOf(JobOf(s, key).access) == key
  {
    var j := JobOf(s, key);
    if Escalates(cfg, s.isLeader, j, now) then
      if CooldownOpen(cfg, s, now) then Swept(Exit(s, key, now), true) else Swept(s, false)
    else if !j.lastHadTargets || Throttled(cfg, j, now) then
      Swept(s, false)
    else
      Swept(Recreate(s, key, now, at), false)
  }

  /** What the sweep does for one stalled key. */
  function SweepKey(cfg: Config, s: State, key: Key, now: Time, at: Time): Swept
    requires key in s.jobs && s.jobs[key] < |s.store|
    requires JobOf(s, key).access.remoteWrite.Some?
    requires KeyOf(JobOf(s, key).access) == key
  {
    Heal(cfg, SeedStall(s, key, now), key, now, at)
  }

  predicate KeyOk(s: State, key: Key) {
    && key in s.jobs
    && s.jobs[key] < |s.store|
    && Collectable(JobOf(s, key).access)
    && KeyOf(JobOf(s, key).access) == key
  }

  /** Every registration is sound. */
  predicate KeysOk(s: State) {
    forall key :: key in s.jobs ==> KeyOk(s, key)
  }

  lemma SeedKeepsKeys(s: State, key: Key, now: Time)
    requires KeysOk(s) && key in s.jobs && KeyOk(s, key)
    ensures KeysOk(SeedStall(s, key, now))
  {}

  lemma RecreateKeepsKeys(s: State, key: Key, now: Time, at: Time)
    requires KeysOk(s) && key in s.jobs && KeyOk(s, key)
    ensures KeysOk(Recreate(s, key, now, at))
    ensures Recreate(s, key, now, at).jobs == s.jobs[key := |s.store|]
  {
    var s' := Recreate(s, key, now, at);
    assert s'.jobs == s.jobs[key := |s.store|];
    forall k | k in s'.jobs
      ensures KeyOk(s', k)
    {
      if k != key {
        assert KeyOk(s, k);
        if s.jobs[k] == s.jobs[key] {
          assert false;
        }
      }
    }
  }

  lemma ExitKeepsKeys(s: State, key: Key, now: Time)
    requires KeysOk(s) && key in s.jobs
    ensures KeysOk(Exit(s, key, now))
  {}

  lemma SweepKeyFrame(cfg: Config, s: State, key: Key, now: Time, at: Time)
    requires KeysOk(s) && key in s.jobs && KeyOk(s, key)
    ensures KeysOk(SweepKey(cfg, s, key, now, at).state)
    ensures SweepKey(cfg, s, key, now, at).state.jobs.Keys == s.jobs.Keys
  {
    var s1 := SeedStall(s, key, now);
    SeedKeepsKeys(s, key, now);
    assert KeyOk(s1, key);
    HealFrame(cfg, s1, key, now, at);
  }

  lemma HealFrame(cfg: Config, s: State, key: Key, now: Time, at: Time)
    requires KeysOk(s) && key in s.jobs && KeyOk(s, key)
    ensures KeysOk(Heal(cfg, s, key, now, at).state)
    ensures Heal(cfg, s, key, now, at).state.jobs.Keys == s.jobs.Keys
  {
    RecreateKeepsKeys(s, key, now, at);
    ExitKeepsKeys(s, key, now);
  }

  function SweepFrom(cfg: Config, s: State, now: Time, keys: seq<Key>, clk: seq<Time>): (r: Swept)
    requires KeysOk(s)
    requires |keys| == |clk|
    requires forall k :: k in keys ==> k in s.jobs
    decreases |keys|
  {
    if keys == [] then Swept(s, false)
    else
      var r := SweepKey(cfg, s, keys[0], now, clk[0]);
      if r.exited then r
      else
        SweepKeyFrame(cfg, s, keys[0], now, clk[0]);
        assert forall k :: k in keys[1..] ==> k in keys;
        SweepFrom(cfg, r.state, now, keys[1..], clk[1..])
  }

  /** keys lists the stalled keys, each once, in some order. */
  ghost predicate ListsStalled(cfg: Config, s: State, now: Time, keys: seq<Key>)
    requires KeysOk(s)
  {
    && NoDuplicates(keys)
    && forall k :: k in keys <==> (k in s.jobs && Stalled(cfg, JobOf(s, k), now))
  }

  /** Clock readings taken one after the other, the first not before from. */
  predicate Readings(from: Time, clk: seq<Time>) {
    && (forall i :: 0 <= i < |clk| ==> from <= clk[i])
    && (forall i, j :: 0 <= i < j < |clk| ==> clk[i] <= clk[j])
  }

  lemma ReadingsRest(from: Time, clk: seq<Time>, next: Time)
    requires Readings(from, clk) && clk != [] && next <= clk[0]
    ensures Readings(next, clk[1..])
  {}
}
