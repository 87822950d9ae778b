/** A run of the program that restarts although the current stall saw no recreate: the
    recreate count survives a clean empty cycle, and the new stall begins while there are
    no targets, when nothing is recreated. */
module RestartTrace {
  import opened MetricApi
  import opened JobHealth
  import opened ControllerSteps
  import opened ControllerSoundness
  import opened ControllerInvariant
  import opened ControllerRuns
  import opened ControllerRefinement
  import opened History
  import opened StallEpisodes

  /** All grace periods and throttles are one nanosecond. */
  const EAGER := Config(1, 1, 1, 1, Some(true), 0)

  /** The reconcile loop ticks every 30 seconds. */
  const FIRST: Time := 30_000_000_001
  const SECOND: Time := 60_000_000_001
  const THIRD: Time := 90_000_000_001

  const SAMPLE := Metric("up", map[], 1.0, 0)

  /** Loading, then the loop; the first cycle hangs while it sends. */
  function Opening(ma: MetricAccess): seq<Event> {
    [Load(ma, 1), StartLeading] + [SeeTargets(0, [SAMPLE])] + [Tick(FIRST)]
  }

  /** The first tick: a reconcile that changes nothing, and a sweep that recreates the job. */
  function FirstTick(ma: MetricAccess): seq<Event> {
    Opening(ma) + [ReconcileTo([ma], [FIRST], [])] + [Sweep(FIRST, [KeyOf(ma)], [FIRST])]
  }

  /** The new job finds healthy targets but no series, and in its next cycle no targets. */
  function IdleCycles(ma: MetricAccess): seq<Event> {
    FirstTick(ma) + [SeeTargets(1, [])] + [EndCycle(1, CleanEmpty, FIRST)] + [FinishRun(1, FIRST)] +
    [Tick(SECOND)] + [EndCycle(1, NoTargets(SECOND), SECOND)]
  }

  /** The second tick sees the new stall, but without targets it recreates nothing. */
  function SecondTick(ma: MetricAccess): seq<Event> {
    IdleCycles(ma) + [ReconcileTo([ma], [SECOND], [])] + [Sweep(SECOND, [KeyOf(ma)], [SECOND])]
  }

  /** The targets are back, the cycle hangs while it sends, and the third tick restarts. */
  function Trace(ma: MetricAccess): seq<Event> {
    SecondTick(ma) + [Tick(THIRD)] + [SeeTargets(1, [SAMPLE])] +
    [ReconcileTo([ma], [THIRD], [])] + [Sweep(THIRD, [KeyOf(ma)], [THIRD])]
  }

  // ---------------------------------------------------------------------------
  // Following the trace

  ghost predicate Reaches(es: seq<Event>, s: State) {
    Inv(EAGER, 1, s) && exists ss: seq<State> :: Leads(EAGER, Fresh(1), es, ss, s)
  }

  lemma Go(es: seq<Event>, s: State, e: Event)
    requires Reaches(es, s) && CanStep(EAGER, s, e)
    ensures Reaches(es + [e], Step(EAGER, s, e))
  {
    var ss: seq<State> :| Leads(EAGER, Fresh(1), es, ss, s);
    StepKeeps(EAGER, 1, s, e);
    LeadsOn(EAGER, Fresh(1), es, ss, s, e, Step(EAGER, s, e));
  }

  /** The sweeps of a log are in order, and none reads a later time than t. */
  predicate InOrderUpTo(log: Log, t: Time) {
    SweepsInOrder(log) && forall i :: 0 <= i < |log| && BySweep(log[i]) ==> log[i].at <= t
  }

  lemma OrderSnoc(log: Log, e: Entry, t: Time, t': Time)
    requires InOrderUpTo(log, t) && t <= t' && (BySweep(e) ==> e.at == t')
    ensures InOrderUpTo(log + [e], t')
  {}

  /** A state with one registered job, struct id. */
  ghost predicate Shows(s: State, clock: Time, ma: MetricAccess, id: nat, j: Job) {
    && s.clock == clock && s.jobs == map[KeyOf(ma) := id] && |s.store| == id + 1 && s.store[id] == j
    && s.isLeader && s.lastSelfRestartAt == 0 && j.access == ma && InOrderUpTo(s.log, clock)
  }

  lemma Start(ma: MetricAccess) returns (s: State)
    requires Collectable(ma)
    ensures Reaches([Load(ma, 1), StartLeading], s) && Shows(s, 1, ma, 0, NewJob(ma, 1))
  {
    FreshIsInvariant(EAGER, 1);
    assert Leads(EAGER, Fresh(1), [], [Fresh(1)], Fresh(1));
    Go([], Fresh(1), Load(ma, 1));
    s := LoadOne(Fresh(1), ma, 1);
    Go([] + [Load(ma, 1)], s, StartLeading);
    assert [] + [Load(ma, 1)] + [StartLeading] == [Load(ma, 1), StartLeading];
    s := Lead(s);
  }

  lemma Wait(es: seq<Event>, s: State, clock: Time, ma: MetricAccess, id: nat, j: Job, t: Time) returns (s': State)
    requires Reaches(es, s) && Shows(s, clock, ma, id, j) && clock <= t
    ensures Reaches(es + [Tick(t)], s') && Shows(s', t, ma, id, j)
  {
    Go(es, s, Tick(t));
    s' := s.(clock := t);
  }

  lemma See(es: seq<Event>, s: State, clock: Time, ma: MetricAccess, id: nat, j: Job, ms: seq<Metric>)
    returns (s': State)
    requires Reaches(es, s) && Shows(s, clock, ma, id, j)
    ensures Reaches(es + [SeeTargets(id, ms)], s') && Shows(s', clock, ma, id, j.(lastHadTargets := true))
  {
    Go(es, s, SeeTargets(id, ms));
    s' := RecordTargetsSeen(s, id, ms);
    OrderSnoc(s.log, SawTargets(id), clock, clock);
  }

  lemma End(es: seq<Event>, s: State, clock: Time, ma: MetricAccess, id: nat, j: Job, o: Outcome) returns (s': State)
    requires Reaches(es, s) && Shows(s, clock, ma, id, j) && !o.Success?
    ensures Reaches(es + [EndCycle(id, o, clock)], s') && Shows(s', clock, ma, id, AfterCycle(j, o, clock))
  {
    Go(es, s, EndCycle(id, o, clock));
    s' := RecordCycle(s, id, o, clock);
    OrderSnoc(s.log, CycleEnded(id, KeyOf(ma), Live(s, id), o, clock), clock, clock);
  }

  lemma Finish(es: seq<Event>, s: State, clock: Time, ma: MetricAccess, id: nat, j: Job, wall: Time)
    returns (s': State)
    requires Reaches(es, s) && Shows(s, clock, ma, id, j)
    ensures Reaches(es + [FinishRun(id, wall)], s') && Shows(s', clock, ma, id, j.(lastRun := wall))
  {
    Go(es, s, FinishRun(id, wall));
    s' := RecordRun(s, id, wall);
  }

  /** Reconciling the resource of the job changes nothing. */
  lemma Reconciled(es: seq<Event>, s: State, clock: Time, ma: MetricAccess, id: nat, j: Job)
    requires Reaches(es, s) && Shows(s, clock, ma, id, j) && WantsJob(ma)
    ensures Reaches(es + [ReconcileTo([ma], [clock], [])], s)
  {
    assert ReconcileItem(s, ma, clock) == s;
    assert ReconcileItems(s, [ma], [clock]) == s by {
      assert [ma][1..] == [] && [clock][1..] == [];
    }
    assert ma in [ma];
    assert ListsLeftovers(s, DesiredKeys([ma]), []);
    Go(es, s, ReconcileTo([ma], [clock], []));
  }

  /** A sweep over a stalled job. */
  lemma SweepOnce(es: seq<Event>, s: State, clock: Time, ma: MetricAccess, id: nat, j: Job)
    requires Reaches(es, s) && Shows(s, clock, ma, id, j) && Stalled(EAGER, j, clock)
    ensures KeyOk(s, KeyOf(ma))
    ensures Reaches(es + [Sweep(clock, [KeyOf(ma)], [clock])], SweepKey(EAGER, s, KeyOf(ma), clock, clock).state)
  {
    assert KeyOk(s, KeyOf(ma));
    OneJobSweep(EAGER, s, KeyOf(ma), id, clock);
    Go(es, s, Sweep(clock, [KeyOf(ma)], [clock]));
  }

  lemma OneJobSweep(cfg: Config, s: State, key: Key, id: nat, now: Time)
    requires Sound(s) && s.jobs == map[key := id] && KeyOk(s, key) && 0 < now == s.clock
    requires Stalled(cfg, JobOf(s, key), now)
    ensures CanStep(cfg, s, Sweep(now, [key], [now]))
    ensures Step(cfg, s, Sweep(now, [key], [now])) == SweepKey(cfg, s, key, now, now).state
  {
    var r := SweepKey(cfg, s, key, now, now);
    SweepKeyFrame(cfg, s, key, now, now);
    if !r.exited {
      assert SweepFrom(cfg, r.state, now, [key][1..], [now][1..]) == ControllerSteps.Swept(r.state, false);
    }
  }

  // ---------------------------------------------------------------------------
  // The three ticks

  function FirstJob(ma: MetricAccess): Job {
    NewJob(ma, 1).(lastHadTargets := true)
  }

  function SecondJob(ma: MetricAccess): Job {
    Successor(Seed(FirstJob(ma), FIRST), FIRST, FIRST)
  }

  /** The second job after its two cycles. */
  function IdleJob(ma: MetricAccess): Job {
    AfterCycle(AfterCycle(SecondJob(ma), CleanEmpty, FIRST).(lastRun := FIRST), NoTargets(SECOND), SECOND)
  }

  lemma ReachOpening(ma: MetricAccess) returns (s: State)
    requires Collectable(ma)
    ensures Reaches(Opening(ma), s) && Shows(s, FIRST, ma, 0, FirstJob(ma))
  {
    s := Start(ma);
    s := See([Load(ma, 1), StartLeading], s, 1, ma, 0, NewJob(ma, 1), [SAMPLE]);
    s := Wait([Load(ma, 1), StartLeading] + [SeeTargets(0, [SAMPLE])], s, 1, ma, 0, FirstJob(ma), FIRST);
  }

  lemma ReachFirstTick(ma: MetricAccess) returns (s: State)
    requires Collectable(ma)
    ensures Reaches(FirstTick(ma), s) && Shows(s, FIRST, ma, 1, SecondJob(ma))
  {
    var s0 := ReachOpening(ma);
    Reconciled(Opening(ma), s0, FIRST, ma, 0, FirstJob(ma));
    SweepOnce(Opening(ma) + [ReconcileTo([ma], [FIRST], [])], s0, FIRST, ma, 0, FirstJob(ma));
    s := SweepKey(EAGER, s0, KeyOf(ma), FIRST, FIRST).state;
    FirstSweepShows(ma, s0);
  }

  lemma FirstSweepShows(ma: MetricAccess, s: State)
    requires Collectable(ma) && Shows(s, FIRST, ma, 0, FirstJob(ma))
    ensures KeyOk(s, KeyOf(ma))
    ensures Shows(SweepKey(EAGER, s, KeyOf(ma), FIRST, FIRST).state, FIRST, ma, 1, SecondJob(ma))
  {
    var key := KeyOf(ma);
    var s' := SweepKey(EAGER, s, key, FIRST, FIRST).state;
    var log1 := s.log + [SeenStalled(0, key, FIRST)];
    var log2 := log1 + [Stopped(0, key)];
    var log3 := log2 + [Created(1, key, FIRST)];
    OrderSnoc(s.log, SeenStalled(0, key, FIRST), FIRST, FIRST);
    OrderSnoc(log1, Stopped(0, key), FIRST, FIRST);
    OrderSnoc(log2, Created(1, key, FIRST), FIRST, FIRST);
    OrderSnoc(log3, Recreated(1, key, 0, FIRST), FIRST, FIRST);
    assert s'.log == log3 + [Recreated(1, key, 0, FIRST)];
    assert s'.jobs == map[key := 1];
  }

  lemma ReachIdleCycles(ma: MetricAccess) returns (s: State)
    requires Collectable(ma)
    ensures Reaches(IdleCycles(ma), s) && Shows(s, SECOND, ma, 1, IdleJob(ma))
  {
    s := ReachFirstTick(ma);
    var es, j := FirstTick(ma), SecondJob(ma);
    s := See(es, s, FIRST, ma, 1, j, []);
    assert j.(lastHadTargets := true) == j;
    es := es + [SeeTargets(1, [])];
    s := End(es, s, FIRST, ma, 1, j, CleanEmpty);
    es, j := es + [EndCycle(1, CleanEmpty, FIRST)], AfterCycle(j, CleanEmpty, FIRST);
    s := Finish(es, s, FIRST, ma, 1, j, FIRST);
    es, j := es + [FinishRun(1, FIRST)], j.(lastRun := FIRST);
    s := Wait(es, s, FIRST, ma, 1, j, SECOND);
    s := End(es + [Tick(SECOND)], s, SECOND, ma, 1, j, NoTargets(SECOND));
  }

  /** The job when it is due: its stall was seen at the second tick. */
  function DueJob(ma: MetricAccess): Job {
    IdleJob(ma).(stalledSince := SECOND, lastHadTargets := true)
  }

  lemma ReachSecondTick(ma: MetricAccess) returns (s: State)
    requires Collectable(ma)
    ensures Reaches(SecondTick(ma), s) && Shows(s, SECOND, ma, 1, IdleJob(ma).(stalledSince := SECOND))
  {
    var s0 := ReachIdleCycles(ma);
    Reconciled(IdleCycles(ma), s0, SECOND, ma, 1, IdleJob(ma));
    SweepOnce(IdleCycles(ma) + [ReconcileTo([ma], [SECOND], [])], s0, SECOND, ma, 1, IdleJob(ma));
    s := SeedStall(s0, KeyOf(ma), SECOND);
    assert SweepKey(EAGER, s0, KeyOf(ma), SECOND, SECOND).state == s;
    OrderSnoc(s0.log, SeenStalled(1, KeyOf(ma), SECOND), SECOND, SECOND);
  }

  lemma ReachThirdTick(ma: MetricAccess) returns (es: seq<Event>, s: State)
    requires Collectable(ma)
    ensures Reaches(es, s) && Shows(s, THIRD, ma, 1, DueJob(ma))
    ensures Trace(ma) == es + [Sweep(THIRD, [KeyOf(ma)], [THIRD])]
  {
    s := ReachSecondTick(ma);
    es := SecondTick(ma);
    s := Wait(es, s, SECOND, ma, 1, IdleJob(ma).(stalledSince := SECOND), THIRD);
    s := See(es + [Tick(THIRD)], s, THIRD, ma, 1, IdleJob(ma).(stalledSince := SECOND), [SAMPLE]);
    es := es + [Tick(THIRD)] + [SeeTargets(1, [SAMPLE])];
    Reconciled(es, s, THIRD, ma, 1, DueJob(ma));
    es := es + [ReconcileTo([ma], [THIRD], [])];
  }

  lemma DueJobExits(ma: MetricAccess, s: State)
    requires Shows(s, THIRD, ma, 1, DueJob(ma)) && Collectable(ma)
    ensures KeyOk(s, KeyOf(ma))
    ensures SweepKey(EAGER, s, KeyOf(ma), THIRD, THIRD).state == Exit(s, KeyOf(ma), THIRD)
  {}

  lemma DueStall(ma: MetricAccess, s: State)
    requires Inv(EAGER, 1, s) && Shows(s, THIRD, ma, 1, DueJob(ma))
    ensures StallRecreates(s.log, 1) == 0
  {
    assert TracksLineage(EAGER, 1, s.log, 1, s.store[1]);
    RecreatedInStall(EAGER, 1, s.log, 1);
  }

  /** The trace is a run, it ends in a restart, and the stall that it restarts for has seen
      no recreate. */
  lemma ExitWithoutRecreateInThisStall(ma: MetricAccess) returns (ss: seq<State>)
    requires Collectable(ma)
    ensures IsRun(EAGER, 1, Trace(ma), ss)
    ensures var log := ss[|Trace(ma)|].log;
      && SweepsInOrder(log)
      && log != [] && Last(log).Exited? && StallRecreates(Past(log), Last(log).id) == 0
  {
    var es, s := ReachThirdTick(ma);
    SweepOnce(es, s, THIRD, ma, 1, DueJob(ma));
    DueJobExits(ma, s);
    var s' := Exit(s, KeyOf(ma), THIRD);
    ss :| Leads(EAGER, Fresh(1), Trace(ma), ss, s');
    OrderSnoc(s.log, Exited(1, KeyOf(ma), THIRD), THIRD, THIRD);
    Snoc(s.log, Exited(1, KeyOf(ma), THIRD));
    DueStall(ma, s);
  }
}
