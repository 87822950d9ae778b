/** Each critical section keeps the invariant. */
module ControllerKeeps {
  import opened MetricApi
  import opened JobHealth
  import opened ControllerSteps
  import opened History
  import opened ControllerInvariant
  import opened ControllerSoundness

  // ---------------------------------------------------------------------------
  // Creating a job

  lemma CreateKeepsHeld(s: State, ma: MetricAccess, at: Time)
    requires Held(s) && Collectable(ma)
    ensures Held(CreateJob(s, ma, at))
  {}

  lemma CreateKeepsTimed(cfg: Config, start: Time, s: State, ma: MetricAccess, at: Time)
    requires Timed(cfg, start, s) && Collectable(ma) && s.clock <= at
    ensures Timed(cfg, start, CreateJob(s, ma, at))
  {}

  lemma CreateKeepsTracked(cfg: Config, start: Time, s: State, ma: MetricAccess, at: Time)
    requires Timed(cfg, start, s) && Tracked(cfg, start, s) && Collectable(ma) && s.clock <= at
    ensures Tracked(cfg, start, CreateJob(s, ma, at))
  {
    var s' := CreateJob(s, ma, at);
    Snoc(s.log, Created(|s.store|, KeyOf(ma), at));
    forall id: nat | id < |s'.store|
      ensures TracksCycles(s'.log, id, s'.store[id])
      ensures TracksLineage(cfg, start, s'.log, id, s'.store[id])
    {
      if id < |s.store| {
        assert TracksCycles(s.log, id, s.store[id]);
        assert TracksLineage(cfg, start, s.log, id, s.store[id]);
      }
    }
  }

  lemma CreateKeepsBounded(cfg: Config, start: Time, s: State, ma: MetricAccess, at: Time)
    requires Sound(s) && Timed(cfg, start, s) && Bounded(cfg, s)
    requires Collectable(ma) && KeyOf(ma) !in s.jobs && s.clock <= at
    requires Sound(CreateJob(s, ma, at))
    ensures Bounded(cfg, CreateJob(s, ma, at))
  {
    var s' := CreateJob(s, ma, at);
    forall k | k in s'.jobs
      ensures KeyOk(s', k) && Bounds(cfg, s'.log, k, JobOf(s', k))
    {
      assert KeyOk(s', k);
      if k != KeyOf(ma) {
        assert KeyOk(s, k) && Bounds(cfg, s.log, k, JobOf(s, k));
        assert JobOf(s', k) == JobOf(s, k);
      }
      forall i | 0 <= i < |s'.log|
        ensures EntryBound(cfg, s'.log[i], k, JobOf(s', k))
      {
        if i < |s.log| {
          assert EntryTimed(start, s.clock, s.log[i]);
          if k != KeyOf(ma) {
            assert EntryBound(cfg, s.log[i], k, JobOf(s, k));
          }
        }
      }
    }
  }

  lemma CreateKeeps(cfg: Config, start: Time, s: State, ma: MetricAccess, at: Time)
    requires Inv(cfg, start, s) && Collectable(ma) && KeyOf(ma) !in s.jobs && s.clock <= at
    ensures Inv(cfg, start, CreateJob(s, ma, at))
  {
    var s' := CreateJob(s, ma, at);
    CreateKeepsSound(s, ma, at);
    CreateKeepsHeld(s, ma, at);
    CreateKeepsTimed(cfg, start, s, ma, at);
    CreateKeepsTracked(cfg, start, s, ma, at);
    CreateKeepsBounded(cfg, start, s, ma, at);
    var e := Created(|s.store|, KeyOf(ma), at);
    Snoc(s.log, e);
    AppendKeepsRestarts(s, s', e);
    assert Justified(cfg, start, s.log, e);
  }

  /** An entry that is not an exit leaves the restart accounting alone. */
  lemma AppendKeepsRestarts(s: State, s': State, e: Entry)
    requires RestartsCounted(s) && !e.Exited?
    requires s'.log == s.log + [e]
    requires s'.lastSelfRestartAt == s.lastSelfRestartAt && s'.selfRestartTotal == s.selfRestartTotal
    ensures RestartsCounted(s')
  {}

  // ---------------------------------------------------------------------------
  // Stopping a job

  lemma StopKeepsTracked(cfg: Config, start: Time, s: State, key: Key)
    requires Tracked(cfg, start, s) && key in s.jobs && s.jobs[key] < |s.store|
    ensures Tracked(cfg, start, StopJob(s, key))
  {
    var s' := StopJob(s, key);
    Snoc(s.log, Stopped(s.jobs[key], key));
    forall id: nat | id < |s'.store|
      ensures TracksCycles(s'.log, id, s'.store[id])
      ensures TracksLineage(cfg, start, s'.log, id, s'.store[id])
    {
      assert TracksCycles(s.log, id, s.store[id]);
      assert TracksLineage(cfg, start, s.log, id, s.store[id]);
    }
  }

  lemma StopKeepsTimed(cfg: Config, start: Time, s: State, key: Key)
    requires Timed(cfg, start, s) && key in s.jobs && s.jobs[key] < |s.store|
    ensures Timed(cfg, start, StopJob(s, key))
  {}

  lemma StopKeepsBounded(cfg: Config, s: State, key: Key)
    requires Sound(s) && Bounded(cfg, s) && key in s.jobs && KeyOk(s, key)
    requires Sound(StopJob(s, key))
    ensures Bounded(cfg, StopJob(s, key))
  {
    var s' := StopJob(s, key);
    forall k | k in s'.jobs
      ensures KeyOk(s', k) && Bounds(cfg, s'.log, k, JobOf(s', k))
    {
      assert KeyOk(s', k) && KeyOk(s, k) && Bounds(cfg, s.log, k, JobOf(s, k));
      forall i | 0 <= i < |s'.log|
        ensures EntryBound(cfg, s'.log[i], k, JobOf(s', k))
      {
        if i < |s.log| {
          assert EntryBound(cfg, s.log[i], k, JobOf(s, k));
        }
      }
    }
  }

  lemma StopKeepsHeld(s: State, key: Key)
    requires Held(s) && key in s.jobs && s.jobs[key] < |s.store|
    ensures Held(StopJob(s, key))
    ensures Holder(s.log, key) == Some(s.jobs[key])
  {
    Snoc(s.log, Stopped(s.jobs[key], key));
  }

  lemma StopKeeps(cfg: Config, start: Time, s: State, key: Key)
    requires Inv(cfg, start, s) && key in s.jobs && KeyOk(s, key)
    ensures Inv(cfg, start, StopJob(s, key))
  {
    var s' := StopJob(s, key);
    var e := Stopped(s.jobs[key], key);
    Snoc(s.log, e);
    StopKeepsSound(s, key);
    StopKeepsTimed(cfg, start, s, key);
    StopKeepsTracked(cfg, start, s, key);
    StopKeepsBounded(cfg, s, key);
    StopKeepsHeld(s, key);
    AppendKeepsRestarts(s, s', e);
    assert Justified(cfg, start, s.log, e);
  }

  // ---------------------------------------------------------------------------
  // Writing to one struct

  lemma RewriteKeepsBounded(cfg: Config, s: State, s': State, id: nat, e: Entry)
    requires Sound(s) && Sound(s') && Bounded(cfg, s) && Rewrites(s, s', id, e)
    requires forall k :: k in s.jobs && KeyOk(s, k) && s.jobs[k] == id ==> Bounds(cfg, s.log, k, s'.store[id])
    requires forall k :: k in s'.jobs && KeyOk(s', k) ==> EntryBound(cfg, e, k, JobOf(s', k))
    ensures Bounded(cfg, s')
  {
    forall k | k in s'.jobs
      ensures KeyOk(s', k) && Bounds(cfg, s'.log, k, JobOf(s', k))
    {
      assert KeyOk(s, k) && KeyOk(s', k);
      assert Bounds(cfg, s.log, k, JobOf(s, k));
      forall i | 0 <= i < |s'.log|
        ensures EntryBound(cfg, s'.log[i], k, JobOf(s', k))
      {
        if i < |s.log| {
          assert EntryBound(cfg, s.log[i], k, JobOf(s', k));
        }
      }
    }
  }

  lemma RewriteKeepsTimed(cfg: Config, start: Time, s: State, s': State, id: nat, e: Entry)
    requires Timed(cfg, start, s) && Rewrites(s, s', id, e)
    requires EntryTimed(start, s'.clock, e)
    requires JobTimed(cfg, start, s'.clock, s'.store[id])
    ensures Timed(cfg, start, s')
  {}

  /** An entry about a struct id that only changes that struct's history. */
  predicate LocalTo(e: Entry, id: nat) {
    match e
    case SeenStalled(i, _, _) => i == id
    case SawTargets(i) => i == id
    case TargetFailed(i) => i == id
    case CycleEnded(i, _, _, _, _) => i == id
    case Recreated(i, _, _, _) => i == id
    case _ => false
  }

  lemma OtherHistories(log: Log, e: Entry, id: nat, i: nat)
    requires LocalTo(e, id) && i != id
    ensures var log' := log + [e];
      && Cycles(log', i) == Cycles(log, i) && TargetFailures(log', i) == TargetFailures(log, i)
      && Birth(log', i) == Birth(log, i) && LastCleanAt(log', i) == LastCleanAt(log, i)
      && LastCheck(log', i) == LastCheck(log, i) && Depth(log', i) == Depth(log, i)
      && Origin(log', i) == Origin(log, i) && LastRecreate(log', i) == LastRecreate(log, i)
      && StallStart(log', i) == StallStart(log, i)
  {}

  lemma RewriteKeepsTracked(cfg: Config, start: Time, s: State, s': State, id: nat, e: Entry)
    requires Tracked(cfg, start, s) && Rewrites(s, s', id, e) && LocalTo(e, id)
    requires TracksCycles(s'.log, id, s'.store[id])
    requires TracksLineage(cfg, start, s'.log, id, s'.store[id])
    ensures Tracked(cfg, start, s')
  {
    forall i: nat | i < |s'.store|
      ensures TracksCycles(s'.log, i, s'.store[i])
      ensures TracksLineage(cfg, start, s'.log, i, s'.store[i])
    {
      if i != id {
        assert TracksCycles(s.log, i, s.store[i]);
        assert TracksLineage(cfg, start, s.log, i, s.store[i]);
        OtherHistories(s.log, e, id, i);
      }
    }
  }

  lemma RewriteKeepsHeld(s: State, s': State, id: nat, e: Entry)
    requires Held(s) && Rewrites(s, s', id, e) && LocalTo(e, id)
    ensures Held(s')
  {}

  /** The parts of the invariant that follow from the shape of a rewrite. */
  lemma RewriteKeeps(cfg: Config, start: Time, s: State, s': State, id: nat, e: Entry)
    requires Inv(cfg, start, s) && Rewrites(s, s', id, e) && LocalTo(e, id)
    requires Justified(cfg, start, s.log, e)
    requires EntryTimed(start, s'.clock, e)
    requires JobTimed(cfg, start, s'.clock, s'.store[id])
    requires TracksCycles(s'.log, id, s'.store[id])
    requires TracksLineage(cfg, start, s'.log, id, s'.store[id])
    requires forall k :: k in s.jobs && KeyOk(s, k) && s.jobs[k] == id ==> Bounds(cfg, s.log, k, s'.store[id])
    requires forall k :: k in s'.jobs && KeyOk(s', k) ==> EntryBound(cfg, e, k, JobOf(s', k))
    ensures Inv(cfg, start, s')
  {
    RewriteKeepsSound(s, s', id, e);
    RewriteKeepsBounded(cfg, s, s', id, e);
    RewriteKeepsTimed(cfg, start, s, s', id, e);
    RewriteKeepsTracked(cfg, start, s, s', id, e);
    RewriteKeepsHeld(s, s', id, e);
    AppendKeepsRestarts(s, s', e);
    Snoc(s.log, e);
  }

  /** Bounds only read three timers of the job. */
  lemma SameTimersBounds(cfg: Config, log: Log, key: Key, j: Job, j': Job)
    requires Bounds(cfg, log, key, j)
    requires j'.createdAt == j.createdAt && j'.lastClean == j.lastClean
    requires j'.stalledSince == j.stalledSince
    ensures Bounds(cfg, log, key, j')
  {}

  lemma SeedBounds(cfg: Config, log: Log, key: Key, j: Job, now: Time)
    requires Bounds(cfg, log, key, j) && Stalled(cfg, j, now)
    ensures Bounds(cfg, log, key, Seed(j, now))
  {}

  lemma SeedTracks(cfg: Config, start: Time, log: Log, id: nat, j: Job, key: Key, now: Time)
    requires TracksCycles(log, id, j) && TracksLineage(cfg, start, log, id, j)
    requires j.stalledSince == 0 && (j.lastClean == 0 || j.createdAt <= j.lastClean)
    requires now != 0 && Stalled(cfg, j, now)
    ensures TracksCycles(log + [SeenStalled(id, key, now)], id, Seed(j, now))
    ensures TracksLineage(cfg, start, log + [SeenStalled(id, key, now)], id, Seed(j, now))
  {
    Snoc(log, SeenStalled(id, key, now));
    OriginBeforeBirth(cfg, start, log, id, j);
  }

  lemma SeedFacts(cfg: Config, start: Time, s: State, key: Key, now: Time)
    requires Inv(cfg, start, s) && key in s.jobs && KeyOk(s, key)
    requires 0 < now <= s.clock && Stalled(cfg, JobOf(s, key), now) && JobOf(s, key).stalledSince == 0
    ensures var id, j := s.jobs[key], Seed(JobOf(s, key), now);
      var e := SeenStalled(id, key, now);
      && Justified(cfg, start, s.log, e)
      && JobTimed(cfg, start, s.clock, j)
      && TracksCycles(s.log + [e], id, j)
      && TracksLineage(cfg, start, s.log + [e], id, j)
      && Bounds(cfg, s.log, key, j)
  {
    var id, j := s.jobs[key], JobOf(s, key);
    assert JobTimed(cfg, start, s.clock, j);
    assert TracksCycles(s.log, id, j) && TracksLineage(cfg, start, s.log, id, j);
    assert Bounds(cfg, s.log, key, j);
    SeedTracks(cfg, start, s.log, id, j, key, now);
    SeedBounds(cfg, s.log, key, j, now);
  }

  lemma SeedKeeps(cfg: Config, start: Time, s: State, key: Key, now: Time)
    requires Inv(cfg, start, s) && key in s.jobs && KeyOk(s, key)
    requires 0 < now <= s.clock && Stalled(cfg, JobOf(s, key), now)
    ensures Inv(cfg, start, SeedStall(s, key, now))
  {
    var id := s.jobs[key];
    if s.store[id].stalledSince == 0 {
      SeedFacts(cfg, start, s, key, now);
      forall k | k in s.jobs && KeyOk(s, k) && s.jobs[k] == id
        ensures k == key
      {}
      RewriteKeeps(cfg, start, s, SeedStall(s, key, now), id, SeenStalled(id, key, now));
    }
  }

  lemma OriginBeforeBirth(cfg: Config, start: Time, log: Log, id: nat, j: Job)
    requires TracksLineage(cfg, start, log, id, j)
    ensures Origin(log, id) <= j.createdAt
  {}

  lemma TargetsSeenKeeps(cfg: Config, start: Time, s: State, id: nat, metrics: seq<Metric>)
    requires Inv(cfg, start, s) && id < |s.store|
    ensures Inv(cfg, start, RecordTargetsSeen(s, id, metrics))
  {
    var s' := RecordTargetsSeen(s, id, metrics);
    LocalWriteKeeps(cfg, start, s, s', id, SawTargets(id));
  }

  lemma TargetErrorKeeps(cfg: Config, start: Time, s: State, id: nat, error: string)
    requires Inv(cfg, start, s) && id < |s.store|
    ensures Inv(cfg, start, RecordTargetError(s, id, error))
  {
    var s' := RecordTargetError(s, id, error);
    LocalWriteKeeps(cfg, start, s, s', id, TargetFailed(id));
  }

  /** e, the entry about struct id, is how j becomes j' without touching a timer. */
  ghost predicate LocalWrite(e: Entry, id: nat, j: Job, j': Job) {
    match e
    case SawTargets(i) => i == id && j' == j.(lastHadTargets := true)
    case TargetFailed(i) => i == id && exists error :: j' == AfterTargetError(j, error)
    case CycleEnded(i, _, _, o, at) => i == id && !o.Clean() && j' == AfterCycle(j, o, at)
    case _ => false
  }

  lemma LocalWriteTracksCycles(log: Log, id: nat, j: Job, e: Entry, j': Job)
    requires TracksCycles(log, id, j) && LocalWrite(e, id, j, j')
    ensures TracksCycles(log + [e], id, j')
  {
    if e.CycleEnded? {
      FailedCycleTracks(log, id, j, e);
    } else {
      Snoc(log, e);
      assert Cycles(log + [e], id) == Cycles(log, id);
    }
  }

  lemma FailedCycleTracks(log: Log, id: nat, j: Job, e: Entry)
    requires TracksCycles(log, id, j) && e.CycleEnded? && e.id == id && !e.outcome.Clean()
    ensures TracksCycles(log + [e], id, AfterCycle(j, e.outcome, e.at))
  {
    Snoc(log, e);
    CyclesSnoc(Cycles(log, id), e.outcome);
  }

  lemma LocalWriteTracksLineage(cfg: Config, start: Time, log: Log, id: nat, j: Job, e: Entry, j': Job)
    requires TracksLineage(cfg, start, log, id, j) && LocalWrite(e, id, j, j')
    ensures TracksLineage(cfg, start, log + [e], id, j')
  {
    Snoc(log, e);
  }

  /** Writes that leave every timer of the struct alone. */
  lemma LocalWriteKeeps(cfg: Config, start: Time, s: State, s': State, id: nat, e: Entry)
    requires Inv(cfg, start, s) && Rewrites(s, s', id, e) && s'.clock == s.clock
    requires LocalWrite(e, id, s.store[id], s'.store[id])
    requires Justified(cfg, start, s.log, e)
    ensures Inv(cfg, start, s')
  {
    var j := s.store[id];
    assert JobTimed(cfg, start, s.clock, j);
    LocalWriteTracksCycles(s.log, id, j, e, s'.store[id]);
    LocalWriteTracksLineage(cfg, start, s.log, id, j, e, s'.store[id]);
    forall k | k in s.jobs && KeyOk(s, k) && s.jobs[k] == id
      ensures Bounds(cfg, s.log, k, s'.store[id])
    {
      SameTimersBounds(cfg, s.log, k, j, s'.store[id]);
    }
    RewriteKeeps(cfg, start, s, s', id, e);
  }

  lemma CyclesSnoc(cycles: seq<Outcome>, o: Outcome)
    ensures (cycles + [o])[..|cycles + [o]| - 1] == cycles
    ensures (cycles + [o])[|cycles + [o]| - 1] == o
  {}

  lemma CleanTracks(cfg: Config, start: Time, log: Log, id: nat, j: Job, e: Entry)
    requires TracksCycles(log, id, j) && TracksLineage(cfg, start, log, id, j)
    requires e.CycleEnded? && e.id == id && e.outcome.Clean()
    ensures TracksCycles(log + [e], id, AfterCycle(j, e.outcome, e.at))
    ensures TracksLineage(cfg, start, log + [e], id, AfterCycle(j, e.outcome, e.at))
  {
    Snoc(log, e);
    CyclesSnoc(Cycles(log, id), e.outcome);
  }

  lemma CleanBounds(cfg: Config, start: Time, s: State, key: Key, j: Job, o: Outcome, at: Time)
    requires Timed(cfg, start, s) && Bounds(cfg, s.log, key, j) && o.Clean() && s.clock <= at
    ensures Bounds(cfg, s.log, key, AfterCycle(j, o, at))
  {}

  lemma CycleJustified(cfg: Config, start: Time, s: State, id: nat, o: Outcome, at: Time)
    requires Sound(s) && Held(s) && id < |s.store|
    ensures Justified(cfg, start, s.log, CycleEnded(id, KeyOf(s.store[id].access), Live(s, id), o, at))
  {
    forall k | Holder(s.log, k) == Some(id)
      ensures k == KeyOf(s.store[id].access)
    {
      assert KeyOk(s, k);
    }
  }

  lemma CycleKeeps(cfg: Config, start: Time, s: State, id: nat, o: Outcome, at: Time)
    requires Inv(cfg, start, s) && id < |s.store| && CycleOk(s, o, at)
    ensures Inv(cfg, start, RecordCycle(s, id, o, at))
  {
    var s' := RecordCycle(s, id, o, at);
    var j := s.store[id];
    var e := CycleEnded(id, KeyOf(j.access), Live(s, id), o, at);
    CycleJustified(cfg, start, s, id, o, at);
    if !o.Clean() {
      LocalWriteKeeps(cfg, start, s, s', id, e);
      return;
    }
    assert JobTimed(cfg, start, s.clock, j);
    CleanTracks(cfg, start, s.log, id, j, e);
    forall k | k in s.jobs && KeyOk(s, k) && s.jobs[k] == id
      ensures Bounds(cfg, s.log, k, s'.store[id])
    {
      CleanBounds(cfg, start, s, k, j, o, at);
    }
    RewriteKeeps(cfg, start, s, s', id, e);
  }

  /** s' is s up to the last-run time of a struct, which no question depends on. */
  lemma RunKeeps(cfg: Config, start: Time, s: State, id: nat, wall: Time)
    requires Inv(cfg, start, s) && id < |s.store|
    ensures Inv(cfg, start, RecordRun(s, id, wall))
  {
    var s' := RecordRun(s, id, wall);
    RunKeepsSound(s, id, wall);
    forall i: nat | i < |s'.store|
      ensures JobTimed(cfg, start, s'.clock, s'.store[i])
      ensures TracksCycles(s'.log, i, s'.store[i])
      ensures TracksLineage(cfg, start, s'.log, i, s'.store[i])
    {
      assert JobTimed(cfg, start, s.clock, s.store[i]);
      assert TracksCycles(s.log, i, s.store[i]);
      assert TracksLineage(cfg, start, s.log, i, s.store[i]);
    }
    forall k | k in s'.jobs
      ensures KeyOk(s', k) && Bounds(cfg, s'.log, k, JobOf(s', k))
    {
      assert KeyOk(s, k) && KeyOk(s', k);
      SameTimersBounds(cfg, s.log, k, JobOf(s, k), JobOf(s', k));
    }
  }

  // ---------------------------------------------------------------------------
  // Leadership and restarts

  /** Adding an entry that is about no struct's history. */
  lemma AppendKeeps(cfg: Config, start: Time, s: State, s': State, e: Entry)
    requires Inv(cfg, start, s) && (e.BecameLeader? || e.Exited?)
    requires EntryTimed(start, s.clock, e)
    requires s'.store == s.store && s'.jobs == s.jobs && s'.clock == s.clock
    requires s'.log == s.log + [e]
    ensures Sound(s') && Timed(cfg, start, s') && Tracked(cfg, start, s') && Bounded(cfg, s')
  {
    Snoc(s.log, e);
    AppendKeepsSound(s, s');
    forall i: nat | i < |s'.store|
      ensures TracksCycles(s'.log, i, s'.store[i])
      ensures TracksLineage(cfg, start, s'.log, i, s'.store[i])
    {
      assert TracksCycles(s.log, i, s.store[i]);
      assert TracksLineage(cfg, start, s.log, i, s.store[i]);
    }
    forall k | k in s'.jobs
      ensures KeyOk(s', k) && Bounds(cfg, s'.log, k, JobOf(s', k))
    {
      assert KeyOk(s, k) && Bounds(cfg, s.log, k, JobOf(s, k));
      forall i | 0 <= i < |s'.log|
        ensures EntryBound(cfg, s'.log[i], k, JobOf(s', k))
      {
        if i < |s.log| {
          assert EntryBound(cfg, s.log[i], k, JobOf(s, k));
        }
      }
    }
  }

  /** The clock may advance at any time. */
  lemma TickKeeps(cfg: Config, start: Time, s: State, t: Time)
    requires Inv(cfg, start, s) && s.clock <= t
    ensures Inv(cfg, start, s.(clock := t))
  {
    var s' := s.(clock := t);
    AppendKeepsSound(s, s');
    forall i | 0 <= i < |s'.log|
      ensures EntryTimed(start, t, s'.log[i])
    {
      assert EntryTimed(start, s.clock, s.log[i]);
    }
    forall id: nat | id < |s'.store|
      ensures JobTimed(cfg, start, t, s'.store[id])
    {
      assert JobTimed(cfg, start, s.clock, s.store[id]);
    }
    forall k | k in s'.jobs
      ensures KeyOk(s', k) && Bounds(cfg, s'.log, k, JobOf(s', k))
    {
      assert KeyOk(s, k) && Bounds(cfg, s.log, k, JobOf(s, k));
    }
  }

  lemma LeadKeeps(cfg: Config, start: Time, s: State)
    requires Inv(cfg, start, s)
    ensures Inv(cfg, start, Lead(s))
  {
    var s' := Lead(s);
    AppendKeeps(cfg, start, s, s', BecameLeader);
    AppendKeepsRestarts(s, s', BecameLeader);
    Snoc(s.log, BecameLeader);
    assert s'.log[|s.log|] == BecameLeader;
    assert Justified(cfg, start, s.log, BecameLeader);
  }

  /** A stalled job has been without a clean cycle, a creation and a recreate for the grace period. */
  lemma StalledIsQuiet(cfg: Config, log: Log, key: Key, j: Job, now: Time)
    requires Bounds(cfg, log, key, j) && Stalled(cfg, j, now)
    requires j.lastClean == 0 || j.createdAt <= j.lastClean
    ensures NoCleanWithin(log, key, cfg.StallGrace(), now)
    ensures NoBirthWithin(log, key, None, cfg.StallGrace(), now)
    ensures NoRecreateWithin(log, key, cfg.StallGrace(), now)
  {}

  /** A job due for a restart has had no clean cycle since before it stalled. */
  lemma EscalationIsQuiet(cfg: Config, log: Log, key: Key, isLeader: bool, j: Job, now: Time)
    requires Bounds(cfg, log, key, j) && Escalates(cfg, isLeader, j, now)
    ensures NoCleanWithin(log, key, cfg.StallGrace() + cfg.RestartGrace(), now)
  {}

  lemma ExitJustified(cfg: Config, start: Time, s: State, key: Key, now: Time)
    requires Inv(cfg, start, s) && key in s.jobs && KeyOk(s, key)
    requires 0 < now <= s.clock && Stalled(cfg, JobOf(s, key), now)
    requires Escalates(cfg, s.isLeader, JobOf(s, key), now) && CooldownOpen(cfg, s, now)
    ensures Justified(cfg, start, s.log, Exited(s.jobs[key], key, now))
  {
    var id := s.jobs[key];
    var j := s.store[id];
    assert Bounds(cfg, s.log, key, j);
    assert JobTimed(cfg, start, s.clock, j);
    assert TracksLineage(cfg, start, s.log, id, j);
    StalledIsQuiet(cfg, s.log, key, j, now);
    EscalationIsQuiet(cfg, s.log, key, s.isLeader, j, now);
    forall i | 0 <= i < |s.log| && s.log[i].Exited?
      ensures s.log[i].at <= now - cfg.RestartCooldown()
    {
      assert s.log[i].at <= s.lastSelfRestartAt;
    }
  }

  lemma ExitKeepsRestarts(cfg: Config, s: State, key: Key, now: Time)
    requires RestartsCounted(s) && key in s.jobs && ExitsUpTo(s.log, now)
    requires now != 0
    ensures RestartsCounted(Exit(s, key, now))
  {
    Snoc(s.log, Exited(s.jobs[key], key, now));
  }

  lemma ExitKeeps(cfg: Config, start: Time, s: State, key: Key, now: Time)
    requires Inv(cfg, start, s) && key in s.jobs && KeyOk(s, key)
    requires 0 < now <= s.clock && Stalled(cfg, JobOf(s, key), now)
    requires Escalates(cfg, s.isLeader, JobOf(s, key), now) && CooldownOpen(cfg, s, now)
    ensures Inv(cfg, start, Exit(s, key, now))
  {
    var s' := Exit(s, key, now);
    var e := Exited(s.jobs[key], key, now);
    ExitJustified(cfg, start, s, key, now);
    AppendKeeps(cfg, start, s, s', e);
    assert ExitsUpTo(s.log, now - cfg.RestartCooldown());
    ExitKeepsRestarts(cfg, s, key, now);
    Snoc(s.log, e);
  }

  // ---------------------------------------------------------------------------
  // Recreating a stalled job

  /** A recreate up to the point where the new struct is still blank. */
  function Replaced(s: State, key: Key, at: Time): State
    requires key in s.jobs && KeyOk(s, key)
  {
    CreateJob(StopJob(s, key), JobOf(s, key).access, at)
  }

  lemma ReplacedFacts(s: State, key: Key, at: Time)
    requires key in s.jobs && KeyOk(s, key)
    ensures var s2 := Replaced(s, key, at);
      && s2.jobs == s.jobs[key := |s.store|]
      && |s2.store| == |s.store| + 1
      && s2.store[|s.store|] == NewJob(JobOf(s, key).access, at)
      && s2.store[s.jobs[key]] == JobOf(s, key).(stopOpen := false)
      && (forall id: nat :: id < |s.store| && id != s.jobs[key] ==> s2.store[id] == s.store[id])
      && s2.log == s.log + [Stopped(s.jobs[key], key)] + [Created(|s.store|, key, at)]
      && s2.clock == at
      && s2.isLeader == s.isLeader
      && s2.lastSelfRestartAt == s.lastSelfRestartAt
      && s2.selfRestartTotal == s.selfRestartTotal
  {}

  /** The stop and the creation are not part of the previous struct's history. */
  lemma LineageBeforeCarry(log: Log, key: Key, previous: nat, id: nat, at: Time)
    requires previous != id
    ensures var log2 := log + [Stopped(previous, key)] + [Created(id, key, at)];
      && LastCheck(log2, previous) == LastCheck(log, previous)
      && Depth(log2, previous) == Depth(log, previous)
      && Origin(log2, previous) == Origin(log, previous)
      && LastRecreate(log2, previous) == LastRecreate(log, previous)
      && StallStart(log2, previous) == StallStart(log, previous)
  {}

  /** Being quiet before a recreate of struct self. */
  ghost predicate Quiet(log: Log, key: Key, self: nat, span: int, at: Time) {
    && NoCleanWithin(log, key, span, at)
    && NoBirthWithin(log, key, Some(self), span, at)
    && NoRecreateWithin(log, key, span, at)
  }

  lemma QuietSnoc(log: Log, e: Entry, key: Key, self: nat, span: int, at: Time)
    requires Quiet(log, key, self, span, at)
    requires e.Stopped? || (e.Created? && e.id == self)
    ensures Quiet(log + [e], key, self, span, at)
  {}

  lemma StalledIsQuietFor(cfg: Config, start: Time, s: State, key: Key, self: nat, now: Time)
    requires Inv(cfg, start, s) && key in s.jobs && KeyOk(s, key) && Stalled(cfg, JobOf(s, key), now)
    ensures Quiet(s.log, key, self, cfg.StallGrace(), now)
  {
    assert Bounds(cfg, s.log, key, JobOf(s, key));
    assert JobTimed(cfg, start, s.clock, JobOf(s, key));
    StalledIsQuiet(cfg, s.log, key, JobOf(s, key), now);
    forall i | 0 <= i < |s.log|
      ensures BirthBefore(s.log[i], key, Some(self), now - cfg.StallGrace())
    {
      assert BirthBefore(s.log[i], key, None, now - cfg.StallGrace());
    }
  }

  /** Stopping and blankly recreating adds nothing that breaks the quiet before a recreate. */
  lemma CarryIsQuiet(cfg: Config, start: Time, s: State, key: Key, now: Time, at: Time)
    requires Inv(cfg, start, s) && key in s.jobs && KeyOk(s, key) && Stalled(cfg, JobOf(s, key), now)
    ensures Quiet(Replaced(s, key, at).log, key, |s.store|, cfg.StallGrace(), now)
  {
    ReplacedFacts(s, key, at);
    StalledIsQuietFor(cfg, start, s, key, |s.store|, now);
    var e := Stopped(s.jobs[key], key);
    QuietSnoc(s.log, e, key, |s.store|, cfg.StallGrace(), now);
    QuietSnoc(s.log + [e], Created(|s.store|, key, at), key, |s.store|, cfg.StallGrace(), now);
  }

  lemma CarryLineage(cfg: Config, start: Time, s: State, key: Key, now: Time, at: Time)
    requires Inv(cfg, start, s) && key in s.jobs && KeyOk(s, key)
    requires JobOf(s, key).lastHadTargets && !Throttled(cfg, JobOf(s, key), now)
    requires JobOf(s, key).stalledSince != 0
    ensures var log2, id := Replaced(s, key, at).log, s.jobs[key];
      && LastCheck(log2, id) == Some(true)
      && StallStart(log2, id) != 0
      && (LastRecreate(log2, id) == 0 || LastRecreate(log2, id) + cfg.Backoff() <= now)
  {
    var id := s.jobs[key];
    ReplacedFacts(s, key, at);
    LineageBeforeCarry(s.log, key, id, |s.store|, at);
    assert TracksLineage(cfg, start, s.log, id, s.store[id]);
  }

  lemma CarryIsNew(s: State, key: Key, at: Time)
    requires key in s.jobs && KeyOk(s, key) && NotYetRecreated(s.log, |s.store|)
    ensures NotYetRecreated(Replaced(s, key, at).log, |s.store|)
  {}

  lemma CarryJustified(cfg: Config, start: Time, s: State, key: Key, now: Time, at: Time)
    requires Inv(cfg, start, s) && key in s.jobs && KeyOk(s, key)
    requires 0 < now <= s.clock <= at && Stalled(cfg, JobOf(s, key), now)
    requires JobOf(s, key).lastHadTargets && !Throttled(cfg, JobOf(s, key), now)
    requires JobOf(s, key).stalledSince != 0
    requires Held(Replaced(s, key, at)) && NotYetRecreated(s.log, |s.store|)
    ensures Justified(cfg, start, Replaced(s, key, at).log, Recreated(|s.store|, key, s.jobs[key], now))
  {
    CarryIsQuiet(cfg, start, s, key, now, at);
    CarryLineage(cfg, start, s, key, now, at);
    CarryIsNew(s, key, at);
    ReplacedFacts(s, key, at);
    assert Replaced(s, key, at).jobs[key] == |s.store|;
  }

  lemma CarryTracks(cfg: Config, start: Time, log: Log, key: Key, previous: nat, p: Job, id: nat, now: Time, at: Time)
    requires TracksLineage(cfg, start, log, previous, p) && previous != id
    requires p.lastClean == 0 || p.createdAt <= p.lastClean
    requires Stalled(cfg, p, now) && now <= at && now != 0
    ensures
      var log2 := log + [Stopped(previous, key)] + [Created(id, key, at)];
      var log3 := log2 + [Recreated(id, key, previous, now)];
      TracksLineage(cfg, start, log3, id, Successor(p, now, at))
  {
    var log1 := log + [Stopped(previous, key)];
    var log2 := log1 + [Created(id, key, at)];
    var log3 := log2 + [Recreated(id, key, previous, now)];
    LineageBeforeCarry(log, key, previous, id, at);
    Snoc(log1, Created(id, key, at));
    Snoc(log2, Recreated(id, key, previous, now));
    assert Depth(log3, id) == Depth(log, previous) + 1;
  }

  lemma BoundsSnoc(cfg: Config, log: Log, e: Entry, key: Key, j: Job)
    requires Bounds(cfg, log, key, j) && EntryBound(cfg, e, key, j)
    ensures Bounds(cfg, log + [e], key, j)
  {}

  lemma SuccessorBounds(cfg: Config, start: Time, s: State, key: Key, now: Time, at: Time)
    requires Inv(cfg, start, s) && key in s.jobs && KeyOk(s, key) && s.clock <= at
    ensures Bounds(cfg, s.log, key, Successor(JobOf(s, key), now, at))
  {
    var j := JobOf(s, key);
    assert Bounds(cfg, s.log, key, j);
    forall i | 0 <= i < |s.log|
      ensures EntryBound(cfg, s.log[i], key, Successor(j, now, at))
    {
      assert EntryBound(cfg, s.log[i], key, j);
      assert EntryTimed(start, s.clock, s.log[i]);
    }
  }

  lemma CarryBounds(cfg: Config, start: Time, s: State, key: Key, now: Time, at: Time)
    requires Inv(cfg, start, s) && key in s.jobs && KeyOk(s, key) && s.clock <= at
    ensures Bounds(cfg, Replaced(s, key, at).log, key, Successor(JobOf(s, key), now, at))
  {
    var e, next := Stopped(s.jobs[key], key), Successor(JobOf(s, key), now, at);
    ReplacedFacts(s, key, at);
    SuccessorBounds(cfg, start, s, key, now, at);
    BoundsSnoc(cfg, s.log, e, key, next);
    BoundsSnoc(cfg, s.log + [e], Created(|s.store|, key, at), key, next);
  }

  lemma ReplacedKeeps(cfg: Config, start: Time, s: State, key: Key, at: Time)
    requires Inv(cfg, start, s) && key in s.jobs && KeyOk(s, key) && s.clock <= at
    ensures Inv(cfg, start, Replaced(s, key, at))
  {
    StopKeeps(cfg, start, s, key);
    CreateKeeps(cfg, start, StopJob(s, key), JobOf(s, key).access, at);
  }

  lemma CarryTimed(cfg: Config, start: Time, s: State, key: Key, now: Time, at: Time)
    requires Inv(cfg, start, s) && key in s.jobs && KeyOk(s, key)
    requires 0 < now <= s.clock <= at && Stalled(cfg, JobOf(s, key), now)
    ensures JobTimed(cfg, start, at, Successor(JobOf(s, key), now, at))
    ensures
      var log2 := s.log + [Stopped(s.jobs[key], key)] + [Created(|s.store|, key, at)];
      var log3 := log2 + [Recreated(|s.store|, key, s.jobs[key], now)];
      TracksLineage(cfg, start, log3, |s.store|, Successor(JobOf(s, key), now, at))
  {
    var id := s.jobs[key];
    var j := s.store[id];
    assert JobTimed(cfg, start, s.clock, j);
    assert TracksLineage(cfg, start, s.log, id, j);
    CarryTracks(cfg, start, s.log, key, id, j, |s.store|, now, at);
  }

  /** Carrying over onto the registered job of a key. */
  lemma CarryOver(cfg: Config, start: Time, s: State, s': State, key: Key, e: Entry)
    requires Inv(cfg, start, s) && key in s.jobs && KeyOk(s, key)
    requires Rewrites(s, s', s.jobs[key], e) && e.Recreated? && e.id == s.jobs[key]
    requires e.key == key && e.at <= s'.store[s.jobs[key]].createdAt
    requires Justified(cfg, start, s.log, e)
    requires EntryTimed(start, s'.clock, e)
    requires JobTimed(cfg, start, s'.clock, s'.store[s.jobs[key]])
    requires TracksCycles(s'.log, s.jobs[key], s'.store[s.jobs[key]])
    requires TracksLineage(cfg, start, s'.log, s.jobs[key], s'.store[s.jobs[key]])
    requires Bounds(cfg, s.log, key, s'.store[s.jobs[key]])
    ensures Inv(cfg, start, s')
  {
    RewriteKeeps(cfg, start, s, s', s.jobs[key], e);
  }

  /** The recreate of a key, from the state in which the new struct is still blank. */
  lemma CarryKeeps(cfg: Config, start: Time, s: State, s2: State, key: Key, now: Time, at: Time)
    requires key in s.jobs && KeyOk(s, key) && s2 == Replaced(s, key, at) && now <= at
    requires Inv(cfg, start, s2)
    requires Justified(cfg, start, s2.log, Recreated(|s.store|, key, s.jobs[key], now))
    requires JobTimed(cfg, start, at, Successor(JobOf(s, key), now, at))
    requires TracksLineage(cfg, start, s2.log + [Recreated(|s.store|, key, s.jobs[key], now)],
                           |s.store|, Successor(JobOf(s, key), now, at))
    requires Bounds(cfg, s2.log, key, Successor(JobOf(s, key), now, at))
    ensures Inv(cfg, start, Recreate(s, key, now, at))
  {
    var s3 := Recreate(s, key, now, at);
    var next := |s.store|;
    var e := Recreated(next, key, s.jobs[key], now);
    ReplacedFacts(s, key, at);
    Snoc(s2.log, e);
    assert s3.store[next] == Successor(JobOf(s, key), now, at);
    assert TracksCycles(s2.log, next, s2.store[next]);
    assert KeyOk(s2, key);
    CarryOver(cfg, start, s2, s3, key, e);
  }

  lemma RecreateKeeps(cfg: Config, start: Time, s: State, key: Key, now: Time, at: Time)
    requires Inv(cfg, start, s) && key in s.jobs && KeyOk(s, key)
    requires 0 < now <= s.clock <= at && Stalled(cfg, JobOf(s, key), now)
    requires JobOf(s, key).lastHadTargets && !Throttled(cfg, JobOf(s, key), now)
    requires JobOf(s, key).stalledSince != 0
    ensures Inv(cfg, start, Recreate(s, key, now, at))
    ensures Recreate(s, key, now, at).jobs.Keys == s.jobs.Keys
  {
    ReplacedKeeps(cfg, start, s, key, at);
    ReplacedFacts(s, key, at);
    CarryJustified(cfg, start, s, key, now, at);
    CarryTimed(cfg, start, s, key, now, at);
    CarryBounds(cfg, start, s, key, now, at);
    CarryKeeps(cfg, start, s, Replaced(s, key, at), key, now, at);
  }
}
