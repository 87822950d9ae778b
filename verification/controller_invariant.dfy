/** What every critical section of the controller keeps. */
module ControllerInvariant {
  import opened Arithmetic
  import opened MetricApi
  import opened JobHealth
  import opened ControllerSteps
  import opened ControllerSoundness
  import opened History

  // ---------------------------------------------------------------------------
  // What a log must look like

  /** No clean cycle of the job registered under key ended within span before at. */
  ghost predicate NoCleanWithin(log: Log, key: Key, span: int, at: Time) {
    forall i :: 0 <= i < |log| ==> CleanBefore(log[i], key, at - span)
  }

  ghost predicate CleanBefore(e: Entry, key: Key, at: Time) {
    e.CycleEnded? && e.key == key && e.live && e.outcome.Clean() ==> e.at < at
  }

  /** No job of key other than struct self was created within span before at. */
  ghost predicate NoBirthWithin(log: Log, key: Key, self: Option<nat>, span: int, at: Time) {
    forall i :: 0 <= i < |log| ==> BirthBefore(log[i], key, self, at - span)
  }

  ghost predicate BirthBefore(e: Entry, key: Key, self: Option<nat>, at: Time) {
    e.Created? && e.key == key && self != Some(e.id) ==> e.at < at
  }

  /** No watchdog recreate of key within span before at. */
  ghost predicate NoRecreateWithin(log: Log, key: Key, span: int, at: Time) {
    forall i :: 0 <= i < |log| ==> RecreateBefore(log[i], key, at - span)
  }

  ghost predicate RecreateBefore(e: Entry, key: Key, at: Time) {
    e.Recreated? && e.key == key ==> e.at < at
  }

  ghost predicate ExitsUpTo(log: Log, at: Time) {
    forall i :: 0 <= i < |log| ==> log[i].Exited? ==> log[i].at <= at
  }

  ghost predicate NotYetCreated(log: Log, id: nat) {
    forall i :: 0 <= i < |log| ==> log[i].Created? ==> log[i].id < id
  }

  ghost predicate NotYetRecreated(log: Log, id: nat) {
    forall i :: 0 <= i < |log| ==> log[i].Recreated? ==> log[i].id < id
  }

  /** The conditions under which each entry may be added to a log. */
  ghost predicate Justified(cfg: Config, start: Time, past: Log, e: Entry) {
    match e
    case Created(id, key, at) =>
      Holder(past, key) == None && NotYetCreated(past, id) && start <= at
    case Stopped(id, key) =>
      Holder(past, key) == Some(id)
    case SeenStalled(id, key, at) =>
      StallStart(past, id) == 0 && 0 <= LastRecreate(past, id) < at
    case Recreated(id, key, previous, at) =>
      && Holder(past, key) == Some(id)
      && Replaces(past, id, key, previous)
      && 0 < at && previous != id && NotYetRecreated(past, id)
      && NoCleanWithin(past, key, cfg.StallGrace(), at)
      && NoBirthWithin(past, key, Some(id), cfg.StallGrace(), at)
      && NoRecreateWithin(past, key, cfg.StallGrace(), at)
      && LastCheck(past, previous) == Some(true)
      && StallStart(past, previous) != 0
      && (LastRecreate(past, previous) == 0 || LastRecreate(past, previous) + cfg.Backoff() <= at)
    case Exited(id, key, at) =>
      && cfg.RestartEnabled()
      && BecameLeader in past
      && Holder(past, key) == Some(id)
      && NoCleanWithin(past, key, cfg.StallGrace() + cfg.RestartGrace(), at)
      && NoBirthWithin(past, key, None, cfg.StallGrace(), at)
      && start + cfg.StallGrace() + cfg.RestartGrace() < at
      && Origin(past, id) + cfg.StallGrace() + cfg.RestartGrace() < at
      && LastCheck(past, id) == Some(true)
      && Depth(past, id) >= 1
      && StallStart(past, id) != 0 && StallStart(past, id) + cfg.RestartGrace() < at
      && ExitsUpTo(past, at - cfg.RestartCooldown())
    case CycleEnded(id, key, live, _, _) =>
      && (live <==> Holder(past, key) == Some(id))
      && (forall k :: Holder(past, k) == Some(id) ==> k == key)
    case _ => true
  }

  /** The log ends with the stop of a job and the creation of the next under its key. */
  predicate Replaces(log: Log, id: nat, key: Key, previous: nat) {
    && |log| >= 2
    && log[|log| - 2] == Stopped(previous, key)
    && log[|log| - 1].Created? && log[|log| - 1].id == id && log[|log| - 1].key == key
  }

  ghost predicate LogJustified(cfg: Config, start: Time, log: Log)
    decreases |log|
  {
    log == [] || (LogJustified(cfg, start, Past(log)) && Justified(cfg, start, Past(log), Last(log)))
  }

  // ---------------------------------------------------------------------------
  // What the state must look like

  ghost predicate Held(s: State) {
    && (forall key :: Holder(s.log, key) == if key in s.jobs then Some(s.jobs[key]) else None)
    && (s.isLeader <==> BecameLeader in s.log)
    && NotYetCreated(s.log, |s.store|)
    && NotYetRecreated(s.log, |s.store|)
  }

  predicate EntryTimed(start: Time, clock: Time, e: Entry) {
    match e
    case Created(_, _, at) => start <= at <= clock
    case Recreated(_, _, _, at) => 0 < at <= clock
    case SeenStalled(_, _, at) => 0 < at <= clock
    case Exited(_, _, at) => 0 < at <= clock
    case CycleEnded(_, _, _, o, at) => o.Clean() ==> start <= at <= clock
    case _ => true
  }

  predicate JobTimed(cfg: Config, start: Time, clock: Time, j: Job) {
    && start <= j.createdAt <= clock
    && (j.lastClean == 0 || j.createdAt <= j.lastClean <= clock)
    && 0 <= j.lastSuccess <= j.lastClean
    && (j.stalledSince == 0 || start + cfg.StallGrace() < j.stalledSince <= clock)
    && (j.stalledSince != 0 && j.lastClean != 0 ==> j.lastClean + cfg.StallGrace() < j.stalledSince)
    && j.recreateCount >= 0
    && (j.lastRecreateAt == 0 || 0 < j.lastRecreateAt <= j.createdAt)
  }

  ghost predicate Timed(cfg: Config, start: Time, s: State) {
    && 0 < start <= s.clock
    && (forall i :: 0 <= i < |s.log| ==> EntryTimed(start, s.clock, s.log[i]))
    && (forall id: nat :: id < |s.store| ==> JobTimed(cfg, start, s.clock, s.store[id]))
  }

  /** The health fields of a struct are what its cycle history says. */
  ghost predicate TracksCycles(log: Log, id: nat, j: Job) {
    var cycles := Cycles(log, id);
    && j.consecutiveEmpty == EmptySuffix(cycles)
    && j.successCount == Successes(cycles)
    && j.metricsCount == SeriesSum(cycles)
    && j.failureCount == TargetFailures(log, id) + SendFailures(cycles)
    && j.lastSucceeded == (cycles != [] && cycles[|cycles| - 1].Success?)
    && match LatestSuccess(cycles)
       case None => j.lastSuccess == 0 && j.lastSeriesCount == 0
       case Some(o) => o.Success? && j.lastSuccess == o.successAt && j.lastSeriesCount == o.series
  }

  /** The timers and counters of a struct are what the log of its lineage says. */
  ghost predicate TracksLineage(cfg: Config, start: Time, log: Log, id: nat, j: Job) {
    && j.createdAt == Birth(log, id)
    && j.lastClean == LastCleanAt(log, id)
    && j.lastHadTargets == (LastCheck(log, id) == Some(true))
    && j.recreateCount == Depth(log, id)
    && j.lastRecreateAt == LastRecreate(log, id)
    && j.stalledSince == StallStart(log, id)
    && start <= Origin(log, id)
    && Origin(log, id) + Times(Depth(log, id), cfg.StallGrace()) <= j.createdAt
    && (j.stalledSince != 0 ==> Origin(log, id) + cfg.StallGrace() < j.stalledSince)
  }

  ghost predicate Tracked(cfg: Config, start: Time, s: State) {
    forall id: nat :: id < |s.store| ==>
      TracksCycles(s.log, id, s.store[id]) && TracksLineage(cfg, start, s.log, id, s.store[id])
  }

  /** How past events of a key bound the timers of the job registered under it. */
  predicate EntryBound(cfg: Config, e: Entry, key: Key, j: Job) {
    match e
    case Created(_, k, at) => k == key ==> at <= j.createdAt
    case Recreated(_, k, _, at) => k == key ==> at <= j.createdAt
    case CycleEnded(_, k, live, o, at) =>
      k == key && live && o.Clean() ==>
        at <= Baseline(j) && (j.stalledSince != 0 ==> at + cfg.StallGrace() < j.stalledSince)
    case _ => true
  }

  ghost predicate Bounds(cfg: Config, log: Log, key: Key, j: Job) {
    forall i :: 0 <= i < |log| ==> EntryBound(cfg, log[i], key, j)
  }

  ghost predicate Bounded(cfg: Config, s: State)
    requires KeysOk(s)
  {
    forall key :: key in s.jobs ==> KeyOk(s, key) && Bounds(cfg, s.log, key, JobOf(s, key))
  }

  ghost predicate RestartsCounted(s: State) {
    && s.selfRestartTotal == Exits(s.log)
    && s.lastSelfRestartAt == LastExit(s.log)
    && (s.lastSelfRestartAt == 0 ==> forall i :: 0 <= i < |s.log| ==> !s.log[i].Exited?)
    && ExitsUpTo(s.log, s.lastSelfRestartAt)
  }

  ghost predicate Inv(cfg: Config, start: Time, s: State) {
    && Sound(s)
    && Held(s)
    && Timed(cfg, start, s)
    && Tracked(cfg, start, s)
    && Bounded(cfg, s)
    && RestartsCounted(s)
    && LogJustified(cfg, start, s.log)
  }
}
