/** The bookkeeping of one collection job and the questions the watchdog asks of it. */
module JobHealth {
  import opened MetricApi

  /** Nanoseconds on the controller's clock; 0 stands for the zero time. */
  type Time = int

  const MINUTE: int := 60_000_000_000
  const DEFAULT_STALL_GRACE := 15 * MINUTE
  const DEFAULT_RECREATE_BACKOFF := 5 * MINUTE
  const DEFAULT_RESTART_GRACE := 45 * MINUTE
  const DEFAULT_RESTART_COOLDOWN := 30 * MINUTE

  datatype Config = Config(
    stallGracePeriod: int,
    recreateBackoff: int,
    podRestartGracePeriod: int,
    podRestartCooldown: int,
    selfHealPodRestart: Option<bool>,
    batchSize: int)
  {
    function StallGrace(): (d: int)
      ensures d > 0
    {
      if stallGracePeriod > 0 then stallGracePeriod else DEFAULT_STALL_GRACE
    }

    function Backoff(): (d: int)
      ensures d > 0
    {
      if recreateBackoff > 0 then recreateBackoff else DEFAULT_RECREATE_BACKOFF
    }

    function RestartGrace(): (d: int)
      ensures d > 0
    {
      if podRestartGracePeriod > 0 then podRestartGracePeriod else DEFAULT_RESTART_GRACE
    }

    function RestartCooldown(): (d: int)
      ensures d > 0
    {
      if podRestartCooldown > 0 then podRestartCooldown else DEFAULT_RESTART_COOLDOWN
    }

    predicate RestartEnabled() {
      selfHealPodRestart == Some(true)
    }
  }

  /** The defaults, in nanoseconds: 15, 5, 45 and 30 minutes. */
  lemma Defaults(cfg: Config)
    ensures cfg.StallGrace() == if cfg.stallGracePeriod > 0 then cfg.stallGracePeriod else 900_000_000_000
    ensures cfg.Backoff() == if cfg.recreateBackoff > 0 then cfg.recreateBackoff else 300_000_000_000
    ensures cfg.RestartGrace() == if cfg.podRestartGracePeriod > 0 then cfg.podRestartGracePeriod else 2_700_000_000_000
    ensures cfg.RestartCooldown() == if cfg.podRestartCooldown > 0 then cfg.podRestartCooldown else 1_800_000_000_000
  {}

  /** How one collection cycle ended. Success carries the number of series and the
      clock reading stored as the time of the last success. */
  datatype Outcome =
    | NoTargets(wall: Time)
    | Success(series: nat, successAt: Time)
    | SendFailed(error: string)
    | TargetErrorEmpty
    | CleanEmpty
  {
    /** Error-free with healthy targets: the outcomes that reset the stall baseline. */
    predicate Clean() {
      Success? || CleanEmpty?
    }
  }

  /** The fields of one job struct. Every recreate makes a new one. */
  datatype Job = Job(
    access: MetricAccess,
    stopOpen: bool,
    lastRun: Time,
    lastError: Option<string>,
    metricsCount: int,
    successCount: int,
    failureCount: int,
    lastSuccess: Time,
    lastSeriesCount: int,
    consecutiveEmpty: int,
    lastSucceeded: bool,
    lastClean: Time,
    lastHadTargets: bool,
    createdAt: Time,
    lastRecreateAt: Time,
    recreateCount: int,
    stalledSince: Time)

  function NewJob(ma: MetricAccess, at: Time): Job {
    Job(ma, true, 0, None, 0, 0, 0, 0, 0, 0, false, 0, false, at, 0, 0, 0)
  }

  /** The stall baseline: the last clean cycle, else the creation time. */
  function Baseline(j: Job): Time {
    if j.lastClean == 0 then j.createdAt else j.lastClean
  }

  predicate Stalled(cfg: Config, j: Job, now: Time) {
    && WantsJob(j.access)
    && Baseline(j) != 0
    && now - Baseline(j) > cfg.StallGrace()
  }

  /** A stalled job that qualifies for the last-resort restart (cooldown apart). */
  predicate Escalates(cfg: Config, isLeader: bool, j: Job, now: Time) {
    && cfg.RestartEnabled()
    && isLeader
    && j.lastHadTargets
    && j.recreateCount >= 1
    && j.stalledSince != 0
    && now - j.stalledSince > cfg.RestartGrace()
  }

  /** The last watchdog recreate is too recent for another one. */
  predicate Throttled(cfg: Config, j: Job, now: Time) {
    j.lastRecreateAt != 0 && now - j.lastRecreateAt < cfg.Backoff()
  }

  /** Seeds the start of the continuous stall if it is not yet known. */
  function Seed(j: Job, now: Time): Job {
    if j.stalledSince == 0 then j.(stalledSince := now) else j
  }

  /** The struct that replaces j when the watchdog recreates it. */
  function Successor(j: Job, now: Time, at: Time): Job {
    NewJob(j.access, at).(
    lastRecreateAt := now,
    recreateCount := j.recreateCount + 1,
    stalledSince := j.stalledSince,
    lastHadTargets := j.lastHadTargets)
  }

  function AfterTargetError(j: Job, error: string): Job {
    j.(lastError := Some(error), failureCount := j.failureCount + 1)
  }

  /** The critical section that records how a cycle ended. */
  function AfterCycle(j: Job, o: Outcome, at: Time): Job {
    match o
    case NoTargets(wall) =>
      j.(lastHadTargets := false, consecutiveEmpty := j.consecutiveEmpty + 1,
         lastSucceeded := false, lastRun := wall)
    case Success(series, successAt) =>
      j.(successCount := j.successCount + 1, metricsCount := j.metricsCount + series,
         lastSuccess := successAt, lastSeriesCount := series, consecutiveEmpty := 0,
         lastSucceeded := true, lastClean := at, lastRecreateAt := 0, stalledSince := 0)
    case SendFailed(error) =>
      j.(lastError := Some(error), failureCount := j.failureCount + 1,
         consecutiveEmpty := j.consecutiveEmpty + 1, lastSucceeded := false)
    case TargetErrorEmpty =>
      j.(consecutiveEmpty := j.consecutiveEmpty + 1, lastSucceeded := false)
    case CleanEmpty =>
      j.(consecutiveEmpty := j.consecutiveEmpty + 1, lastSucceeded := false,
         lastClean := at, stalledSince := 0)
  }
}
