/** The struct of one collection job, with the writes that its critical sections make. */
module RemoteWriteJobs {
  import opened MetricApi
  import opened JobHealth

  /** One job struct. Its goroutine may keep the reference after the job is stopped. */
  class RemoteWriteJob {
    ghost const id: nat
    const access: MetricAccess
    var stopOpen: bool
    var lastRun: Time
    var lastError: Option<string>
    var metricsCount: int
    var successCount: int
    var failureCount: int
    var lastSuccess: Time
    var lastSeriesCount: int
    var consecutiveEmpty: int
    var lastSucceeded: bool
    var lastClean: Time
    var lastHadTargets: bool
    var createdAt: Time
    var lastRecreateAt: Time
    var recreateCount: int
    var stalledSince: Time

    /** The value of the struct. */
    function Rec(): Job
      reads this
    {
      Job(access, stopOpen, lastRun, lastError, metricsCount, successCount, failureCount, lastSuccess,
          lastSeriesCount, consecutiveEmpty, lastSucceeded, lastClean, lastHadTargets, createdAt,
          lastRecreateAt, recreateCount, stalledSince)
    }

    constructor (ghost id: nat, ma: MetricAccess, at: Time)
      ensures this.id == id && Rec() == NewJob(ma, at)
    {
      this.id := id;
      access := ma;
      stopOpen := true;
      lastRun, lastError := 0, None;
      metricsCount, successCount, failureCount := 0, 0, 0;
      lastSuccess, lastSeriesCount, consecutiveEmpty := 0, 0, 0;
      lastSucceeded, lastClean, lastHadTargets := false, 0, false;
      createdAt := at;
      lastRecreateAt, recreateCount, stalledSince := 0, 0, 0;
    }

    method Stop()
      modifies this`stopOpen
      ensures Rec() == old(Rec()).(stopOpen := false)
    {
      stopOpen := false;
    }

    method ObserveStall(now: Time)
      modifies this`stalledSince
      ensures Rec() == Seed(old(Rec()), now)
    {
      if stalledSince == 0 {
        stalledSince := now;
      }
    }

    method CarryForward(now: Time, recreateCount: int, stalledSince: Time, hadTargets: bool)
      modifies this`lastRecreateAt, this`recreateCount, this`stalledSince, this`lastHadTargets
      ensures Rec() == old(Rec()).(lastRecreateAt := now, recreateCount := recreateCount,
                                   stalledSince := stalledSince, lastHadTargets := hadTargets)
    {
      lastRecreateAt := now;
      this.recreateCount := recreateCount;
      this.stalledSince := stalledSince;
      lastHadTargets := hadTargets;
    }

    method RecordTargetError(error: string)
      modifies this`lastError, this`failureCount
      ensures Rec() == AfterTargetError(old(Rec()), error)
    {
      lastError := Some(error);
      failureCount := failureCount + 1;
    }

    method RecordNoTargets(wall: Time)
      modifies this
      ensures forall at :: Rec() == AfterCycle(old(Rec()), NoTargets(wall), at)
    {
      lastHadTargets := false;
      consecutiveEmpty := consecutiveEmpty + 1;
      lastSucceeded := false;
      lastRun := wall;
    }

    method RecordSendFailure(error: string)
      modifies this
      ensures forall at :: Rec() == AfterCycle(old(Rec()), SendFailed(error), at)
    {
      lastError := Some(error);
      failureCount := failureCount + 1;
      consecutiveEmpty := consecutiveEmpty + 1;
      lastSucceeded := false;
    }

    /** A success clears the recreate throttle and the stall; the lifetime count stays. */
    method RecordSuccess(series: nat, successAt: Time, cleanAt: Time)
      modifies this
      ensures Rec() == AfterCycle(old(Rec()), Success(series, successAt), cleanAt)
    {
      CountSuccess(series, successAt);
      lastClean := cleanAt;
      lastRecreateAt := 0;
      stalledSince := 0;
    }

    method CountSuccess(series: nat, successAt: Time)
      modifies this
      ensures Rec() == old(Rec()).(successCount := old(successCount) + 1, metricsCount := old(metricsCount) + series,
                                   lastSuccess := successAt, lastSeriesCount := series, consecutiveEmpty := 0,
                                   lastSucceeded := true)
    {
      successCount := successCount + 1;
      metricsCount := metricsCount + series;
      lastSuccess := successAt;
      lastSeriesCount := series;
      consecutiveEmpty := 0;
      lastSucceeded := true;
    }

    method RecordTargetErrorEmpty()
      modifies this
      ensures forall at :: Rec() == AfterCycle(old(Rec()), TargetErrorEmpty, at)
    {
      consecutiveEmpty := consecutiveEmpty + 1;
      lastSucceeded := false;
    }

    method RecordCleanEmpty(cleanAt: Time)
      modifies this
      ensures Rec() == AfterCycle(old(Rec()), CleanEmpty, cleanAt)
    {
      consecutiveEmpty := consecutiveEmpty + 1;
      lastSucceeded := false;
      lastClean := cleanAt;
      stalledSince := 0;
    }
  }
}
