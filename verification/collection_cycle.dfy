/** One collection cycle: scrape the healthy targets, deduplicate, send, and record the
    outcome. Each record is a critical section of its own. */
module CollectionCycle {
  import opened MetricApi
  import opened JobHealth
  import opened ControllerSteps
  import opened RemoteWriteController
  import opened RemoteWriteJobs
  import opened Dedup
  import opened Relabel
  import opened Batches
  import opened Delivery
  import opened SendMetrics

  /** What one target answers. */
  datatype Scrape = Collected(metrics: seq<Metric>) | Failed(error: string)

  datatype ScrapeTarget = ScrapeTarget(healthy: bool, scrape: Scrape)

  function Healthy(targets: seq<ScrapeTarget>): seq<ScrapeTarget> {
    if targets == [] then []
    else
      var t := targets[|targets| - 1];
      Healthy(targets[..|targets| - 1]) + (if t.healthy then [t] else [])
  }

  /** The samples of the targets that answered. */
  function Gathered(targets: seq<ScrapeTarget>): seq<Metric> {
    if targets == [] then []
    else
      var t := targets[|targets| - 1];
      Gathered(targets[..|targets| - 1]) + (if t.scrape.Collected? then t.scrape.metrics else [])
  }

  function ErrorsIn(targets: seq<ScrapeTarget>): seq<string> {
    if targets == [] then []
    else
      var t := targets[|targets| - 1];
      ErrorsIn(targets[..|targets| - 1]) + (if t.scrape.Failed? then [t.scrape.error] else [])
  }

  function FailTargets(s: State, id: nat, errors: seq<string>): (s': State)
    requires id < |s.store|
    ensures |s'.store| == |s.store|
  {
    if errors == [] then s
    else RecordTargetError(FailTargets(s, id, errors[..|errors| - 1]), id, errors[|errors| - 1])
  }

  // ---------------------------------------------------------------------------
  // The critical sections

  method RecordFailedTarget(c: Controller, job: RemoteWriteJob, error: string)
    requires c.Valid() && c.Owns(job)
    modifies c`st, job
    ensures c.Valid() && c.st == RecordTargetError(old(c.st), job.id, error)
  {
    assert job.Rec() == c.st.store[job.id];
    job.RecordTargetError(error);
    c.st := RecordTargetError(c.st, job.id, error);
    c.OneWritten(job.id);
  }

  method RecordTargetsPresent(c: Controller, job: RemoteWriteJob, metrics: seq<Metric>)
    requires c.Valid() && c.Owns(job)
    modifies c`st, c`collectedMetrics, job`lastHadTargets
    ensures c.Valid() && c.st == RecordTargetsSeen(old(c.st), job.id, metrics)
    ensures c.collectedMetrics == old(c.collectedMetrics)[KeyOf(job.access) := metrics]
  {
    assert job.Rec() == c.st.store[job.id];
    c.collectedMetrics := c.collectedMetrics[KeyOf(job.access) := metrics];
    job.lastHadTargets := true;
    c.st := RecordTargetsSeen(c.st, job.id, metrics);
    c.OneWritten(job.id);
  }

  method RecordNoTargets(c: Controller, job: RemoteWriteJob, wall: Time)
    requires c.Valid() && c.Owns(job)
    modifies c`st, c`collectedMetrics, job
    ensures c.Valid() && c.st == RecordCycle(old(c.st), job.id, NoTargets(wall), old(c.clock))
    ensures c.collectedMetrics == old(c.collectedMetrics)[KeyOf(job.access) := []]
  {
    c.collectedMetrics := c.collectedMetrics[KeyOf(job.access) := []];
    assert job.Rec() == c.st.store[job.id];
    job.RecordNoTargets(wall);
    c.st := RecordCycle(c.st, job.id, NoTargets(wall), c.clock);
    c.OneWritten(job.id);
  }

  /** A cycle that failed: nothing is read off the clock. */
  method RecordFailure(c: Controller, job: RemoteWriteJob, sendError: Option<string>) returns (ghost o: Outcome)
    requires c.Valid() && c.Owns(job)
    modifies c`st, job
    ensures o == if sendError.Some? then SendFailed(sendError.value) else TargetErrorEmpty
    ensures c.Valid() && c.st == RecordCycle(old(c.st), job.id, o, old(c.clock))
  {
    assert job.Rec() == c.st.store[job.id];
    if sendError.Some? {
      o := SendFailed(sendError.value);
      job.RecordSendFailure(sendError.value);
    } else {
      o := TargetErrorEmpty;
      job.RecordTargetErrorEmpty();
    }
    c.st := RecordCycle(c.st, job.id, o, c.clock);
    c.OneWritten(job.id);
  }

  /** A cycle that went well; series is 0 for the clean empty one. */
  method RecordClean(c: Controller, job: RemoteWriteJob, series: nat) returns (ghost o: Outcome, ghost at: Time)
    requires c.Valid() && c.Owns(job)
    modifies c`st, c`clock, job
    ensures c.Valid() && CycleOk(old(c.st), o, at)
    ensures if series > 0 then o.Success? && o.series == series else o == CleanEmpty
    ensures c.st == RecordCycle(old(c.st), job.id, o, at)
  {
    ghost var s := c.st;
    assert job.Rec() == s.store[job.id];
    var now := c.Now();
    if series > 0 {
      var successAt := now;
      now := c.Now();
      o := Success(series, successAt);
      job.RecordSuccess(series, successAt, now);
    } else {
      o := CleanEmpty;
      job.RecordCleanEmpty(now);
    }
    at := now;
    c.st := RecordCycle(s, job.id, o, at);
    c.OneWritten(job.id);
  }

  method FinishRun(c: Controller, job: RemoteWriteJob, wall: Time)
    requires c.Valid() && c.Owns(job)
    modifies c`st, job`lastRun
    ensures c.Valid() && c.st == RecordRun(old(c.st), job.id, wall)
  {
    assert job.Rec() == c.st.store[job.id];
    job.lastRun := wall;
    c.st := RecordRun(c.st, job.id, wall);
    c.OneWritten(job.id);
  }

  // ---------------------------------------------------------------------------
  // The cycle

  /** How a cycle with healthy targets is classified: series and a good send make a
      success, even if some target failed. */
  ghost predicate Classified(o: Outcome, series: nat, errors: nat, sent: bool) {
    match o
    case NoTargets(_) => false
    case Success(n, _) => series > 0 && sent && n == series
    case SendFailed(_) => series > 0 && !sent
    case TargetErrorEmpty => series == 0 && errors > 0
    case CleanEmpty => series == 0 && errors == 0
  }

  /** Each outcome has exactly its own case. */
  lemma ClassifiedIff(o: Outcome, series: nat, errors: nat, sent: bool)
    requires Classified(o, series, errors, sent)
    ensures o.Success? <==> series > 0 && sent
    ensures o.Success? ==> o.series == series
    ensures o.SendFailed? <==> series > 0 && !sent
    ensures o.TargetErrorEmpty? <==> series == 0 && errors > 0
    ensures o.CleanEmpty? <==> series == 0 && errors == 0
  {}

  /** Of two parts of a target list, the healthy ones follow each other, and so do their
      samples and their errors; one target is kept if it is healthy, and yields its samples
      or its error. */
  lemma ScrapesDistribute(a: seq<ScrapeTarget>, b: seq<ScrapeTarget>)
    ensures Healthy(a + b) == Healthy(a) + Healthy(b)
    ensures Gathered(a + b) == Gathered(a) + Gathered(b)
    ensures ErrorsIn(a + b) == ErrorsIn(a) + ErrorsIn(b)
  {
    HealthyDistributes(a, b);
    GatheredDistributes(a, b);
    ErrorsDistribute(a, b);
  }

  lemma {:induction false} HealthyDistributes(a: seq<ScrapeTarget>, b: seq<ScrapeTarget>)
    ensures Healthy(a + b) == Healthy(a) + Healthy(b)
    decreases |b|
  {
    if b == [] {
      assert a + b == a;
    } else {
      HealthyDistributes(a, b[..|b| - 1]);
      assert (a + b)[..|a + b| - 1] == a + b[..|b| - 1];
    }
  }

  lemma {:induction false} GatheredDistributes(a: seq<ScrapeTarget>, b: seq<ScrapeTarget>)
    ensures Gathered(a + b) == Gathered(a) + Gathered(b)
    decreases |b|
  {
    if b == [] {
      assert a + b == a;
    } else {
      GatheredDistributes(a, b[..|b| - 1]);
      assert (a + b)[..|a + b| - 1] == a + b[..|b| - 1];
    }
  }

  lemma {:induction false} ErrorsDistribute(a: seq<ScrapeTarget>, b: seq<ScrapeTarget>)
    ensures ErrorsIn(a + b) == ErrorsIn(a) + ErrorsIn(b)
    decreases |b|
  {
    if b == [] {
      assert a + b == a;
    } else {
      ErrorsDistribute(a, b[..|b| - 1]);
      assert (a + b)[..|a + b| - 1] == a + b[..|b| - 1];
    }
  }

  lemma OneScrape(t: ScrapeTarget)
    ensures Healthy([t]) == if t.healthy then [t] else []
    ensures Gathered([t]) == match t.scrape case Collected(ms) => ms case Failed(_) => []
    ensures ErrorsIn([t]) == match t.scrape case Collected(_) => [] case Failed(error) => [error]
  {}

  lemma ScrapesSnoc(targets: seq<ScrapeTarget>, n: nat)
    requires n < |targets|
    ensures var t, hs, ms, es := targets[n], Healthy(targets[..n]), Gathered(targets[..n]), ErrorsIn(targets[..n]);
      && Healthy(targets[..n + 1]) == (if t.healthy then hs + [t] else hs)
      && Gathered(targets[..n + 1]) == (if t.scrape.Collected? then ms + t.scrape.metrics else ms)
      && ErrorsIn(targets[..n + 1]) == (if t.scrape.Failed? then es + [t.scrape.error] else es)
  {
    assert targets[..n + 1][..n] == targets[..n];
  }

  lemma FailTargetsSnoc(s: State, id: nat, errors: seq<string>, error: string)
    requires id < |s.store|
    ensures FailTargets(s, id, errors + [error]) == RecordTargetError(FailTargets(s, id, errors), id, error)
  {}

  method HealthyTargets(allTargets: seq<ScrapeTarget>) returns (healthy: seq<ScrapeTarget>)
    ensures healthy == Healthy(allTargets)
  {
    healthy := [];
    for i := 0 to |allTargets|
      invariant healthy == Healthy(allTargets[..i])
    {
      ScrapesSnoc(allTargets, i);
      if allTargets[i].healthy {
        healthy := healthy + [allTargets[i]];
      }
    }
    assert allTargets[..|allTargets|] == allTargets;
  }

  /** Asks every healthy target; a failed one is recorded and does not stop the others. */
  method CollectFromTargets(c: Controller, job: RemoteWriteJob, targets: seq<ScrapeTarget>)
    returns (metrics: seq<Metric>, targetErr: bool)
    requires c.Valid() && c.Owns(job)
    modifies c`st, job
    ensures c.Valid() && c.st == FailTargets(old(c.st), job.id, ErrorsIn(targets))
    ensures metrics == Gathered(targets) && (targetErr <==> ErrorsIn(targets) != [])
  {
    metrics, targetErr := [], false;
    for i := 0 to |targets|
      invariant c.Valid() && c.st == FailTargets(old(c.st), job.id, ErrorsIn(targets[..i]))
      invariant metrics == Gathered(targets[..i]) && (targetErr <==> ErrorsIn(targets[..i]) != [])
    {
      ScrapesSnoc(targets, i);
      match targets[i].scrape {
        case Failed(error) =>
          FailTargetsSnoc(old(c.st), job.id, ErrorsIn(targets[..i]), error);
          RecordFailedTarget(c, job, error);
          targetErr := true;
        case Collected(ms) =>
          metrics := metrics + ms;
      }
    }
    assert targets[..|targets|] == targets;
  }

  /** Sends what was collected, if anything, and records how the cycle ended. */
  method SendAndRecord(c: Controller, job: RemoteWriteJob, net: Network, re: Engine,
                       metrics: seq<Metric>, targetErr: bool)
    returns (ghost o: Outcome, ghost at: Time, ghost ships: seq<Shipment>)
    requires c.Valid() && c.Owns(job) && job.access.remoteWrite.Some?
    modifies c`st, c`clock, job, net
    ensures c.Valid() && CycleOk(old(c.st), o, at) && c.st == RecordCycle(old(c.st), job.id, o, at)
    ensures Classified(o, |metrics|, if targetErr then 1 else 0,
                       SupportedType(job.access.remoteWrite.value.targetType) && AllAccepted(job.access, ships))
    ensures net.log == old(net.log) + Flatten(SentIn(ships))
    ensures metrics != [] && SupportedType(job.access.remoteWrite.value.targetType) ==>
      AllShipped(net.wire, re, job.access, Split(metrics, c.cfg.batchSize), ships)
  {
    ships, at := [], c.clock;
    assert SentIn(ships) == [];
    if |metrics| > 0 {
      var sent;
      sent, ships := SendAll(net, re, job.access, metrics, c.cfg.batchSize);
      if !sent {
        var error: string :| true;
        o := RecordFailure(c, job, Some(error));
      } else {
        o, at := RecordClean(c, job, |metrics|);
      }
    } else if targetErr {
      o := RecordFailure(c, job, None);
    } else {
      o, at := RecordClean(c, job, 0);
    }
  }

  /** A cycle that no other critical section interrupts. Its effect is that of the events
      FailTarget (for each failed target), SeeTargets, EndCycle and FinishRun in turn, or of
      EndCycle alone without healthy targets; what it serves and sends is the deduplicated
      collection. */
  method CollectMetrics(c: Controller, job: RemoteWriteJob, allTargets: seq<ScrapeTarget>, wall: Time,
                        fp: Fingerprint, re: Engine, net: Network)
    returns (ghost o: Outcome, ghost at: Time, ghost ships: seq<Shipment>)
    requires c.Valid() && c.Owns(job) && job.access.remoteWrite.Some?
    modifies c`st, c`clock, c`collectedMetrics, job, net
    ensures c.Valid() && net.log == old(net.log) + Flatten(SentIn(ships))
    ensures var ts, key := Healthy(allTargets), job.access.namespace + "/" + job.access.name;
      c.collectedMetrics == old(c.collectedMetrics)[key := if ts == [] then [] else Deduplicated(fp, Gathered(ts))]
    ensures var ts, rw := Healthy(allTargets), job.access.remoteWrite.value;
      if ts == [] then
        ships == [] && o == NoTargets(wall) && c.st == RecordCycle(old(c.st), job.id, o, at)
      else
        var metrics, s1 := Deduplicated(fp, Gathered(ts)), FailTargets(old(c.st), job.id, ErrorsIn(ts));
        var s2 := RecordTargetsSeen(s1, job.id, metrics);
        && CycleOk(s2, o, at)
        && c.st == RecordRun(RecordCycle(s2, job.id, o, at), job.id, wall)
        && Classified(o, |metrics|, |ErrorsIn(ts)|, SupportedType(rw.targetType) && AllAccepted(job.access, ships))
        && (metrics != [] && SupportedType(rw.targetType) ==>
              AllShipped(net.wire, re, job.access, Split(metrics, c.cfg.batchSize), ships))
  {
    var healthyTargets := HealthyTargets(allTargets);
    if |healthyTargets| == 0 {
      RecordNoTargets(c, job, wall);
      o, at, ships := NoTargets(wall), old(c.clock), [];
      assert SentIn(ships) == [];
      return;
    }
    var allMetrics, targetErr := CollectFromTargets(c, job, healthyTargets);
    allMetrics := DeduplicateMetrics(fp, allMetrics);
    RecordTargetsPresent(c, job, allMetrics);
    o, at, ships := SendAndRecord(c, job, net, re, allMetrics, targetErr);
    FinishRun(c, job, wall);
  }
}
