/** The methods of the controller take the state machine through its events, so what is
    proved of runs holds of them. */
module ControllerRefinement {
  import opened MetricApi
  import opened JobHealth
  import opened ControllerSteps
  import opened ControllerInvariant
  import opened ControllerRuns
  import opened Dedup
  import opened Relabel
  import opened Batches
  import opened Series
  import opened Delivery
  import opened SendMetrics
  import opened CollectionCycle

  /** es leads from s to s' through the states ss. */
  ghost predicate Leads(cfg: Config, s: State, es: seq<Event>, ss: seq<State>, s': State) {
    && |ss| == |es| + 1
    && ss[0] == s && ss[|es|] == s'
    && forall i :: 0 <= i < |es| ==> Next(cfg, ss[i], es[i], ss[i + 1])
  }

  lemma LeadsOn(cfg: Config, s: State, es: seq<Event>, ss: seq<State>, s1: State, e: Event, s2: State)
    requires Leads(cfg, s, es, ss, s1) && Next(cfg, s1, e, s2)
    ensures Leads(cfg, s, es + [e], ss + [s2], s2)
  {
    forall i | 0 <= i < |es + [e]|
      ensures Next(cfg, (ss + [s2])[i], (es + [e])[i], (ss + [s2])[i + 1])
    {
      if i < |es| {
        assert Next(cfg, ss[i], es[i], ss[i + 1]);
      }
    }
  }

  /** Loading a list of distinct resources is a sequence of Load events, one by one. */
  lemma {:induction false} LoadIsEvents(cfg: Config, start: Time, s: State, items: seq<MetricAccess>, clk: seq<Time>)
    returns (es: seq<Event>, ss: seq<State>)
    requires Inv(cfg, start, s) && DistinctKeys(items) && |items| == |clk| && Readings(s.clock, clk)
    requires forall id: nat, j :: id < |s.store| && 0 <= j < |items| ==> KeyOf(s.store[id].access) != KeyOf(items[j])
    ensures Leads(cfg, s, es, ss, LoadFrom(s, items, clk))
    ensures forall e :: e in es ==> e.Load?
    ensures Inv(cfg, start, LoadFrom(s, items, clk))
    decreases |items|
  {
    if items == [] {
      es, ss := [], [s];
    } else {
      var e, s1 := Load(items[0], clk[0]), LoadOne(s, items[0], clk[0]);
      StepKeeps(cfg, start, s, e);
      ReadingsRest(s.clock, clk, s1.clock);
      NotYetLoaded(s, items, clk[0]);
      es, ss := LoadIsEvents(cfg, start, s1, items[1..], clk[1..]);
      Prepend(cfg, s, e, s1, es, ss, LoadFrom(s, items, clk));
      es, ss := [e] + es, [s] + ss;
    }
  }

  lemma NotYetLoaded(s: State, items: seq<MetricAccess>, at: Time)
    requires items != [] && DistinctKeys(items)
    requires forall id: nat, j :: id < |s.store| && 0 <= j < |items| ==> KeyOf(s.store[id].access) != KeyOf(items[j])
    ensures var s1 := LoadOne(s, items[0], at);
      forall id: nat, j :: id < |s1.store| && 0 <= j < |items[1..]| ==>
        KeyOf(s1.store[id].access) != KeyOf(items[1..][j])
    ensures DistinctKeys(items[1..])
  {}

  lemma Prepend(cfg: Config, s: State, e: Event, s1: State, es: seq<Event>, ss: seq<State>, s': State)
    requires Next(cfg, s, e, s1) && Leads(cfg, s1, es, ss, s')
    ensures Leads(cfg, s, [e] + es, [s] + ss, s')
  {}

  /** The failed targets of a cycle, one event each. */
  function Failures(id: nat, errors: seq<string>): (es: seq<Event>)
    ensures |es| == |errors|
  {
    seq(|errors|, i requires 0 <= i < |errors| => FailTarget(id, errors[i]))
  }

  lemma {:induction false} FailuresAreEvents(cfg: Config, start: Time, s: State, id: nat, errors: seq<string>)
    returns (es: seq<Event>, ss: seq<State>)
    requires Inv(cfg, start, s) && id < |s.store|
    ensures es == Failures(id, errors) && Leads(cfg, s, es, ss, FailTargets(s, id, errors))
    ensures Inv(cfg, start, FailTargets(s, id, errors))
    decreases |errors|
  {
    if errors == [] {
      es, ss := [], [s];
    } else {
      var init, error := errors[..|errors| - 1], errors[|errors| - 1];
      var s1 := FailTargets(s, id, init);
      es, ss := FailuresAreEvents(cfg, start, s, id, init);
      var e := FailTarget(id, error);
      StepKeeps(cfg, start, s1, e);
      LeadsOn(cfg, s, es, ss, s1, e, FailTargets(s, id, errors));
      es, ss := es + [e], ss + [FailTargets(s, id, errors)];
    }
  }

  /** An uninterrupted cycle with healthy targets is this sequence of events: its failures,
      the record of its targets, its end and the time of its run. */
  lemma CycleIsEvents(cfg: Config, start: Time, s: State, id: nat, errors: seq<string>, metrics: seq<Metric>,
                      o: Outcome, at: Time, wall: Time)
    returns (es: seq<Event>, ss: seq<State>)
    requires Inv(cfg, start, s) && id < |s.store|
    requires CycleOk(RecordTargetsSeen(FailTargets(s, id, errors), id, metrics), o, at)
    ensures var s2 := RecordTargetsSeen(FailTargets(s, id, errors), id, metrics);
      var s' := RecordRun(RecordCycle(s2, id, o, at), id, wall);
      Leads(cfg, s, es, ss, s') && Inv(cfg, start, s')
    ensures es == Failures(id, errors) + [SeeTargets(id, metrics), EndCycle(id, o, at), FinishRun(id, wall)]
  {
    var s1 := FailTargets(s, id, errors);
    var s2 := RecordTargetsSeen(s1, id, metrics);
    es, ss := FailuresAreEvents(cfg, start, s, id, errors);
    es, ss := OneMoreEvent(cfg, start, s, es, ss, s1, SeeTargets(id, metrics));
    es, ss := OneMoreEvent(cfg, start, s, es, ss, s2, EndCycle(id, o, at));
    es, ss := OneMoreEvent(cfg, start, s, es, ss, RecordCycle(s2, id, o, at), FinishRun(id, wall));
    ThreeMore(Failures(id, errors), SeeTargets(id, metrics), EndCycle(id, o, at), FinishRun(id, wall));
  }

  lemma ThreeMore(es: seq<Event>, a: Event, b: Event, c: Event)
    ensures es + [a] + [b] + [c] == es + [a, b, c]
  {}

  lemma OneMoreEvent(cfg: Config, start: Time, s: State, es: seq<Event>, ss: seq<State>, s1: State, e: Event)
    returns (es': seq<Event>, ss': seq<State>)
    requires Leads(cfg, s, es, ss, s1) && Inv(cfg, start, s1) && CanStep(cfg, s1, e)
    ensures es' == es + [e]
    ensures Leads(cfg, s, es', ss', Step(cfg, s1, e)) && Inv(cfg, start, Step(cfg, s1, e))
  {
    StepKeeps(cfg, start, s1, e);
    LeadsOn(cfg, s, es, ss, s1, e, Step(cfg, s1, e));
    es', ss' := es + [e], ss + [Step(cfg, s1, e)];
  }

  /** What a cycle classified as a success delivered: every URL accepted each batch exactly
      once and in order, at most three POSTs each, and together the series of the whole
      deduplicated and relabeled collection, up to the order of labels. */
  lemma SuccessfulCycleDelivers(wire: Wire, fp: Fingerprint, re: Engine, ma: MetricAccess,
                                targets: seq<ScrapeTarget>, batchSize: int, o: Outcome, ships: seq<Shipment>, u: nat)
    requires ma.remoteWrite.Some? && TargetUrls(ma).Some? && u < |TargetUrls(ma).value|
    requires var metrics := Deduplicated(fp, Gathered(targets));
      && Classified(o, |metrics|, |ErrorsIn(targets)|, AllAccepted(ma, ships)) && o.Success?
      && AllShipped(wire, re, ma, Split(metrics, batchSize), ships)
    ensures var metrics, rw, url := Deduplicated(fp, Gathered(targets)), ma.remoteWrite.value, TargetUrls(ma).value[u];
      && AcceptedBy(Flatten(SentIn(ships)), url) == PayloadsIn(ships)
      && (forall b :: 0 <= b < |ships| ==> 1 <= |To(ships[b].sent, url)| <= 3)
      && AreSeriesOf(Flatten(PayloadsIn(ships)), Relabeled(re, metrics, rw.relabelings), rw.extraLabels, rw.honorLabels)
      && |Flatten(PayloadsIn(ships))| == |Relabeled(re, metrics, rw.relabelings)|
      && o.series == |metrics| > 0
  {
    SuccessDelivers(wire, re, ma, Deduplicated(fp, Gathered(targets)), batchSize, ships, u);
  }
}
