/** What counts as a configuration change that restarts a job. */
module ConfigDiff {
  import opened MetricApi
  import opened ControllerSteps

  function Elements<T>(xs: seq<T>): set<T> {
    set x | x in xs
  }

  lemma {:induction false} ElementsCount<T>(xs: seq<T>)
    ensures |Elements(xs)| <= |xs|
    ensures NoDuplicates(xs) ==> |Elements(xs)| == |xs|
  {
    if xs != [] {
      var init, x := xs[..|xs| - 1], xs[|xs| - 1];
      ElementsCount(init);
      assert Elements(xs) == Elements(init) + {x};
      assert NoDuplicates(xs) ==> x !in init;
    }
  }

  lemma SubsetOfSameSize<T>(a: set<T>, b: set<T>)
    requires a <= b && |a| == |b|
    ensures a == b
  {
    assert b == a + (b - a);
  }

  /** Only the lengths and one inclusion are compared, yet an unchanged configuration
      means the same pattern set whenever the new list repeats nothing. In general it
      means so exactly if the new list has as many distinct patterns as the old one. */
  lemma UnchangedPatterns(o: MetricAccess, n: MetricAccess)
    requires !ConfigChanged(o, n)
    ensures NoDuplicates(n.metrics) ==> Elements(o.metrics) == Elements(n.metrics)
    ensures Elements(o.metrics) == Elements(n.metrics) <==> |Elements(o.metrics)| == |Elements(n.metrics)|
  {
    ElementsCount(o.metrics);
    ElementsCount(n.metrics);
    assert Elements(n.metrics) <= Elements(o.metrics);
    if |Elements(o.metrics)| == |Elements(n.metrics)| {
      SubsetOfSameSize(Elements(n.metrics), Elements(o.metrics));
    }
    if NoDuplicates(n.metrics) {
      SizeOfSubset(Elements(n.metrics), Elements(o.metrics));
      SubsetOfSameSize(Elements(n.metrics), Elements(o.metrics));
    }
  }

  lemma SizeOfSubset<T>(a: set<T>, b: set<T>)
    requires a <= b
    ensures |a| <= |b|
  {
    assert b == a + (b - a);
  }

  /** With a repetition in the new list, a dropped pattern goes unnoticed. */
  lemma RepetitionHidesADrop(ma: MetricAccess)
    ensures var o, n := ma.(metrics := ["up", "node_load1"]), ma.(metrics := ["up", "up"]);
      !ConfigChanged(o, n) && Elements(o.metrics) != Elements(n.metrics)
  {
    var o, n := ma.(metrics := ["up", "node_load1"]), ma.(metrics := ["up", "up"]);
    assert "node_load1" == o.metrics[1];
    assert "node_load1"[0] != "up"[0];
    assert "node_load1" in Elements(o.metrics) && "node_load1" !in Elements(n.metrics);
  }

  // ---------------------------------------------------------------------------
  // The comparison loops

  /** Looking up one way is enough, because the sizes agree. */
  method CompareExtraLabels(before: Labels, after: Labels) returns (same: bool)
    ensures same <==> before == after
  {
    if |before| != |after| {
      return false;
    }
    var rest := before.Keys;
    while rest != {}
      invariant rest <= before.Keys
      invariant forall k :: k in before && k !in rest ==> k in after && before[k] == after[k]
      decreases rest
    {
      var key :| key in rest;
      if key !in after || before[key] != after[key] {
        return false;
      }
      rest := rest - {key};
    }
    SubsetOfSameSize(before.Keys, after.Keys);
    same := true;
  }

  /** No change: the isolation is the same, there are as many patterns and none is new, and,
      if both say how to write, interval, target type, extra labels and number of relabelings
      are the same, and replicas and stateful set if both have a Prometheus target. */
  lemma UnchangedIff(o: MetricAccess, n: MetricAccess)
    ensures !ConfigChanged(o, n) <==>
      && o.metricIsolation == n.metricIsolation
      && |o.metrics| == |n.metrics| && (forall m :: m in n.metrics ==> m in o.metrics)
      && (o.remoteWrite.Some? && n.remoteWrite.Some? ==>
            var before, after := o.remoteWrite.value, n.remoteWrite.value;
            && before.interval == after.interval
            && before.targetType == after.targetType
            && before.extraLabels == after.extraLabels
            && |before.relabelings| == |after.relabelings|
            && (before.prometheus.Some? && after.prometheus.Some? ==>
                  && before.prometheus.value.replicas == after.prometheus.value.replicas
                  && before.prometheus.value.statefulSetName == after.prometheus.value.statefulSetName))
  {}

  method HasConfigurationChanged(oldMA: MetricAccess, newMA: MetricAccess) returns (changed: bool)
    ensures changed <==> ConfigChanged(oldMA, newMA)
  {
    if oldMA.metricIsolation != newMA.metricIsolation || |oldMA.metrics| != |newMA.metrics| {
      return true;
    }
    var oldMetrics: map<string, bool> := map[];
    for i := 0 to |oldMA.metrics|
      invariant forall m :: m in oldMetrics <==> m in oldMA.metrics[..i]
    {
      oldMetrics := oldMetrics[oldMA.metrics[i] := true];
    }
    for i := 0 to |newMA.metrics|
      invariant forall j :: 0 <= j < i ==> newMA.metrics[j] in oldMA.metrics
    {
      if newMA.metrics[i] !in oldMetrics {
        assert oldMA.metrics == oldMA.metrics[..|oldMA.metrics|];
        assert newMA.metrics[i] in newMA.metrics && newMA.metrics[i] !in oldMA.metrics;
        return true;
      }
    }
    if oldMA.remoteWrite.Some? && newMA.remoteWrite.Some? {
      var o, n := oldMA.remoteWrite.value, newMA.remoteWrite.value;
      if o.interval != n.interval || o.targetType != n.targetType {
        return true;
      }
      var same := CompareExtraLabels(o.extraLabels, n.extraLabels);
      if !same || |o.relabelings| != |n.relabelings| {
        return true;
      }
      if o.prometheus.Some? && n.prometheus.Some? {
        var oldP, newP := o.prometheus.value, n.prometheus.value;
        if oldP.replicas != newP.replicas || oldP.statefulSetName != newP.statefulSetName {
          return true;
        }
      }
    }
    changed := false;
  }
}
