/** What a reconcile brings the registered jobs to, in the fields of the resources. */
module Synchronisation {
  import opened MetricApi
  import opened JobHealth
  import opened ControllerSteps
  import opened ControllerSoundness
  import opened ControllerFrames
  import opened ReconcileLaws
  import opened ConfigDiff

  // ---------------------------------------------------------------------------
  // Which resources have a job

  /** Remote write is enabled with one of the three target types. */
  predicate Wanted(ma: MetricAccess) {
    && ma.remoteWrite.Some? && ma.remoteWrite.value.enabled
    && ma.remoteWrite.value.targetType in ["prometheus", "pushgateway", "remote_write"]
  }

  lemma WantedIsCollectable(ma: MetricAccess)
    ensures Wanted(ma) <==> Collectable(ma)
  {}

  /** After a reconcile, a key is registered exactly if some resource of the list with that
      namespace and name is wanted. */
  lemma ReconcileRegisters(s: State, items: seq<MetricAccess>, clk: seq<Time>, leftovers: seq<Key>, key: Key)
    requires Sound(s) && |items| == |clk| && DistinctKeys(items)
    requires ListsLeftovers(ReconcileItems(s, items, clk), DesiredKeys(items), leftovers)
    ensures key in Reconcile(s, items, clk, leftovers).jobs <==>
      exists ma :: ma in items && Wanted(ma) && ma.namespace + "/" + ma.name == key
  {
    ReconcileConverges(s, items, clk, leftovers);
    if key in CollectableKeys(items) {
      var ma :| ma in items && Collectable(ma) && KeyOf(ma) == key;
      WantedIsCollectable(ma);
    }
    if ma :| ma in items && Wanted(ma) && ma.namespace + "/" + ma.name == key {
      WantedIsCollectable(ma);
      assert KeyOf(ma) in CollectableKeys(items);
    }
  }

  /** After a load, too; and the job of a key is that of the last wanted resource with it. */
  lemma LoadRegisters(start: Time, items: seq<MetricAccess>, clk: seq<Time>, key: Key)
    requires |items| == |clk|
    ensures key in LoadFrom(Fresh(start), items, clk).jobs <==>
      exists ma :: ma in items && Wanted(ma) && ma.namespace + "/" + ma.name == key
    ensures forall i :: 0 <= i < |items| && LastWanted(items, i) && KeyOf(items[i]) == key ==>
      LoadedAs(LoadFrom(Fresh(start), items, clk), items[i], clk[i])
  {
    LoadedKeys(Fresh(start), items, clk, key);
  }

  /** Resource i is wanted, and no later one with its key is. */
  ghost predicate LastWanted(items: seq<MetricAccess>, i: int)
    requires 0 <= i < |items|
  {
    Wanted(items[i]) && forall j :: i < j < |items| && Wanted(items[j]) ==> KeyOf(items[j]) != KeyOf(items[i])
  }

  /** The registered job of ma's key was made for ma at time at. */
  predicate LoadedAs(s: State, ma: MetricAccess, at: Time) {
    && KeyOf(ma) in s.jobs && s.jobs[KeyOf(ma)] < |s.store|
    && JobOf(s, KeyOf(ma)) == NewJob(ma, at)
  }

  lemma {:induction false} LoadKeepsOthers(s: State, items: seq<MetricAccess>, clk: seq<Time>, key: Key)
    requires |items| == |clk| && AllRegistered(s)
    requires forall j :: 0 <= j < |items| && Wanted(items[j]) ==> KeyOf(items[j]) != key
    ensures var s' := LoadFrom(s, items, clk);
      && (key in s'.jobs <==> key in s.jobs)
      && (key in s.jobs ==> s'.jobs[key] < |s'.store| && JobOf(s', key) == JobOf(s, key))
    decreases |items|
  {
    if items != [] {
      WantedIsCollectable(items[0]);
      LoadKeepsOthers(LoadOne(s, items[0], clk[0]), items[1..], clk[1..], key);
    }
  }

  lemma {:induction false} LoadedKeys(s: State, items: seq<MetricAccess>, clk: seq<Time>, key: Key)
    requires |items| == |clk| && AllRegistered(s)
    ensures key in LoadFrom(s, items, clk).jobs <==>
      key in s.jobs || exists ma :: ma in items && Wanted(ma) && ma.namespace + "/" + ma.name == key
    ensures forall i :: 0 <= i < |items| && LastWanted(items, i) && KeyOf(items[i]) == key ==>
      LoadedAs(LoadFrom(s, items, clk), items[i], clk[i])
    decreases |items|
  {
    if items != [] {
      var ma, rest, s1 := items[0], items[1..], LoadOne(s, items[0], clk[0]);
      WantedIsCollectable(ma);
      LoadedKeys(s1, rest, clk[1..], key);
      assert forall x :: x in items <==> x == ma || x in rest;
      forall i | 0 <= i < |items| && LastWanted(items, i) && KeyOf(items[i]) == key
        ensures LoadedAs(LoadFrom(s, items, clk), items[i], clk[i])
      {
        if i == 0 {
          LastWantedAlone(items);
          LoadKeepsOthers(s1, rest, clk[1..], key);
        } else {
          LastWantedRest(items, i);
        }
      }
    }
  }

  lemma LastWantedAlone(items: seq<MetricAccess>)
    requires items != [] && LastWanted(items, 0)
    ensures forall j :: 0 <= j < |items[1..]| && Wanted(items[1..][j]) ==> KeyOf(items[1..][j]) != KeyOf(items[0])
  {
    forall j | 0 <= j < |items[1..]| && Wanted(items[1..][j])
      ensures KeyOf(items[1..][j]) != KeyOf(items[0])
    {
      assert items[1..][j] == items[j + 1];
    }
  }

  lemma LastWantedRest(items: seq<MetricAccess>, i: int)
    requires 0 < i < |items| && LastWanted(items, i)
    ensures LastWanted(items[1..], i - 1)
  {
    forall j | i - 1 < j < |items[1..]| && Wanted(items[1..][j])
      ensures KeyOf(items[1..][j]) != KeyOf(items[1..][i - 1])
    {
      assert items[1..][j] == items[j + 1];
    }
  }

  // ---------------------------------------------------------------------------
  // What each job agrees with

  /** Reconciling one resource: an existing job is kept, or a job for it is created. */
  predicate KeptOrMade(s: State, s': State, ma: MetricAccess, at: Time) {
    var key := KeyOf(ma);
    && KeyOk(s', key)
    && if key in s.jobs && KeyOk(s, key) && !ConfigChanged(JobOf(s, key).access, ma) then
         s'.jobs[key] == s.jobs[key] && JobOf(s', key) == JobOf(s, key)
       else
         s'.jobs[key] >= |s.store| && JobOf(s', key) == NewJob(ma, at)
  }

  lemma OneKeptOrMade(s: State, ma: MetricAccess, at: Time)
    requires Sound(s) && Wanted(ma)
    ensures KeptOrMade(s, ReconcileItem(s, ma, at), ma, at)
  {
    if KeyOf(ma) in s.jobs {
      assert KeyOk(s, KeyOf(ma));
    }
  }

  lemma {:induction false} ItemKeptOrMade(s: State, items: seq<MetricAccess>, clk: seq<Time>, i: nat)
    requires Sound(s) && |items| == |clk| && DistinctKeys(items) && i < |items| && Wanted(items[i])
    ensures KeptOrMade(s, ReconcileItems(s, items, clk), items[i], clk[i])
    decreases |items|
  {
    var s1, key := ReconcileItem(s, items[0], clk[0]), KeyOf(items[i]);
    ReconcileItemSettles(s, items[0], clk[0]);
    if i == 0 {
      OneKeptOrMade(s, items[0], clk[0]);
      ReconcileOtherItems(s1, items[1..], clk[1..], key);
    } else {
      ReconcileOtherItem(s, items[0], clk[0], key);
      ItemKeptOrMade(s1, items[1..], clk[1..], i - 1);
      assert |s.store| <= |s1.store|;
    }
  }

  lemma ReconcileKeepsOrMakes(s: State, items: seq<MetricAccess>, clk: seq<Time>, leftovers: seq<Key>, i: nat)
    requires Sound(s) && |items| == |clk| && DistinctKeys(items) && i < |items| && Wanted(items[i])
    requires ListsLeftovers(ReconcileItems(s, items, clk), DesiredKeys(items), leftovers)
    ensures KeptOrMade(s, Reconcile(s, items, clk, leftovers), items[i], clk[i])
  {
    var s1 := ReconcileItems(s, items, clk);
    ItemKeptOrMade(s, items, clk, i);
    ReconcileItemsSettle(s, items, clk);
    StopKeysShape(s1, leftovers);
    assert items[i] in items && KeyOf(items[i]) in DesiredKeys(items);
  }

  /** What a reconcile promises of a wanted resource of a list with distinct keys: the job
      registered for it agrees with it in the isolation, the patterns as far as they are
      compared, the interval, the target type, the extra labels, the number of relabelings,
      and, where both have a Prometheus target, replicas and stateful set. */
  lemma ReconcileSynchronises(s: State, items: seq<MetricAccess>, clk: seq<Time>, leftovers: seq<Key>, i: nat)
    requires Sound(s) && |items| == |clk| && DistinctKeys(items) && i < |items| && Wanted(items[i])
    requires ListsLeftovers(ReconcileItems(s, items, clk), DesiredKeys(items), leftovers)
    ensures var s', n := Reconcile(s, items, clk, leftovers), items[i];
      && KeyOk(s', KeyOf(n))
      && var o := JobOf(s', KeyOf(n)).access;
      && o.metricIsolation == n.metricIsolation
      && |o.metrics| == |n.metrics| && (forall m :: m in n.metrics ==> m in o.metrics)
      && o.remoteWrite.Some? && o.remoteWrite.value.enabled
      && o.remoteWrite.value.interval == n.remoteWrite.value.interval
      && o.remoteWrite.value.targetType == n.remoteWrite.value.targetType
      && o.remoteWrite.value.extraLabels == n.remoteWrite.value.extraLabels
      && |o.remoteWrite.value.relabelings| == |n.remoteWrite.value.relabelings|
      && (o.remoteWrite.value.prometheus.Some? && n.remoteWrite.value.prometheus.Some? ==>
            var before, after := o.remoteWrite.value.prometheus.value, n.remoteWrite.value.prometheus.value;
            before.replicas == after.replicas && before.statefulSetName == after.statefulSetName)
  {
    ReconcileKeepsOrMakes(s, items, clk, leftovers, i);
    UnchangedIff(JobOf(Reconcile(s, items, clk, leftovers), KeyOf(items[i])).access, items[i]);
  }

  /** Agreement of an old and a new resource with remote write, field by field. */
  predicate Agrees(o: MetricAccess, n: MetricAccess)
    requires o.remoteWrite.Some? && n.remoteWrite.Some?
  {
    var before, after := o.remoteWrite.value, n.remoteWrite.value;
    && o.metricIsolation == n.metricIsolation
    && |o.metrics| == |n.metrics| && (forall m :: m in n.metrics ==> m in o.metrics)
    && before.interval == after.interval
    && before.targetType == after.targetType
    && before.extraLabels == after.extraLabels
    && |before.relabelings| == |after.relabelings|
    && (before.prometheus.Some? && after.prometheus.Some? ==>
          && before.prometheus.value.replicas == after.prometheus.value.replicas
          && before.prometheus.value.statefulSetName == after.prometheus.value.statefulSetName)
  }

  /** A job that already agrees in all of these keeps its struct as it was. Any other wanted
      resource gets a struct of its own, made for exactly that resource, and the struct it
      replaces, if any, is stopped. */
  lemma ReconcileRestartsIff(s: State, items: seq<MetricAccess>, clk: seq<Time>, leftovers: seq<Key>, i: nat)
    requires Sound(s) && |items| == |clk| && DistinctKeys(items) && i < |items| && Wanted(items[i])
    requires ListsLeftovers(ReconcileItems(s, items, clk), DesiredKeys(items), leftovers)
    ensures var s', n, key := Reconcile(s, items, clk, leftovers), items[i], KeyOf(items[i]);
      && KeyOk(s', key)
      && if key in s.jobs && KeyOk(s, key) && Agrees(JobOf(s, key).access, n) then
           s'.jobs[key] == s.jobs[key] && JobOf(s', key) == JobOf(s, key)
         else
           && s'.jobs[key] >= |s.store|
           && JobOf(s', key) == NewJob(n, clk[i])
           && (key in s.jobs ==> s.jobs[key] < |s'.store| && !s'.store[s.jobs[key]].stopOpen)
  {
    var s', key := Reconcile(s, items, clk, leftovers), KeyOf(items[i]);
    ReconcileKeepsOrMakes(s, items, clk, leftovers, i);
    ReconcileConverges(s, items, clk, leftovers);
    ReconcileKept(s, items, clk, leftovers);
    if key in s.jobs {
      assert KeyOk(s, key);
      UnchangedIff(JobOf(s, key).access, items[i]);
      assert s'.store[s.jobs[key]].stopOpen <==> Live(s', s.jobs[key]);
    }
  }
}
