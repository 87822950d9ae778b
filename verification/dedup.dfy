/** Removing the copies of a series that several cluster-wide targets return. */
module Dedup {
  import opened MetricApi

  /** A series is identified by its name and the fingerprint of its labels. */
  type SeriesKey = (string, int)
  type Fingerprint = Labels -> int

  function SeriesOf(fp: Fingerprint, m: Metric): SeriesKey {
    (m.name, fp(m.labels))
  }

  /** The series of a list in the order of their first samples. */
  function FirstSeen(fp: Fingerprint, ms: seq<Metric>): seq<SeriesKey> {
    if ms == [] then []
    else
      var keys, k := FirstSeen(fp, ms[..|ms| - 1]), SeriesOf(fp, ms[|ms| - 1]);
      if k in keys then keys else keys + [k]
  }

  /** The sample of series k with the highest value, the earliest if there are several. */
  function Chosen(fp: Fingerprint, ms: seq<Metric>, k: SeriesKey): Option<Metric> {
    if ms == [] then None
    else
      var c, m := Chosen(fp, ms[..|ms| - 1], k), ms[|ms| - 1];
      if SeriesOf(fp, m) == k && (c.None? || m.value > c.value.value) then Some(m) else c
  }

  /** The chosen sample of each series, in the order of the first samples. */
  function Deduplicated(fp: Fingerprint, ms: seq<Metric>): (r: seq<Metric>)
    ensures |r| == |FirstSeen(fp, ms)|
  {
    FirstSeenIsSound(fp, ms);
    var keys := FirstSeen(fp, ms);
    seq(|keys|, i requires 0 <= i < |keys| => assert keys[i] in keys; Chosen(fp, ms, keys[i]).value)
  }

  lemma {:induction false} FirstSeenIsSound(fp: Fingerprint, ms: seq<Metric>)
    ensures forall i, j :: 0 <= i < j < |FirstSeen(fp, ms)| ==> FirstSeen(fp, ms)[i] != FirstSeen(fp, ms)[j]
    ensures forall k :: k in FirstSeen(fp, ms) <==> Chosen(fp, ms, k).Some?
  {
    if ms != [] {
      FirstSeenIsSound(fp, ms[..|ms| - 1]);
    }
  }

  /** One more sample. */
  lemma ChosenStep(fp: Fingerprint, ms: seq<Metric>, m: Metric, k: SeriesKey)
    ensures Chosen(fp, ms + [m], k) ==
      var c := Chosen(fp, ms, k);
      if SeriesOf(fp, m) == k && (c.None? || m.value > c.value.value) then Some(m) else c
  {}

  lemma FirstSeenStep(fp: Fingerprint, ms: seq<Metric>, m: Metric)
    ensures FirstSeen(fp, ms + [m]) ==
      var keys, k := FirstSeen(fp, ms), SeriesOf(fp, m);
      if k in keys then keys else keys + [k]
  {}

  /** A sample of a series not seen before is added at the end. */
  lemma NewSeries(fp: Fingerprint, ms: seq<Metric>, m: Metric)
    requires SeriesOf(fp, m) !in FirstSeen(fp, ms)
    ensures Deduplicated(fp, ms + [m]) == Deduplicated(fp, ms) + [m]
  {
    FirstSeenIsSound(fp, ms);
    FirstSeenStep(fp, ms, m);
    var keys := FirstSeen(fp, ms);
    forall i | 0 <= i < |keys| + 1
      ensures Deduplicated(fp, ms + [m])[i] == (Deduplicated(fp, ms) + [m])[i]
    {
      ChosenStep(fp, ms, m, FirstSeen(fp, ms + [m])[i]);
    }
  }

  /** A sample of the series at position idx replaces it if its value is higher. */
  lemma KnownSeries(fp: Fingerprint, ms: seq<Metric>, m: Metric, idx: nat)
    requires idx < |FirstSeen(fp, ms)| && FirstSeen(fp, ms)[idx] == SeriesOf(fp, m)
    ensures Deduplicated(fp, ms + [m]) ==
      var r := Deduplicated(fp, ms);
      if m.value > r[idx].value then r[idx := m] else r
  {
    FirstSeenIsSound(fp, ms);
    FirstSeenStep(fp, ms, m);
    var keys, r := FirstSeen(fp, ms), Deduplicated(fp, ms);
    forall i | 0 <= i < |keys|
      ensures Deduplicated(fp, ms + [m])[i] == if i == idx && m.value > r[idx].value then m else r[i]
    {
      ChosenStep(fp, ms, m, keys[i]);
    }
  }

  /** One pass with an index of the series seen so far. */
  method DeduplicateMetrics(fp: Fingerprint, metrics: seq<Metric>) returns (result: seq<Metric>)
    ensures result == Deduplicated(fp, metrics)
  {
    var seen: map<SeriesKey, nat> := map[];
    result := [];
    for n := 0 to |metrics|
      invariant result == Deduplicated(fp, metrics[..n])
      invariant forall k :: k in seen <==> k in FirstSeen(fp, metrics[..n])
      invariant forall k :: k in seen ==> seen[k] < |result| && FirstSeen(fp, metrics[..n])[seen[k]] == k
    {
      var m := metrics[n];
      var k := SeriesOf(fp, m);
      assert metrics[..n + 1] == metrics[..n] + [m];
      FirstSeenStep(fp, metrics[..n], m);
      if k in seen {
        var idx := seen[k];
        KnownSeries(fp, metrics[..n], m, idx);
        if m.value > result[idx].value {
          result := result[idx := m];
        }
      } else {
        NewSeries(fp, metrics[..n], m);
        seen := seen[k := |result|];
        result := result + [m];
      }
    }
    assert metrics[..|metrics|] == metrics;
  }

  // ---------------------------------------------------------------------------
  // What deduplication means

  /** Sample i is the earliest of those with the highest value of series k. */
  ghost predicate EarliestMaximum(fp: Fingerprint, ms: seq<Metric>, k: SeriesKey, i: nat) {
    && i < |ms|
    && SeriesOf(fp, ms[i]) == k
    && (forall j :: 0 <= j < |ms| && SeriesOf(fp, ms[j]) == k ==> ms[j].value <= ms[i].value)
    && (forall j :: 0 <= j < i && SeriesOf(fp, ms[j]) == k ==> ms[j].value < ms[i].value)
  }

  lemma {:induction false} ChosenNone(fp: Fingerprint, ms: seq<Metric>, k: SeriesKey)
    ensures Chosen(fp, ms, k).None? <==> forall i :: 0 <= i < |ms| ==> SeriesOf(fp, ms[i]) != k
  {
    if ms != [] {
      ChosenNone(fp, ms[..|ms| - 1], k);
      assert forall i :: 0 <= i < |ms| - 1 ==> ms[..|ms| - 1][i] == ms[i];
    }
  }

  lemma MaximumStands(fp: Fingerprint, ms: seq<Metric>, m: Metric, k: SeriesKey, i: nat)
    requires EarliestMaximum(fp, ms, k, i)
    requires SeriesOf(fp, m) == k ==> m.value <= ms[i].value
    ensures EarliestMaximum(fp, ms + [m], k, i)
  {}

  lemma MaximumMoves(fp: Fingerprint, ms: seq<Metric>, m: Metric, k: SeriesKey)
    requires SeriesOf(fp, m) == k
    requires forall j :: 0 <= j < |ms| && SeriesOf(fp, ms[j]) == k ==> ms[j].value < m.value
    ensures EarliestMaximum(fp, ms + [m], k, |ms|)
  {}

  /** The chosen sample is the earliest maximum. */
  lemma {:induction false} ChosenIsEarliestMaximum(fp: Fingerprint, ms: seq<Metric>, k: SeriesKey) returns (i: nat)
    requires Chosen(fp, ms, k).Some?
    ensures EarliestMaximum(fp, ms, k, i) && Chosen(fp, ms, k) == Some(ms[i])
  {
    var n := |ms| - 1;
    var init, m := ms[..n], ms[n];
    assert ms == init + [m];
    if Chosen(fp, init, k).Some? {
      i := ChosenIsEarliestMaximum(fp, init, k);
      if SeriesOf(fp, m) == k && m.value > init[i].value {
        MaximumMoves(fp, init, m, k);
        i := n;
      } else {
        MaximumStands(fp, init, m, k, i);
      }
    } else {
      ChosenNone(fp, init, k);
      MaximumMoves(fp, init, m, k);
      i := n;
    }
  }

  lemma ChosenIsHighest(fp: Fingerprint, ms: seq<Metric>, k: SeriesKey)
    requires Chosen(fp, ms, k).Some?
    ensures var c := Chosen(fp, ms, k).value;
      c in ms && SeriesOf(fp, c) == k && forall m :: m in ms && SeriesOf(fp, m) == k ==> m.value <= c.value
  {
    var i := ChosenIsEarliestMaximum(fp, ms, k);
    forall m | m in ms && SeriesOf(fp, m) == k
      ensures m.value <= ms[i].value
    {
      var j :| 0 <= j < |ms| && ms[j] == m;
    }
  }

  /** Position i of the result holds the chosen sample of the i-th series. */
  lemma DedupAt(fp: Fingerprint, ms: seq<Metric>, i: nat)
    requires i < |FirstSeen(fp, ms)|
    ensures Chosen(fp, ms, FirstSeen(fp, ms)[i]) == Some(Deduplicated(fp, ms)[i])
    ensures SeriesOf(fp, Deduplicated(fp, ms)[i]) == FirstSeen(fp, ms)[i]
  {
    FirstSeenIsSound(fp, ms);
    assert FirstSeen(fp, ms)[i] in FirstSeen(fp, ms);
    ChosenIsHighest(fp, ms, FirstSeen(fp, ms)[i]);
  }

  /** The result has no series twice. */
  lemma DedupIsDistinct(fp: Fingerprint, ms: seq<Metric>)
    ensures var r := Deduplicated(fp, ms);
      forall i, j :: 0 <= i < j < |r| ==> r[i].name != r[j].name || fp(r[i].labels) != fp(r[j].labels)
  {
    FirstSeenIsSound(fp, ms);
    forall i: nat | i < |FirstSeen(fp, ms)|
      ensures SeriesOf(fp, Deduplicated(fp, ms)[i]) == FirstSeen(fp, ms)[i]
    {
      DedupAt(fp, ms, i);
    }
  }

  /** Every sample's series comes out, with a sample of the input of the highest value. */
  lemma DedupCovers(fp: Fingerprint, ms: seq<Metric>, m: Metric)
    requires m in ms
    ensures exists x :: x in Deduplicated(fp, ms) && x in ms && x.name == m.name && fp(x.labels) == fp(m.labels) &&
                        m.value <= x.value
  {
    var k := SeriesOf(fp, m);
    var j :| 0 <= j < |ms| && ms[j] == m;
    ChosenNone(fp, ms, k);
    FirstSeenIsSound(fp, ms);
    assert k in FirstSeen(fp, ms);
    var i :| 0 <= i < |FirstSeen(fp, ms)| && FirstSeen(fp, ms)[i] == k;
    DedupAt(fp, ms, i);
    ChosenIsHighest(fp, ms, k);
    assert Deduplicated(fp, ms)[i] in Deduplicated(fp, ms);
  }

  lemma SeenIff(fp: Fingerprint, ms: seq<Metric>, k: SeriesKey)
    ensures k in FirstSeen(fp, ms) <==> exists p :: 0 <= p < |ms| && SeriesOf(fp, ms[p]) == k
  {
    FirstSeenIsSound(fp, ms);
    ChosenNone(fp, ms, k);
  }

  /** Before any sample of a series there is one of each series seen first. */
  lemma {:induction false} SeenInOrder(fp: Fingerprint, ms: seq<Metric>, i: nat, j: nat, q: nat)
    requires i < j < |FirstSeen(fp, ms)| && q < |ms| && SeriesOf(fp, ms[q]) == FirstSeen(fp, ms)[j]
    ensures exists p :: 0 <= p < q && SeriesOf(fp, ms[p]) == FirstSeen(fp, ms)[i]
    decreases |ms|
  {
    var n := |ms| - 1;
    var init, before, keys := ms[..n], FirstSeen(fp, ms[..n]), FirstSeen(fp, ms);
    assert before <= keys && before[i] == keys[i] && keys[i] in before;
    if j < |before| {
      var r := SampleOf(fp, init, keys[j], q);
      SeenInOrder(fp, init, i, j, r);
      var p :| 0 <= p < r && SeriesOf(fp, init[p]) == before[i];
      assert ms[p] == init[p];
    } else {
      SeenIff(fp, init, keys[i]);
      SeenIff(fp, init, keys[j]);
      var p :| 0 <= p < n && SeriesOf(fp, init[p]) == keys[i];
      assert ms[p] == init[p];
      assert forall r :: 0 <= r < n ==> init[r] == ms[r];
    }
  }

  /** A sample of a series that was seen, at q or before. */
  lemma SampleOf(fp: Fingerprint, ms: seq<Metric>, k: SeriesKey, q: nat) returns (r: nat)
    requires k in FirstSeen(fp, ms) && (q < |ms| ==> SeriesOf(fp, ms[q]) == k) && q <= |ms|
    ensures r <= q && r < |ms| && SeriesOf(fp, ms[r]) == k
  {
    if q < |ms| {
      r := q;
    } else {
      SeenIff(fp, ms, k);
      var p: nat :| p < |ms| && SeriesOf(fp, ms[p]) == k;
      r := p;
    }
  }

  /** The result follows the order of first samples: each sample of a later series of the
      result comes after some sample of an earlier one. */
  lemma DedupKeepsOrder(fp: Fingerprint, ms: seq<Metric>, i: nat, j: nat, q: nat)
    requires i < j < |Deduplicated(fp, ms)| && q < |ms|
    requires var x := Deduplicated(fp, ms)[j]; ms[q].name == x.name && fp(ms[q].labels) == fp(x.labels)
    ensures var x := Deduplicated(fp, ms)[i];
      exists p :: 0 <= p < q && ms[p].name == x.name && fp(ms[p].labels) == fp(x.labels)
  {
    DedupAt(fp, ms, i);
    DedupAt(fp, ms, j);
    SeenInOrder(fp, ms, i, j, q);
    var p :| 0 <= p < q && SeriesOf(fp, ms[p]) == FirstSeen(fp, ms)[i];
    assert ms[p].name == Deduplicated(fp, ms)[i].name;
  }

  /** A later sample with a lower value is the one that is dropped. */
  lemma NewerSampleMayLose(fp: Fingerprint)
    ensures var older, newer := Metric("up", map[], 2.0, 1), Metric("up", map[], 1.0, 2);
      Deduplicated(fp, [older, newer]) == [older]
  {
    var older, newer := Metric("up", map[], 2.0, 1), Metric("up", map[], 1.0, 2);
    NewSeries(fp, [], older);
    assert [] + [older] == [older] && [older] + [newer] == [older, newer];
    FirstSeenStep(fp, [], older);
    KnownSeries(fp, [older], newer, 0);
  }

  // ---------------------------------------------------------------------------
  // Stages and order

  lemma SameChoices(fp: Fingerprint, a: seq<Metric>, b: seq<Metric>)
    requires FirstSeen(fp, a) == FirstSeen(fp, b)
    requires forall k :: Chosen(fp, a, k) == Chosen(fp, b, k)
    ensures Deduplicated(fp, a) == Deduplicated(fp, b)
  {}

  /** A list without repeated series keeps every series in place. */
  lemma {:induction false} DistinctKeepsOrder(fp: Fingerprint, ms: seq<Metric>)
    requires forall i, j :: 0 <= i < j < |ms| ==> SeriesOf(fp, ms[i]) != SeriesOf(fp, ms[j])
    ensures |FirstSeen(fp, ms)| == |ms|
    ensures forall i :: 0 <= i < |ms| ==> FirstSeen(fp, ms)[i] == SeriesOf(fp, ms[i])
  {
    if ms != [] {
      var n := |ms| - 1;
      assert forall i :: 0 <= i < n ==> ms[..n][i] == ms[i];
      DistinctKeepsOrder(fp, ms[..n]);
      assert SeriesOf(fp, ms[n]) !in FirstSeen(fp, ms[..n]);
    }
  }

  lemma DedupKeepsSeries(fp: Fingerprint, a: seq<Metric>)
    ensures FirstSeen(fp, Deduplicated(fp, a)) == FirstSeen(fp, a)
  {
    var d := Deduplicated(fp, a);
    DedupIsDistinct(fp, a);
    DistinctKeepsOrder(fp, d);
    forall i: nat | i < |d|
      ensures FirstSeen(fp, d)[i] == FirstSeen(fp, a)[i]
    {
      DedupAt(fp, a, i);
    }
  }

  lemma DedupKeepsChoices(fp: Fingerprint, a: seq<Metric>, k: SeriesKey)
    ensures Chosen(fp, Deduplicated(fp, a), k) == Chosen(fp, a, k)
  {
    var d := Deduplicated(fp, a);
    DedupKeepsSeries(fp, a);
    FirstSeenIsSound(fp, a);
    FirstSeenIsSound(fp, d);
    assert k in FirstSeen(fp, a) <==> k in FirstSeen(fp, d);
    if k in FirstSeen(fp, a) {
      ChosenIsHighest(fp, d, k);
      var i: nat :| i < |d| && d[i] == Chosen(fp, d, k).value;
      DedupAt(fp, a, i);
    }
  }

  /** Deduplicating part of the samples first makes no difference. */
  lemma {:induction false} DedupInStages(fp: Fingerprint, a: seq<Metric>, b: seq<Metric>)
    ensures Deduplicated(fp, Deduplicated(fp, a) + b) == Deduplicated(fp, a + b)
  {
    StagesAgree(fp, a, b);
    SameChoices(fp, Deduplicated(fp, a) + b, a + b);
  }

  lemma {:induction false} StagesAgree(fp: Fingerprint, a: seq<Metric>, b: seq<Metric>)
    ensures FirstSeen(fp, Deduplicated(fp, a) + b) == FirstSeen(fp, a + b)
    ensures forall k :: Chosen(fp, Deduplicated(fp, a) + b, k) == Chosen(fp, a + b, k)
    decreases |b|
  {
    var d := Deduplicated(fp, a);
    if b == [] {
      assert d + b == d && a + b == a;
      DedupKeepsSeries(fp, a);
      forall k
        ensures Chosen(fp, d, k) == Chosen(fp, a, k)
      {
        DedupKeepsChoices(fp, a, k);
      }
    } else {
      var init, m := b[..|b| - 1], b[|b| - 1];
      StagesAgree(fp, a, init);
      assert d + b == (d + init) + [m] && a + b == (a + init) + [m];
      FirstSeenStep(fp, d + init, m);
      FirstSeenStep(fp, a + init, m);
      forall k
        ensures Chosen(fp, d + b, k) == Chosen(fp, a + b, k)
      {
        ChosenStep(fp, d + init, m, k);
        ChosenStep(fp, a + init, m, k);
      }
    }
  }

  /** The order in which the targets answer does not change which series come out, nor
      the value of any of them. */
  lemma DedupIgnoresOrder(fp: Fingerprint, a: seq<Metric>, b: seq<Metric>, k: SeriesKey)
    requires multiset(a) == multiset(b)
    ensures Chosen(fp, a, k).Some? == Chosen(fp, b, k).Some?
    ensures Chosen(fp, a, k).Some? ==> Chosen(fp, a, k).value.value == Chosen(fp, b, k).value.value
  {
    SameMembers(a, b);
    HasChosen(fp, a, b, k);
    HasChosen(fp, b, a, k);
  }

  lemma HasChosen(fp: Fingerprint, a: seq<Metric>, b: seq<Metric>, k: SeriesKey)
    requires forall m :: m in a ==> m in b
    ensures Chosen(fp, a, k).Some? ==>
      Chosen(fp, b, k).Some? && Chosen(fp, a, k).value.value <= Chosen(fp, b, k).value.value
  {
    if Chosen(fp, a, k).Some? {
      ChosenIsHighest(fp, a, k);
      var m := Chosen(fp, a, k).value;
      var j :| 0 <= j < |b| && b[j] == m;
      ChosenNone(fp, b, k);
      ChosenIsHighest(fp, b, k);
    }
  }

  lemma SameMembers(a: seq<Metric>, b: seq<Metric>)
    requires multiset(a) == multiset(b)
    ensures forall m :: m in a <==> m in b
  {
    forall m
      ensures m in a <==> m in b
    {
      assert m in a <==> m in multiset(a);
      assert m in b <==> m in multiset(b);
    }
  }
}
