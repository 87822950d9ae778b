/** Turning metrics into the time series of a write request. */
module Series {
  import opened MetricApi
  import opened Batches

  datatype Label = Label(name: string, value: string)

  /** One series with its single sample; the timestamp is in milliseconds. */
  datatype TimeSeries = TimeSeries(labels: seq<Label>, value: real, timestamp: int)

  /** Integer division as Go does it: toward zero. */
  function Quotient(n: int, d: int): int
    requires d > 0
  {
    if n >= 0 then n / d else -(-n / d)
  }

  function Millis(nanos: int): int {
    Quotient(nanos, 1_000_000)
  }

  /** Milliseconds of nanoseconds, cut off toward zero. */
  lemma MillisAre(nanos: int)
    ensures nanos >= 0 ==> 0 <= nanos - 1_000_000 * Millis(nanos) < 1_000_000
    ensures nanos <= 0 ==> 0 <= 1_000_000 * Millis(nanos) - nanos < 1_000_000
    ensures nanos >= 0 ==> Millis(nanos) >= 0
    ensures nanos <= 0 ==> Millis(nanos) <= 0
  {}

  /** The labels of a metric with the extra labels put over them, unless labels of the
      metric are to be honored. */
  function Merged(labels: Labels, extra: Labels, honor: bool): (m: Labels)
    ensures m.Keys == labels.Keys + extra.Keys
    ensures forall k :: k in extra && !(honor && k in labels) ==> m[k] == extra[k]
    ensures forall k :: k in labels && (honor || k !in extra) ==> m[k] == labels[k]
  {
    if honor then extra + labels else labels + extra
  }

  /** ls lists the entries of m, each once, in some order. */
  ghost predicate Lists(ls: seq<Label>, m: Labels) {
    && |ls| == |m|
    && (forall i, j :: 0 <= i < j < |ls| ==> ls[i].name != ls[j].name)
    && (forall i :: 0 <= i < |ls| ==> ls[i].name in m && m[ls[i].name] == ls[i].value)
  }

  /** ts is the series of m: its name first, then the merged labels in any order. */
  ghost predicate IsSeriesOf(ts: TimeSeries, m: Metric, extra: Labels, honor: bool) {
    && ts.labels != []
    && ts.labels[0] == Label("__name__", m.name)
    && Lists(ts.labels[1..], Merged(m.labels, extra, honor))
    && ts.value == m.value
    && ts.timestamp == Millis(m.timestamp)
  }

  ghost predicate AreSeriesOf(tss: seq<TimeSeries>, ms: seq<Metric>, extra: Labels, honor: bool) {
    |tss| == |ms| && forall i :: 0 <= i < |tss| ==> IsSeriesOf(tss[i], ms[i], extra, honor)
  }

  /** Extra labels one at a time. */
  lemma MergeStep(labels: Labels, extra: Labels, honor: bool, name: string, value: string)
    requires name !in extra
    ensures Merged(labels, extra[name := value], honor) ==
      if name in labels && honor then Merged(labels, extra, honor)
      else Merged(labels, extra, honor)[name := value]
  {}

  /** Puts the extra labels over a metric's labels, in any order. */
  method MergeLabels(labels: Labels, extra: Labels, honor: bool) returns (labelMap: Labels)
    ensures labelMap == Merged(labels, extra, honor)
  {
    labelMap := labels;
    var pending := extra.Keys;
    ghost var done: Labels := map[];
    while pending != {}
      invariant pending <= extra.Keys
      invariant done == extra - pending
      invariant labelMap == Merged(labels, done, honor)
      decreases |pending|
    {
      var name :| name in pending;
      MergeStep(labels, done, honor, name, extra[name]);
      pending, done := pending - {name}, done[name := extra[name]];
      if name in labelMap && honor {
        continue;
      }
      labelMap := labelMap[name := extra[name]];
    }
    assert done == extra;
  }

  /** Lists the entries of a label map, in any order. */
  method ListLabels(m: Labels) returns (ls: seq<Label>)
    ensures Lists(ls, m)
  {
    ls := [];
    var pending := m.Keys;
    while pending != {}
      invariant pending <= m.Keys
      invariant |ls| + |pending| == |m|
      invariant forall i :: 0 <= i < |ls| ==> ls[i].name in m.Keys - pending && m[ls[i].name] == ls[i].value
      invariant forall i, j :: 0 <= i < j < |ls| ==> ls[i].name != ls[j].name
      decreases |pending|
    {
      var name :| name in pending;
      pending := pending - {name};
      ls := ls + [Label(name, m[name])];
    }
  }

  lemma IsSeries(ts: TimeSeries, m: Metric, extra: Labels, honor: bool, rest: seq<Label>)
    requires Lists(rest, Merged(m.labels, extra, honor))
    requires ts == TimeSeries([Label("__name__", m.name)] + rest, m.value, Millis(m.timestamp))
    ensures IsSeriesOf(ts, m, extra, honor)
  {}

  lemma AreSeriesSnoc(tss: seq<TimeSeries>, ms: seq<Metric>, ts: TimeSeries, m: Metric, extra: Labels, honor: bool)
    requires AreSeriesOf(tss, ms, extra, honor) && IsSeriesOf(ts, m, extra, honor)
    ensures AreSeriesOf(tss + [ts], ms + [m], extra, honor)
  {}

  method BuildOne(m: Metric, extra: Labels, honor: bool) returns (ts: TimeSeries)
    ensures IsSeriesOf(ts, m, extra, honor)
  {
    var labelMap := MergeLabels(m.labels, extra, honor);
    var rest := ListLabels(labelMap);
    ts := TimeSeries([Label("__name__", m.name)] + rest, m.value, Millis(m.timestamp));
    IsSeries(ts, m, extra, honor, rest);
  }

  method BuildTimeseries(metrics: seq<Metric>, extra: Labels, honor: bool) returns (timeseries: seq<TimeSeries>)
    ensures AreSeriesOf(timeseries, metrics, extra, honor)
  {
    timeseries := [];
    for n := 0 to |metrics|
      invariant AreSeriesOf(timeseries, metrics[..n], extra, honor)
    {
      var ts := BuildOne(metrics[n], extra, honor);
      AreSeriesSnoc(timeseries, metrics[..n], ts, metrics[n], extra, honor);
      OneMore(metrics, n);
      timeseries := timeseries + [ts];
    }
    assert metrics[..|metrics|] == metrics;
  }

  // ---------------------------------------------------------------------------
  // Label order

  /** The same series up to the order of the labels. */
  ghost predicate SameSeries(a: TimeSeries, b: TimeSeries) {
    multiset(a.labels) == multiset(b.labels) && a.value == b.value && a.timestamp == b.timestamp
  }

  lemma {:induction false} ListsOnce(ls: seq<Label>, m: Labels, l: Label)
    requires Lists(ls, m)
    ensures multiset(ls)[l] == if l.name in m && m[l.name] == l.value then 1 else 0
    decreases |ls|
  {
    if ls != [] {
      var n := |ls| - 1;
      var init := ls[..n];
      assert ls == init + [ls[n]];
      assert Lists(init, m - {ls[n].name}) by {
        assert (m - {ls[n].name}).Keys == m.Keys - {ls[n].name};
      }
      ListsOnce(init, m - {ls[n].name}, l);
    } else {
      assert m.Keys == {};
    }
  }

  /** Two series of one metric differ at most in the order of the labels. */
  lemma SeriesIsUnique(a: TimeSeries, b: TimeSeries, m: Metric, extra: Labels, honor: bool)
    requires IsSeriesOf(a, m, extra, honor) && IsSeriesOf(b, m, extra, honor)
    ensures SameSeries(a, b)
  {
    var merged := Merged(m.labels, extra, honor);
    forall l: Label
      ensures multiset(a.labels[1..])[l] == multiset(b.labels[1..])[l]
    {
      ListsOnce(a.labels[1..], merged, l);
      ListsOnce(b.labels[1..], merged, l);
    }
    HeadAndRest(a.labels);
    HeadAndRest(b.labels);
  }

  /** The value that a series has for a label: that of the extra label, unless the metric has
      the label and labels are honored; else that of the metric. */
  predicate Carried(m: Metric, extra: Labels, honor: bool, l: Label) {
    if l.name in extra && !(honor && l.name in m.labels) then extra[l.name] == l.value
    else l.name in m.labels && m.labels[l.name] == l.value
  }

  /** What a series consists of: the name in front, each carried label once and nothing else
      behind it, the value, and the milliseconds of the timestamp. */
  lemma SeriesCarries(ts: TimeSeries, m: Metric, extra: Labels, honor: bool, l: Label)
    requires IsSeriesOf(ts, m, extra, honor)
    ensures ts.labels != [] && ts.labels[0] == Label("__name__", m.name)
    ensures multiset(ts.labels[1..])[l] == if Carried(m, extra, honor, l) then 1 else 0
    ensures ts.value == m.value
    ensures m.timestamp >= 0 ==> 0 <= m.timestamp - 1_000_000 * ts.timestamp < 1_000_000
    ensures m.timestamp <= 0 ==> 0 <= 1_000_000 * ts.timestamp - m.timestamp < 1_000_000
  {
    ListsOnce(ts.labels[1..], Merged(m.labels, extra, honor), l);
    MillisAre(m.timestamp);
  }

  lemma HeadAndRest<T>(xs: seq<T>)
    requires xs != []
    ensures multiset(xs) == multiset{xs[0]} + multiset(xs[1..])
  {
    assert xs == [xs[0]] + xs[1..];
  }

  predicate NoRepeats(ls: seq<Label>) {
    forall i, j :: 0 <= i < j < |ls| ==> ls[i].name != ls[j].name
  }

  lemma NoRepeatsCons(l: Label, rest: seq<Label>)
    requires NoRepeats(rest)
    ensures NoRepeats([l] + rest) <==> forall i :: 0 <= i < |rest| ==> rest[i].name != l.name
  {
    var ls := [l] + rest;
    assert forall i :: 0 <= i < |rest| ==> ls[i + 1] == rest[i];
    assert forall i :: 0 < i < |ls| ==> ls[i] == rest[i - 1];
    assert ls[0] == l;
  }

  /** No label name is repeated in a series iff neither the metric nor the extra labels
      contain one called __name__. */
  lemma NoRepeatedNamesIff(ts: TimeSeries, m: Metric, extra: Labels, honor: bool)
    requires IsSeriesOf(ts, m, extra, honor)
    ensures NoRepeats(ts.labels) <==> "__name__" !in m.labels && "__name__" !in extra
  {
    var merged := Merged(m.labels, extra, honor);
    var rest := ts.labels[1..];
    assert ts.labels == [ts.labels[0]] + rest;
    NoRepeatsCons(ts.labels[0], rest);
    if "__name__" in merged {
      var i := ListedAt(rest, merged, "__name__");
    }
  }

  lemma ListedAt(ls: seq<Label>, m: Labels, name: string) returns (i: nat)
    requires Lists(ls, m) && name in m
    ensures i < |ls| && ls[i].name == name
  {
    var l := Label(name, m[name]);
    ListsOnce(ls, m, l);
    assert l in ls;
    i :| i < |ls| && ls[i] == l;
  }

  /** Batch payloads, put together, are the series of the whole list. */
  lemma {:induction false} PayloadsConcatenate(payloads: seq<seq<TimeSeries>>, parts: seq<seq<Metric>>,
                                               extra: Labels, honor: bool)
    requires |payloads| == |parts|
    requires forall i :: 0 <= i < |parts| ==> AreSeriesOf(payloads[i], parts[i], extra, honor)
    ensures AreSeriesOf(Flatten(payloads), Flatten(parts), extra, honor)
    decreases |parts|
  {
    if parts != [] {
      PayloadsConcatenate(payloads[1..], parts[1..], extra, honor);
      var p, q := payloads[0], Flatten(payloads[1..]);
      var a, b := parts[0], Flatten(parts[1..]);
      forall i | 0 <= i < |p + q|
        ensures IsSeriesOf((p + q)[i], (a + b)[i], extra, honor)
      {
        assert AreSeriesOf(p, a, extra, honor) && AreSeriesOf(q, b, extra, honor);
      }
    }
  }
}
