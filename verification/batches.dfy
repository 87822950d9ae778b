/** Splitting a collection into batches, and putting batches back together. */
module Batches {
  import opened MetricApi
  import opened Arithmetic
  import opened Relabel

  /** The batches of a list: all of it if it fits or the size is not positive. */
  function Split<T>(xs: seq<T>, size: int): seq<seq<T>>
    decreases |xs|
  {
    if size <= 0 || |xs| <= size then [xs]
    else [xs[..size]] + Split(xs[size..], size)
  }

  function Flatten<T>(parts: seq<seq<T>>): seq<T> {
    if parts == [] then [] else parts[0] + Flatten(parts[1..])
  }

  lemma SplitSnoc<T>(xs: seq<T>, size: int, i: nat)
    requires 0 < size && i < |xs|
    ensures Split(xs[i..], size) ==
      if |xs| <= i + size then [xs[i..]] else [xs[i..i + size]] + Split(xs[i + size..], size)
  {
    var rest := xs[i..];
    if size < |rest| {
      assert rest[..size] == xs[i..i + size];
      assert rest[size..] == xs[i + size..];
    }
  }

  method SplitIntoBatches<T>(metrics: seq<T>, batchSize: int) returns (batches: seq<seq<T>>)
    ensures batches == Split(metrics, batchSize)
  {
    if batchSize <= 0 || |metrics| <= batchSize {
      return [metrics];
    }
    batches := [];
    var i := 0;
    ghost var rest := Split(metrics, batchSize);
    assert metrics[0..] == metrics;
    while i < |metrics|
      invariant 0 <= i
      invariant rest == if i < |metrics| then Split(metrics[i..], batchSize) else []
      invariant Split(metrics, batchSize) == batches + rest
    {
      var end := i + batchSize;
      if end > |metrics| {
        end := |metrics|;
      }
      SplitSnoc(metrics, batchSize, i);
      assert metrics[i..|metrics|] == metrics[i..];
      assert rest == [metrics[i..end]] + rest[1..];
      batches, rest := batches + [metrics[i..end]], rest[1..];
      i := i + batchSize;
    }
  }

  /** Batches concatenate to the list. */
  lemma {:induction false} SplitFlattens<T>(xs: seq<T>, size: int)
    ensures Flatten(Split(xs, size)) == xs
    decreases |xs|
  {
    if size <= 0 || |xs| <= size {
      assert Flatten([xs]) == xs + Flatten<T>([]);
    } else {
      SplitFlattens(xs[size..], size);
      assert Split(xs, size)[1..] == Split(xs[size..], size);
    }
  }

  /** A list that fits, or any list if the size is not positive, is one batch. */
  lemma OneBatch<T>(xs: seq<T>, size: int)
    ensures size <= 0 || |xs| <= size ==> Split(xs, size) == [xs]
    ensures 0 < size < |xs| ==> Split(xs, size) == [xs[..size]] + Split(xs[size..], size)
  {}

  /** There are as many batches as the size requires, none empty; all are full but the last. */
  lemma {:induction false} BatchArithmetic<T>(xs: seq<T>, size: int)
    requires 0 < size && xs != []
    ensures var b := Split(xs, size);
      && |b| == (|xs| + size - 1) / size
      && (forall i :: 0 <= i < |b| - 1 ==> |b[i]| == size)
      && 0 < |b[|b| - 1]| <= size
    decreases |xs|
  {
    if |xs| <= size {
      DivMod(|xs| + size - 1, size, 1, |xs| - 1);
    } else {
      BatchArithmetic(xs[size..], size);
      var q, r := (|xs| - 1) / size, (|xs| - 1) % size;
      assert |xs| - 1 == q * size + r && (q + 1) * size == q * size + size;
      DivMod(|xs| + size - 1, size, q + 1, r);
    }
  }

  function RelabelBatches(re: Engine, batches: seq<seq<Metric>>, rules: seq<RelabelRule>): (r: seq<seq<Metric>>)
    ensures |r| == |batches|
  {
    seq(|batches|, i requires 0 <= i < |batches| => Relabeled(re, batches[i], rules))
  }

  /** Relabeling batch by batch is relabeling the whole list. */
  lemma {:induction false} BatchwiseRelabeling(re: Engine, batches: seq<seq<Metric>>, rules: seq<RelabelRule>)
    ensures Flatten(RelabelBatches(re, batches, rules)) == Relabeled(re, Flatten(batches), rules)
    decreases |batches|
  {
    if batches == [] {
    } else {
      BatchwiseRelabeling(re, batches[1..], rules);
      assert RelabelBatches(re, batches, rules)[1..] == RelabelBatches(re, batches[1..], rules);
      RelabelDistributes(re, batches[0], Flatten(batches[1..]), rules);
    }
  }
}
