/** What History reads off a log, said by positions: which entry decides each answer. */
module HistoryLaws {
  import opened MetricApi
  import opened JobHealth
  import opened ControllerSteps
  import opened History
  import opened ControllerInvariant
  import opened ControllerSafety

  /** Struct id was created at position c of a log of a run. */
  ghost predicate MadeAt(cfg: Config, start: Time, log: Log, id: nat, c: nat) {
    LogJustified(cfg, start, log) && c < |log| && log[c].Created? && log[c].id == id
  }

  /** The creation at c was part of a recreate. */
  predicate ByRecreate(log: Log, id: nat, c: nat) {
    c + 1 < |log| && RecreateOf(log[c + 1], id)
  }

  predicate RecreateOf(e: Entry, id: nat) {
    e.Recreated? && e.id == id
  }

  predicate CreationOf(e: Entry, id: nat) {
    e.Created? && e.id == id
  }

  predicate CleanCycleOf(e: Entry, id: nat) {
    e.CycleEnded? && e.id == id && e.outcome.Clean()
  }

  predicate ChecksTargets(e: Entry, id: nat) {
    e == SawTargets(id) || (e.CycleEnded? && e.id == id && e.outcome.NoTargets?)
  }

  lemma CreatedJustOnce(cfg: Config, start: Time, log: Log, id: nat, c: nat, n: nat)
    requires MadeAt(cfg, start, log, id, c) && c < n < |log|
    ensures !CreationOf(log[n], id)
  {
    JustifiedAt(cfg, start, log, n);
    assert log[..n][c] == log[c];
  }

  /** A struct is created once, and only the next entry can be the recreate that made it. */
  lemma MadeOnce(cfg: Config, start: Time, log: Log, id: nat, c: nat, n: nat)
    requires MadeAt(cfg, start, log, id, c) && c < n < |log|
    ensures !CreationOf(log[n], id)
    ensures RecreateOf(log[n], id) ==> n == c + 1
  {
    CreatedJustOnce(cfg, start, log, id, c, n);
    JustifiedAt(cfg, start, log, n);
    assert log[..n][n - 1] == log[n - 1];
    if c < n - 1 {
      CreatedJustOnce(cfg, start, log, id, c, n - 1);
    }
  }

  // ---------------------------------------------------------------------------
  // The latest target check

  lemma {:induction false} CheckStays(log: Log, id: nat, p: nat, n: nat)
    requires p < n <= |log|
    requires forall q :: p < q < n ==>
      !CreationOf(log[q], id) && !RecreateOf(log[q], id) && !ChecksTargets(log[q], id)
    ensures LastCheck(log[..n], id) == LastCheck(log[..p + 1], id)
  {
    if p + 1 < n {
      CheckStays(log, id, p, n - 1);
      assert Past(log[..n]) == log[..n - 1];
    }
  }

  /** The last check of a struct decides; before its first one, it has that of the struct
      it replaced, if any. */
  lemma LastCheckIs(cfg: Config, start: Time, log: Log, id: nat, c: nat, p: nat)
    requires MadeAt(cfg, start, log, id, c) && c <= p < |log|
    requires forall q :: p < q < |log| ==> !ChecksTargets(log[q], id)
    ensures ChecksTargets(log[p], id) ==> LastCheck(log, id) == Some(log[p].SawTargets?)
    ensures RecreateOf(log[p], id) ==> LastCheck(log, id) == LastCheck(log[..p], log[p].previous)
    ensures p == c && !ByRecreate(log, id, c) ==> LastCheck(log, id) == None
  {
    if ChecksTargets(log[p], id) || RecreateOf(log[p], id) || (p == c && !ByRecreate(log, id, c)) {
      forall q | p < q < |log|
        ensures !CreationOf(log[q], id) && !RecreateOf(log[q], id)
      {
        MadeOnce(cfg, start, log, id, c, q);
      }
      CheckStays(log, id, p, |log|);
      assert log[..|log|] == log && Past(log[..p + 1]) == log[..p];
    }
  }

  // ---------------------------------------------------------------------------
  // The start of the stall

  lemma {:induction false} StallStays(log: Log, id: nat, p: nat, n: nat)
    requires p < n <= |log|
    requires forall q :: p < q < n ==>
      !CreationOf(log[q], id) && !RecreateOf(log[q], id) && !CleanCycleOf(log[q], id) &&
      !(log[q].SeenStalled? && log[q].id == id)
    ensures StallStart(log[..n], id) == StallStart(log[..p + 1], id)
  {
    if p + 1 < n {
      StallStays(log, id, p, n - 1);
      assert Past(log[..n]) == log[..n - 1];
    }
  }

  /** A stall starts when a sweep first sees it and ends with any clean cycle; a new struct
      has that of the struct it replaced, if any. */
  lemma StallStartIs(cfg: Config, start: Time, log: Log, id: nat, c: nat, p: nat)
    requires MadeAt(cfg, start, log, id, c) && c <= p < |log|
    requires forall q :: p < q < |log| ==> !CleanCycleOf(log[q], id) && !(log[q].SeenStalled? && log[q].id == id)
    ensures log[p].SeenStalled? && log[p].id == id ==> StallStart(log, id) == log[p].at
    ensures CleanCycleOf(log[p], id) ==> StallStart(log, id) == 0
    ensures RecreateOf(log[p], id) ==> StallStart(log, id) == StallStart(log[..p], log[p].previous)
    ensures p == c && !ByRecreate(log, id, c) ==> StallStart(log, id) == 0
  {
    if p > c || !ByRecreate(log, id, c) {
      forall q | p < q < |log|
        ensures !CreationOf(log[q], id) && !RecreateOf(log[q], id)
      {
        MadeOnce(cfg, start, log, id, c, q);
      }
      StallStays(log, id, p, |log|);
      assert log[..|log|] == log && Past(log[..p + 1]) == log[..p];
    }
  }

  // ---------------------------------------------------------------------------
  // The stall baseline and the depth

  lemma {:induction false} BaselineStays(log: Log, id: nat, p: nat, n: nat)
    requires p < n <= |log|
    requires forall q :: p < q < n ==> !CreationOf(log[q], id)
    ensures Birth(log[..n], id) == Birth(log[..p + 1], id)
    ensures (forall q :: p < q < n ==> !CleanCycleOf(log[q], id)) ==>
      LastCleanAt(log[..n], id) == LastCleanAt(log[..p + 1], id)
  {
    if p + 1 < n {
      BaselineStays(log, id, p, n - 1);
      assert Past(log[..n]) == log[..n - 1];
    }
  }

  /** The latest clean cycle of the struct itself counts; a recreate starts anew. */
  lemma BaselineIs(cfg: Config, start: Time, log: Log, id: nat, c: nat, p: nat)
    requires MadeAt(cfg, start, log, id, c) && c <= p < |log|
    requires forall q :: p < q < |log| ==> !CleanCycleOf(log[q], id)
    ensures Birth(log, id) == log[c].at
    ensures CleanCycleOf(log[p], id) ==> LastCleanAt(log, id) == log[p].at
    ensures p == c ==> LastCleanAt(log, id) == 0
  {
    forall q | c < q < |log|
      ensures !CreationOf(log[q], id)
    {
      MadeOnce(cfg, start, log, id, c, q);
    }
    BaselineStays(log, id, p, |log|);
    BaselineStays(log, id, c, |log|);
    assert log[..|log|] == log && Past(log[..p + 1]) == log[..p];
    assert Past(log[..c + 1]) == log[..c];
  }

  lemma {:induction false} DepthStays(log: Log, id: nat, p: nat, n: nat)
    requires p < n <= |log|
    requires forall q :: p < q < n ==> !CreationOf(log[q], id) && !RecreateOf(log[q], id)
    ensures Depth(log[..n], id) == Depth(log[..p + 1], id)
    ensures Origin(log[..n], id) == Origin(log[..p + 1], id)
  {
    if p + 1 < n {
      DepthStays(log, id, p, n - 1);
      assert Past(log[..n]) == log[..n - 1];
    }
  }

  /** A struct made by a recreate is one deeper than the struct it replaced and has the
      same origin; any other struct is its own origin. Neither ever changes. */
  lemma DepthIs(cfg: Config, start: Time, log: Log, id: nat, c: nat)
    requires MadeAt(cfg, start, log, id, c)
    ensures if ByRecreate(log, id, c) then
        var past, previous := log[..c + 1], log[c + 1].previous;
        Depth(log, id) == Depth(past, previous) + 1 && Origin(log, id) == Origin(past, previous)
      else
        Depth(log, id) == 0 && Origin(log, id) == log[c].at
  {
    var p := if ByRecreate(log, id, c) then c + 1 else c;
    forall q | p < q < |log|
      ensures !CreationOf(log[q], id) && !RecreateOf(log[q], id)
    {
      MadeOnce(cfg, start, log, id, c, q);
    }
    DepthStays(log, id, p, |log|);
    assert log[..|log|] == log && Past(log[..p + 1]) == log[..p];
  }

  // ---------------------------------------------------------------------------
  // The cycles of a struct

  predicate CycleOf(e: Entry, id: nat) {
    e.CycleEnded? && e.id == id
  }

  /** The positions after c of the cycles of struct id. */
  function CyclesIn(log: Log, id: nat, c: nat, n: nat): set<int>
    requires n <= |log|
  {
    set p | c < p < n && CycleOf(log[p], id)
  }

  /** at are the rising positions, after c, of cycles of struct id: as many as there are. */
  ghost predicate ListsCycles(log: Log, id: nat, c: nat, n: nat, at: seq<nat>, cycles: seq<Outcome>) {
    && n <= |log| && |at| == |cycles| == |CyclesIn(log, id, c, n)|
    && (forall i, j :: 0 <= i < j < |at| ==> at[i] < at[j])
    && (forall i :: 0 <= i < |at| ==> c < at[i] < n && CycleOf(log[at[i]], id) && log[at[i]].outcome == cycles[i])
  }

  lemma CyclesInSnoc(log: Log, id: nat, c: nat, n: nat)
    requires c < n < |log|
    ensures |CyclesIn(log, id, c, n + 1)| == |CyclesIn(log, id, c, n)| + if CycleOf(log[n], id) then 1 else 0
  {
    assert CyclesIn(log, id, c, n + 1) == CyclesIn(log, id, c, n) + if CycleOf(log[n], id) then {n} else {};
  }

  lemma OneCycleMore(log: Log, id: nat, c: nat, n: nat, at: seq<nat>, cycles: seq<Outcome>)
    requires ListsCycles(log, id, c, n, at, cycles) && c < n < |log| && CycleOf(log[n], id)
    ensures ListsCycles(log, id, c, n + 1, at + [n], cycles + [log[n].outcome])
  {
    CyclesInSnoc(log, id, c, n);
  }

  lemma NoCycleMore(log: Log, id: nat, c: nat, n: nat, at: seq<nat>, cycles: seq<Outcome>)
    requires ListsCycles(log, id, c, n, at, cycles) && c < n < |log| && !CycleOf(log[n], id)
    ensures ListsCycles(log, id, c, n + 1, at, cycles)
  {
    CyclesInSnoc(log, id, c, n);
  }

  lemma CyclesUnfold(log: Log, id: nat, n: nat)
    requires n < |log| && !CreationOf(log[n], id)
    ensures Cycles(log[..n + 1], id) == Cycles(log[..n], id) + if CycleOf(log[n], id) then [log[n].outcome] else []
  {
    assert Past(log[..n + 1]) == log[..n] && Last(log[..n + 1]) == log[n];
  }

  lemma NoCycleYet(log: Log, id: nat, c: nat)
    requires c < |log| && CreationOf(log[c], id)
    ensures ListsCycles(log, id, c, c + 1, [], Cycles(log[..c + 1], id))
  {
    assert Past(log[..c + 1]) == log[..c] && Last(log[..c + 1]) == log[c];
    assert CyclesIn(log, id, c, c + 1) == {};
  }

  lemma CyclesStep(log: Log, id: nat, c: nat, n: nat, at: seq<nat>) returns (at': seq<nat>)
    requires c < n < |log| && !CreationOf(log[n], id) && ListsCycles(log, id, c, n, at, Cycles(log[..n], id))
    ensures ListsCycles(log, id, c, n + 1, at', Cycles(log[..n + 1], id))
  {
    CyclesUnfold(log, id, n);
    if CycleOf(log[n], id) {
      OneCycleMore(log, id, c, n, at, Cycles(log[..n], id));
      at' := at + [n];
    } else {
      NoCycleMore(log, id, c, n, at, Cycles(log[..n], id));
      at' := at;
      assert Cycles(log[..n + 1], id) == Cycles(log[..n], id);
    }
  }

  lemma {:induction false} CyclesSince(log: Log, id: nat, c: nat, n: nat) returns (at: seq<nat>)
    requires c < n <= |log| && CreationOf(log[c], id)
    requires forall q :: c < q < n ==> !CreationOf(log[q], id)
    ensures ListsCycles(log, id, c, n, at, Cycles(log[..n], id))
    decreases n
  {
    if n == c + 1 {
      NoCycleYet(log, id, c);
      at := [];
    } else {
      at := CyclesSince(log, id, c, n - 1);
      at := CyclesStep(log, id, c, n - 1, at);
    }
  }

  lemma {:induction false} FailuresSince(log: Log, id: nat, c: nat, n: nat)
    requires c < n <= |log| && CreationOf(log[c], id)
    requires forall q :: c < q < n ==> !CreationOf(log[q], id)
    ensures TargetFailures(log[..n], id) == |FailuresIn(log, id, c, n)|
    decreases n
  {
    assert Past(log[..n]) == log[..n - 1] && Last(log[..n]) == log[n - 1];
    if n == c + 1 {
      assert FailuresIn(log, id, c, n) == {};
    } else {
      FailuresSince(log, id, c, n - 1);
      FailuresSnoc(log, id, c, n - 1);
    }
  }

  /** The failed target queries of struct id. */
  function FailuresIn(log: Log, id: nat, c: nat, n: nat): set<int>
    requires n <= |log|
  {
    set p | c < p < n && log[p] == TargetFailed(id)
  }

  lemma FailuresSnoc(log: Log, id: nat, c: nat, n: nat)
    requires c < n < |log|
    ensures |FailuresIn(log, id, c, n + 1)| == |FailuresIn(log, id, c, n)| + if log[n] == TargetFailed(id) then 1 else 0
  {
    assert FailuresIn(log, id, c, n + 1) ==
      FailuresIn(log, id, c, n) + if log[n] == TargetFailed(id) then {n} else {};
  }

  /** The cycle history of a struct is the sequence of outcomes of its cycles since it was
      created, and its target failures are the failed queries since then. */
  lemma CyclesAre(cfg: Config, start: Time, log: Log, id: nat, c: nat) returns (at: seq<nat>)
    requires MadeAt(cfg, start, log, id, c)
    ensures ListsCycles(log, id, c, |log|, at, Cycles(log, id))
    ensures TargetFailures(log, id) == |set p | c < p < |log| && log[p] == TargetFailed(id)|
  {
    forall q | c < q < |log|
      ensures !CreationOf(log[q], id)
    {
      MadeOnce(cfg, start, log, id, c, q);
    }
    at := CyclesSince(log, id, c, |log|);
    FailuresSince(log, id, c, |log|);
    assert log[..|log|] == log;
    assert FailuresIn(log, id, c, |log|) == set p | c < p < |log| && log[p] == TargetFailed(id);
  }

  // ---------------------------------------------------------------------------
  // The summaries of a cycle history

  /** The successes of a history. */
  function SuccessesIn(cycles: seq<Outcome>): set<int> {
    set i | 0 <= i < |cycles| && cycles[i].Success?
  }

  function SendFailuresIn(cycles: seq<Outcome>): set<int> {
    set i | 0 <= i < |cycles| && cycles[i].SendFailed?
  }

  lemma {:induction false} SuccessesAre(cycles: seq<Outcome>)
    ensures Successes(cycles) == |SuccessesIn(cycles)|
  {
    if cycles != [] {
      var n := |cycles| - 1;
      SuccessesAre(cycles[..n]);
      assert SuccessesIn(cycles) == SuccessesIn(cycles[..n]) + if cycles[n].Success? then {n} else {};
    }
  }

  lemma {:induction false} SendFailuresAre(cycles: seq<Outcome>)
    ensures SendFailures(cycles) == |SendFailuresIn(cycles)|
  {
    if cycles != [] {
      var n := |cycles| - 1;
      SendFailuresAre(cycles[..n]);
      assert SendFailuresIn(cycles) == SendFailuresIn(cycles[..n]) + if cycles[n].SendFailed? then {n} else {};
    }
  }

  /** Position i has the last success. */
  predicate LastSuccessAt(cycles: seq<Outcome>, i: int) {
    0 <= i < |cycles| && cycles[i].Success? && forall j :: i < j < |cycles| ==> !cycles[j].Success?
  }

  /** The unsuccessful cycles since the last success, or since the beginning. */
  lemma {:induction false} EmptySuffixIs(cycles: seq<Outcome>)
    ensures var i := |cycles| - 1 - EmptySuffix(cycles);
      if i < 0 then
        i == -1 && (forall j :: 0 <= j < |cycles| ==> !cycles[j].Success?) && LatestSuccess(cycles) == None
      else
        LastSuccessAt(cycles, i) && LatestSuccess(cycles) == Some(cycles[i])
  {
    if cycles != [] && !cycles[|cycles| - 1].Success? {
      EmptySuffixIs(cycles[..|cycles| - 1]);
    }
  }

  /** The sum of the series of the successes. */
  lemma {:induction false} SeriesSumIs(cycles: seq<Outcome>, more: seq<Outcome>)
    ensures SeriesSum(cycles + more) == SeriesSum(cycles) + SeriesSum(more)
    ensures |more| == 1 ==> SeriesSum(more) == if more[0].Success? then more[0].series else 0
    ensures SeriesSum([]) == 0
    decreases |more|
  {
    if more == [] {
      assert cycles + more == cycles;
    } else {
      var init := more[..|more| - 1];
      SeriesSumIs(cycles, init);
      assert (cycles + more)[..|cycles + more| - 1] == cycles + init;
    }
  }
}
