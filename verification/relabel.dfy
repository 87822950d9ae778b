/** Metric relabeling: a small rule language over label maps. */
module Relabel {
  import opened MetricApi
  import opened Text

  /** The regular-expression engine: which patterns compile, whether an anchored pattern
      matches, and what replacing all its matches yields. */
  datatype Engine = Engine(
    compiles: string -> bool,
    matches: (string, string) -> bool,
    replaceAll: (string, string, string) -> string)

  function Source(labels: Labels, names: seq<string>): seq<string> {
    seq(|names|, i requires 0 <= i < |names| => Get(labels, names[i]))
  }

  function OrElse(s: string, default: string): string {
    if s == "" then default else s
  }

  /** The anchored pattern of a rule. */
  function Pattern(rule: RelabelRule): string {
    "^(?:" + OrElse(rule.regex, "(.*)") + ")$"
  }

  function SourceValue(labels: Labels, rule: RelabelRule): string {
    Join(Source(labels, rule.sourceLabels), OrElse(rule.separator, ";"))
  }

  /** Sets the target label, if there is one, to the replaced source value. */
  function Replace(re: Engine, labels: Labels, rule: RelabelRule): Labels {
    var pattern, value := Pattern(rule), SourceValue(labels, rule);
    if re.matches(pattern, value) && rule.targetLabel != "" then
      labels[rule.targetLabel := re.replaceAll(pattern, value, OrElse(rule.replacement, "$1"))]
    else labels
  }

  function DropLabels(re: Engine, labels: Labels, pattern: string): Labels {
    map k | k in labels && !re.matches(pattern, k) :: labels[k]
  }

  function KeepLabels(re: Engine, labels: Labels, pattern: string): Labels {
    map k | k in labels && (re.matches(pattern, k) || k == NAME) :: labels[k]
  }

  /** The labels after one rule, or None if the rule discards the metric. */
  function ApplyRule(re: Engine, labels: Labels, rule: RelabelRule): Option<Labels> {
    var action := OrElse(rule.action, "replace");
    if !re.compiles(Pattern(rule)) then Some(labels)
    else if action == "replace" then Some(Replace(re, labels, rule))
    else if action == "keep" then
      if re.matches(Pattern(rule), SourceValue(labels, rule)) then Some(labels) else None
    else if action == "drop" then
      if re.matches(Pattern(rule), SourceValue(labels, rule)) then None else Some(labels)
    else if action == "labeldrop" then Some(DropLabels(re, labels, Pattern(rule)))
    else if action == "labelkeep" then Some(KeepLabels(re, labels, Pattern(rule)))
    else Some(labels)
  }

  function ApplyRules(re: Engine, labels: Labels, rules: seq<RelabelRule>): Option<Labels>
    decreases |rules|
  {
    if rules == [] then Some(labels)
    else
      match ApplyRule(re, labels, rules[0])
      case None => None
      case Some(l) => ApplyRules(re, l, rules[1..])
  }

  /** The label map a metric is relabeled as: a label called __name__ wins over the name. */
  function LabelMap(m: Metric): Labels {
    map[NAME := m.name] + m.labels
  }

  /** Back from a label map to a metric. */
  function FromLabels(m: Metric, labels: Labels): Metric {
    Metric(Get(labels, NAME), labels - {NAME}, m.value, m.timestamp)
  }

  function RelabelOne(re: Engine, m: Metric, rules: seq<RelabelRule>): Option<Metric> {
    match ApplyRules(re, LabelMap(m), rules)
    case None => None
    case Some(labels) => Some(FromLabels(m, labels))
  }

  function RelabelAll(re: Engine, ms: seq<Metric>, rules: seq<RelabelRule>): seq<Metric> {
    if ms == [] then []
    else
      var r := RelabelOne(re, ms[|ms| - 1], rules);
      RelabelAll(re, ms[..|ms| - 1], rules) + (if r.Some? then [r.value] else [])
  }

  /** Without rules the metrics pass through untouched. */
  function Relabeled(re: Engine, ms: seq<Metric>, rules: seq<RelabelRule>): seq<Metric> {
    if rules == [] then ms else RelabelAll(re, ms, rules)
  }

  // ---------------------------------------------------------------------------
  // The loops

  /** Deletes the labels a labeldrop or labelkeep rule removes, in any order. */
  method DeleteLabels(labels: Labels, doomed: string -> bool) returns (r: Labels)
    ensures r == map k | k in labels && !doomed(k) :: labels[k]
  {
    r := labels;
    var pending := labels.Keys;
    while pending != {}
      invariant pending <= labels.Keys
      invariant r == map k | k in labels && (k in pending || !doomed(k)) :: labels[k]
      decreases |pending|
    {
      var k :| k in pending;
      pending := pending - {k};
      if doomed(k) {
        r := r - {k};
      }
    }
  }

  method JoinSources(labels: Labels, rule: RelabelRule) returns (value: string)
    ensures value == SourceValue(labels, rule)
  {
    var sourceValues: seq<string> := [];
    for i := 0 to |rule.sourceLabels|
      invariant sourceValues == Source(labels, rule.sourceLabels)[..i]
    {
      var sl := rule.sourceLabels[i];
      sourceValues := sourceValues + [if sl in labels then labels[sl] else ""];
    }
    assert sourceValues == Source(labels, rule.sourceLabels);
    value := Join(sourceValues, if rule.separator == "" then ";" else rule.separator);
  }

  /** One rule; keep tells whether the metric survives it. */
  method RunRule(re: Engine, start: Labels, rule: RelabelRule) returns (keep: bool, labels: Labels)
    ensures ApplyRule(re, start, rule) == if keep then Some(labels) else None
  {
    keep, labels := true, start;
    var action := if rule.action == "" then "replace" else rule.action;
    var concatenated := JoinSources(labels, rule);
    var pattern := "^(?:" + (if rule.regex == "" then "(.*)" else rule.regex) + ")$";
    assert pattern == Pattern(rule);
    if !re.compiles(pattern) {
      return;
    }
    if action == "replace" {
      if re.matches(pattern, concatenated) {
        var replacement := if rule.replacement == "" then "$1" else rule.replacement;
        var newValue := re.replaceAll(pattern, concatenated, replacement);
        if rule.targetLabel != "" {
          labels := labels[rule.targetLabel := newValue];
        }
      }
    } else if action == "keep" {
      if !re.matches(pattern, concatenated) {
        keep := false;
      }
    } else if action == "drop" {
      if re.matches(pattern, concatenated) {
        keep := false;
      }
    } else if action == "labeldrop" {
      labels := DeleteLabels(labels, k => re.matches(pattern, k));
      assert labels == DropLabels(re, start, pattern);
    } else if action == "labelkeep" {
      labels := DeleteLabels(labels, k => !re.matches(pattern, k) && k != NAME);
      assert labels == KeepLabels(re, start, pattern);
    }
  }

  /** The rules of one metric, applied to its label map until one discards it. */
  method RunRules(re: Engine, start: Labels, rules: seq<RelabelRule>) returns (keep: bool, labels: Labels)
    ensures ApplyRules(re, start, rules) == if keep then Some(labels) else None
  {
    keep, labels := true, start;
    var i := 0;
    while i < |rules| && keep
      invariant 0 <= i <= |rules|
      invariant ApplyRules(re, start, rules) == if keep then ApplyRules(re, labels, rules[i..]) else None
    {
      assert rules[i..][0] == rules[i] && rules[i..][1..] == rules[i + 1..];
      keep, labels := RunRule(re, labels, rules[i]);
      i := i + 1;
    }
  }

  method ApplyMetricRelabelings(re: Engine, metrics: seq<Metric>, rules: seq<RelabelRule>) returns (result: seq<Metric>)
    ensures result == Relabeled(re, metrics, rules)
  {
    if rules == [] {
      return metrics;
    }
    result := [];
    for n := 0 to |metrics|
      invariant result == RelabelAll(re, metrics[..n], rules)
    {
      var m := metrics[n];
      assert metrics[..n + 1][..n] == metrics[..n];
      var labels: Labels := map["__name__" := m.name];
      labels := labels + m.labels;
      var keep, final := RunRules(re, labels, rules);
      if keep {
        var name := if "__name__" in final then final["__name__"] else "";
        result := result + [Metric(name, final - {"__name__"}, m.value, m.timestamp)];
      }
    }
    assert metrics[..|metrics|] == metrics;
  }

  // ---------------------------------------------------------------------------
  // Composition

  /** Two label maps no rule can tell apart: the same labels, except that an empty
      __name__ may be missing. */
  ghost predicate Alike(a: Labels, b: Labels) {
    && (forall k :: k != NAME ==> (k in a <==> k in b))
    && (forall k :: Get(a, k) == Get(b, k))
  }

  lemma AlikeSources(a: Labels, b: Labels, rule: RelabelRule)
    requires Alike(a, b)
    ensures SourceValue(a, rule) == SourceValue(b, rule)
  {
    assert Source(a, rule.sourceLabels) == Source(b, rule.sourceLabels);
  }

  lemma AlikeDrop(re: Engine, a: Labels, b: Labels, pattern: string)
    requires Alike(a, b)
    ensures Alike(DropLabels(re, a, pattern), DropLabels(re, b, pattern))
  {
    forall k: string
      ensures Get(DropLabels(re, a, pattern), k) == Get(DropLabels(re, b, pattern), k)
    {
      assert Get(a, k) == Get(b, k);
    }
  }

  lemma AlikeKeep(re: Engine, a: Labels, b: Labels, pattern: string)
    requires Alike(a, b)
    ensures Alike(KeepLabels(re, a, pattern), KeepLabels(re, b, pattern))
  {
    forall k: string
      ensures Get(KeepLabels(re, a, pattern), k) == Get(KeepLabels(re, b, pattern), k)
    {
      assert Get(a, k) == Get(b, k);
    }
  }

  lemma AlikeReplace(re: Engine, a: Labels, b: Labels, rule: RelabelRule)
    requires Alike(a, b)
    ensures Alike(Replace(re, a, rule), Replace(re, b, rule))
  {
    AlikeSources(a, b, rule);
    forall k: string
      ensures Get(Replace(re, a, rule), k) == Get(Replace(re, b, rule), k)
    {
      assert Get(a, k) == Get(b, k);
    }
  }

  lemma AlikeRule(re: Engine, a: Labels, b: Labels, rule: RelabelRule)
    requires Alike(a, b)
    ensures ApplyRule(re, a, rule).Some? <==> ApplyRule(re, b, rule).Some?
    ensures ApplyRule(re, a, rule).Some? ==> Alike(ApplyRule(re, a, rule).value, ApplyRule(re, b, rule).value)
  {
    AlikeSources(a, b, rule);
    AlikeReplace(re, a, b, rule);
    AlikeDrop(re, a, b, Pattern(rule));
    AlikeKeep(re, a, b, Pattern(rule));
  }

  lemma {:induction false} AlikeRules(re: Engine, a: Labels, b: Labels, rules: seq<RelabelRule>)
    requires Alike(a, b)
    ensures ApplyRules(re, a, rules).Some? <==> ApplyRules(re, b, rules).Some?
    ensures ApplyRules(re, a, rules).Some? ==> Alike(ApplyRules(re, a, rules).value, ApplyRules(re, b, rules).value)
    decreases |rules|
  {
    if rules != [] {
      AlikeRule(re, a, b, rules[0]);
      if ApplyRule(re, a, rules[0]).Some? {
        AlikeRules(re, ApplyRule(re, a, rules[0]).value, ApplyRule(re, b, rules[0]).value, rules[1..]);
      }
    }
  }

  lemma AlikeMetrics(m: Metric, n: Metric, a: Labels, b: Labels)
    requires Alike(a, b) && m.value == n.value && m.timestamp == n.timestamp
    ensures FromLabels(m, a) == FromLabels(n, b)
  {
    var la, lb := a - {NAME}, b - {NAME};
    forall k | k in la
      ensures k in lb && la[k] == lb[k]
    {
      assert Get(a, k) == Get(b, k);
    }
    forall k | k in lb
      ensures k in la
    {
      assert Get(a, k) == Get(b, k);
    }
    assert la == lb;
  }

  /** The round trip through a metric loses nothing a rule could see. */
  lemma RoundTripIsAlike(m: Metric, labels: Labels)
    ensures Alike(labels, LabelMap(FromLabels(m, labels)))
  {}

  lemma {:induction false} RulesInStages(re: Engine, labels: Labels, r1: seq<RelabelRule>, r2: seq<RelabelRule>)
    ensures ApplyRules(re, labels, r1 + r2) ==
      match ApplyRules(re, labels, r1) case None => None case Some(l) => ApplyRules(re, l, r2)
    decreases |r1|
  {
    if r1 == [] {
      assert r1 + r2 == r2;
    } else {
      assert (r1 + r2)[0] == r1[0] && (r1 + r2)[1..] == r1[1..] + r2;
      if ApplyRule(re, labels, r1[0]).Some? {
        RulesInStages(re, ApplyRule(re, labels, r1[0]).value, r1[1..], r2);
      }
    }
  }

  lemma RelabelOneInStages(re: Engine, m: Metric, r1: seq<RelabelRule>, r2: seq<RelabelRule>)
    ensures RelabelOne(re, m, r1 + r2) ==
      match RelabelOne(re, m, r1) case None => None case Some(n) => RelabelOne(re, n, r2)
  {
    RulesInStages(re, LabelMap(m), r1, r2);
    var l1 := ApplyRules(re, LabelMap(m), r1);
    if l1.Some? {
      var n := FromLabels(m, l1.value);
      RoundTripIsAlike(m, l1.value);
      AlikeRules(re, l1.value, LabelMap(n), r2);
      if ApplyRules(re, l1.value, r2).Some? {
        AlikeMetrics(m, n, ApplyRules(re, l1.value, r2).value, ApplyRules(re, LabelMap(n), r2).value);
      }
    }
  }

  lemma {:induction false} RelabelAllInStages(re: Engine, ms: seq<Metric>, r1: seq<RelabelRule>, r2: seq<RelabelRule>)
    ensures RelabelAll(re, ms, r1 + r2) == RelabelAll(re, RelabelAll(re, ms, r1), r2)
  {
    if ms != [] {
      var init, m := ms[..|ms| - 1], ms[|ms| - 1];
      RelabelAllInStages(re, init, r1, r2);
      RelabelOneInStages(re, m, r1, r2);
      var first := RelabelOne(re, m, r1);
      if first.Some? {
        RelabelSnoc(re, RelabelAll(re, init, r1), first.value, r2);
      } else {
        assert RelabelAll(re, ms, r1) == RelabelAll(re, init, r1);
      }
    }
  }

  lemma RelabelSnoc(re: Engine, ms: seq<Metric>, m: Metric, rules: seq<RelabelRule>)
    ensures RelabelAll(re, ms + [m], rules) ==
      RelabelAll(re, ms, rules) + (if RelabelOne(re, m, rules).Some? then [RelabelOne(re, m, rules).value] else [])
  {}

  /** Running two rule lists in one pass is running one after the other, for all metrics
      and rules, also where a rule deletes __name__ or its regex does not compile. */
  lemma RelabelComposes(re: Engine, ms: seq<Metric>, r1: seq<RelabelRule>, r2: seq<RelabelRule>)
    ensures Relabeled(re, ms, r1 + r2) == Relabeled(re, Relabeled(re, ms, r1), r2)
  {
    if r1 == [] {
      assert r1 + r2 == r2;
    } else if r2 == [] {
      assert r1 + r2 == r1;
    } else {
      RelabelAllInStages(re, ms, r1, r2);
    }
  }

  /** A rule whose regex does not compile is as good as absent. */
  lemma InvalidRuleIsSkipped(re: Engine, labels: Labels, r1: seq<RelabelRule>, bad: RelabelRule, r2: seq<RelabelRule>)
    requires !re.compiles(Pattern(bad))
    ensures ApplyRules(re, labels, r1 + [bad] + r2) == ApplyRules(re, labels, r1 + r2)
  {
    assert r1 + [bad] + r2 == r1 + ([bad] + r2);
    RulesInStages(re, labels, r1, [bad] + r2);
    RulesInStages(re, labels, r1, r2);
    if ApplyRules(re, labels, r1).Some? {
      assert ([bad] + r2)[1..] == r2;
    }
  }

  lemma {:induction false} RelabelAllDistributes(re: Engine, a: seq<Metric>, b: seq<Metric>, rules: seq<RelabelRule>)
    ensures RelabelAll(re, a + b, rules) == RelabelAll(re, a, rules) + RelabelAll(re, b, rules)
    decreases |b|
  {
    if b == [] {
      assert a + b == a;
    } else {
      var init, m := b[..|b| - 1], b[|b| - 1];
      RelabelAllDistributes(re, a, init, rules);
      assert a + b == (a + init) + [m];
      RelabelSnoc(re, a + init, m, rules);
    }
  }

  /** Relabeling a concatenation is concatenating the relabeled parts. */
  lemma RelabelDistributes(re: Engine, a: seq<Metric>, b: seq<Metric>, rules: seq<RelabelRule>)
    ensures Relabeled(re, a + b, rules) == Relabeled(re, a, rules) + Relabeled(re, b, rules)
  {
    RelabelAllDistributes(re, a, b, rules);
  }

  /** r holds what becomes of the metrics at the rising positions at; the others are
      discarded. */
  ghost predicate Survive(re: Engine, ms: seq<Metric>, rules: seq<RelabelRule>, r: seq<Metric>, at: seq<nat>) {
    && |at| == |r|
    && (forall i, j :: 0 <= i < j < |at| ==> at[i] < at[j])
    && (forall i :: 0 <= i < |at| ==> at[i] < |ms| && RelabelOne(re, ms[at[i]], rules) == Some(r[i]))
    && (forall n: nat :: n < |ms| && n !in at ==> RelabelOne(re, ms[n], rules).None?)
  }

  lemma OneSurvives(re: Engine, ms: seq<Metric>, rules: seq<RelabelRule>, r: seq<Metric>, at: seq<nat>,
                    m: Metric, x: Metric)
    requires Survive(re, ms, rules, r, at) && RelabelOne(re, m, rules) == Some(x)
    ensures Survive(re, ms + [m], rules, r + [x], at + [|ms|])
  {
    var longer := at + [|ms|];
    assert longer[|at|] == |ms|;
    forall n: nat | n < |ms + [m]| && n !in longer
      ensures RelabelOne(re, (ms + [m])[n], rules).None?
    {
      assert n != |ms| && n !in at;
    }
  }

  lemma OneIsDiscarded(re: Engine, ms: seq<Metric>, rules: seq<RelabelRule>, r: seq<Metric>, at: seq<nat>, m: Metric)
    requires Survive(re, ms, rules, r, at) && RelabelOne(re, m, rules).None?
    ensures Survive(re, ms + [m], rules, r, at)
  {}

  lemma {:induction false} SurvivorsOf(re: Engine, ms: seq<Metric>, rules: seq<RelabelRule>) returns (at: seq<nat>)
    ensures Survive(re, ms, rules, RelabelAll(re, ms, rules), at)
  {
    at := [];
    if ms != [] {
      var init, m := ms[..|ms| - 1], ms[|ms| - 1];
      at := SurvivorsOf(re, init, rules);
      assert ms == init + [m];
      RelabelSnoc(re, init, m, rules);
      var r := RelabelOne(re, m, rules);
      if r.Some? {
        OneSurvives(re, init, rules, RelabelAll(re, init, rules), at, m, r.value);
        at := at + [|init|];
      } else {
        OneIsDiscarded(re, init, rules, RelabelAll(re, init, rules), at, m);
        assert RelabelAll(re, ms, rules) == RelabelAll(re, init, rules);
      }
    }
  }

  /** Relabeling keeps order, values and timestamps: there are rising positions of the
      input whose metrics survive, every other metric is discarded, and each result has
      the value and timestamp of the metric it came from. */
  lemma RelabelIsFilterMap(re: Engine, ms: seq<Metric>, rules: seq<RelabelRule>)
    returns (at: seq<nat>)
    requires rules != []
    ensures |at| == |Relabeled(re, ms, rules)|
    ensures forall i, j :: 0 <= i < j < |at| ==> at[i] < at[j]
    ensures forall i :: 0 <= i < |at| ==>
      at[i] < |ms| && RelabelOne(re, ms[at[i]], rules) == Some(Relabeled(re, ms, rules)[i])
    ensures forall n: nat :: n < |ms| && n !in at ==> RelabelOne(re, ms[n], rules).None?
    ensures forall i :: 0 <= i < |at| ==>
      var r := Relabeled(re, ms, rules)[i]; r.value == ms[at[i]].value && r.timestamp == ms[at[i]].timestamp
  {
    at := SurvivorsOf(re, ms, rules);
  }

  /** After at least one rule, no metric has a label called __name__. */
  lemma {:induction false} RelabeledHasNoNameLabel(re: Engine, ms: seq<Metric>, rules: seq<RelabelRule>)
    requires rules != []
    ensures forall m :: m in Relabeled(re, ms, rules) ==> NAME !in m.labels
  {
    if ms != [] {
      RelabeledHasNoNameLabel(re, ms[..|ms| - 1], rules);
    }
  }
}
