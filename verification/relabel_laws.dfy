/** What each relabeling action does to metrics, with the patterns written out. Together
    with RelabelComposes this says what any list of rules does. */
module RelabelLaws {
  import opened MetricApi
  import opened Text
  import opened Relabel

  /** The value that a rule sees under a label: that of the metric's label, else the metric
      name for __name__, else the empty string. */
  function Seen(m: Metric, k: string): string {
    if k in m.labels then m.labels[k] else if k == "__name__" then m.name else ""
  }

  /** The values of the source labels, with the separator between them. */
  function SourceText(m: Metric, rule: RelabelRule): string {
    Join(seq(|rule.sourceLabels|, i requires 0 <= i < |rule.sourceLabels| => Seen(m, rule.sourceLabels[i])),
         if rule.separator == "" then ";" else rule.separator)
  }

  /** The metric with the name that rules see, and without a label called __name__. */
  function Plain(m: Metric): Metric {
    Metric(Seen(m, "__name__"), m.labels - {"__name__"}, m.value, m.timestamp)
  }

  /** Those metrics of a list that pass, in order. */
  function Those(ms: seq<Metric>, pass: Metric -> bool): seq<Metric> {
    if ms == [] then []
    else
      var m := ms[|ms| - 1];
      Those(ms[..|ms| - 1], pass) + (if pass(m) then [Plain(m)] else [])
  }

  lemma SourceIsSeen(m: Metric, rule: RelabelRule)
    ensures SourceValue(LabelMap(m), rule) == SourceText(m, rule)
  {
    assert Source(LabelMap(m), rule.sourceLabels) ==
      seq(|rule.sourceLabels|, i requires 0 <= i < |rule.sourceLabels| => Seen(m, rule.sourceLabels[i]));
  }

  lemma BackAgain(m: Metric)
    ensures FromLabels(m, LabelMap(m)) == Plain(m)
  {
    assert LabelMap(m) - {NAME} == m.labels - {NAME};
  }

  lemma OneRule(re: Engine, m: Metric, rule: RelabelRule)
    ensures ApplyRules(re, LabelMap(m), [rule]) == ApplyRule(re, LabelMap(m), rule)
  {}

  lemma OneMetric(re: Engine, m: Metric, rule: RelabelRule)
    ensures Relabeled(re, [m], [rule]) ==
      match ApplyRule(re, LabelMap(m), rule)
      case None => []
      case Some(labels) => [FromLabels(m, labels)]
  {
    OneRule(re, m, rule);
    RelabelSnoc(re, [], m, [rule]);
    assert [] + [m] == [m];
  }

  /** A rule that lets a metric through or not, and changes nothing else. */
  lemma {:induction false} Filters(re: Engine, ms: seq<Metric>, rule: RelabelRule, pass: Metric -> bool)
    requires forall m :: ApplyRule(re, LabelMap(m), rule) == if pass(m) then Some(LabelMap(m)) else None
    ensures Relabeled(re, ms, [rule]) == Those(ms, pass)
  {
    if ms != [] {
      var m := ms[|ms| - 1];
      Filters(re, ms[..|ms| - 1], rule, pass);
      OneRule(re, m, rule);
      BackAgain(m);
    }
  }

  // ---------------------------------------------------------------------------
  // Keep and drop

  /** The source text of a metric matches the anchored regex of the rule. */
  function Matching(re: Engine, rule: RelabelRule): Metric -> bool {
    m => re.matches("^(?:" + rule.regex + ")$", SourceText(m, rule))
  }

  function NotMatching(re: Engine, rule: RelabelRule): Metric -> bool {
    m => !re.matches("^(?:" + rule.regex + ")$", SourceText(m, rule))
  }

  function Any(): Metric -> bool {
    m => true
  }

  /** keep lets exactly the metrics through whose source text matches. */
  lemma KeepIsFilter(re: Engine, ms: seq<Metric>, rule: RelabelRule)
    requires rule.action == "keep" && rule.regex != "" && re.compiles("^(?:" + rule.regex + ")$")
    ensures Relabeled(re, ms, [rule]) == Those(ms, Matching(re, rule))
  {
    forall m
      ensures SourceValue(LabelMap(m), rule) == SourceText(m, rule)
    {
      SourceIsSeen(m, rule);
    }
    Filters(re, ms, rule, Matching(re, rule));
  }

  /** drop lets exactly the others through. */
  lemma DropIsFilter(re: Engine, ms: seq<Metric>, rule: RelabelRule)
    requires rule.action == "drop" && rule.regex != "" && re.compiles("^(?:" + rule.regex + ")$")
    ensures Relabeled(re, ms, [rule]) == Those(ms, NotMatching(re, rule))
  {
    forall m
      ensures SourceValue(LabelMap(m), rule) == SourceText(m, rule)
    {
      SourceIsSeen(m, rule);
    }
    Filters(re, ms, rule, NotMatching(re, rule));
  }

  lemma {:induction false} ThoseAndTheOthers(ms: seq<Metric>, p: Metric -> bool, q: Metric -> bool)
    requires forall m :: p(m) == !q(m)
    ensures multiset(Those(ms, p)) + multiset(Those(ms, q)) == multiset(Those(ms, Any()))
  {
    if ms != [] {
      ThoseAndTheOthers(ms[..|ms| - 1], p, q);
    }
  }

  /** keep and drop with the same regex part the metrics between them. */
  lemma KeepAndDropPartition(re: Engine, ms: seq<Metric>, keep: RelabelRule, drop: RelabelRule)
    requires keep.action == "keep" && drop == keep.(action := "drop")
    requires keep.regex != "" && re.compiles("^(?:" + keep.regex + ")$")
    ensures multiset(Relabeled(re, ms, [keep])) + multiset(Relabeled(re, ms, [drop])) == multiset(Those(ms, Any()))
  {
    KeepIsFilter(re, ms, keep);
    DropIsFilter(re, ms, drop);
    forall m
      ensures Matching(re, keep)(m) == !NotMatching(re, drop)(m)
    {
      assert SourceText(m, keep) == SourceText(m, drop);
    }
    ThoseAndTheOthers(ms, Matching(re, keep), NotMatching(re, drop));
  }

  // ---------------------------------------------------------------------------
  // Replace

  /** replace gives the target label, and no other, the replaced source text, if that
      matches and the rule names a target label; otherwise it changes nothing. */
  lemma ReplaceSetsTarget(re: Engine, m: Metric, rule: RelabelRule) returns (r: Metric)
    requires rule.action == "replace" && rule.regex != "" && rule.replacement != ""
    requires re.compiles("^(?:" + rule.regex + ")$")
    ensures Relabeled(re, [m], [rule]) == [r]
    ensures var pattern, text := "^(?:" + rule.regex + ")$", SourceText(m, rule);
      var sets := re.matches(pattern, text) && rule.targetLabel != "";
      forall k: string ::
        && Seen(r, k) == (if sets && k == rule.targetLabel then re.replaceAll(pattern, text, rule.replacement)
                          else Seen(m, k))
        && (k in r.labels <==> k != "__name__" && (k in m.labels || (sets && k == rule.targetLabel)))
    ensures r.value == m.value && r.timestamp == m.timestamp
  {
    SourceIsSeen(m, rule);
    OneMetric(re, m, rule);
    r := FromLabels(m, Replace(re, LabelMap(m), rule));
  }

  // ---------------------------------------------------------------------------
  // Labeldrop and labelkeep

  /** labeldrop removes exactly the labels whose key matches, the name among them. */
  lemma LabelDropRemoves(re: Engine, m: Metric, rule: RelabelRule) returns (r: Metric)
    requires rule.action == "labeldrop" && rule.regex != "" && re.compiles("^(?:" + rule.regex + ")$")
    ensures Relabeled(re, [m], [rule]) == [r]
    ensures var gone := (k: string) => re.matches("^(?:" + rule.regex + ")$", k);
      && (forall k: string :: Seen(r, k) == if gone(k) then "" else Seen(m, k))
      && (forall k: string :: k in r.labels <==> k != "__name__" && k in m.labels && !gone(k))
    ensures r.value == m.value && r.timestamp == m.timestamp
  {
    OneMetric(re, m, rule);
    r := FromLabels(m, DropLabels(re, LabelMap(m), Pattern(rule)));
  }

  /** labelkeep leaves exactly the labels whose key matches, and the name in any case. */
  lemma LabelKeepLeaves(re: Engine, m: Metric, rule: RelabelRule) returns (r: Metric)
    requires rule.action == "labelkeep" && rule.regex != "" && re.compiles("^(?:" + rule.regex + ")$")
    ensures Relabeled(re, [m], [rule]) == [r]
    ensures var stays := (k: string) => re.matches("^(?:" + rule.regex + ")$", k) || k == "__name__";
      && (forall k: string :: Seen(r, k) == if stays(k) then Seen(m, k) else "")
      && (forall k: string :: k in r.labels <==> k != "__name__" && k in m.labels && stays(k))
    ensures r.value == m.value && r.timestamp == m.timestamp
  {
    OneMetric(re, m, rule);
    r := FromLabels(m, KeepLabels(re, LabelMap(m), Pattern(rule)));
  }

  // ---------------------------------------------------------------------------
  // Everything else

  lemma {:induction false} SameRule(re: Engine, ms: seq<Metric>, rule: RelabelRule, other: RelabelRule)
    requires forall labels :: ApplyRule(re, labels, rule) == ApplyRule(re, labels, other)
    ensures Relabeled(re, ms, [rule]) == Relabeled(re, ms, [other])
  {
    if ms != [] {
      SameRule(re, ms[..|ms| - 1], rule, other);
      OneRule(re, ms[|ms| - 1], rule);
      OneRule(re, ms[|ms| - 1], other);
    }
  }

  /** What a rule leaves open is replace, (.*), $1 and a semicolon. */
  lemma DefaultsAreFilledIn(re: Engine, ms: seq<Metric>, rule: RelabelRule)
    ensures Relabeled(re, ms, [rule]) == Relabeled(re, ms, [rule.(
      action := if rule.action == "" then "replace" else rule.action,
      regex := if rule.regex == "" then "(.*)" else rule.regex,
      replacement := if rule.replacement == "" then "$1" else rule.replacement,
      separator := if rule.separator == "" then ";" else rule.separator)])
  {
    SameRule(re, ms, rule, rule.(
      action := if rule.action == "" then "replace" else rule.action,
      regex := if rule.regex == "" then "(.*)" else rule.regex,
      replacement := if rule.replacement == "" then "$1" else rule.replacement,
      separator := if rule.separator == "" then ";" else rule.separator));
  }

  /** A rule with a regex that does not compile, or with an unknown action, lets everything
      through unchanged; and without any rule nothing is even looked at. */
  lemma OtherRulesDoNothing(re: Engine, ms: seq<Metric>, rule: RelabelRule)
    requires rule.regex != ""
    requires || !re.compiles("^(?:" + rule.regex + ")$")
             || rule.action !in ["", "replace", "keep", "drop", "labeldrop", "labelkeep"]
    ensures Relabeled(re, ms, [rule]) == Those(ms, Any())
    ensures Relabeled(re, ms, []) == ms
  {
    Filters(re, ms, rule, Any());
  }
}
