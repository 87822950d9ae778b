/** Access rules of tenants, and deciding access. */
module TenantManager {
  import opened MetricApi
  import opened Text
  import opened Selector

  /** The regular-expression engine. */
  datatype Regexp = Regexp(compiles: string -> bool, matches: (string, string) -> bool)

  datatype Pattern =
    | Exact(text: string)
    | Regex(text: string)
    | PromQL(text: string, selector: Labels)

  datatype Tenant = Tenant(id: Key, name: string, namespace: string, patterns: seq<Pattern>, labelSelectors: Labels)

  const META := ".*+?^$[](){}|\\"

  predicate HasMeta(metric: string) {
    exists i :: 0 <= i < |metric| && metric[i] in META
  }

  function TrimSuffix(s: string, c: char): string {
    if s != "" && s[|s| - 1] == c then s[..|s| - 1] else s
  }

  /** The selector of a pattern like name{label="value"}. */
  function WithLabels(metric: string): Labels {
    match CutAt(metric, '{')
    case None => map[]
    case Some((front, rest)) => Named(front, rest)
  }

  /** What comes before and after the first occurrence of a character. */
  function CutAt(s: string, c: char): Option<(string, string)> {
    var i := IndexOf(s, c);
    if i == |s| then None else Some((s[..i], s[i + 1..]))
  }

  /** What stands before the brace is the name, what comes after it the labels. */
  function Named(front: string, rest: string): Labels {
    var name := Trim(front, IsSpace);
    var labels := Parsed("{" + TrimSuffix(rest, '}') + "}");
    if name != "" then labels[NAME := name] else labels
  }

  /** A pattern by its shape; None if its regular expression does not compile. */
  function ParsePattern(re: Regexp, metric: string): Option<Pattern> {
    if IsSelector(metric) then Some(PromQL(metric, Parsed(metric)))
    else if '{' in metric && '}' in metric then Some(PromQL(metric, WithLabels(metric)))
    else if HasMeta(metric) then
      if re.compiles(metric) then Some(Regex(metric)) else None
    else Some(Exact(metric))
  }

  function ParsePatterns(re: Regexp, metrics: seq<string>): seq<Pattern> {
    if metrics == [] then []
    else
      var p := ParsePattern(re, metrics[|metrics| - 1]);
      ParsePatterns(re, metrics[..|metrics| - 1]) + (if p.Some? then [p.value] else [])
  }

  method ParseNamed(front: string, rest: string) returns (labels: Labels)
    ensures labels == Named(front, rest)
  {
    var metricName, labelPart := Trim(front, IsSpace), TrimSuffix(rest, '}');
    labels := ParsePromQLSelector("{" + labelPart + "}");
    if metricName != "" {
      labels := labels[NAME := metricName];
    }
  }

  /** Cuts the text at its first brace and parses the rest as a selector. */
  method ParseMetricWithLabels(metric: string) returns (labels: Labels)
    requires '{' in metric
    ensures labels == WithLabels(metric)
  {
    var i := IndexOf(metric, '{');
    labels := ParseNamed(metric[..i], metric[i + 1..]);
  }

  method ParseMetricPatterns(re: Regexp, metrics: seq<string>) returns (patterns: seq<Pattern>)
    ensures patterns == ParsePatterns(re, metrics)
  {
    patterns := [];
    for n := 0 to |metrics|
      invariant patterns == ParsePatterns(re, metrics[..n])
    {
      assert metrics[..n + 1][..n] == metrics[..n];
      var metric := metrics[n];
      if IsSelector(metric) {
        var selector := ParsePromQLSelector(metric);
        patterns := patterns + [PromQL(metric, selector)];
      } else if '{' in metric && '}' in metric {
        var selector := ParseMetricWithLabels(metric);
        patterns := patterns + [PromQL(metric, selector)];
      } else if HasMeta(metric) {
        if re.compiles(metric) {
          patterns := patterns + [Regex(metric)];
        }
      } else {
        patterns := patterns + [Exact(metric)];
      }
    }
    assert metrics[..|metrics|] == metrics;
  }

  // ---------------------------------------------------------------------------
  // Matching

  /** Every selector is a label with that value. */
  predicate SubMap(selectors: Labels, labels: Labels) {
    forall k :: k in selectors ==> k in labels && labels[k] == selectors[k]
  }

  predicate SelectorMatches(selector: Labels, metricName: string, labels: Labels) {
    (NAME in selector ==> metricName == selector[NAME]) && SubMap(selector - {NAME}, labels)
  }

  predicate PatternMatches(re: Regexp, p: Pattern, metricName: string, labels: Labels) {
    match p
    case Exact(text) => metricName == text
    case Regex(text) => re.matches(text, metricName)
    case PromQL(_, selector) => SelectorMatches(selector, metricName, labels)
  }

  /** Looks up the given selectors in the labels, in any order, up to the first mismatch. */
  method CheckSelectors(selectors: Labels, labels: Labels) returns (r: bool)
    ensures r <==> SubMap(selectors, labels)
  {
    var pending := selectors.Keys;
    while pending != {}
      invariant pending <= selectors.Keys
      invariant forall k :: k in selectors && k !in pending ==> k in labels && labels[k] == selectors[k]
      decreases |pending|
    {
      var key :| key in pending;
      pending := pending - {key};
      if key !in labels || labels[key] != selectors[key] {
        return false;
      }
    }
    r := true;
  }

  method MatchesPromQLSelector(selector: Labels, metricName: string, labels: Labels) returns (r: bool)
    ensures r <==> SelectorMatches(selector, metricName, labels)
  {
    if NAME in selector && metricName != selector[NAME] {
      return false;
    }
    r := CheckSelectors(selector - {NAME}, labels);
  }

  /** The namespace is looked at first, by itself; the answer is that of all selectors. */
  method MatchesLabelSelectors(selectors: Labels, labels: Labels) returns (r: bool)
    ensures r <==> SubMap(selectors, labels)
  {
    if selectors == map[] {
      return true;
    }
    var remaining := selectors;
    if "namespace" in selectors {
      if "namespace" !in labels || labels["namespace"] != selectors["namespace"] {
        return false;
      }
      remaining := selectors - {"namespace"};
      assert forall k :: k in selectors ==> k == "namespace" || k in remaining;
    }
    r := CheckSelectors(remaining, labels);
  }

  /** Access: some pattern matches, and so do all label selectors. */
  ghost predicate Grants(re: Regexp, t: Tenant, metricName: string, labels: Labels) {
    (exists p :: p in t.patterns && PatternMatches(re, p, metricName, labels)) && SubMap(t.labelSelectors, labels)
  }

  function TenantOf(re: Regexp, ma: MetricAccess): Tenant {
    Tenant(KeyOf(ma), ma.name, ma.namespace, ParsePatterns(re, ma.metrics), ma.labelSelectors)
  }

  /** The tenants after processing a list of resources. */
  function AfterUpdates(re: Regexp, tenants: map<Key, Tenant>, items: seq<MetricAccess>): map<Key, Tenant> {
    if items == [] then tenants
    else AfterUpdates(re, tenants, items[..|items| - 1])[KeyOf(items[|items| - 1]) := TenantOf(re, items[|items| - 1])]
  }

  /** The resources of the lists that arrived, in order. */
  function Listed(lists: seq<Option<seq<MetricAccess>>>): seq<MetricAccess> {
    if lists == [] then []
    else
      var listed, last := Listed(lists[..|lists| - 1]), lists[|lists| - 1];
      if last.Some? then listed + last.value else listed
  }

  lemma {:induction false} UpdatesInTurn(re: Regexp, tenants: map<Key, Tenant>,
                                         a: seq<MetricAccess>, b: seq<MetricAccess>)
    ensures AfterUpdates(re, tenants, a + b) == AfterUpdates(re, AfterUpdates(re, tenants, a), b)
    decreases |b|
  {
    if b == [] {
      assert a + b == a;
    } else {
      UpdatesInTurn(re, tenants, a, b[..|b| - 1]);
      assert (a + b)[..|a + b| - 1] == a + b[..|b| - 1];
    }
  }

  class Manager {
    const re: Regexp
    var tenants: map<Key, Tenant>

    /** Tenants are filed under their own id. */
    ghost predicate Valid()
      reads this
    {
      forall k :: k in tenants ==> tenants[k].id == k
    }

    constructor (re: Regexp)
      ensures Valid() && this.re == re && tenants == map[]
    {
      this.re := re;
      tenants := map[];
    }

    method ProcessTenantUpdate(ma: MetricAccess)
      requires Valid()
      modifies this
      ensures Valid()
      ensures tenants == old(tenants)[KeyOf(ma) := TenantOf(re, ma)]
    {
      var patterns := ParseMetricPatterns(re, ma.metrics);
      tenants := tenants[KeyOf(ma) := Tenant(KeyOf(ma), ma.name, ma.namespace, patterns, ma.labelSelectors)];
    }

    method LoadList(items: seq<MetricAccess>)
      requires Valid()
      modifies this
      ensures Valid()
      ensures tenants == AfterUpdates(re, old(tenants), items)
    {
      for n := 0 to |items|
        invariant Valid()
        invariant tenants == AfterUpdates(re, old(tenants), items[..n])
      {
        assert items[..n + 1][..n] == items[..n];
        ProcessTenantUpdate(items[n]);
      }
      assert items[..|items|] == items;
    }

    /** One list for each watched namespace, or an error, which is skipped; a resource that
        is gone keeps its entry. */
    method LoadTenants(lists: seq<Option<seq<MetricAccess>>>)
      requires Valid()
      modifies this
      ensures Valid()
      ensures tenants == AfterUpdates(re, old(tenants), Listed(lists))
    {
      for n := 0 to |lists|
        invariant Valid()
        invariant tenants == AfterUpdates(re, old(tenants), Listed(lists[..n]))
      {
        assert lists[..n + 1][..n] == lists[..n];
        if lists[n].Some? {
          UpdatesInTurn(re, old(tenants), Listed(lists[..n]), lists[n].value);
          LoadList(lists[n].value);
        }
      }
      assert lists[..|lists|] == lists;
    }

    /** Looks for the tenant among all entries, then for a pattern that matches. */
    method ValidateAccess(tenantID: Key, metricName: string, labels: Labels) returns (allowed: bool)
      requires Valid()
      ensures allowed <==> tenantID in tenants && Grants(re, tenants[tenantID], metricName, labels)
    {
      var found: Option<Tenant> := None;
      var pending := tenants.Keys;
      while pending != {} && found.None?
        invariant pending <= tenants.Keys
        invariant found.None? ==> forall k :: k in tenants && k !in pending ==> tenants[k].id != tenantID
        invariant found.Some? ==> tenantID in tenants && found.value == tenants[tenantID]
        decreases |pending|
      {
        var k :| k in pending;
        pending := pending - {k};
        if tenants[k].id == tenantID {
          found := Some(tenants[k]);
        }
      }
      if found.None? {
        return false;
      }
      var t := found.value;
      for n := 0 to |t.patterns|
        invariant forall i :: 0 <= i < n ==>
          !(PatternMatches(re, t.patterns[i], metricName, labels) && SubMap(t.labelSelectors, labels))
      {
        var p := t.patterns[n];
        var matched := false;
        match p {
          case Exact(text) => matched := metricName == text;
          case Regex(text) => matched := re.matches(text, metricName);
          case PromQL(_, selector) => matched := MatchesPromQLSelector(selector, metricName, labels);
        }
        if matched {
          var selected := MatchesLabelSelectors(t.labelSelectors, labels);
          if selected {
            assert p in t.patterns && PatternMatches(re, p, metricName, labels);
            return true;
          }
        }
      }
      allowed := false;
    }
  }

  // ---------------------------------------------------------------------------
  // Reading a printed query

  lemma {:induction false} ParsedPatterns(re: Regexp, metrics: seq<string>, p: Pattern)
    ensures p in ParsePatterns(re, metrics) <==> exists m :: m in metrics && ParsePattern(re, m) == Some(p)
  {
    if metrics != [] {
      var init, m := metrics[..|metrics| - 1], metrics[|metrics| - 1];
      ParsedPatterns(re, init, p);
      assert forall x :: x in metrics <==> x in init || x == m;
    }
  }

  /** A printed query, parsed as a selector, matches exactly the series of that name whose
      labels contain the label selectors. */
  lemma QueryMatches(name: string, pairs: seq<Pair>, selectors: Labels, metricName: string, labels: Labels)
    requires Enumerates(pairs, selectors) && NAME !in selectors
    requires PlainValue(name) && forall k :: k in selectors ==> Plain((k, selectors[k]))
    ensures SelectorMatches(Parsed(Printed(name, pairs)), metricName, labels) <==>
      metricName == name && SubMap(selectors, labels)
  {
    RoundTrip(name, pairs, selectors);
    assert (map[NAME := name] + selectors) - {NAME} == selectors;
  }

  // ---------------------------------------------------------------------------
  // Collecting and accessing

  /** The manager, reading the query of a resource for an exact metric name as a selector,
      would grant what it does grant through that name. */
  lemma QueryReadsAsAccess(re: Regexp, ma: MetricAccess, name: string, pairs: seq<Pair>, labels: Labels)
    requires Enumerates(pairs, ma.labelSelectors) && NAME !in ma.labelSelectors
    requires PlainValue(name) && forall k :: k in ma.labelSelectors ==> Plain((k, ma.labelSelectors[k]))
    requires name in ma.metrics && ParsePattern(re, name) == Some(Exact(name))
    ensures SelectorMatches(Parsed(Printed(name, pairs)), name, labels) <==> Grants(re, TenantOf(re, ma), name, labels)
  {
    QueryMatches(name, pairs, ma.labelSelectors, name, labels);
    NameGrants(re, ma, name, labels);
  }

  /** What is relied on of Prometheus: the bare words it reads as metric names and as label
      names, and whether a query returns a series. */
  datatype Prometheus = Prometheus(
    isName: string -> bool,
    isLabelName: string -> bool,
    finds: (string, string, Labels) -> bool)

  /** Text that stands for itself between double quotes. */
  predicate Quotable(v: string) {
    '"' !in v && '\\' !in v && '\n' !in v
  }

  predicate Readable(prom: Prometheus, pairs: seq<Pair>) {
    forall i :: 0 <= i < |pairs| ==> prom.isLabelName(pairs[i].0) && Quotable(pairs[i].1)
  }

  predicate Carries(labels: Labels, pairs: seq<Pair>) {
    forall i :: 0 <= i < |pairs| ==> Get(labels, pairs[i].0) == pairs[i].1
  }

  /** The assumption on Prometheus: a bare name returns the series of that name; a printed
      query, if its parts can be read, those that carry the given labels as well, where a
      missing label counts as empty. */
  ghost predicate ReadsQueries(prom: Prometheus) {
    && (forall name, metricName, labels :: prom.isName(name) ==>
          (prom.finds(name, metricName, labels) <==> metricName == name))
    && (forall name, pairs, metricName, labels :: prom.isName(name) && Quotable(name) && Readable(prom, pairs) ==>
          (prom.finds(Printed(name, pairs), metricName, labels) <==> metricName == name && Carries(labels, pairs)))
  }

  /** name is an exact metric pattern of the resource, and its query can be read. */
  ghost predicate Asks(prom: Prometheus, re: Regexp, ma: MetricAccess, name: string) {
    && name in ma.metrics && ParsePattern(re, name) == Some(Exact(name))
    && prom.isName(name) && Quotable(name)
    && NAME !in ma.labelSelectors
    && forall k :: k in ma.labelSelectors ==> prom.isLabelName(k) && Quotable(ma.labelSelectors[k])
  }

  predicate NoneEmpty(labels: Labels) {
    forall k :: k in labels ==> labels[k] != ""
  }

  lemma CarriesAll(labels: Labels, pairs: seq<Pair>, selectors: Labels)
    requires Enumerates(pairs, selectors)
    ensures Carries(labels, pairs) <==> forall k :: k in selectors ==> Get(labels, k) == selectors[k]
  {
    PairsOf(pairs);
    EntriesListed(pairs);
    if Carries(labels, pairs) {
      forall k | k in selectors
        ensures Get(labels, k) == selectors[k]
      {
        var i :| 0 <= i < |pairs| && pairs[i].0 == k;
      }
    }
  }

  /** What the query of a resource for a metric name returns. */
  lemma QueryReturns(prom: Prometheus, re: Regexp, ma: MetricAccess, name: string, query: string, labels: Labels)
    requires ReadsQueries(prom) && Asks(prom, re, ma, name) && IsQueryFor(query, name, ma.labelSelectors)
    ensures prom.finds(query, name, labels) <==>
      forall k :: k in ma.labelSelectors ==> Get(labels, k) == ma.labelSelectors[k]
  {
    if ma.labelSelectors != map[] {
      var pairs :| Enumerates(pairs, ma.labelSelectors) && query == Printed(name, pairs);
      PairsOf(pairs);
      assert Readable(prom, pairs);
      CarriesAll(labels, pairs, ma.labelSelectors);
    }
  }

  lemma NameGrants(re: Regexp, ma: MetricAccess, name: string, labels: Labels)
    requires name in ma.metrics && ParsePattern(re, name) == Some(Exact(name))
    ensures Grants(re, TenantOf(re, ma), name, labels) <==> SubMap(ma.labelSelectors, labels)
  {
    ParsedPatterns(re, ma.metrics, Exact(name));
    assert PatternMatches(re, Exact(name), name, labels);
  }

  /** The series of a name that the resource's own query for it returns are exactly those
      that its tenant may access, for all series (which have no empty labels), if and only
      if no label selector asks for an empty value: such a query returns series without the
      label, and access to those is denied. */
  lemma QueryIsAccessIff(prom: Prometheus, re: Regexp, ma: MetricAccess, name: string, query: string)
    requires ReadsQueries(prom) && Asks(prom, re, ma, name) && IsQueryFor(query, name, ma.labelSelectors)
    ensures (forall labels :: NoneEmpty(labels) ==>
               (prom.finds(query, name, labels) <==> Grants(re, TenantOf(re, ma), name, labels)))
      <==> NoneEmpty(ma.labelSelectors)
  {
    var selectors := ma.labelSelectors;
    if NoneEmpty(selectors) {
      forall labels: Labels | NoneEmpty(labels)
        ensures prom.finds(query, name, labels) <==> Grants(re, TenantOf(re, ma), name, labels)
      {
        QueryReturns(prom, re, ma, name, query, labels);
        NameGrants(re, ma, name, labels);
      }
    } else {
      var labels := map k | k in selectors && selectors[k] != "" :: selectors[k];
      QueryReturns(prom, re, ma, name, query, labels);
      NameGrants(re, ma, name, labels);
      assert NoneEmpty(labels) && prom.finds(query, name, labels) && !SubMap(selectors, labels);
    }
  }

  /** Access follows the last resource listed for the tenant's id. */
  lemma {:induction false} LastUpdateWins(re: Regexp, tenants: map<Key, Tenant>, items: seq<MetricAccess>, i: nat)
    requires i < |items| && forall j :: i < j < |items| ==> KeyOf(items[j]) != KeyOf(items[i])
    ensures var after := AfterUpdates(re, tenants, items);
      KeyOf(items[i]) in after && after[KeyOf(items[i])] == TenantOf(re, items[i])
    decreases |items|
  {
    if i < |items| - 1 {
      LastUpdateWins(re, tenants, items[..|items| - 1], i);
    }
  }
}
