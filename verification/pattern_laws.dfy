/** Which series each kind of metric pattern grants, with the text of the pattern written
    out. */
module PatternLaws {
  import opened MetricApi
  import opened Text
  import opened Selector
  import opened TenantManager

  // ---------------------------------------------------------------------------
  // Text

  /** k="v",... */
  function Written(pairs: seq<Pair>): string {
    if pairs == [] then ""
    else
      var init, p := pairs[..|pairs| - 1], pairs[|pairs| - 1];
      (if init == [] then "" else Written(init) + ",") + (p.0 + "=\"" + p.1 + "\"")
  }

  lemma ItemIsWritten(p: Pair)
    ensures p.0 + "=\"" + p.1 + "\"" == Item(p)
  {}

  lemma {:induction false} WrittenIsJoined(pairs: seq<Pair>)
    ensures Written(pairs) == Join(Items(pairs), ",")
  {
    if pairs != [] {
      var init, p := pairs[..|pairs| - 1], pairs[|pairs| - 1];
      WrittenIsJoined(init);
      ItemIsWritten(p);
      assert Items(pairs) == Items(init) + [Item(p)];
      JoinSnoc(Items(init), Item(p), ",");
      if init == [] {
        assert Items(init) + [Item(p)] == [Item(p)];
      }
    }
  }

  /** A query is the name and the label selectors, each quoted, between braces. */
  lemma PrintedIsWritten(name: string, pairs: seq<Pair>)
    ensures Printed(name, pairs) == "{" + Written([("__name__", name)] + pairs) + "}"
  {
    WrittenIsJoined([("__name__", name)] + pairs);
  }

  /** Pairs that can be written between braces and read back: distinct keys other than
      __name__, without commas, equals signs, spaces at an end or a brace in front, and
      values without commas or a quote at an end. */
  ghost predicate Readable(pairs: seq<Pair>) {
    && (forall i, j :: 0 <= i < j < |pairs| ==> pairs[i].0 != pairs[j].0)
    && (forall i :: 0 <= i < |pairs| ==> ReadableKey(pairs[i].0) && ReadableValue(pairs[i].1))
  }

  predicate ReadableKey(k: string) {
    && k != "__name__" && ',' !in k && '=' !in k
    && (k != "" ==> !IsSpace(k[0]) && !IsSpace(k[|k| - 1]) && k[0] != '{' && k[0] != '}')
  }

  predicate ReadableValue(v: string) {
    ',' !in v && (v != "" ==> v[0] !in "\"'" && v[|v| - 1] !in "\"'")
  }

  predicate ReadableName(name: string) {
    '{' !in name && '}' !in name && (name != "" ==> !IsSpace(name[0]) && !IsSpace(name[|name| - 1]))
  }

  lemma ReadableIsPlain(p: Pair)
    requires ReadableKey(p.0) && ReadableValue(p.1)
    ensures Plain(p)
  {}

  lemma ItemsAreParts(pairs: seq<Pair>)
    requires Readable(pairs)
    ensures forall i :: 0 <= i < |pairs| ==> Plain(pairs[i]) && ',' !in Items(pairs)[i]
  {
    forall i | 0 <= i < |pairs|
      ensures Plain(pairs[i]) && ',' !in Items(pairs)[i]
    {
      ReadableIsPlain(pairs[i]);
      ItemParses(pairs[i]);
    }
  }

  /** What is between the braces is read back as it was written. */
  lemma WrittenIsRead(pairs: seq<Pair>)
    requires Readable(pairs)
    ensures Parsed("{" + Written(pairs) + "}") == FromPairs(pairs)
  {
    var body := Written(pairs);
    WrittenIsJoined(pairs);
    BodyIsTrimmed(pairs);
    TrimUnwraps('{', body, '}', IsBrace);
    assert ['{'] + body + ['}'] == "{" + body + "}";
    if pairs == [] {
      assert ParseParts([""]) == map[] by {
        assert [""][..0] == [];
      }
    } else {
      ItemsAreParts(pairs);
      SplitUndoesJoin(Items(pairs), ',');
      assert [','] == ",";
      ItemsParse(pairs);
    }
  }

  lemma BodyIsTrimmed(pairs: seq<Pair>)
    requires Readable(pairs)
    ensures Trimmed(Written(pairs), IsBrace)
  {
    if pairs != [] {
      WrittenIsJoined(pairs);
      var items := Items(pairs);
      assert items[0] == Item(pairs[0]) && items[|items| - 1] == Item(pairs[|pairs| - 1]);
      assert items[0][0] == if pairs[0].0 == "" then '=' else pairs[0].0[0];
      JoinEnds(items);
    }
  }

  lemma NamedShape(name: string, body: string, metric: string)
    requires '{' !in name && metric == name + "{" + body + "}"
    ensures IndexOf(metric, '{') == |name| < |metric| - 1
    ensures metric[..|name|] == name && metric[|name| + 1..] == body + "}"
  {
    assert metric == name + ['{'] + (body + "}");
    FirstIndex(name, '{', body + "}");
  }

  lemma NamedEnds(name: string, body: string, metric: string)
    requires metric == name + "{" + body + "}"
    ensures metric[0] == (if name == "" then '{' else name[0]) && metric[|metric| - 1] == '}'
    ensures '{' in metric && '}' in metric
  {
    assert metric[|name|] == '{' && metric[|metric| - 1] == '}';
  }

  lemma BraceIsCut(body: string)
    ensures TrimSuffix(body + "}", '}') == body
  {}

  lemma TrimmedStays(s: string)
    requires Trimmed(s, IsSpace)
    ensures Trim(s, IsSpace) == s
  {}

  lemma NamedOf(front: string, rest: string, name: string, body: string, labels: Labels)
    requires Trim(front, IsSpace) == name && name != ""
    requires TrimSuffix(rest, '}') == body && Parsed("{" + body + "}") == labels
    ensures Named(front, rest) == labels[NAME := name]
  {}

  lemma NamedWithLabels(name: string, pairs: seq<Pair>, metric: string)
    requires name != "" && ReadableName(name) && Readable(pairs) && metric == name + "{" + Written(pairs) + "}"
    ensures WithLabels(metric) == FromPairs(pairs)[NAME := name]
  {
    var body := Written(pairs);
    NamedShape(name, body, metric);
    assert CutAt(metric, '{') == Some((name, body + "}"));
    TrimmedStays(name);
    BraceIsCut(body);
    WrittenIsRead(pairs);
    NamedOf(name, body + "}", name, body, FromPairs(pairs));
  }

  lemma InBraces(re: Regexp, metric: string, labels: Labels)
    requires '{' in metric && '}' in metric
    requires labels == if IsSelector(metric) then Parsed(metric) else WithLabels(metric)
    ensures ParsePattern(re, metric) == Some(PromQL(metric, labels))
  {}

  lemma UnnamedIsRead(re: Regexp, pairs: seq<Pair>, metric: string)
    requires Readable(pairs) && metric == "{" + Written(pairs) + "}"
    ensures ParsePattern(re, metric) == Some(PromQL(metric, FromPairs(pairs)))
  {
    NamedEnds("", Written(pairs), metric);
    WrittenIsRead(pairs);
    InBraces(re, metric, FromPairs(pairs));
  }

  /** The selector of a name followed by pairs in braces. */
  lemma NamedIsRead(re: Regexp, name: string, pairs: seq<Pair>, metric: string)
    requires ReadableName(name) && Readable(pairs) && metric == name + "{" + Written(pairs) + "}"
    ensures ParsePattern(re, metric) ==
      Some(PromQL(metric, if name == "" then FromPairs(pairs) else FromPairs(pairs)[NAME := name]))
  {
    if name == "" {
      assert metric == "{" + Written(pairs) + "}";
      UnnamedIsRead(re, pairs, metric);
    } else {
      NamedEnds(name, Written(pairs), metric);
      assert name[0] in name && !IsSelector(metric);
      NamedWithLabels(name, pairs, metric);
      InBraces(re, metric, FromPairs(pairs)[NAME := name]);
    }
  }

  lemma TakeOneMore(parts: seq<string>, more: seq<string>, n: nat)
    requires n < |more|
    ensures more[..n + 1] == more[..n] + [more[n]]
    ensures parts + more[..n + 1] == parts + more[..n] + [more[n]]
    ensures parts + more[..0] == parts
  {}

  // ---------------------------------------------------------------------------
  // Granting

  /** The resource with one of its patterns only. */
  function Alone(ma: MetricAccess, metric: string): MetricAccess {
    ma.(metrics := [metric])
  }

  /** All label selectors of the resource are labels of the series. */
  predicate Selected(ma: MetricAccess, labels: Labels) {
    forall k :: k in ma.labelSelectors ==> k in labels && labels[k] == ma.labelSelectors[k]
  }

  /** A resource grants what one of its patterns alone grants. */
  lemma GrantsByAnyPattern(re: Regexp, ma: MetricAccess, metricName: string, labels: Labels)
    ensures Grants(re, TenantOf(re, ma), metricName, labels) <==>
      exists metric :: metric in ma.metrics && Grants(re, TenantOf(re, Alone(ma, metric)), metricName, labels)
  {
    if Grants(re, TenantOf(re, ma), metricName, labels) {
      var p :| p in ParsePatterns(re, ma.metrics) && PatternMatches(re, p, metricName, labels);
      ParsedPatterns(re, ma.metrics, p);
      var metric :| metric in ma.metrics && ParsePattern(re, metric) == Some(p);
      ParsedPatterns(re, [metric], p);
      assert metric in [metric];
      assert Grants(re, TenantOf(re, Alone(ma, metric)), metricName, labels);
    }
    if metric :| metric in ma.metrics && Grants(re, TenantOf(re, Alone(ma, metric)), metricName, labels) {
      var p :| p in ParsePatterns(re, [metric]) && PatternMatches(re, p, metricName, labels);
      ParsedPatterns(re, [metric], p);
      ParsedPatterns(re, ma.metrics, p);
      assert p in TenantOf(re, ma).patterns;
    }
  }

  /** What one more pattern adds. */
  function Added(re: Regexp, metric: string): seq<Pattern> {
    var p := ParsePattern(re, metric);
    if p.Some? then [p.value] else []
  }

  lemma PatternsSnoc(re: Regexp, metrics: seq<string>, metric: string)
    ensures ParsePatterns(re, metrics + [metric]) == ParsePatterns(re, metrics) + Added(re, metric)
  {
    assert (metrics + [metric])[..|metrics + [metric]| - 1] == metrics;
  }

  /** Patterns keep the order of the list, without those that do not compile. */
  lemma {:induction false} PatternsFollow(re: Regexp, a: seq<string>, b: seq<string>, n: nat)
    requires n <= |b|
    ensures ParsePatterns(re, a + b[..n]) == ParsePatterns(re, a) + ParsePatterns(re, b[..n])
  {
    TakeNone(a, b);
    if n > 0 {
      PatternsFollow(re, a, b, n - 1);
      TakeOneMore(a, b, n - 1);
      PatternsSnoc(re, a + b[..n - 1], b[n - 1]);
      PatternsSnoc(re, b[..n - 1], b[n - 1]);
    }
  }

  lemma TakeNone(a: seq<string>, b: seq<string>)
    ensures b[..0] == [] && a + b[..0] == a
  {}

  lemma OnePattern(re: Regexp, ma: MetricAccess, metric: string, metricName: string, labels: Labels)
    ensures Grants(re, TenantOf(re, Alone(ma, metric)), metricName, labels) <==>
      && ParsePattern(re, metric).Some?
      && PatternMatches(re, ParsePattern(re, metric).value, metricName, labels)
      && Selected(ma, labels)
  {
    var t := TenantOf(re, Alone(ma, metric));
    assert [metric][..|[metric]| - 1] == [] && ParsePatterns(re, []) == [];
    assert t.patterns == if ParsePattern(re, metric).Some? then [ParsePattern(re, metric).value] else [];
    if ParsePattern(re, metric).Some? {
      assert t.patterns[0] in t.patterns;
    }
  }

  lemma NamedSelectorMatches(name: string, pairs: seq<Pair>, metricName: string, labels: Labels)
    requires Readable(pairs)
    ensures SelectorMatches(if name == "" then FromPairs(pairs) else FromPairs(pairs)[NAME := name], metricName, labels)
      <==>
      && (name == "" || metricName == name)
      && (forall i :: 0 <= i < |pairs| ==> pairs[i].0 in labels && labels[pairs[i].0] == pairs[i].1)
  {
    var selector := FromPairs(pairs);
    PairsAreSubMap(pairs, labels);
    NoNameAmong(pairs);
    assert selector - {NAME} == selector && selector[NAME := name] - {NAME} == selector;
  }

  /** What a pattern grants whose selector is known. */
  lemma SelectorGrants(re: Regexp, ma: MetricAccess, metric: string, selector: Labels,
                       metricName: string, labels: Labels)
    requires ParsePattern(re, metric) == Some(PromQL(metric, selector))
    ensures Grants(re, TenantOf(re, Alone(ma, metric)), metricName, labels) <==>
      SelectorMatches(selector, metricName, labels) && Selected(ma, labels)
  {
    OnePattern(re, ma, metric, metricName, labels);
  }

  /** The pattern name{k="v",...} grants exactly the series of that name, or of any name if
      it has none, that carry all of the labels, and those selected by the resource. */
  lemma NamedPatternGrants(re: Regexp, ma: MetricAccess, name: string, pairs: seq<Pair>, metric: string,
                           metricName: string, labels: Labels)
    requires ReadableName(name) && Readable(pairs) && metric == name + "{" + Written(pairs) + "}"
    ensures Grants(re, TenantOf(re, Alone(ma, metric)), metricName, labels) <==>
      && (name == "" || metricName == name)
      && (forall i :: 0 <= i < |pairs| ==> pairs[i].0 in labels && labels[pairs[i].0] == pairs[i].1)
      && Selected(ma, labels)
  {
    var selector := if name == "" then FromPairs(pairs) else FromPairs(pairs)[NAME := name];
    NamedIsRead(re, name, pairs, metric);
    SelectorGrants(re, ma, metric, selector, metricName, labels);
    NamedSelectorMatches(name, pairs, metricName, labels);
  }

  lemma PairsAreSubMap(pairs: seq<Pair>, labels: Labels)
    requires Readable(pairs)
    ensures SubMap(FromPairs(pairs), labels) <==>
      forall i :: 0 <= i < |pairs| ==> pairs[i].0 in labels && labels[pairs[i].0] == pairs[i].1
  {
    PairsOf(pairs);
    EntriesListed(pairs);
    if forall i :: 0 <= i < |pairs| ==> pairs[i].0 in labels && labels[pairs[i].0] == pairs[i].1 {
      forall k | k in FromPairs(pairs)
        ensures k in labels && labels[k] == FromPairs(pairs)[k]
      {
        var i :| 0 <= i < |pairs| && pairs[i].0 == k;
      }
    }
  }

  lemma NoNameAmong(pairs: seq<Pair>)
    requires Readable(pairs)
    ensures NAME !in FromPairs(pairs)
  {
    EntriesListed(pairs);
    forall k | k in FromPairs(pairs)
      ensures k != NAME
    {
      var i :| 0 <= i < |pairs| && pairs[i].0 == k;
      assert ReadableKey(pairs[i].0);
    }
  }

  // ---------------------------------------------------------------------------
  // Names and regular expressions

  /** Without any character that a regular expression gives a meaning, a pattern grants
      exactly the metric of that name. */
  lemma NameGrantsItself(re: Regexp, ma: MetricAccess, metric: string, metricName: string, labels: Labels)
    requires forall i :: 0 <= i < |metric| ==> metric[i] !in ".*+?^$[](){}|\\"
    ensures Grants(re, TenantOf(re, Alone(ma, metric)), metricName, labels) <==>
      metricName == metric && Selected(ma, labels)
  {
    OnePattern(re, ma, metric, metricName, labels);
    assert '{' in ".*+?^$[](){}|\\" by {
      assert ".*+?^$[](){}|\\"[10] == '{';
    }
    assert '{' !in metric;
  }

  /** With one, but without a pair of braces, it is a regular expression: it grants the
      metrics whose names match, and none if it does not compile. */
  lemma RegexGrantsMatches(re: Regexp, ma: MetricAccess, metric: string, metricName: string, labels: Labels)
    requires exists i :: 0 <= i < |metric| && metric[i] in ".*+?^$[](){}|\\"
    requires '{' !in metric || '}' !in metric
    ensures Grants(re, TenantOf(re, Alone(ma, metric)), metricName, labels) <==>
      re.compiles(metric) && re.matches(metric, metricName) && Selected(ma, labels)
  {
    OnePattern(re, ma, metric, metricName, labels);
    SelectorHasBraces(metric);
  }

  lemma SelectorHasBraces(metric: string)
    ensures IsSelector(metric) ==> '{' in metric && '}' in metric
  {
    if IsSelector(metric) {
      assert metric[0] == '{' && metric[|metric| - 1] == '}';
    }
  }

  // ---------------------------------------------------------------------------
  // What the parser makes of other text

  predicate AllIn(s: string, cut: char -> bool) {
    forall i :: 0 <= i < |s| ==> cut(s[i])
  }

  lemma {:induction false} TrimFront(a: string, s: string, cut: char -> bool)
    requires AllIn(a, cut)
    ensures Trim(a + s, cut) == Trim(s, cut)
  {
    if a == "" {
      assert a + s == s;
    } else {
      assert (a + s)[0] == a[0] && (a + s)[1..] == a[1..] + s;
      TrimFront(a[1..], s, cut);
    }
  }

  lemma {:induction false} TrimBack(s: string, b: string, cut: char -> bool)
    requires AllIn(b, cut) && s != "" && !cut(s[0])
    ensures Trim(s + b, cut) == Trim(s, cut)
    decreases |b|
  {
    if b == "" {
      assert s + b == s;
    } else {
      assert (s + b)[..|s + b| - 1] == s + b[..|b| - 1];
      TrimBack(s, b[..|b| - 1], cut);
    }
  }

  lemma TrimAround(a: string, s: string, b: string, cut: char -> bool)
    requires AllIn(a, cut) && AllIn(b, cut) && Trimmed(s, cut)
    ensures Trim(a + s + b, cut) == s
  {
    assert a + s + b == a + (s + b);
    TrimFront(a, s + b, cut);
    if s == "" {
      assert s + b == b + "";
      TrimFront(b, "", cut);
    } else {
      TrimBack(s, b, cut);
    }
  }

  lemma KeyMeans(k: string, b: string)
    requires AllIn(b, IsSpace) && Trimmed(k, IsSpace)
    ensures Trim(k + b, IsSpace) == k
  {
    if k == "" {
      assert k + b == b && b == b + "";
      TrimFront(b, "", IsSpace);
    } else {
      TrimBack(k, b, IsSpace);
    }
  }

  lemma ValueMeans(c: string, q: string, v: string, r: string)
    requires AllIn(c, IsSpace) && AllIn(q, IsQuote) && AllIn(r, IsQuote) && q != "" && r != "" && Trimmed(v, IsQuote)
    ensures Trim(Trim(c + (q + v + r), IsSpace), IsQuote) == v
    ensures !IsSpace((c + (q + v + r))[|c + (q + v + r)| - 1])
  {
    var quoted := q + v + r;
    assert quoted[0] == q[0] && quoted[|quoted| - 1] == r[|r| - 1];
    QuoteIsNoSpace(q[0]);
    QuoteIsNoSpace(r[|r| - 1]);
    TrimFront(c, quoted, IsSpace);
    TrimAround(q, v, r, IsQuote);
  }

  /** Spaces around the key and the value, and quotes of either kind around the value, are
      not part of them. */
  lemma PartMeans(a: string, k: string, b: string, c: string, q: string, v: string, r: string, d: string, part: string)
    requires AllIn(a, IsSpace) && AllIn(b, IsSpace) && AllIn(c, IsSpace) && AllIn(d, IsSpace)
    requires AllIn(q, IsQuote) && AllIn(r, IsQuote) && q != "" && r != ""
    requires '=' !in k && Trimmed(k, IsSpace) && Trimmed(v, IsQuote)
    requires part == a + (k + b) + "=" + (c + (q + v + r)) + d
    ensures ParsePart(part) == Some((k, v))
  {
    ValueMeans(c, q, v, r);
    PartSplits(a, k, b, c + (q + v + r), d, part);
  }

  lemma CoreSplits(key: string, value: string, core: string)
    requires '=' !in key && value != "" && core == key + "=" + value
    ensures IndexOf(core, '=') == |key| < |core| && core[..|key|] == key && core[|key| + 1..] == value
  {
    assert core == key + ['='] + value;
    FirstIndex(key, '=', value);
  }

  lemma CoreTrims(a: string, core: string, d: string, part: string)
    requires AllIn(a, IsSpace) && AllIn(d, IsSpace) && part == a + core + d
    requires core != "" && !IsSpace(core[0]) && !IsSpace(core[|core| - 1])
    ensures Trim(part, IsSpace) == core
  {
    TrimAround(a, core, d, IsSpace);
  }

  lemma Regroup(a: string, b: string, value: string, d: string)
    ensures a + ("" + b) + "=" + value + d == (a + b) + ("=" + value) + d
  {
    assert "" + b == b;
  }

  /** The trimmed part is cut at its first equals sign. */
  lemma CutPart(part: string, core: string, key: string, value: string)
    requires Trim(part, IsSpace) == core
    requires IndexOf(core, '=') == |key| < |core| && core[..|key|] == key && core[|key| + 1..] == value
    ensures ParsePart(part) == Some((Trim(key, IsSpace), Trim(Trim(value, IsSpace), IsQuote)))
  {}

  lemma PartSplits(a: string, k: string, b: string, value: string, d: string, part: string)
    requires AllIn(a, IsSpace) && AllIn(b, IsSpace) && AllIn(d, IsSpace)
    requires '=' !in k && Trimmed(k, IsSpace) && value != "" && !IsSpace(value[|value| - 1])
    requires part == a + (k + b) + "=" + value + d
    ensures ParsePart(part) == Some((k, Trim(Trim(value, IsSpace), IsQuote)))
  {
    if k == "" {
      Regroup(a, b, value, d);
      BlankKey(a + b, value, "=" + value, d, part);
    } else {
      NoEqualsIn(b);
      KeyMeans(k, b);
      KeyedPart(a, k + b, value, d, part);
    }
  }

  lemma NoEqualsIn(b: string)
    requires AllIn(b, IsSpace)
    ensures '=' !in b
  {}

  lemma KeyedCore(a: string, key: string, value: string, d: string, part: string) returns (core: string)
    requires key != "" && value != "" && part == a + key + "=" + value + d
    ensures core == key + "=" + value && part == a + core + d
    ensures core != "" && core[0] == key[0] && core[|core| - 1] == value[|value| - 1]
  {
    core := key + "=" + value;
  }

  lemma KeyedPart(a: string, key: string, value: string, d: string, part: string)
    requires AllIn(a, IsSpace) && AllIn(d, IsSpace) && value != "" && !IsSpace(value[|value| - 1])
    requires key != "" && !IsSpace(key[0]) && '=' !in key && part == a + key + "=" + value + d
    ensures ParsePart(part) == Some((Trim(key, IsSpace), Trim(Trim(value, IsSpace), IsQuote)))
  {
    var core := KeyedCore(a, key, value, d, part);
    CoreTrims(a, core, d, part);
    CoreSplits(key, value, core);
    CutPart(part, core, key, value);
  }

  lemma EqualsFirst(value: string, core: string)
    requires value != "" && core == "=" + value
    ensures IndexOf(core, '=') == 0 && core[..0] == "" && core[1..] == value
    ensures |core| > 1 && core[0] == '=' && core[|core| - 1] == value[|value| - 1]
  {}

  lemma BlankCore(part: string, core: string, value: string)
    requires Trim(part, IsSpace) == core && core[..0] == "" && IndexOf(core, '=') == 0 < |core| && core[1..] == value
    ensures ParsePart(part) == Some(("", Trim(Trim(value, IsSpace), IsQuote)))
  {
    CutPart(part, core, "", value);
  }

  lemma BlankKey(a: string, value: string, core: string, d: string, part: string)
    requires AllIn(a, IsSpace) && AllIn(d, IsSpace) && value != "" && !IsSpace(value[|value| - 1])
    requires core == "=" + value && part == a + core + d
    ensures ParsePart(part) == Some(("", Trim(Trim(value, IsSpace), IsQuote)))
  {
    EqualsFirst(value, core);
    CoreTrims(a, core, d, part);
    BlankCore(part, core, value);
  }

  /** A part without an equals sign, blank ones included, says nothing. */
  lemma PartWithoutEquals(part: string)
    requires '=' !in part
    ensures ParsePart(part) == None
  {
    TrimIsTrimmed(part, IsSpace);
  }

  // ---------------------------------------------------------------------------
  // Matching operators

  lemma BareIsTrimmed(k: string, value: string, part: string)
    requires Trimmed(k, IsSpace) && value != "" && !IsSpace(value[|value| - 1]) && part == k + "=" + value
    ensures Trimmed(part, IsSpace)
  {
    assert part[0] == (if k == "" then '=' else k[0]) && part[|part| - 1] == value[|value| - 1];
  }

  /** A part without spaces around its key. */
  lemma BarePart(k: string, value: string, part: string)
    requires '=' !in k && Trimmed(k, IsSpace) && value != "" && !IsSpace(value[|value| - 1])
    requires part == k + "=" + value
    ensures ParsePart(part) == Some((k, Trim(Trim(value, IsSpace), IsQuote)))
  {
    BareIsTrimmed(k, value, part);
    CoreSplits(k, value, part);
    TrimmedStays(part);
    TrimmedStays(k);
    CutPart(part, part, k, value);
  }

  lemma TildeQuoted(v: string, value: string)
    requires v != "" && !IsQuote(v[|v| - 1]) && value == "~\"" + v + "\""
    ensures !IsSpace(value[|value| - 1])
    ensures Trim(Trim(value, IsSpace), IsQuote) == "~\"" + v
  {
    var text := "~\"" + v;
    assert value[0] == '~' && value[|value| - 1] == '"' && text[0] == '~' && text[|text| - 1] == v[|v| - 1];
    TrimBack(text, "\"", IsQuote);
  }

  /** The parser knows the equals sign only: of k=~"v" it makes the value ~"v. */
  lemma OperatorIsReadAsText(k: string, v: string, value: string, part: string)
    requires '=' !in k && Trimmed(k, IsSpace) && v != "" && !IsQuote(v[|v| - 1])
    requires value == "~\"" + v + "\"" && part == k + "=" + value
    ensures ParsePart(part) == Some((k, "~\"" + v))
  {
    TildeQuoted(v, value);
    BarePart(k, value, part);
  }

  /** Some pairs, one more part, and more pairs. */
  function Around(pairs: seq<Pair>, part: string, more: seq<Pair>): seq<string> {
    Items(pairs) + [part] + Items(more)
  }

  predicate IsPart(part: string) {
    part != "" && !IsBrace(part[0]) && !IsBrace(part[|part| - 1]) && ',' !in part
  }

  lemma ItemIsPart(p: Pair)
    requires ReadableKey(p.0) && ReadableValue(p.1)
    ensures IsPart(Item(p))
  {
    ReadableIsPlain(p);
    ItemParses(p);
    assert Item(p)[0] == (if p.0 == "" then '=' else p.0[0]) && Item(p)[|Item(p)| - 1] == '"';
  }

  lemma PartsAround(pairs: seq<Pair>, part: string, more: seq<Pair>)
    requires Readable(pairs) && Readable(more) && IsPart(part)
    ensures forall i :: 0 <= i < |Around(pairs, part, more)| ==> IsPart(Around(pairs, part, more)[i])
  {
    forall i | 0 <= i < |pairs|
      ensures IsPart(Items(pairs)[i])
    {
      ItemIsPart(pairs[i]);
    }
    forall i | 0 <= i < |more|
      ensures IsPart(Items(more)[i])
    {
      ItemIsPart(more[i]);
    }
  }

  lemma PartsAreSplit(parts: seq<string>)
    requires parts != [] && forall i :: 0 <= i < |parts| ==> IsPart(parts[i])
    ensures Trimmed(Join(parts, ","), IsBrace) && SplitAt(Join(parts, ","), ',') == parts
  {
    JoinEnds(parts);
    SplitUndoesJoin(parts, ',');
    assert [','] == ",";
  }

  /** The entries one part adds. */
  function Entry(part: string): Labels {
    var p := ParsePart(part);
    if p.Some? then map[p.value.0 := p.value.1] else map[]
  }

  lemma OnePartMore(parts: seq<string>, part: string)
    ensures ParseParts(parts + [part]) == ParseParts(parts) + Entry(part)
  {
    assert (parts + [part])[..|parts + [part]| - 1] == parts;
  }

  lemma MergeOneMore(a: Labels, b: Labels, ab: Labels, e: Labels)
    requires ab == a + b
    ensures ab + e == a + (b + e)
  {}

  lemma OneMoreMerged(parts: seq<string>, init: seq<string>, part: string)
    requires ParseParts(parts + init) == ParseParts(parts) + ParseParts(init)
    ensures ParseParts(parts + init + [part]) == ParseParts(parts) + ParseParts(init + [part])
  {
    OnePartMore(parts + init, part);
    OnePartMore(init, part);
    MergeOneMore(ParseParts(parts), ParseParts(init), ParseParts(parts + init), Entry(part));
  }

  /** Later parts overwrite earlier ones. */
  lemma {:induction false} PartsMerge(parts: seq<string>, more: seq<string>, n: nat)
    requires n <= |more|
    ensures ParseParts(parts + more[..n]) == ParseParts(parts) + ParseParts(more[..n])
  {
    if n == 0 {
      assert parts + more[..n] == parts;
    } else {
      PartsMerge(parts, more, n - 1);
      TakeOneMore(parts, more, n - 1);
      OneMoreMerged(parts, more[..n - 1], more[n - 1]);
    }
  }

  lemma NameIsSet(pairs: seq<Pair>, part: string, more: seq<Pair>)
    requires Readable(more) && ParsePart(part).Some? && ParsePart(part).value.0 == NAME
    ensures NAME in ParseParts(Around(pairs, part, more))
    ensures ParseParts(Around(pairs, part, more))[NAME] == ParsePart(part).value.1
  {
    OnePartMore(Items(pairs), part);
    PartsMerge(Items(pairs) + [part], Items(more), |more|);
    assert Items(more)[..|more|] == Items(more);
    ItemsAreParts(more);
    ItemsParse(more);
    NoNameAmong(more);
  }

  lemma Braced(body: string, metric: string)
    requires Trimmed(body, IsBrace) && metric == "{" + body + "}"
    ensures IsSelector(metric) && Trim(metric, IsBrace) == body
  {
    TrimUnwraps('{', body, '}', IsBrace);
    assert ['{'] + body + ['}'] == metric;
  }

  lemma BracedIsRead(re: Regexp, body: string, metric: string, parts: seq<string>)
    requires IsSelector(metric) && Trim(metric, IsBrace) == body && SplitAt(body, ',') == parts
    ensures ParsePattern(re, metric) == Some(PromQL(metric, ParseParts(parts)))
  {}

  lemma NameOperatorPart(v: string, value: string, part: string)
    requires v != "" && ',' !in v && value == "~\"" + v + "\"" && part == "__name__" + "=" + value
    ensures IsPart(part)
  {
    assert part[0] == '_' && part[|part| - 1] == '"';
  }

  /** A selector with a part that sets the name grants metrics of that name only. */
  lemma NameGrantsOnly(re: Regexp, ma: MetricAccess, parts: seq<string>, body: string, metric: string,
                       name: string, metricName: string, labels: Labels)
    requires parts != [] && forall i :: 0 <= i < |parts| ==> IsPart(parts[i])
    requires body == Join(parts, ",") && metric == "{" + body + "}"
    requires NAME in ParseParts(parts) && ParseParts(parts)[NAME] == name
    ensures Grants(re, TenantOf(re, Alone(ma, metric)), metricName, labels) ==> metricName == name
  {
    PartsAreSplit(parts);
    Braced(body, metric);
    BracedIsRead(re, body, metric, parts);
    SelectorGrants(re, ma, metric, ParseParts(parts), metricName, labels);
  }

  /** So a selector with __name__=~"v" among its parts grants only metrics that are called
      ~"v, whatever v matches: none that Prometheus accepts. */
  lemma NameOperatorGrantsNothing(re: Regexp, ma: MetricAccess, pairs: seq<Pair>, v: string, value: string,
                                  part: string, more: seq<Pair>, body: string, metric: string,
                                  metricName: string, labels: Labels)
    requires Readable(pairs) && Readable(more) && v != "" && !IsQuote(v[|v| - 1]) && ',' !in v
    requires value == "~\"" + v + "\"" && part == "__name__" + "=" + value
    requires body == Join(Items(pairs) + [part] + Items(more), ",") && metric == "{" + body + "}"
    ensures Grants(re, TenantOf(re, Alone(ma, metric)), metricName, labels) ==> metricName == "~\"" + v
  {
    OperatorIsReadAsText("__name__", v, value, part);
    NameOperatorPart(v, value, part);
    PartsAround(pairs, part, more);
    NameIsSet(pairs, part, more);
    NameGrantsOnly(re, ma, Around(pairs, part, more), body, metric, "~\"" + v, metricName, labels);
  }

  // ---------------------------------------------------------------------------
  // Entries

  /** What a tenant's entry holds, apart from the parsed patterns. */
  lemma EntryIsResource(re: Regexp, ma: MetricAccess)
    ensures var t := TenantOf(re, ma);
      && t.id == ma.namespace + "/" + ma.name
      && t.name == ma.name && t.namespace == ma.namespace
      && t.labelSelectors == ma.labelSelectors
  {}

  /** Updates leave the entries of tenants alone whose resources are not among them. */
  lemma {:induction false} OtherEntriesStay(re: Regexp, tenants: map<Key, Tenant>, items: seq<MetricAccess>, id: Key)
    requires forall i :: 0 <= i < |items| ==> items[i].namespace + "/" + items[i].name != id
    ensures var after := AfterUpdates(re, tenants, items);
      (id in after <==> id in tenants) && (id in tenants ==> after[id] == tenants[id])
  {
    if items != [] {
      OtherEntriesStay(re, tenants, items[..|items| - 1], id);
    }
  }

  /** A list that arrives follows the earlier ones; one that fails adds nothing. */
  lemma ListsFollow(lists: seq<Option<seq<MetricAccess>>>, items: seq<MetricAccess>)
    ensures Listed(lists + [Some(items)]) == Listed(lists) + items
    ensures Listed(lists + [None]) == Listed(lists)
  {
    assert (lists + [Some(items)])[..|lists|] == lists;
    assert (lists + [None])[..|lists|] == lists;
  }
}
