/** Selectors: what the collector prints and the tenant manager parses. */
module Selector {
  import opened MetricApi
  import opened Text

  type Pair = (string, string)

  // ---------------------------------------------------------------------------
  // Printing

  /** k="v" */
  function Item(p: Pair): string {
    p.0 + "=" + Quoted(p.1)
  }

  function Quoted(v: string): string {
    ['"'] + v + ['"']
  }

  function Items(pairs: seq<Pair>): seq<string> {
    seq(|pairs|, i requires 0 <= i < |pairs| => Item(pairs[i]))
  }

  /** The query for a metric name with label selectors. */
  function Printed(name: string, pairs: seq<Pair>): string {
    "{" + Join(Items([(NAME, name)] + pairs), ",") + "}"
  }

  /** The map that writing the pairs one after the other yields. */
  function FromPairs(pairs: seq<Pair>): Labels {
    if pairs == [] then map[]
    else FromPairs(pairs[..|pairs| - 1])[pairs[|pairs| - 1].0 := pairs[|pairs| - 1].1]
  }

  /** pairs lists the entries of m, each key once, in some order. */
  ghost predicate Enumerates(pairs: seq<Pair>, m: Labels) {
    FromPairs(pairs) == m && forall i, j :: 0 <= i < j < |pairs| ==> pairs[i].0 != pairs[j].0
  }

  predicate IsSelector(pattern: string) {
    pattern != "" && pattern[0] == '{' && pattern[|pattern| - 1] == '}'
  }

  lemma FromPairsSnoc(pairs: seq<Pair>, p: Pair)
    ensures FromPairs(pairs + [p]) == FromPairs(pairs)[p.0 := p.1]
  {}

  /** listed has the entries of m whose keys are not pending, each once. */
  ghost predicate Listing(listed: seq<Pair>, m: Labels, pending: set<string>) {
    && pending <= m.Keys
    && FromPairs(listed) == m - pending
    && (forall i :: 0 <= i < |listed| ==> listed[i].0 !in pending)
    && (forall i, j :: 0 <= i < j < |listed| ==> listed[i].0 != listed[j].0)
  }

  lemma ListingSnoc(listed: seq<Pair>, m: Labels, pending: set<string>, k: string)
    requires Listing(listed, m, pending) && k in pending
    ensures Listing(listed + [(k, m[k])], m, pending - {k})
  {
    FromPairsSnoc(listed, (k, m[k]));
    assert m - (pending - {k}) == (m - pending)[k := m[k]];
  }

  /** Ranges over a map, in any order. */
  method ListPairs(m: Labels) returns (listed: seq<Pair>)
    ensures Enumerates(listed, m)
  {
    listed := [];
    var pending := m.Keys;
    while pending != {}
      invariant Listing(listed, m, pending)
      decreases |pending|
    {
      var k :| k in pending;
      ListingSnoc(listed, m, pending, k);
      pending := pending - {k};
      listed := listed + [(k, m[k])];
    }
    assert m - {} == m;
  }

  ghost predicate IsQueryFor(query: string, pattern: string, labelSelectors: Labels) {
    if IsSelector(pattern) || labelSelectors == map[] then query == pattern
    else exists pairs :: Enumerates(pairs, labelSelectors) && query == Printed(pattern, pairs)
  }

  /** The query for a pattern: a selector as it is, a name with the label selectors, if
      any, in the order in which the map is ranged over. */
  method QueryPattern(pattern: string, labelSelectors: Labels) returns (query: string)
    ensures IsQueryFor(query, pattern, labelSelectors)
  {
    query := pattern;
    if !IsSelector(pattern) && |labelSelectors| > 0 {
      var pairs := ListPairs(labelSelectors);
      query := Printed(pattern, pairs);
    }
  }

  // ---------------------------------------------------------------------------
  // Parsing

  /** One part of a selector: nothing without an equals sign, else the trimmed key and the
      value without quotes. */
  function ParsePart(part: string): Option<Pair> {
    var p := Trim(part, IsSpace);
    var i := IndexOf(p, '=');
    if i == |p| then None
    else Some((Trim(p[..i], IsSpace), Trim(Trim(p[i + 1..], IsSpace), IsQuote)))
  }

  /** Later parts overwrite earlier ones. */
  function ParseParts(parts: seq<string>): Labels {
    if parts == [] then map[]
    else
      var labels, p := ParseParts(parts[..|parts| - 1]), ParsePart(parts[|parts| - 1]);
      if p.Some? then labels[p.value.0 := p.value.1] else labels
  }

  function Parsed(selector: string): Labels {
    ParseParts(SplitAt(Trim(selector, IsBrace), ','))
  }

  lemma ParsePartsSnoc(parts: seq<string>, n: nat)
    requires n < |parts|
    ensures var labels, p := ParseParts(parts[..n]), ParsePart(parts[n]);
      ParseParts(parts[..n + 1]) == if p.Some? then labels[p.value.0 := p.value.1] else labels
  {
    assert parts[..n + 1][..n] == parts[..n];
  }

  method ParsePromQLSelector(selector: string) returns (labels: Labels)
    ensures labels == Parsed(selector)
  {
    var inner := Trim(selector, IsBrace);
    labels := map[];
    var parts := SplitAt(inner, ',');
    for n := 0 to |parts|
      invariant labels == ParseParts(parts[..n])
    {
      ParsePartsSnoc(parts, n);
      var part := Trim(parts[n], IsSpace);
      if part == "" {
        continue;
      }
      if '=' in part {
        var i := IndexOf(part, '=');
        var key := Trim(part[..i], IsSpace);
        var value := Trim(Trim(part[i + 1..], IsSpace), IsQuote);
        labels := labels[key := value];
      }
    }
    assert parts[..|parts|] == parts;
  }

  // ---------------------------------------------------------------------------
  // The round trip

  /** Values that survive printing and parsing. */
  predicate PlainValue(v: string) {
    ',' !in v && Trimmed(v, IsQuote)
  }

  /** Keys that survive printing and parsing. */
  predicate PlainKey(k: string) {
    ',' !in k && '=' !in k && Trimmed(k, IsSpace)
  }

  predicate Plain(p: Pair) {
    PlainKey(p.0) && PlainValue(p.1)
  }

  lemma QuoteIsNoSpace(c: char)
    requires IsQuote(c)
    ensures !IsSpace(c)
  {}

  lemma ItemIsTrimmed(p: Pair)
    requires Plain(p)
    ensures Trim(Item(p), IsSpace) == Item(p)
  {
    var item := Item(p);
    QuoteIsNoSpace('"');
    assert item[|item| - 1] == '"';
    assert item[0] == if p.0 == "" then '=' else p.0[0];
  }

  lemma ItemSplits(p: Pair)
    requires Plain(p)
    ensures IndexOf(Item(p), '=') == |p.0| < |Item(p)|
    ensures Item(p)[..|p.0|] == p.0 && Item(p)[|p.0| + 1..] == Quoted(p.1)
  {
    assert Item(p) == p.0 + ['='] + Quoted(p.1);
    FirstIndex(p.0, '=', Quoted(p.1));
  }

  lemma QuotedTrims(v: string)
    requires PlainValue(v)
    ensures Trim(Trim(Quoted(v), IsSpace), IsQuote) == v
  {
    assert Trim(Quoted(v), IsSpace) == Quoted(v);
    TrimUnwraps('"', v, '"', IsQuote);
  }

  /** A printed plain item parses back. */
  lemma ItemParses(p: Pair)
    requires Plain(p)
    ensures ParsePart(Item(p)) == Some(p) && ',' !in Item(p)
  {
    ItemIsTrimmed(p);
    ItemSplits(p);
    QuotedTrims(p.1);
    assert Trim(p.0, IsSpace) == p.0;
  }

  lemma {:induction false} ItemsParse(pairs: seq<Pair>)
    requires forall i :: 0 <= i < |pairs| ==> Plain(pairs[i])
    ensures ParseParts(Items(pairs)) == FromPairs(pairs)
  {
    if pairs != [] {
      var n := |pairs| - 1;
      ItemsParse(pairs[..n]);
      assert Items(pairs)[..n] == Items(pairs[..n]);
      ItemParses(pairs[n]);
    }
  }

  lemma {:induction false} JoinEnds(parts: seq<string>)
    requires parts != [] && parts[0] != "" && parts[|parts| - 1] != ""
    ensures var s := Join(parts, ",");
      s != "" && s[0] == parts[0][0] && s[|s| - 1] == parts[|parts| - 1][|parts[|parts| - 1]| - 1]
  {
    if |parts| > 1 {
      var rest := Join(parts[1..], ",");
      if |parts| == 2 {
        assert parts[1..][0] == parts[1];
      }
      JoinLast(parts[1..]);
    }
  }

  lemma {:induction false} JoinLast(parts: seq<string>)
    requires parts != [] && parts[|parts| - 1] != ""
    ensures var s := Join(parts, ",");
      s != "" && s[|s| - 1] == parts[|parts| - 1][|parts[|parts| - 1]| - 1]
  {
    if |parts| > 1 {
      JoinLast(parts[1..]);
    }
  }

  /** The outer braces, and only they, are trimmed from a printed query. */
  lemma PrintedTrims(name: string, pairs: seq<Pair>)
    ensures Trim(Printed(name, pairs), IsBrace) == Join(Items([(NAME, name)] + pairs), ",")
  {
    var all := [(NAME, name)] + pairs;
    var items := Items(all);
    var body := Join(items, ",");
    assert items[0] == Item((NAME, name)) && items[0][0] == '_';
    var last := Item(all[|all| - 1]);
    assert items[|items| - 1] == last && last[|last| - 1] == '"';
    JoinEnds(items);
    TrimUnwraps('{', body, '}', IsBrace);
  }

  /** Printing and parsing plain text gives back the labels over the name. */
  lemma RoundTrip(name: string, pairs: seq<Pair>, labels: Labels)
    requires Enumerates(pairs, labels)
    requires PlainValue(name) && forall k :: k in labels ==> Plain((k, labels[k]))
    ensures Parsed(Printed(name, pairs)) == map[NAME := name] + labels
  {
    var all := [(NAME, name)] + pairs;
    PairsOf(pairs);
    assert PlainKey(NAME);
    forall i | 0 <= i < |all|
      ensures Plain(all[i]) && ',' !in Items(all)[i]
    {
      ItemParses(all[i]);
    }
    PrintedTrims(name, pairs);
    SplitUndoesJoin(Items(all), ',');
    ItemsParse(all);
    FromPairsCons((NAME, name), pairs);
  }

  lemma {:induction false} FromPairsCons(p: Pair, pairs: seq<Pair>)
    ensures FromPairs([p] + pairs) == map[p.0 := p.1] + FromPairs(pairs)
  {
    var all := [p] + pairs;
    if pairs == [] {
      assert all[..0] == [];
    } else {
      FromPairsCons(p, pairs[..|pairs| - 1]);
      assert all[..|all| - 1] == [p] + pairs[..|pairs| - 1];
    }
  }

  /** With distinct keys, every pair is an entry of the map. */
  lemma {:induction false} PairsOf(pairs: seq<Pair>)
    requires forall i, j :: 0 <= i < j < |pairs| ==> pairs[i].0 != pairs[j].0
    ensures forall i :: 0 <= i < |pairs| ==>
      pairs[i].0 in FromPairs(pairs) && FromPairs(pairs)[pairs[i].0] == pairs[i].1
  {
    if pairs != [] {
      PairsOf(pairs[..|pairs| - 1]);
    }
  }

  /** Every entry of the map is a pair. */
  lemma {:induction false} EntriesListed(pairs: seq<Pair>)
    ensures forall k :: k in FromPairs(pairs) ==> exists i :: 0 <= i < |pairs| && pairs[i].0 == k
  {
    if pairs != [] {
      var init := pairs[..|pairs| - 1];
      EntriesListed(init);
      forall k | k in FromPairs(pairs)
        ensures exists i :: 0 <= i < |pairs| && pairs[i].0 == k
      {
        if k in FromPairs(init) {
          var i :| 0 <= i < |init| && init[i].0 == k;
          assert pairs[i].0 == k;
        } else {
          assert pairs[|pairs| - 1].0 == k;
        }
      }
    }
  }

  /** Whatever is parsed, its keys and values are plain. */
  lemma {:induction false} ParsedIsPlain(parts: seq<string>)
    requires forall i :: 0 <= i < |parts| ==> ',' !in parts[i]
    ensures forall k :: k in ParseParts(parts) ==> Plain((k, ParseParts(parts)[k]))
  {
    if parts != [] {
      var init, part := parts[..|parts| - 1], parts[|parts| - 1];
      ParsedIsPlain(init);
      PartIsPlain(part);
      forall k | k in ParseParts(parts)
        ensures Plain((k, ParseParts(parts)[k]))
      {
        assert k in ParseParts(init) || (ParsePart(part).Some? && k == ParsePart(part).value.0);
      }
    }
  }

  lemma PartIsPlain(part: string)
    requires ',' !in part
    ensures ParsePart(part).Some? ==> Plain(ParsePart(part).value)
  {
    var p := Trim(part, IsSpace);
    TrimIsTrimmed(part, IsSpace);
    var i := IndexOf(p, '=');
    if i < |p| {
      TrimmedKeyIsPlain(p[..i]);
      TrimmedValueIsPlain(p[i + 1..]);
    }
  }

  lemma TrimmedKeyIsPlain(k: string)
    requires ',' !in k && '=' !in k
    ensures PlainKey(Trim(k, IsSpace))
  {
    TrimIsTrimmed(k, IsSpace);
  }

  lemma TrimmedValueIsPlain(v: string)
    requires ',' !in v
    ensures PlainValue(Trim(Trim(v, IsSpace), IsQuote))
  {
    TrimIsTrimmed(v, IsSpace);
    TrimIsTrimmed(Trim(v, IsSpace), IsQuote);
  }

  /** The round trip works exactly for plain text: the name and values have no comma and no
      quote at an end, the keys no comma, no equals sign and no space at an end. */
  lemma RoundTripIff(name: string, pairs: seq<Pair>, labels: Labels)
    requires Enumerates(pairs, labels) && NAME !in labels
    ensures Parsed(Printed(name, pairs)) == map[NAME := name] + labels
      <==> PlainValue(name) && forall k :: k in labels ==> Plain((k, labels[k]))
  {
    var expected := map[NAME := name] + labels;
    var parsed := Parsed(Printed(name, pairs));
    if parsed == expected {
      var parts := SplitAt(Trim(Printed(name, pairs), IsBrace), ',');
      ParsedIsPlain(parts);
      assert Plain((NAME, expected[NAME])) by {
        assert NAME in parsed;
      }
      forall k | k in labels
        ensures Plain((k, labels[k]))
      {
        assert k in parsed && parsed[k] == labels[k];
      }
    }
    if PlainValue(name) && forall k :: k in labels ==> Plain((k, labels[k])) {
      RoundTrip(name, pairs, labels);
    }
  }
}
