/** The string functions the selector parser uses. */
module Text {
  /** White space as unicode.IsSpace defines it. */
  predicate IsSpace(c: char) {
    || '\t' <= c <= '\r' || c == ' ' || c == '\U{85}' || c == '\U{A0}' || c == '\U{1680}'
    || '\U{2000}' <= c <= '\U{200A}' || c == '\U{2028}' || c == '\U{2029}'
    || c == '\U{202F}' || c == '\U{205F}' || c == '\U{3000}'
  }

  /** The code points of white space. */
  lemma SpaceCodes(c: char)
    ensures IsSpace(c) <==> var n := c as int;
      || 9 <= n <= 13 || n == 32 || n == 0x85 || n == 0xA0 || n == 0x1680 || 0x2000 <= n <= 0x200A
      || n == 0x2028 || n == 0x2029 || n == 0x202F || n == 0x205F || n == 0x3000
  {}

  predicate IsBrace(c: char) {
    c == '{' || c == '}'
  }

  predicate IsQuote(c: char) {
    c == '"' || c == '\''
  }

  /** Removes characters of a class from both ends. */
  function Trim(s: string, cut: char -> bool): string {
    if s == "" then ""
    else if cut(s[0]) then Trim(s[1..], cut)
    else if cut(s[|s| - 1]) then Trim(s[..|s| - 1], cut)
    else s
  }

  /** The position of the first occurrence of a character, or the length. */
  function IndexOf(s: string, c: char): (i: nat)
    ensures i <= |s| && c !in s[..i]
    ensures i < |s| ==> s[i] == c
    ensures i == |s| <==> c !in s
  {
    if s == "" then 0 else if s[0] == c then 0 else
      var i := IndexOf(s[1..], c) + 1;
      assert s[..i] == [s[0]] + s[1..][..i - 1];
      i
  }

  /** Splits at every occurrence of a separator; there is always at least one part. */
  function SplitAt(s: string, separator: char): (parts: seq<string>)
    ensures parts != []
    ensures forall p :: p in parts ==> separator !in p
    decreases |s|
  {
    var i := IndexOf(s, separator);
    if i == |s| then [s] else [s[..i]] + SplitAt(s[i + 1..], separator)
  }

  function Join(parts: seq<string>, separator: string): string {
    if parts == [] then ""
    else if |parts| == 1 then parts[0]
    else parts[0] + separator + Join(parts[1..], separator)
  }

  /** Joining puts the separator before each further part. */
  lemma {:induction false} JoinSnoc(parts: seq<string>, part: string, separator: string)
    ensures Join([], separator) == "" && Join([part], separator) == part
    ensures parts != [] ==> Join(parts + [part], separator) == Join(parts, separator) + separator + part
    decreases |parts|
  {
    if |parts| > 1 {
      JoinSnoc(parts[1..], part, separator);
      assert (parts + [part])[1..] == parts[1..] + [part];
    } else if |parts| == 1 {
      assert (parts + [part])[1..] == [part];
    }
  }

  lemma {:induction false} FirstIndex(a: string, c: char, b: string)
    requires c !in a
    ensures IndexOf(a + [c] + b, c) == |a|
  {
    if a != "" {
      FirstIndex(a[1..], c, b);
      assert (a + [c] + b)[1..] == a[1..] + [c] + b;
    }
  }

  /** Splitting undoes joining parts that do not contain the separator. */
  lemma {:induction false} SplitUndoesJoin(parts: seq<string>, separator: char)
    requires parts != [] && forall i :: 0 <= i < |parts| ==> separator !in parts[i]
    ensures SplitAt(Join(parts, [separator]), separator) == parts
  {
    if |parts| > 1 {
      var rest := Join(parts[1..], [separator]);
      SplitUndoesJoin(parts[1..], separator);
      FirstIndex(parts[0], separator, rest);
      var s := parts[0] + [separator] + rest;
      assert s[..|parts[0]|] == parts[0] && s[|parts[0]| + 1..] == rest;
    }
  }

  /** Trimming leaves no character of the class at either end, and adds none. */
  lemma {:induction false} TrimIsTrimmed(s: string, cut: char -> bool)
    ensures var t := Trim(s, cut);
      && (t == "" || (!cut(t[0]) && !cut(t[|t| - 1])))
      && forall c :: c in t ==> c in s
    decreases |s|
  {
    if s != "" {
      if cut(s[0]) {
        TrimIsTrimmed(s[1..], cut);
      } else if cut(s[|s| - 1]) {
        TrimIsTrimmed(s[..|s| - 1], cut);
      }
    }
  }

  predicate Trimmed(s: string, cut: char -> bool) {
    s == "" || (!cut(s[0]) && !cut(s[|s| - 1]))
  }

  /** Text wrapped in one character of the class at each end, itself not starting or
      ending with one, is what trimming finds. */
  lemma TrimUnwraps(a: char, s: string, b: char, cut: char -> bool)
    requires cut(a) && cut(b) && Trimmed(s, cut)
    ensures Trim([a] + s + [b], cut) == s
  {
    var t := [a] + s + [b];
    assert t[1..] == s + [b];
    if s == "" {
      assert t[1..] == [b] && [b][1..] == "";
      assert Trim([b], cut) == "";
    } else {
      assert (s + [b])[..|s|] == s;
      assert Trim(s, cut) == s;
      assert Trim(s + [b], cut) == Trim(s, cut);
    }
  }
}
