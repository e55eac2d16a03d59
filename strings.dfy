/** Character classes, decimal rendering and the small string operations
    (split on a separator, strip surrounding whitespace) the checker uses. */
module Strings {
  import opened Wrappers

  /** Whitespace as `str.isspace()` defines it: the characters `str.strip()`
      removes, and those the `\s` of a `str` pattern matches. */
  predicate IsSpace(c: char) {
    || c == ' ' || ('\t' <= c <= '\r') || ('\U{001C}' <= c <= '\U{001F}')
    || c == '\U{0085}' || c == '\U{00A0}' || c == '\U{1680}' || ('\U{2000}' <= c <= '\U{200A}')
    || c == '\U{2028}' || c == '\U{2029}' || c == '\U{202F}' || c == '\U{205F}' || c == '\U{3000}'
  }

  predicate AllSpace(s: string) {
    forall k :: 0 <= k < |s| ==> IsSpace(s[k])
  }

  predicate IsDigit(c: char) {
    '0' <= c <= '9'
  }

  predicate AllDigits(s: string) {
    forall k :: 0 <= k < |s| ==> IsDigit(s[k])
  }

  /** The ASCII part of a regular expression's `\w`. */
  predicate IsWordChar(c: char) {
    ('a' <= c <= 'z') || ('A' <= c <= 'Z') || IsDigit(c) || c == '_'
  }

  function DigitChar(d: nat): (c: char)
    requires d < 10
    ensures IsDigit(c)
  {
    ('0' as int + d) as char
  }

  function DigitValue(c: char): nat
    requires IsDigit(c)
  {
    c as int - '0' as int
  }

  /** Decimal rendering of a natural number, as `str(n)` or an f-string writes it. */
  function NatToString(n: nat): (s: string)
    ensures |s| > 0 && AllDigits(s)
    ensures n < 10 <==> |s| == 1
  {
    if n < 10 then [DigitChar(n)] else NatToString(n / 10) + [DigitChar(n % 10)]
  }

  /** Reads a string of decimal digits back as a number. */
  function DigitsToNat(s: string): nat
    requires AllDigits(s)
  {
    if |s| == 0 then 0 else DigitsToNat(s[..|s| - 1]) * 10 + DigitValue(s[|s| - 1])
  }

  lemma {:induction false} DigitsRoundTrip(n: nat)
    ensures DigitsToNat(NatToString(n)) == n
  {
    var s := NatToString(n);
    if n >= 10 {
      DigitsRoundTrip(n / 10);
      assert s[..|s| - 1] == NatToString(n / 10);
    }
  }

  /** Index of the first character at or after `i` that is not a decimal digit. */
  function DigitRunEnd(s: string, i: nat): (r: nat)
    requires i <= |s|
    ensures i <= r <= |s| && AllDigits(s[i..r])
    ensures r == |s| || !IsDigit(s[r])
    decreases |s| - i
  {
    if i == |s| || !IsDigit(s[i]) then i
    else
      var r := DigitRunEnd(s, i + 1);
      assert s[i..r] == [s[i]] + s[i + 1..r];
      r
  }

  /** The digit run starting at `i` ends exactly where the digits do. */
  lemma {:induction false} DigitRunEndAt(s: string, i: nat, j: nat)
    requires i <= j <= |s| && AllDigits(s[i..j])
    requires j == |s| || !IsDigit(s[j])
    ensures DigitRunEnd(s, i) == j
    decreases j - i
  {
    if i < j {
      assert IsDigit(s[i..j][0]);
      assert s[i + 1..j] == s[i..j][1..];
      DigitRunEndAt(s, i + 1, j);
    }
  }

  predicate AllWord(s: string) {
    forall k :: 0 <= k < |s| ==> IsWordChar(s[k])
  }

  /** Index of the first character at or after `i` that is not whitespace. */
  function SpaceRunEnd(s: string, i: nat): (r: nat)
    requires i <= |s|
    ensures i <= r <= |s| && AllSpace(s[i..r])
    ensures r == |s| || !IsSpace(s[r])
    decreases |s| - i
  {
    if i == |s| || !IsSpace(s[i]) then i
    else
      var r := SpaceRunEnd(s, i + 1);
      assert s[i..r] == [s[i]] + s[i + 1..r];
      r
  }

  lemma {:induction false} SpaceRunEndAt(s: string, i: nat, j: nat)
    requires i <= j <= |s| && AllSpace(s[i..j])
    requires j == |s| || !IsSpace(s[j])
    ensures SpaceRunEnd(s, i) == j
    decreases j - i
  {
    if i < j {
      assert IsSpace(s[i..j][0]);
      assert s[i + 1..j] == s[i..j][1..];
      SpaceRunEndAt(s, i + 1, j);
    }
  }

  /** Index of the first character at or after `i` that is not a word character. */
  function WordRunEnd(s: string, i: nat): (r: nat)
    requires i <= |s|
    ensures i <= r <= |s| && AllWord(s[i..r])
    ensures r == |s| || !IsWordChar(s[r])
    decreases |s| - i
  {
    if i == |s| || !IsWordChar(s[i]) then i
    else
      var r := WordRunEnd(s, i + 1);
      assert s[i..r] == [s[i]] + s[i + 1..r];
      r
  }

  lemma {:induction false} WordRunEndAt(s: string, i: nat, j: nat)
    requires i <= j <= |s| && AllWord(s[i..j])
    requires j == |s| || !IsWordChar(s[j])
    ensures WordRunEnd(s, i) == j
    decreases j - i
  {
    if i < j {
      assert IsWordChar(s[i..j][0]);
      assert s[i + 1..j] == s[i..j][1..];
      WordRunEndAt(s, i + 1, j);
    }
  }

  /** The first position at or after `i` holding `c`. */
  function FindChar(s: string, i: nat, c: char): (r: Option<nat>)
    requires i <= |s|
    ensures r.Some? ==> i <= r.value < |s| && s[r.value] == c && c !in s[i..r.value]
    ensures r.None? ==> c !in s[i..]
    decreases |s| - i
  {
    if i == |s| then None
    else if s[i] == c then Some(i)
    else
      var r := FindChar(s, i + 1, c);
      assert r.Some? ==> s[i..r.value] == [s[i]] + s[i + 1..r.value];
      assert s[i..] == [s[i]] + s[i + 1..];
      r
  }

  lemma {:induction false} FindCharAt(s: string, i: nat, j: nat, c: char)
    requires i <= j < |s| && c !in s[i..j] && s[j] == c
    ensures FindChar(s, i, c) == Some(j)
    decreases j - i
  {
    if i < j {
      assert s[i] == s[i..j][0];
      assert s[i + 1..j] == s[i..j][1..];
      FindCharAt(s, i + 1, j, c);
    }
  }

  /** `str.split(sep)`: the maximal pieces between the separators, in order. */
  function Split(s: string, sep: char): (parts: seq<string>)
    ensures |parts| > 0
    ensures forall k :: 0 <= k < |parts| ==> sep !in parts[k]
  {
    if |s| == 0 then [""]
    else
      var rest := Split(s[1..], sep);
      if s[0] == sep then [""] + rest else [[s[0]] + rest[0]] + rest[1..]
  }

  /** `sep.join(parts)`. */
  function Join(parts: seq<string>, sep: char): string
    requires |parts| > 0
  {
    if |parts| == 1 then parts[0] else parts[0] + [sep] + Join(parts[1..], sep)
  }

  function Count(s: string, c: char): nat {
    if |s| == 0 then 0 else (if s[0] == c then 1 else 0) + Count(s[1..], c)
  }

  /** Splitting and joining on the same separator are inverse, and a string with
      k separators splits into k + 1 pieces. */
  lemma {:induction false} SplitJoin(s: string, sep: char)
    ensures Join(Split(s, sep), sep) == s
    ensures |Split(s, sep)| == Count(s, sep) + 1
  {
    if |s| > 0 {
      SplitJoin(s[1..], sep);
      var rest := Split(s[1..], sep);
      if s[0] == sep {
        assert Split(s, sep)[1..] == rest;
      } else if |rest| == 1 {
        assert Join(Split(s, sep), sep) == [s[0]] + rest[0];
      } else {
        assert Split(s, sep)[1..] == rest[1..];
        assert Join(rest, sep) == rest[0] + [sep] + Join(rest[1..], sep);
      }
    }
  }

  function LeadingSpace(s: string): (n: nat)
    ensures n <= |s| && AllSpace(s[..n])
    ensures n == |s| || !IsSpace(s[n])
  {
    if |s| == 0 || !IsSpace(s[0]) then 0
    else
      var n := LeadingSpace(s[1..]) + 1;
      assert s[..n] == [s[0]] + s[1..][..n - 1];
      n
  }

  function TrailingSpaceStart(s: string, lo: nat): (m: nat)
    requires lo <= |s|
    ensures lo <= m <= |s| && AllSpace(s[m..])
    ensures m == lo || !IsSpace(s[m - 1])
    decreases |s| - lo
  {
    if |s| == lo || !IsSpace(s[|s| - 1]) then |s|
    else
      var m := TrailingSpaceStart(s[..|s| - 1], lo);
      assert s[m..] == s[..|s| - 1][m..] + [s[|s| - 1]];
      m
  }

  /** `s` is `r` with whitespace before and after. */
  ghost predicate Padded(s: string, r: string) {
    exists i, j :: 0 <= i <= j <= |s| && s[i..j] == r && AllSpace(s[..i]) && AllSpace(s[j..])
  }

  /** `str.strip()`: the string without its leading and trailing whitespace. */
  function Strip(s: string): (r: string)
    ensures |r| == 0 || (!IsSpace(r[0]) && !IsSpace(r[|r| - 1]))
    ensures Padded(s, r)
  {
    var i := LeadingSpace(s);
    var j := TrailingSpaceStart(s, i);
    assert i < j ==> !IsSpace(s[i..j][0]);
    s[i..j]
  }

  /** Strips every piece. */
  function StripAll(parts: seq<string>): (r: seq<string>)
    ensures |r| == |parts|
    ensures forall k :: 0 <= k < |parts| ==> r[k] == Strip(parts[k])
  {
    if |parts| == 0 then [] else [Strip(parts[0])] + StripAll(parts[1..])
  }

  /** A run of whitespace followed by a non-space: the run is what `SpaceRunEnd` skips. */
  lemma SpaceThen(a: string, b: string)
    requires AllSpace(a) && (|b| == 0 || !IsSpace(b[0]))
    ensures SpaceRunEnd(a + b, 0) == |a|
  {
    var s := a + b;
    assert s[0..|a|] == a;
    SpaceRunEndAt(s, 0, |a|);
  }

  lemma WordThen(a: string, b: string)
    requires AllWord(a) && (|b| == 0 || !IsWordChar(b[0]))
    ensures WordRunEnd(a + b, 0) == |a|
  {
    var s := a + b;
    assert s[0..|a|] == a;
    WordRunEndAt(s, 0, |a|);
  }

  lemma FindThen(a: string, c: char, b: string)
    requires c !in a
    ensures FindChar(a + ([c] + b), 0, c) == Some(|a|)
  {
    var s := a + ([c] + b);
    assert s[0..|a|] == a;
    FindCharAt(s, 0, |a|, c);
  }

  /** The leading whitespace of `t` and what follows it. */
  function SplitSpace(t: string): (r: (string, string))
    ensures r.0 + r.1 == t && AllSpace(r.0) && (|r.1| == 0 || !IsSpace(r.1[0]))
  {
    var i := SpaceRunEnd(t, 0);
    assert t[0..i] == t[..i];
    (t[..i], t[i..])
  }

  lemma SplitSpaceOf(a: string, b: string)
    requires AllSpace(a) && (|b| == 0 || !IsSpace(b[0]))
    ensures SplitSpace(a + b) == (a, b)
  {
    SpaceThen(a, b);
    assert (a + b)[..|a|] == a && (a + b)[|a|..] == b;
  }

  /** The leading word characters of `t` and what follows them. */
  function SplitWord(t: string): (r: (string, string))
    ensures r.0 + r.1 == t && AllWord(r.0) && (|r.1| == 0 || !IsWordChar(r.1[0]))
  {
    var i := WordRunEnd(t, 0);
    assert t[0..i] == t[..i];
    (t[..i], t[i..])
  }

  lemma SplitWordOf(a: string, b: string)
    requires AllWord(a) && (|b| == 0 || !IsWordChar(b[0]))
    ensures SplitWord(a + b) == (a, b)
  {
    WordThen(a, b);
    assert (a + b)[..|a|] == a && (a + b)[|a|..] == b;
  }

  /** The text before the first `c` and the text after it. */
  function SplitAt(t: string, c: char): (r: Option<(string, string)>)
    ensures r.Some? ==> t == r.value.0 + ([c] + r.value.1) && c !in r.value.0
    ensures r.None? ==> c !in t
  {
    match FindChar(t, 0, c)
    case None =>
      assert t[0..] == t;
      None
    case Some(i) =>
      assert t[0..i] == t[..i];
      assert t == t[..i] + ([c] + t[i + 1..]);
      Some((t[..i], t[i + 1..]))
  }

  lemma SplitAtOf(a: string, c: char, b: string)
    requires c !in a
    ensures SplitAt(a + ([c] + b), c) == Some((a, b))
  {
    FindThen(a, c, b);
    var t := a + ([c] + b);
    assert t[..|a|] == a && t[|a| + 1..] == b;
  }
}
