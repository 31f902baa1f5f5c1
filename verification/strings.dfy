/**
 * String primitives the front end and the back end rely on: prefix and
 * suffix tests, substring search (`includes`, `indexOf`, SQL `icontains`),
 * ASCII case mapping, whitespace trimming, splitting on a separator and
 * decimal rendering of naturals.
 */
module Strings {

  /** `s.startsWith(p)` */
  predicate StartsWith(s: string, p: string) {
    |p| <= |s| && s[..|p|] == p
  }

  /** `s.endsWith(p)` */
  predicate EndsWith(s: string, p: string) {
    |p| <= |s| && s[|s| - |p|..] == p
  }

  /** `t` occurs in `s` at position `i`. */
  predicate OccursAt(s: string, t: string, i: int) {
    0 <= i && i + |t| <= |s| && s[i..i + |t|] == t
  }

  /** Reference definition of `s.includes(t)`. */
  predicate Contains(s: string, t: string) {
    exists i | 0 <= i <= |s| :: OccursAt(s, t, i)
  }

  /** Scan for `t` in `s` starting at `from`; the result is the first match at or after `from`, or -1. */
  function IndexOfFrom(s: string, t: string, from: nat): (r: int)
    requires from <= |s| + 1
    ensures r == -1 || (from <= r && OccursAt(s, t, r))
    ensures r == -1 ==> forall j | from <= j <= |s| :: !OccursAt(s, t, j)
    ensures r != -1 ==> forall j | from <= j < r :: !OccursAt(s, t, j)
    decreases |s| + 1 - from
  {
    if from > |s| - |t| then -1
    else if s[from..from + |t|] == t then from
    else IndexOfFrom(s, t, from + 1)
  }

  /** `s.indexOf(t)`: the first position where `t` occurs, or -1. */
  function IndexOf(s: string, t: string): (r: int)
    ensures r == -1 <==> !Contains(s, t)
    ensures r != -1 ==> OccursAt(s, t, r) && forall j | 0 <= j < r :: !OccursAt(s, t, j)
  {
    IndexOfFrom(s, t, 0)
  }

  /** ASCII upper-case letters map to lower case; every other character is kept. */
  function LowerChar(c: char): char {
    if 'A' <= c <= 'Z' then (c as int - 'A' as int + 'a' as int) as char else c
  }

  /** ASCII lower-case letters map to upper case; every other character is kept. */
  function UpperChar(c: char): char {
    if 'a' <= c <= 'z' then (c as int - 'a' as int + 'A' as int) as char else c
  }

  /** `s.toLowerCase()`, restricted to ASCII letters. */
  function ToLower(s: string): (r: string)
    ensures |r| == |s|
    ensures forall i | 0 <= i < |s| :: r[i] == LowerChar(s[i])
  {
    seq(|s|, i requires 0 <= i < |s| => LowerChar(s[i]))
  }

  lemma ToLowerIdempotent(s: string)
    ensures ToLower(ToLower(s)) == ToLower(s)
  {
  }

  /** Case-insensitive containment: `s.toLowerCase().includes(t.toLowerCase())`. */
  predicate ContainsIgnoreCase(s: string, t: string) {
    Contains(ToLower(s), ToLower(t))
  }

  /** White space and line terminators removed by `String.prototype.trim`. */
  predicate IsSpace(c: char) {
    c == ' ' || c == '\t' || c == '\n' || c == '\r' || c == '\U{000B}' || c == '\U{000C}'
    || c == '\U{00A0}' || c == '\U{1680}' || ('\U{2000}' <= c <= '\U{200A}')
    || c == '\U{2028}' || c == '\U{2029}' || c == '\U{202F}' || c == '\U{205F}'
    || c == '\U{3000}' || c == '\U{FEFF}'
  }

  /** Drops the leading characters `space` accepts. */
  function StripStart(s: string, space: char -> bool): (r: string)
    ensures |r| <= |s| && r == s[|s| - |r|..]
    ensures forall i | 0 <= i < |s| - |r| :: space(s[i])
    ensures r == [] || !space(r[0])
    ensures (forall i | 0 <= i < |s| :: space(s[i])) ==> r == []
  {
    if |s| > 0 && space(s[0]) then
      var r := StripStart(s[1..], space);
      assert s[1..][|s| - 1 - |r|..] == s[|s| - |r|..];
      assert forall i | 1 <= i < |s| - |r| :: s[i] == s[1..][i - 1];
      r
    else s
  }

  /** Drops the trailing characters `space` accepts. */
  function StripEnd(s: string, space: char -> bool): (r: string)
    ensures |r| <= |s| && r == s[..|r|]
    ensures forall i | |r| <= i < |s| :: space(s[i])
    ensures r == [] || !space(r[|r| - 1])
  {
    if |s| > 0 && space(s[|s| - 1]) then StripEnd(s[..|s| - 1], space) else s
  }

  /** Drops white space, as `space` defines it, at both ends. */
  function Strip(s: string, space: char -> bool): string {
    StripEnd(StripStart(s, space), space)
  }

  /** A string that neither starts nor ends with white space is its own strip. */
  lemma StripUnchanged(s: string, space: char -> bool)
    requires |s| > 0 && !space(s[0]) && !space(s[|s| - 1])
    ensures Strip(s, space) == s
  {
  }

  /** Drops leading white space. */
  function TrimStart(s: string): string {
    StripStart(s, IsSpace)
  }

  /** `s.trim()` */
  function Trim(s: string): string {
    Strip(s, IsSpace)
  }

  /** A string is blank when trimming leaves nothing, i.e. every character is white space. */
  lemma TrimEmptyIffAllSpace(s: string)
    ensures Trim(s) == [] <==> forall i | 0 <= i < |s| :: IsSpace(s[i])
  {
  }

  /** `parts.join(sep)` */
  function Join(parts: seq<string>, sep: string): string {
    if |parts| == 0 then ""
    else if |parts| == 1 then parts[0]
    else parts[0] + sep + Join(parts[1..], sep)
  }

  /** `s.split(sep)` for a one-character separator: the pieces between separators, never an empty list. */
  function Split(s: string, sep: char): (r: seq<string>)
    ensures |r| >= 1
    ensures forall k | 0 <= k < |r| :: sep !in r[k]
    ensures Join(r, [sep]) == s
    ensures sep !in s ==> r == [s]
  {
    if sep !in s then [s]
    else
      var i := FirstIndex(s, sep);
      var head, rest := s[..i], Split(s[i + 1..], sep);
      var r := [head] + rest;
      assert r[1..] == rest;
      assert Join(r, [sep]) == head + [sep] + Join(rest, [sep]);
      Around(s, i);
      assert forall k | 1 <= k < |r| :: r[k] == rest[k - 1];
      r
  }

  /** A string is the part before position `i`, the character there and the part after. */
  lemma Around(s: string, i: nat)
    requires i < |s|
    ensures s == s[..i] + [s[i]] + s[i + 1..]
  {
  }

  /** Splitting at a separator that does not occur in the first piece. */
  lemma SplitCons(a: string, b: string, sep: char)
    requires sep !in a
    ensures Split(a + [sep] + b, sep) == [a] + Split(b, sep)
  {
    var s := a + [sep] + b;
    assert s[|a|] == sep;
    assert forall j | 0 <= j < |a| :: s[j] == a[j] && a[j] != sep;
    assert FirstIndex(s, sep) == |a|;
    assert s[..|a|] == a && s[|a| + 1..] == b;
  }

  /** A string that neither starts nor ends with white space is its own trim. */
  lemma TrimUnchanged(s: string)
    requires |s| > 0 && !IsSpace(s[0]) && !IsSpace(s[|s| - 1])
    ensures Trim(s) == s
  {
    StripUnchanged(s, IsSpace);
  }

  /** The position of the first `c` in `s`. */
  function FirstIndex(s: string, c: char): (i: nat)
    requires c in s
    ensures i < |s| && s[i] == c && c !in s[..i]
  {
    if s[0] == c then 0 else 1 + FirstIndex(s[1..], c)
  }

  /** `s.replace(pat, rep)` for a string pattern: only the first occurrence is replaced. */
  function ReplaceFirst(s: string, pat: string, rep: string): (r: string)
    ensures !Contains(s, pat) ==> r == s
    ensures Contains(s, pat) ==> exists i | 0 <= i <= |s| - |pat| ::
      OccursAt(s, pat, i) && r == s[..i] + rep + s[i + |pat|..]
  {
    var i := IndexOf(s, pat);
    if i == -1 then s else s[..i] + rep + s[i + |pat|..]
  }

  predicate IsDigit(c: char) { '0' <= c <= '9' }

  predicate AllDigits(s: string) {
    forall i | 0 <= i < |s| :: IsDigit(s[i])
  }

  function DigitValue(c: char): nat
    requires IsDigit(c)
  {
    c as int - '0' as int
  }

  function DigitChar(d: nat): (c: char)
    requires d < 10
    ensures IsDigit(c) && DigitValue(c) == d
  {
    ('0' as int + d) as char
  }

  /** The value of a string of decimal digits, most significant first. */
  function DigitsValue(s: string): nat
    requires AllDigits(s)
  {
    if |s| == 0 then 0 else DigitsValue(s[..|s| - 1]) * 10 + DigitValue(s[|s| - 1])
  }

  /** Decimal rendering of a natural number, as `String(n)` prints it. */
  function NatToString(n: nat): (r: string)
    ensures |r| > 0 && AllDigits(r)
    ensures DigitsValue(r) == n
    ensures |r| > 1 ==> r[0] != '0'
  {
    if n < 10 then [DigitChar(n)]
    else
      var r := NatToString(n / 10) + [DigitChar(n % 10)];
      assert r[..|r| - 1] == NatToString(n / 10);
      r
  }
}
