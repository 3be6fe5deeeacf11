/** Character and string primitives of the .NET runtime that the plugin relies on:
    whitespace classification, upper-casing, ordinal comparisons with and without
    case folding, Trim, Split on one separator, first-letter capitalisation and
    decimal formatting of a count. Only the ASCII range is folded and classified. */
module Text {

  /** char.IsWhiteSpace, restricted to ASCII: space and the control characters
      TAB, LF, VT, FF and CR. */
  predicate IsWhiteSpace(c: char) {
    c == ' ' || ('\t' <= c <= '\r')
  }

  /** char.ToUpper on the ASCII letters; every other character is left alone. */
  function ToUpper(c: char): (u: char)
    ensures 'a' <= c <= 'z' ==> 'A' <= u <= 'Z' && u as int == c as int - 32
    ensures !('a' <= c <= 'z') ==> u == c
  {
    if 'a' <= c <= 'z' then (c as int - 32) as char else c
  }

  /** StringComparison.OrdinalIgnoreCase equality of two strings. */
  predicate EqualsIgnoreCase(a: string, b: string) {
    |a| == |b| && forall i :: 0 <= i < |a| ==> ToUpper(a[i]) == ToUpper(b[i])
  }

  /** Equality under StringComparison.Ordinal (case-sensitive) or OrdinalIgnoreCase. */
  predicate EqualsWith(a: string, b: string, caseSensitive: bool) {
    if caseSensitive then a == b else EqualsIgnoreCase(a, b)
  }

  /** `needle` occurs in `hay` starting at index i. */
  predicate OccursAt(hay: string, needle: string, i: nat, caseSensitive: bool) {
    i + |needle| <= |hay| && EqualsWith(hay[i..i + |needle|], needle, caseSensitive)
  }

  /** string.Contains(needle, comparison): some window of `hay` equals `needle`.
      The empty needle is contained in every string. */
  predicate Contains(hay: string, needle: string, caseSensitive: bool) {
    exists i :: 0 <= i <= |hay| - |needle| && OccursAt(hay, needle, i, caseSensitive)
  }

  lemma {:induction false} EmptyNeedle(hay: string, caseSensitive: bool)
    ensures Contains(hay, "", caseSensitive)
  {
    assert OccursAt(hay, "", 0, caseSensitive);
  }

  lemma {:induction false} CaseSensitiveImpliesIgnoreCase(hay: string, needle: string)
    requires Contains(hay, needle, true)
    ensures Contains(hay, needle, false)
  {
    var i :| 0 <= i <= |hay| - |needle| && OccursAt(hay, needle, i, true);
    assert OccursAt(hay, needle, i, false);
  }

  /** string.IsNullOrWhiteSpace for a non-null string (null behaves like ""). */
  predicate IsNullOrWhiteSpace(s: string) {
    forall i :: 0 <= i < |s| ==> IsWhiteSpace(s[i])
  }

  /** The first index at or after i whose character is not whitespace (|s| if none). */
  function SkipLeading(s: string, i: nat): (j: nat)
    requires i <= |s|
    ensures i <= j <= |s|
    ensures forall k :: i <= k < j ==> IsWhiteSpace(s[k])
    ensures j < |s| ==> !IsWhiteSpace(s[j])
    decreases |s| - i
  {
    if i < |s| && IsWhiteSpace(s[i]) then SkipLeading(s, i + 1) else i
  }

  /** The end, at or before j and not below lo, of s[lo..j] with its trailing whitespace
      dropped. */
  function SkipTrailing(s: string, lo: nat, j: nat): (e: nat)
    requires lo <= j <= |s|
    ensures lo <= e <= j
    ensures forall k :: e <= k < j ==> IsWhiteSpace(s[k])
    ensures e > lo ==> !IsWhiteSpace(s[e - 1])
  {
    if j > lo && IsWhiteSpace(s[j - 1]) then SkipTrailing(s, lo, j - 1) else j
  }

  /** r is the slice s[lo..lo + |r|] and everything of s outside that slice is whitespace. */
  predicate TrimmedAt(s: string, r: string, lo: int) {
    && 0 <= lo <= |s| - |r| && r == s[lo..lo + |r|]
    && (forall i :: 0 <= i < lo ==> IsWhiteSpace(s[i]))
    && (forall i :: lo + |r| <= i < |s| ==> IsWhiteSpace(s[i]))
  }

  /** string.Trim(): the input with its leading and trailing whitespace removed; what
      remains is a contiguous slice s[lo..lo + |r|] that neither starts nor ends with
      whitespace, and everything outside it is whitespace. */
  function Trim(s: string): (r: string)
    ensures exists lo :: TrimmedAt(s, r, lo)
    ensures r != [] ==> !IsWhiteSpace(r[0]) && !IsWhiteSpace(r[|r| - 1])
  {
    var lo := SkipLeading(s, 0);
    var hi := SkipTrailing(s, lo, |s|);
    assert TrimmedAt(s, s[lo..hi], lo);
    s[lo..hi]
  }

  /** The position of the first `c` in s, or |s| when there is none. */
  function IndexOf(s: string, c: char): (i: nat)
    ensures i <= |s|
    ensures i < |s| ==> s[i] == c
    ensures forall j :: 0 <= j < i ==> s[j] != c
  {
    if |s| == 0 || s[0] == c then 0 else 1 + IndexOf(s[1..], c)
  }

  /** The number of occurrences of c in s. */
  function CountChar(s: string, c: char): nat {
    if |s| == 0 then 0 else (if s[0] == c then 1 else 0) + CountChar(s[1..], c)
  }

  /** The segments put back together with the separator between them. */
  function Join(parts: seq<string>, sep: char): string
    requires |parts| > 0
  {
    if |parts| == 1 then parts[0] else parts[0] + [sep] + Join(parts[1..], sep)
  }

  lemma {:induction false} CountCharSplitsAt(s: string, c: char, i: nat)
    requires i < |s| && s[i] == c
    requires forall j :: 0 <= j < i ==> s[j] != c
    ensures CountChar(s, c) == 1 + CountChar(s[i + 1..], c)
  {
    if i > 0 {
      CountCharSplitsAt(s[1..], c, i - 1);
      assert s[1..][i..] == s[i + 1..];
    }
  }

  lemma {:induction false} CountCharAbsent(s: string, c: char)
    requires forall j :: 0 <= j < |s| ==> s[j] != c
    ensures CountChar(s, c) == 0
  {
    if |s| > 0 {
      CountCharAbsent(s[1..], c);
    }
  }

  /** string.Split(sep): the maximal separator-free segments, one more than there
      are separators (the empty string gives one empty segment), which give back the
      input when joined with the separator. */
  function Split(s: string, sep: char): (parts: seq<string>)
    ensures |parts| == CountChar(s, sep) + 1
    ensures forall k :: 0 <= k < |parts| ==> sep !in parts[k]
    ensures Join(parts, sep) == s
    decreases |s|
  {
    var i := IndexOf(s, sep);
    if i == |s| then
      CountCharAbsent(s, sep);
      [s]
    else
      CountCharSplitsAt(s, sep, i);
      var rest := Split(s[i + 1..], sep);
      assert ([s[..i]] + rest)[1..] == rest;
      assert s == s[..i] + [sep] + s[i + 1..];
      [s[..i]] + rest
  }

  /** char.ToUpper(s[0]) + s[1..] for a non-empty s; the empty string is kept. */
  function Capitalize(s: string): (r: string)
    ensures |r| == |s|
    ensures |s| > 0 ==> r[0] == ToUpper(s[0]) && r[1..] == s[1..]
  {
    if |s| > 0 then [ToUpper(s[0])] + s[1..] else s
  }

  /** The value of a string of decimal digits. */
  function DigitsValue(s: string): nat
    requires forall i :: 0 <= i < |s| ==> '0' <= s[i] <= '9'
  {
    if |s| == 0 then 0 else 10 * DigitsValue(s[..|s| - 1]) + (s[|s| - 1] as int - '0' as int)
  }

  /** The decimal text of n, as string interpolation writes an integer. */
  function NatToString(n: nat): (r: string)
    ensures |r| > 0
    ensures forall i :: 0 <= i < |r| ==> '0' <= r[i] <= '9'
    ensures DigitsValue(r) == n
    ensures |r| > 1 ==> r[0] != '0'
  {
    var d := ['0' + (n % 10) as char];
    if n < 10 then d
    else
      var r := NatToString(n / 10) + d;
      assert r[..|r| - 1] == NatToString(n / 10);
      r
  }
}
