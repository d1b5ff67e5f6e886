/** The few JavaScript string operations the theme helpers rely on:
    `String.prototype.replace` with a string pattern (first occurrence only),
    `charAt(0).toUpperCase() + slice(1)`, and the decimal rendering of a
    positive integer inside a template literal. */
module Strings {
  import opened Wrappers

  /** `pat` occurs in `s` starting at index `j`. */
  predicate OccursAt(s: string, pat: string, j: nat)
  {
    j + |pat| <= |s| && s[j..j + |pat|] == pat
  }

  /** `s.indexOf(pat, from)`: the first index at or after `from` where `pat`
      occurs, if any. */
  function IndexOfFrom(s: string, pat: string, from: nat): (r: Option<nat>)
    decreases |s| - from
    ensures r.Some? ==> from <= r.value && r.value + |pat| <= |s|
  {
    if from + |pat| > |s| then None
    else if s[from..from + |pat|] == pat then Some(from)
    else IndexOfFrom(s, pat, from + 1)
  }

  /** The search finds an occurrence exactly when there is one, and then the
      first one. */
  lemma {:induction false} IndexOfFromFindsFirst(s: string, pat: string, from: nat)
    decreases |s| - from
    ensures IndexOfFrom(s, pat, from).Some? ==>
              var i := IndexOfFrom(s, pat, from).value;
              from <= i && OccursAt(s, pat, i) && forall j :: from <= j < i ==> !OccursAt(s, pat, j)
    ensures IndexOfFrom(s, pat, from).None? ==> forall j :: from <= j ==> !OccursAt(s, pat, j)
  {
    if from + |pat| <= |s| && s[from..from + |pat|] != pat {
      IndexOfFromFindsFirst(s, pat, from + 1);
    }
  }

  /** `s.replace(pat, rep)` with a string pattern: the first occurrence of
      `pat` is replaced by `rep`; without an occurrence `s` is returned as is. */
  function ReplaceFirst(s: string, pat: string, rep: string): string
  {
    match IndexOfFrom(s, pat, 0)
    case None => s
    case Some(i) => s[..i] + rep + s[i + |pat|..]
  }

  /** The replacement happens at the first occurrence. */
  lemma ReplaceFirstAt(s: string, pat: string, rep: string, i: nat)
    requires OccursAt(s, pat, i)
    requires forall j: nat :: j < i ==> !OccursAt(s, pat, j)
    ensures ReplaceFirst(s, pat, rep) == s[..i] + rep + s[i + |pat|..]
  {
    IndexOfFromFindsFirst(s, pat, 0);
  }

  /** Without an occurrence the string is returned unchanged. */
  lemma ReplaceFirstAbsent(s: string, pat: string, rep: string)
    requires forall j: nat :: !OccursAt(s, pat, j)
    ensures ReplaceFirst(s, pat, rep) == s
  {
    IndexOfFromFindsFirst(s, pat, 0);
  }

  /** A string that starts with the pattern has exactly that prefix replaced. */
  lemma ReplaceAtStart(s: string, pat: string, rep: string)
    requires pat <= s
    ensures ReplaceFirst(s, pat, rep) == rep + s[|pat|..]
  {
    assert OccursAt(s, pat, 0);
    ReplaceFirstAt(s, pat, rep, 0);
  }

  /** `ch.toUpperCase()` on the characters the theme ever passes it: the ASCII
      letters a-z are mapped to A-Z, every other character is kept. */
  function UpperChar(c: char): (u: char)
    ensures 'a' <= c <= 'z' ==> 'A' <= u <= 'Z' && u as int - 'A' as int == c as int - 'a' as int
    ensures !('a' <= c <= 'z') ==> u == c
  {
    if 'a' <= c <= 'z' then (c as int - 'a' as int + 'A' as int) as char else c
  }

  /** `s.charAt(0).toUpperCase() + s.slice(1)`. */
  function Capitalize(s: string): (r: string)
    ensures |r| == |s|
    ensures |s| > 0 ==> r[0] == UpperChar(s[0]) && r[1..] == s[1..]
  {
    if s == [] then [] else [UpperChar(s[0])] + s[1..]
  }

  function DigitChar(d: nat): (c: char)
    requires d < 10
    ensures '0' <= c <= '9' && c as int - '0' as int == d
  {
    ('0' as int + d) as char
  }

  predicate IsDigit(c: char)
  {
    '0' <= c <= '9'
  }

  function DigitValue(c: char): (d: nat)
    requires IsDigit(c)
    ensures d < 10 && DigitChar(d) == c
  {
    c as int - '0' as int
  }

  /** The decimal text JavaScript produces for a non-negative integer
      (`${n}` in a template literal). */
  function DecimalString(n: nat): (r: string)
    ensures |r| > 0
    ensures forall k :: 0 <= k < |r| ==> IsDigit(r[k])
  {
    if n < 10 then [DigitChar(n)] else DecimalString(n / 10) + [DigitChar(n % 10)]
  }

  /** The value of a string of decimal digits: the inverse of `DecimalString`. */
  function DecimalValue(s: string): nat
    requires forall k :: 0 <= k < |s| ==> IsDigit(s[k])
  {
    if s == [] then 0 else 10 * DecimalValue(s[..|s| - 1]) + DigitValue(s[|s| - 1])
  }

  /** Reading back the rendered digits gives the number, and the rendering has
      no leading zero unless the number is zero. */
  lemma {:induction false} DecimalRoundTrip(n: nat)
    ensures DecimalValue(DecimalString(n)) == n
    ensures DecimalString(n)[0] == '0' <==> n == 0
  {
    var r := DecimalString(n);
    if n >= 10 {
      DecimalRoundTrip(n / 10);
      assert r[..|r| - 1] == DecimalString(n / 10);
      assert r[0] == DecimalString(n / 10)[0];
    }
  }
}
