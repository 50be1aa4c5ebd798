/** String helpers shared by the components: ASCII case folding, ASCII whitespace trimming,
    substring search and decimal printing of integers, in the way the browser's
    `toLowerCase`, `trim`, `includes`, `startsWith` and `toString` behave on ASCII text. */
module Text {

  /** The whitespace characters `trim` removes, restricted to ASCII. */
  predicate IsSpace(c: char) {
    c == ' ' || c == '\t' || c == '\n' || c == '\r' || c == '\U{000B}' || c == '\U{000C}'
  }

  predicate IsBlank(s: string) {
    forall i :: 0 <= i < |s| ==> IsSpace(s[i])
  }

  function LowerChar(c: char): (d: char)
    ensures 'A' <= c <= 'Z' ==> 'a' <= d <= 'z'
    ensures !('A' <= c <= 'Z') ==> d == c
  {
    if 'A' <= c <= 'Z' then (c as int - 'A' as int + 'a' as int) as char else c
  }

  /** `toLowerCase` on ASCII letters; every other character is kept. */
  function Lower(s: string): string {
    seq(|s|, i requires 0 <= i < |s| => LowerChar(s[i]))
  }

  lemma {:induction false} LowerIdempotent(s: string)
    ensures Lower(Lower(s)) == Lower(s)
  {
    var l := Lower(s);
    assert forall i :: 0 <= i < |s| ==> LowerChar(l[i]) == l[i];
  }

  function UpperChar(c: char): char
    requires 'a' <= c <= 'z'
  {
    (c as int - 'a' as int + 'A' as int) as char
  }

  /** A lower-case letter occurs in the lower-cased string only where it or its upper-case
      form occurred. */
  lemma {:induction false} LowerExcludes(s: string, c: char)
    requires 'a' <= c <= 'z' && c !in s && UpperChar(c) !in s
    ensures c !in Lower(s)
  {
    var l := Lower(s);
    forall i | 0 <= i < |s|
      ensures l[i] != c
    {
      assert s[i] in s;
    }
  }

  predicate IsPrefix(p: string, s: string) {
    |p| <= |s| && s[..|p|] == p
  }

  /** `s.startsWith(p)`. */
  predicate StartsWith(s: string, p: string) {
    IsPrefix(p, s)
  }

  /** `s.includes(w)`: some position of `s` begins an occurrence of `w`. */
  predicate Includes(s: string, w: string)
    decreases |s|
  {
    IsPrefix(w, s) || (|s| > 0 && Includes(s[1..], w))
  }

  lemma {:induction false} IncludesAt(s: string, w: string, i: nat)
    requires i + |w| <= |s| && s[i..i + |w|] == w
    ensures Includes(s, w)
    decreases i
  {
    if i > 0 {
      assert s[1..][i - 1..i - 1 + |w|] == s[i..i + |w|];
      IncludesAt(s[1..], w, i - 1);
    } else {
      assert s[..|w|] == w;
    }
  }

  /** A word that has a character which never occurs in `s` is not included in `s`. */
  lemma {:induction false} NotIncludedWithoutChar(s: string, w: string, k: nat)
    requires k < |w| && w[k] !in s
    ensures !Includes(s, w)
    decreases |s|
  {
    assert !IsPrefix(w, s) by {
      if |w| <= |s| { assert s[..|w|][k] == s[k] && s[k] in s; }
    }
    if |s| > 0 {
      assert forall c :: c in s[1..] ==> c in s;
      NotIncludedWithoutChar(s[1..], w, k);
    }
  }

  /** The index of the first non-whitespace character at or after `i`, or `|s|`. */
  function SkipLeading(s: string, i: nat): (j: nat)
    requires i <= |s|
    ensures i <= j <= |s|
    ensures forall k :: i <= k < j ==> IsSpace(s[k])
    ensures j < |s| ==> !IsSpace(s[j])
    decreases |s| - i
  {
    if i < |s| && IsSpace(s[i]) then SkipLeading(s, i + 1) else i
  }

  /** The index just past the last non-whitespace character of `s[lo..e]`, or `lo`. */
  function SkipTrailing(s: string, lo: nat, e: nat): (j: nat)
    requires lo <= e <= |s|
    ensures lo <= j <= e
    ensures forall k :: j <= k < e ==> IsSpace(s[k])
    ensures j > lo ==> !IsSpace(s[j - 1])
    decreases e
  {
    if e > lo && IsSpace(s[e - 1]) then SkipTrailing(s, lo, e - 1) else e
  }

  /** `trim` on ASCII whitespace: `s` with its leading and trailing whitespace removed. The
      result is the slice of `s` starting at its first non-whitespace character, and all
      that lies before and after that slice is whitespace. */
  function Trim(s: string): (r: string)
    ensures r == [] || (!IsSpace(r[0]) && !IsSpace(r[|r| - 1]))
    ensures var lo := SkipLeading(s, 0);
      lo + |r| <= |s| && r == s[lo..lo + |r|] &&
      (forall k :: 0 <= k < lo ==> IsSpace(s[k])) &&
      (forall k :: lo + |r| <= k < |s| ==> IsSpace(s[k]))
  {
    var lo := SkipLeading(s, 0);
    s[lo..SkipTrailing(s, lo, |s|)]
  }

  /** The trimmed string is empty exactly when every character is whitespace. */
  lemma TrimEmptyIffBlank(s: string)
    ensures Trim(s) == [] <==> IsBlank(s)
  {
    var r := Trim(s);
    var lo := SkipLeading(s, 0);
    if r != [] {
      assert r[0] == s[lo] && !IsSpace(s[lo]);
    }
  }

  /** `SkipLeading` stops at the first non-whitespace character. */
  lemma SkipLeadingAt(s: string, i: nat, j: nat)
    requires i <= j <= |s|
    requires forall k :: i <= k < j ==> IsSpace(s[k])
    requires j < |s| ==> !IsSpace(s[j])
    ensures SkipLeading(s, i) == j
  {
  }

  /** `SkipTrailing` stops just past the last non-whitespace character. */
  lemma SkipTrailingAt(s: string, lo: nat, e: nat, j: nat)
    requires lo <= j <= e <= |s|
    requires forall k :: j <= k < e ==> IsSpace(s[k])
    requires j > lo ==> !IsSpace(s[j - 1])
    ensures SkipTrailing(s, lo, e) == j
  {
  }

  /** Trimming removes exactly the whitespace around a text that neither starts nor ends
      with whitespace. */
  lemma TrimOfPadded(p: string, t: string, q: string)
    requires IsBlank(p) && IsBlank(q)
    requires t == [] || (!IsSpace(t[0]) && !IsSpace(t[|t| - 1]))
    ensures Trim(p + t + q) == t
  {
    var s := p + t + q;
    assert forall k :: 0 <= k < |p| ==> s[k] == p[k];
    assert forall k :: 0 <= k < |t| ==> s[|p| + k] == t[k];
    assert forall k :: |p| + |t| <= k < |s| ==> s[k] == q[k - |p| - |t|];
    if t == [] {
      SkipLeadingAt(s, 0, |s|);
      SkipTrailingAt(s, |s|, |s|, |s|);
    } else {
      SkipLeadingAt(s, 0, |p|);
      SkipTrailingAt(s, |p|, |s|, |p| + |t|);
      assert s[|p|..|p| + |t|] == t;
    }
  }

  /** Trimming twice is trimming once. */
  lemma TrimIdempotent(s: string)
    ensures Trim(Trim(s)) == Trim(s)
  {
    var r := Trim(s);
    SkipLeadingAt(r, 0, 0);
    SkipTrailingAt(r, 0, |r|, |r|);
    assert r[0..|r|] == r;
  }

  function DigitChar(d: int): (c: char)
    requires 0 <= d < 10
    ensures '0' <= c <= '9'
  {
    ('0' as int + d) as char
  }

  function DigitValue(c: char): int {
    c as int - '0' as int
  }

  predicate IsDigits(s: string) {
    forall i :: 0 <= i < |s| ==> '0' <= s[i] <= '9'
  }

  /** Decimal digits of a natural number, as `toString` prints them. */
  function NatToString(n: nat): (r: string)
    ensures 1 <= |r| && IsDigits(r)
    ensures n < 10 <==> |r| == 1
    ensures 10 <= n < 100 <==> |r| == 2
    decreases n
  {
    if n < 10 then [DigitChar(n)] else NatToString(n / 10) + [DigitChar(n % 10)]
  }

  /** `toString` of an integer: a minus sign before the digits of a negative number. */
  function IntToString(n: int): string {
    if n < 0 then "-" + NatToString(-n) else NatToString(n)
  }

  /** The number a string of decimal digits denotes (an inverse of `NatToString`). */
  function DigitsValue(s: string): int
    decreases |s|
  {
    if s == [] then 0 else 10 * DigitsValue(s[..|s| - 1]) + DigitValue(s[|s| - 1])
  }

  lemma {:induction false} NatToStringValue(n: nat)
    ensures DigitsValue(NatToString(n)) == n
    decreases n
  {
    var r := NatToString(n);
    if n >= 10 {
      NatToStringValue(n / 10);
      assert r[..|r| - 1] == NatToString(n / 10);
    }
  }

  /** A leading zero does not change the value of a digit string. */
  lemma {:induction false} LeadingZeroValue(s: string)
    ensures DigitsValue("0" + s) == DigitsValue(s)
    decreases |s|
  {
    if s != [] {
      assert ("0" + s)[..|"0" + s| - 1] == "0" + s[..|s| - 1];
      LeadingZeroValue(s[..|s| - 1]);
    }
  }
}
