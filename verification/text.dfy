/** The string operations the views use: toLowerCase / toUpperCase
    (ASCII letters only), trim (the JavaScript white-space and line-terminator
    set), includes / startsWith, and replace(/\D/g, ''). */
module Text {
  import Seqs

  function LowerChar(c: char): char
  {
    if 'A' <= c <= 'Z' then (c as int + 32) as char else c
  }

  function UpperChar(c: char): char
  {
    if 'a' <= c <= 'z' then (c as int - 32) as char else c
  }

  /** String.prototype.toLowerCase, restricted to ASCII letters. */
  function Lower(s: string): (r: string)
    ensures |r| == |s|
    ensures forall i :: 0 <= i < |s| ==> r[i] == LowerChar(s[i])
  {
    seq(|s|, i requires 0 <= i < |s| => LowerChar(s[i]))
  }

  /** t occurs in s as a contiguous block starting at index i. */
  predicate OccursAt(s: string, t: string, i: int)
  {
    0 <= i <= |s| - |t| && s[i..i + |t|] == t
  }

  /** String.prototype.includes. */
  predicate Contains(s: string, t: string)
  {
    exists i | 0 <= i <= |s| - |t| :: OccursAt(s, t, i)
  }

  /** String.prototype.startsWith. */
  predicate StartsWith(s: string, t: string)
  {
    |t| <= |s| && s[..|t|] == t
  }

  lemma StartsWithContains(s: string, t: string)
    requires StartsWith(s, t)
    ensures Contains(s, t)
  {
    assert OccursAt(s, t, 0);
  }

  lemma EmptyContained(s: string)
    ensures Contains(s, "")
  {
    assert OccursAt(s, "", 0);
  }

  /** A string containing t followed by more contains t: typing more
      characters into a search box can only narrow an includes-search. */
  lemma ContainsExtended(s: string, t: string, u: string)
    requires Contains(s, t + u)
    ensures Contains(s, t)
  {
    var i :| 0 <= i <= |s| - |t + u| && OccursAt(s, t + u, i);
    assert s[i..i + |t|] == s[i..i + |t + u|][..|t|];
    assert OccursAt(s, t, i);
  }

  lemma LowerAppend(a: string, b: string)
    ensures Lower(a + b) == Lower(a) + Lower(b)
  {
  }

  /** The characters String.prototype.trim removes: the ECMAScript
      WhiteSpace and LineTerminator code points. */
  predicate IsSpace(c: char)
  {
    var n := c as int;
    n == 0x09 || n == 0x0A || n == 0x0B || n == 0x0C || n == 0x0D || n == 0x20
    || n == 0xA0 || n == 0x1680 || (0x2000 <= n <= 0x200A) || n == 0x2028
    || n == 0x2029 || n == 0x202F || n == 0x205F || n == 0x3000 || n == 0xFEFF
  }

  /** The first index at or after i that is not white space. */
  function SkipStart(s: string, i: nat): (a: nat)
    requires i <= |s|
    ensures i <= a <= |s|
    ensures forall k :: i <= k < a ==> IsSpace(s[k])
    ensures a == |s| || !IsSpace(s[a])
    decreases |s| - i
  {
    if i < |s| && IsSpace(s[i]) then SkipStart(s, i + 1) else i
  }

  /** The end of s[lo..j] once white space at its end is dropped. */
  function SkipEnd(s: string, lo: nat, j: nat): (b: nat)
    requires lo <= j <= |s|
    ensures lo <= b <= j
    ensures forall k :: b <= k < j ==> IsSpace(s[k])
    ensures b == lo || !IsSpace(s[b - 1])
    decreases j
  {
    if j > lo && IsSpace(s[j - 1]) then SkipEnd(s, lo, j - 1) else j
  }

  /** String.prototype.trim: the result is the block of s left after
      dropping white space at both ends; it neither starts nor ends with
      white space, and it is empty exactly when s is all white space. */
  function Trim(s: string): (r: string)
    ensures exists a :: TrimmedAt(s, r, a)
    ensures r == [] || (!IsSpace(r[0]) && !IsSpace(r[|r| - 1]))
    ensures r == [] <==> forall i :: 0 <= i < |s| ==> IsSpace(s[i])
  {
    var a := SkipStart(s, 0);
    var b := SkipEnd(s, a, |s|);
    assert TrimmedAt(s, s[a..b], a);
    assert a == b ==> forall i :: 0 <= i < |s| ==> IsSpace(s[i]);
    s[a..b]
  }

  /** r is the block of s starting at a, and everything outside it is
      white space. */
  predicate TrimmedAt(s: string, r: string, a: int)
  {
    && 0 <= a <= |s| - |r| && s[a..a + |r|] == r
    && (forall i :: 0 <= i < a ==> IsSpace(s[i]))
    && (forall i :: a + |r| <= i < |s| ==> IsSpace(s[i]))
  }

  predicate IsDigit(c: char)
  {
    '0' <= c <= '9'
  }

  predicate AllDigits(s: string)
  {
    forall i :: 0 <= i < |s| ==> IsDigit(s[i])
  }

  /** s.replace(/\D/g, ''): the digits of s, in order. */
  function StripNonDigits(s: string): (r: string)
    ensures AllDigits(r)
    ensures |r| <= |s|
  {
    Seqs.Filter(s, IsDigit)
  }

  lemma StripAppend(a: string, b: string)
    ensures StripNonDigits(a + b) == StripNonDigits(a) + StripNonDigits(b)
  {
    Seqs.FilterAppend(a, b, IsDigit);
  }

  /** Stripping a string of digits gives it back unchanged. */
  lemma StripDigits(s: string)
    requires AllDigits(s)
    ensures StripNonDigits(s) == s
  {
    Seqs.FilterAll(s, IsDigit);
  }

  /** Stripping a string without digits gives the empty string. */
  lemma StripNoDigits(s: string)
    requires forall i :: 0 <= i < |s| ==> !IsDigit(s[i])
    ensures StripNonDigits(s) == ""
  {
    Seqs.FilterNone(s, IsDigit);
  }
}
