/**
 The blank check of the add form: a field is rejected when `String.prototype.trim`
 leaves nothing of it. This module defines the characters that ECMAScript's trim
 removes, the trim itself, and the plain
 "every character is white space" reading that the rest of the model uses.
 */
module Whitespace {

  /** The ECMAScript WhiteSpace and LineTerminator code points (section 12.2 and
      12.3 of ECMA-262): TAB, VT, FF, ZWNBSP, LF, CR, LS, PS and every code point of
      Unicode category Zs. */
  predicate IsWhiteSpace(c: char) {
    || c == '\t' || c == '\n' || c == '\U{000B}' || c == '\U{000C}' || c == '\r'
    || c == ' ' || c == '\U{00A0}' || c == '\U{1680}'
    || ('\U{2000}' <= c <= '\U{200A}')
    || c == '\U{2028}' || c == '\U{2029}' || c == '\U{202F}' || c == '\U{205F}'
    || c == '\U{3000}' || c == '\U{FEFF}'
  }

  /** A string is blank when it holds nothing but white space (the empty string included). */
  predicate IsBlank(s: string) {
    forall i :: 0 <= i < |s| ==> IsWhiteSpace(s[i])
  }

  /** `r` is `s[a..b]`, and everything of `s` before `a` and from `b` on is white space. */
  predicate StripsTo(s: string, a: int, b: int, r: string) {
    && 0 <= a <= b <= |s| && r == s[a..b]
    && (forall i :: 0 <= i < a ==> IsWhiteSpace(s[i]))
    && (forall i :: b <= i < |s| ==> IsWhiteSpace(s[i]))
  }

  /** The length of the longest all-white-space prefix. */
  function LeadingSpace(s: string): (n: int)
    ensures 0 <= n <= |s|
    ensures forall i :: 0 <= i < n ==> IsWhiteSpace(s[i])
    ensures n < |s| ==> !IsWhiteSpace(s[n])
  {
    if |s| > 0 && IsWhiteSpace(s[0]) then
      var m := LeadingSpace(s[1..]);
      assert forall i :: 1 <= i < 1 + m ==> s[i] == s[1..][i - 1];
      1 + m
    else 0
  }

  /** The length of the longest all-white-space suffix. */
  function TrailingSpace(s: string): (n: int)
    ensures 0 <= n <= |s|
    ensures forall i :: |s| - n <= i < |s| ==> IsWhiteSpace(s[i])
    ensures n < |s| ==> !IsWhiteSpace(s[|s| - 1 - n])
  {
    if |s| > 0 && IsWhiteSpace(s[|s| - 1]) then
      var m := TrailingSpace(s[..|s| - 1]);
      assert forall i :: |s| - 1 - m <= i < |s| - 1 ==> s[i] == s[..|s| - 1][i];
      1 + m
    else 0
  }

  /** `String.prototype.trim`: the leading and the trailing white space removed,
      and nothing else. */
  function Trim(s: string): (r: string)
    ensures |r| <= |s|
    ensures r == [] || (!IsWhiteSpace(r[0]) && !IsWhiteSpace(r[|r| - 1]))
    ensures exists a, b :: StripsTo(s, a, b, r)
  {
    var a := LeadingSpace(s);
    var b := if a == |s| then |s| else |s| - TrailingSpace(s);
    assert a <= b;
    assert StripsTo(s, a, b, s[a..b]);
    s[a..b]
  }

  /** The trimmed string is empty exactly when the input is blank; so the source's
      `!x.trim()` test and `IsBlank(x)` agree on every string. */
  lemma TrimEmptyIffBlank(s: string)
    ensures Trim(s) == [] <==> IsBlank(s)
  {
    var a := LeadingSpace(s);
    if a < |s| {
      assert !IsWhiteSpace(s[a]);
    }
  }
}
