/** The two JavaScript string operations the handlers decide on: `trim()` and `||` on strings. */
module Text {

  /** The code points `String.prototype.trim` removes: ECMAScript WhiteSpace and LineTerminator. */
  predicate IsWhiteSpace(c: char) {
    c in {'\t', '\n', '\U{B}', '\U{C}', '\r', ' ', '\U{A0}', '\U{1680}',
          '\U{2000}', '\U{2001}', '\U{2002}', '\U{2003}', '\U{2004}', '\U{2005}',
          '\U{2006}', '\U{2007}', '\U{2008}', '\U{2009}', '\U{200A}',
          '\U{2028}', '\U{2029}', '\U{202F}', '\U{205F}', '\U{3000}', '\U{FEFF}'}
  }

  predicate AllWhiteSpace(s: string) {
    forall i :: 0 <= i < |s| ==> IsWhiteSpace(s[i])
  }

  /** The length of the longest all-white-space prefix of `s`. */
  function LeadingWhiteSpace(s: string): (k: nat)
    ensures k <= |s|
    ensures AllWhiteSpace(s[..k])
    ensures k < |s| ==> !IsWhiteSpace(s[k])
  {
    if s == [] || !IsWhiteSpace(s[0]) then 0
    else
      var k := 1 + LeadingWhiteSpace(s[1..]);
      assert s[..k] == [s[0]] + s[1..][..k - 1];
      k
  }

  /** Where the longest all-white-space suffix of `s` starts. */
  function TrailingWhiteSpace(s: string): (e: nat)
    ensures e <= |s|
    ensures AllWhiteSpace(s[e..])
    ensures e > 0 ==> !IsWhiteSpace(s[e - 1])
  {
    if s == [] || !IsWhiteSpace(s[|s| - 1]) then |s|
    else
      var e := TrailingWhiteSpace(s[..|s| - 1]);
      assert s[e..] == s[..|s| - 1][e..] + [s[|s| - 1]];
      e
  }

  /** `r` is `s` with the white-space prefix `s[..a]` and suffix `s[b..]` cut off. */
  ghost predicate CutFrom(r: string, s: string, a: int, b: int) {
    0 <= a <= b <= |s| && r == s[a..b] && AllWhiteSpace(s[..a]) && AllWhiteSpace(s[b..])
  }

  /** `s.trim()`. */
  function Trim(s: string): (r: string)
    ensures r == [] <==> AllWhiteSpace(s)
    ensures r != [] ==> !IsWhiteSpace(r[0]) && !IsWhiteSpace(r[|r| - 1])
  {
    var k := LeadingWhiteSpace(s);
    if k == |s| then []
    else
      var e := TrailingWhiteSpace(s);
      assert !IsWhiteSpace(s[k]) && k < e;
      s[k..e]
  }

  /** What trimming keeps is `s` with nothing but white space cut from either end. */
  lemma TrimCutsWhiteSpace(s: string)
    ensures exists a, b :: CutFrom(Trim(s), s, a, b)
  {
    var k := LeadingWhiteSpace(s);
    if k == |s| {
      assert CutFrom(Trim(s), s, |s|, |s|);
    } else {
      var e := TrailingWhiteSpace(s);
      assert CutFrom(Trim(s), s, k, e);
    }
  }

  /** `!s.trim()`: the string is empty once trimmed. */
  predicate IsBlank(s: string) {
    Trim(s) == []
  }

  /** `a || b` on two strings: the empty string is falsy. */
  function Or(a: string, b: string): string {
    if a != [] then a else b
  }
}
