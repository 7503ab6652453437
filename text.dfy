/** ECMAScript's String.prototype.trim, on strings of Unicode scalar values. */
module Text {

  /** The characters ECMAScript's trim strips: its white space and line terminators. */
  predicate IsWhitespace(c: char) {
    c == '\t' || c == '\n' || c == '\U{B}' || c == '\U{C}' || c == '\r' || c == ' ' ||
    c == '\U{A0}' || c == '\U{1680}' || ('\U{2000}' <= c <= '\U{200A}') ||
    c == '\U{2028}' || c == '\U{2029}' || c == '\U{202F}' || c == '\U{205F}' ||
    c == '\U{3000}' || c == '\U{FEFF}'
  }

  predicate AllWhitespace(s: string) {
    forall i :: 0 <= i < |s| ==> IsWhitespace(s[i])
  }

  /** How many white-space characters `s` starts with. */
  function LeadingWhitespace(s: string): (n: nat)
    ensures n <= |s|
    ensures forall i :: 0 <= i < n ==> IsWhitespace(s[i])
    ensures n < |s| ==> !IsWhitespace(s[n])
  {
    if s != [] && IsWhitespace(s[0]) then 1 + LeadingWhitespace(s[1..]) else 0
  }

  /** Where the white space that `s` ends with begins. */
  function TrailingWhitespaceStart(s: string): (m: nat)
    ensures m <= |s|
    ensures forall i :: m <= i < |s| ==> IsWhitespace(s[i])
    ensures m > 0 ==> !IsWhitespace(s[m - 1])
  {
    if s != [] && IsWhitespace(s[|s| - 1]) then TrailingWhitespaceStart(s[..|s| - 1]) else |s|
  }

  /** `s` is `r` with only white space before it (the first `k` characters) and after it. */
  ghost predicate PaddedAt(s: string, k: int, r: string) {
    0 <= k && k + |r| <= |s| && s[k..k + |r|] == r &&
    (forall i :: 0 <= i < k ==> IsWhitespace(s[i])) &&
    (forall i :: k + |r| <= i < |s| ==> IsWhitespace(s[i]))
  }

  /**
   * Removes white space from both ends: the result is a stretch of `s` with
   * only white space before and after it, starts and ends with another
   * character, and is empty exactly when `s` is all white space.
   */
  function Trim(s: string): (r: string)
    ensures r == [] <==> AllWhitespace(s)
    ensures r != [] ==> !IsWhitespace(r[0]) && !IsWhitespace(r[|r| - 1])
    ensures exists k :: PaddedAt(s, k, r)
  {
    var n, m := LeadingWhitespace(s), TrailingWhitespaceStart(s);
    if n == |s| then
      assert PaddedAt(s, n, []);
      []
    else
      assert PaddedAt(s, n, s[n..m]);
      s[n..m]
  }

  lemma TrimIdempotent(s: string)
    ensures Trim(Trim(s)) == Trim(s)
  {
  }
}
