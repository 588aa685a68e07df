/**
 * The two string operations the session logic relies on: JavaScript's
 * `String.prototype.trim` (which decides whether a chat draft may be sent)
 * and the decimal rendering of a count (the chat badge).
 */
module Text {

  /** JavaScript's WhiteSpace and LineTerminator code points, the set `trim` removes. */
  predicate IsWhite(c: char) {
    var n := c as int;
    n == 0x09 || n == 0x0A || n == 0x0B || n == 0x0C || n == 0x0D || n == 0x20 ||
    n == 0xA0 || n == 0x1680 || (0x2000 <= n <= 0x200A) || n == 0x2028 || n == 0x2029 ||
    n == 0x202F || n == 0x205F || n == 0x3000 || n == 0xFEFF
  }

  predicate AllWhite(s: string) {
    forall i :: 0 <= i < |s| ==> IsWhite(s[i])
  }

  /** The number of white-space characters `s` starts with. */
  function LeadingWhite(s: string): (n: nat)
    ensures n <= |s|
    ensures forall i :: 0 <= i < n ==> IsWhite(s[i])
    ensures n == |s| || !IsWhite(s[n])
  {
    if s == [] || !IsWhite(s[0]) then 0
    else
      var n := LeadingWhite(s[1..]);
      assert forall i :: 1 <= i < n + 1 ==> s[i] == s[1..][i - 1];
      1 + n
  }

  /** The number of white-space characters `s` ends with. */
  function TrailingWhite(s: string): (n: nat)
    ensures n <= |s|
    ensures forall i :: |s| - n <= i < |s| ==> IsWhite(s[i])
    ensures n == |s| || !IsWhite(s[|s| - 1 - n])
  {
    if s == [] || !IsWhite(s[|s| - 1]) then 0
    else
      var t := s[..|s| - 1];
      var n := TrailingWhite(t);
      assert forall i :: |t| - n <= i < |t| ==> s[i] == t[i];
      1 + n
  }

  /** `String.prototype.trim`: white space removed at both ends. */
  function Trim(s: string): (r: string)
    ensures |r| <= |s|
    ensures r == [] || (!IsWhite(r[0]) && !IsWhite(r[|r| - 1]))
  {
    var i := LeadingWhite(s);
    var n := TrailingWhite(s[i..]);
    assert n < |s| - i ==> s[|s| - 1 - n] == s[i..][|s| - i - 1 - n];
    s[i..|s| - n]
  }

  /** What `trim` keeps is the part of `s` between its leading and its trailing white space. */
  lemma TrimIsSlice(s: string, i: nat, j: nat)
    requires i == LeadingWhite(s) && j == |s| - TrailingWhite(s[i..])
    ensures i <= j <= |s| && Trim(s) == s[i..j] && AllWhite(s[..i]) && AllWhite(s[j..])
  {
    PrefixWhite(s, i);
    SuffixWhite(s, i, |s| - j);
  }

  lemma PrefixWhite(s: string, i: nat)
    requires i == LeadingWhite(s)
    ensures AllWhite(s[..i])
  {
    assert forall k :: 0 <= k < i ==> s[..i][k] == s[k];
  }

  lemma SuffixWhite(s: string, i: nat, n: nat)
    requires i == LeadingWhite(s) && n == TrailingWhite(s[i..])
    ensures AllWhite(s[|s| - n..])
  {
    var t := s[i..];
    var u := s[|s| - n..];
    assert forall k :: 0 <= k < n ==> u[k] == t[|t| - n + k];
  }

  /** A draft is rejected exactly when it is made of white space only (the empty draft included). */
  lemma TrimEmptyIffAllWhite(s: string)
    ensures Trim(s) == [] <==> AllWhite(s)
  {
    var i := LeadingWhite(s);
    if i < |s| {
      var t := s[i..];
      assert t[0] == s[i];
      assert TrailingWhite(t) < |t|;
    }
  }

  /** `!s.trim()`: the test that rejects a chat draft. */
  function IsBlank(s: string): (b: bool)
    ensures b <==> AllWhite(s)
  {
    TrimEmptyIffAllWhite(s);
    Trim(s) == []
  }

  function DigitChar(d: nat): (c: char)
    requires d < 10
    ensures '0' <= c <= '9' && (c as int) - ('0' as int) == d
  {
    ('0' as int + d) as char
  }

  predicate IsDigit(c: char) { '0' <= c <= '9' }

  function DigitValue(c: char): (d: nat)
    requires IsDigit(c)
    ensures d < 10
  {
    (c as int) - ('0' as int)
  }

  /** The decimal numeral of `n`, as a JavaScript number is rendered in markup. */
  function DecimalString(n: nat): (s: string)
    ensures |s| > 0 && forall i :: 0 <= i < |s| ==> IsDigit(s[i])
    ensures s[0] == '0' ==> n == 0
    ensures n < 10 ==> |s| == 1
    ensures 10 <= n < 100 ==> |s| == 2
  {
    if n < 10 then [DigitChar(n)] else DecimalString(n / 10) + [DigitChar(n % 10)]
  }

  /** Reads a string of digits back as a number; the inverse of DecimalString. */
  function ParseDecimal(s: string): nat
    requires forall i :: 0 <= i < |s| ==> IsDigit(s[i])
  {
    if s == [] then 0
    else ParseDecimal(s[..|s| - 1]) * 10 + DigitValue(s[|s| - 1])
  }

  lemma {:induction false} DecimalRoundTrip(n: nat)
    ensures ParseDecimal(DecimalString(n)) == n
  {
    if n >= 10 {
      var s := DecimalString(n);
      assert s[..|s| - 1] == DecimalString(n / 10);
      DecimalRoundTrip(n / 10);
    }
  }
}
