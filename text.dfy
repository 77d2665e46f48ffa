/**
 * Character classes and string helpers shared by the client-side scripts and the
 * server-side messages: the JavaScript regular-expression classes `\s`, `\d`, `.`
 * and `[A-Za-z]`, ASCII upper-casing, decimal rendering of counts, and the
 * white-space strip (`str.strip()`) that Django's text fields apply to their input.
 */
module Text {

  predicate IsUpperLetter(c: char) { 'A' <= c <= 'Z' }

  predicate IsLowerLetter(c: char) { 'a' <= c <= 'z' }

  /** The class `[A-Za-z]`. */
  predicate IsLetter(c: char) { IsUpperLetter(c) || IsLowerLetter(c) }

  /** The class `\d`. */
  predicate IsDigit(c: char) { '0' <= c <= '9' }

  /** The class `\s` of JavaScript regular expressions (white space and line terminators). */
  predicate IsSpace(c: char) {
    var k := c as int;
    || k == 0x09 || k == 0x0A || k == 0x0B || k == 0x0C || k == 0x0D || k == 0x20
    || k == 0xA0 || k == 0x1680 || (0x2000 <= k <= 0x200A) || k == 0x2028 || k == 0x2029
    || k == 0x202F || k == 0x205F || k == 0x3000 || k == 0xFEFF
  }

  /** The characters that `.` does not match in a JavaScript regular expression. */
  predicate IsLineTerminator(c: char) {
    var k := c as int;
    k == 0x0A || k == 0x0D || k == 0x2028 || k == 0x2029
  }

  lemma LineTerminatorIsSpace(c: char)
    ensures IsLineTerminator(c) ==> IsSpace(c)
  {}

  predicate AllSpace(s: string) { forall i :: 0 <= i < |s| ==> IsSpace(s[i]) }

  predicate AllDigits(s: string) { forall i :: 0 <= i < |s| ==> IsDigit(s[i]) }

  predicate NoLetter(s: string) { forall i :: 0 <= i < |s| ==> !IsLetter(s[i]) }

  predicate NoLowercase(s: string) { forall i :: 0 <= i < |s| ==> !IsLowerLetter(s[i]) }

  predicate NoLineTerminator(s: string) { forall i :: 0 <= i < |s| ==> !IsLineTerminator(s[i]) }

  predicate HasDigit(s: string) { exists i :: 0 <= i < |s| && IsDigit(s[i]) }

  /** ASCII `toUpperCase`: `a`-`z` become `A`-`Z`, every other character is kept. */
  function UpperChar(c: char): (u: char)
    ensures !IsLowerLetter(u)
    ensures IsLowerLetter(c) ==> IsUpperLetter(u) && u as int == c as int - 32
    ensures !IsLowerLetter(c) ==> u == c
  {
    if IsLowerLetter(c) then (c as int - 32) as char else c
  }

  function Upper(s: string): (r: string)
    ensures |r| == |s| && NoLowercase(r)
    ensures forall i :: 0 <= i < |s| ==> r[i] == UpperChar(s[i])
  {
    seq(|s|, i requires 0 <= i < |s| => UpperChar(s[i]))
  }

  /** Upper-casing a string that has no lower-case letter changes nothing. */
  lemma UpperOfUppercase(s: string)
    requires NoLowercase(s)
    ensures Upper(s) == s
  {}

  function DigitChar(d: nat): (c: char)
    requires d < 10
    ensures IsDigit(c) && DigitValue(c) == d
  {
    ('0' as int + d) as char
  }

  function DigitValue(c: char): nat
    requires IsDigit(c)
  {
    c as int - '0' as int
  }

  /**
   * The white space that Python's `str.strip()` removes: the characters for which
   * `str.isspace()` holds.
   */
  predicate IsPythonSpace(c: char) {
    var k := c as int;
    || (0x09 <= k <= 0x0D) || (0x1C <= k <= 0x20) || k == 0x85 || k == 0xA0 || k == 0x1680
    || (0x2000 <= k <= 0x200A) || k == 0x2028 || k == 0x2029 || k == 0x202F || k == 0x205F
    || k == 0x3000
  }

  predicate AllPythonSpace(s: string) { forall i :: 0 <= i < |s| ==> IsPythonSpace(s[i]) }

  /** The number of white-space characters that open `s`. */
  function LeadingSpace(s: string): (n: nat)
    ensures n <= |s| && AllPythonSpace(s[..n])
    ensures n < |s| ==> !IsPythonSpace(s[n])
    decreases |s|
  {
    if s == [] || !IsPythonSpace(s[0]) then 0
    else
      var m := LeadingSpace(s[1..]);
      assert s[..1 + m] == [s[0]] + s[1..][..m];
      1 + m
  }

  /** The number of white-space characters that close `s`. */
  function TrailingSpace(s: string): (n: nat)
    ensures n <= |s| && AllPythonSpace(s[|s| - n..])
    ensures n < |s| ==> !IsPythonSpace(s[|s| - n - 1])
    decreases |s|
  {
    if s == [] || !IsPythonSpace(s[|s| - 1]) then 0
    else
      var t := s[..|s| - 1];
      var m := TrailingSpace(t);
      assert s[|s| - (1 + m)..] == t[|t| - m..] + [s[|s| - 1]];
      1 + m
  }

  /**
   * Python's `str.strip()`: `s` without its leading and trailing white space. The result
   * is the piece of `s` that starts after the leading white space, it neither starts nor
   * ends with white space, everything cut off is white space, and it is empty exactly
   * when `s` is all white space.
   */
  function Strip(s: string): (r: string)
    ensures LeadingSpace(s) + |r| <= |s| && r == s[LeadingSpace(s)..LeadingSpace(s) + |r|]
    ensures AllPythonSpace(s[LeadingSpace(s) + |r|..])
    ensures r != [] ==> !IsPythonSpace(r[0]) && !IsPythonSpace(r[|r| - 1])
    ensures r == [] <==> AllPythonSpace(s)
  {
    var t := s[LeadingSpace(s)..];
    StripCut(s, LeadingSpace(s), t, TrailingSpace(t));
    t[..|t| - TrailingSpace(t)]
  }

  /** Cutting `n` leading and `m` trailing white-space characters, the first and last kept ones not white space. */
  lemma StripCut(s: string, n: nat, t: string, m: nat)
    requires n <= |s| && t == s[n..] && m <= |t|
    requires AllPythonSpace(s[..n]) && AllPythonSpace(t[|t| - m..])
    requires n < |s| ==> !IsPythonSpace(s[n])
    requires m < |t| ==> !IsPythonSpace(t[|t| - m - 1])
    ensures var r := t[..|t| - m];
            && n + |r| <= |s| && r == s[n..n + |r|]
            && AllPythonSpace(s[n + |r|..])
            && (r != [] ==> !IsPythonSpace(r[0]) && !IsPythonSpace(r[|r| - 1]))
            && (r == [] <==> AllPythonSpace(s))
  {
    var r := t[..|t| - m];
    assert s[n + |r|..] == t[|t| - m..];
    if r == [] {
      // everything after the leading white space is cut, so nothing follows it
      assert t[|t| - m..] == t;
      assert AllPythonSpace(t);
      assert n == |s| && s[..n] == s;
    } else {
      assert r[0] == s[n] && r[|r| - 1] == t[|t| - m - 1];
    }
  }

  /** Stripping twice strips no more than stripping once. */
  lemma StripIdempotent(s: string)
    ensures Strip(Strip(s)) == Strip(s)
  {
    var r := Strip(s);
    if r != [] {
      assert LeadingSpace(r) == 0;
      assert TrailingSpace(r[LeadingSpace(r)..]) == 0;
    }
  }

  lemma ExampleStripBlank(s: string)
    requires s == "  "
    ensures Strip(s) == ""
  {
    assert IsPythonSpace(s[0]) && IsPythonSpace(s[1]);
  }

  lemma ExampleStripWord(s: string)
    requires s == " tree "
    ensures Strip(s) == "tree"
  {
    assert LeadingSpace(s[1..]) == 0;
    assert LeadingSpace(s) == 1;
    var t := s[1..];
    assert t == "tree ";
    assert TrailingSpace(t[..4]) == 0;
    assert TrailingSpace(t) == 1;
  }

  /** The decimal rendering of a count, as Python's `str` and JavaScript's `+` give it. */
  function NatToString(n: nat): (r: string)
    ensures |r| > 0 && AllDigits(r)
    ensures n < 10 <==> |r| == 1
    decreases n
  {
    if n < 10 then [DigitChar(n)] else NatToString(n / 10) + [DigitChar(n % 10)]
  }
}
