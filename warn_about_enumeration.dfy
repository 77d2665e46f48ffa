/**
 * The submission page's enumeration warning: the pattern
 * `\([^A-Za-z]*\d+[^A-Za-z]*\)\s*$`, tested against the clue box when it loses
 * focus, decides whether the "no enumeration" warning is hidden or shown.
 */
module EnumWarning {
  import opened Text
  import opened Enumerate

  /**
   * The pattern matches with its `(` at `i` and its `)` at `j`: the text between
   * them has a digit and no ASCII letter, and only white space follows `j`.
   */
  ghost predicate EnumGroup(s: string, i: int, j: int) {
    && 0 <= i < j < |s|
    && s[i] == '(' && s[j] == ')'
    && NoLetter(s[i + 1..j]) && HasDigit(s[i + 1..j])
    && AllSpace(s[j + 1..])
  }

  /** What `ENUM_REGEX.test(s)` answers, stated as the existence of a match. */
  ghost predicate EndsInEnumeration(s: string) {
    exists i, j :: EnumGroup(s, i, j)
  }

  // ---------------------------------------------------------------------------
  // A right-to-left test of the pattern
  // ---------------------------------------------------------------------------

  /** The length of `s` without its trailing white space. */
  function TrimmedLength(s: string): (k: nat)
    ensures k <= |s| && AllSpace(s[k..]) && (k == 0 || !IsSpace(s[k - 1]))
    decreases |s|
  {
    if s != [] && IsSpace(s[|s| - 1]) then
      var k := TrimmedLength(s[..|s| - 1]);
      assert s[..|s| - 1][k..] + [s[|s| - 1]] == s[k..];
      k
    else |s|
  }

  /** A `(` at `i` before `k` that opens the group, `d` saying whether a digit was seen from `k` on. */
  ghost predicate OpensGroup(s: string, i: int, k: int, d: bool) {
    0 <= i < k <= |s| && s[i] == '(' && NoLetter(s[i + 1..k]) && (d || HasDigit(s[i + 1..k]))
  }

  /** Walks left from `k` over non-letters, looking for a `(` with a digit after it. */
  function ScanBack(s: string, k: nat, d: bool): bool
    requires k <= |s|
    decreases k
  {
    if k == 0 then false
    else
      var c := s[k - 1];
      if IsLetter(c) then false
      else if c == '(' && d then true
      else ScanBack(s, k - 1, d || IsDigit(c))
  }

  /** The walk finds a `(` exactly when one opens a group. */
  lemma {:induction false} ScanBackFinds(s: string, k: nat, d: bool)
    requires k <= |s|
    ensures ScanBack(s, k, d) <==> exists i :: OpensGroup(s, i, k, d)
    decreases k
  {
    if k > 0 {
      var c := s[k - 1];
      if IsLetter(c) {
        NoOpeningPastLetter(s, k);
      } else if c == '(' && d {
        assert OpensGroup(s, k - 1, k, d);
      } else {
        var d' := d || IsDigit(c);
        OpeningsPastNonLetter(s, k, d);
        ScanBackFinds(s, k - 1, d');
        assert ScanBack(s, k, d) == ScanBack(s, k - 1, d');
        if ScanBack(s, k, d) {
          var i :| OpensGroup(s, i, k - 1, d');
          assert OpensGroup(s, i, k, d);
        }
        if exists i :: OpensGroup(s, i, k, d) {
          var i :| OpensGroup(s, i, k, d);
          assert OpensGroup(s, i, k - 1, d');
        }
      }
    }
  }

  lemma NoOpeningPastLetter(s: string, k: nat)
    requires 0 < k <= |s| && IsLetter(s[k - 1])
    ensures forall i, d :: !OpensGroup(s, i, k, d)
  {
    forall i, d | 0 <= i < k - 1
      ensures !OpensGroup(s, i, k, d)
    {
      assert s[i + 1..k][k - 1 - (i + 1)] == s[k - 1];
    }
  }

  lemma OpeningsPastNonLetter(s: string, k: nat, d: bool)
    requires 0 < k <= |s| && !IsLetter(s[k - 1]) && !(s[k - 1] == '(' && d)
    ensures forall i :: OpensGroup(s, i, k, d) <==> OpensGroup(s, i, k - 1, d || IsDigit(s[k - 1]))
  {
    forall i
      ensures OpensGroup(s, i, k, d) <==> OpensGroup(s, i, k - 1, d || IsDigit(s[k - 1]))
    {
      if 0 <= i < k - 1 {
        var a := s[i + 1..k - 1];
        assert s[i + 1..k] == a + [s[k - 1]];
        NoLetterSnoc(a, s[k - 1]);
        HasDigitSnoc(a, s[k - 1]);
      }
    }
  }

  lemma NoLetterSnoc(a: string, c: char)
    ensures NoLetter(a + [c]) <==> NoLetter(a) && !IsLetter(c)
  {
    assert forall x :: 0 <= x < |a| ==> (a + [c])[x] == a[x];
    assert (a + [c])[|a|] == c;
  }

  lemma HasDigitSnoc(a: string, c: char)
    ensures HasDigit(a + [c]) <==> HasDigit(a) || IsDigit(c)
  {
    var t := a + [c];
    assert forall x :: 0 <= x < |a| ==> t[x] == a[x];
    assert t[|a|] == c;
    if HasDigit(t) {
      var x :| 0 <= x < |t| && IsDigit(t[x]);
      assert x == |a| || IsDigit(a[x]);
    }
  }

  /** The pattern test, computed: the last non-space character is `)`, and a group opens before it. */
  function EnumRegexTest(s: string): bool {
    var k := TrimmedLength(s);
    k > 0 && s[k - 1] == ')' && ScanBack(s, k - 1, false)
  }

  /** The `)` of any match is the last character that is not white space. */
  lemma CloseIsLastNonSpace(s: string, i: int, j: int)
    requires EnumGroup(s, i, j)
    ensures j == TrimmedLength(s) - 1
  {
    var k := TrimmedLength(s);
    forall x | j + 1 <= x < |s|
      ensures IsSpace(s[x])
    {
      assert s[j + 1..][x - (j + 1)] == s[x];
    }
    forall x | k <= x < |s|
      ensures IsSpace(s[x])
    {
      assert s[k..][x - k] == s[x];
    }
  }

  /** The computed test answers exactly what the pattern does. */
  lemma RegexTestMeansEnumeration(s: string)
    ensures EnumRegexTest(s) <==> EndsInEnumeration(s)
  {
    var k := TrimmedLength(s);
    if k > 0 {
      ScanBackFinds(s, k - 1, false);
    }
    if EnumRegexTest(s) {
      var i :| OpensGroup(s, i, k - 1, false);
      assert EnumGroup(s, i, k - 1);
    }
    if EndsInEnumeration(s) {
      var i, j :| EnumGroup(s, i, j);
      CloseIsLastNonSpace(s, i, j);
      assert OpensGroup(s, i, k - 1, false);
    }
  }

  /** White space after the closing parenthesis does not change the verdict. */
  lemma TrailingSpaceIrrelevant(s: string, w: string)
    requires AllSpace(w)
    ensures EndsInEnumeration(s + w) <==> EndsInEnumeration(s)
  {
    var t := s + w;
    if EndsInEnumeration(t) {
      var i, j :| EnumGroup(t, i, j);
      forall x | |s| <= x < |t|
        ensures IsSpace(t[x])
      {
        assert t[x] == w[x - |s|];
      }
      assert j < |s|;
      assert t[i + 1..j] == s[i + 1..j];
      assert t[j + 1..] == s[j + 1..] + w;
      forall x | j + 1 <= x < |s|
        ensures IsSpace(s[x])
      {
        assert t[j + 1..][x - (j + 1)] == s[x];
      }
      assert EnumGroup(s, i, j);
    }
    if EndsInEnumeration(s) {
      var i, j :| EnumGroup(s, i, j);
      assert t[i + 1..j] == s[i + 1..j];
      assert t[j + 1..] == s[j + 1..] + w;
      assert EnumGroup(t, i, j);
    }
  }

  // ---------------------------------------------------------------------------
  // The warning element
  // ---------------------------------------------------------------------------

  /** The `display` style of the warning element. */
  datatype Display = Hidden | Shown

  /** `check_for_enumeration`: hide the warning when the clue passes, show it otherwise. */
  function CheckForEnumeration(clue: string): (d: Display)
    ensures d == Hidden <==> EndsInEnumeration(clue)
    ensures d == Shown <==> !EndsInEnumeration(clue)
  {
    RegexTestMeansEnumeration(clue);
    if EnumRegexTest(clue) then Hidden else Shown
  }

  // ---------------------------------------------------------------------------
  // What the enumeration script writes always passes
  // ---------------------------------------------------------------------------

  /** A clue whose stripped, upper-cased text has a letter comes back from `enumerate` with an enumeration the check accepts. */
  lemma EnumeratedPassesCheck(clue: string)
    requires LetterCount(StripEnumeration(Upper(clue))) > 0
    ensures EndsInEnumeration(Enumerated(clue))
  {
    var s := StripEnumeration(Upper(clue));
    var e := Enumeration(s);
    var r := s + " (" + e + ")";
    if !HasDigit(e) {
      NoDigitsSumToZero(e);
    }
    assert r[|s| + 1] == '(' && r[|s| + 2 + |e|] == ')';
    assert r[|s| + 2..|s| + 2 + |e|] == e;
    assert r[|s| + 3 + |e|..] == [];
    assert EnumGroup(r, |s| + 1, |s| + 2 + |e|);
  }

  // ---------------------------------------------------------------------------
  // Clues from the page's own examples
  // ---------------------------------------------------------------------------

  lemma AcceptsSingleLength(s: string)
    requires s == "(7)"
    ensures EndsInEnumeration(s)
  {
    assert s[1..2][0] == s[1] && IsDigit(s[1]);
    assert s[2 + 1..] == [];
    assert EnumGroup(s, 0, 2);
  }

  lemma AcceptsTwoWords(s: string)
    requires s == "(7, 7)"
    ensures EndsInEnumeration(s)
  {
    assert s[1..5][0] == s[1] && IsDigit(s[1]);
    assert s[5 + 1..] == [];
    assert EnumGroup(s, 0, 5);
  }

  lemma AcceptsHyphenated(s: string)
    requires s == "(4-5)"
    ensures EndsInEnumeration(s)
  {
    assert s[1..4][0] == s[1] && IsDigit(s[1]);
    assert s[4 + 1..] == [];
    assert EnumGroup(s, 0, 4);
  }

  lemma RejectsEmptyGroup(s: string)
    requires s == "()"
    ensures !EndsInEnumeration(s)
  {
    RegexTestMeansEnumeration(s);
    assert TrimmedLength(s) == 2;
  }

  lemma RejectsSpelledLength(s: string)
    requires s == "(seven)"
    ensures !EndsInEnumeration(s)
  {
    RegexTestMeansEnumeration(s);
    assert TrimmedLength(s) == 7;
  }
}
