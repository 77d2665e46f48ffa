/**
 * The client-side `enumerate(clue)` of the contest form: upper-case the word, strip a
 * trailing parenthesised group, and append a crossword enumeration such as "(7, 7)".
 */
module Enumerate {
  import opened Text
  import opened Wrappers

  // ---------------------------------------------------------------------------
  // The strip `clue.replace(/\s*\(.*\)\s*$/, "")`
  // ---------------------------------------------------------------------------

  /** `t` matches `.*\)\s*$`: a `)` reached without crossing a line terminator, then only white space. */
  predicate ClosesAtEnd(t: string) {
    exists j :: 0 <= j < |t| && t[j] == ')' && NoLineTerminator(t[..j]) && AllSpace(t[j + 1..])
  }

  /** The pattern `\s*\(.*\)\s*$` matches the suffix of `s` that starts at `p`. */
  ghost predicate StripMatchesAt(s: string, p: int) {
    0 <= p <= |s| &&
    exists i :: p <= i < |s| && AllSpace(s[p..i]) && s[i] == '(' && ClosesAtEnd(s[i + 1..])
  }

  /** The first `(` at or after `from` whose remainder closes at the end of `s`. */
  function FirstOpening(s: string, from: nat): (r: Option<nat>)
    requires from <= |s|
    ensures r.Some? ==> from <= r.value < |s| && s[r.value] == '(' && ClosesAtEnd(s[r.value + 1..])
    ensures forall i :: from <= i < |s| && (r.None? || i < r.value) ==> !(s[i] == '(' && ClosesAtEnd(s[i + 1..]))
    decreases |s| - from
  {
    if from == |s| then None
    else if s[from] == '(' && ClosesAtEnd(s[from + 1..]) then Some(from)
    else FirstOpening(s, from + 1)
  }

  /** The start of the run of white space that ends just before position `i`. */
  function SpaceRunStart(s: string, i: nat): (p: nat)
    requires i <= |s|
    ensures p <= i && AllSpace(s[p..i]) && (p == 0 || !IsSpace(s[p - 1]))
    decreases i
  {
    if i > 0 && IsSpace(s[i - 1]) then
      var p := SpaceRunStart(s, i - 1);
      assert s[p..i] == s[p..i - 1] + [s[i - 1]];
      p
    else i
  }

  lemma NoEarlierMatch(s: string, i: nat, q: nat, p: int)
    requires i < |s| && FirstOpening(s, 0) == Some(i) && q == SpaceRunStart(s, i)
    requires 0 <= p < q
    ensures !StripMatchesAt(s, p)
  {
    assert !IsSpace(s[q - 1]);
    forall i' | p <= i' < |s| ensures !(AllSpace(s[p..i']) && s[i'] == '(' && ClosesAtEnd(s[i' + 1..])) {
      NoMatchThrough(s, i, q, p, i');
    }
  }

  /** A match from `p` would need a `(` before the first one, or white space across `s[q - 1]`. */
  lemma NoMatchThrough(s: string, i: nat, q: nat, p: int, i': int)
    requires i < |s| && 0 <= p < q <= i && !IsSpace(s[q - 1])
    requires forall j :: 0 <= j < i ==> !(s[j] == '(' && ClosesAtEnd(s[j + 1..]))
    requires p <= i' < |s|
    ensures !(AllSpace(s[p..i']) && s[i'] == '(' && ClosesAtEnd(s[i' + 1..]))
  {
    if i <= i' {
      assert s[p..i'][q - 1 - p] == s[q - 1];
    }
  }

  /**
   * The leftmost-match replacement: the result is the prefix of `s` up to where the
   * pattern first matches, or all of `s` when it matches nowhere.
   */
  function StripEnumeration(s: string): (r: string)
    ensures |r| <= |s| && r == s[..|r|]
    ensures |r| == |s| || StripMatchesAt(s, |r|)
    ensures forall p :: 0 <= p < |r| ==> !StripMatchesAt(s, p)
  {
    match FirstOpening(s, 0)
    case None =>
      assert forall p :: 0 <= p < |s| ==> !StripMatchesAt(s, p);
      s
    case Some(i) =>
      var q := SpaceRunStart(s, i);
      assert StripMatchesAt(s, q);
      forall p | 0 <= p < q ensures !StripMatchesAt(s, p) { NoEarlierMatch(s, i, q, p); }
      s[..q]
  }

  // ---------------------------------------------------------------------------
  // The counting loop and the trailing strip `output.replace(/\D*$/, "")`
  // ---------------------------------------------------------------------------

  /** The keys of `symbols_in_enumeration`. */
  predicate IsEnumerationSymbol(c: char) { c == '-' || c == '.' || c == '/' || c == '!' }

  /** The characters the loop can write into the enumeration. */
  predicate IsEnumerationChar(c: char) { IsDigit(c) || IsEnumerationSymbol(c) || c == ',' || c == ' ' }

  predicate NoDoubleSpace(s: string) { forall i :: 0 < i < |s| ==> !(s[i - 1] == ' ' && s[i] == ' ') }

  /** The loop's variables `output` and `count`. */
  datatype ScanState = ScanState(output: string, count: nat)

  /** What `if(count > 0){ output += count }` appends. */
  function Pending(count: nat): string {
    if count > 0 then NatToString(count) else ""
  }

  /** One iteration of the loop on the character `c`. */
  function Step(st: ScanState, c: char): ScanState {
    if IsUpperLetter(c) then ScanState(st.output, st.count + 1)
    else if IsEnumerationSymbol(c) then ScanState(st.output + Pending(st.count) + [c], 0)
    else if c == ' ' then
      var o := Flushed(st);
      ScanState(if |o| > 0 && o[|o| - 1] == ' ' then o else o + " ", 0)
    else st
  }

  /** The loop run over the remaining characters `s`, from the state `st`. */
  function Scan(st: ScanState, s: string): ScanState
    decreases |s|
  {
    if s == [] then st else Scan(Step(st, s[0]), s[1..])
  }

  /** Drop the trailing run of non-digits. */
  function TrimNonDigits(s: string): (r: string)
    ensures |r| <= |s| && r == s[..|r|]
    ensures r == [] || IsDigit(r[|r| - 1])
    ensures forall i :: |r| <= i < |s| ==> !IsDigit(s[i])
    decreases |s|
  {
    if s == [] || IsDigit(s[|s| - 1]) then s else TrimNonDigits(s[..|s| - 1])
  }

  /** The number of letters `A`-`Z` in `s`: the characters that increment `count`. */
  function LetterCount(s: string): nat
    decreases |s|
  {
    if s == [] then 0 else (if IsUpperLetter(s[0]) then 1 else 0) + LetterCount(s[1..])
  }

  // ---------------------------------------------------------------------------
  // Reading the numbers back out of an enumeration
  // ---------------------------------------------------------------------------

  /** Sum of the finished numbers, and the value of the number being read. */
  datatype Tally = Tally(total: nat, current: nat)

  function Tick(t: Tally, c: char): Tally {
    if IsDigit(c) then Tally(t.total, t.current * 10 + DigitValue(c)) else Tally(t.total + t.current, 0)
  }

  function Run(t: Tally, s: string): Tally
    decreases |s|
  {
    if s == [] then t else Run(Tick(t, s[0]), s[1..])
  }

  /** The sum of the maximal runs of decimal digits in `s`, read as numbers. */
  function NumberSum(s: string): nat {
    var t := Run(Tally(0, 0), s);
    t.total + t.current
  }

  lemma {:induction false} RunAppend(t: Tally, a: string, b: string)
    ensures Run(t, a + b) == Run(Run(t, a), b)
    decreases |a|
  {
    if a != [] {
      assert (a + b)[0] == a[0] && (a + b)[1..] == a[1..] + b;
      RunAppend(Tick(t, a[0]), a[1..], b);
    } else {
      assert a + b == b;
    }
  }

  /** Reading a rendered count back gives the count. */
  lemma {:induction false} RunNatToString(x: nat, n: nat)
    ensures Run(Tally(x, 0), NatToString(n)) == Tally(x, n)
    decreases n
  {
    if n >= 10 {
      RunNatToString(x, n / 10);
      RunAppend(Tally(x, 0), NatToString(n / 10), [DigitChar(n % 10)]);
    }
  }

  lemma {:induction false} RunNonDigits(t: Tally, s: string)
    requires s != [] && !HasDigit(s)
    ensures Run(t, s) == Tally(t.total + t.current, 0)
    decreases |s|
  {
    if |s| > 1 {
      assert !HasDigit(s[1..]) by {
        forall i | 0 <= i < |s| - 1 ensures !IsDigit(s[1..][i]) { assert s[1..][i] == s[i + 1]; }
      }
      RunNonDigits(Tick(t, s[0]), s[1..]);
    } else {
      assert !IsDigit(s[0]);
    }
  }

  /** An enumeration without digits names no letters. */
  lemma NoDigitsSumToZero(s: string)
    requires !HasDigit(s)
    ensures NumberSum(s) == 0
  {
    if s != [] { RunNonDigits(Tally(0, 0), s); }
  }

  lemma TrimKeepsSum(s: string)
    ensures NumberSum(TrimNonDigits(s)) == NumberSum(s)
  {
    var r := TrimNonDigits(s);
    var rest := s[|r|..];
    assert s == r + rest;
    RunAppend(Tally(0, 0), r, rest);
    if rest != [] {
      assert !HasDigit(rest) by {
        forall i | 0 <= i < |rest| ensures !IsDigit(rest[i]) { assert rest[i] == s[|r| + i]; }
      }
      RunNonDigits(Run(Tally(0, 0), r), rest);
    }
  }

  // ---------------------------------------------------------------------------
  // The loop keeps its output well formed and accounts for every letter
  // ---------------------------------------------------------------------------

  /** What holds of `output` between iterations: only enumeration characters, no two spaces
      in a row, and no number still being written. */
  predicate WellFormedOutput(o: string) {
    && (forall i :: 0 <= i < |o| ==> IsEnumerationChar(o[i]))
    && NoDoubleSpace(o)
    && (o == [] || !IsDigit(o[|o| - 1]))
  }

  lemma AppendDigits(o: string, d: string)
    requires (forall i :: 0 <= i < |o| ==> IsEnumerationChar(o[i])) && NoDoubleSpace(o) && AllDigits(d)
    ensures (forall i :: 0 <= i < |o + d| ==> IsEnumerationChar((o + d)[i])) && NoDoubleSpace(o + d)
  {
    assert forall i :: |o| <= i < |o + d| ==> (o + d)[i] == d[i - |o|];
  }

  lemma AppendChar(o: string, c: char)
    requires (forall i :: 0 <= i < |o| ==> IsEnumerationChar(o[i])) && NoDoubleSpace(o)
    requires IsEnumerationChar(c) && !IsDigit(c)
    requires c == ' ' ==> o == [] || o[|o| - 1] != ' '
    ensures WellFormedOutput(o + [c])
  {}

  lemma SymbolStepWellFormed(st: ScanState, c: char)
    requires IsEnumerationSymbol(c) && WellFormedOutput(st.output)
    ensures WellFormedOutput(st.output + Pending(st.count) + [c])
  {
    AppendDigits(st.output, Pending(st.count));
    AppendChar(st.output + Pending(st.count), c);
  }

  lemma SymbolStepTally(st: ScanState, c: char, k: nat)
    requires IsEnumerationSymbol(c) && Run(Tally(0, 0), st.output) == Tally(k, 0)
    ensures Run(Tally(0, 0), st.output + Pending(st.count) + [c]) == Tally(k + st.count, 0)
  {
    var o := st.output + Pending(st.count);
    PendingTally(st.output, st.count, k);
    RunAppend(Tally(0, 0), o, [c]);
    RunNonDigit(Tally(k, st.count), c);
  }

  /** Writing out a pending count leaves it as the number being read. */
  lemma PendingTally(o: string, n: nat, k: nat)
    requires Run(Tally(0, 0), o) == Tally(k, 0)
    ensures Run(Tally(0, 0), o + Pending(n)) == Tally(k, n)
  {
    RunAppend(Tally(0, 0), o, Pending(n));
    if n > 0 {
      RunNatToString(k, n);
    } else {
      assert Pending(n) == [];
    }
  }

  lemma RunNonDigit(t: Tally, c: char)
    requires !IsDigit(c)
    ensures Run(t, [c]) == Tally(t.total + t.current, 0)
  {
    assert [c][1..] == [];
  }

  /** The output before the space branch's conditional space. */
  function Flushed(st: ScanState): string {
    st.output + (if st.count > 0 then NatToString(st.count) + "," else "")
  }

  lemma SpaceStepWellFormed(st: ScanState)
    requires WellFormedOutput(st.output)
    ensures WellFormedOutput(Step(st, ' ').output)
  {
    var o, o' := st.output, Flushed(st);
    if st.count > 0 {
      var n := NatToString(st.count);
      AppendDigits(o, n);
      AppendChar(o + n, ',');
      assert o' == o + n + [','];
    } else {
      assert o' == o;
    }
    if !(|o'| > 0 && o'[|o'| - 1] == ' ') {
      AppendChar(o', ' ');
    }
  }

  lemma FlushedTally(st: ScanState, k: nat)
    requires Run(Tally(0, 0), st.output) == Tally(k, 0)
    ensures Run(Tally(0, 0), Flushed(st)) == Tally(k + st.count, 0)
  {
    if st.count > 0 {
      var o := st.output + Pending(st.count);
      assert Flushed(st) == o + [','];
      PendingTally(st.output, st.count, k);
      RunAppend(Tally(0, 0), o, [',']);
      RunNonDigit(Tally(k, st.count), ',');
    } else {
      assert Flushed(st) == st.output;
    }
  }

  /** The space branch writes the flushed output and then a space unless one ends it already. */
  lemma SpaceStepOutput(st: ScanState)
    ensures var o := Flushed(st);
            Step(st, ' ').output == if |o| > 0 && o[|o| - 1] == ' ' then o else o + " "
  {}

  lemma SpaceStepTally(st: ScanState, k: nat)
    requires Run(Tally(0, 0), st.output) == Tally(k, 0)
    ensures Run(Tally(0, 0), Step(st, ' ').output) == Tally(k + st.count, 0)
  {
    var o' := Flushed(st);
    FlushedTally(st, k);
    SpaceStepOutput(st);
    if !(|o'| > 0 && o'[|o'| - 1] == ' ') {
      RunAppend(Tally(0, 0), o', " ");
      RunNonDigit(Tally(k + st.count, 0), ' ');
    }
  }

  lemma StepWellFormed(st: ScanState, c: char, k: nat)
    requires WellFormedOutput(st.output) && Run(Tally(0, 0), st.output) == Tally(k, 0)
    ensures WellFormedOutput(Step(st, c).output)
    ensures Run(Tally(0, 0), Step(st, c).output).current == 0
    ensures Run(Tally(0, 0), Step(st, c).output).total + Step(st, c).count
            == k + st.count + (if IsUpperLetter(c) then 1 else 0)
  {
    if IsUpperLetter(c) {
    } else if IsEnumerationSymbol(c) {
      SymbolStepWellFormed(st, c);
      SymbolStepTally(st, c, k);
    } else if c == ' ' {
      SpaceStepWellFormed(st);
      SpaceStepTally(st, k);
    }
  }

  lemma {:induction false} ScanWellFormed(st: ScanState, s: string, k: nat)
    requires WellFormedOutput(st.output) && Run(Tally(0, 0), st.output) == Tally(k, 0)
    ensures WellFormedOutput(Scan(st, s).output)
    ensures Run(Tally(0, 0), Scan(st, s).output).current == 0
    ensures Run(Tally(0, 0), Scan(st, s).output).total + Scan(st, s).count == k + st.count + LetterCount(s)
    decreases |s|
  {
    if s != [] {
      StepWellFormed(st, s[0], k);
      var st' := Step(st, s[0]);
      ScanWellFormed(st', s[1..], Run(Tally(0, 0), st'.output).total);
    }
  }

  /**
   * The enumeration of a stripped, upper-cased clue: empty or ending in a digit, made only
   * of digits, `- . / !`, commas and single spaces, and its numbers add up to the number of
   * letters `A`-`Z` in the clue.
   */
  function Enumeration(s: string): (e: string)
    ensures e == [] || IsDigit(e[|e| - 1])
    ensures forall i :: 0 <= i < |e| ==> IsEnumerationChar(e[i])
    ensures NoDoubleSpace(e)
    ensures NumberSum(e) == LetterCount(s)
  {
    FinishWellFormed(s);
    Finish(Scan(ScanState("", 0), s))
  }

  /** The steps after the loop: write the pending count, then drop trailing non-digits. */
  function Finish(st: ScanState): string {
    TrimNonDigits(st.output + Pending(st.count))
  }

  lemma FinishWellFormed(s: string)
    ensures var e := Finish(Scan(ScanState("", 0), s));
            && (forall i :: 0 <= i < |e| ==> IsEnumerationChar(e[i]))
            && NoDoubleSpace(e) && NumberSum(e) == LetterCount(s)
  {
    var st := Scan(ScanState("", 0), s);
    ScanWellFormed(ScanState("", 0), s, 0);
    var k := Run(Tally(0, 0), st.output).total;
    var o := st.output + Pending(st.count);
    AppendDigits(st.output, Pending(st.count));
    RunAppend(Tally(0, 0), st.output, Pending(st.count));
    if st.count > 0 { RunNatToString(k, st.count); }
    assert NumberSum(o) == LetterCount(s);
    TrimKeepsSum(o);
    var e := TrimNonDigits(o);
    assert forall i :: 0 <= i < |e| ==> e[i] == o[i];
  }

  /** What `enumerate(clue)` returns. */
  function Enumerated(clue: string): string {
    var s := StripEnumeration(Upper(clue));
    s + " (" + Enumeration(s) + ")"
  }

  /**
   * The result of `enumerate`: the upper-cased clue up to where the strip cut it,
   * then " (", numbers that add up to the letters of the kept clue, and ")"; no
   * lower-case letter is left.
   */
  lemma EnumeratedCountsLetters(clue: string)
    ensures var s := StripEnumeration(Upper(clue));
            var r := Enumerated(clue);
            && |r| >= |s| + 3 && s == Upper(clue)[..|s|]
            && r[..|s|] == s && r[|s|..|s| + 2] == " (" && r[|r| - 1] == ')'
            && NumberSum(r[|s| + 2..|r| - 1]) == LetterCount(s)
            && NoLowercase(r)
  {
    var s := StripEnumeration(Upper(clue));
    var e := Enumeration(s);
    JoinedParts(s, e);
    assert NoLowercase(s) by {
      forall i | 0 <= i < |s| ensures !IsLowerLetter(s[i]) { assert s[i] == Upper(clue)[i]; }
    }
    UppercaseEnumerated(s, e);
  }

  lemma JoinedParts(s: string, e: string)
    ensures var r := s + " (" + e + ")";
            && |r| == |s| + |e| + 3
            && r[..|s|] == s && r[|s|..|s| + 2] == " (" && r[|r| - 1] == ')' && r[|s| + 2..|r| - 1] == e
  {}

  /** One pass of the script's loop body on the character `c`. */
  method ScanChar(output: string, count: nat, c: char) returns (output': string, count': nat)
    ensures ScanState(output', count') == Step(ScanState(output, count), c)
  {
    output', count' := output, count;
    if IsUpperLetter(c) {
      count' := count + 1;
    } else if IsEnumerationSymbol(c) {
      if count > 0 {
        output' := output' + NatToString(count);
      }
      output' := output' + [c];
      count' := 0;
    } else if c == ' ' {
      if count > 0 {
        output' := output' + NatToString(count) + ",";
      }
      assert output' == Flushed(ScanState(output, count));
      if |output'| == 0 || output'[|output'| - 1] != ' ' {
        output' := output' + " ";
      }
      count' := 0;
    }
  }

  /** `enumerate(clue)`, step by step as the script runs it. */
  method EnumerateClue(clue: string) returns (r: string)
    ensures r == Enumerated(clue)
  {
    var s := StripEnumeration(Upper(clue));
    var output, count := "", 0;
    for i := 0 to |s|
      invariant Scan(ScanState(output, count), s[i..]) == Scan(ScanState("", 0), s)
    {
      assert s[i..][0] == s[i] && s[i..][1..] == s[i + 1..];
      output, count := ScanChar(output, count, s[i]);
    }
    assert s[|s|..] == [];
    assert Finish(ScanState(output, count)) == Enumeration(s);
    ghost var written := output + Pending(count);
    if count > 0 {
      output := output + NatToString(count);
    }
    assert output == written;
    output := TrimNonDigits(output);
    assert output == Enumeration(s);
    r := s + " (" + output + ")";
  }

  // ---------------------------------------------------------------------------
  // Re-enumerating a result
  // ---------------------------------------------------------------------------

  /**
   * Enumerating an enumerated clue gives it back, provided the stripped clue has no `(`
   * and does not end in white space (otherwise the second strip cuts more, or less).
   */
  lemma EnumerateIdempotent(clue: string)
    requires var s := StripEnumeration(Upper(clue));
             (forall i :: 0 <= i < |s| ==> s[i] != '(') && (s == [] || !IsSpace(s[|s| - 1]))
    ensures Enumerated(Enumerated(clue)) == Enumerated(clue)
  {
    var s := StripEnumeration(Upper(clue));
    var e := Enumeration(s);
    assert NoLowercase(s) by {
      forall i | 0 <= i < |s| ensures !IsLowerLetter(s[i]) { assert s[i] == Upper(clue)[i]; }
    }
    UppercaseEnumerated(s, e);
    UpperOfUppercase(Enumerated(clue));
    StripEnumerated(s, e);
  }

  lemma UppercaseEnumerated(s: string, e: string)
    requires NoLowercase(s) && forall i :: 0 <= i < |e| ==> IsEnumerationChar(e[i])
    ensures NoLowercase(s + " (" + e + ")")
  {
    var r := s + " (" + e + ")";
    forall i | 0 <= i < |r| ensures !IsLowerLetter(r[i]) {
      if i < |s| { assert r[i] == s[i]; }
      else if |s| + 2 <= i < |r| - 1 { assert r[i] == e[i - |s| - 2]; }
    }
  }

  /** The strip of an enumerated clue removes exactly the enumeration it was given. */
  lemma StripEnumerated(s: string, e: string)
    requires (forall i :: 0 <= i < |s| ==> s[i] != '(') && (s == [] || !IsSpace(s[|s| - 1]))
    requires forall i :: 0 <= i < |e| ==> IsEnumerationChar(e[i])
    ensures StripEnumeration(s + " (" + e + ")") == s
  {
    var r := s + " (" + e + ")";
    OpeningOfEnumerated(s, e);
    assert r[|s|] == ' ';
    assert SpaceRunStart(r, |s| + 1) == |s|;
    assert r[..|s|] == s;
  }

  lemma OpeningOfEnumerated(s: string, e: string)
    requires forall i :: 0 <= i < |s| ==> s[i] != '('
    requires forall i :: 0 <= i < |e| ==> IsEnumerationChar(e[i])
    ensures FirstOpening(s + " (" + e + ")", 0) == Some(|s| + 1)
  {
    EnumeratedShape(s, e);
    EnumerationCloses(e);
    FirstOpeningIsFirst(s + " (" + e + ")", |s| + 1);
  }

  /** Where the parts of `s + " (" + e + ")"` sit. */
  lemma EnumeratedShape(s: string, e: string)
    requires forall i :: 0 <= i < |s| ==> s[i] != '('
    ensures var r := s + " (" + e + ")";
            && |r| == |s| + |e| + 3
            && (forall i :: 0 <= i < |s| + 1 ==> r[i] != '(')
            && r[|s| + 1] == '('
            && r[|s| + 2..] == e + ")"
  {
    var r := s + " (" + e + ")";
    forall i | 0 <= i < |s| + 1 ensures r[i] != '(' {
      if i < |s| { assert r[i] == s[i]; }
    }
    SuffixOfEnumerated(s, e);
  }

  lemma SuffixOfEnumerated(s: string, e: string)
    ensures (s + " (" + e + ")")[|s| + 2..] == e + ")"
  {
    var r := s + " (" + e + ")";
    assert forall i :: 0 <= i < |e| + 1 ==> r[|s| + 2 + i] == (e + ")")[i];
  }

  lemma EnumerationCloses(e: string)
    requires forall i :: 0 <= i < |e| ==> IsEnumerationChar(e[i])
    ensures ClosesAtEnd(e + ")")
  {
    var t := e + ")";
    assert t[|e|] == ')' && t[..|e|] == e && t[|e| + 1..] == [];
    assert NoLineTerminator(e) by {
      forall i | 0 <= i < |e| ensures !IsLineTerminator(e[i]) { assert IsEnumerationChar(e[i]); }
    }
  }

  lemma FirstOpeningIsFirst(s: string, k: nat)
    requires k < |s| && s[k] == '(' && ClosesAtEnd(s[k + 1..])
    requires forall i :: 0 <= i < k ==> s[i] != '('
    ensures FirstOpening(s, 0) == Some(k)
  {
    assert s[k] == '(' && ClosesAtEnd(s[k + 1..]);
  }

  // ---------------------------------------------------------------------------
  // Composition of the scan, and a worked example
  // ---------------------------------------------------------------------------

  lemma {:induction false} ScanAppend(st: ScanState, a: string, b: string)
    ensures Scan(st, a + b) == Scan(Scan(st, a), b)
    decreases |a|
  {
    if a == [] {
      assert a + b == b;
    } else {
      assert (a + b)[0] == a[0] && (a + b)[1..] == a[1..] + b;
      ScanAppend(Step(st, a[0]), a[1..], b);
    }
  }
  lemma {:induction false} ScanWord(st: ScanState, w: string)
    requires forall i :: 0 <= i < |w| ==> IsUpperLetter(w[i])
    ensures Scan(st, w) == ScanState(st.output, st.count + |w|)
    decreases |w|
  {
    if w != [] {
      ScanWord(Step(st, w[0]), w[1..]);
    }
  }
  lemma StripWithoutParen(s: string)
    requires forall i :: 0 <= i < |s| ==> s[i] != '('
    ensures StripEnumeration(s) == s
  {
    assert FirstOpening(s, 0).None?;
  }
  lemma ExampleUpper(clue: string)
    requires clue == "example contest"
    ensures Upper(clue) == "EXAMPLE CONTEST"
  {
  }
  lemma ExampleSpace()
    ensures Scan(ScanState("", 7), " ") == ScanState("7, ", 0)
  {
    assert NatToString(7) == "7";
    assert Flushed(ScanState("", 7)) == "7,";
  }
  lemma ExampleScan()
    ensures Scan(ScanState("", 0), "EXAMPLE" + " " + "CONTEST") == ScanState("7, ", 7)
  {
    var a, b, c := "EXAMPLE", " ", "CONTEST";
    ScanAppend(ScanState("", 0), a + b, c);
    ScanAppend(ScanState("", 0), a, b);
    ScanWord(ScanState("", 0), a);
    ExampleSpace();
    ScanWord(ScanState("7, ", 0), c);
  }
  lemma ExampleTrim()
    ensures TrimNonDigits("7, 7") == "7, 7"
  {}
  lemma ExampleEnum(s: string)
    requires s == "EXAMPLE CONTEST"
    ensures Enumeration(s) == "7, 7"
  {
    assert s == "EXAMPLE" + " " + "CONTEST";
    ExampleScan();
    assert NatToString(7) == "7";
    assert Finish(ScanState("7, ", 7)) == TrimNonDigits("7, 7");
    ExampleTrim();
  }
  lemma ExampleStrip(clue: string)
    requires clue == "example contest"
    ensures StripEnumeration(Upper(clue)) == "EXAMPLE CONTEST"
  {
    var u := Upper(clue);
    ExampleUpper(clue);
    StripWithoutParen(u);
  }
  lemma ExampleJoin(s: string, e: string)
    requires s == "EXAMPLE CONTEST" && e == "7, 7"
    ensures s + " (" + e + ")" == "EXAMPLE CONTEST (7, 7)"
  {}
  /** The fixtures' contest word `EXAMPLE CONTEST (7, 7)` is what the script makes of `example contest`. */
  lemma ExampleEnumerated(clue: string)
    requires clue == "example contest"
    ensures Enumerated(clue) == "EXAMPLE CONTEST (7, 7)"
  {
    var s := StripEnumeration(Upper(clue));
    ExampleStrip(clue);
    ExampleEnum(s);
    ExampleJoin(s, Enumeration(s));
  }
}
