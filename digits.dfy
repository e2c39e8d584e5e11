/**
 * Runs of ASCII decimal digits inside a file name: the scan that
 * `re.findall(r'\d+', name)` performs, an independent backward scanner that
 * finds the last maximal run directly, and the value `int(run)` gives a run.
 */
module Digits {
  import opened Wrappers

  predicate IsDigit(c: char) { '0' <= c <= '9' }

  predicate AllDigits(s: string) { forall k :: 0 <= k < |s| ==> IsDigit(s[k]) }

  predicate HasDigit(s: string) { exists k :: 0 <= k < |s| && IsDigit(s[k]) }

  function DigitValue(c: char): (d: nat)
    requires IsDigit(c)
    ensures d < 10
  {
    c as int - '0' as int
  }

  function DigitChar(d: nat): (c: char)
    requires d < 10
    ensures IsDigit(c) && DigitValue(c) == d
  {
    ('0' as int + d) as char
  }

  // ---------------------------------------------------------------------
  // Decimal value of a digit run, and the decimal spelling of a number

  /** The value `int(s)` gives a string of ASCII digits (leading zeros allowed). */
  function DecimalValue(s: string): nat
    requires AllDigits(s)
  {
    if s == [] then 0 else DecimalValue(s[..|s| - 1]) * 10 + DigitValue(s[|s| - 1])
  }

  /** The spelling `str(n)` gives a natural number: no sign, no leading zeros. */
  function DecimalString(n: nat): (s: string)
    ensures |s| > 0 && AllDigits(s)
    ensures |s| > 1 ==> s[0] != '0'
    decreases n
  {
    if n < 10 then [DigitChar(n)] else DecimalString(n / 10) + [DigitChar(n % 10)]
  }

  /** Reading back the spelling of a number gives the number. */
  lemma {:induction false} DecimalRoundTrip(n: nat)
    ensures DecimalValue(DecimalString(n)) == n
    decreases n
  {
    if n >= 10 {
      var s := DecimalString(n);
      assert s[..|s| - 1] == DecimalString(n / 10);
      DecimalRoundTrip(n / 10);
    }
  }

  /** Different numbers are spelled differently. */
  lemma DecimalStringInjective(m: nat, n: nat)
    requires m != n
    ensures DecimalString(m) != DecimalString(n)
  {
    DecimalRoundTrip(m);
    DecimalRoundTrip(n);
  }

  /** A leading zero does not change the value: "07" and "7" both read as 7. */
  lemma {:induction false} LeadingZeroIgnored(s: string)
    requires AllDigits(s)
    ensures DecimalValue("0" + s) == DecimalValue(s)
    decreases |s|
  {
    if s != [] {
      var z := "0" + s;
      assert z[..|z| - 1] == "0" + s[..|s| - 1];
      assert z[|z| - 1] == s[|s| - 1];
      LeadingZeroIgnored(s[..|s| - 1]);
    }
  }

  // ---------------------------------------------------------------------
  // re.findall(r'\d+', s): every maximal run of digits, left to right

  /** The end of the run of digits that starts at `i` (`i` itself if `s[i]` is no digit). */
  function RunEnd(s: string, i: nat): (j: nat)
    requires i <= |s|
    ensures i <= j <= |s|
    ensures forall k :: i <= k < j ==> IsDigit(s[k])
    ensures j < |s| ==> !IsDigit(s[j])
    decreases |s| - i
  {
    if i < |s| && IsDigit(s[i]) then RunEnd(s, i + 1) else i
  }

  /** The digit runs the regular-expression scan finds from position `i` on. */
  function RunsFrom(s: string, i: nat): (runs: seq<string>)
    requires i <= |s|
    ensures forall r :: r in runs ==> |r| > 0 && AllDigits(r)
    decreases |s| - i
  {
    if i == |s| then []
    else if IsDigit(s[i]) then
      var j := RunEnd(s, i);
      [s[i..j]] + RunsFrom(s, j)
    else RunsFrom(s, i + 1)
  }

  function FindAllDigitRuns(s: string): seq<string>
  {
    RunsFrom(s, 0)
  }

  // ---------------------------------------------------------------------
  // The last maximal run, found by scanning backwards from the end

  /** A half-open range of positions `start..end` in a string. */
  datatype Span = Span(start: nat, end: nat)

  /** `sp` is a maximal run of digits and no digit follows it. */
  ghost predicate IsLastRun(s: string, sp: Span)
  {
    && sp.start < sp.end <= |s|
    && (forall k :: sp.start <= k < sp.end ==> IsDigit(s[k]))
    && (sp.start > 0 ==> !IsDigit(s[sp.start - 1]))
    && (forall k :: sp.end <= k < |s| ==> !IsDigit(s[k]))
  }

  /** In `p + d + q`, the digits `d` form the last maximal run when `p` does not end in a digit and `q` has none. */
  lemma LastRunOfSplit(p: string, d: string, q: string)
    requires |d| > 0 && AllDigits(d)
    requires p == [] || !IsDigit(p[|p| - 1])
    requires forall k :: 0 <= k < |q| ==> !IsDigit(q[k])
    ensures IsLastRun(p + d + q, Span(|p|, |p| + |d|))
    ensures (p + d + q)[|p|..|p| + |d|] == d
  {
    var s := p + d + q;
    forall k | |p| <= k < |p| + |d| ensures IsDigit(s[k]) {
      assert s[k] == d[k - |p|];
    }
    forall k | |p| + |d| <= k < |s| ensures !IsDigit(s[k]) {
      assert s[k] == q[k - |p| - |d|];
    }
    if |p| > 0 {
      assert s[|p| - 1] == p[|p| - 1];
    }
    assert s[|p|..|p| + |d|] == d;
  }

  /** At most one span of a string is its last maximal run. */
  lemma LastRunUnique(s: string, a: Span, b: Span)
    requires IsLastRun(s, a) && IsLastRun(s, b)
    ensures a == b
  {
    assert IsDigit(s[a.end - 1]) && IsDigit(s[b.end - 1]);
    assert a.end == b.end;
    assert IsDigit(s[a.start]) && IsDigit(s[b.start]);
  }

  /** Steps back from `j` over non-digits: the end of the last run before `j`, or 0. */
  function SkipNonDigitsBack(s: string, j: nat): (e: nat)
    requires j <= |s|
    ensures e <= j
    ensures forall k :: e <= k < j ==> !IsDigit(s[k])
    ensures e > 0 ==> IsDigit(s[e - 1])
    decreases j
  {
    if j == 0 || IsDigit(s[j - 1]) then j else SkipNonDigitsBack(s, j - 1)
  }

  /** Steps back from `j` over digits: the start of the run that ends at `j`. */
  function DigitsBack(s: string, j: nat): (b: nat)
    requires j <= |s|
    ensures b <= j
    ensures forall k :: b <= k < j ==> IsDigit(s[k])
    ensures b > 0 ==> !IsDigit(s[b - 1])
    decreases j
  {
    if j == 0 || !IsDigit(s[j - 1]) then j else DigitsBack(s, j - 1)
  }

  /** The last maximal run of digits of `s`, if `s` has a digit at all. */
  function LastDigitRun(s: string): (r: Option<Span>)
    ensures r.None? <==> !HasDigit(s)
    ensures r.Some? ==> IsLastRun(s, r.value)
  {
    var e := SkipNonDigitsBack(s, |s|);
    if e == 0 then None else Some(Span(DigitsBack(s, e), e))
  }

  lemma {:induction false} RunsFromNone(s: string, i: nat)
    requires i <= |s|
    requires forall k :: i <= k < |s| ==> !IsDigit(s[k])
    ensures RunsFrom(s, i) == []
    decreases |s| - i
  {
    if i < |s| {
      RunsFromNone(s, i + 1);
    }
  }

  /** A run of digits from `i` that stops at `e` ends exactly at `e`. */
  lemma {:induction false} RunEndAt(s: string, i: nat, e: nat)
    requires i <= e <= |s|
    requires forall k :: i <= k < e ==> IsDigit(s[k])
    requires e < |s| ==> !IsDigit(s[e])
    ensures RunEnd(s, i) == e
    decreases e - i
  {
    if i < e {
      RunEndAt(s, i + 1, e);
    }
  }

  lemma {:induction false} RunsFromLast(s: string, i: nat, sp: Span)
    requires IsLastRun(s, sp) && i <= sp.start
    ensures RunsFrom(s, i) != []
    ensures RunsFrom(s, i)[|RunsFrom(s, i)| - 1] == s[sp.start..sp.end]
    decreases |s| - i
  {
    if IsDigit(s[i]) {
      var j := RunEnd(s, i);
      if i == sp.start {
        RunEndAt(s, i, sp.end);
        RunsFromNone(s, j);
      } else {
        RunsFromLast(s, j, sp);
      }
    } else {
      RunsFromLast(s, i + 1, sp);
    }
  }

  /**
   * The regular-expression scan finds no run exactly when the name has no
   * digit, and otherwise its last run is the last maximal run of digits.
   */
  lemma FindAllLast(s: string)
    ensures FindAllDigitRuns(s) == [] <==> !HasDigit(s)
    ensures LastDigitRun(s).Some? ==>
      var runs := FindAllDigitRuns(s);
      var sp := LastDigitRun(s).value;
      runs != [] && runs[|runs| - 1] == s[sp.start..sp.end]
  {
    match LastDigitRun(s)
    case None =>
      RunsFromNone(s, 0);
    case Some(sp) =>
      RunsFromLast(s, 0, sp);
  }
}
