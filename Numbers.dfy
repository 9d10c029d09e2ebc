/**
 * Hand-written scanners for the two numeric regular expressions of the
 * extractors, over ASCII digits:
 *   - the unsigned decimal `[0-9]+(?:\.[0-9]+)?` (also written `\d+(?:\.\d+)?`),
 *   - the range `([0-9]+(?:\.[0-9]+)?)\s*(?:to|-)\s*[0-9]+`, matched
 *     case-sensitively, whose group 1 is the lower bound.
 * `re.search` returns the match that starts leftmost, so both scanners try
 * the start positions from left to right. Neither pattern admits a sign.
 * Values are exact reals: `float()` rounding is not modelled.
 */
module Numbers {
  import opened Wrappers
  import opened Text

  /** Python's `abs` on a number. */
  function Abs(x: real): (r: real)
    ensures r >= 0.0 && (r == x || r == -x)
  {
    if x < 0.0 then -x else x
  }

  /** Python's `min` of two numbers. */
  function Min(a: real, b: real): real {
    if a <= b then a else b
  }

  function DigitValue(c: char): nat
    requires IsDigit(c)
  {
    c as int - '0' as int
  }

  predicate AllDigits(ds: string) {
    forall k :: 0 <= k < |ds| ==> IsDigit(ds[k])
  }

  /** The natural number a run of decimal digits denotes. */
  function DigitsValue(ds: string): nat
    requires AllDigits(ds)
  {
    if ds == [] then 0 else 10 * DigitsValue(ds[..|ds| - 1]) + DigitValue(ds[|ds| - 1])
  }

  function Pow10(n: nat): (r: nat)
    ensures r >= 1
  {
    if n == 0 then 1 else 10 * Pow10(n - 1)
  }

  /** The end of the longest run of digits starting at `i` (greedy `[0-9]*`). */
  function DigitRunEnd(s: string, i: nat): (j: nat)
    requires i <= |s|
    ensures i <= j <= |s|
    ensures forall k :: i <= k < j ==> IsDigit(s[k])
    ensures j == |s| || !IsDigit(s[j])
    decreases |s| - i
  {
    if i < |s| && IsDigit(s[i]) then DigitRunEnd(s, i + 1) else i
  }

  /** The end of the longest run of whitespace starting at `i` (greedy `\s*`). */
  function SkipSpaces(s: string, i: nat): (j: nat)
    requires i <= |s|
    ensures i <= j <= |s|
    ensures forall k :: i <= k < j ==> IsSpace(s[k])
    ensures j == |s| || !IsSpace(s[j])
    decreases |s| - i
  {
    if i < |s| && IsSpace(s[i]) then SkipSpaces(s, i + 1) else i
  }

  /** A decimal token: its value and the index just past it. */
  datatype NumberToken = NumberToken(value: real, end: nat)

  /**
   * The token `[0-9]+(?:\.[0-9]+)?` that greedy matching takes at `i`:
   * the digit run, then a fraction when a '.' is followed by a digit.
   */
  function NumberAt(s: string, i: nat): (t: NumberToken)
    requires i < |s| && IsDigit(s[i])
    ensures i < t.end <= |s|
    ensures t.value >= DigitsValue(s[i..DigitRunEnd(s, i)]) as real >= 0.0
    ensures t.end == |s| || !IsDigit(s[t.end])
  {
    var intEnd := DigitRunEnd(s, i);
    var whole := DigitsValue(s[i..intEnd]) as real;
    if intEnd + 1 < |s| && s[intEnd] == '.' && IsDigit(s[intEnd + 1]) then
      var fracEnd := DigitRunEnd(s, intEnd + 1);
      var fraction := s[intEnd + 1..fracEnd];
      NumberToken(whole + DigitsValue(fraction) as real / Pow10(|fraction|) as real, fracEnd)
    else
      NumberToken(whole, intEnd)
  }

  /** `k` is the leftmost digit of `s` at or after `from`. */
  predicate IsFirstDigit(s: string, from: nat, k: nat) {
    from <= k < |s| && IsDigit(s[k]) && forall j :: from <= j < k ==> !IsDigit(s[j])
  }

  lemma FirstDigitPastNonDigit(s: string, from: nat)
    requires from < |s| && !IsDigit(s[from])
    ensures forall k :: IsFirstDigit(s, from + 1, k) ==> IsFirstDigit(s, from, k)
  {
  }

  /** `re.search(r'([0-9]+(?:\.[0-9]+)?)', s[from..])`, mapped through `float`. */
  function NumberFrom(s: string, from: nat): (r: Option<real>)
    requires from <= |s|
    ensures r.None? <==> forall k :: from <= k < |s| ==> !IsDigit(s[k])
    ensures r.Some? ==> exists k :: IsFirstDigit(s, from, k) && r.value == NumberAt(s, k).value
    decreases |s| - from
  {
    if from == |s| then None
    else if IsDigit(s[from]) then
      assert IsFirstDigit(s, from, from);
      Some(NumberAt(s, from).value)
    else
      FirstDigitPastNonDigit(s, from);
      NumberFrom(s, from + 1)
  }

  /**
   * The leftmost unsigned decimal of `s`: `None` exactly when `s` has no
   * digit, otherwise the value of the token at the first digit, never negative.
   */
  function FirstNumber(s: string): (r: Option<real>)
    ensures r.None? <==> forall k :: 0 <= k < |s| ==> !IsDigit(s[k])
    ensures r.Some? ==> r.value >= 0.0
    ensures r.Some? ==> exists k :: IsFirstDigit(s, 0, k) && r.value == NumberAt(s, k).value
  {
    NumberFrom(s, 0)
  }

  /** The index just past `to` or `-` at `j`, if one of them is there (`to` is tried first). */
  function SeparatorEnd(s: string, j: nat): (r: Option<nat>)
    requires j <= |s|
    ensures r.Some? ==> j < r.value <= |s|
  {
    if j + 1 < |s| && s[j] == 't' && s[j + 1] == 'o' then Some(j + 2)
    else if j < |s| && s[j] == '-' then Some(j + 1)
    else None
  }

  /**
   * The range pattern tried at start `i`: `Some(lower bound)` iff it matches there.
   * Backtracking cannot help: giving back a digit or the fraction leaves a
   * digit or '.' next, and giving back whitespace leaves whitespace next,
   * none of which can start `to`, `-` or (after the separator) `[0-9]`.
   */
  function RangeAt(s: string, i: nat): (r: Option<real>)
    requires i < |s|
    ensures r.Some? ==> IsDigit(s[i]) && r.value == NumberAt(s, i).value
  {
    if !IsDigit(s[i]) then None
    else
      var t := NumberAt(s, i);
      var sep := SeparatorEnd(s, SkipSpaces(s, t.end));
      if sep.None? then None
      else
        var k := SkipSpaces(s, sep.value);
        if k < |s| && IsDigit(s[k]) then Some(t.value) else None
  }

  /** `k` is the leftmost start, at or after `from`, where the range pattern matches. */
  predicate IsFirstRange(s: string, from: nat, k: nat) {
    from <= k < |s| && RangeAt(s, k).Some? && forall j :: from <= j < k ==> RangeAt(s, j).None?
  }

  lemma FirstRangePastNoRange(s: string, from: nat)
    requires from < |s| && RangeAt(s, from).None?
    ensures forall k :: IsFirstRange(s, from + 1, k) ==> IsFirstRange(s, from, k)
  {
  }

  /** `re.search` for the range pattern in `s[from..]`, group 1 through `float`. */
  function RangeFrom(s: string, from: nat): (r: Option<real>)
    requires from <= |s|
    ensures r.None? <==> forall k :: from <= k < |s| ==> RangeAt(s, k).None?
    ensures r.Some? ==> exists k :: IsFirstRange(s, from, k) && r == RangeAt(s, k)
    decreases |s| - from
  {
    if from == |s| then None
    else if RangeAt(s, from).Some? then
      assert IsFirstRange(s, from, from);
      RangeAt(s, from)
    else
      FirstRangePastNoRange(s, from);
      RangeFrom(s, from + 1)
  }

  /**
   * `re.search` for the range pattern, group 1 through `float`: the lower
   * bound of the leftmost range, `None` when no range occurs.
   */
  function FirstRange(s: string): (r: Option<real>)
    ensures r.None? <==> forall k :: 0 <= k < |s| ==> RangeAt(s, k).None?
    ensures r.Some? ==> r.value >= 0.0
    ensures r.Some? ==> exists k: nat :: IsFirstRange(s, 0, k) && IsDigit(s[k]) && r.value == NumberAt(s, k).value
  {
    RangeFrom(s, 0)
  }

  /** Decimal rendering of a natural number, as `str(n)` does. */
  function NatToString(n: nat): (r: string)
    ensures |r| >= 1 && AllDigits(r)
    decreases n
  {
    if n < 10 then [('0' as int + n) as char] else NatToString(n / 10) + [('0' as int + n % 10) as char]
  }

  /** Reading back a rendered number gives the number: `int(str(n)) == n`. */
  lemma {:induction false} NatToStringRoundTrip(n: nat)
    ensures DigitsValue(NatToString(n)) == n
    decreases n
  {
    if n >= 10 {
      NatToStringRoundTrip(n / 10);
      var r := NatToString(n);
      assert r[..|r| - 1] == NatToString(n / 10);
    }
  }

  lemma NatToStringInjective(m: nat, n: nat)
    requires NatToString(m) == NatToString(n)
    ensures m == n
  {
    NatToStringRoundTrip(m);
    NatToStringRoundTrip(n);
  }

  // ---------------------------------------------------------------- worked inputs

  /** A digit run is determined by where its digits stop. */
  lemma DigitRunEndIs(s: string, i: nat, j: nat)
    requires i <= j <= |s|
    requires forall k :: i <= k < j ==> IsDigit(s[k])
    requires j == |s| || !IsDigit(s[j])
    ensures DigitRunEnd(s, i) == j
  {
  }

  /** A whitespace run is determined by where the whitespace stops. */
  lemma SkipSpacesIs(s: string, i: nat, j: nat)
    requires i <= j <= |s|
    requires forall k :: i <= k < j ==> IsSpace(s[k])
    requires j == |s| || !IsSpace(s[j])
    ensures SkipSpaces(s, i) == j
  {
  }

  /** A digit run `s[i..j]` that no fraction follows is a whole number token. */
  lemma WholeNumberAt(s: string, i: nat, j: nat)
    requires i < j <= |s|
    requires forall k :: i <= k < j ==> IsDigit(s[k])
    requires j == |s| || (!IsDigit(s[j]) && s[j] != '.')
    ensures NumberAt(s, i) == NumberToken(DigitsValue(s[i..j]) as real, j)
  {
    DigitRunEndIs(s, i, j);
  }

  /** The first digit determines the leftmost number. */
  lemma FirstNumberAt(s: string, k: nat)
    requires IsFirstDigit(s, 0, k)
    ensures FirstNumber(s) == Some(NumberAt(s, k).value)
  {
    var r := FirstNumber(s);
    assert IsDigit(s[k]);
    var k': nat :| IsFirstDigit(s, 0, k') && r.value == NumberAt(s, k').value;
    assert k' == k;
  }

  /** The first start where the range pattern matches determines the range. */
  lemma FirstRangeAt(s: string, k: nat)
    requires IsFirstRange(s, 0, k)
    ensures FirstRange(s) == RangeAt(s, k)
  {
    var r := FirstRange(s);
    var k': nat :| IsFirstRange(s, 0, k') && IsDigit(s[k']) && r.value == NumberAt(s, k').value;
    assert k' == k;
  }

  /** A text that starts with a whole number reads as that number. */
  lemma LeadingWholeNumber(s: string, j: nat)
    requires 0 < j <= |s|
    requires forall k :: 0 <= k < j ==> IsDigit(s[k])
    requires j == |s| || (!IsDigit(s[j]) && s[j] != '.')
    ensures FirstNumber(s) == Some(DigitsValue(s[..j]) as real)
  {
    WholeNumberAt(s, 0, j);
    FirstNumberAt(s, 0);
  }

  /** A text that starts with one digit and then neither a digit nor '.' reads as that digit. */
  lemma LeadingOneDigit(s: string)
    requires 2 <= |s| && IsDigit(s[0]) && !IsDigit(s[1]) && s[1] != '.'
    ensures FirstNumber(s) == Some(DigitValue(s[0]) as real)
  {
    LeadingWholeNumber(s, 1);
    assert s[..1][..0] == [];
  }

  /** A text that starts with two digits and then neither a digit nor '.' reads as their value. */
  lemma LeadingTwoDigits(s: string)
    requires 3 <= |s| && IsDigit(s[0]) && IsDigit(s[1]) && !IsDigit(s[2]) && s[2] != '.'
    ensures FirstNumber(s) == Some((10 * DigitValue(s[0]) + DigitValue(s[1])) as real)
  {
    LeadingWholeNumber(s, 2);
    var t := s[..2];
    assert t[..1] == s[..1] && t[1] == s[1];
    assert DigitsValue(s[..1]) == DigitValue(s[0]) by {
      assert s[..1][..0] == [];
    }
    assert DigitsValue(t) == 10 * DigitsValue(t[..1]) + DigitValue(t[1]);
  }

  lemma PlainVoltageNumber()
    ensures FirstNumber("12V DC") == Some(12.0)
  {
    var s := "12V DC";
    WholeNumberAt(s, 0, 2);
    assert s[0..2] == "12" && DigitsValue("12") == 12;
    FirstNumberAt(s, 0);
  }

  lemma PlainVoltageNoRange()
    ensures FirstRange("12V DC").None?
  {
    var s := "12V DC";
    WholeNumberAt(s, 0, 2);
    WholeNumberAt(s, 1, 2);
    SkipSpacesIs(s, 2, 2);
    forall k | 0 <= k < |s| ensures RangeAt(s, k).None? {
      if k >= 2 {
        assert !IsDigit(s[k]);
      }
    }
  }

  lemma RangeAfterNumberNumber()
    ensures FirstNumber("3V 5-12") == Some(3.0)
  {
    var s := "3V 5-12";
    WholeNumberAt(s, 0, 1);
    assert s[0..1] == "3" && DigitsValue("3") == 3;
    FirstNumberAt(s, 0);
  }

  lemma RangeAfterNumberRangeAt()
    ensures RangeAt("3V 5-12", 3) == Some(5.0)
  {
    var s := "3V 5-12";
    WholeNumberAt(s, 3, 4);
    assert s[3..4] == "5" && DigitsValue("5") == 5;
    SkipSpacesIs(s, 4, 4);
    SkipSpacesIs(s, 5, 5);
  }

  lemma RangeAfterNumberNoRangeBefore()
    ensures forall k | 0 <= k < 3 :: RangeAt("3V 5-12", k).None?
  {
    var s := "3V 5-12";
    WholeNumberAt(s, 0, 1);
    SkipSpacesIs(s, 1, 1);
    assert !IsDigit(s[1]) && !IsDigit(s[2]);
  }

  lemma RangeAfterNumberRange()
    ensures FirstRange("3V 5-12") == Some(5.0)
  {
    RangeAfterNumberNoRangeBefore();
    RangeAfterNumberRangeAt();
    FirstRangeAt("3V 5-12", 3);
  }

  lemma TemperatureRangeNumber()
    ensures FirstNumber("-20\U{B0}C to 85\U{B0}C") == Some(20.0)
  {
    var s := "-20\U{B0}C to 85\U{B0}C";
    WholeNumberAt(s, 1, 3);
    assert s[1..3] == "20" && DigitsValue("20") == 20;
    FirstNumberAt(s, 1);
  }

  lemma TemperatureRangeLowerBound()
    ensures forall k | 0 <= k < 9 :: RangeAt("-20\U{B0}C to 85\U{B0}C", k).None?
  {
    var s := "-20\U{B0}C to 85\U{B0}C";
    WholeNumberAt(s, 1, 3);
    WholeNumberAt(s, 2, 3);
    SkipSpacesIs(s, 3, 3);
    forall k | 0 <= k < 9 ensures RangeAt(s, k).None? {
      if k != 1 && k != 2 {
        assert !IsDigit(s[k]);
      }
    }
  }

  lemma TemperatureRangeUpperBound()
    ensures forall k | 9 <= k < 13 :: RangeAt("-20\U{B0}C to 85\U{B0}C", k).None?
  {
    var s := "-20\U{B0}C to 85\U{B0}C";
    WholeNumberAt(s, 9, 11);
    WholeNumberAt(s, 10, 11);
    SkipSpacesIs(s, 11, 11);
    forall k | 9 <= k < 13 ensures RangeAt(s, k).None? {
      if k != 9 && k != 10 {
        assert !IsDigit(s[k]);
      }
    }
  }

  lemma TemperatureRangeNoRange()
    ensures FirstRange("-20\U{B0}C to 85\U{B0}C").None?
  {
    TemperatureRangeLowerBound();
    TemperatureRangeUpperBound();
  }
}
