/** The x-axis labels of the growth chart, `Year 0` up to `Year N`, built
    by `updateChart` before it hands both series to the chart. */
module ChartLabels {
  import Projection

  predicate IsDigit(c: char) {
    '0' <= c <= '9'
  }

  predicate AllDigits(s: string) {
    forall i :: 0 <= i < |s| ==> IsDigit(s[i])
  }

  /** A decimal numeral as a template literal writes an integer: at least one
      digit, and no leading zero unless the number is zero. */
  predicate IsCanonicalDecimal(s: string) {
    |s| >= 1 && AllDigits(s) && (s[0] == '0' ==> s == "0")
  }

  function DigitChar(d: nat): (c: char)
    requires d < 10
    ensures IsDigit(c)
  {
    (48 + d) as char
  }

  function DigitValue(c: char): (d: nat)
    requires IsDigit(c)
    ensures d < 10
  {
    (c as int) - 48
  }

  /** The decimal numeral of `n`, most significant digit first. */
  function DecimalString(n: nat): (s: string)
    ensures IsCanonicalDecimal(s)
    ensures s[0] == '0' <==> n == 0
  {
    if n < 10 then [DigitChar(n)] else DecimalString(n / 10) + [DigitChar(n % 10)]
  }

  /** The number a string of decimal digits denotes. */
  function DecimalValue(s: string): nat
    requires AllDigits(s)
  {
    if |s| == 0 then 0 else 10 * DecimalValue(s[..|s| - 1]) + DigitValue(s[|s| - 1])
  }

  /** Reading back a numeral gives the number it was written for. */
  lemma {:induction false} DecimalRoundTrip(n: nat)
    ensures DecimalValue(DecimalString(n)) == n
  {
    var s := DecimalString(n);
    if n >= 10 {
      DecimalRoundTrip(n / 10);
      assert s[..|s| - 1] == DecimalString(n / 10);
    } else {
      assert s[..|s| - 1] == [];
    }
  }

  /** A numeral that starts with a non-zero digit denotes a positive number. */
  lemma {:induction false} LeadingDigitPositive(s: string)
    requires |s| >= 1 && AllDigits(s) && s[0] != '0'
    ensures DecimalValue(s) >= 1
  {
    if |s| > 1 {
      LeadingDigitPositive(s[..|s| - 1]);
    } else {
      assert s[..|s| - 1] == [];
    }
  }

  /** Writing out the value of a canonical numeral gives the numeral back, so
      canonical numerals and numbers correspond one to one. */
  lemma {:induction false} DecimalStringOfValue(s: string)
    requires IsCanonicalDecimal(s)
    ensures DecimalString(DecimalValue(s)) == s
  {
    var t := s[..|s| - 1];
    if |s| == 1 {
      assert t == [];
    } else {
      assert s[0] != '0';
      assert t[0] == s[0];
      LeadingDigitPositive(t);
      DecimalStringOfValue(t);
      var v := DecimalValue(s);
      assert v / 10 == DecimalValue(t) && v % 10 == DigitValue(s[|s| - 1]);
      assert s == t + [s[|s| - 1]];
    }
  }

  /** Different numbers have different numerals. */
  lemma DecimalStringInjective(m: nat, n: nat)
    requires DecimalString(m) == DecimalString(n)
    ensures m == n
  {
    DecimalRoundTrip(m);
    DecimalRoundTrip(n);
  }

  /** The label of year `i`, as the template `Year ${i}` renders it. */
  function YearLabel(i: nat): string {
    "Year " + DecimalString(i)
  }

  /** How many labels the loop `for (i = 0; i <= years; i++)` produces: none
      at all when `years` is negative. */
  function LabelCount(years: int): nat {
    if years >= 0 then years + 1 else 0
  }

  /** The label loop of `updateChart`. */
  method YearLabels(years: int) returns (labels: seq<string>)
    ensures |labels| == LabelCount(years)
    ensures forall i :: 0 <= i < |labels| ==> labels[i] == YearLabel(i)
  {
    labels := [];
    var i := 0;
    while i <= years
      invariant 0 <= i
      invariant if years >= 0 then i <= years + 1 else i == 0
      invariant |labels| == i
      invariant forall k :: 0 <= k < i ==> labels[k] == YearLabel(k)
    {
      labels := labels + [YearLabel(i)];
      i := i + 1;
    }
  }

  /** Every label is `Year ` followed by the numeral of its index, which reads
      back as that index. */
  lemma YearLabelParses(i: nat)
    ensures |YearLabel(i)| > 5 && YearLabel(i)[..5] == "Year "
    ensures IsCanonicalDecimal(YearLabel(i)[5..]) && DecimalValue(YearLabel(i)[5..]) == i
  {
    assert YearLabel(i)[5..] == DecimalString(i);
    DecimalRoundTrip(i);
  }

  /** No two years share a label. */
  lemma YearLabelsDistinct(i: nat, j: nat)
    requires i != j
    ensures YearLabel(i) != YearLabel(j)
  {
    YearLabelParses(i);
    YearLabelParses(j);
  }

  /** The labels line up with the two series exactly when the horizon is not
      negative; for a negative horizon the chart gets no label but one sample
      per series. */
  lemma LabelsMatchSeries(initialInvestment: real, monthlyContribution: real, annualReturn: real, years: int)
    ensures var p := Projection.Project(initialInvestment, monthlyContribution, annualReturn, years);
      (LabelCount(years) == |p.balanceData| == |p.investmentData| <==> years >= 0)
      && (years < 0 ==> LabelCount(years) == 0 && |p.balanceData| == 1)
  {
  }
}
