/** The projection of `calculateInvestment`: from four parsed inputs it runs
    the months one by one, samples the balance and the amount paid in at the
    end of every year, and derives the summary totals. */
module Projection {
  import opened Wrappers
  import opened Compounding

  /** What one run of the calculator produces. `totalGainPercent` is `None`
      where the page divides by a zero total investment. */
  datatype ProjectionResult = ProjectionResult(
    balanceData: seq<real>,
    investmentData: seq<real>,
    totalInvestment: real,
    finalBalance: real,
    totalReturns: real,
    totalGainPercent: Option<real>)

  /** The annual return in percent, as a rate per month. */
  function MonthlyRate(annualReturn: real): real {
    annualReturn / 100.0 / 12.0
  }

  /** How many months the projection runs for; negative when `years` is. */
  function Months(years: int): int {
    years * 12
  }

  /** How many times the monthly loop body runs: none for a horizon <= 0. */
  function MonthsRun(years: int): nat {
    if years > 0 then years * 12 else 0
  }

  /** How many yearly samples each series holds: the seed plus one per year. */
  function SampleCount(years: int): nat {
    if years > 0 then years + 1 else 1
  }

  /** The initial amount plus `months` monthly contributions. */
  function PaidIn(initialInvestment: real, monthlyContribution: real, months: int): real {
    initialInvestment + monthlyContribution * (months as real)
  }

  /** The overall gain relative to what was paid in, in percent; undefined
      when nothing was paid in. */
  function GainPercent(totalReturns: real, totalInvestment: real): (r: Option<real>)
    ensures r.None? <==> totalInvestment == 0.0
    ensures r.Some? ==> r.value * totalInvestment == totalReturns * 100.0
  {
    if totalInvestment == 0.0 then None else Some(totalReturns / totalInvestment * 100.0)
  }

  /** The reference definition of a projection: the balance sample of year k
      is the result of 12k months of compounding, the investment sample the
      amount paid in by then, and the final balance the result of every
      month the loop runs. */
  function Project(initialInvestment: real, monthlyContribution: real, annualReturn: real, years: int): ProjectionResult {
    var rate := MonthlyRate(annualReturn);
    var totalInvestment := PaidIn(initialInvestment, monthlyContribution, Months(years));
    var finalBalance := Iterate(initialInvestment, rate, monthlyContribution, MonthsRun(years));
    var totalReturns := finalBalance - totalInvestment;
    ProjectionResult(
      seq(SampleCount(years), k requires 0 <= k => Iterate(initialInvestment, rate, monthlyContribution, 12 * k)),
      seq(SampleCount(years), k requires 0 <= k => PaidIn(initialInvestment, monthlyContribution, 12 * k)),
      totalInvestment,
      finalBalance,
      totalReturns,
      GainPercent(totalReturns, totalInvestment))
  }

  /** The calculation proper: the month loop that pushes a sample onto both
      series at every twelfth month, followed by the totals. */
  method CalculateInvestment(initialInvestment: real, monthlyContribution: real, annualReturn: real, years: int)
    returns (p: ProjectionResult)
    ensures p == Project(initialInvestment, monthlyContribution, annualReturn, years)
  {
    var monthlyRate := MonthlyRate(annualReturn);
    var months := Months(years);
    var balance := initialInvestment;
    var balanceData := [initialInvestment];
    var investmentData := [initialInvestment];
    var i := 1;
    while i <= months
      invariant 1 <= i && i <= MonthsRun(years) + 1
      invariant months < 0 ==> i == 1
      invariant balance == Iterate(initialInvestment, monthlyRate, monthlyContribution, i - 1)
      invariant |balanceData| == |investmentData| == (i - 1) / 12 + 1
      invariant forall k :: 0 <= k < |balanceData| ==>
        balanceData[k] == Iterate(initialInvestment, monthlyRate, monthlyContribution, 12 * k)
      invariant forall k :: 0 <= k < |investmentData| ==>
        investmentData[k] == PaidIn(initialInvestment, monthlyContribution, 12 * k)
    {
      balance := balance * (1.0 + monthlyRate) + monthlyContribution;
      if i % 12 == 0 {
        balanceData := balanceData + [balance];
        investmentData := investmentData + [initialInvestment + monthlyContribution * (i as real)];
      }
      i := i + 1;
    }
    var totalInvestment := PaidIn(initialInvestment, monthlyContribution, months);
    var finalBalance := balance;
    var totalReturns := finalBalance - totalInvestment;
    var totalGainPercent := GainPercent(totalReturns, totalInvestment);
    p := ProjectionResult(balanceData, investmentData, totalInvestment, finalBalance, totalReturns, totalGainPercent);
  }

  /** The page's `parseFloat(...) || 0` and `parseInt(...) || 0`: an input
      that did not parse (`None`) counts as zero. */
  method CalculateFromInputs(
    initialInput: Option<real>, monthlyInput: Option<real>, returnInput: Option<real>, yearsInput: Option<int>)
    returns (p: ProjectionResult)
    ensures p == Project(initialInput.GetOr(0.0), monthlyInput.GetOr(0.0), returnInput.GetOr(0.0), yearsInput.GetOr(0))
    ensures yearsInput.None? ==> |p.balanceData| == 1 && p.finalBalance == p.totalInvestment
  {
    p := CalculateInvestment(initialInput.GetOr(0.0), monthlyInput.GetOr(0.0), returnInput.GetOr(0.0), yearsInput.GetOr(0));
  }

  // ---------------------------------------------------------------------
  // Properties of the reference definition

  /** Both series start with the initial amount and hold one sample per
      year of a positive horizon, and the seed alone otherwise. */
  lemma SeriesShape(initialInvestment: real, monthlyContribution: real, annualReturn: real, years: int)
    ensures var p := Project(initialInvestment, monthlyContribution, annualReturn, years);
      |p.balanceData| == |p.investmentData| == (if years > 0 then years else 0) + 1
      && p.balanceData[0] == initialInvestment
      && p.investmentData[0] == initialInvestment
  {
  }

  /** The amount paid in by year k is the initial amount plus twelve
      contributions per year. */
  lemma InvestmentDataClosedForm(initialInvestment: real, monthlyContribution: real, annualReturn: real, years: int, k: nat)
    requires k < SampleCount(years)
    ensures Project(initialInvestment, monthlyContribution, annualReturn, years).investmentData[k]
         == initialInvestment + monthlyContribution * 12.0 * (k as real)
  {
  }

  /** Each yearly balance sample is twelve more months of compounding applied
      to the previous one. */
  lemma BalanceDataYearOverYear(initialInvestment: real, monthlyContribution: real, annualReturn: real, years: int, k: nat)
    requires k + 1 < SampleCount(years)
    ensures var p := Project(initialInvestment, monthlyContribution, annualReturn, years);
      p.balanceData[k + 1] == Iterate(p.balanceData[k], MonthlyRate(annualReturn), monthlyContribution, 12)
  {
    IterateAdd(initialInvestment, MonthlyRate(annualReturn), monthlyContribution, 12 * k, 12);
    assert 12 * (k + 1) == 12 * k + 12;
  }

  /** The final balance is the last balance sample; for a horizon <= 0 it is
      the initial amount. */
  lemma FinalBalanceIsLastSample(initialInvestment: real, monthlyContribution: real, annualReturn: real, years: int)
    ensures var p := Project(initialInvestment, monthlyContribution, annualReturn, years);
      p.finalBalance == p.balanceData[|p.balanceData| - 1]
      && (years <= 0 ==> p.finalBalance == initialInvestment)
  {
  }

  /** The total investment is the initial amount plus a contribution for every
      month of the horizon; for a horizon >= 0 it is the last investment
      sample, while a negative horizon takes contributions away. */
  lemma TotalInvestmentFacts(initialInvestment: real, monthlyContribution: real, annualReturn: real, years: int)
    ensures var p := Project(initialInvestment, monthlyContribution, annualReturn, years);
      p.totalInvestment == initialInvestment + monthlyContribution * (years as real) * 12.0
      && (years >= 0 ==> p.totalInvestment == p.investmentData[|p.investmentData| - 1])
      && p.totalReturns == p.finalBalance - p.totalInvestment
  {
  }

  /** A horizon of zero years: both series are the seed alone and nothing is
      gained or lost. */
  lemma ZeroYears(initialInvestment: real, monthlyContribution: real, annualReturn: real)
    ensures var p := Project(initialInvestment, monthlyContribution, annualReturn, 0);
      p.balanceData == [initialInvestment] && p.investmentData == [initialInvestment]
      && p.totalInvestment == initialInvestment && p.finalBalance == initialInvestment
      && p.totalReturns == 0.0
  {
    var p := Project(initialInvestment, monthlyContribution, annualReturn, 0);
    assert p.balanceData[0] == initialInvestment && p.investmentData[0] == initialInvestment;
  }

  /** A negative horizon: the loop never runs, so both series are the seed
      alone and the balance stays the initial amount, but the total investment
      still counts `years * 12` (negative) contributions. */
  lemma NegativeYears(initialInvestment: real, monthlyContribution: real, annualReturn: real, years: int)
    requires years < 0
    ensures var p := Project(initialInvestment, monthlyContribution, annualReturn, years);
      p.balanceData == [initialInvestment] && p.investmentData == [initialInvestment]
      && p.finalBalance == initialInvestment
      && p.totalReturns == -(monthlyContribution * (years as real) * 12.0)
  {
  }

  /** At a zero annual return the balance is exactly what was paid in: the two
      series coincide and the returns are zero (for a horizon >= 0). */
  lemma ZeroReturn(initialInvestment: real, monthlyContribution: real, years: int)
    ensures var p := Project(initialInvestment, monthlyContribution, 0.0, years);
      p.balanceData == p.investmentData
      && (years >= 0 ==> p.finalBalance == p.totalInvestment && p.totalReturns == 0.0)
  {
    var p := Project(initialInvestment, monthlyContribution, 0.0, years);
    assert MonthlyRate(0.0) == 0.0;
    forall k | 0 <= k < SampleCount(years)
      ensures p.balanceData[k] == p.investmentData[k]
    {
      IterateZeroRate(initialInvestment, monthlyContribution, 12 * k);
    }
    IterateZeroRate(initialInvestment, monthlyContribution, MonthsRun(years));
  }

  /** With no contributions and no return the balance never moves. */
  lemma NothingInNothingOut(initialInvestment: real, years: int)
    ensures Project(initialInvestment, 0.0, 0.0, years).finalBalance == initialInvestment
  {
    IterateZeroRate(initialInvestment, 0.0, MonthsRun(years));
  }

  /** With a non-negative return and non-negative amounts the balance series
      never decreases. */
  lemma BalanceNonDecreasing(initialInvestment: real, monthlyContribution: real, annualReturn: real, years: int, i: nat, j: nat)
    requires annualReturn >= 0.0 && initialInvestment >= 0.0 && monthlyContribution >= 0.0
    requires i <= j < SampleCount(years)
    ensures var p := Project(initialInvestment, monthlyContribution, annualReturn, years);
      p.balanceData[i] <= p.balanceData[j]
  {
    IterateNonDecreasing(initialInvestment, MonthlyRate(annualReturn), monthlyContribution, 12 * i, 12 * j);
  }

  /** With a return between -1200% and 0 a year, no contributions and a
      non-negative initial amount, the balance series never increases and
      stays non-negative. */
  lemma BalanceNonIncreasing(initialInvestment: real, annualReturn: real, years: int, i: nat, j: nat)
    requires -1200.0 <= annualReturn <= 0.0 && initialInvestment >= 0.0
    requires i <= j < SampleCount(years)
    ensures var p := Project(initialInvestment, 0.0, annualReturn, years);
      0.0 <= p.balanceData[j] <= p.balanceData[i]
  {
    assert -1.0 <= MonthlyRate(annualReturn) <= 0.0;
    IterateDecays(initialInvestment, MonthlyRate(annualReturn), 12 * i, 12 * j);
  }

  /** Decay is not promised once there are contributions: from nothing, with
      100 a month at -12% a year, the balance still grows. */
  lemma ContributionsOutgrowDecay()
    ensures Iterate(0.0, MonthlyRate(-12.0), 100.0, 1) < Iterate(0.0, MonthlyRate(-12.0), 100.0, 2)
    ensures Project(0.0, 100.0, -12.0, 1).balanceData[0] < Project(0.0, 100.0, -12.0, 1).balanceData[1]
  {
  }

  /** The lower bound on the return is needed: below -1200% a year the
      monthly factor is negative and the balance swings in sign, so from 1
      with nothing contributed at -3600% month 2 is above month 1. */
  lemma DecayNeedsBoundedLoss()
    ensures Iterate(1.0, MonthlyRate(-3600.0), 0.0, 1) < Iterate(1.0, MonthlyRate(-3600.0), 0.0, 2)
  {
  }

  /** Under the same conditions every balance sample is at least the amount
      paid in by then, and the returns of a horizon >= 0 are not negative. */
  lemma BalanceAtLeastInvestment(initialInvestment: real, monthlyContribution: real, annualReturn: real, years: int)
    requires annualReturn >= 0.0 && initialInvestment >= 0.0 && monthlyContribution >= 0.0
    ensures var p := Project(initialInvestment, monthlyContribution, annualReturn, years);
      (forall k :: 0 <= k < SampleCount(years) ==> p.balanceData[k] >= p.investmentData[k])
      && (years >= 0 ==> p.totalReturns >= 0.0)
  {
    var p := Project(initialInvestment, monthlyContribution, annualReturn, years);
    forall k | 0 <= k < SampleCount(years)
      ensures p.balanceData[k] >= p.investmentData[k]
    {
      IterateAtLeastPaidIn(initialInvestment, MonthlyRate(annualReturn), monthlyContribution, 12 * k);
    }
    IterateAtLeastPaidIn(initialInvestment, MonthlyRate(annualReturn), monthlyContribution, MonthsRun(years));
  }

  /** A positive return over at least one year on a positive investment makes
      a strictly positive gain, with a defined, positive gain percentage. */
  lemma PositiveReturnGains(initialInvestment: real, monthlyContribution: real, annualReturn: real, years: int)
    requires annualReturn > 0.0 && initialInvestment >= 0.0 && monthlyContribution >= 0.0
    requires initialInvestment > 0.0 || monthlyContribution > 0.0
    requires years >= 1
    ensures var p := Project(initialInvestment, monthlyContribution, annualReturn, years);
      p.finalBalance > p.totalInvestment > 0.0
      && p.totalReturns > 0.0
      && p.totalGainPercent.Some? && p.totalGainPercent.value > 0.0
  {
    var p := Project(initialInvestment, monthlyContribution, annualReturn, years);
    IterateStrictGain(initialInvestment, MonthlyRate(annualReturn), monthlyContribution, MonthsRun(years));
    assert p.totalInvestment > 0.0;
    assert p.totalReturns > 0.0;
    assert p.totalGainPercent.value * p.totalInvestment > 0.0;
  }

  /** One year at a zero return: the balance ends at the initial amount
      plus twelve contributions, which is also all that was paid in. */
  lemma OneYearZeroReturn(initialInvestment: real, monthlyContribution: real)
    ensures var p := Project(initialInvestment, monthlyContribution, 0.0, 1);
      var end := initialInvestment + 12.0 * monthlyContribution;
      p.balanceData == [initialInvestment, end] && p.totalInvestment == end && p.totalReturns == 0.0
  {
    var p := Project(initialInvestment, monthlyContribution, 0.0, 1);
    ZeroReturn(initialInvestment, monthlyContribution, 1);
    assert p.investmentData[1] == PaidIn(initialInvestment, monthlyContribution, 12);
  }

  /** One year of 1000 with no contributions and no return. */
  lemma ScenarioA()
    ensures Project(1000.0, 0.0, 0.0, 1).balanceData == [1000.0, 1000.0]
    ensures Project(1000.0, 0.0, 0.0, 1).totalInvestment == 1000.0
    ensures Project(1000.0, 0.0, 0.0, 1).totalReturns == 0.0
  {
  }

  /** One year of 100 a month from nothing, with no return. */
  lemma ScenarioB()
    ensures Project(0.0, 100.0, 0.0, 1).balanceData == [0.0, 1200.0]
    ensures Project(0.0, 100.0, 0.0, 1).totalInvestment == 1200.0
    ensures Project(0.0, 100.0, 0.0, 1).totalReturns == 0.0
  {
  }

  /** Ten years of 10000 plus 500 a month at 7%: eleven samples and a final
      balance above the amount paid in. */
  lemma ScenarioC()
    ensures var p := Project(10000.0, 500.0, 7.0, 10);
      |p.balanceData| == |p.investmentData| == 11
      && p.totalInvestment == 70000.0
      && p.finalBalance > p.totalInvestment
  {
    PositiveReturnGains(10000.0, 500.0, 7.0, 10);
  }
}
