# Investment growth calculator — verified model

The landing page's calculator takes four numbers: an initial amount, a
monthly contribution, an annual return in percent and a horizon in years.
It projects the balance month by month. Each month credits growth at
`annualReturn / 100 / 12` and then adds the contribution. At the end of
every year it records the balance and the amount paid in so far. From this
it derives the total invested, the final balance, the returns and the gain
percentage, and it labels the chart's x-axis `Year 0` … `Year N`.

The model has four modules:

- `Compounding` (`compounding.dfy`): one month (`Step`) and `n` months
  (`Iterate`) of compounding. Lemmas cover composition, the closed form of
  the annuity, zero-rate linearity, monotonicity and dominance over the
  amount paid in.
- `Projection` (`projection.dfy`): the `calculateInvestment` loop as the
  method `CalculateInvestment`, proved equal to the reference function
  `Project`. The lemmas state what the page's figures mean.
- `ChartLabels` (`chart_labels.dfy`): the label loop of `updateChart` and
  the decimal numerals it writes. The numerals have a parse round trip in
  both directions.
- `Wrappers` (`wrappers.dfy`): `Option`.

Key modelling decisions:

- Money is `real`, an idealisation of the page's double-precision
  arithmetic.
- The horizon is an `int`, because `parseInt` can give a negative number.
  Then the month loop never runs and both series keep only their seed.
- The gain percentage is `None` where the page divides by a total
  investment of zero.

A horizon is naturally non-negative, but the code accepts any integer.
This model follows the code in three respects:

- For a negative horizon the label loop `for (i = 0; i <= years; i++)`
  produces no labels at all, while each series still holds one sample
  (`ChartLabels.LabelsMatchSeries`).
- The total investment still adds `years * 12` contributions, a negative
  number of them, so it falls below the initial amount when the monthly
  contribution is positive (`Projection.NegativeYears`).
- So "a zero return gives zero returns" holds only for horizons >= 0
  (`Projection.ZeroReturn`).

The model proves decay for the whole series only when nothing is
contributed and the annual return is between -1200% and 0
(`Projection.BalanceNonIncreasing`). Below -1200% the monthly factor is
negative and the balance swings in sign (`Projection.DecayNeedsBoundedLoss`).
With contributions and a negative rate there is one level where the loss to
the rate equals the contribution. A month lowers a balance above that level
and raises a balance below it (`Compounding.StepAgainstLevel`). So from
nothing, contributions make the balance grow
(`Projection.ContributionsOutgrowDecay`).

## Model

| member | source | states |
|---|---|---|
| Projection.CalculateInvestment | script.js:40-59 | The month loop, with its `i % 12 == 0` sampling and the totals after it, yields exactly `Project`: the balance sample of year k is 12k months of compounding, the investment sample is initial + 12k contributions, the final balance is the balance after every month the loop runs, and the horizon may be negative |
| Projection.CalculateFromInputs | script.js:35-38 | An input that did not parse counts as 0 before the projection runs; with no horizon, the result is the seed alone and the final balance equals the total invested |
| Projection.GainPercent | script.js:59 | The gain percentage is undefined exactly when the total investment is 0; otherwise it times the total investment equals 100 times the returns |
| Projection.SeriesShape | script.js:44-54 | Both series have length max(years, 0) + 1 and start with the initial amount |
| Projection.InvestmentDataClosedForm | script.js:52 | Investment sample k is initial + monthly * 12 * k |
| Projection.BalanceDataYearOverYear | script.js:48-53 | Balance sample k + 1 is balance sample k after twelve more months of compounding |
| Projection.FinalBalanceIsLastSample | script.js:44-57 | The final balance is the last balance sample; for a horizon <= 0 it is the initial amount |
| Projection.TotalInvestmentFacts | script.js:41-58 | Total investment is initial + monthly * years * 12; for years >= 0 it is the last investment sample; returns are final balance minus total investment |
| Projection.ZeroYears | script.js:41-58 | A zero-year horizon gives the seed alone in both series, total investment and final balance equal to the initial amount, and zero returns |
| Projection.NegativeYears | script.js:41-58 | A negative horizon gives the seed alone in both series and the initial amount as final balance, and the returns are -(monthly * years * 12) |
| Projection.ZeroReturn | script.js:49-58 | At a 0% return the balance series equals the investment series; for years >= 0 the final balance equals the total investment and the returns are 0 |
| Projection.NothingInNothingOut | script.js:44-57 | With no contribution and no return the final balance is the initial amount for every horizon |
| Projection.BalanceNonDecreasing | script.js:48-53 | With a non-negative return and non-negative amounts, balance sample i is at most balance sample j whenever i <= j |
| Projection.BalanceNonIncreasing | script.js:48-53 | With an annual return between -1200% and 0, no monthly contribution and a non-negative initial amount, balance sample j is between 0 and balance sample i whenever i <= j |
| Projection.ContributionsOutgrowDecay | script.js:48-53 | From 0 with 100 a month at -12% a year the balance grows from month 1 to month 2 and from year 0 to year 1, so decay is not promised once there are contributions |
| Projection.DecayNeedsBoundedLoss | script.js:48-53 | From 1 with nothing contributed at -3600% a year, the balance after month 2 is above the balance after month 1, so the -1200% bound of the decay lemma is needed |
| Projection.BalanceAtLeastInvestment | script.js:48-58 | With a non-negative return and non-negative amounts, every balance sample is at least the matching investment sample, and the returns of a horizon >= 0 are not negative |
| Projection.PositiveReturnGains | script.js:48-59 | A positive return, a horizon of at least one year and a positive amount give final balance > total investment > 0, positive returns and a defined, positive gain percentage |
| Projection.OneYearZeroReturn | script.js:40-58 | One year at 0% ends at initial + 12 * monthly in both the balance and the total investment, with zero returns |
| Projection.ScenarioA | script.js:40-58 | 1000 initial, nothing monthly, 0%, one year: balances [1000, 1000], total investment 1000, returns 0 |
| Projection.ScenarioB | script.js:40-58 | Nothing initial, 100 monthly, 0%, one year: balances [0, 1200], total investment 1200, returns 0 |
| Projection.ScenarioC | script.js:40-58 | 10000 initial, 500 monthly, 7%, ten years: eleven samples per series, total investment 70000 and a final balance above it |
| Compounding.IterateAdd | script.js:48-53 | m months and then n more give the same balance as m + n months |
| Compounding.IterateZeroRate | script.js:49 | At rate 0, n months give the start plus n contributions |
| Compounding.IterateScaledClosedForm | script.js:48-49 | For every rate r: r * balance after n months = (r * start + c) * (1 + r)^n - c |
| Compounding.IterateClosedForm | script.js:48-49 | For a non-zero rate, the balance after n months is start * (1 + r)^n + c * ((1 + r)^n - 1) / r |
| Compounding.IterateAtLeastPaidIn | script.js:48-49 | With a non-negative rate and amounts, the balance after n months is at least start + n * c |
| Compounding.IterateNonDecreasing | script.js:48-49 | With a non-negative rate and amounts, the balance after m months is at most the balance after n >= m months |
| Compounding.IterateDecays | script.js:48-49 | With a monthly rate between -1 and 0, no contribution and a non-negative start, the balance after n months is between 0 and the balance after m <= n months |
| Compounding.StepAgainstLevel | script.js:49 | For a negative rate r, one month lowers the balance exactly when it is above -c / r and raises it exactly when it is below |
| Compounding.IterateStrictGain | script.js:48-49 | With a positive rate and something invested, two or more months give strictly more than start + n * c |
| ChartLabels.YearLabels | script.js:87-90 | The label list has max(years + 1, 0) entries, and entry i is `Year ` followed by the decimal numeral of i |
| ChartLabels.DecimalString | script.js:89 | The numeral of n is non-empty and all digits, with no leading zero; it starts with 0 exactly when n is 0 |
| ChartLabels.DecimalRoundTrip | script.js:89 | Reading back the numeral of n gives n |
| ChartLabels.DecimalStringOfValue | script.js:89 | Writing out the value of a canonical numeral gives that numeral back |
| ChartLabels.DecimalStringInjective | script.js:89 | Different numbers have different numerals |
| ChartLabels.YearLabelParses | script.js:89 | Every label is `Year ` followed by a canonical numeral that reads back as its index |
| ChartLabels.YearLabelsDistinct | script.js:87-90 | Labels of different years differ |
| ChartLabels.LabelsMatchSeries | script.js:83-90 | The label count equals the sample count of both series exactly when years >= 0; for negative years there are no labels but one sample per series |

## Left out

- Floating point: every amount is an exact `real`. IEEE-754 rounding, overflow to `Infinity` and `NaN` are not modelled, and no bound on rounding error is claimed.
- Projection.GainPercent: returns `None` where the page's division by a zero total investment produces `NaN` or `Infinity`. The `toFixed(1)` rounding and the `+` prefix on the displayed text are formatting and are not modelled.
- Projection.CalculateFromInputs: takes already-parsed inputs, with `None` standing for a failed parse. It does not model how `parseFloat`/`parseInt` read text.
- Currency formatting with `Intl.NumberFormat` and the `$…K` axis tick formatter: locale-dependent formatting inside a foreign library.
- Writing the results into the page, the early return when the chart element is missing, and building and destroying the chart object: DOM and third-party rendering with no logic of their own.
- The result animation, the lazy loading of the charting library, the input listeners, the load handler, the menu toggle, smooth scrolling and the scroll-triggered animations: browser I/O and timers.
- Determinism of repeated runs needs no lemma. Every member is a mathematical function of its inputs, and the method is proved equal to one.
