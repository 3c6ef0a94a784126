# Real-estate deal simulator: a verified model of its financial engine

The `real_estate` package projects a leveraged real-estate deal year by year and
compares it with a margin-financed stock position. A deal has four phases:
purchase, rehab, rental, and refinance. This project models the package's
financial engine in Dafny, over exact `real` numbers, and proves what that
engine promises. It has three parts.

* **Amortization engine** (`Amortization`, from `mortgage.py`)
  * A fixed-rate `Mortgage` settles its defaults and computes the annuity
    payment and the closed-form balance of every month.
  * It splits each month into interest and principal.
  * Mortgage insurance is charged while home value, less the principal paid
    so far and the downpayment, stays above 80% of the home value.
  * The months are folded into yearly rows.
* **Phases** (`Phases`, from `metadata.py`)
  * `Acquisition`, `Rehab`, `PreReFi_Rent` and `Refinance` each derive
    their monetary fields once, when they are built.
  * The acquisition and the refinance each own a mortgage.
* **Rollup** (`Aggregate` and `Ledger` from `aggregate.py`; `Analysis` from
  `analysis.py`)
  * Months of each phase are allocated to years.
  * `calculate_annual_data` builds the year-by-year frame, carrying the
    previous year's equity and the running profit.
  * The stock-versus-rent frame and the benchmark stock series are also
    modelled.

Shared arithmetic is in `Money`: natural powers `Pow`, compounding
`Compound`, and column sums `Sum` / `SumInt`. `numpy.power` with a natural
exponent becomes `Pow`. Every division gets a precondition that its
divisor is non-zero. Pandas frames become sequences of row records, and
their column operations become the following:

| pandas | model |
|---|---|
| `groupby` | `GroupSum` |
| `diff`, `np.roll` | `Ledger.EquityGain`, `Ledger.EquityBase` |
| `cumsum` | `Ledger.CumulativeProfit`, `Amortization.Mortgage.CumPrincipal` |

`yearly_months` comes from `real_estate.constants`, which is not part of this
model. Its value is taken as 12, the figure `aggregate.py` also writes
literally.

## Behaviour of the code worth knowing

Each point below is what the code does, which a reader of the function names
might not expect. The model follows the code in each case.

* **The principal column does not add up to the loan.**
  * `mortgage.py:45` charges interest on the balance *after* payment k
    (`remaining_balance` of line 42), not on the balance before it.
  * So the principal portions telescope from the balance after payment 1 to
    the balance after payment n + 1.
  * Their total is (1 + r) · P, not P. See `Amortization.TotalPrincipal`.
  * The balances themselves behave as documented: they start at P, end at 0,
    and strictly decrease.
* **The acquisition's owning expenses take a whole year of mortgage insurance.**
  * `sum_owning_expenses` otherwise adds monthly figures: monthly taxes,
    monthly insurance, HOA and utilities. One month's premium would match
    them.
  * `metadata.py:43` reads `mort.df.iloc[0]`, and `df` is the *yearly* frame.
  * So the added amount is the insurance of the first twelve months, between
    0 and twelve monthly premiums (`Phases.SumOwningExpenses`).
* **The insurance cutoff is measured against the home value.**
  * `mortgage.py:51` uses the home value, in the mortgage's own terms.
  * `Acquisition` and `Refinance` build their mortgages with the defaults.
  * That home value is therefore 1.05 × the loan, not the purchase price or
    the appraisal.
  * With those defaults, insurance is charged exactly while less than 15% of
    the loan has been repaid (`Amortization.DefaultInsuranceThreshold`).
* **The monthly rehab figure multiplies rather than divides.**
  * `monthly_rehab` is total cost × months / 12 (`metadata.py:76`).
  * It is not the cost spread over the rehab months.
* **Rental income uses the pre-refinance rent for every year.**
  * The refinance's own `monthly_rent` derives its vacancy, repairs, capex
    and cashflow (`metadata.py:159-170`), and its operating expenses feed
    the expense column (`aggregate.py:101`).
  * That rent never enters the income column, which uses `pre_refi`'s rent
    in every year (`aggregate.py:37`).

## Model

| member | source | states |
|---|---|---|
| Amortization.NewMortgage | src/real_estate/mortgage.py:5-16 | The mortgage keeps rate, loan, insurance fraction and term. A missing home value becomes 1.05 × loan and missing fees 1% of the loan. The downpayment is what price and fees leave uncovered: loan + downpayment = home value + fees. A positive rate and term make it valid. |
| Amortization.DefaultInsuranceThreshold | src/real_estate/mortgage.py:10-16 | With the default home value and fees, the downpayment is 6% of the loan. The insurance cutoff then holds exactly while the principal repaid is below 15% of the loan. |
| Amortization.AnnuityRetiresLoan | src/real_estate/mortgage.py:26-28 | For any positive monthly rate and term, the annuity payment leaves a balance of exactly 0 after the last payment. For a positive loan the payment exceeds a month's interest on the loan. |
| Amortization.BalanceClosedForm | src/real_estate/mortgage.py:19-42 | Uses monthly rate r = yearly/12, n = 12 · years payments, x = 1 + r and the annuity payment P·r·xⁿ/(xⁿ − 1). The balance after payment k, P·xᵏ − (M/r)(xᵏ − 1), equals P(xⁿ − xᵏ)/(xⁿ − 1), and xⁿ > 1. |
| Amortization.BalanceEndpoints | src/real_estate/mortgage.py:42 | The balance formula gives P before any payment and exactly 0 after payment n. |
| Amortization.BalanceRecurrence | src/real_estate/mortgage.py:42 | Each payment grows the balance by one month's interest and subtracts the P&I payment: B(k+1) = (1 + r)·B(k) − M. |
| Amortization.BalanceStrictlyDecreasing | src/real_estate/mortgage.py:39-42 | For a positive loan, every payment strictly lowers the balance. |
| Amortization.BalanceNonIncreasing | src/real_estate/mortgage.py:39-42 | For a positive loan, a later balance is never above an earlier one. |
| Amortization.BalanceInRange | src/real_estate/mortgage.py:39-42 | For a positive loan, every scheduled balance (payments 1..n) lies in [0, P). |
| Amortization.PaymentSplit | src/real_estate/mortgage.py:45-48 | Principal + interest = the P&I payment. The principal of payment k is the drop in balance from k to k + 1, because interest is charged on the post-payment balance. |
| Amortization.CumPrincipalTelescopes | src/real_estate/mortgage.py:48-51 | The running principal total through month i is B(1) − B(i + 2). |
| Amortization.CumPrincipalIsPrefixSum | src/real_estate/mortgage.py:51 | The running total used by the insurance test is the prefix sum (`cumsum`) of the frame's principal column. |
| Amortization.InsuranceNeverResumes | src/real_estate/mortgage.py:51 | For a positive loan, once insurance stops it never resumes: if it is due in month j, it was due in every earlier month. |
| Amortization.Mortgage.MonthlyDf | src/real_estate/mortgage.py:36-64 | The monthly frame has exactly n = 12 · years rows. |
| Amortization.MonthlyRow | src/real_estate/mortgage.py:42-54 | In every row: principal + interest = P&I, payment = P&I + insurance, and interest = that row's balance × r. Each row's principal is its balance less the next row's balance. |
| Amortization.MonthlyBalances | src/real_estate/mortgage.py:36-42 | The last row's balance is 0. For a positive loan, every balance is in [0, P) and the balances strictly decrease down the frame. |
| Amortization.MonthlyInsurance | src/real_estate/mortgage.py:51-54 | Each row's insurance is 0 or loan × fraction / 12. When that premium is non-zero, it is charged exactly when home value − cumsum(principal) − downpayment > 0.8 × home value. |
| Amortization.TotalPrincipal | src/real_estate/mortgage.py:42-48 | The principal column sums to B(1) − B(n + 1), which is (1 + r) · P rather than P. |
| Amortization.Mortgage.Df | src/real_estate/mortgage.py:20-24 | Grouping the months by year (index div 12, line 65) gives exactly one yearly row per year of the term. |
| Amortization.GroupSumIsBlockSum | src/real_estate/mortgage.py:65 | Summing the entries whose index div 12 is y is summing the contiguous block 12y .. 12y + 11, cut short at the end of the column. |
| Amortization.YearlyRow | src/real_estate/mortgage.py:23-24 | Yearly payment, principal, interest and insurance are the sums of that year's twelve months. The yearly balance is the year's last monthly balance, B(12y + 12). |
| Amortization.YearlyPrincipal | src/real_estate/mortgage.py:23-24 | A year's principal (the yearly sum of line 48's column) is B(12y + 1) − B(12y + 13). |
| Amortization.YearlyPaidOff | src/real_estate/mortgage.py:24 | The last yearly balance is 0. |
| Amortization.Rollup | src/real_estate/mortgage.py:23-24 | A monthly frame of whole years folds into exactly that many yearly rows. |
| Amortization.RollupKeepsTotals | src/real_estate/mortgage.py:23 | The yearly flow columns have the same totals as the monthly ones. |
| Phases.SumOwningExpenses | src/real_estate/metadata.py:41-44 | Owning expenses are taxes + insurance + HOA + utilities plus the first yearly row's mortgage insurance. So, for a non-negative premium, they are at least the fixed part and at most the fixed part plus twelve monthly premiums. |
| Phases.FirstYearInsuranceBounds | src/real_estate/metadata.py:43 | For a non-negative premium (loan × fraction ≥ 0), the first yearly row's mortgage insurance lies between 0 and loan × fraction, which is twelve monthly premiums. |
| Phases.NewAcquisition | src/real_estate/metadata.py:7-39 | The acquisition keeps price, downpayment, rate, appreciation, HOA, yearly insurance and utilities. Loan fees and closing costs are 1% of the price each, and loan + downpayment = price + fees. Taxes given as 0 become 1.11% of the price. Monthly taxes and insurance are a twelfth of the yearly ones. The loan is a default mortgage at the acquisition rate, monthly P&I is its payment, and owning expenses add its first-year insurance. |
| Phases.NewRehab | src/real_estate/metadata.py:58-78 | 12 × monthly rehab = total cost × months. Holding cost = months × (P&I + owning expenses). Monthly total = monthly rehab + owning expenses + P&I. |
| Phases.DeriveOperations | src/real_estate/metadata.py:110-122 | Vacancy, repairs and capex are rent × fraction. OpEx is their sum plus owning expenses, without P&I. Expenses are OpEx + P&I, cashflow is rent − OpEx − P&I, and NOI = 12 · (rent − OpEx). |
| Phases.NoiIndependentOfDebt | src/real_estate/metadata.py:115-117 | Two rentals differing only in P&I have equal OpEx and NOI. Their cashflows differ by exactly the P&I difference. |
| Phases.NewPreRefiRent | src/real_estate/metadata.py:91-122 | The pre-refinance rental keeps every input: months, rent, the vacancy, repairs and capex fractions, owning expenses, P&I and both growth rates. Its vacancy, repairs, capex, OpEx, expenses, cashflow and NOI are exactly the rental operations of those inputs, so OpEx = rent × (sum of fractions) + owning expenses, cashflow = rent − OpEx − P&I and NOI = 12 × (rent − OpEx). |
| Phases.NewRefinance | src/real_estate/metadata.py:135-171 | The refinance keeps its months, rent, home value, fractions, owning expenses and rates. The loan is 0.8 × home value plus fees of 1% of the home value. P&I is the payment of its own default mortgage at the refinance rate. Its operating figures are the rental operations of its own rent and fractions with that P&I, so OpEx, cashflow and NOI obey the rental identities. |
| Aggregate.MonthsInYear | src/real_estate/aggregate.py:84-91 | A year's allocation lies in 0..12. |
| Aggregate.MonthsSchedule | src/real_estate/aggregate.py:81-92 | The allocation has one entry per year, entry y being the months of the phase that fall in year y. |
| Aggregate.ApplicableMonthsPerYear | src/real_estate/aggregate.py:81-92 | The decrementing loop yields exactly the allocation, with max(total_years, 0) entries. |
| Aggregate.MonthsShape | src/real_estate/aggregate.py:81-92 | The allocation never increases. Once a year gets fewer than 12 months, every later year gets 0: a run of 12s, at most one partial year, then 0s. |
| Aggregate.MonthsTotal | src/real_estate/aggregate.py:81-92 | The allocation sums to the phase length capped at 12 × years, and to 0 for a non-positive length. |
| Aggregate.WholeYear | src/real_estate/aggregate.py:84-91 | A year that lies wholly inside a phase gets all 12 months. A year that starts after the phase has ended gets 0. |
| Aggregate.NewYearlySummary | src/real_estate/aggregate.py:15-27 | Cash required is downpayment + rehab cost + closing costs. The rehab, acquisition-loan and pre-refinance months are allocated per year, each in 0..12. Renting + rehab months = 12 and acquisition + refinance months = 12 in every year. |
| Aggregate.NextAnnualRow | src/real_estate/aggregate.py:33-66 | Given that the last row built is year y−1's record and that the profits recorded so far sum to its cumulative profit, one iteration of the loop builds exactly year y's record. The profits including the new row then sum to the new row's cumulative profit. |
| Aggregate.CalculateAnnualData | src/real_estate/aggregate.py:30-68 | The loop yields one record per year, record y being year y's figures as defined by the source. This is also why the horizon must fit in the acquisition loan's term. |
| Aggregate.AnnualIdentities | src/real_estate/aggregate.py:34-64 | Year = y and month = 12y. Renting months = 12 − rehab months. Cashflow = income − expenses, and expenses = OpEx + mortgage payment + rehab share. Cash-on-cash = cashflow / cash required. Loan balance is the acquisition loan's yearly balance. Equity = value − balance, and profit = equity gain + cashflow. Return on initial investment = cumulative profit / cash required. |
| Aggregate.AnnualAnchors | src/real_estate/aggregate.py:50-63 | Year 0's equity gain and return on equity are taken against the cash required. Later years are taken against the previous year's equity. Cumulative profit adds each year's profit to the previous total. |
| Aggregate.CumulativeProfitTelescopes | src/real_estate/aggregate.py:48-64 | Equity gains through year y sum to equity[y] − cash required. Cumulative profit is the exact prefix sum of annual profits, equal to equity[y] − cash required + all cashflows so far. |
| Aggregate.IncomeByRehab | src/real_estate/aggregate.py:37 | A year wholly under rehab collects no rent. A year without rehab collects twelve months of the pre-refinance rent appreciated to that year. Between two such years the income grows by exactly the rent appreciation. |
| Aggregate.MortgagePaymentByPhase | src/real_estate/aggregate.py:40 | A year wholly on the acquisition loan pays twelve of its P&I payments, and a year after the refinance pays twelve of the refinance P&I. In general the year pays 12 refinance payments plus, for each acquisition month, the difference between the two payments. |
| Aggregate.PropertyValueByPhase | src/real_estate/aggregate.py:94-97 | A year wholly on the acquisition loan is valued at the appreciated price plus the rehab cost. A year after the refinance is valued at the appreciated appraisal. Every year's value lies between those two period values, being their blend weighted by months. |
| Aggregate.OperatingExpensesByPhase | src/real_estate/aggregate.py:99-102 | While the pre-refinance period and the acquisition loan both cover the whole year, OpEx is twelve months of the pre-refinance OpEx inflated to that year. Once both have ended it is twelve months of the refinance OpEx inflated to that year, and from then on it grows by the refinance's OpEx inflation every year. |
| Aggregate.PropertyValueWithoutAppreciation | src/real_estate/aggregate.py:94-97 | With zero appreciation on both loans, a year's value is the price plus the rehab cost for its acquisition months and the appraisal for its refinance months, each over 12. The value then changes from year to year only through the month split. |
| Aggregate.OperatingExpensesWithoutInflation | src/real_estate/aggregate.py:99-102 | With zero inflation, a year's OpEx is each rented period's monthly OpEx times its months in that year. |
| Aggregate.SharesSum | src/real_estate/aggregate.py:41 | Cost shares in proportion to month counts add up to the share of the total months. |
| Aggregate.RehabSharesTotal | src/real_estate/aggregate.py:41 | When 0 < rehab months ≤ 12 × years, the yearly rehab shares add up to exactly the rehab cost. |
| Ledger.GainsTelescope | src/real_estate/aggregate.py:50-55 | Equity gains anchored to the initial cash telescope to the current equity less that cash. |
| Ledger.CumulativeIsPrefixSum | src/real_estate/aggregate.py:63 | Cumulative profit is the sum of the profit column through the year. |
| Ledger.CumulativeTelescopes | src/real_estate/aggregate.py:56-63 | Cumulative profit is the equity built over the anchor plus every cashflow so far. |
| Aggregate.StockRowColumns | src/real_estate/aggregate.py:118-149 | In each stock-versus-rent row: income is 0, expenses are OpEx + rent, and cashflow is −expenses. Cash-on-cash is cashflow / downpayment. Loan balance is the margin loan's yearly balance, and equity is stock value − balance. Profit is equity gain + cashflow, and return on initial investment is cumulative / downpayment. |
| Aggregate.StockFirstRow | src/real_estate/aggregate.py:144-148 | In row 0, the equity gain and return on equity are taken against the margin downpayment, and cumulative profit is that row's profit. |
| Aggregate.StockLaterRow | src/real_estate/aggregate.py:143-148 | In later rows, equity gain is the difference of equities, return on equity is over the previous equity, and cumulative profit adds this row's profit to the previous total. |
| Aggregate.StocksRentPerformance | src/real_estate/aggregate.py:105-149 | One row per year. Each row's cumulative profit is the equity over the downpayment plus every (negative) renter cashflow so far. |
| Analysis.GenerateStockPerformance | src/real_estate/analysis.py:4-20 | There are end − start + 1 rows, and the years run consecutively from the start year. Value k = start value · (1 + return)^k, and row 0's value is the start value. Return on initial investment = value / row 0's value. |
| Money.CompoundStep | src/real_estate/analysis.py:18 | Each value is the previous one times (1 + return). |
| Analysis.StockSeries | src/real_estate/analysis.py:17-20 | Row 0's return is 1. Values grow by the annual return from row to row. Row k's return is (1 + return)^k. |
| Analysis.ReturnIsGrowth | src/real_estate/analysis.py:20 | A compounded amount over its start is the compounded growth factor. |

## Left out

- `plots.py`: Plotly figure layout and display are user interface and are not modelled.
- Output:
  - `format_with_sig_figs` (log10/floor display formatting) is not modelled.
  - Every `print`/`display` call, `to_dataframe` and the `__str__` methods are not modelled. `to_dataframe` wraps `calculate_annual_data` for display.
- `setup.py`: packaging metadata is not modelled.
- Floating point:
  - The model computes over exact reals, so IEEE-754 rounding is not modelled.
  - The `np.nan` placeholders are not modelled, because they are always overwritten before use.
- `real_estate.constants`: only its `yearly_months` value (12) is used.
- The `Margin` and `Renter` classes are not part of this model. `Aggregate.Margin` and `Aggregate.Renter` hold just the fields the frame reads.
- The Employment phase is not part of the modelled source.
- Aggregate.StocksRentPerformance:
  - It requires the margin loan's term to equal the horizon. pandas refuses to build the frame when the balance column and the year arrays differ in length.
  - The `np.roll` quotient of row 0, which divides by the last year's equity, is not modelled. It is always overwritten by the downpayment-based value.
- Division by zero: numpy would yield `inf`/`nan` with a warning. The model instead requires non-zero divisors in the following places:
  - Amortization.NewMortgage: a positive rate and a positive term.
  - Aggregate.CalculateAnnualData: a non-zero rehab length, non-zero cash required, and non-zero equity in every year but the last.
  - Aggregate.StocksRentPerformance: a non-zero downpayment and non-zero equity in every year but the last.
  - Analysis.GenerateStockPerformance: a non-zero start value.
- Amortization.NewMortgage requires a positive rate. A negative rate, for which the source still computes figures, is not modelled.
- Aggregate.NewYearlySummary takes the horizon as a natural number. A negative horizon, which yields empty frames in the source, is not modelled. Aggregate.ApplicableMonthsPerYear does accept a negative horizon.
- Aggregate.StocksRentPerformance requires a positive horizon (`totalYears > 0` in `Aggregate.StockFrameDefined`). For a non-positive horizon the source raises: the year arrays are empty while the margin loan's balance column is not, so pandas refuses to build the frame. If that column is empty as well, `df.iloc[0]` (`aggregate.py:144`) raises an IndexError. Those error paths are not modelled.
- Aggregate.CalculateAnnualData requires the horizon to fit in the acquisition loan's term. `iloc` beyond it raises an IndexError in the source, and that error path is not modelled.
- Analysis.GenerateStockPerformance requires end year ≥ start year. An empty range has no row 0, so the source fails when reading it; that error path is not modelled.
