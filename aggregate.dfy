/** The yearly rollup of a deal (`YearlySummary`) and the stock-versus-rent
    comparison frame (`stocks_rent_performance`). */
module Aggregate {
  import opened Money
  import opened Amortization
  import opened Phases
  import opened Ledger

  /** The months of a phase lasting `totalMonths` that fall in year `y`
      (0-based): whole years first, then the remainder, then nothing. */
  function MonthsInYear(totalMonths: int, y: nat): (m: int)
    ensures 0 <= m <= 12
  {
    var left := totalMonths - 12 * y;
    if left >= 12 then 12 else if left > 0 then left else 0
  }

  /** The per-year month allocation of a phase over `years` years. */
  function MonthsSchedule(totalMonths: int, years: nat): (s: seq<int>)
    ensures |s| == years
    ensures forall y :: 0 <= y < years ==> s[y] == MonthsInYear(totalMonths, y)
  {
    seq(years, y requires 0 <= y => MonthsInYear(totalMonths, y))
  }

  /** `applicable_months_per_year`: hands out 12 months a year while at least
      12 remain, then the remainder once, then 0. A negative horizon gives an
      empty allocation, as the source's empty range does. */
  method ApplicableMonthsPerYear(totalMonths: int, totalYears: int) returns (months: seq<int>)
    ensures months == MonthsSchedule(totalMonths, if totalYears > 0 then totalYears else 0)
  {
    var years: nat := if totalYears > 0 then totalYears else 0;
    months := [];
    var left := totalMonths;
    var year := 1;
    while year <= totalYears
      invariant 1 <= year <= years + 1
      invariant |months| == year - 1
      invariant forall y :: 0 <= y < |months| ==> months[y] == MonthsInYear(totalMonths, y)
      invariant (left > 0 && left == totalMonths - 12 * (year - 1))
             || (left <= 0 && totalMonths - 12 * (year - 1) <= 0)
    {
      if left >= 12 {
        months := months + [12];
        left := left - 12;
      } else if left > 0 {
        months := months + [left];
        left := 0;
      } else {
        months := months + [0];
      }
      year := year + 1;
    }
  }

  /** The allocation is a run of 12s, then at most one partial year, then
      zeros: it never increases, and once a year falls short of 12 every
      later year gets nothing. */
  lemma MonthsShape(totalMonths: int, j: nat, k: nat)
    requires j < k
    ensures MonthsInYear(totalMonths, j) >= MonthsInYear(totalMonths, k)
    ensures MonthsInYear(totalMonths, j) < 12 ==> MonthsInYear(totalMonths, k) == 0
  {
  }

  /** The months handed out: everything that fits in the horizon, none for a
      non-positive total. */
  function Allotted(totalMonths: int, years: nat): int
  {
    if totalMonths <= 0 then 0 else if totalMonths >= 12 * years then 12 * years else totalMonths
  }

  /** The allocation sums to the phase length, capped at the horizon. */
  lemma {:induction false} MonthsTotal(totalMonths: int, years: nat)
    ensures SumInt(MonthsSchedule(totalMonths, years)) == Allotted(totalMonths, years)
  {
    if years > 0 {
      assert MonthsSchedule(totalMonths, years)[..years - 1] == MonthsSchedule(totalMonths, years - 1);
      MonthsTotal(totalMonths, years - 1);
    }
  }

  /** `YearlySummary`: the four phases, the horizon and the derived per-year
      month allocations. */
  datatype YearlySummary = YearlySummary(
    acq: Acquisition,
    rehab: Rehab,
    preRefi: PreRefiRent,
    refi: Refinance,
    totalYears: nat,
    cashRequired: real,
    rehabMonths: seq<int>,
    rentalMonths: seq<int>,
    acqMonths: seq<int>,
    refiMonths: seq<int>,
    preRefiMonths: seq<int>)
  {
    /** The fields derived by the constructor agree with the phases. */
    predicate Valid()
    {
      && cashRequired == acq.downpayment + rehab.totalCost + acq.closing
      && rehabMonths == MonthsSchedule(rehab.totalMonths, totalYears)
      && acqMonths == MonthsSchedule(refi.totalMonths, totalYears)
      && preRefiMonths == MonthsSchedule(preRefi.totalMonths, totalYears)
      && |rentalMonths| == totalYears && |refiMonths| == totalYears
      && (forall y :: 0 <= y < totalYears ==> rentalMonths[y] == 12 - rehabMonths[y])
      && (forall y :: 0 <= y < totalYears ==> refiMonths[y] == 12 - acqMonths[y])
    }

    /** What the annual figures need: the loan balance is read from the
        acquisition's yearly schedule, so the horizon fits in its term, and
        the rehab share and the cash ratios divide by non-zero amounts. */
    predicate Computable()
    {
      && Valid()
      && acq.mort.Valid()
      && totalYears <= acq.mort.totalYears
      && rehab.totalMonths != 0
      && cashRequired != 0.0
    }

    /** Rent collected in year `y`, grown by the rent appreciation. */
    function Income(y: nat): real
      requires Valid() && y < totalYears
    {
      Compound(preRefi.monthlyRent, preRefi.yearlyRentApprec, y) * (rentalMonths[y] as real)
    }

    /** `operating_expenses`: each rented period's OpEx for its months,
        inflated to year `y`. */
    function OperatingExpenses(y: nat): real
      requires Valid() && y < totalYears
    {
      Compound(preRefi.ops.monthlyOpEx * (preRefiMonths[y] as real), preRefi.yearlyOpexInflation, y)
        + Compound(refi.ops.monthlyOpEx * (refiMonths[y] as real), refi.yearlyOpexInflation, y)
    }

    /** P&I of the acquisition loan for its months and of the refinance loan
        for the rest of the year. */
    function MortgagePayment(y: nat): real
      requires Valid() && y < totalYears
    {
      acq.monthlyPI * (acqMonths[y] as real) + refi.monthlyPI * (refiMonths[y] as real)
    }

    /** The rehab cost spread over years in proportion to the rehab months in each. */
    function RehabShare(y: nat): real
      requires Valid() && y < totalYears && rehab.totalMonths != 0
    {
      Share(rehab.totalCost, rehabMonths[y], rehab.totalMonths as real)
    }

    function Expenses(y: nat): real
      requires Valid() && y < totalYears && rehab.totalMonths != 0
    {
      OperatingExpenses(y) + MortgagePayment(y) + RehabShare(y)
    }

    function Cashflow(y: nat): real
      requires Valid() && y < totalYears && rehab.totalMonths != 0
    {
      Income(y) - Expenses(y)
    }

    /** `property_value`: the appreciated purchase price plus the rehab cost
        while the acquisition loan runs, the appreciated appraisal after the
        refinance, each weighted by its months in year `y`. */
    function PropertyValue(y: nat): real
      requires Valid() && y < totalYears
    {
      (Compound(acq.homeValue, acq.yearlyValApprec, y) + rehab.totalCost) * (acqMonths[y] as real) / 12.0
        + Compound(refi.homeValue, refi.yearlyValApprec, y) * (refiMonths[y] as real) / 12.0
    }

    /** The acquisition loan's remaining balance at the end of year `y`: the
        balance after the year's last payment, which is what the yearly
        frame's balance column holds (`Amortization.YearlyRow`). */
    function LoanBalance(y: nat): real
      requires Computable() && y < totalYears
    {
      acq.mort.Balance(YearlyMonths * y + YearlyMonths)
    }

    function Equity(y: nat): real
      requires Computable() && y < totalYears
    {
      PropertyValue(y) - LoanBalance(y)
    }

    /** The equity column, one entry per year. */
    function Equities(): (e: seq<real>)
      requires Computable()
      ensures |e| == totalYears
      ensures forall y :: 0 <= y < totalYears ==> e[y] == Equity(y)
    {
      seq(totalYears, y requires 0 <= y < totalYears => Equity(y))
    }

    /** The cashflow column, one entry per year. */
    function Cashflows(): (c: seq<real>)
      requires Computable()
      ensures |c| == totalYears
      ensures forall y :: 0 <= y < totalYears ==> c[y] == Cashflow(y)
    {
      seq(totalYears, y requires 0 <= y < totalYears => Cashflow(y))
    }

    /** Every year's return on equity has a non-zero base: the equity of each
        year but the last is not zero. */
    predicate PriorEquitiesNonZero()
      requires Computable()
    {
      forall y: nat :: y + 1 < totalYears ==> Equity(y) != 0.0
    }

    /** The record of year `y`, every column as the source defines it. */
    function Annual(y: nat): (d: AnnualData)
      requires Computable() && y < totalYears
      requires y == 0 || Equity(y - 1) != 0.0
    {
      var e := Equities();
      var c := Cashflows();
      AnnualData(
        y, 12 * y, rentalMonths[y], Income(y), OperatingExpenses(y), MortgagePayment(y),
        Expenses(y), Cashflow(y), Cashflow(y) / cashRequired, PropertyValue(y), LoanBalance(y),
        Equity(y), EquityGain(e, cashRequired, y), Profit(e, c, cashRequired, y),
        ReturnOnEquity(e, c, cashRequired, y), CumulativeProfit(e, c, cashRequired, y),
        CumulativeProfit(e, c, cashRequired, y) / cashRequired)
    }

    /** The rehab share column, one entry per year. */
    function RehabShares(): (r: seq<real>)
      requires Valid() && rehab.totalMonths != 0
      ensures |r| == totalYears
      ensures forall y :: 0 <= y < totalYears ==> r[y] == RehabShare(y)
    {
      Shares(rehab.totalCost, rehabMonths, rehab.totalMonths as real)
    }
  }

  /** One row of `calculate_annual_data`. */
  datatype AnnualData = AnnualData(
    year: nat,
    month: nat,
    rentingMonths: int,
    income: real,
    operatingExpenses: real,
    mortgagePayment: real,
    expenses: real,
    cashflow: real,
    cashOnCash: real,
    propertyValue: real,
    loanBalance: real,
    equity: real,
    equityGain: real,
    profit: real,
    returnOnEquity: real,
    cumulativeProfit: real,
    returnOnInitialInvestment: real)

  /** `YearlySummary(...)`: the cash required up front is the downpayment,
      the rehab cost and the closing costs; the rehab, acquisition-loan and
      pre-refinance months are allocated per year, and renting and refinance
      months are what is left of each year. */
  method NewYearlySummary(acq: Acquisition, rehab: Rehab, preRefi: PreRefiRent, refi: Refinance,
                          totalYears: nat) returns (s: YearlySummary)
    ensures s.Valid()
    ensures s.acq == acq && s.rehab == rehab && s.preRefi == preRefi && s.refi == refi
    ensures s.totalYears == totalYears
    ensures s.cashRequired == acq.downpayment + rehab.totalCost + acq.closing
    ensures forall y :: 0 <= y < totalYears ==>
      && 0 <= s.rehabMonths[y] <= 12 && 0 <= s.acqMonths[y] <= 12 && 0 <= s.preRefiMonths[y] <= 12
      && s.rentalMonths[y] + s.rehabMonths[y] == 12
      && s.acqMonths[y] + s.refiMonths[y] == 12
  {
    var cash := acq.downpayment + rehab.totalCost + acq.closing;
    var rehabMonths := ApplicableMonthsPerYear(rehab.totalMonths, totalYears);
    var rentalMonths := seq(|rehabMonths|, y requires 0 <= y < |rehabMonths| => 12 - rehabMonths[y]);
    var acqMonths := ApplicableMonthsPerYear(refi.totalMonths, totalYears);
    var refiMonths := seq(|acqMonths|, y requires 0 <= y < |acqMonths| => 12 - acqMonths[y]);
    var preRefiMonths := ApplicableMonthsPerYear(preRefi.totalMonths, totalYears);
    s := YearlySummary(acq, rehab, preRefi, refi, totalYears, cash,
                       rehabMonths, rentalMonths, acqMonths, refiMonths, preRefiMonths);
  }

  /** The annual profits recorded so far (`np.sum` over the previous rows). */
  function SumProfits(data: seq<AnnualData>): real
  {
    if |data| == 0 then 0.0 else SumProfits(data[..|data| - 1]) + data[|data| - 1].profit
  }

  /** The body of `calculate_annual_data`'s loop: the row of the year after
      the rows already built, measuring its equity gain and return against the
      last row (against the cash required in year 0) and adding its profit to
      the profits recorded so far. */
  method NextAnnualRow(s: YearlySummary, data: seq<AnnualData>) returns (row: AnnualData)
    requires s.Computable() && s.PriorEquitiesNonZero() && |data| < s.totalYears
    requires |data| > 0 ==> data[|data| - 1] == s.Annual(|data| - 1)
    requires SumProfits(data) == if |data| == 0 then 0.0 else data[|data| - 1].cumulativeProfit
    ensures row == s.Annual(|data|)
    ensures SumProfits(data + [row]) == row.cumulativeProfit
  {
    var year := |data|;
    ghost var expected := s.Annual(year);
    AnnualIdentities(s, year);
    AnnualAnchors(s, year);
    var income := s.Income(year);
    var opex := s.OperatingExpenses(year);
    var payment := s.MortgagePayment(year);
    var expenses := opex + payment + Share(s.rehab.totalCost, s.rehabMonths[year], s.rehab.totalMonths as real);
    var cashflow := income - expenses;
    var value := s.PropertyValue(year);
    var balance := s.LoanBalance(year);
    var equity := value - balance;
    var gain := if year == 0 then equity - s.cashRequired else equity - data[year - 1].equity;
    var profit := gain + cashflow;
    var roe := if year == 0 then profit / s.cashRequired else profit / data[year - 1].equity;
    var cumulative := SumProfits(data) + profit;
    row := AnnualData(year, year * 12, s.rentalMonths[year], income, opex, payment, expenses,
                      cashflow, cashflow / s.cashRequired, value, balance, equity, gain, profit,
                      roe, cumulative, cumulative / s.cashRequired);
    assert expenses == expected.expenses;
    assert equity == expected.equity;
    assert gain == expected.equityGain;
    assert profit == expected.profit;
    assert roe == expected.returnOnEquity;
    assert cumulative == expected.cumulativeProfit;
    assert (data + [row])[..|data|] == data;
  }

  /** `calculate_annual_data`: one row per year of the horizon, each as the
      source defines it. */
  method CalculateAnnualData(s: YearlySummary) returns (data: seq<AnnualData>)
    requires s.Computable() && s.PriorEquitiesNonZero()
    ensures |data| == s.totalYears
    ensures forall y :: 0 <= y < s.totalYears ==> data[y] == s.Annual(y)
  {
    data := [];
    while |data| < s.totalYears
      invariant |data| <= s.totalYears
      invariant forall y :: 0 <= y < |data| ==> data[y] == s.Annual(y)
      invariant SumProfits(data) == if |data| == 0 then 0.0 else data[|data| - 1].cumulativeProfit
    {
      var row := NextAnnualRow(s, data);
      data := data + [row];
    }
  }

  /** The year-by-year identities of the rows: renting and refinance months
      complement the rehab and acquisition months; cashflow is income less
      expenses; equity is property value less the loan's balance; profit is
      the equity gain plus cashflow; and the cash-on-cash return and the
      return on the initial investment are taken over the cash required. */
  lemma AnnualIdentities(s: YearlySummary, y: nat)
    requires s.Computable() && s.PriorEquitiesNonZero() && y < s.totalYears
    ensures var d := s.Annual(y);
      && d.year == y && d.month == 12 * y
      && d.rentingMonths == 12 - s.rehabMonths[y]
      && d.cashflow == d.income - d.expenses
      && d.expenses == d.operatingExpenses + d.mortgagePayment + s.RehabShare(y)
      && d.cashOnCash == d.cashflow / s.cashRequired
      && d.loanBalance == s.acq.mort.Df()[y].balance
      && d.equity == d.propertyValue - d.loanBalance
      && d.profit == d.equityGain + d.cashflow
      && d.returnOnInitialInvestment == d.cumulativeProfit / s.cashRequired
  {
  }

  /** Equity gain is anchored to the cash required in year 0 and to the
      previous year's equity afterwards, and the return on equity is the
      profit over that same base. */
  lemma AnnualAnchors(s: YearlySummary, y: nat)
    requires s.Computable() && s.PriorEquitiesNonZero() && y < s.totalYears
    ensures y == 0 ==> s.Annual(0).equityGain == s.Annual(0).equity - s.cashRequired
    ensures y == 0 ==> s.Annual(0).returnOnEquity == s.Annual(0).profit / s.cashRequired
    ensures y > 0 ==> s.Annual(y).equityGain == s.Annual(y).equity - s.Annual(y - 1).equity
    ensures y > 0 ==> s.Annual(y).returnOnEquity == s.Annual(y).profit / s.Annual(y - 1).equity
    ensures y == 0 ==> s.Annual(0).cumulativeProfit == s.Annual(0).profit
    ensures y > 0 ==> s.Annual(y).cumulativeProfit == s.Annual(y - 1).cumulativeProfit + s.Annual(y).profit
  {
  }

  /** The equity gains through year `y` add up to that year's equity less the
      cash required, and the cumulative profit is the sum of the annual
      profits so far, which is that equity gain plus every cashflow so far. */
  lemma CumulativeProfitTelescopes(s: YearlySummary, y: nat)
    requires s.Computable() && s.PriorEquitiesNonZero() && y < s.totalYears
    ensures Sum(Gains(s.Equities(), s.cashRequired)[..y + 1]) == s.Equity(y) - s.cashRequired
    ensures s.Annual(y).cumulativeProfit == Sum(Profits(s.Equities(), s.Cashflows(), s.cashRequired)[..y + 1])
    ensures s.Annual(y).cumulativeProfit == s.Equity(y) - s.cashRequired + Sum(s.Cashflows()[..y + 1])
  {
    GainsTelescope(s.Equities(), s.cashRequired, y);
    CumulativeIsPrefixSum(s.Equities(), s.Cashflows(), s.cashRequired, y);
    CumulativeTelescopes(s.Equities(), s.Cashflows(), s.cashRequired, y);
  }

  /** A year that falls wholly inside a phase gets 12 of its months, and a
      year that starts after the phase has ended gets none. */
  lemma WholeYear(totalMonths: int, y: nat)
    ensures totalMonths >= 12 * (y + 1) ==> MonthsInYear(totalMonths, y) == 12
    ensures totalMonths <= 12 * y ==> MonthsInYear(totalMonths, y) == 0
  {
  }

  /** Rent collected in a year: a year wholly under rehab collects nothing,
      a year without rehab collects twelve months of the appreciated rent,
      and between two years without rehab the income grows by the rent
      appreciation. */
  lemma IncomeByRehab(s: YearlySummary, y: nat)
    requires s.Valid() && y < s.totalYears
    ensures s.rehab.totalMonths >= 12 * (y + 1) ==> s.Income(y) == 0.0
    ensures s.rehab.totalMonths <= 12 * y
        ==> s.Income(y) == Compound(s.preRefi.monthlyRent, s.preRefi.yearlyRentApprec, y) * 12.0
    ensures s.rehab.totalMonths <= 12 * y && y + 1 < s.totalYears
        ==> s.Income(y + 1) == s.Income(y) * (1.0 + s.preRefi.yearlyRentApprec)
  {
    WholeYear(s.rehab.totalMonths, y);
    WholeYear(s.rehab.totalMonths, y + 1);
    var rent, g := s.preRefi.monthlyRent, s.preRefi.yearlyRentApprec;
    if s.rehab.totalMonths <= 12 * y && y + 1 < s.totalYears {
      CompoundStep(rent, g, y);
      assert s.Income(y + 1) == Compound(rent, g, y) * (1.0 + g) * 12.0;
    }
  }

  /** P&I paid in a year: twelve payments of the acquisition loan while it
      runs the whole year, twelve of the refinance loan once it has been
      replaced, and a month-weighted mix in the year of the refinance. */
  lemma MortgagePaymentByPhase(s: YearlySummary, y: nat)
    requires s.Valid() && y < s.totalYears
    ensures s.refi.totalMonths >= 12 * (y + 1) ==> s.MortgagePayment(y) == 12.0 * s.acq.monthlyPI
    ensures s.refi.totalMonths <= 12 * y ==> s.MortgagePayment(y) == 12.0 * s.refi.monthlyPI
    ensures s.MortgagePayment(y)
         == 12.0 * s.refi.monthlyPI + (s.acqMonths[y] as real) * (s.acq.monthlyPI - s.refi.monthlyPI)
  {
    WholeYear(s.refi.totalMonths, y);
  }

  /** The value of the home in year `y` blends the acquisition-period value
      (appreciated price plus rehab cost) and the refinance-period value
      (appreciated appraisal) by the months of each, so it lies between the
      two; a year wholly on either loan takes that loan's value. */
  lemma PropertyValueByPhase(s: YearlySummary, y: nat)
    requires s.Valid() && y < s.totalYears
    ensures var acqValue := Compound(s.acq.homeValue, s.acq.yearlyValApprec, y) + s.rehab.totalCost;
            var refiValue := Compound(s.refi.homeValue, s.refi.yearlyValApprec, y);
      && (s.refi.totalMonths >= 12 * (y + 1) ==> s.PropertyValue(y) == acqValue)
      && (s.refi.totalMonths <= 12 * y ==> s.PropertyValue(y) == refiValue)
      && (acqValue <= refiValue ==> acqValue <= s.PropertyValue(y) <= refiValue)
      && (refiValue <= acqValue ==> refiValue <= s.PropertyValue(y) <= acqValue)
  {
    WholeYear(s.refi.totalMonths, y);
    var acqValue := Compound(s.acq.homeValue, s.acq.yearlyValApprec, y) + s.rehab.totalCost;
    var refiValue := Compound(s.refi.homeValue, s.refi.yearlyValApprec, y);
    var am, rm := s.acqMonths[y] as real, s.refiMonths[y] as real;
    assert 0.0 <= am <= 12.0 && rm == 12.0 - am;
    var w := am / 12.0;
    assert acqValue * am / 12.0 == acqValue * w;
    assert refiValue * rm / 12.0 == refiValue * (1.0 - w);
    assert s.PropertyValue(y) == acqValue * am / 12.0 + refiValue * rm / 12.0;
    BlendBetween(acqValue, refiValue, w);
  }

  /** A weighted mix of two amounts lies between them. */
  lemma BlendBetween(a: real, b: real, w: real)
    requires 0.0 <= w <= 1.0
    ensures a <= b ==> a <= a * w + b * (1.0 - w) <= b
    ensures b <= a ==> b <= a * w + b * (1.0 - w) <= a
  {
    assert a * w + b * (1.0 - w) == a + (b - a) * (1.0 - w);
    assert a * w + b * (1.0 - w) == b - (b - a) * w;
  }

  /** Operating expenses in a year: twelve months of the pre-refinance OpEx
      while both the pre-refinance period and the acquisition loan cover the
      whole year, twelve months of the refinance OpEx once both have ended,
      each inflated to year `y`; after both have ended they grow by the
      refinance's OpEx inflation from year to year. */
  lemma OperatingExpensesByPhase(s: YearlySummary, y: nat)
    requires s.Valid() && y < s.totalYears
    ensures s.preRefi.totalMonths >= 12 * (y + 1) && s.refi.totalMonths >= 12 * (y + 1)
        ==> (s.OperatingExpenses(y)
             == Compound(s.preRefi.ops.monthlyOpEx * 12.0, s.preRefi.yearlyOpexInflation, y))
    ensures s.preRefi.totalMonths <= 12 * y && s.refi.totalMonths <= 12 * y
        ==> (s.OperatingExpenses(y)
             == Compound(s.refi.ops.monthlyOpEx * 12.0, s.refi.yearlyOpexInflation, y))
    ensures s.preRefi.totalMonths <= 12 * y && s.refi.totalMonths <= 12 * y && y + 1 < s.totalYears
        ==> s.OperatingExpenses(y + 1) == s.OperatingExpenses(y) * (1.0 + s.refi.yearlyOpexInflation)
  {
    WholeYear(s.preRefi.totalMonths, y);
    WholeYear(s.refi.totalMonths, y);
    WholeYear(s.preRefi.totalMonths, y + 1);
    WholeYear(s.refi.totalMonths, y + 1);
    var pre, refi := s.preRefi.ops.monthlyOpEx, s.refi.ops.monthlyOpEx;
    var pi, ri := s.preRefi.yearlyOpexInflation, s.refi.yearlyOpexInflation;
    if s.preRefi.totalMonths >= 12 * (y + 1) && s.refi.totalMonths >= 12 * (y + 1) {
      assert Compound(refi * 0.0, ri, y) == 0.0;
    }
    if s.preRefi.totalMonths <= 12 * y && s.refi.totalMonths <= 12 * y {
      assert Compound(pre * 0.0, pi, y) == 0.0;
      if y + 1 < s.totalYears {
        assert Compound(pre * 0.0, pi, y + 1) == 0.0;
        CompoundStep(refi * 12.0, ri, y);
      }
    }
  }

  /** Without appreciation, a year's property value is the price plus the
      rehab cost for its acquisition months and the appraisal for its
      refinance months: it depends on the year only through the month split. */
  lemma PropertyValueWithoutAppreciation(s: YearlySummary, y: nat)
    requires s.Valid() && y < s.totalYears
    requires s.acq.yearlyValApprec == 0.0 && s.refi.yearlyValApprec == 0.0
    ensures s.PropertyValue(y)
         == (s.acq.homeValue + s.rehab.totalCost) * (s.acqMonths[y] as real) / 12.0
          + s.refi.homeValue * (s.refiMonths[y] as real) / 12.0
  {
    PowOfOne(y);
  }

  /** Without inflation, a year's operating expenses are each rented
      period's monthly OpEx times its months in that year. */
  lemma OperatingExpensesWithoutInflation(s: YearlySummary, y: nat)
    requires s.Valid() && y < s.totalYears
    requires s.preRefi.yearlyOpexInflation == 0.0 && s.refi.yearlyOpexInflation == 0.0
    ensures s.OperatingExpenses(y)
         == s.preRefi.ops.monthlyOpEx * (s.preRefiMonths[y] as real)
          + s.refi.ops.monthlyOpEx * (s.refiMonths[y] as real)
  {
    PowOfOne(y);
  }

  /** The part of `cost` that falls on `months` of a `total`-month period. */
  function Share(cost: real, months: int, total: real): real
    requires total != 0.0
  {
    cost * (months as real) / total
  }

  /** The shares of `cost` for each entry of a month allocation. */
  function Shares(cost: real, months: seq<int>, total: real): (r: seq<real>)
    requires total != 0.0
    ensures |r| == |months|
    ensures forall y :: 0 <= y < |months| ==> r[y] == Share(cost, months[y], total)
  {
    seq(|months|, y requires 0 <= y < |months| => Share(cost, months[y], total))
  }

  /** Two shares of the same cost add like their month counts. */
  lemma ShareAdd(cost: real, a: int, b: int, total: real)
    requires total != 0.0
    ensures Share(cost, a, total) + Share(cost, b, total) == Share(cost, a + b, total)
  {
    var x := a as real;
    var y := b as real;
    assert (a + b) as real == x + y;
    assert cost * (x + y) == cost * x + cost * y;
    assert cost * x / total + cost * y / total == (cost * x + cost * y) / total;
  }

  /** The shares of an allocation add up to the share of its total months. */
  lemma {:induction false} SharesSum(cost: real, months: seq<int>, total: real)
    requires total != 0.0
    ensures Sum(Shares(cost, months, total)) == Share(cost, SumInt(months), total)
  {
    if |months| == 0 {
      assert cost * 0.0 == 0.0;
    } else {
      var n := |months| - 1;
      assert Shares(cost, months, total)[..n] == Shares(cost, months[..n], total);
      SharesSum(cost, months[..n], total);
      ShareAdd(cost, SumInt(months[..n]), months[n], total);
    }
  }

  /** An allocation that hands out every month of the period shares out
      exactly the whole cost. */
  lemma SharesOfWholePeriod(cost: real, months: seq<int>, total: int)
    requires total != 0 && SumInt(months) == total
    ensures Sum(Shares(cost, months, total as real)) == cost
  {
    var t := total as real;
    SharesSum(cost, months, t);
    assert Share(cost, total, t) == cost * t / t;
  }

  /** When the rehab lasts at least a month and fits in the horizon, its
      yearly shares add up to exactly the rehab cost. */
  lemma RehabSharesTotal(s: YearlySummary)
    requires s.Valid() && 0 < s.rehab.totalMonths <= 12 * s.totalYears
    ensures Sum(s.RehabShares()) == s.rehab.totalCost
  {
    MonthsTotal(s.rehab.totalMonths, s.totalYears);
    assert SumInt(s.rehabMonths) == s.rehab.totalMonths;
    SharesOfWholePeriod(s.rehab.totalCost, s.rehabMonths, s.rehab.totalMonths);
  }

  /** The margin-financed stock position (its class is not part of this
      model; these are the fields the frame reads). */
  datatype Margin = Margin(stockValue: real, downpayment: real, yearlyValApprec: real, mort: Mortgage)

  /** The renter's costs (its class is not part of this model; these are the
      fields the frame reads). */
  datatype Renter = Renter(monthlyOpex: real, monthlyRent: real, opexInflation: real, rentAppreciation: real)

  /** One row of the stock-versus-rent frame. */
  datatype StockRow = StockRow(
    year: nat,
    income: real,
    operatingExpenses: real,
    rentPayment: real,
    expenses: real,
    cashflow: real,
    cashOnCash: real,
    stockValue: real,
    loanBalance: real,
    equity: real,
    equityGain: real,
    profit: real,
    returnOnEquity: real,
    cumulativeProfit: real,
    returnOnInitialInvestment: real)

  /** The frame is defined when the margin loan's yearly schedule has one row
      per year of the horizon and the downpayment is not zero. */
  predicate StockFrameDefined(m: Margin, totalYears: nat)
  {
    totalYears > 0 && m.mort.Valid() && m.mort.totalYears == totalYears && m.downpayment != 0.0
  }

  /** The stock position's equity column: stock value less the margin loan. */
  function StockEquities(m: Margin, totalYears: nat): (e: seq<real>)
    requires StockFrameDefined(m, totalYears)
    ensures |e| == totalYears
  {
    seq(totalYears, y requires 0 <= y < totalYears =>
      Compound(m.stockValue, m.yearlyValApprec, y) - m.mort.Df()[y].balance)
  }

  /** The renter's cashflow column: no income, so minus opex and rent. */
  function RenterCashflows(rent: Renter, totalYears: nat): (c: seq<real>)
    ensures |c| == totalYears
  {
    seq(totalYears, y requires 0 <= y < totalYears =>
      0.0 - (Compound(rent.monthlyOpex * 12.0, rent.opexInflation, y)
             + Compound(rent.monthlyRent * 12.0, rent.rentAppreciation, y)))
  }

  /** Row `y` of the frame. */
  function StockRowAt(m: Margin, rent: Renter, totalYears: nat, y: nat): StockRow
    requires StockFrameDefined(m, totalYears) && y < totalYears
    requires EquityBase(StockEquities(m, totalYears), m.downpayment, y) != 0.0
  {
    var e := StockEquities(m, totalYears);
    var c := RenterCashflows(rent, totalYears);
    var opex := Compound(rent.monthlyOpex * 12.0, rent.opexInflation, y);
    var rentPayment := Compound(rent.monthlyRent * 12.0, rent.rentAppreciation, y);
    var cumulative := CumulativeProfit(e, c, m.downpayment, y);
    StockRow(y, 0.0, opex, rentPayment, opex + rentPayment, c[y], c[y] / m.downpayment,
             Compound(m.stockValue, m.yearlyValApprec, y), m.mort.Df()[y].balance, e[y],
             EquityGain(e, m.downpayment, y), Profit(e, c, m.downpayment, y),
             ReturnOnEquity(e, c, m.downpayment, y), cumulative, cumulative / m.downpayment)
  }

  /** Row `y` satisfies the frame's column identities: no income, expenses
      are opex plus rent, cashflow is minus the expenses, equity is the stock
      value less the margin loan, and profit is the equity gain plus cashflow. */
  lemma StockRowColumns(m: Margin, rent: Renter, totalYears: nat, y: nat)
    requires StockFrameDefined(m, totalYears) && y < totalYears
    requires EquityBase(StockEquities(m, totalYears), m.downpayment, y) != 0.0
    ensures var r := StockRowAt(m, rent, totalYears, y);
      && r.year == y && r.income == 0.0
      && r.expenses == r.operatingExpenses + r.rentPayment
      && r.cashflow == r.income - r.expenses
      && r.cashOnCash == r.cashflow / m.downpayment
      && r.loanBalance == m.mort.Df()[y].balance
      && r.equity == r.stockValue - r.loanBalance
      && r.profit == r.equityGain + r.cashflow
      && r.returnOnInitialInvestment == r.cumulativeProfit / m.downpayment
  {
    var e := StockEquities(m, totalYears);
    var c := RenterCashflows(rent, totalYears);
    var r := StockRowAt(m, rent, totalYears, y);
    assert r.equity == e[y];
    assert r.cashflow == c[y];
  }

  /** Year 0 of the frame is anchored to the margin downpayment. */
  lemma StockFirstRow(m: Margin, rent: Renter, totalYears: nat)
    requires StockFrameDefined(m, totalYears)
    ensures var r := StockRowAt(m, rent, totalYears, 0);
      && r.equityGain == r.equity - m.downpayment
      && r.returnOnEquity == r.profit / m.downpayment
      && r.cumulativeProfit == r.profit
  {
  }

  /** Every later year is measured against the previous row: the equity
      gain is the difference of equities (`diff`), the return on equity is
      over the previous equity (`np.roll`), and the cumulative profit adds
      this year's profit to the previous one (`cumsum`). */
  lemma StockLaterRow(m: Margin, rent: Renter, totalYears: nat, y: nat)
    requires StockFrameDefined(m, totalYears) && 0 < y < totalYears
    requires StockEquities(m, totalYears)[y - 1] != 0.0
    requires y > 1 ==> StockEquities(m, totalYears)[y - 2] != 0.0
    ensures var r := StockRowAt(m, rent, totalYears, y);
      var p := StockRowAt(m, rent, totalYears, y - 1);
      && r.equityGain == r.equity - p.equity
      && r.returnOnEquity == r.profit / p.equity
      && r.cumulativeProfit == p.cumulativeProfit + r.profit
  {
    var e := StockEquities(m, totalYears);
    var c := RenterCashflows(rent, totalYears);
    var r := StockRowAt(m, rent, totalYears, y);
    var p := StockRowAt(m, rent, totalYears, y - 1);
    assert p.equity == e[y - 1];
    assert r.equity == e[y];
    assert p.cumulativeProfit == CumulativeProfit(e, c, m.downpayment, y - 1);
  }

  /** Every row's return-on-equity base is non-zero: the downpayment, and the
      equity of each year but the last. */
  predicate StockEquitiesNonZero(m: Margin, totalYears: nat)
    requires StockFrameDefined(m, totalYears)
  {
    forall y: nat :: y + 1 < totalYears ==> StockEquities(m, totalYears)[y] != 0.0
  }

  /** `stocks_rent_performance`: one row per year of the horizon; its
      cumulative profit is the stock equity built over the downpayment plus
      every (negative) renter cashflow so far. */
  function StocksRentPerformance(m: Margin, rent: Renter, totalYears: nat := 30): (rows: seq<StockRow>)
    requires StockFrameDefined(m, totalYears) && StockEquitiesNonZero(m, totalYears)
    ensures |rows| == totalYears
    ensures forall y :: 0 <= y < totalYears ==> rows[y] == StockRowAt(m, rent, totalYears, y)
    ensures forall y :: 0 <= y < totalYears ==>
      rows[y].cumulativeProfit
        == rows[y].equity - m.downpayment + Sum(RenterCashflows(rent, totalYears)[..y + 1])
  {
    var rows := seq(totalYears, y requires 0 <= y < totalYears => StockRowAt(m, rent, totalYears, y));
    assert forall y :: 0 <= y < totalYears ==>
      rows[y].cumulativeProfit
        == rows[y].equity - m.downpayment + Sum(RenterCashflows(rent, totalYears)[..y + 1]) by {
      forall y | 0 <= y < totalYears
        ensures rows[y].cumulativeProfit
             == rows[y].equity - m.downpayment + Sum(RenterCashflows(rent, totalYears)[..y + 1])
      {
        CumulativeTelescopes(StockEquities(m, totalYears), RenterCashflows(rent, totalYears), m.downpayment, y);
      }
    }
    rows
  }
}
