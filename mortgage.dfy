/** The amortization engine: a fixed-rate loan's annuity payment, its monthly
    schedule in closed form (balance, interest, principal, mortgage insurance)
    and the schedule folded into yearly rows. */
module Amortization {
  import opened Money
  import opened Wrappers

  /** Months per year (`yearly_months`); the schedule groups months in blocks of it. */
  const YearlyMonths: nat := 12

  /** One row of a schedule frame, monthly or yearly: the frame's five columns. */
  datatype Row = Row(payment: real, principal: real, interest: real, insurance: real, balance: real)
  {
    function Get(f: Field): real
    {
      match f
      case PaymentCol => payment
      case PrincipalCol => principal
      case InterestCol => interest
      case InsuranceCol => insurance
      case BalanceCol => balance
    }
  }

  /** The names of the frame's columns. */
  datatype Field = PaymentCol | PrincipalCol | InterestCol | InsuranceCol | BalanceCol

  /** One column of a frame. */
  function Column(rows: seq<Row>, f: Field): (c: seq<real>)
    ensures |c| == |rows|
  {
    seq(|rows|, i requires 0 <= i < |rows| => rows[i].Get(f))
  }

  /** The annuity payment for `loan` over `n` payments at monthly rate `r`:
      loan * r * (1+r)^n / ((1+r)^n - 1). */
  function CalcMonthlyPI(loan: real, r: real, n: nat): real
    requires r > 0.0 && n > 0
  {
    PowAtLeastOne(1.0 + r, n);
    Annuity(loan, r, Pow(1.0 + r, n))
  }

  /** The annuity payment clears the loan with its last payment, and for a
      positive loan it exceeds a month's interest on the loan, so every
      payment repays some principal. */
  lemma AnnuityRetiresLoan(loan: real, r: real, n: nat)
    requires r > 0.0 && n > 0
    ensures RemainingBalance(loan, r, CalcMonthlyPI(loan, r, n), n) == 0.0
    ensures loan > 0.0 ==> CalcMonthlyPI(loan, r, n) > loan * r
  {
    var N := Pow(1.0 + r, n);
    PowAtLeastOne(1.0 + r, n);
    var M := Annuity(loan, r, N);
    assert CalcMonthlyPI(loan, r, n) == M;
    assert RemainingBalance(loan, r, M, n) == loan * N - (M / r) * (N - 1.0);
    ClosedFormAlgebra(loan, r, N, N);
    assert ClosedBalance(loan, N, N) == 0.0;
    if loan > 0.0 {
      AnnuityAboveInterest(loan, r, N);
    }
  }

  lemma AnnuityAboveInterest(P: real, r: real, N: real)
    requires P > 0.0 && r > 0.0 && N > 1.0
    ensures Annuity(P, r, N) > P * r
  {
    var D := N - 1.0;
    assert P * (r * N) == P * r * D + P * r;
    assert P * (r * N) / D == P * r + P * r / D;
    assert P * r / D > 0.0;
  }

  /** The annuity payment in terms of the growth over the whole term, N = (1+r)^n. */
  function Annuity(loan: real, r: real, N: real): real
    requires N != 1.0
  {
    loan * (r * N) / (N - 1.0)
  }

  /** The balance after payment k: the loan compounded for k months less the
      payments compounded as an annuity. */
  function RemainingBalance(loan: real, r: real, m: real, k: nat): real
    requires r != 0.0
  {
    loan * Pow(1.0 + r, k) - (m / r) * (Pow(1.0 + r, k) - 1.0)
  }

  /** The balance after k payments in the form P (x^n - x^k) / (x^n - 1),
      with N = x^n and A = x^k. */
  function ClosedBalance(P: real, N: real, A: real): real
    requires N != 1.0
  {
    P * (N - A) / (N - 1.0)
  }

  /** Sum of the entries of `col` whose 0-based index falls in year `y`
      (index div 12 == y): the frame's group-by-year sum. */
  function GroupSum(col: seq<real>, y: nat): real
  {
    if |col| == 0 then 0.0
    else GroupSum(col[..|col| - 1], y) + (if (|col| - 1) / YearlyMonths == y then col[|col| - 1] else 0.0)
  }

  /** Year `y` of a monthly frame: the group sums of the flow columns and the
      last month's balance. */
  function YearRow(months: seq<Row>, y: nat): Row
    requires YearlyMonths * y + YearlyMonths <= |months|
  {
    Row(GroupSum(Column(months, PaymentCol), y),
        GroupSum(Column(months, PrincipalCol), y),
        GroupSum(Column(months, InterestCol), y),
        GroupSum(Column(months, InsuranceCol), y),
        months[YearlyMonths * y + YearlyMonths - 1].balance)
  }

  /** Year-by-year roll-up of a monthly frame of whole years. */
  function Rollup(months: seq<Row>, years: nat): (rows: seq<Row>)
    requires |months| == YearlyMonths * years
    ensures |rows| == years
  {
    seq(years, y requires 0 <= y < years => YearRow(months, y))
  }

  /** A fixed-rate mortgage after its constructor has settled the defaults. */
  datatype Mortgage = Mortgage(
    yearlyInterest: real,
    totalYears: nat,
    loanAmount: real,
    mortInsurFrac: real,
    homeValue: real,
    loanFees: real,
    downpayment: real)
  {
    /** The constructor divides by the monthly rate and by (1+r)^n - 1, so it
        needs a positive rate and at least one payment. */
    predicate Valid()
    {
      yearlyInterest > 0.0 && totalYears > 0
    }

    function MonthlyInterest(): real
    {
      yearlyInterest / 12.0
    }

    function NumPayments(): nat
    {
      totalYears * YearlyMonths
    }

    /** One month's growth factor, x = 1 + r. */
    function Growth(): real
    {
      1.0 + MonthlyInterest()
    }

    /** Growth over the whole term, x^n. */
    function TermGrowth(): real
    {
      Pow(Growth(), NumPayments())
    }

    function MonthlyPI(): real
      requires Valid()
    {
      CalcMonthlyPI(loanAmount, MonthlyInterest(), NumPayments())
    }

    /** Remaining balance after the k-th payment (k is 1-based in the schedule). */
    function Balance(k: nat): real
      requires Valid()
    {
      RemainingBalance(loanAmount, MonthlyInterest(), MonthlyPI(), k)
    }

    /** Interest column at payment k: charged on the balance after payment k. */
    function Interest(k: nat): real
      requires Valid()
    {
      Balance(k) * MonthlyInterest()
    }

    function Principal(k: nat): real
      requires Valid()
    {
      MonthlyPI() - Interest(k)
    }

    /** Running total of the principal column through 0-based month i. */
    function CumPrincipal(i: nat): real
      requires Valid()
    {
      if i == 0 then Principal(1) else CumPrincipal(i - 1) + Principal(i + 1)
    }

    /** Mortgage insurance is charged while home value less principal paid
        and downpayment stays above 80% of the home value. */
    predicate InsuranceDue(i: nat)
      requires Valid()
    {
      homeValue - CumPrincipal(i) - downpayment > 0.8 * homeValue
    }

    function Insurance(i: nat): real
      requires Valid()
    {
      if InsuranceDue(i) then loanAmount * mortInsurFrac / 12.0 else 0.0
    }

    /** Row i (0-based) of the monthly frame, for payment number i + 1. */
    function MonthRow(i: nat): Row
      requires Valid()
    {
      Row(MonthlyPI() + Insurance(i), Principal(i + 1), Interest(i + 1), Insurance(i), Balance(i + 1))
    }

    /** The monthly amortization frame: one row per payment. */
    function MonthlyDf(): (rows: seq<Row>)
      requires Valid()
      ensures |rows| == NumPayments()
    {
      seq(NumPayments(), i requires 0 <= i < NumPayments() => MonthRow(i))
    }

    /** The yearly frame: the monthly frame grouped by year. */
    function Df(): (rows: seq<Row>)
      requires Valid()
      ensures |rows| == totalYears
    {
      Rollup(MonthlyDf(), totalYears)
    }
  }

  /** The constructor: a missing home value defaults to 1.05 times the loan and
      missing loan fees to 1% of the loan; the downpayment is what the price
      and fees leave uncovered by the loan. */
  function NewMortgage(yearlyInterest: real, loanAmount: real, mortInsurFrac: real := 0.01,
                       homeValue: Option<real> := None, loanFees: Option<real> := None,
                       totalYears: nat := 30): (m: Mortgage)
    requires yearlyInterest > 0.0 && totalYears > 0
    ensures m.Valid()
    ensures m.yearlyInterest == yearlyInterest && m.loanAmount == loanAmount
    ensures m.mortInsurFrac == mortInsurFrac && m.totalYears == totalYears
    ensures m.homeValue == if homeValue.Some? then homeValue.value else 1.05 * loanAmount
    ensures m.loanFees == if loanFees.Some? then loanFees.value else 0.01 * loanAmount
    ensures m.loanAmount + m.downpayment == m.homeValue + m.loanFees
  {
    var home := homeValue.GetOr(loanAmount * 1.05);
    var fees := loanFees.GetOr(loanAmount * 0.01);
    Mortgage(yearlyInterest, totalYears, loanAmount, mortInsurFrac, home, fees, home - loanAmount + fees)
  }

  /** With the default home value (1.05 x loan) and fees (1% of the loan) the
      downpayment is 6% of the loan, and insurance is charged exactly while
      less than 15% of the loan has been repaid. */
  lemma DefaultInsuranceThreshold(yearlyInterest: real, loanAmount: real, i: nat)
    requires yearlyInterest > 0.0
    ensures var m := NewMortgage(yearlyInterest, loanAmount);
      && m.downpayment == 0.06 * loanAmount
      && (m.InsuranceDue(i) <==> m.CumPrincipal(i) < 0.15 * loanAmount)
  {
  }

  // ---------------------------------------------------------------------
  // Algebra of the closed form, over plain reals.

  lemma ClosedFormAlgebra(P: real, r: real, N: real, A: real)
    requires r != 0.0 && N != 1.0
    ensures P * A - (Annuity(P, r, N) / r) * (A - 1.0) == ClosedBalance(P, N, A)
  {
    var D := N - 1.0;
    var Q := P * N / D;
    var M := Annuity(P, r, N);
    assert M == r * Q;
    assert M / r == Q;
    assert Q - P == P / D;
    assert P * A - Q * (A - 1.0) == Q - A * (Q - P);
    assert A * (P / D) == (P * A) / D;
    assert ClosedBalance(P, N, A) == Q - (P * A) / D;
  }

  lemma RecurrenceAlgebra(P: real, r: real, M: real, A: real)
    requires r != 0.0
    ensures P * ((1.0 + r) * A) - (M / r) * ((1.0 + r) * A - 1.0)
         == (1.0 + r) * (P * A - (M / r) * (A - 1.0)) - M
  {
    var Q := M / r;
    assert Q * r == M;
  }

  lemma DropAlgebra(P: real, N: real, A: real, x: real)
    requires P > 0.0 && N > 1.0 && A > 0.0 && x > 1.0
    ensures ClosedBalance(P, N, x * A) < ClosedBalance(P, N, A)
  {
    var D := N - 1.0;
    assert (x - 1.0) * A > 0.0;
    assert P * ((x - 1.0) * A) > 0.0;
    assert P * (N - A) - P * (N - x * A) == P * ((x - 1.0) * A);
    assert P * (N - A) / D - P * (N - x * A) / D == P * ((x - 1.0) * A) / D;
  }

  lemma RangeAlgebra(P: real, N: real, A: real)
    requires P > 0.0 && 1.0 < A <= N
    ensures 0.0 <= ClosedBalance(P, N, A) < P
  {
    var D, t := N - 1.0, N - A;
    assert 0.0 <= t < D;
    assert P * t >= 0.0;
    assert P * t < P * D;
    assert ClosedBalance(P, N, A) == P * t / D;
    assert P * t / D < P * D / D;
  }

  // ---------------------------------------------------------------------
  // The monthly schedule.

  /** The balance after payment k equals P (x^n - x^k) / (x^n - 1), x = 1 + r. */
  lemma BalanceClosedForm(m: Mortgage, k: nat)
    requires m.Valid()
    ensures m.TermGrowth() > 1.0
    ensures m.Balance(k) == ClosedBalance(m.loanAmount, m.TermGrowth(), Pow(m.Growth(), k))
  {
    var P, r := m.loanAmount, m.MonthlyInterest();
    var N, A := m.TermGrowth(), Pow(m.Growth(), k);
    PowAtLeastOne(m.Growth(), m.NumPayments());
    var M := m.MonthlyPI();
    assert M == Annuity(P, r, N);
    assert m.Balance(k) == P * A - (M / r) * (A - 1.0);
    ClosedFormAlgebra(P, r, N, A);
  }

  /** The balance starts at the loan amount and the last payment clears it. */
  lemma BalanceEndpoints(m: Mortgage)
    requires m.Valid()
    ensures m.Balance(0) == m.loanAmount
    ensures m.Balance(m.NumPayments()) == 0.0
  {
    BalanceClosedForm(m, 0);
    BalanceClosedForm(m, m.NumPayments());
  }

  /** Each payment grows the balance by a month's interest and subtracts the payment. */
  lemma BalanceRecurrence(m: Mortgage, k: nat)
    requires m.Valid()
    ensures m.Balance(k + 1) == (1.0 + m.MonthlyInterest()) * m.Balance(k) - m.MonthlyPI()
  {
    var P, r, M := m.loanAmount, m.MonthlyInterest(), m.MonthlyPI();
    var A := Pow(1.0 + r, k);
    assert Pow(1.0 + r, k + 1) == (1.0 + r) * A;
    assert m.Balance(k) == P * A - (M / r) * (A - 1.0);
    assert m.Balance(k + 1) == P * ((1.0 + r) * A) - (M / r) * ((1.0 + r) * A - 1.0);
    RecurrenceAlgebra(P, r, M, A);
  }

  /** Principal and interest make up the payment, and the principal column is
      the drop from this month's balance to the next one's. */
  lemma PaymentSplit(m: Mortgage, k: nat)
    requires m.Valid()
    ensures m.Principal(k) + m.Interest(k) == m.MonthlyPI()
    ensures m.Principal(k) == m.Balance(k) - m.Balance(k + 1)
  {
    BalanceRecurrence(m, k);
    var r := m.MonthlyInterest();
    assert (1.0 + r) * m.Balance(k) == m.Balance(k) + m.Balance(k) * r;
  }

  /** With a positive loan the balance falls with every payment. */
  lemma BalanceStrictlyDecreasing(m: Mortgage, k: nat)
    requires m.Valid() && m.loanAmount > 0.0
    ensures m.Balance(k + 1) < m.Balance(k)
  {
    var x := m.Growth();
    BalanceClosedForm(m, k);
    BalanceClosedForm(m, k + 1);
    PowPositive(x, k);
    assert Pow(x, k + 1) == x * Pow(x, k);
    DropAlgebra(m.loanAmount, m.TermGrowth(), Pow(x, k), x);
  }

  lemma {:induction false} BalanceNonIncreasing(m: Mortgage, j: nat, k: nat)
    requires m.Valid() && m.loanAmount > 0.0 && j <= k
    ensures m.Balance(k) <= m.Balance(j)
  {
    if j < k {
      BalanceNonIncreasing(m, j, k - 1);
      BalanceStrictlyDecreasing(m, k - 1);
    }
  }

  /** Over the life of the loan the balance stays in [0, loan). */
  lemma BalanceInRange(m: Mortgage, k: nat)
    requires m.Valid() && m.loanAmount > 0.0 && 1 <= k <= m.NumPayments()
    ensures 0.0 <= m.Balance(k) < m.loanAmount
  {
    var x, n := m.Growth(), m.NumPayments();
    BalanceClosedForm(m, k);
    PowAtLeastOne(x, k);
    if k < n {
      PowStrictlyIncreasing(x, k, n);
    }
    RangeAlgebra(m.loanAmount, m.TermGrowth(), Pow(x, k));
  }

  /** The running principal total telescopes: through month i (0-based) it is
      the balance after payment 1 less the balance after payment i + 2. */
  lemma {:induction false} CumPrincipalTelescopes(m: Mortgage, i: nat)
    requires m.Valid()
    ensures m.CumPrincipal(i) == m.Balance(1) - m.Balance(i + 2)
  {
    PaymentSplit(m, i + 1);
    if i > 0 {
      CumPrincipalTelescopes(m, i - 1);
    }
  }

  /** Once mortgage insurance stops it never resumes: a later month that is
      still charged implies every earlier month was charged. */
  lemma InsuranceNeverResumes(m: Mortgage, i: nat, j: nat)
    requires m.Valid() && m.loanAmount > 0.0 && i <= j
    requires m.InsuranceDue(j)
    ensures m.InsuranceDue(i)
  {
    CumPrincipalTelescopes(m, i);
    CumPrincipalTelescopes(m, j);
    BalanceNonIncreasing(m, i + 2, j + 2);
  }

  /** The cumulative principal is the prefix sum of the frame's principal column. */
  lemma {:induction false} CumPrincipalIsPrefixSum(m: Mortgage, i: nat)
    requires m.Valid() && i < m.NumPayments()
    ensures m.CumPrincipal(i) == Sum(Column(m.MonthlyDf(), PrincipalCol)[..i + 1])
  {
    var col := Column(m.MonthlyDf(), PrincipalCol);
    assert col[..i + 1][..i] == col[..i];
    if i > 0 {
      CumPrincipalIsPrefixSum(m, i - 1);
    }
  }

  /** Row i of the monthly frame: principal + interest is the fixed payment,
      the total payment adds the insurance, interest is the balance times the
      monthly rate, and, because interest is charged on the balance after the
      month's payment, the principal is the fall from this row's balance to
      the next row's. */
  lemma MonthlyRow(m: Mortgage, i: nat)
    requires m.Valid() && i < m.NumPayments()
    ensures var row := m.MonthlyDf()[i];
      && row == m.MonthRow(i)
      && row.principal + row.interest == m.MonthlyPI()
      && row.principal == m.Balance(i + 1) - m.Balance(i + 2)
      && row.balance == m.Balance(i + 1)
      && row.interest == row.balance * m.MonthlyInterest()
      && row.payment == m.MonthlyPI() + row.insurance
      && (i + 1 < m.NumPayments() ==> row.principal == row.balance - m.MonthlyDf()[i + 1].balance)
  {
    PaymentSplit(m, i + 1);
    assert m.Interest(i + 1) == m.Balance(i + 1) * m.MonthlyInterest();
    if i + 1 < m.NumPayments() {
      assert m.MonthlyDf()[i + 1] == m.MonthRow(i + 1);
    }
  }

  /** The balance column: zero at the last payment and, for a positive loan,
      strictly decreasing and within [0, loan). */
  lemma MonthlyBalances(m: Mortgage)
    requires m.Valid()
    ensures var rows := m.MonthlyDf();
      && rows[|rows| - 1].balance == 0.0
      && (m.loanAmount > 0.0 ==>
            forall i :: 0 <= i < |rows| ==>
              && 0.0 <= rows[i].balance < m.loanAmount
              && (i + 1 < |rows| ==> rows[i + 1].balance < rows[i].balance))
  {
    var rows := m.MonthlyDf();
    BalanceEndpoints(m);
    if m.loanAmount > 0.0 {
      forall i | 0 <= i < |rows|
        ensures 0.0 <= rows[i].balance < m.loanAmount
        ensures i + 1 < |rows| ==> rows[i + 1].balance < rows[i].balance
      {
        BalanceInRange(m, i + 1);
        BalanceStrictlyDecreasing(m, i + 1);
      }
    }
  }

  /** The insurance column is 0 or loan * frac / 12, and it is charged exactly
      when home value less the running principal total and the downpayment
      exceeds 80% of the home value. */
  lemma MonthlyInsurance(m: Mortgage)
    requires m.Valid()
    ensures var rows := m.MonthlyDf();
      forall i :: 0 <= i < |rows| ==>
        && (rows[i].insurance == 0.0 || rows[i].insurance == m.loanAmount * m.mortInsurFrac / 12.0)
        && (m.loanAmount * m.mortInsurFrac != 0.0 ==>
              (rows[i].insurance != 0.0 <==>
                 m.homeValue - Sum(Column(rows, PrincipalCol)[..i + 1]) - m.downpayment > 0.8 * m.homeValue))
  {
    var rows := m.MonthlyDf();
    forall i | 0 <= i < |rows|
      ensures m.CumPrincipal(i) == Sum(Column(rows, PrincipalCol)[..i + 1])
    {
      CumPrincipalIsPrefixSum(m, i);
    }
  }

  /** Over the whole term the principal column adds up to the loan grown by
      one month's interest, (1 + r) P, not to P: the code charges interest on
      the balance after each payment, so the principal column telescopes from
      the balance after payment 1 to the balance after payment n + 1. */
  lemma TotalPrincipal(m: Mortgage)
    requires m.Valid()
    ensures Sum(Column(m.MonthlyDf(), PrincipalCol)) == m.Balance(1) - m.Balance(m.NumPayments() + 1)
    ensures Sum(Column(m.MonthlyDf(), PrincipalCol)) == m.Growth() * m.loanAmount
  {
    var n := m.NumPayments();
    var col := Column(m.MonthlyDf(), PrincipalCol);
    assert col[..n] == col;
    CumPrincipalIsPrefixSum(m, n - 1);
    CumPrincipalTelescopes(m, n - 1);
    BalanceEndpoints(m);
    BalanceRecurrence(m, 0);
    BalanceRecurrence(m, n);
  }

  // ---------------------------------------------------------------------
  // The yearly frame.

  /** Grouping by index div 12 sums one contiguous block of twelve entries
      (cut short where the column ends). */
  lemma {:induction false} GroupSumIsBlockSum(col: seq<real>, y: nat)
    ensures GroupSum(col, y)
         == Sum(col[Min(YearlyMonths * y, |col|)..Min(YearlyMonths * y + YearlyMonths, |col|)])
  {
    if |col| > 0 {
      var L := |col|;
      var p := col[..L - 1];
      GroupSumIsBlockSum(p, y);
      var lo, hi := Min(12 * y, L), Min(12 * y + 12, L);
      var lo', hi' := Min(12 * y, L - 1), Min(12 * y + 12, L - 1);
      assert YearlyMonths == 12;
      if (L - 1) / 12 == y {
        assert 12 * y <= L - 1 < 12 * y + 12;
        assert lo == lo' && hi == L && hi' == L - 1;
        assert col[lo..hi][..hi - lo - 1] == p[lo'..hi'];
      } else if L - 1 >= 12 * y + 12 {
        assert lo == lo' && hi == hi';
        assert p[lo'..hi'] == col[lo..hi];
      }
    }
  }

  lemma ColumnSlice(rows: seq<Row>, f: Field, a: nat, b: nat)
    requires a <= b <= |rows|
    ensures Column(rows, f)[a..b] == Column(rows[a..b], f)
  {
  }

  /** Year y of the yearly frame sums months 12y .. 12y + 11 of the monthly
      frame, and its balance is the balance after payment 12y + 12. */
  lemma YearlyRow(m: Mortgage, y: nat)
    requires m.Valid() && y < m.totalYears
    ensures var months, row := m.MonthlyDf(), m.Df()[y];
      var block := months[YearlyMonths * y..YearlyMonths * y + YearlyMonths];
      && row.payment == Sum(Column(block, PaymentCol))
      && row.principal == Sum(Column(block, PrincipalCol))
      && row.interest == Sum(Column(block, InterestCol))
      && row.insurance == Sum(Column(block, InsuranceCol))
      && row.balance == months[YearlyMonths * y + YearlyMonths - 1].balance
      && row.balance == m.Balance(YearlyMonths * y + YearlyMonths)
  {
    var months := m.MonthlyDf();
    var a, b := 12 * y, 12 * y + 12;
    assert b <= |months|;
    forall f: Field
      ensures GroupSum(Column(months, f), y) == Sum(Column(months[a..b], f))
    {
      GroupSumIsBlockSum(Column(months, f), y);
      ColumnSlice(months, f, a, b);
    }
    MonthlyRow(m, b - 1);
  }

  /** The principal column through month k - 1 adds up to B(1) - B(k + 1). */
  lemma PrincipalPrefix(m: Mortgage, k: nat)
    requires m.Valid() && k <= m.NumPayments()
    ensures Sum(Column(m.MonthlyDf(), PrincipalCol)[..k]) == m.Balance(1) - m.Balance(k + 1)
  {
    if k > 0 {
      CumPrincipalIsPrefixSum(m, k - 1);
      CumPrincipalTelescopes(m, k - 1);
    } else {
      assert Column(m.MonthlyDf(), PrincipalCol)[..0] == [];
    }
  }

  /** Months a .. b - 1 of the principal column add up to B(a + 1) - B(b + 1). */
  lemma PrincipalBlock(m: Mortgage, a: nat, b: nat)
    requires m.Valid() && a <= b <= m.NumPayments()
    ensures Sum(Column(m.MonthlyDf(), PrincipalCol)[a..b]) == m.Balance(a + 1) - m.Balance(b + 1)
  {
    var col := Column(m.MonthlyDf(), PrincipalCol);
    PrincipalPrefix(m, a);
    PrincipalPrefix(m, b);
    assert col[..a] + col[a..b] == col[..b];
    SumConcat(col[..a], col[a..b]);
  }

  /** A year's principal telescopes to the fall in balance across the year,
      shifted by one payment like the monthly column. */
  lemma YearlyPrincipal(m: Mortgage, y: nat)
    requires m.Valid() && y < m.totalYears
    ensures m.Df()[y].principal
         == m.Balance(YearlyMonths * y + 1) - m.Balance(YearlyMonths * y + YearlyMonths + 1)
  {
    var a, b := 12 * y, 12 * y + 12;
    YearlyRow(m, y);
    ColumnSlice(m.MonthlyDf(), PrincipalCol, a, b);
    PrincipalBlock(m, a, b);
  }

  /** The last yearly balance is zero: the loan is paid off at the end of its term. */
  lemma YearlyPaidOff(m: Mortgage)
    requires m.Valid()
    ensures m.Df()[m.totalYears - 1].balance == 0.0
  {
    YearlyRow(m, m.totalYears - 1);
    BalanceEndpoints(m);
  }

  /** Grouping by year keeps the totals of the flow columns: the yearly
      payments, principal, interest and insurance add up to the monthly ones. */
  lemma RollupKeepsTotals(months: seq<Row>, years: nat, f: Field)
    requires |months| == YearlyMonths * years && f != BalanceCol
    ensures Sum(Column(Rollup(months, years), f)) == Sum(Column(months, f))
  {
    var yearly := Column(Rollup(months, years), f);
    var col := Column(months, f);
    forall y | 0 <= y < years
      ensures yearly[y] == Sum(col[YearlyMonths * y..YearlyMonths * y + YearlyMonths])
    {
      RollupEntry(months, years, f, y);
      BlockSum(col, y);
    }
    BlockSumsPrefix(yearly, col, years);
    assert yearly[..years] == yearly;
    assert col[..YearlyMonths * years] == col;
  }

  /** When each yearly entry is the sum of its block of twelve monthly
      entries, the first k years add up to the first 12k months. */
  lemma {:induction false} BlockSumsPrefix(yearly: seq<real>, col: seq<real>, k: nat)
    requires |col| == YearlyMonths * |yearly| && k <= |yearly|
    requires forall y :: 0 <= y < |yearly| ==> yearly[y] == Sum(col[YearlyMonths * y..YearlyMonths * y + YearlyMonths])
    ensures Sum(yearly[..k]) == Sum(col[..YearlyMonths * k])
  {
    if k > 0 {
      BlockSumsPrefix(yearly, col, k - 1);
      assert yearly[..k][..k - 1] == yearly[..k - 1];
      var a, b := YearlyMonths * (k - 1), YearlyMonths * k;
      assert col[..a] + col[a..b] == col[..b];
      SumConcat(col[..a], col[a..b]);
    } else {
      assert yearly[..0] == [];
      assert col[..0] == [];
    }
  }

  /** Entry y of a yearly flow column is the group sum of year y. */
  lemma RollupEntry(months: seq<Row>, years: nat, f: Field, y: nat)
    requires |months| == YearlyMonths * years && f != BalanceCol && y < years
    ensures Column(Rollup(months, years), f)[y] == GroupSum(Column(months, f), y)
  {
    assert Rollup(months, years)[y] == YearRow(months, y);
  }

  /** A year that lies wholly inside the column sums its block of twelve. */
  lemma BlockSum(col: seq<real>, y: nat)
    requires YearlyMonths * y + YearlyMonths <= |col|
    ensures GroupSum(col, y) == Sum(col[YearlyMonths * y..YearlyMonths * y + YearlyMonths])
  {
    GroupSumIsBlockSum(col, y);
    assert Min(YearlyMonths * y, |col|) == YearlyMonths * y;
    assert Min(YearlyMonths * y + YearlyMonths, |col|) == YearlyMonths * y + YearlyMonths;
  }
}
