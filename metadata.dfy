/** The deal phases. Each phase keeps its inputs and derives its monetary
    fields once, when it is built: the acquisition and the refinance own a
    mortgage; the rehab and the pre-refinance rental hold only costs. */
module Phases {
  import opened Money
  import opened Amortization

  /** The purchase, financed by its own mortgage. */
  datatype Acquisition = Acquisition(
    homeValue: real,
    downpayment: real,
    mortgage: real,
    monthlyPI: real,
    yearlyTaxes: real,
    monthlyHOA: real,
    yearlyInsurance: real,
    monthlyUtilities: real,
    loanFees: real,
    closing: real,
    monthlyTaxes: real,
    monthlyInsurance: real,
    owningExpenses: real,
    yearlyInterest: real,
    yearlyValApprec: real,
    mort: Mortgage)

  /** The monthly cost of owning: taxes, insurance, HOA, utilities and the
      mortgage insurance of the loan's first yearly row. That row is the sum of
      the first twelve months, so it lies between 0 and a full year of the
      monthly premium. */
  function SumOwningExpenses(monthlyTaxes: real, monthlyInsurance: real, monthlyHOA: real,
                             monthlyUtilities: real, mort: Mortgage): (own: real)
    requires mort.Valid()
    ensures var fixed := monthlyTaxes + monthlyInsurance + monthlyHOA + monthlyUtilities;
      var premium := mort.loanAmount * mort.mortInsurFrac;
      premium >= 0.0 ==> fixed <= own <= fixed + premium
  {
    FirstYearInsuranceBounds(mort);
    monthlyTaxes + monthlyInsurance + monthlyHOA + monthlyUtilities + mort.Df()[0].insurance
  }

  /** The first year's mortgage insurance is twelve months of 0 or the monthly
      premium, hence between 0 and the yearly premium. */
  lemma FirstYearInsuranceBounds(mort: Mortgage)
    requires mort.Valid()
    ensures var premium := mort.loanAmount * mort.mortInsurFrac;
      premium >= 0.0 ==> 0.0 <= mort.Df()[0].insurance <= premium
  {
    var premium := mort.loanAmount * mort.mortInsurFrac;
    if premium >= 0.0 {
      var months := mort.MonthlyDf();
      var block := Column(months[0..12], InsuranceCol);
      YearlyRow(mort, 0);
      MonthlyInsurance(mort);
      forall i | 0 <= i < |block|
        ensures 0.0 <= block[i] <= premium / 12.0
      {
        assert block[i] == months[i].insurance;
      }
      SumBounds(block, 0.0, premium / 12.0);
    }
  }

  /** `Acquisition(...)`: loan fees and closing costs are each 1% of the price,
      the loan covers the price less the downpayment plus the fees, taxes
      passed as 0 default to 1.11% of the price, and the loan is a default
      30-year mortgage at the acquisition rate. */
  function NewAcquisition(purchasePrice: real, downpayment: real, yearlyInterest: real,
                          valueAppreciation: real, monthlyHOA: real := 0.0,
                          yearlyInsurance: real := 1250.0, yearlyTaxes: real := 0.0,
                          monthlyUtilities: real := 200.0): (a: Acquisition)
    requires yearlyInterest > 0.0
    ensures a.homeValue == purchasePrice && a.downpayment == downpayment
    ensures a.loanFees == 0.01 * purchasePrice && a.closing == 0.01 * purchasePrice
    ensures a.mortgage + a.downpayment == purchasePrice + a.loanFees
    ensures a.yearlyTaxes == if yearlyTaxes == 0.0 then 0.0111 * purchasePrice else yearlyTaxes
    ensures 12.0 * a.monthlyTaxes == a.yearlyTaxes
    ensures 12.0 * a.monthlyInsurance == yearlyInsurance
    ensures a.mort == NewMortgage(yearlyInterest, a.mortgage) && a.mort.Valid()
    ensures a.monthlyPI == a.mort.MonthlyPI()
    ensures a.owningExpenses
         == a.monthlyTaxes + a.monthlyInsurance + monthlyHOA + monthlyUtilities + a.mort.Df()[0].insurance
    ensures a.yearlyInterest == yearlyInterest && a.yearlyValApprec == valueAppreciation
    ensures a.monthlyHOA == monthlyHOA && a.yearlyInsurance == yearlyInsurance
    ensures a.monthlyUtilities == monthlyUtilities
  {
    var loanFees := 0.01 * purchasePrice;
    var mortgage := purchasePrice - downpayment + loanFees;
    var closing := purchasePrice * 0.01;
    var taxes := if yearlyTaxes == 0.0 then purchasePrice * 0.0111 else yearlyTaxes;
    var monthlyTaxes := taxes / (YearlyMonths as real);
    var monthlyInsurance := yearlyInsurance / (YearlyMonths as real);
    var mort := NewMortgage(yearlyInterest, mortgage);
    var owning := SumOwningExpenses(monthlyTaxes, monthlyInsurance, monthlyHOA, monthlyUtilities, mort);
    Acquisition(purchasePrice, downpayment, mortgage, mort.MonthlyPI(), taxes, monthlyHOA,
                yearlyInsurance, monthlyUtilities, loanFees, closing, monthlyTaxes,
                monthlyInsurance, owning, yearlyInterest, valueAppreciation, mort)
  }

  /** The rehab period: no loan of its own, it carries the acquisition's P&I
      and owning expenses while the work is done. */
  datatype Rehab = Rehab(
    totalMonths: int,
    totalCost: real,
    monthlyInsurance: real,
    other: real,
    holdingCost: real,
    monthlyPI: real,
    owningExpenses: real,
    monthlyRehab: real,
    monthlyTotal: real)

  /** `Rehab(...)`: the monthly rehab figure is the total cost times the months
      over 12 (as the code has it), the holding cost is P&I plus owning
      expenses for every rehab month, and the monthly total adds the three. */
  function NewRehab(rehabMonths: int, totalCost: real, monthlyPI: real, owningExpenses: real,
                    monthlyInsurance: real := 0.0, otherCosts: real := 0.0): (r: Rehab)
    ensures r.totalMonths == rehabMonths && r.totalCost == totalCost
    ensures r.monthlyPI == monthlyPI && r.owningExpenses == owningExpenses
    ensures r.monthlyInsurance == monthlyInsurance && r.other == otherCosts
    ensures 12.0 * r.monthlyRehab == totalCost * (rehabMonths as real)
    ensures r.holdingCost == (rehabMonths as real) * (r.monthlyTotal - r.monthlyRehab)
    ensures r.monthlyTotal == r.monthlyRehab + owningExpenses + monthlyPI
  {
    var months := rehabMonths as real;
    var monthlyRehab := totalCost * months / (YearlyMonths as real);
    var holding := (monthlyPI + owningExpenses) * months;
    Rehab(rehabMonths, totalCost, monthlyInsurance, otherCosts, holding, monthlyPI,
          owningExpenses, monthlyRehab, monthlyRehab + owningExpenses + monthlyPI)
  }

  /** The monthly operating figures of a rented phase. */
  datatype Operations = Operations(
    monthlyVacancy: real,
    monthlyRepairs: real,
    monthlyCapex: real,
    monthlyOpEx: real,
    monthlyExpenses: real,
    monthlyCashflow: real,
    noi: real)

  /** Vacancy, repairs and capex are fractions of the rent; OpEx is those plus
      the owning expenses and leaves P&I out; expenses add P&I; cashflow is
      rent less expenses; NOI adds P&I back and annualizes, so it is twelve
      months of rent less OpEx. */
  function DeriveOperations(monthlyRent: real, vacancyFrac: real, repairsFrac: real,
                            capexFrac: real, owningExpenses: real, monthlyPI: real): (o: Operations)
    ensures o.monthlyVacancy == monthlyRent * vacancyFrac
    ensures o.monthlyRepairs == monthlyRent * repairsFrac
    ensures o.monthlyCapex == monthlyRent * capexFrac
    ensures o.monthlyOpEx == monthlyRent * (vacancyFrac + repairsFrac + capexFrac) + owningExpenses
    ensures o.monthlyExpenses == o.monthlyOpEx + monthlyPI
    ensures o.monthlyCashflow == monthlyRent - o.monthlyOpEx - monthlyPI
    ensures o.noi == 12.0 * (monthlyRent - o.monthlyOpEx)
  {
    var vacancy := monthlyRent * vacancyFrac;
    var repairs := monthlyRent * repairsFrac;
    var capex := monthlyRent * capexFrac;
    var opex := SumOpex(vacancy, capex, owningExpenses, repairs);
    var expenses := opex + monthlyPI;
    var cashflow := monthlyRent - expenses;
    Operations(vacancy, repairs, capex, opex, expenses, cashflow, (cashflow + monthlyPI) * (YearlyMonths as real))
  }

  /** `sum_opex`: vacancy, capex, owning expenses and repairs, without P&I. */
  function SumOpex(vacancy: real, capex: real, owningExpenses: real, repairs: real): real
  {
    vacancy + capex + owningExpenses + repairs
  }

  /** NOI does not depend on the mortgage: two rentals that differ only in
      P&I have the same OpEx and NOI, and their cashflows differ by exactly
      the difference in P&I. */
  lemma NoiIndependentOfDebt(monthlyRent: real, vacancyFrac: real, repairsFrac: real,
                             capexFrac: real, owningExpenses: real, pi1: real, pi2: real)
    ensures var o1 := DeriveOperations(monthlyRent, vacancyFrac, repairsFrac, capexFrac, owningExpenses, pi1);
            var o2 := DeriveOperations(monthlyRent, vacancyFrac, repairsFrac, capexFrac, owningExpenses, pi2);
            && o1.monthlyOpEx == o2.monthlyOpEx
            && o1.noi == o2.noi
            && o1.monthlyCashflow - o2.monthlyCashflow == pi2 - pi1
  {
  }

  /** The rental period before the refinance, paying the acquisition's P&I. */
  datatype PreRefiRent = PreRefiRent(
    totalMonths: int,
    monthlyRent: real,
    vacancyFrac: real,
    repairsFrac: real,
    capexFrac: real,
    owningExpenses: real,
    monthlyPI: real,
    yearlyRentApprec: real,
    yearlyOpexInflation: real,
    ops: Operations)

  /** `PreReFi_Rent(...)`: keeps its inputs and derives its operating figures. */
  function NewPreRefiRent(monthlyRent: real, vacancyFrac: real, repairsFrac: real, capexFrac: real,
                          totalTime: int, monthlyPI: real, rentAppreciation: real,
                          opexInflation: real, owningExpenses: real): (p: PreRefiRent)
    ensures p.totalMonths == totalTime && p.monthlyRent == monthlyRent && p.monthlyPI == monthlyPI
    ensures p.yearlyRentApprec == rentAppreciation && p.yearlyOpexInflation == opexInflation
    ensures p.owningExpenses == owningExpenses
    ensures p.vacancyFrac == vacancyFrac && p.repairsFrac == repairsFrac && p.capexFrac == capexFrac
    ensures p.ops == DeriveOperations(monthlyRent, vacancyFrac, repairsFrac, capexFrac, owningExpenses, monthlyPI)
    ensures p.ops.monthlyOpEx == monthlyRent * (vacancyFrac + repairsFrac + capexFrac) + owningExpenses
    ensures p.ops.monthlyCashflow == monthlyRent - p.ops.monthlyOpEx - monthlyPI
    ensures p.ops.noi == 12.0 * (monthlyRent - p.ops.monthlyOpEx)
  {
    PreRefiRent(totalTime, monthlyRent, vacancyFrac, repairsFrac, capexFrac, owningExpenses,
                monthlyPI, rentAppreciation, opexInflation,
                DeriveOperations(monthlyRent, vacancyFrac, repairsFrac, capexFrac, owningExpenses, monthlyPI))
  }

  /** The refinance: a new loan at 80% of the appraised value plus 1% fees,
      and the rental figures recomputed with that loan's P&I. */
  datatype Refinance = Refinance(
    totalMonths: int,
    monthlyRent: real,
    homeValue: real,
    vacancyFrac: real,
    repairsFrac: real,
    capexFrac: real,
    owningExpenses: real,
    loanFees: real,
    mortgage: real,
    monthlyPI: real,
    yearlyInterest: real,
    yearlyValApprec: real,
    yearlyRentApprec: real,
    yearlyOpexInflation: real,
    mort: Mortgage,
    ops: Operations)

  /** `Refinance(...)`: the loan is 0.8 of the home value plus fees of 1% of
      it, P&I is its own default 30-year mortgage's payment at the refinance
      rate, and OpEx, cashflow and NOI follow the rental identities. */
  function NewRefinance(monthlyRent: real, homeValue: real, vacancyFrac: real, repairsFrac: real,
                        capexFrac: real, refinanceMonths: int, yearlyInterest: real,
                        valueAppreciation: real, rentAppreciation: real, opexInflation: real,
                        owningExpenses: real): (f: Refinance)
    requires yearlyInterest > 0.0
    ensures f.totalMonths == refinanceMonths && f.monthlyRent == monthlyRent && f.homeValue == homeValue
    ensures f.yearlyValApprec == valueAppreciation && f.yearlyRentApprec == rentAppreciation
    ensures f.yearlyOpexInflation == opexInflation && f.yearlyInterest == yearlyInterest
    ensures f.loanFees == 0.01 * homeValue
    ensures f.mortgage == 0.8 * homeValue + f.loanFees
    ensures f.mort == NewMortgage(yearlyInterest, f.mortgage) && f.mort.Valid()
    ensures f.monthlyPI == f.mort.MonthlyPI()
    ensures f.vacancyFrac == vacancyFrac && f.repairsFrac == repairsFrac && f.capexFrac == capexFrac
    ensures f.owningExpenses == owningExpenses
    ensures f.ops == DeriveOperations(monthlyRent, vacancyFrac, repairsFrac, capexFrac, owningExpenses, f.monthlyPI)
    ensures f.ops.monthlyOpEx == monthlyRent * (vacancyFrac + repairsFrac + capexFrac) + owningExpenses
    ensures f.ops.monthlyCashflow == monthlyRent - f.ops.monthlyOpEx - f.monthlyPI
    ensures f.ops.noi == 12.0 * (monthlyRent - f.ops.monthlyOpEx)
  {
    var loanFees := 0.01 * homeValue;
    var mortgage := 0.8 * homeValue + loanFees;
    var mort := NewMortgage(yearlyInterest, mortgage);
    var pi := mort.MonthlyPI();
    Refinance(refinanceMonths, monthlyRent, homeValue, vacancyFrac, repairsFrac, capexFrac,
              owningExpenses, loanFees, mortgage, pi, yearlyInterest, valueAppreciation,
              rentAppreciation, opexInflation, mort,
              DeriveOperations(monthlyRent, vacancyFrac, repairsFrac, capexFrac, owningExpenses, pi))
  }
}
