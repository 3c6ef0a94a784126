/** The benchmark stock series: a value compounding at a fixed annual return. */
module Analysis {
  import opened Money

  /** One row of the series. */
  datatype StockPoint = StockPoint(year: int, value: real, returnOnInitialInvestment: real)

  /** `generate_stock_performance`: one row per calendar year from the start
      year to the end year inclusive, the value compounding from the start
      value, and the return measured against the first row's value. An empty
      range has no first row to measure against, so the range must be
      non-empty, and the start value must be non-zero to divide by. */
  function GenerateStockPerformance(startYear: int, endYear: int, startValue: real := 100.0,
                                    annualReturn: real := 0.08): (rows: seq<StockPoint>)
    requires startYear <= endYear && startValue != 0.0
    ensures |rows| == endYear - startYear + 1
    ensures forall k :: 0 <= k < |rows| ==> rows[k].year == startYear + k
    ensures forall k :: 0 <= k < |rows| ==> rows[k].value == Compound(startValue, annualReturn, k)
    ensures rows[0].value == startValue
    ensures forall k :: 0 <= k < |rows| ==> rows[k].returnOnInitialInvestment == rows[k].value / rows[0].value
  {
    var n := endYear - startYear + 1;
    var first := Compound(startValue, annualReturn, 0);
    assert first == startValue;
    seq(n, k requires 0 <= k < n =>
      StockPoint(startYear + k, Compound(startValue, annualReturn, k), Compound(startValue, annualReturn, k) / first))
  }

  /** The series starts at the start value with a return of exactly 1, grows
      by the annual return from row to row, and its return at row `k` is the
      growth factor compounded `k` times. */
  lemma StockSeries(startYear: int, endYear: int, startValue: real, annualReturn: real)
    requires startYear <= endYear && startValue != 0.0
    ensures var rows := GenerateStockPerformance(startYear, endYear, startValue, annualReturn);
      && rows[0].returnOnInitialInvestment == 1.0
      && (forall k :: 0 <= k < |rows| - 1 ==> rows[k + 1].value == rows[k].value * (1.0 + annualReturn))
      && (forall k :: 0 <= k < |rows| ==> rows[k].returnOnInitialInvestment == Pow(1.0 + annualReturn, k))
  {
    var rows := GenerateStockPerformance(startYear, endYear, startValue, annualReturn);
    forall k | 0 <= k < |rows| - 1
      ensures rows[k + 1].value == rows[k].value * (1.0 + annualReturn)
    {
      CompoundStep(startValue, annualReturn, k);
    }
    forall k | 0 <= k < |rows|
      ensures rows[k].returnOnInitialInvestment == Pow(1.0 + annualReturn, k)
    {
      ReturnIsGrowth(startValue, annualReturn, k);
    }
  }

  /** An amount compounded `k` times, measured against where it started, is
      the growth factor compounded `k` times. */
  lemma ReturnIsGrowth(start: real, rate: real, k: nat)
    requires start != 0.0
    ensures Compound(start, rate, k) / start == Pow(1.0 + rate, k)
  {
    var f := Pow(1.0 + rate, k);
    assert Compound(start, rate, k) == start * f;
    assert start * f / start == f;
  }
}
