/** Year-over-year equity bookkeeping shared by the real-estate summary and the
    stock-versus-rent frame. Both frames hold an equity column and a cashflow
    column; year 0 is anchored to the cash put in up front, every later year
    to the previous year's equity. */
module Ledger {
  import opened Money

  /** Equity gained in year `y`: against the anchor in year 0, against the
      previous year's equity afterwards. */
  function EquityGain(equity: seq<real>, anchor: real, y: nat): real
    requires y < |equity|
  {
    if y == 0 then equity[0] - anchor else equity[y] - equity[y - 1]
  }

  /** The equity-gain column. */
  function Gains(equity: seq<real>, anchor: real): (g: seq<real>)
    ensures |g| == |equity|
    ensures forall y :: 0 <= y < |g| ==> g[y] == EquityGain(equity, anchor, y)
  {
    seq(|equity|, y requires 0 <= y < |equity| => EquityGain(equity, anchor, y))
  }

  /** Annual profit: the equity gained plus the year's cashflow. */
  function Profit(equity: seq<real>, cashflow: seq<real>, anchor: real, y: nat): real
    requires y < |equity| == |cashflow|
  {
    EquityGain(equity, anchor, y) + cashflow[y]
  }

  /** The annual-profit column. */
  function Profits(equity: seq<real>, cashflow: seq<real>, anchor: real): (p: seq<real>)
    requires |equity| == |cashflow|
    ensures |p| == |equity|
    ensures forall y :: 0 <= y < |p| ==> p[y] == Profit(equity, cashflow, anchor, y)
  {
    seq(|equity|, y requires 0 <= y < |equity| => Profit(equity, cashflow, anchor, y))
  }

  /** The equity a year's return is measured against: the anchor in year 0,
      the previous year's equity afterwards. */
  function EquityBase(equity: seq<real>, anchor: real, y: nat): real
    requires y < |equity|
  {
    if y == 0 then anchor else equity[y - 1]
  }

  /** Return on equity: the year's profit over the equity it was earned on. */
  function ReturnOnEquity(equity: seq<real>, cashflow: seq<real>, anchor: real, y: nat): real
    requires y < |equity| == |cashflow|
    requires EquityBase(equity, anchor, y) != 0.0
  {
    Profit(equity, cashflow, anchor, y) / EquityBase(equity, anchor, y)
  }

  /** Cumulative profit through year `y`, one year added at a time. */
  function CumulativeProfit(equity: seq<real>, cashflow: seq<real>, anchor: real, y: nat): real
    requires y < |equity| == |cashflow|
  {
    (if y == 0 then 0.0 else CumulativeProfit(equity, cashflow, anchor, y - 1))
      + Profit(equity, cashflow, anchor, y)
  }

  /** Taking the prefix through `y + 1` of a column adds its entry `y`. */
  lemma SumPrefixStep(s: seq<real>, y: nat)
    requires y < |s|
    ensures Sum(s[..y + 1]) == Sum(s[..y]) + s[y]
  {
    assert s[..y + 1][..y] == s[..y];
  }

  /** The equity gains through year `y` telescope to that year's equity less
      the anchor. */
  lemma {:induction false} GainsTelescope(equity: seq<real>, anchor: real, y: nat)
    requires y < |equity|
    ensures Sum(Gains(equity, anchor)[..y + 1]) == equity[y] - anchor
  {
    SumPrefixStep(Gains(equity, anchor), y);
    if y > 0 {
      GainsTelescope(equity, anchor, y - 1);
    } else {
      assert Gains(equity, anchor)[..0] == [];
    }
  }

  /** Cumulative profit is the exact prefix sum of the annual-profit column. */
  lemma {:induction false} CumulativeIsPrefixSum(equity: seq<real>, cashflow: seq<real>, anchor: real, y: nat)
    requires y < |equity| == |cashflow|
    ensures CumulativeProfit(equity, cashflow, anchor, y) == Sum(Profits(equity, cashflow, anchor)[..y + 1])
  {
    SumPrefixStep(Profits(equity, cashflow, anchor), y);
    if y > 0 {
      CumulativeIsPrefixSum(equity, cashflow, anchor, y - 1);
    } else {
      assert Profits(equity, cashflow, anchor)[..0] == [];
    }
  }

  /** Cumulative profit through year `y` is the equity built over the anchor
      plus every cashflow so far. */
  lemma {:induction false} CumulativeTelescopes(equity: seq<real>, cashflow: seq<real>, anchor: real, y: nat)
    requires y < |equity| == |cashflow|
    ensures CumulativeProfit(equity, cashflow, anchor, y) == equity[y] - anchor + Sum(cashflow[..y + 1])
  {
    SumPrefixStep(cashflow, y);
    if y > 0 {
      CumulativeTelescopes(equity, cashflow, anchor, y - 1);
    } else {
      assert cashflow[..0] == [];
    }
  }
}
