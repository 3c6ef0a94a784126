/** Exact arithmetic shared by the financial model: natural powers of a rate
    factor and sums of monetary columns, with the facts the amortization and
    rollup proofs rely on. */
module Money {

  /** `x` raised to the natural power `k` (numpy's `power` with an integral
      exponent, over exact reals). */
  function Pow(x: real, k: nat): real
  {
    if k == 0 then 1.0 else x * Pow(x, k - 1)
  }

  /** `amount` grown at `rate` per period for `k` periods. */
  function Compound(amount: real, rate: real, k: nat): real
  {
    amount * Pow(1.0 + rate, k)
  }

  /** One more period of compounding multiplies the amount by the growth factor. */
  lemma CompoundStep(amount: real, rate: real, k: nat)
    ensures Compound(amount, rate, k + 1) == Compound(amount, rate, k) * (1.0 + rate)
  {
    assert Pow(1.0 + rate, k + 1) == (1.0 + rate) * Pow(1.0 + rate, k);
  }

  /** A growth factor of one leaves every amount unchanged. */
  lemma {:induction false} PowOfOne(k: nat)
    ensures Pow(1.0, k) == 1.0
  {
    if k > 0 {
      PowOfOne(k - 1);
    }
  }

  lemma {:induction false} PowPositive(x: real, k: nat)
    requires x > 0.0
    ensures Pow(x, k) > 0.0
  {
    if k > 0 {
      PowPositive(x, k - 1);
      assert x * Pow(x, k - 1) > 0.0;
    }
  }

  /** Multiplying a positive amount by a factor above one makes it larger. */
  lemma GrowthStep(x: real, p: real)
    requires x > 1.0 && p > 0.0
    ensures x * p > p
  {
    var d := x - 1.0;
    assert d * p > 0.0;
    assert x * p == p + d * p;
  }

  /** One more period of growth at a factor above one increases the amount. */
  lemma PowStep(x: real, k: nat)
    requires x > 1.0
    ensures 0.0 < Pow(x, k) < Pow(x, k + 1)
  {
    PowPositive(x, k);
    GrowthStep(x, Pow(x, k));
    assert Pow(x, k + 1) == x * Pow(x, k);
  }

  /** A growth factor above one compounds strictly: later powers are larger. */
  lemma {:induction false} PowStrictlyIncreasing(x: real, j: nat, k: nat)
    requires x > 1.0 && j < k
    ensures 0.0 < Pow(x, j) < Pow(x, k)
  {
    PowStep(x, k - 1);
    if k > j + 1 {
      PowStrictlyIncreasing(x, j, k - 1);
    }
  }

  /** Powers of a factor above one are at least one, and exceed one from k = 1. */
  lemma PowAtLeastOne(x: real, k: nat)
    requires x > 1.0
    ensures Pow(x, k) >= 1.0
    ensures k > 0 ==> Pow(x, k) > 1.0
  {
    if k > 0 {
      PowStrictlyIncreasing(x, 0, k);
    }
  }

  /** The sum of a column of amounts, accumulated from the front. */
  function Sum(s: seq<real>): real
  {
    if |s| == 0 then 0.0 else Sum(s[..|s| - 1]) + s[|s| - 1]
  }

  lemma {:induction false} SumConcat(a: seq<real>, b: seq<real>)
    ensures Sum(a + b) == Sum(a) + Sum(b)
  {
    if |b| > 0 {
      assert (a + b)[..|a + b| - 1] == a + b[..|b| - 1];
      SumConcat(a, b[..|b| - 1]);
    } else {
      assert a + b == a;
    }
  }

  /** A column whose entries all lie in [lo, hi] sums to within |s| copies of the bounds. */
  lemma {:induction false} SumBounds(s: seq<real>, lo: real, hi: real)
    requires forall i :: 0 <= i < |s| ==> lo <= s[i] <= hi
    ensures (|s| as real) * lo <= Sum(s) <= (|s| as real) * hi
  {
    if |s| > 0 {
      SumBounds(s[..|s| - 1], lo, hi);
    }
  }

  /** The smaller of two integers. */
  function Min(a: int, b: int): int
  {
    if a <= b then a else b
  }

  /** The sum of a column of integer amounts (months), accumulated from the front. */
  function SumInt(s: seq<int>): int
  {
    if |s| == 0 then 0 else SumInt(s[..|s| - 1]) + s[|s| - 1]
  }
}
