/** The aggregates the volatility view and the report apply: SUM, AVG and
    the sample variance underlying STDDEV_SAMP, on exact NUMERIC values. */
module Stats {

  function Sum(xs: seq<real>): real {
    if xs == [] then 0.0 else xs[0] + Sum(xs[1..])
  }

  /** AVG over a non-empty group. */
  function Mean(xs: seq<real>): real
    requires |xs| > 0
  {
    Sum(xs) / |xs| as real
  }

  lemma SquareNonNegative(d: real)
    ensures d * d >= 0.0
  {
    if d < 0.0 {
      assert d * d == (-d) * (-d);
    }
  }

  /** The sum of squared deviations from `m`. */
  function SumSqDev(xs: seq<real>, m: real): (r: real)
    ensures r >= 0.0
  {
    if xs == [] then 0.0
    else
      SquareNonNegative(xs[0] - m);
      (xs[0] - m) * (xs[0] - m) + SumSqDev(xs[1..], m)
  }

  /** VAR_SAMP: the squared deviations from the mean, divided by n - 1. */
  function SampleVariance(xs: seq<real>): (v: real)
    requires |xs| >= 2
    ensures v >= 0.0
  {
    SumSqDev(xs, Mean(xs)) / (|xs| - 1) as real
  }

  lemma {:induction false} SumSqDevOfConstant(xs: seq<real>, m: real)
    requires forall i | 0 <= i < |xs| :: xs[i] == m
    ensures SumSqDev(xs, m) == 0.0
  {
    if xs != [] {
      assert xs[0] == m;
      SumSqDevOfConstant(xs[1..], m);
    }
  }

  lemma {:induction false} SumOfConstant(xs: seq<real>, m: real)
    requires forall i | 0 <= i < |xs| :: xs[i] == m
    ensures Sum(xs) == |xs| as real * m
  {
    if xs != [] {
      assert xs[0] == m;
      SumOfConstant(xs[1..], m);
    }
  }

  /** A group whose values are all equal has variance zero, so a flat
      week has volatility zero. */
  lemma VarianceOfConstant(xs: seq<real>, m: real)
    requires |xs| >= 2
    requires forall i | 0 <= i < |xs| :: xs[i] == m
    ensures SampleVariance(xs) == 0.0
  {
    SumOfConstant(xs, m);
    assert Mean(xs) == m;
    SumSqDevOfConstant(xs, m);
  }
}
