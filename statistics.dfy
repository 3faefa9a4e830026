/**
 * Exact-arithmetic statistics of a column: the quantities that
 * Trimmer.findAverage and Trimmer.findStandardDeviation compute, and the
 * standard-deviation outlier test of Trimmer.findOutliersTwo.
 *
 * Values are reals, so there is no rounding and no square root: the
 * variance stands in for the standard deviation, and the test
 * |x - avg| > 2 * sd is stated as (x - avg)^2 > 4 * variance
 * (OutlierTestMatchesRoot shows that the two agree).
 */
module Statistics {

  /** Sum of the values, accumulated from the first to the last. */
  function Sum(s: seq<real>): real
  {
    if s == [] then 0.0 else Sum(s[..|s| - 1]) + s[|s| - 1]
  }

  /** Arithmetic mean of a non-empty column. */
  function Mean(s: seq<real>): real
    requires |s| > 0
  {
    Sum(s) / (|s| as real)
  }

  function Abs(d: real): real
  {
    if d < 0.0 then -d else d
  }

  /** Sum of the squared deviations of the values from avg. */
  function SquaredDeviations(s: seq<real>, avg: real): (r: real)
    ensures r >= 0.0
  {
    if s == [] then 0.0
    else
      var d := s[|s| - 1] - avg;
      SquareNonNegative(d);
      SquaredDeviations(s[..|s| - 1], avg) + d * d
  }

  /** Population variance: divided by the count, with no Bessel correction. */
  function Variance(s: seq<real>): (v: real)
    requires |s| > 0
    ensures v >= 0.0
  {
    SquaredDeviations(s, Mean(s)) / (|s| as real)
  }

  /** sd is the standard deviation that belongs to the variance v. */
  predicate IsRoot(sd: real, v: real)
  {
    sd >= 0.0 && sd * sd == v
  }

  /** x lies strictly more than two standard deviations away from avg. */
  predicate IsOutlier(x: real, avg: real, variance: real)
  {
    (x - avg) * (x - avg) > 4.0 * variance
  }

  predicate AllEqual(s: seq<real>, c: real)
  {
    forall i :: 0 <= i < |s| ==> s[i] == c
  }

  // Facts about products. The solver is unreliable when a product of a
  // variable with itself meets a bound of zero, so the positive cases hand
  // the product back as a named value.

  lemma ProductNonNegative(p: real, q: real)
    requires p >= 0.0 && q >= 0.0
    ensures p * q >= 0.0
  {
  }

  lemma PositiveProduct(p: real, q: real) returns (r: real)
    requires p > 0.0 && q > 0.0
    ensures r == p * q && r > 0.0
  {
    r := p * q;
  }

  lemma NegatedSquare(d: real)
    ensures (-d) * (-d) == d * d
  {
  }

  lemma SquareNonNegative(d: real)
    ensures d * d >= 0.0
  {
    if d >= 0.0 {
      ProductNonNegative(d, d);
    } else {
      ProductNonNegative(-d, -d);
      NegatedSquare(d);
    }
  }

  lemma PositiveSquare(d: real) returns (r: real)
    requires d != 0.0
    ensures r == d * d && r > 0.0
  {
    if d > 0.0 {
      r := PositiveProduct(d, d);
    } else {
      r := PositiveProduct(-d, -d);
      NegatedSquare(d);
    }
  }

  lemma DifferenceOfSquares(a: real, b: real)
    ensures a * a - b * b == (a - b) * (a + b)
  {
  }

  lemma SquareMonotonic(a: real, b: real)
    requires a >= 0.0 && b >= 0.0
    ensures a > b <==> a * a > b * b
  {
    DifferenceOfSquares(a, b);
    if a > b {
      var r := PositiveProduct(a - b, a + b);
    } else {
      ProductNonNegative(b - a, a + b);
    }
  }

  lemma AddPositive(r: real, p: real)
    requires r >= 0.0 && p > 0.0
    ensures r + p > 0.0
  {
  }

  /**
   * The squared test agrees with the comparison |x - avg| > 2 * sd for the
   * standard deviation sd of the variance; in particular a value exactly two
   * standard deviations away is not an outlier.
   */
  lemma {:induction false} OutlierTestMatchesRoot(x: real, avg: real, variance: real, sd: real)
    requires IsRoot(sd, variance)
    ensures IsOutlier(x, avg, variance) <==> Abs(x - avg) > 2.0 * sd
    ensures Abs(x - avg) == 2.0 * sd ==> !IsOutlier(x, avg, variance)
  {
    var a, b := Abs(x - avg), 2.0 * sd;
    if x - avg < 0.0 {
      NegatedSquare(x - avg);
    }
    assert (x - avg) * (x - avg) == a * a;
    assert 4.0 * variance == b * b;
    SquareMonotonic(a, b);
  }

  lemma {:induction false} SumOfConstant(s: seq<real>, c: real)
    requires AllEqual(s, c)
    ensures Sum(s) == (|s| as real) * c
  {
    if s != [] {
      SumOfConstant(s[..|s| - 1], c);
    }
  }

  /** The mean of a column of equal values is that value. */
  lemma MeanOfConstant(s: seq<real>, c: real)
    requires |s| > 0 && AllEqual(s, c)
    ensures Mean(s) == c
  {
    SumOfConstant(s, c);
  }

  lemma {:induction false} SquaredDeviationsOfConstant(s: seq<real>, c: real)
    requires AllEqual(s, c)
    ensures SquaredDeviations(s, c) == 0.0
  {
    if s != [] {
      SquaredDeviationsOfConstant(s[..|s| - 1], c);
    }
  }

  /** One value away from avg makes the sum of squared deviations positive. */
  lemma {:induction false} SquaredDeviationsPositive(s: seq<real>, avg: real, i: int)
    requires 0 <= i < |s| && s[i] != avg
    ensures SquaredDeviations(s, avg) > 0.0
  {
    var init := s[..|s| - 1];
    if i == |s| - 1 {
      var sq := PositiveSquare(s[i] - avg);
      AddPositive(SquaredDeviations(init, avg), sq);
    } else {
      assert init[i] == s[i];
      SquaredDeviationsPositive(init, avg, i);
      var d := s[|s| - 1] - avg;
      SquareNonNegative(d);
      AddPositive(d * d, SquaredDeviations(init, avg));
    }
  }

  /** The variance is zero exactly when all values are equal. */
  lemma VarianceZeroIffAllEqual(s: seq<real>)
    requires |s| > 0
    ensures Variance(s) == 0.0 <==> AllEqual(s, s[0])
  {
    if Variance(s) == 0.0 && !AllEqual(s, s[0]) {
      var i :| 0 <= i < |s| && s[i] != s[0];
      var j := if s[i] != Mean(s) then i else 0;
      SquaredDeviationsPositive(s, Mean(s), j);
    }
    if AllEqual(s, s[0]) {
      MeanOfConstant(s, s[0]);
      SquaredDeviationsOfConstant(s, s[0]);
    }
  }
}
