/**
 * Mean, population variance and z-score of a window of integer volumes,
 * as `np.mean`, `np.std` (population form, dividing by N) and
 * `(x - mean) / std` compute them, taken exactly over the reals.
 *
 * No square root is taken: a standard deviation is characterised by
 * sigma >= 0 and sigma * sigma == variance, and a z-score by
 * z * sigma == x - mean. The variance is computed from integers,
 * as  sum_i (N * w_i - S)^2 / N^3  with S the sum of the window, which is
 * sum_i (w_i - S / N)^2 / N.
 */
module Stats {

  function Sum(s: seq<int>): int
    decreases |s|
  {
    if |s| == 0 then 0 else Sum(s[..|s| - 1]) + s[|s| - 1]
  }

  function SumReal(s: seq<real>): real
    decreases |s|
  {
    if |s| == 0 then 0.0 else SumReal(s[..|s| - 1]) + s[|s| - 1]
  }

  /** `np.mean(s) if s else 0.0` over a list of scores. */
  function MeanOrZero(s: seq<real>): (m: real)
    ensures |s| == 0 ==> m == 0.0
    ensures |s| > 0 ==> m * |s| as real == SumReal(s)
  {
    if |s| == 0 then 0.0 else SumReal(s) / |s| as real
  }

  predicate AllEqual<T(==)>(s: seq<T>) {
    forall i, j :: 0 <= i < |s| && 0 <= j < |s| ==> s[i] == s[j]
  }

  /** sum_i (n * s_i - total)^2 */
  function Spread(s: seq<int>, n: int, total: int): int
    decreases |s|
  {
    if |s| == 0 then 0
    else
      var e := n * s[|s| - 1] - total;
      Spread(s[..|s| - 1], n, total) + e * e
  }

  /** N^3 times the population variance of `s`. */
  function ScaledSpread(s: seq<int>): int {
    Spread(s, |s|, Sum(s))
  }

  /** `np.mean(s)` */
  function Mean(s: seq<int>): real
    requires |s| > 0
  {
    Sum(s) as real / |s| as real
  }

  /** `np.std(s) ** 2` */
  function Variance(s: seq<int>): real
    requires |s| > 0
  {
    ScaledSpread(s) as real / (|s| * |s| * |s|) as real
  }

  /** `x - np.mean(s)` */
  function Deviation(s: seq<int>, x: int): (d: real)
    requires |s| > 0
    ensures d == x as real - Mean(s)
  {
    QuotientOfDifference(|s| as real, x as real, Sum(s) as real);
    (|s| * x - Sum(s)) as real / |s| as real
  }

  lemma QuotientOfDifference(n: real, x: real, total: real)
    requires n > 0.0
    ensures (n * x - total) / n == x - total / n
  {
  }

  lemma SquareNonNegative(e: int)
    ensures e * e >= 0
  {
  }

  lemma SquarePositive(e: int)
    requires e != 0
    ensures e * e > 0
  {
  }

  lemma {:induction false} SpreadNonNegative(s: seq<int>, n: int, total: int)
    ensures Spread(s, n, total) >= 0
    decreases |s|
  {
    if |s| > 0 {
      SpreadNonNegative(s[..|s| - 1], n, total);
      SquareNonNegative(n * s[|s| - 1] - total);
    }
  }

  /** The spread vanishes exactly when every scaled sample equals the total. */
  lemma {:induction false} SpreadZeroIff(s: seq<int>, n: int, total: int)
    ensures Spread(s, n, total) == 0 <==> forall i :: 0 <= i < |s| ==> n * s[i] == total
    decreases |s|
  {
    if |s| > 0 {
      var p := s[..|s| - 1];
      var e := n * s[|s| - 1] - total;
      SpreadZeroIff(p, n, total);
      SpreadNonNegative(p, n, total);
      SquareNonNegative(e);
      if forall i :: 0 <= i < |s| ==> n * s[i] == total {
        forall i | 0 <= i < |p|
          ensures n * p[i] == total
        {
          assert p[i] == s[i];
        }
      } else {
        var k :| 0 <= k < |s| && n * s[k] != total;
        if k == |s| - 1 {
          SquarePositive(e);
        } else {
          assert p[k] == s[k];
        }
      }
    }
  }

  lemma {:induction false} SumConstant(s: seq<int>, c: int)
    requires forall i :: 0 <= i < |s| ==> s[i] == c
    ensures Sum(s) == |s| * c
    decreases |s|
  {
    if |s| > 0 {
      var p := s[..|s| - 1];
      assert forall i :: 0 <= i < |p| ==> p[i] == s[i];
      SumConstant(p, c);
    }
  }

  lemma CancelFactor(n: int, a: int, b: int)
    requires n > 0 && n * a == n * b
    ensures a == b
  {
  }

  /** The scaled spread is zero exactly when the window is flat. */
  lemma ScaledSpreadZeroIff(s: seq<int>)
    requires |s| > 0
    ensures ScaledSpread(s) >= 0
    ensures ScaledSpread(s) == 0 <==> AllEqual(s)
  {
    var n := |s|;
    SpreadNonNegative(s, n, Sum(s));
    SpreadZeroIff(s, n, Sum(s));
    if AllEqual(s) {
      SumConstant(s, s[0]);
    } else if ScaledSpread(s) == 0 {
      var i, j :| 0 <= i < n && 0 <= j < n && s[i] != s[j];
      CancelFactor(n, s[i], s[j]);
    }
  }

  lemma QuotientSign(a: real, b: real)
    requires b > 0.0
    ensures a == 0.0 ==> a / b == 0.0
    ensures a > 0.0 ==> a / b > 0.0
  {
  }

  /**
   * The population variance is never negative, and is zero exactly when
   * all samples are equal: `std == 0` in the source means a flat window.
   */
  lemma VarianceZeroIffAllEqual(s: seq<int>)
    requires |s| > 0
    ensures Variance(s) >= 0.0
    ensures Variance(s) == 0.0 <==> AllEqual(s)
  {
    var n := |s|;
    ScaledSpreadZeroIff(s);
    assert n * n * n > 0 by {
      SquarePositive(n);
      assert n * n * n == (n * n) * n;
    }
    QuotientSign(ScaledSpread(s) as real, (n * n * n) as real);
  }

  /**
   * A z-score `(x - mean) / std`, kept as its numerator and the square of
   * its denominator. `Zero` is the literal 0.0 the source returns when it
   * computes no score.
   */
  datatype ZScore = Zero | Ratio(deviation: real, variance: real) {

    /** `z` is the number this score stands for when `np.std` returned `sigma`. */
    predicate Denotes(z: real, sigma: real) {
      match this
      case Zero => z == 0.0
      case Ratio(d, v) => v > 0.0 && sigma >= 0.0 && sigma * sigma == v && z * sigma == d
    }

    /** `z > t`, decided without a square root. */
    predicate Exceeds(t: real) {
      match this
      case Zero => 0.0 > t
      case Ratio(d, v) =>
        if t >= 0.0 then d > 0.0 && d * d > t * t * v
        else d >= 0.0 || d * d < t * t * v
    }
  }

  lemma MulStrict(x: real, y: real, c: real)
    requires x < y && c > 0.0
    ensures x * c < y * c
  {
  }

  lemma MulWeak(x: real, y: real, c: real)
    requires x <= y && c >= 0.0
    ensures x * c <= y * c
  {
  }

  lemma ProductPositive(x: real, y: real)
    requires x > 0.0 && y > 0.0
    ensures x * y > 0.0
  {
  }

  lemma ProductNonNegative(x: real, y: real)
    requires x >= 0.0 && y >= 0.0
    ensures x * y >= 0.0
  {
  }

  lemma DifferenceOfSquares(a: real, b: real)
    ensures (b - a) * (b + a) == b * b - a * a
  {
  }

  lemma SquareMonotone(a: real, b: real)
    requires a >= 0.0 && b >= 0.0
    ensures a < b <==> a * a < b * b
  {
    if a < b {
      DifferenceOfSquares(a, b);
      ProductPositive(b - a, b + a);
    } else {
      DifferenceOfSquares(b, a);
      ProductNonNegative(a - b, a + b);
    }
  }

  lemma SigmaPositive(sigma: real, v: real)
    requires v > 0.0 && sigma >= 0.0 && sigma * sigma == v
    ensures sigma > 0.0
  {
    if sigma == 0.0 {
      assert false;
    }
  }

  /** Multiplying by a positive sigma keeps the comparison. */
  lemma ScaleComparison(z: real, t: real, sigma: real)
    requires sigma > 0.0
    ensures z > t <==> z * sigma > t * sigma
  {
    if z > t {
      MulStrict(t, z, sigma);
    } else {
      MulWeak(z, t, sigma);
    }
  }

  lemma SquareOfProduct(t: real, s: real)
    ensures (t * s) * (t * s) == t * t * (s * s)
  {
  }

  /** For e >= 0: d > e iff d is positive and d squared exceeds e squared. */
  lemma NonNegativeBound(d: real, e: real)
    requires e >= 0.0
    ensures d > e <==> d > 0.0 && d * d > e * e
  {
    if d > 0.0 {
      SquareMonotone(e, d);
    }
  }

  /** For e < 0: d > e iff d is not negative or d squared is below e squared. */
  lemma NegativeBound(d: real, e: real)
    requires e < 0.0
    ensures d > e <==> d >= 0.0 || d * d < e * e
  {
    if d < 0.0 {
      SquareMonotone(-d, -e);
      assert (-d) * (-d) == d * d;
      assert (-e) * (-e) == e * e;
    }
  }

  lemma ExceedsArithmetic(d: real, v: real, z: real, sigma: real, t: real)
    requires v > 0.0 && sigma >= 0.0 && sigma * sigma == v && z * sigma == d
    ensures z > t <==> (if t >= 0.0 then d > 0.0 && d * d > t * t * v else d >= 0.0 || d * d < t * t * v)
  {
    SigmaPositive(sigma, v);
    ScaleComparison(z, t, sigma);
    var e := t * sigma;
    SquareOfProduct(t, sigma);
    assert e * e == t * t * v;
    if t >= 0.0 {
      MulWeak(0.0, t, sigma);
      NonNegativeBound(d, e);
    } else {
      MulStrict(t, 0.0, sigma);
      NegativeBound(d, e);
    }
  }

  /** `Exceeds` is the source's `z > t` for every z the score can stand for. */
  lemma ExceedsIff(score: ZScore, z: real, sigma: real, t: real)
    requires score.Denotes(z, sigma)
    ensures score.Exceeds(t) <==> z > t
  {
    match score
    case Zero =>
    case Ratio(d, v) => ExceedsArithmetic(d, v, z, sigma, t);
  }
}
