/** The Sharpe ratio of per-market results. */
module Sharpe {
  import opened Types
  import opened Reals

  function SumBy(xs: seq<real>, f: real -> real): real {
    if xs == [] then 0.0 else SumBy(xs[..|xs| - 1], f) + f(xs[|xs| - 1])
  }

  function Total(xs: seq<real>): real { SumBy(xs, x => x) }

  function Mean(xs: seq<real>): real
    requires xs != []
  {
    Total(xs) / |xs| as real
  }

  function Variance(xs: seq<real>): real
    requires xs != []
  {
    var mean := Mean(xs);
    SumBy(xs, x => (x - mean) * (x - mean)) / |xs| as real
  }

  const SMALLEST_SAMPLE: nat := 5

  const SMALLEST_DEVIATION: real := 0.000001

  /** Mean over standard deviation; None for a small sample or one without spread. */
  function Ratio(xs: seq<real>, sqrt: real -> real): Option<real> {
    if |xs| < SMALLEST_SAMPLE then None
    else
      var std := sqrt(Variance(xs));
      if std < SMALLEST_DEVIATION then None else Some(Mean(xs) / std)
  }

  lemma {:induction false} SumByConcat(a: seq<real>, b: seq<real>, f: real -> real)
    ensures SumBy(a + b, f) == SumBy(a, f) + SumBy(b, f)
  {
    if b == [] {
      assert a + b == a;
    } else {
      assert (a + b)[..|a + b| - 1] == a + b[..|b| - 1];
      SumByConcat(a, b[..|b| - 1], f);
    }
  }

  /** Any sum over the results is blind to their order. */
  lemma {:induction false} SumByIgnoresOrder(a: seq<real>, b: seq<real>, f: real -> real)
    requires multiset(a) == multiset(b)
    ensures SumBy(a, f) == SumBy(b, f)
    decreases |a|
  {
    if a == [] {
      assert |b| == |multiset(a)| == 0;
    } else {
      var n, x := |a| - 1, a[|a| - 1];
      assert a == a[..n] + [x];
      assert x in multiset(b);
      var j :| 0 <= j < |b| && b[j] == x;
      var others := b[..j] + b[j + 1..];
      assert b == b[..j] + [x] + b[j + 1..];
      assert multiset(others) == multiset(b) - multiset{x};
      assert multiset(a[..n]) == multiset(a) - multiset{x};
      SumByIgnoresOrder(a[..n], others, f);
      SumByWithout(b, j, f);
    }
  }

  lemma {:induction false} SumByWithout(b: seq<real>, j: nat, f: real -> real)
    requires j < |b|
    ensures SumBy(b, f) == SumBy(b[..j] + b[j + 1..], f) + f(b[j])
  {
    var front, x, back := b[..j], b[j], b[j + 1..];
    assert b == front + ([x] + back);
    SumByConcat(front, [x] + back, f);
    SumByConcat([x], back, f);
    SumByConcat(front, back, f);
    assert [x][..0] == [];
  }

  /** The ratio does not depend on the order of the results. */
  lemma {:induction false} RatioIgnoresOrder(a: seq<real>, b: seq<real>, sqrt: real -> real)
    requires multiset(a) == multiset(b)
    ensures Ratio(a, sqrt) == Ratio(b, sqrt)
  {
    assert |a| == |multiset(a)| == |multiset(b)| == |b|;
    if a != [] {
      SumByIgnoresOrder(a, b, x => x);
      var mean := Mean(a);
      SumByIgnoresOrder(a, b, x => (x - mean) * (x - mean));
    }
  }

  lemma {:induction false} SumByConstant(xs: seq<real>, c: real, f: real -> real, v: real)
    requires (forall i :: 0 <= i < |xs| ==> xs[i] == c) && f(c) == v
    ensures SumBy(xs, f) == |xs| as real * v
  {
    if xs != [] {
      SumByConstant(xs[..|xs| - 1], c, f, v);
    }
  }

  /** When every market gives the same result there is no ratio, however many there are. */
  lemma {:induction false} NoRatioWithoutSpread(xs: seq<real>, c: real, sqrt: real -> real)
    requires (forall i :: 0 <= i < |xs| ==> xs[i] == c) && sqrt(0.0) == 0.0
    ensures Ratio(xs, sqrt) == None
  {
    if xs != [] {
      SumByConstant(xs, c, x => x, c);
      AverageOfSame(|xs| as real, c);
      SumByConstant(xs, c, x => (x - c) * (x - c), 0.0);
      assert Mean(xs) == c;
    }
  }

  lemma AverageOfSame(n: real, c: real)
    requires n > 0.0
    ensures n * c / n == c
  {
  }

  function Squares(xs: seq<real>): real { SumBy(xs, x => x * x) }

  /** The sum of squared distances from c, from the sums of squares and of values. */
  ghost predicate Expands(deviations: real, squares: real, total: real, n: real, c: real) {
    deviations == squares - 2.0 * c * total + n * (c * c)
  }

  lemma OneMoreDeviation(deviations: real, squares: real, total: real, n: real, c: real, x: real)
    requires Expands(deviations, squares, total, n, c)
    ensures Expands(deviations + (x - c) * (x - c), squares + x * x, total + x, n + 1.0, c)
  {
  }

  lemma LastCounts(xs: seq<real>)
    requires xs != []
    ensures
      var front, x := xs[..|xs| - 1], xs[|xs| - 1];
      Squares(xs) == Squares(front) + x * x && Total(xs) == Total(front) + x
  {
  }

  lemma {:induction false} DeviationsExpand(xs: seq<real>, c: real, f: real -> real)
    requires forall x :: f(x) == (x - c) * (x - c)
    ensures Expands(SumBy(xs, f), Squares(xs), Total(xs), |xs| as real, c)
  {
    if xs != [] {
      var front, x := xs[..|xs| - 1], xs[|xs| - 1];
      DeviationsExpand(front, c, f);
      LastCounts(xs);
      OneMoreDeviation(SumBy(front, f), Squares(front), Total(front), |front| as real, c, x);
    }
  }

  /** n times the sum of squares less the square of the sum. */
  function Scatter(xs: seq<real>): real { ScatterOf(|xs| as real, Squares(xs), Total(xs)) }

  function ScatterOf(n: real, squares: real, total: real): real { n * squares - total * total }

  lemma MeanTimesCount(xs: seq<real>)
    requires xs != []
    ensures Mean(xs) * |xs| as real == Total(xs)
  {
    DivTimes(Total(xs), |xs| as real);
  }

  lemma VarianceTimesCount(xs: seq<real>) returns (f: real -> real)
    requires xs != []
    ensures forall x :: f(x) == (x - Mean(xs)) * (x - Mean(xs))
    ensures Variance(xs) * |xs| as real == SumBy(xs, f)
  {
    var mean := Mean(xs);
    f := (x: real) => (x - mean) * (x - mean);
    assert Variance(xs) == SumBy(xs, f) / |xs| as real;
    DivTimes(SumBy(xs, f), |xs| as real);
  }

  lemma {:induction false} VarianceIsScatter(xs: seq<real>)
    requires xs != []
    ensures Variance(xs) * (|xs| as real * |xs| as real) == Scatter(xs)
  {
    MeanTimesCount(xs);
    var f := VarianceTimesCount(xs);
    DeviationsExpand(xs, Mean(xs), f);
    Collected(Variance(xs), |xs| as real, Mean(xs), Squares(xs), Total(xs), SumBy(xs, f));
  }

  lemma Scaled(quotient: real, x: real, n: real)
    requires quotient * n == x
    ensures quotient * (n * n) == x * n
  {
  }

  lemma Collected(variance: real, n: real, mean: real, squares: real, total: real, deviations: real)
    requires mean * n == total && variance * n == deviations && Expands(deviations, squares, total, n, mean)
    ensures variance * (n * n) == ScatterOf(n, squares, total)
  {
    Scaled(variance, deviations, n);
    assert n * (mean * mean) == mean * total;
    assert deviations == squares - mean * total;
    assert mean * total * n == total * total;
  }

  ghost predicate ScaledSquare(ratio: real, scatter: real, total: real) { ratio * ratio * scatter == total * total }

  /**
   There is a ratio exactly for five results or more whose scatter is at least a millionth of
   their number, squared; its square is the total's square over the scatter.
   */
  lemma {:induction false} RatioMeasuresScatter(xs: seq<real>, sqrt: real -> real)
    requires forall v :: v >= 0.0 ==> sqrt(v) >= 0.0 && sqrt(v) * sqrt(v) == v
    ensures Ratio(xs, sqrt).Some? <==>
      |xs| >= 5 && Scatter(xs) * 1000000000000.0 >= |xs| as real * |xs| as real
    ensures Ratio(xs, sqrt).Some? ==> ScaledSquare(Ratio(xs, sqrt).value, Scatter(xs), Total(xs))
  {
    if |xs| >= 5 {
      SpreadIff(xs, sqrt);
      VarianceNotNegative(xs);
      if Ratio(xs, sqrt).Some? {
        var ratio := Ratio(xs, sqrt).value;
        MomentsOf(xs);
        RatioDivides(xs, sqrt, ratio);
        RatioSquared(ratio, sqrt(Variance(xs)), Variance(xs), Mean(xs), |xs| as real, Total(xs), Scatter(xs));
      }
    }
  }

  /** Mean and variance of n results, multiplied out. */
  ghost predicate Moments(mean: real, variance: real, n: real, total: real, scatter: real) {
    mean * n == total && variance * (n * n) == scatter
  }

  lemma {:induction false} MomentsOf(xs: seq<real>)
    requires xs != []
    ensures Moments(Mean(xs), Variance(xs), |xs| as real, Total(xs), Scatter(xs))
  {
    MeanTimesCount(xs);
    VarianceIsScatter(xs);
  }

  /** The ratio of a mean to the root of a variance, multiplied out. */
  ghost predicate Divides(ratio: real, std: real, mean: real, variance: real) {
    ratio * std == mean && std * std == variance
  }

  lemma RatioDivides(xs: seq<real>, sqrt: real -> real, ratio: real)
    requires Ratio(xs, sqrt) == Some(ratio) && sqrt(Variance(xs)) * sqrt(Variance(xs)) == Variance(xs)
    ensures Divides(ratio, sqrt(Variance(xs)), Mean(xs), Variance(xs))
  {
    DivTimes(Mean(xs), sqrt(Variance(xs)));
  }

  /** The deviation is as large as a ratio needs exactly when the scatter is. */
  lemma {:induction false} SpreadIff(xs: seq<real>, sqrt: real -> real)
    requires xs != [] && forall v :: v >= 0.0 ==> sqrt(v) >= 0.0 && sqrt(v) * sqrt(v) == v
    ensures sqrt(Variance(xs)) < 0.000001 <==> Scatter(xs) * 1000000000000.0 < |xs| as real * |xs| as real
  {
    VarianceIsScatter(xs);
    VarianceNotNegative(xs);
    MulPositive(|xs| as real, |xs| as real);
    DeviationBound(sqrt(Variance(xs)), Variance(xs), |xs| as real * |xs| as real, Scatter(xs));
  }

  lemma {:induction false} SumNotNegative(xs: seq<real>, f: real -> real)
    requires forall x :: f(x) >= 0.0
    ensures SumBy(xs, f) >= 0.0
  {
    if xs != [] {
      SumNotNegative(xs[..|xs| - 1], f);
    }
  }

  lemma SquareNotNegative(x: real)
    ensures x * x >= 0.0
  {
    if x >= 0.0 {
      MulNonNegative(x, x);
    } else {
      MulNonNegative(-x, -x);
      assert -x * -x == x * x;
    }
  }

  lemma {:induction false} VarianceNotNegative(xs: seq<real>)
    requires xs != []
    ensures Variance(xs) >= 0.0
  {
    var mean := Mean(xs);
    var f := (x: real) => (x - mean) * (x - mean);
    forall x: real ensures f(x) >= 0.0 {
      SquareNotNegative(x - mean);
    }
    SumNotNegative(xs, f);
    assert Variance(xs) == SumBy(xs, f) / |xs| as real;
  }

  lemma DeviationBound(std: real, variance: real, square: real, scatter: real)
    requires std >= 0.0 && std * std == variance && square > 0.0 && variance * square == scatter
    ensures std < 0.000001 <==> scatter * 1000000000000.0 < square
  {
    SquaresOrder(std, 0.000001);
    ScaledOrder(variance, 0.000001 * 0.000001, square);
  }

  lemma ScaledOrder(a: real, b: real, k: real)
    requires k > 0.0
    ensures a < b <==> a * k < b * k
  {
  }

  lemma RatioSquared(
      ratio: real, std: real, variance: real, mean: real, n: real, total: real, scatter: real)
    requires Divides(ratio, std, mean, variance) && Moments(mean, variance, n, total, scatter)
    ensures ScaledSquare(ratio, scatter, total)
  {
    assert ratio * ratio * (std * std * (n * n)) == (ratio * std * n) * (ratio * std * n);
  }

  /** Where there is a ratio, it has the sign of the total. */
  lemma RatioHasSignOfTotal(xs: seq<real>, sqrt: real -> real)
    requires Ratio(xs, sqrt).Some?
    ensures Ratio(xs, sqrt).value > 0.0 <==> Total(xs) > 0.0
    ensures Ratio(xs, sqrt).value == 0.0 <==> Total(xs) == 0.0
  {
  }

}
