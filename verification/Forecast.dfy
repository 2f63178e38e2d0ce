/**
  The least-squares forecast of src/observability/analytics-dashboard.service.ts.
  Values are real; a point's abscissa is its index plus one.
*/
module Forecast {
  // ---------------------------------------------------------------- the sums

  /** A product kept as one term, so that sums of products can be compared term by term. */
  function Times(x: real, y: real): real { x * y }

  function SumX(n: nat): real {
    if n == 0 then 0.0 else SumX(n - 1) + n as real
  }

  function SumXX(n: nat): real {
    if n == 0 then 0.0 else SumXX(n - 1) + Times(n as real, n as real)
  }

  function SumY(ys: seq<real>): real {
    if ys == [] then 0.0 else SumY(ys[..|ys| - 1]) + ys[|ys| - 1]
  }

  function SumXY(ys: seq<real>): real {
    if ys == [] then 0.0 else SumXY(ys[..|ys| - 1]) + Times(|ys| as real, ys[|ys| - 1])
  }

  function SumYY(ys: seq<real>): real {
    if ys == [] then 0.0 else SumYY(ys[..|ys| - 1]) + Times(ys[|ys| - 1], ys[|ys| - 1])
  }

  function DenominatorOf(n: real, x: real, xx: real): real { n * xx - x * x }

  function Denominator(n: nat): real { DenominatorOf(n as real, SumX(n), SumXX(n)) }

  function SlopeOf(n: real, x: real, y: real, xy: real, denominator: real): real
    requires denominator != 0.0
  {
    (n * xy - x * y) / denominator
  }

  function InterceptOf(n: real, x: real, y: real, slope: real): real
    requires n != 0.0
  {
    (y - slope * x) / n
  }

  function Slope(ys: seq<real>): real
    requires Denominator(|ys|) != 0.0
  {
    SlopeOf(|ys| as real, SumX(|ys|), SumY(ys), SumXY(ys), Denominator(|ys|))
  }

  function Intercept(ys: seq<real>): real
    requires |ys| > 0 && Denominator(|ys|) != 0.0
  {
    InterceptOf(|ys| as real, SumX(|ys|), SumY(ys), Slope(ys))
  }

  /** The last value, or zero without one. */
  function LastValue(ys: seq<real>): real {
    if ys == [] then 0.0 else ys[|ys| - 1]
  }

  function Along(slope: real, intercept: real, x: nat): real { slope * x as real + intercept }

  /** The line fitted to n points with these sums, at the next abscissa. */
  function Next(n: nat, x: real, y: real, xy: real, denominator: real): real
    requires n > 0 && denominator != 0.0
  {
    var slope := SlopeOf(n as real, x, y, xy, denominator);
    Along(slope, InterceptOf(n as real, x, y, slope), n + 1)
  }

  /** The fitted line one step past the data, at least zero. */
  function Predicted(ys: seq<real>): real {
    if |ys| < 2 || Denominator(|ys|) == 0.0 then LastValue(ys)
    else AtLeastZero(Next(|ys|, SumX(|ys|), SumY(ys), SumXY(ys), Denominator(|ys|)))
  }

  function AtLeastZero(v: real): real { if v < 0.0 then 0.0 else v }

  /** The four sums, in one pass. */
  method AddUp(points: seq<real>) returns (xSum: real, ySum: real, xySum: real, x2Sum: real)
    ensures xSum == SumX(|points|) && x2Sum == SumXX(|points|) && ySum == SumY(points) && xySum == SumXY(points)
  {
    xSum, ySum, xySum, x2Sum := 0.0, 0.0, 0.0, 0.0;
    for index := 0 to |points|
      invariant xSum == SumX(index) && x2Sum == SumXX(index)
      invariant ySum == SumY(points[..index]) && xySum == SumXY(points[..index])
    {
      hide Times;
      var x, y := (index + 1) as real, points[index];
      assert points[..index + 1][..index] == points[..index];
      xSum := xSum + x;
      ySum := ySum + y;
      xySum := xySum + Times(x, y);
      x2Sum := x2Sum + Times(x, x);
    }
    assert points[..|points|] == points;
  }

  method PredictNextValue(points: seq<real>) returns (value: real)
    ensures value == Predicted(points)
  {
    if |points| < 2 {
      return LastValue(points);
    }
    var xSum, ySum, xySum, x2Sum := AddUp(points);
    hide DenominatorOf, SlopeOf, InterceptOf, Along, SumX, SumXX, SumY, SumXY;
    var n := |points|;
    var denominator := DenominatorOf(n as real, xSum, x2Sum);
    if denominator == 0.0 {
      return LastValue(points);
    }
    var slope := SlopeOf(n as real, xSum, ySum, xySum, denominator);
    var intercept := InterceptOf(n as real, xSum, ySum, slope);
    value := AtLeastZero(Along(slope, intercept, n + 1));
  }

  // ---------------------------------------------------------------- the denominator

  lemma {:induction false} SumXClosed(n: nat)
    ensures 2.0 * SumX(n) == n as real * (n as real + 1.0)
  {
    if n > 0 {
      SumXClosed(n - 1);
    }
  }

  lemma {:induction false} SumXXClosed(n: nat)
    ensures 6.0 * SumXX(n) == n as real * (n as real + 1.0) * (2.0 * n as real + 1.0)
  {
    if n > 0 {
      SumXXClosed(n - 1);
      var r := n as real;
      assert (n - 1) as real == r - 1.0;
      Cubic(r);
    }
  }

  lemma Cubic(r: real)
    ensures (r - 1.0) * (r - 1.0 + 1.0) * (2.0 * (r - 1.0) + 1.0) + 6.0 * (r * r) == r * (r + 1.0) * (2.0 * r + 1.0)
  {
  }

  lemma Quartic(r: real, x: real, xx: real)
    requires 2.0 * x == r * (r + 1.0) && 6.0 * xx == r * (r + 1.0) * (2.0 * r + 1.0)
    ensures 12.0 * (r * xx - x * x) == r * r * (r * r - 1.0)
  {
    assert 12.0 * (r * xx) == 2.0 * r * (6.0 * xx);
    assert 12.0 * (x * x) == 3.0 * ((2.0 * x) * (2.0 * x));
    var s := r * (r + 1.0);
    assert (2.0 * x) * (2.0 * x) == s * s;
    assert 6.0 * xx == s * (2.0 * r + 1.0);
    assert 2.0 * r * (s * (2.0 * r + 1.0)) == s * (4.0 * r * r + 2.0 * r);
    assert 3.0 * (s * s) == s * (3.0 * r * r + 3.0 * r);
    assert s * (4.0 * r * r + 2.0 * r) - s * (3.0 * r * r + 3.0 * r) == s * (r * r - r);
  }

  /** The denominator is n²(n²-1)/12, so the guard against zero never fires. */
  lemma DenominatorClosed(n: nat)
    ensures 12.0 * Denominator(n) == n as real * n as real * (n as real * n as real - 1.0)
    ensures n >= 2 ==> Denominator(n) > 0.0
  {
    SumXClosed(n);
    SumXXClosed(n);
    var r := n as real;
    Quartic(r, SumX(n), SumXX(n));
    if n >= 2 {
      assert r * r >= 2.0 * r >= 4.0;
    }
  }

  // ---------------------------------------------------------------- the fit

  function Squared(v: real): real { v * v }

  function Residual(y: real, x: real, a: real, b: real): real { Squared(y - (a + b * x)) }

  /** The squared error of the line a + b x on the data. */
  function SquaredError(ys: seq<real>, a: real, b: real): real {
    if ys == [] then 0.0
    else SquaredError(ys[..|ys| - 1], a, b) + Residual(ys[|ys| - 1], |ys| as real, a, b)
  }

  /** The squared distance between two lines that differ by a + b x, over the first n abscissas. */
  function Spread(n: nat, a: real, b: real): real {
    if n == 0 then 0.0 else Spread(n - 1, a, b) + Residual(0.0, n as real, a, b)
  }

  /** The squared error as a polynomial in the sums. */
  function ErrorFromSums(n: real, x: real, xx: real, y: real, xy: real, yy: real, a: real, b: real): real {
    yy - 2.0 * (a * y) - 2.0 * (b * xy) + a * a * n + 2.0 * (a * b * x) + b * b * xx
  }

  lemma ErrorStep(n: real, x: real, xx: real, y: real, xy: real, yy: real, a: real, b: real, v: real, k: real)
    ensures ErrorFromSums(n, x, xx, y, xy, yy, a, b) + Residual(v, k, a, b)
         == ErrorFromSums(n + 1.0, x + k, xx + Times(k, k), y + v, xy + Times(k, v), yy + Times(v, v), a, b)
  {
    var bk := b * k;
    assert Residual(v, k, a, b) == v * v - 2.0 * (a * v) - 2.0 * (bk * v) + a * a + 2.0 * (a * bk) + bk * bk;
    assert b * (xy + k * v) == b * xy + bk * v;
    assert a * b * (x + k) == a * b * x + a * bk;
    assert b * b * (xx + k * k) == b * b * xx + bk * bk;
    assert a * a * (n + 1.0) == a * a * n + a * a;
  }

  lemma {:induction false} ErrorExpands(ys: seq<real>, a: real, b: real)
    ensures SquaredError(ys, a, b)
         == ErrorFromSums(|ys| as real, SumX(|ys|), SumXX(|ys|), SumY(ys), SumXY(ys), SumYY(ys), a, b)
  {
    if ys != [] {
      var front, v, n := ys[..|ys| - 1], ys[|ys| - 1], |ys|;
      ErrorExpands(front, a, b);
      hide ErrorFromSums, Residual, Times;
      ErrorStep((n - 1) as real, SumX(n - 1), SumXX(n - 1), SumY(front), SumXY(front), SumYY(front), a, b, v, n as real);
    }
  }

  lemma {:induction false} SpreadExpands(n: nat, a: real, b: real)
    ensures Spread(n, a, b) == ErrorFromSums(n as real, SumX(n), SumXX(n), 0.0, 0.0, 0.0, a, b)
  {
    if n > 0 {
      SpreadExpands(n - 1, a, b);
      assert Times(n as real, 0.0) == Times(0.0, 0.0) == 0.0;
      hide ErrorFromSums, Residual, Times;
      ErrorStep((n - 1) as real, SumX(n - 1), SumXX(n - 1), 0.0, 0.0, 0.0, a, b, 0.0, n as real);
    }
  }

  lemma {:induction false} SpreadPositive(n: nat, a: real, b: real)
    ensures Spread(n, a, b) >= 0.0
  {
    if n > 0 {
      SpreadPositive(n - 1, a, b);
      ResidualPositive(0.0, n as real, a, b);
    }
  }

  lemma ResidualPositive(y: real, x: real, a: real, b: real)
    ensures Residual(y, x, a, b) >= 0.0
    ensures Residual(y, x, a, b) == 0.0 ==> y == a + b * x
  {
    hide Squared;
    var r := y - (a + b * x);
    SquaredPositive(r);
    assert Residual(y, x, a, b) == Squared(r);
  }

  lemma PositiveProduct(x: real, y: real, p: real)
    requires x > 0.0 && y > 0.0 && p == x * y
    ensures p > 0.0
  {
  }

  lemma SquaredPositive(v: real)
    ensures Squared(v) >= 0.0 && (Squared(v) == 0.0 ==> v == 0.0)
  {
    if v > 0.0 {
      PositiveProduct(v, v, Squared(v));
    } else if v < 0.0 {
      PositiveProduct(-v, -v, Squared(v));
    }
  }

  /** Two lines that agree on two abscissas are one. */
  lemma {:induction false} SpreadZero(n: nat, a: real, b: real)
    requires n >= 2 && Spread(n, a, b) == 0.0
    ensures a == 0.0 && b == 0.0
  {
    SpreadPositive(n - 1, a, b);
    ResidualPositive(0.0, n as real, a, b);
    if n > 2 {
      SpreadZero(n - 1, a, b);
    } else {
      SpreadPositive(0, a, b);
      ResidualPositive(0.0, 1.0, a, b);
      assert Spread(1, a, b) == Spread(0, a, b) + Residual(0.0, 1.0, a, b);
    }
  }

  /** The two normal equations of least squares. */
  ghost predicate Normal(n: real, x: real, xx: real, y: real, xy: real, a: real, b: real) {
    a * n + b * x == y && a * x + b * xx == xy
  }

  lemma FitNormal(n: real, x: real, xx: real, y: real, xy: real, a: real, b: real)
    requires n != 0.0 && DenominatorOf(n, x, xx) != 0.0
    requires b == SlopeOf(n, x, y, xy, DenominatorOf(n, x, xx)) && a == InterceptOf(n, x, y, b)
    ensures Normal(n, x, xx, y, xy, a, b)
  {
    var d := DenominatorOf(n, x, xx);
    assert b * d == n * xy - x * y;
    assert a * n == y - b * x;
    hide SlopeOf, InterceptOf;
    assert n * (a * x + b * xx) == (a * n) * x + b * (n * xx);
    assert (a * n) * x == y * x - b * (x * x);
    assert b * (n * xx) - b * (x * x) == b * d;
    assert n * (a * x + b * xx) == n * xy;
    Cancel(n, a * x + b * xx, xy);
  }

  lemma Cancel(n: real, u: real, v: real)
    requires n != 0.0 && n * u == n * v
    ensures u == v
  {
    assert u == (n * u) / n;
  }

  /** Moving away from a line that satisfies the normal equations costs exactly the spread of the move. */
  lemma ErrorDifference(n: real, x: real, xx: real, y: real, xy: real, yy: real, a: real, b: real, c: real, d: real)
    requires Normal(n, x, xx, y, xy, a, b)
    ensures ErrorFromSums(n, x, xx, y, xy, yy, a + c, b + d)
         == ErrorFromSums(n, x, xx, y, xy, yy, a, b) + ErrorFromSums(n, x, xx, 0.0, 0.0, 0.0, c, d)
  {
    assert (a + c) * y == a * y + c * (a * n + b * x);
    assert (b + d) * xy == b * xy + d * (a * x + b * xx);
    assert (a + c) * (a + c) * n == a * a * n + 2.0 * (a * c * n) + c * c * n;
    assert (b + d) * (b + d) * xx == b * b * xx + 2.0 * (b * d * xx) + d * d * xx;
    assert (a + c) * (b + d) * x == a * b * x + a * d * x + c * b * x + c * d * x;
    assert c * (a * n + b * x) == a * c * n + c * b * x;
    assert d * (a * x + b * xx) == a * d * x + b * d * xx;
  }

  lemma FitSatisfies(ys: seq<real>)
    requires |ys| >= 2
    ensures Denominator(|ys|) != 0.0
    ensures Normal(|ys| as real, SumX(|ys|), SumXX(|ys|), SumY(ys), SumXY(ys), Intercept(ys), Slope(ys))
  {
    DenominatorClosed(|ys|);
    hide Normal, SumX, SumXX, SumY, SumXY, DenominatorOf, SlopeOf, InterceptOf;
    FitNormal(|ys| as real, SumX(|ys|), SumXX(|ys|), SumY(ys), SumXY(ys), Intercept(ys), Slope(ys));
  }

  lemma Decomposes(ys: seq<real>, a0: real, b0: real, a: real, b: real)
    requires Normal(|ys| as real, SumX(|ys|), SumXX(|ys|), SumY(ys), SumXY(ys), a0, b0)
    ensures SquaredError(ys, a, b) == SquaredError(ys, a0, b0) + Spread(|ys|, a - a0, b - b0)
  {
    var n := |ys|;
    hide ErrorFromSums, Normal, SquaredError, Spread, SumX, SumXX, SumY, SumXY, SumYY;
    ErrorExpands(ys, a, b);
    ErrorExpands(ys, a0, b0);
    SpreadExpands(n, a - a0, b - b0);
    ErrorDifference(n as real, SumX(n), SumXX(n), SumY(ys), SumXY(ys), SumYY(ys), a0, b0, a - a0, b - b0);
    assert a0 + (a - a0) == a && b0 + (b - b0) == b;
  }

  /** The error of any line is the error of the fitted one plus the squared distance between them. */
  lemma FitDecomposes(ys: seq<real>, a: real, b: real)
    requires |ys| >= 2
    ensures Denominator(|ys|) != 0.0
    ensures SquaredError(ys, a, b)
         == SquaredError(ys, Intercept(ys), Slope(ys)) + Spread(|ys|, a - Intercept(ys), b - Slope(ys))
  {
    hide Normal, SquaredError, Spread, Slope, Intercept, Denominator;
    FitSatisfies(ys);
    Decomposes(ys, Intercept(ys), Slope(ys), a, b);
  }

  /** The fitted line is the one line of least squared error. */
  lemma FitIsLeast(ys: seq<real>, a: real, b: real)
    requires |ys| >= 2
    ensures Denominator(|ys|) != 0.0
    ensures SquaredError(ys, Intercept(ys), Slope(ys)) <= SquaredError(ys, a, b)
    ensures SquaredError(ys, a, b) == SquaredError(ys, Intercept(ys), Slope(ys)) ==> a == Intercept(ys) && b == Slope(ys)
  {
    hide Slope, Intercept, SquaredError, Spread, Denominator;
    FitDecomposes(ys, a, b);
    SpreadPositive(|ys|, a - Intercept(ys), b - Slope(ys));
    if SquaredError(ys, a, b) == SquaredError(ys, Intercept(ys), Slope(ys)) {
      SpreadZero(|ys|, a - Intercept(ys), b - Slope(ys));
    }
  }

  ghost predicate OnLine(ys: seq<real>, a: real, b: real) {
    forall k :: 0 <= k < |ys| ==> ys[k] == a + b * (k + 1) as real
  }

  lemma {:induction false} NoError(ys: seq<real>, a: real, b: real)
    requires OnLine(ys, a, b)
    ensures SquaredError(ys, a, b) == 0.0
  {
    if ys != [] {
      NoError(ys[..|ys| - 1], a, b);
      assert ys[|ys| - 1] == a + b * |ys| as real;
    }
  }

  lemma {:induction false} ErrorPositive(ys: seq<real>, a: real, b: real)
    ensures SquaredError(ys, a, b) >= 0.0
  {
    if ys != [] {
      ErrorPositive(ys[..|ys| - 1], a, b);
      ResidualPositive(ys[|ys| - 1], |ys| as real, a, b);
    }
  }

  lemma FitsLine(ys: seq<real>, a: real, b: real)
    requires |ys| >= 2 && OnLine(ys, a, b)
    ensures Denominator(|ys|) != 0.0 && Intercept(ys) == a && Slope(ys) == b
  {
    hide Slope, Intercept, SquaredError, Denominator;
    FitIsLeast(ys, a, b);
    NoError(ys, a, b);
    ErrorPositive(ys, Intercept(ys), Slope(ys));
  }

  /** Data on a line is continued along it, cut off at zero. */
  lemma LineContinues(ys: seq<real>, a: real, b: real)
    requires |ys| >= 2 && OnLine(ys, a, b)
    ensures var next := a + b * (|ys| + 1) as real; Predicted(ys) == if next < 0.0 then 0.0 else next
  {
    hide SlopeOf, InterceptOf, SumX, SumXX, SumY, SumXY, Denominator;
    FitsLine(ys, a, b);
  }

  /** No line has a smaller squared error. */
  ghost predicate Best(ys: seq<real>, a: real, b: real) {
    forall c, d :: SquaredError(ys, a, b) <= SquaredError(ys, c, d)
  }

  /**
    Two points or more are continued along the line of least squared error, cut off at zero; one point is repeated,
    and none gives zero.
  */
  lemma ForecastIs(ys: seq<real>, a: real, b: real)
    ensures |ys| >= 2 && Best(ys, a, b) ==>
      var next := a + b * (|ys| + 1) as real; Predicted(ys) == if next < 0.0 then 0.0 else next
    ensures |ys| == 1 ==> Predicted(ys) == ys[0]
    ensures ys == [] ==> Predicted(ys) == 0.0
  {
    hide SlopeOf, InterceptOf, SumX, SumXX, SumY, SumXY, Denominator, SquaredError;
    if |ys| >= 2 {
      FitIsLeast(ys, a, b);
    }
  }
}
