/** The memory growth of a curve is its least-squares slope (memory.go). */
module Growth {
  import opened Reports

  function X(point: MemoryPoint): real { point.connections as real }

  function Y(point: MemoryPoint): real { point.bytes as real }

  /** A product, kept apart from linear arithmetic in most proofs. */
  function Times(u: real, v: real): real { u * v }

  lemma PositiveTimes(u: real, v: real)
    requires u > 0.0 && v > 0.0
    ensures Times(u, v) > 0.0
  {
  }

  lemma NegatedTimes(u: real, v: real)
    ensures Times(u, v) == Times(-u, -v)
  {
  }

  lemma ZeroTimes(u: real)
    ensures Times(u, 0.0) == 0.0 && Times(0.0, u) == 0.0
  {
  }

  function Square(u: real): (r: real)
    ensures r >= 0.0
    ensures u != 0.0 ==> r > 0.0
    ensures u == 0.0 ==> r == 0.0
  {
    SquareSign(u);
    Times(u, u)
  }

  lemma SquareSign(u: real)
    ensures Times(u, u) >= 0.0
    ensures u != 0.0 ==> Times(u, u) > 0.0
    ensures u == 0.0 ==> Times(u, u) == 0.0
  {
    hide Times;
    ZeroTimes(u);
    if u > 0.0 {
      PositiveTimes(u, u);
    } else if u < 0.0 {
      NegatedTimes(u, u);
      PositiveTimes(-u, -u);
    }
  }

  function SumX(points: seq<MemoryPoint>): real {
    if points == [] then 0.0 else SumX(points[..|points| - 1]) + X(points[|points| - 1])
  }

  function SumY(points: seq<MemoryPoint>): real {
    if points == [] then 0.0 else SumY(points[..|points| - 1]) + Y(points[|points| - 1])
  }

  /** The sum of the products of the distances from x and from y. */
  function Covariance(points: seq<MemoryPoint>, x: real, y: real): real {
    if points == [] then 0.0
    else
      var last := points[|points| - 1];
      Covariance(points[..|points| - 1], x, y) + (X(last) - x) * (Y(last) - y)
  }

  function Variance(points: seq<MemoryPoint>, x: real): real {
    if points == [] then 0.0
    else
      var last := points[|points| - 1];
      Variance(points[..|points| - 1], x) + Square(X(last) - x)
  }

  function MeanX(points: seq<MemoryPoint>): real
    requires points != []
  {
    SumX(points) / |points| as real
  }

  function MeanY(points: seq<MemoryPoint>): real
    requires points != []
  {
    SumY(points) / |points| as real
  }

  predicate Spread(points: seq<MemoryPoint>) {
    points != [] && Variance(points, MeanX(points)) > 0.0
  }

  function Slope(points: seq<MemoryPoint>): real
    requires Spread(points)
  {
    Covariance(points, MeanX(points), MeanY(points)) / Variance(points, MeanX(points))
  }

  /** `growth`: the first point, without connections, is left out. */
  method ComputeGrowth(curve: MemoryResult) returns (growth: real)
    requires curve.points != [] && Spread(curve.points[1..])
    ensures growth == Slope(curve.points[1..])
  {
    hide SumX, SumY, Covariance, Variance;
    var points := curve.points[1..];
    NoMoments();
    var meanConnections, meanBytes := 0.0, 0.0;
    for i := 0 to |points|
      invariant meanConnections == SumX(points[..i]) && meanBytes == SumY(points[..i])
    {
      SumsNext(points, i);
      meanConnections := meanConnections + points[i].connections as real;
      meanBytes := meanBytes + points[i].bytes as real;
    }
    assert points[..|points|] == points;
    meanConnections := meanConnections / |points| as real;
    meanBytes := meanBytes / |points| as real;
    var covariance, variance := 0.0, 0.0;
    for i := 0 to |points|
      invariant covariance == Covariance(points[..i], meanConnections, meanBytes)
      invariant variance == Variance(points[..i], meanConnections)
    {
      MomentsNext(points, i, meanConnections, meanBytes);
      var connections := points[i].connections as real - meanConnections;
      covariance := covariance + connections * (points[i].bytes as real - meanBytes);
      variance := variance + connections * connections;
    }
    growth := covariance / variance;
  }

  lemma NoMoments()
    ensures SumX([]) == SumY([]) == 0.0
    ensures forall x: real :: Variance([], x) == 0.0
    ensures forall x: real, y: real :: Covariance([], x, y) == 0.0
  {
  }

  lemma SumsNext(points: seq<MemoryPoint>, i: nat)
    requires i < |points|
    ensures SumX(points[..i + 1]) == SumX(points[..i]) + X(points[i])
    ensures SumY(points[..i + 1]) == SumY(points[..i]) + Y(points[i])
  {
    assert points[..i + 1][..i] == points[..i];
  }

  lemma MomentsNext(points: seq<MemoryPoint>, i: nat, x: real, y: real)
    requires i < |points|
    ensures Covariance(points[..i + 1], x, y) == Covariance(points[..i], x, y) + (X(points[i]) - x) * (Y(points[i]) - y)
    ensures Variance(points[..i + 1], x) == Variance(points[..i], x) + Square(X(points[i]) - x)
  {
    assert points[..i + 1][..i] == points[..i];
  }

  // ----- Least squares

  ghost function SquaredResidual(point: MemoryPoint, a: real, b: real): real { Square(Y(point) - a - b * X(point)) }

  /** The sum of the squared residuals of the line a + b * x. */
  ghost function Residuals(points: seq<MemoryPoint>, a: real, b: real): real {
    if points == [] then 0.0
    else
      var last := points[|points| - 1];
      Residuals(points[..|points| - 1], a, b) + SquaredResidual(last, a, b)
  }

  ghost function SquaresY(points: seq<MemoryPoint>, y: real): real {
    if points == [] then 0.0
    else
      var last := points[|points| - 1];
      SquaresY(points[..|points| - 1], y) + Square(Y(last) - y)
  }

  /** The moments of some points about a centre. */
  datatype Moments = Moments(yy: real, xy: real, xx: real, sy: real, sx: real, n: real)

  ghost function MomentsOf(points: seq<MemoryPoint>, x: real, y: real): Moments {
    Moments(SquaresY(points, y), Covariance(points, x, y), Variance(points, x), SumY(points), SumX(points), |points| as real)
  }

  /** The moments with one more point at (px, py). */
  ghost function Added(m: Moments, x: real, y: real, px: real, py: real): Moments {
    Moments(m.yy + Square(py - y), m.xy + (px - x) * (py - y), m.xx + Square(px - x), m.sy + py, m.sx + px, m.n + 1.0)
  }

  lemma MomentsAdded(points: seq<MemoryPoint>, x: real, y: real)
    requires points != []
    ensures
      var front, last := points[..|points| - 1], points[|points| - 1];
      MomentsOf(points, x, y) == Added(MomentsOf(front, x, y), x, y, X(last), Y(last))
  {
  }

  /** Residuals in terms of the moments about a centre (x, y), for a line that passes at distance e above the centre. */
  ghost function Expansion(b: real, e: real, m: Moments, x: real, y: real): real {
    m.yy - 2.0 * b * m.xy + b * b * m.xx - 2.0 * e * (m.sy - m.n * y) + 2.0 * e * b * (m.sx - m.n * x) + m.n * (e * e)
  }

  /** How far a point is above that line. */
  ghost function Offset(px: real, py: real, x: real, y: real, b: real, e: real): real { (py - y) - b * (px - x) - e }

  lemma ExpansionAdded(b: real, e: real, m: Moments, x: real, y: real, px: real, py: real)
    ensures Expansion(b, e, Added(m, x, y, px, py), x, y)
            == Expansion(b, e, m, x, y) + Square(Offset(px, py, x, y, b, e))
  {
  }

  /** One more point adds its squared residual. */
  lemma PointExpanded(m: Moments, point: MemoryPoint, x: real, y: real, a: real, b: real, e: real)
    requires a == e + y - b * x
    ensures Expansion(b, e, Added(m, x, y, X(point), Y(point)), x, y)
            == Expansion(b, e, m, x, y) + SquaredResidual(point, a, b)
  {
    hide Expansion, Added, Square, Offset, SquaredResidual, X, Y;
    ExpansionAdded(b, e, m, x, y, X(point), Y(point));
    Residual(point, x, y, a, b, e);
  }

  lemma {:induction false} ResidualsExpanded(points: seq<MemoryPoint>, x: real, y: real, a: real, b: real, e: real)
    requires a == e + y - b * x
    ensures Residuals(points, a, b) == Expansion(b, e, MomentsOf(points, x, y), x, y)
  {
    if points == [] {
    } else {
      hide Expansion, MomentsOf, Added, SquaredResidual;
      var front, last := points[..|points| - 1], points[|points| - 1];
      ResidualsExpanded(front, x, y, a, b, e);
      MomentsAdded(points, x, y);
      PointExpanded(MomentsOf(front, x, y), last, x, y, a, b, e);
    }
  }

  lemma Residual(point: MemoryPoint, x: real, y: real, a: real, b: real, e: real)
    requires a == e + y - b * x
    ensures SquaredResidual(point, a, b) == Square(Offset(X(point), Y(point), x, y, b, e))
  {
    assert Y(point) - a - b * X(point) == Offset(X(point), Y(point), x, y, b, e);
  }

  lemma MeanTimes(sum: real, n: real)
    requires n > 0.0
    ensures n * (sum / n) == sum
  {
  }

  /** A square with a weight. */
  ghost function Weighted(weight: real, u: real): (r: real)
    ensures weight > 0.0 ==> r >= 0.0 && (u != 0.0 ==> r > 0.0) && (u == 0.0 ==> r == 0.0)
  {
    WeightedSign(weight, u);
    Times(weight, Square(u))
  }

  lemma WeightedSign(weight: real, u: real)
    ensures weight > 0.0 && u != 0.0 ==> Times(weight, Square(u)) > 0.0
    ensures u == 0.0 ==> Times(weight, Square(u)) == 0.0
  {
  }

  /** The line with the computed slope through the means starts here. */
  ghost function Intercept(points: seq<MemoryPoint>): real
    requires Spread(points)
  {
    MeanY(points) - Slope(points) * MeanX(points)
  }

  /** How far the line a + b * x passes above the means. */
  ghost function Above(points: seq<MemoryPoint>, a: real, b: real): real
    requires Spread(points)
  {
    a + b * MeanX(points) - MeanY(points)
  }

  ghost function AboutMeans(points: seq<MemoryPoint>): Moments
    requires Spread(points)
  {
    MomentsOf(points, MeanX(points), MeanY(points))
  }

  /** Around the means, any line's residuals are those of the fitted line plus two weighted squares. */
  lemma FittedLine(points: seq<MemoryPoint>, a: real, b: real)
    requires Spread(points)
    ensures
      Residuals(points, a, b)
      == Residuals(points, Intercept(points), Slope(points))
       + Weighted(AboutMeans(points).xx, b - Slope(points)) + Weighted(AboutMeans(points).n, Above(points, a, b))
  {
    hide Residuals, SquaresY, Covariance, Variance, SumX, SumY, Expansion, Weighted;
    var x, y, n := MeanX(points), MeanY(points), |points| as real;
    MeanTimes(SumX(points), n);
    MeanTimes(SumY(points), n);
    ResidualsExpanded(points, x, y, a, b, Above(points, a, b));
    ResidualsExpanded(points, x, y, Intercept(points), Slope(points), 0.0);
    Quotient(Covariance(points, x, y), Variance(points, x));
    Difference(b, Slope(points), Above(points, a, b), AboutMeans(points), x, y);
  }

  lemma Difference(b: real, s: real, e: real, m: Moments, x: real, y: real)
    requires m.n * x == m.sx && m.n * y == m.sy && s * m.xx == m.xy
    ensures Expansion(b, e, m, x, y) == Expansion(s, 0.0, m, x, y) + Weighted(m.xx, b - s) + Weighted(m.n, e)
  {
  }

  lemma Quotient(u: real, v: real)
    requires v > 0.0
    ensures (u / v) * v == u
  {
  }

  /** Every other line has larger residuals than the one with the computed slope through the means. */
  lemma LeastSquares(points: seq<MemoryPoint>, a: real, b: real)
    requires Spread(points)
    ensures b != Slope(points) || a != Intercept(points) ==>
      Residuals(points, Intercept(points), Slope(points)) < Residuals(points, a, b)
  {
    hide Residuals, Variance, SquaresY, Covariance, SumX, SumY, Weighted;
    FittedLine(points, a, b);
    if b == Slope(points) {
      assert Above(points, a, b) == a - Intercept(points);
    }
  }

  lemma {:induction false} ResidualsNonnegative(points: seq<MemoryPoint>, a: real, b: real)
    ensures Residuals(points, a, b) >= 0.0
    ensures (forall i :: 0 <= i < |points| ==> Y(points[i]) == a + b * X(points[i])) ==> Residuals(points, a, b) == 0.0
  {
    if points != [] {
      ResidualsNonnegative(points[..|points| - 1], a, b);
    }
  }

  /** On data that lie on a line, the slope is recovered exactly. */
  lemma LinearData(points: seq<MemoryPoint>, a: real, b: real)
    requires Spread(points) && forall i :: 0 <= i < |points| ==> Y(points[i]) == a + b * X(points[i])
    ensures Slope(points) == b
  {
    LeastSquares(points, a, b);
    ResidualsNonnegative(points, a, b);
    ResidualsNonnegative(points, Intercept(points), Slope(points));
  }

  // ----- Where it is defined

  /** The slope is defined exactly when two of the points differ in their connections. */
  lemma SpreadExactly(points: seq<MemoryPoint>)
    ensures Spread(points) <==> exists i, j :: 0 <= i < j < |points| && points[i].connections != points[j].connections
  {
    hide Variance, MeanX;
    if points != [] {
      var mean := MeanX(points);
      VarianceZero(points, mean);
      if i, j :| 0 <= i < j < |points| && points[i].connections != points[j].connections {
        var k := if X(points[i]) != mean then i else j;
        assert X(points[k]) != mean;
      } else {
        var x := X(points[0]);
        assert forall k :: 0 <= k < |points| ==> X(points[k]) == x;
        SameMean(points, x);
      }
    }
  }

  lemma {:induction false} VarianceZero(points: seq<MemoryPoint>, x: real)
    ensures Variance(points, x) >= 0.0
    ensures (forall i :: 0 <= i < |points| ==> X(points[i]) == x) ==> Variance(points, x) == 0.0
    ensures (exists i :: 0 <= i < |points| && X(points[i]) != x) ==> Variance(points, x) > 0.0
  {
    if points != [] {
      var front, last := points[..|points| - 1], points[|points| - 1];
      VarianceZero(front, x);
    }
  }

  lemma {:induction false} SameSum(points: seq<MemoryPoint>, x: real)
    requires forall i :: 0 <= i < |points| ==> X(points[i]) == x
    ensures SumX(points) == |points| as real * x
  {
    if points != [] {
      SameSum(points[..|points| - 1], x);
      assert |points| as real == |points[..|points| - 1]| as real + 1.0;
    }
  }

  lemma SameMean(points: seq<MemoryPoint>, x: real)
    requires points != [] && forall i :: 0 <= i < |points| ==> X(points[i]) == x
    ensures MeanX(points) == x
  {
    hide SumX;
    SameSum(points, x);
    MeanOfSame(|points| as real, x);
  }

  lemma MeanOfSame(n: real, x: real)
    requires n > 0.0
    ensures (n * x) / n == x
  {
  }

  /** A passed curve that `validate` accepts has exactly the five points of the curve, and its growth is defined. */
  lemma PassedCurve(curve: MemoryResult)
    requires ValidMemory(curve, Passed)
    ensures |curve.points| == 5 && forall i :: 0 <= i < 5 ==> curve.points[i].connections == 250 * i
    ensures Spread(curve.points[1..])
  {
    var tail := curve.points[1..];
    assert tail[0].connections == 250 && tail[1].connections == 500;
    SpreadExactly(tail);
  }
}
