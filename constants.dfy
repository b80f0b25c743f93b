/** Geometric helpers of the simulator: tolerance tests, squared distance, the distance relation
    and the intersection of two lines given by slope and point. Doubles are modelled as reals;
    a double that may be NaN or infinite is a `Double`. */
module Constants {

  /** A point of the plane. */
  datatype Point = Point(x: real, y: real)

  /** A double that is either a finite value or one of NaN, +Infinity and -Infinity. */
  datatype Double = Finite(value: real) | NonFinite

  /** A point whose coordinates may be NaN or infinite, as solveViaIntersectingLines returns. */
  datatype XPoint = XPoint(x: Double, y: Double)

  /** The point solveViaIntersectingLines returns when the lines do not meet. */
  const NoIntersection: XPoint := XPoint(NonFinite, NonFinite)

  /** The tolerance written `10e-12`, which is 1e-11. */
  const EpsilonSame: real := 0.00000000001

  /** The slope above which a line counts as vertical, written `10e9`, which is 1e10. */
  const MaxSlope: real := 10000000000.0

  function Abs(x: real): (r: real)
    ensures r >= 0.0 && (r == x || r == -x)
  {
    if x < 0.0 then -x else x
  }

  /** `sameCloseZero(x1)`: x1 is within the tolerance of zero. */
  predicate SameCloseZero(x1: real): (r: bool)
    ensures r <==> -EpsilonSame < x1 < EpsilonSame
  {
    Abs(x1) < EpsilonSame
  }

  /** `sameCloseZero(x1, x2)`: the two values are within the tolerance of each other. */
  predicate SameClose(x1: real, x2: real): (r: bool)
    // the test does not depend on the order of its arguments
    ensures r <==> -EpsilonSame < x2 - x1 < EpsilonSame
  {
    SameCloseZero(x1 - x2)
  }

  lemma SameCloseSymmetric(x1: real, x2: real)
    ensures SameClose(x1, x2) <==> SameClose(x2, x1)
    ensures SameClose(x1, x2) <==> SameCloseZero(x2 - x1)
  {
  }

  /** `distanceSqared`; the second point defaults to the origin. */
  function DistanceSquared(x1: real, y1: real, x2: real := 0.0, y2: real := 0.0): (r: real)
    ensures r >= 0.0
  {
    SumOfSquares(x1 - x2, y1 - y2);
    (x1 - x2) * (x1 - x2) + (y1 - y2) * (y1 - y2)
  }

  /** The overload of `distanceSqared` on two points. */
  function DistanceSquaredBetween(point1: Point, point2: Point): (r: real)
    ensures r == DistanceSquared(point2.x, point2.y, point1.x, point1.y)
  {
    DistanceSquaredSymmetric(point1.x, point1.y, point2.x, point2.y);
    DistanceSquared(point1.x, point1.y, point2.x, point2.y)
  }

  lemma SquareNonNegative(a: real)
    ensures a * a >= 0.0
  {
    if a < 0.0 {
      assert a * a == (-a) * (-a);
    }
  }

  lemma SumOfSquares(a: real, b: real)
    ensures a * a + b * b >= 0.0
  {
    SquareNonNegative(a);
    SquareNonNegative(b);
  }

  /** Squares of non-negative reals are strictly increasing. */
  lemma SquareMonotonic(d: real, e: real)
    requires 0.0 <= d < e
    ensures d * d < e * e
  {
    assert d * (e - d) >= 0.0;
    assert e * (e - d) > 0.0;
  }

  /** Identical points are at squared distance zero. */
  lemma DistanceSquaredSamePoint(x1: real, y1: real)
    ensures DistanceSquared(x1, y1, x1, y1) == 0.0
  {
  }

  lemma DistanceSquaredSymmetric(x1: real, y1: real, x2: real, y2: real)
    ensures DistanceSquared(x1, y1, x2, y2) == DistanceSquared(x2, y2, x1, y1)
  {
    assert (x1 - x2) * (x1 - x2) == (x2 - x1) * (x2 - x1);
    assert (y1 - y2) * (y1 - y2) == (y2 - y1) * (y2 - y1);
  }

  lemma DistanceSquaredToOrigin(x1: real, y1: real)
    ensures DistanceSquared(x1, y1) == x1 * x1 + y1 * y1
  {
  }

  /** What `distance` returns: `Math.Sqrt` of the squared distance, the non-negative root. */
  predicate IsDistance(d: real, x1: real, y1: real, x2: real := 0.0, y2: real := 0.0)
  {
    d >= 0.0 && d * d == DistanceSquared(x1, y1, x2, y2)
  }

  /** The root is unique, so `distance` is determined by its two points. */
  lemma DistanceUnique(d: real, e: real, x1: real, y1: real, x2: real, y2: real)
    requires IsDistance(d, x1, y1, x2, y2) && IsDistance(e, x1, y1, x2, y2)
    ensures d == e
  {
    if d < e {
      SquareMonotonic(d, e);
    } else if e < d {
      SquareMonotonic(e, d);
    }
  }

  lemma DistanceSymmetric(d: real, x1: real, y1: real, x2: real, y2: real)
    requires IsDistance(d, x1, y1, x2, y2)
    ensures IsDistance(d, x2, y2, x1, y1)
  {
    DistanceSquaredSymmetric(x1, y1, x2, y2);
  }

  /** The distance from a point to itself is zero. */
  lemma DistanceSamePoint(d: real, x1: real, y1: real)
    requires IsDistance(d, x1, y1, x1, y1)
    ensures d == 0.0
  {
    DistanceSquaredSamePoint(x1, y1);
    assert IsDistance(0.0, x1, y1, x1, y1);
    DistanceUnique(d, 0.0, x1, y1, x1, y1);
  }

  /** `angle(startX, startY, endX, endY)`: `Math.Atan2(endY - startY, endX - startX)`, with the
      arctangent left uninterpreted. */
  function Angle(startX: real, startY: real, endX: real, endY: real, atan2: (real, real) -> real): real
  {
    atan2(endY - startY, endX - startX)
  }

  /** The angle depends only on the offset from start to end: moving both points by the same
      amount leaves it unchanged. */
  lemma AngleDependsOnOffset(startX: real, startY: real, endX: real, endY: real, dx: real, dy: real, atan2: (real, real) -> real)
    ensures Angle(startX + dx, startY + dy, endX + dx, endY + dy, atan2) == Angle(startX, startY, endX, endY, atan2)
  {
    assert (endY + dy) - (startY + dy) == endY - startY;
    assert (endX + dx) - (startX + dx) == endX - startX;
  }

  /** `q` lies on the line through `p` with the given slope. */
  predicate OnLine(p: Point, slope: real, q: Point)
  {
    q.y - p.y == slope * (q.x - p.x)
  }

  /** `sameCloseZero(slopeA, slopeB)` on doubles: NaN and infinite differences are never close. */
  predicate SameSlope(slopeA: Double, slopeB: Double)
  {
    slopeA.Finite? && slopeB.Finite? && SameClose(slopeA.value, slopeB.value)
  }

  /** `verticalSlope`: NaN, infinite, or steeper than MaxSlope. */
  predicate VerticalSlope(slope: Double): (r: bool)
    ensures r <==> slope.NonFinite? || slope.value < -MaxSlope || MaxSlope < slope.value
  {
    slope.NonFinite? || Abs(slope.value) > MaxSlope
  }

  predicate Coincident(ptA: Point, ptB: Point)
  {
    SameClose(ptA.x, ptB.x) && SameClose(ptA.y, ptB.y)
  }

  /** `solveViaIntersectingLines`: where the line through ptA with slopeA meets the line through
      ptB with slopeB. */
  function SolveViaIntersectingLines(slopeA: Double, ptA: Point, slopeB: Double, ptB: Point): (r: XPoint)
    // coincident points win over every slope test
    ensures Coincident(ptA, ptB) ==> r == XPoint(Finite(ptA.x), Finite(ptA.y))
    // parallel lines through distinct points do not meet
    ensures !Coincident(ptA, ptB) && SameSlope(slopeA, slopeB) ==> r == NoIntersection
    // a vertical line A: the point of line B straight above or below ptA
    ensures !Coincident(ptA, ptB) && !SameSlope(slopeA, slopeB) && VerticalSlope(slopeA) ==>
      r.x == Finite(ptA.x) &&
      (slopeB.Finite? <==> r.y.Finite?) &&
      (slopeB.Finite? ==> OnLine(ptB, slopeB.value, Point(ptA.x, r.y.value)))
    // a vertical line B: the point of line A straight above or below ptB
    ensures !Coincident(ptA, ptB) && !SameSlope(slopeA, slopeB) && !VerticalSlope(slopeA) && VerticalSlope(slopeB) ==>
      r.x == Finite(ptB.x) && r.y.Finite? &&
      OnLine(ptA, slopeA.value, Point(ptB.x, r.y.value))
    // otherwise the single point on both lines
    ensures !Coincident(ptA, ptB) && !SameSlope(slopeA, slopeB) && !VerticalSlope(slopeA) && !VerticalSlope(slopeB) ==>
      r.x.Finite? && r.y.Finite? &&
      OnLine(ptA, slopeA.value, Point(r.x.value, r.y.value)) &&
      OnLine(ptB, slopeB.value, Point(r.x.value, r.y.value))
  {
    if Coincident(ptA, ptB) then XPoint(Finite(ptA.x), Finite(ptA.y))
    else if SameSlope(slopeA, slopeB) then NoIntersection
    else if VerticalSlope(slopeA) then
      // offsetB is NaN or infinite when slopeB is, and so is the y it yields
      if slopeB.NonFinite? then XPoint(Finite(ptA.x), NonFinite)
      else
        var y := LineAt(ptB, slopeB.value, ptA.x);
        XPoint(Finite(ptA.x), Finite(y))
    else if VerticalSlope(slopeB) then
      var y := LineAt(ptA, slopeA.value, ptB.x);
      XPoint(Finite(ptB.x), Finite(y))
    else
      var x := CrossingX(ptA, slopeA.value, ptB, slopeB.value);
      var y := LineAt(ptA, slopeA.value, x);
      XPoint(Finite(x), Finite(y))
  }

  /** `slope * x + offset`, where `offset = p.y - slope * p.x` is the line's y-intercept. */
  function LineAt(p: Point, slope: real, x: real): (y: real)
    ensures OnLine(p, slope, Point(x, y))
  {
    var offset := p.y - slope * p.x;
    assert slope * x + offset - p.y == slope * (x - p.x);
    slope * x + offset
  }

  /** `(offsetB - offsetA) / (slopeA - slopeB)`: the x at which the two lines cross. */
  function CrossingX(ptA: Point, a: real, ptB: Point, b: real): (x: real)
    requires a != b
    ensures LineAt(ptA, a, x) == LineAt(ptB, b, x)
  {
    var offsetA := ptA.y - a * ptA.x;
    var offsetB := ptB.y - b * ptB.x;
    var x := (offsetB - offsetA) / (a - b);
    assert (a - b) * x == offsetB - offsetA;
    assert a * x + offsetA == b * x + offsetB;
    x
  }
}
