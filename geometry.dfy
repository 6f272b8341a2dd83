/**
  Points and lines of the quickhull engine: the `Point` and `Line` classes of
  ConvexHull/Program.cs. Coordinates are exact reals instead of doubles.
 */
module Geometry {

  /** Stands in for a nullable `Point` reference. */
  datatype Option<T> = None | Some(value: T)

  /** A point of the plane. The display label of the source is not modelled. */
  datatype Point = Point(x: real, y: real)

  /**
    The line y = a * x + b together with the two points it was built from
    (`A`, `B`, `pointA`, `pointB` of the source; no field is ever changed
    after construction, so the line is a value).
   */
  datatype Line = Line(a: real, b: real, pointA: Point, pointB: Point)

  function Abs(r: real): real { if r < 0.0 then -r else r }

  function Sign(r: real): int { if r > 0.0 then 1 else if r < 0.0 then -1 else 0 }

  /** How far p lies above the line, measured vertically (negative below it). */
  function Height(l: Line, p: Point): real
  {
    p.y - (l.a * p.x + l.b)
  }

  /** Twice the signed area of the triangle p, q, r: the cross product (q - p) x (r - p). */
  function Orient(p: Point, q: Point, r: Point): real
  {
    (q.x - p.x) * (r.y - p.y) - (q.y - p.y) * (r.x - p.x)
  }

  lemma CancelNonZero(u: real, d: real)
    requires d != 0.0 && u * d == 0.0
    ensures u == 0.0
  {
  }

  /** The slope and intercept chosen by `Line(Point, Point)` fit both points. */
  lemma SlopeInterceptFit(p: Point, q: Point)
    requires p.x != q.x
    ensures var d := q.x - p.x;
            var a := (q.y - p.y) / d;
            var b := (q.x * p.y - p.x * q.y) / d;
            p.y == a * p.x + b && q.y == a * q.x + b
  {
    var d := q.x - p.x;
    var a := (q.y - p.y) / d;
    var b := (q.x * p.y - p.x * q.y) / d;
    assert a * d == q.y - p.y;
    assert b * d == q.x * p.y - p.x * q.y;
    assert (p.y - (a * p.x + b)) * d == p.y * d - (a * d) * p.x - b * d;
    CancelNonZero(p.y - (a * p.x + b), d);
    assert (q.y - (a * q.x + b)) * d == q.y * d - (a * d) * q.x - b * d;
    CancelNonZero(q.y - (a * q.x + b), d);
  }

  /**
    `Line(Point A, Point B)`: the slope (B.Y - A.Y) / (B.X - A.X) and the
    intercept (B.X * A.Y - A.X * B.Y) / (B.X - A.X). The source divides by
    B.X - A.X, so the two points must have distinct x; the line then passes
    through both of them.
   */
  function MakeLine(p: Point, q: Point): (l: Line)
    requires p.x != q.x
    ensures l.pointA == p && l.pointB == q
    ensures Height(l, p) == 0.0 && Height(l, q) == 0.0
    ensures ValidLine(l)
  {
    SlopeInterceptFit(p, q);
    Line((q.y - p.y) / (q.x - p.x), (q.x * p.y - p.x * q.y) / (q.x - p.x), p, q)
  }

  /** A line as the model builds it: through its two points, which have distinct x. */
  ghost predicate ValidLine(l: Line)
  {
    l.pointA.x != l.pointB.x && Height(l, l.pointA) == 0.0 && Height(l, l.pointB) == 0.0
  }

  /**
    `Line.CheckIfAbove`: compares the y of the line at p.x with p.y and
    answers 1 (p above), -1 (p below) or 0 (p on the line).
   */
  function CheckIfAbove(l: Line, p: Point): (r: int)
    ensures r == 0 || r == 1 || r == -1
    ensures r == 0 <==> p.y == l.a * p.x + l.b
    ensures r == 1 <==> p.y > l.a * p.x + l.b
    ensures r == -1 <==> p.y < l.a * p.x + l.b
  {
    var lineY := l.a * p.x + l.b;
    if lineY == p.y then 0
    else if lineY < p.y then 1
    else -1
  }

  /** The line built from two points of distinct x classifies both of them as on the line. */
  lemma EndpointsOnLine(p: Point, q: Point)
    requires p.x != q.x
    ensures CheckIfAbove(MakeLine(p, q), p) == 0 && CheckIfAbove(MakeLine(p, q), q) == 0
  {
  }

  /** On a line through two points of distinct x, the vertical offset scaled by the run is the cross product. */
  lemma {:induction false} HeightScaled(l: Line, p: Point)
    requires ValidLine(l)
    ensures Height(l, p) * (l.pointB.x - l.pointA.x) == Orient(l.pointA, l.pointB, p)
  {
    var A, B := l.pointA, l.pointB;
    assert A.y == l.a * A.x + l.b && B.y == l.a * B.x + l.b;
    assert Height(l, p) == (p.y - A.y) - l.a * (p.x - A.x);
    assert l.a * (B.x - A.x) == B.y - A.y;
    calc {
      Height(l, p) * (B.x - A.x);
      (p.y - A.y) * (B.x - A.x) - (l.a * (B.x - A.x)) * (p.x - A.x);
      (p.y - A.y) * (B.x - A.x) - (B.y - A.y) * (p.x - A.x);
    }
  }

  lemma SignOfProduct(u: real, d: real)
    ensures Sign(u * d) == Sign(u) * Sign(d)
  {
    if u > 0.0 && d > 0.0 { assert u * d > 0.0; }
    if u > 0.0 && d < 0.0 { assert u * d < 0.0; }
    if u < 0.0 && d > 0.0 { assert u * d < 0.0; }
    if u < 0.0 && d < 0.0 { assert u * d > 0.0; }
  }

  /**
    The slope-intercept test agrees with the orientation of p against the
    directed segment pointA -> pointB: p is above exactly when the cross
    product has the sign of the run pointB.x - pointA.x.
   */
  lemma CheckIfAboveMatchesOrient(l: Line, p: Point)
    requires ValidLine(l)
    ensures CheckIfAbove(l, p) == Sign(Orient(l.pointA, l.pointB, p)) * Sign(l.pointB.x - l.pointA.x)
  {
    HeightScaled(l, p);
    SignOfProduct(Height(l, p), l.pointB.x - l.pointA.x);
  }

  /**
    `Line.CalculateDistance` without its divisor: the source divides
    |(B.Y - A.Y) * x - (B.X - A.X) * y + B.X * A.Y - B.Y * A.X| by the length
    of AB, a positive constant of the line, so this value orders points
    exactly as the distance does.
   */
  function CalculateDistance(l: Line, p: Point): (r: real)
    ensures r >= 0.0
    ensures r == Abs(Orient(l.pointA, l.pointB, p))
  {
    var A, B := l.pointA, l.pointB;
    Abs((B.y - A.y) * p.x - (B.x - A.x) * p.y + B.x * A.y - B.y * A.x)
  }

  lemma AbsOfProduct(u: real, d: real)
    ensures Abs(u * d) == Abs(u) * Abs(d)
  {
    if u >= 0.0 && d >= 0.0 { assert u * d >= 0.0; }
    if u >= 0.0 && d < 0.0 { assert u * d <= 0.0; }
    if u < 0.0 && d >= 0.0 { assert u * d <= 0.0; }
    if u < 0.0 && d < 0.0 { assert u * d > 0.0; }
  }

  /** The scaled distance is the vertical offset times the run of the line, so it is zero exactly on the line. */
  lemma DistanceIsScaledHeight(l: Line, p: Point)
    requires ValidLine(l)
    ensures CalculateDistance(l, p) == Abs(Height(l, p)) * Abs(l.pointB.x - l.pointA.x)
    ensures CalculateDistance(l, p) == 0.0 <==> CheckIfAbove(l, p) == 0
  {
    HeightScaled(l, p);
    AbsOfProduct(Height(l, p), l.pointB.x - l.pointA.x);
    if Height(l, p) != 0.0 {
      assert Abs(Height(l, p)) > 0.0 && Abs(l.pointB.x - l.pointA.x) > 0.0;
      assert Abs(Height(l, p)) * Abs(l.pointB.x - l.pointA.x) > 0.0;
    }
  }

  /** p is a farthest point of points from l, at a strictly positive distance. */
  ghost predicate IsFurthest(l: Line, points: set<Point>, p: Point)
  {
    p in points && CalculateDistance(l, p) > 0.0 &&
    forall q :: q in points ==> CalculateDistance(l, q) <= CalculateDistance(l, p)
  }

  /** order lists the elements of points, each once. */
  ghost predicate Enumerates(order: seq<Point>, points: set<Point>)
  {
    (forall p :: p in points <==> p in order) &&
    (forall i, j :: 0 <= i < j < |order| ==> order[i] != order[j])
  }

  /**
    `Line.FindFurthest`: scans the set, keeping the first point whose
    distance is strictly greater than the best so far (which starts at 0).
    The ghost `order` is the order the scan visited the points in and `k`
    the position of the answer in it.
   */
  method FindFurthest(l: Line, points: set<Point>) returns (furthest: Option<Point>, ghost order: seq<Point>, ghost k: nat)
    ensures Enumerates(order, points)
    ensures furthest.None? <==> forall p :: p in points ==> CalculateDistance(l, p) == 0.0
    ensures furthest.Some? ==> IsFurthest(l, points, furthest.value)
    ensures furthest.Some? ==> k < |order| && order[k] == furthest.value &&
                               forall i :: 0 <= i < k ==> CalculateDistance(l, order[i]) < CalculateDistance(l, order[k])
  {
    furthest := None;
    var maxDistance: real := 0.0;
    var rest := points;
    order, k := [], 0;
    while rest != {}
      invariant rest <= points
      invariant forall p :: p in points <==> p in rest || p in order
      invariant forall p :: p in order ==> p !in rest
      invariant forall i, j :: 0 <= i < j < |order| ==> order[i] != order[j]
      invariant forall p :: p in order ==> CalculateDistance(l, p) <= maxDistance
      invariant furthest.None? ==> maxDistance == 0.0
      invariant furthest.Some? ==> k < |order| && order[k] == furthest.value &&
                                   maxDistance == CalculateDistance(l, furthest.value) > 0.0 &&
                                   forall i :: 0 <= i < k ==> CalculateDistance(l, order[i]) < maxDistance
      decreases rest
    {
      var point :| point in rest;
      var distance := CalculateDistance(l, point);
      if distance > maxDistance {
        furthest, maxDistance, k := Some(point), distance, |order|;
      }
      order := order + [point];
      rest := rest - {point};
    }
  }
}
