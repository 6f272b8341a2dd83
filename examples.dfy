/**
  Concrete inputs: the two on which the source's `FindConvexPoints` and
  `FindConvexHull` go wrong, given to the as-written and the corrected
  models, and small hulls (a triangle, collinear points, a pentagon)
  computed by the corrected driver.
 */
module Examples {
  import opened Geometry
  import opened Convexity
  import opened Quickhull

  /** Above the border y = 0 through (0, 0) and (10, 0), (5, 10) is farther than (1, 5) and (9, 5). */
  lemma ApexIsOnlyFurthest()
    ensures IsOnlyFurthest(Line(0.0, 0.0, Point(0.0, 0.0), Point(10.0, 0.0)),
                           {Point(1.0, 5.0), Point(5.0, 10.0), Point(9.0, 5.0)}, Point(5.0, 10.0))
  {
  }

  /** (1, 5) is beyond the edge from (0, 0) to the apex and (9, 5) beyond the edge from (10, 0) to it. */
  lemma ApexSplitsBoth()
    ensures SplitsBoth({Point(1.0, 5.0), Point(5.0, 10.0), Point(9.0, 5.0)},
                       Line(0.0, 0.0, Point(0.0, 0.0), Point(10.0, 0.0)), Point(5.0, 10.0), '+')
  {
    assert Beyond(Point(0.0, 0.0), Point(5.0, 10.0), Point(1.0, 5.0), '+');
    assert Beyond(Point(10.0, 0.0), Point(5.0, 10.0), Point(9.0, 5.0), '+');
  }

  /** The apex is a vertex of the pentagon: the horizontal line through it has every point below. */
  lemma ApexOnHull()
    ensures OnHullBoundary({Point(0.0, 0.0), Point(10.0, 0.0), Point(1.0, 5.0), Point(5.0, 10.0), Point(9.0, 5.0)},
                           Point(5.0, 10.0))
  {
    assert Supports({Point(0.0, 0.0), Point(10.0, 0.0), Point(1.0, 5.0), Point(5.0, 10.0), Point(9.0, 5.0)},
                    Point(5.0, 10.0), 0.0, 1.0);
  }

  /**
    The call on the pentagon's upper part, over the border y = 0 through
    (0, 0) and (10, 0), is valid for both recursions, and (5, 10) is its
    one farthest point, with a point beyond each new edge.
   */
  lemma ApexCallValid(border: Line, points: set<Point>)
    requires border == Line(0.0, 0.0, Point(0.0, 0.0), Point(10.0, 0.0))
    requires points == {Point(1.0, 5.0), Point(5.0, 10.0), Point(9.0, 5.0)}
    ensures ValidLine(border)
    ensures DistinctX(points + {border.pointA, border.pointB})
    ensures exists p :: p in points && CheckIfAbove(border, p) != 0
    ensures IsOnlyFurthest(border, points, Point(5.0, 10.0))
    ensures SplitsBoth(points, border, Point(5.0, 10.0), '+')
    ensures forall g :: IsFurthest(border, points, g) ==> g == Point(5.0, 10.0)
  {
    ApexIsOnlyFurthest();
    ApexSplitsBoth();
    assert CheckIfAbove(border, Point(5.0, 10.0)) != 0;
  }

  /**
    The pentagon's upper call: border (0, 0)-(10, 0) with (1, 5), (5, 10)
    and (9, 5) above it. The result states what the recursions need of it.
   */
  method ApexInput() returns (border: Line, points: set<Point>)
    ensures ValidLine(border)
    ensures DistinctX(points + {border.pointA, border.pointB})
    ensures exists p :: p in points && CheckIfAbove(border, p) != 0
    ensures IsOnlyFurthest(border, points, Point(5.0, 10.0))
    ensures SplitsBoth(points, border, Point(5.0, 10.0), '+')
    ensures forall g :: IsFurthest(border, points, g) ==> g == Point(5.0, 10.0)
  {
    border := Line(0.0, 0.0, Point(0.0, 0.0), Point(10.0, 0.0));
    points := {Point(1.0, 5.0), Point(5.0, 10.0), Point(9.0, 5.0)};
    ApexCallValid(border, points);
  }

  /** On the pentagon's upper call the as-written recursion loses the apex (5, 10), a vertex of the hull, and the corrected one keeps it. */
  method DroppedApexExample() returns (asWritten: set<Point>, corrected: set<Point>)
    ensures Point(5.0, 10.0) !in asWritten
    ensures Point(5.0, 10.0) in corrected
  {
    var border, points := ApexInput();
    asWritten := FindConvexPointsAsWritten(points, border, '+');
    corrected := FindConvexPoints({}, points, border, '+');
  }

  /** The triangle (0, 0), (4, 0), (2, 4) has extremes (0, 0) and (4, 0), and no point right of the segment between them. */
  lemma TriangleHasNothingBelow()
    ensures var list := [Point(0.0, 0.0), Point(4.0, 0.0), Point(2.0, 4.0)];
            FindMinAndMax(list) == (Point(0.0, 0.0), Point(4.0, 0.0)) &&
            forall p :: p in list ==> Orient(Point(0.0, 0.0), Point(4.0, 0.0), p) >= 0.0
  {
    var list := [Point(0.0, 0.0), Point(4.0, 0.0), Point(2.0, 4.0)];
    assert list[1..][1..] == [Point(2.0, 4.0)];
    assert FindMinAndMax(list[1..]) == (Point(2.0, 4.0), Point(4.0, 0.0));
  }

  /** (2, 4) is a vertex of the triangle: the horizontal line through it has the other two points strictly below. */
  lemma TriangleApexIsVertex()
    ensures IsVertex({Point(0.0, 0.0), Point(4.0, 0.0), Point(2.0, 4.0)}, Point(2.0, 4.0))
  {
    assert StrictlySupports({Point(0.0, 0.0), Point(4.0, 0.0), Point(2.0, 4.0)}, Point(2.0, 4.0), 0.0, 1.0);
  }

  /** The corrected driver returns the whole triangle, where the source throws. */
  method TriangleExample() returns (hull: set<Point>)
    ensures hull == {Point(0.0, 0.0), Point(4.0, 0.0), Point(2.0, 4.0)}
  {
    var list := [Point(0.0, 0.0), Point(4.0, 0.0), Point(2.0, 4.0)];
    TriangleHasNothingBelow();
    TriangleApexIsVertex();
    assert ToSet(list) == {Point(0.0, 0.0), Point(4.0, 0.0), Point(2.0, 4.0)};
    hull := FindConvexHull(list);
  }

  /** The extremes of four points on the x-axis are the first and the last. */
  lemma CollinearExtremes()
    ensures FindMinAndMax([Point(0.0, 0.0), Point(1.0, 0.0), Point(2.0, 0.0), Point(3.0, 0.0)]) ==
            (Point(0.0, 0.0), Point(3.0, 0.0))
  {
    var list := [Point(0.0, 0.0), Point(1.0, 0.0), Point(2.0, 0.0), Point(3.0, 0.0)];
    assert list[1..][1..][1..] == [Point(3.0, 0.0)];
    assert FindMinAndMax(list[1..][1..]) == (Point(2.0, 0.0), Point(3.0, 0.0));
    assert FindMinAndMax(list[1..]) == (Point(1.0, 0.0), Point(3.0, 0.0));
  }

  /** Four points on the x-axis: distinct in x, extremes (0, 0) and (3, 0), every point on the line between them. */
  method CollinearInput() returns (list: seq<Point>)
    ensures DistinctX(ToSet(list))
    ensures list != [] && FindMinAndMax(list) == (Point(0.0, 0.0), Point(3.0, 0.0))
    ensures forall r :: r in ToSet(list) ==> Orient(Point(0.0, 0.0), Point(3.0, 0.0), r) == 0.0
  {
    list := [Point(0.0, 0.0), Point(1.0, 0.0), Point(2.0, 0.0), Point(3.0, 0.0)];
    CollinearExtremes();
    assert ToSet(list) == {Point(0.0, 0.0), Point(1.0, 0.0), Point(2.0, 0.0), Point(3.0, 0.0)};
  }

  /** Points on one line give only the two extremes: the points between them are on the border and never selected. */
  method CollinearExample() returns (hull: set<Point>)
    ensures hull == {Point(0.0, 0.0), Point(3.0, 0.0)}
  {
    var list := CollinearInput();
    hull := FindConvexHull(list);
  }

  /**
    Three points tied at the greatest distance above the border y = 0
    through (0, 0) and (10, 0): the middle one, (5, 5), may be the one the
    scan returns, it splits both ways, and it is not a corner of the input
    (5, -5) completes, since it lies inside the edge from (3, 5) to (7, 5).
    The source then drops it and the corrected recursion keeps it.
   */
  lemma TiedMiddleNotVertex(border: Line, points: set<Point>, s: set<Point>)
    requires border == Line(0.0, 0.0, Point(0.0, 0.0), Point(10.0, 0.0))
    requires points == {Point(3.0, 5.0), Point(5.0, 5.0), Point(7.0, 5.0)}
    requires s == points + {Point(0.0, 0.0), Point(10.0, 0.0), Point(5.0, -5.0)}
    ensures IsFurthest(border, points, Point(5.0, 5.0))
    ensures SplitsBoth(points, border, Point(5.0, 5.0), '+')
    ensures Point(5.0, 5.0) in s && !IsVertex(s, Point(5.0, 5.0))
  {
    TiedAtTop(border, points);
    assert Beyond(Point(0.0, 0.0), Point(5.0, 5.0), Point(3.0, 5.0), '+');
    assert Beyond(Point(10.0, 0.0), Point(5.0, 5.0), Point(7.0, 5.0), '+');
    OnSegmentNotVertex(s, Point(3.0, 5.0), Point(7.0, 5.0), Point(5.0, 5.0));
  }

  /** The three points at height 5 above y = 0 all lie at the greatest distance. */
  lemma TiedAtTop(border: Line, points: set<Point>)
    requires border == Line(0.0, 0.0, Point(0.0, 0.0), Point(10.0, 0.0))
    requires points == {Point(3.0, 5.0), Point(5.0, 5.0), Point(7.0, 5.0)}
    ensures IsFurthest(border, points, Point(5.0, 5.0))
  {
    forall q | q in points
      ensures CalculateDistance(border, q) == 50.0
    {
      DistanceFromXAxis(border, q);
      assert q.y == 5.0;
    }
  }

  /** Over the border y = 0 through (0, 0) and (10, 0), the distance of a point is ten times its height. */
  lemma DistanceFromXAxis(border: Line, q: Point)
    requires border == Line(0.0, 0.0, Point(0.0, 0.0), Point(10.0, 0.0))
    ensures CalculateDistance(border, q) == Abs(10.0 * q.y)
  {
    assert Orient(border.pointA, border.pointB, q) == 10.0 * q.y;
  }

  /** Each corner of the pentagon is its only farthest point in some direction. */
  lemma PentagonVertices(s: set<Point>)
    requires s == {Point(0.0, 0.0), Point(10.0, 0.0), Point(1.0, 5.0), Point(5.0, 10.0), Point(9.0, 5.0)}
    ensures forall p :: p in s ==> IsVertex(s, p)
  {
    assert StrictlySupports(s, Point(0.0, 0.0), -1.0, 0.0);
    assert StrictlySupports(s, Point(10.0, 0.0), 1.0, 0.0);
    assert StrictlySupports(s, Point(1.0, 5.0), -2.0, 1.0);
    assert StrictlySupports(s, Point(5.0, 10.0), 0.0, 1.0);
    assert StrictlySupports(s, Point(9.0, 5.0), 2.0, 1.0);
  }

  /** No two corners of the pentagon share an x coordinate. */
  lemma PentagonDistinctX(s: set<Point>)
    requires s == {Point(0.0, 0.0), Point(10.0, 0.0), Point(1.0, 5.0), Point(5.0, 10.0), Point(9.0, 5.0)}
    ensures DistinctX(s)
  {
  }

  /** On the whole pentagon the corrected driver returns all five corners, (5, 10) included. */
  method PentagonExample() returns (hull: set<Point>)
    ensures hull == {Point(0.0, 0.0), Point(10.0, 0.0), Point(1.0, 5.0), Point(5.0, 10.0), Point(9.0, 5.0)}
  {
    var list := [Point(0.0, 0.0), Point(10.0, 0.0), Point(1.0, 5.0), Point(5.0, 10.0), Point(9.0, 5.0)];
    ghost var s := ToSet(list);
    assert s == {Point(0.0, 0.0), Point(10.0, 0.0), Point(1.0, 5.0), Point(5.0, 10.0), Point(9.0, 5.0)};
    PentagonVertices(s);
    PentagonDistinctX(s);
    hull := FindConvexHull(list);
    assert s <= hull;
  }
}
