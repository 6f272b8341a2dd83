/**
  The quickhull driver: the static methods of `Program` in
  ConvexHull/Program.cs. `HashSet<Point>` becomes `set<Point>` (with value
  equality) and `List<Point>` becomes `seq<Point>`. Iterating a set picks its
  elements in an unspecified order, as enumerating a `HashSet` does.
 */
module Quickhull {
  import opened Geometry
  import opened Convexity

  /**
    The points of a list, as `list.ToHashSet()` collects them: each point of
    the list once, so there are no more of them than list entries, and none
    only for the empty list.
   */
  function ToSet(list: seq<Point>): (r: set<Point>)
    ensures forall p :: p in r <==> p in list
    ensures |r| <= |list|
    ensures r == {} <==> list == []
  {
    ListSetSize(list);
    assert list != [] ==> list[0] in (set p | p in list);
    set p | p in list
  }

  lemma {:induction false} ListSetSize(list: seq<Point>)
    ensures |set p | p in list| <= |list|
  {
    if list != [] {
      ListSetSize(list[1..]);
      assert (set p | p in list) == {list[0]} + (set p | p in list[1..]);
    }
  }

  /** x first, then y: the order of `OrderBy(a => a.X).ThenBy(a => a.Y)`. */
  predicate LexLe(p: Point, q: Point)
    ensures LexLe(p, q) ==> p.x <= q.x
    ensures p.x < q.x ==> LexLe(p, q)
  {
    p.x < q.x || (p.x == q.x && p.y <= q.y)
  }

  /** The x-then-y order is total and antisymmetric on points, and transitive, so a sorted list's first and last entries are its least and greatest. */
  lemma LexLeTotalOrder(p: Point, q: Point, r: Point)
    ensures LexLe(p, q) || LexLe(q, p)
    ensures LexLe(p, q) && LexLe(q, p) ==> p == q
    ensures LexLe(p, q) && LexLe(q, r) ==> LexLe(p, r)
  {
  }

  /**
    `SelectAboveOrBelow`: the points of the set that `CheckIfAbove` puts on
    the asked side, 1 for '+' and -1 for any other character.
   */
  method SelectAboveOrBelow(list: set<Point>, border: Line, v: char) returns (result: set<Point>)
    ensures result == Selected(list, border, v)
  {
    result := {};
    var plus := if v == '+' then 1 else -1;
    var rest := list;
    while rest != {}
      invariant rest <= list
      invariant result == Selected(list - rest, border, v)
      decreases rest
    {
      var point :| point in rest;
      var check := CheckIfAbove(border, point);
      if check == plus {
        result := result + {point};
      }
      rest := rest - {point};
    }
  }

  /**
    The selection is an exact filter: it keeps a point of the set exactly
    when `CheckIfAbove` answers the asked side, so it never keeps a point on
    the line.
   */
  lemma SelectionIsExactFilter(list: set<Point>, border: Line, v: char)
    ensures Selected(list, border, v) <= list
    ensures forall p :: p in list ==> (p in Selected(list, border, v) <==> CheckIfAbove(border, p) == Plus(v))
    ensures forall p :: p in Selected(list, border, v) ==> CheckIfAbove(border, p) != 0
  {
  }

  /** The sides '+' and '-' of one line never share a point. */
  lemma SidesDisjoint(list: set<Point>, border: Line)
    ensures Selected(list, border, '+') !! Selected(list, border, '-')
  {
  }

  /**
    `FindMinAndMax`: the first and the last point of the list sorted by x,
    then y; that is the least and the greatest point in that order.
   */
  function FindMinAndMax(points: seq<Point>): (r: (Point, Point))
    requires |points| > 0
    ensures r.0 in points && r.1 in points
    ensures forall q :: q in points ==> LexLe(r.0, q) && LexLe(q, r.1)
  {
    if |points| == 1 then (points[0], points[0])
    else
      var rest := FindMinAndMax(points[1..]);
      assert forall q :: q in points ==> q == points[0] || q in points[1..];
      (if LexLe(points[0], rest.0) then points[0] else rest.0,
       if LexLe(rest.1, points[0]) then points[0] else rest.1)
  }

  /** A farthest point is off the border, so it differs in x from both of the border's ends. */
  lemma ApexOffBorder(points: set<Point>, border: Line, f: Point)
    requires ValidLine(border) && DistinctX(points + {border.pointA, border.pointB})
    requires IsFurthest(border, points, f)
    ensures f.x != border.pointA.x && f.x != border.pointB.x
  {
    DistanceIsScaledHeight(border, border.pointA);
    DistanceIsScaledHeight(border, border.pointB);
  }

  /**
    The call on the new edge from P to F is well formed: the edge is a line,
    its set is strictly smaller than points (F lies on the edge) and has
    distinct x together with the edge's ends.
   */
  lemma SubCallWellFormed(points: set<Point>, border: Line, v: char, p: Point, f: Point)
    requires p == border.pointA || p == border.pointB
    requires DistinctX(points + {border.pointA, border.pointB}) && f in points && p.x != f.x
    ensures ValidLine(MakeLine(p, f))
    ensures Selected(points, MakeLine(p, f), v) < points
    ensures f !in Selected(points, MakeLine(p, f), v)
    ensures DistinctX(Selected(points, MakeLine(p, f), v) + {p, f})
    ensures Selected(points, MakeLine(p, f), v) != {} ==>
              exists q :: q in Selected(points, MakeLine(p, f), v) && CheckIfAbove(MakeLine(p, f), q) != 0
  {
    var sub := Selected(points, MakeLine(p, f), v);
    assert f !in sub;
    assert sub + {p, f} <= points + {border.pointA, border.pointB};
    if sub != {} {
      var q :| q in sub;
      assert CheckIfAbove(MakeLine(p, f), q) != 0;
    }
  }

  /**
    On a call that `HullCall` describes, the farthest point F lies on the hull
    boundary and the call on the new edge from either end P to F is again
    one that `HullCall` describes.
   */
  lemma SubCallOnHull(s: set<Point>, points: set<Point>, border: Line, v: char, p: Point, f: Point)
    requires HullCall(s, points, border, v) && (p == border.pointA || p == border.pointB)
    requires IsFurthest(border, points, f) && p.x != f.x
    ensures OnHullBoundary(s, f)
    ensures HullCall(s, Selected(points, MakeLine(p, f), v), MakeLine(p, f), v)
  {
    FurthestOnBoundary(s, points, border, v, f);
    ExactPreserved(s, points, border, v, p, f);
  }

  /** Every point of a, of b, and f itself lies on the hull boundary of s. */
  lemma UnionOnHull(s: set<Point>, a: set<Point>, b: set<Point>, f: Point)
    requires forall r :: r in a ==> OnHullBoundary(s, r)
    requires forall r :: r in b ==> OnHullBoundary(s, r)
    requires OnHullBoundary(s, f)
    ensures forall r :: r in a + b + {f} ==> OnHullBoundary(s, r)
  {
  }

  /**
    `FindConvexPoints`, with the farthest point always kept. Given points of
    which at least one is off the border (otherwise `FindFurthest` returns
    null and the source dereferences it), the result is a part of points
    holding a farthest point from the border. When points is the part of the
    whole input s beyond the border, and the border's ends lie on the hull
    boundary of s, every returned point lies on the hull boundary of s.
   */
  method FindConvexPoints(ghost s: set<Point>, points: set<Point>, border: Line, v: char) returns (result: set<Point>)
    requires ValidLine(border)
    requires DistinctX(points + {border.pointA, border.pointB})
    requires exists p :: p in points && CheckIfAbove(border, p) != 0
    ensures result <= points
    ensures exists f :: f in result && IsFurthest(border, points, f)
    ensures HullCall(s, points, border, v) ==> forall r :: r in result ==> OnHullBoundary(s, r)
    ensures HullCall(s, points, border, v) ==> forall q :: q in points && IsVertex(s, q) ==> q in result
    decreases points
  {
    ghost var off :| off in points && CheckIfAbove(border, off) != 0;
    DistanceIsScaledHeight(border, off);
    var found;
    ghost var order, k;
    found, order, k := FindFurthest(border, points);
    var furthest := found.value;
    ApexOffBorder(points, border, furthest);
    var firstLine := MakeLine(border.pointA, furthest);
    var secondLine := MakeLine(border.pointB, furthest);
    var firstSet := SelectAboveOrBelow(points, firstLine, v);
    var secondSet := SelectAboveOrBelow(points, secondLine, v);
    SubCallWellFormed(points, border, v, border.pointA, furthest);
    SubCallWellFormed(points, border, v, border.pointB, furthest);
    var firstPart, secondPart;
    if firstSet == {} {
      firstPart := {furthest};
    } else {
      firstPart := FindConvexPoints(s, firstSet, firstLine, v);
    }
    if secondSet == {} {
      secondPart := {furthest};
    } else {
      secondPart := FindConvexPoints(s, secondSet, secondLine, v);
    }
    // The source adds the farthest point only when a sub-set is empty.
    result := firstPart + secondPart + {furthest};
    assert firstPart <= points && secondPart <= points;
    assert furthest in result && IsFurthest(border, points, furthest);
    if HullCall(s, points, border, v) {
      SubCallOnHull(s, points, border, v, border.pointA, furthest);
      SubCallOnHull(s, points, border, v, border.pointB, furthest);
      UnionOnHull(s, firstPart, secondPart, furthest);
      VerticesKept(s, points, border, v, furthest, firstPart, secondPart);
    }
  }

  /**
    The vertices of the hull of s in points are kept: each is the farthest
    point or lies beyond one of the new edges, so it is in the part returned
    for that edge.
   */
  lemma VerticesKept(s: set<Point>, points: set<Point>, border: Line, v: char, f: Point,
                     firstPart: set<Point>, secondPart: set<Point>)
    requires HullCall(s, points, border, v) && IsFurthest(border, points, f)
    requires f.x != border.pointA.x && f.x != border.pointB.x
    requires forall q :: q in Selected(points, MakeLine(border.pointA, f), v) && IsVertex(s, q) ==> q in firstPart
    requires forall q :: q in Selected(points, MakeLine(border.pointB, f), v) && IsVertex(s, q) ==> q in secondPart
    ensures forall q :: q in points && IsVertex(s, q) ==> q in firstPart + secondPart + {f}
  {
    forall q | q in points && IsVertex(s, q)
      ensures q in firstPart + secondPart + {f}
    {
      if q != f {
        VertexBeyondAnEdge(s, points, border, v, f, q);
      }
    }
  }

  /**
    `FindConvexPoints` as the source writes it: when both sub-sets are
    non-empty the farthest point is not added. The result is a non-empty
    part of points, and a point that is the only farthest one is in it
    exactly when one of the two sub-sets is empty.
   */
  method FindConvexPointsAsWritten(points: set<Point>, border: Line, v: char) returns (result: set<Point>)
    requires ValidLine(border)
    requires DistinctX(points + {border.pointA, border.pointB})
    requires exists p :: p in points && CheckIfAbove(border, p) != 0
    ensures result <= points && result != {}
    ensures forall f :: IsOnlyFurthest(border, points, f) ==>
              (f in result <==> !SplitsBoth(points, border, f, v))
    decreases points
  {
    ghost var off :| off in points && CheckIfAbove(border, off) != 0;
    DistanceIsScaledHeight(border, off);
    var found;
    ghost var order, k;
    found, order, k := FindFurthest(border, points);
    var furthest := found.value;
    ApexOffBorder(points, border, furthest);
    var firstLine := MakeLine(border.pointA, furthest);
    var secondLine := MakeLine(border.pointB, furthest);
    var firstSet := SelectAboveOrBelow(points, firstLine, v);
    var secondSet := SelectAboveOrBelow(points, secondLine, v);
    SubCallWellFormed(points, border, v, border.pointA, furthest);
    SubCallWellFormed(points, border, v, border.pointB, furthest);
    var firstPart, secondPart;
    if firstSet == {} {
      firstPart := {furthest};
    } else {
      firstPart := FindConvexPointsAsWritten(firstSet, firstLine, v);
    }
    if secondSet == {} {
      secondPart := {furthest};
    } else {
      secondPart := FindConvexPointsAsWritten(secondSet, secondLine, v);
    }
    result := firstPart + secondPart;
    assert firstPart <= points && secondPart <= points;
    assert furthest in result <==> !(firstSet != {} && secondSet != {}) by {
      if firstSet != {} && secondSet != {} {
        assert furthest !in firstPart && furthest !in secondPart;
      }
    }
    SplitsBothIsNonEmpty(points, border, furthest, v);
    forall f | IsOnlyFurthest(border, points, f)
      ensures f in result <==> !SplitsBoth(points, border, f, v)
    {
      assert f == furthest;
    }
  }

  /** f is farther from l than every other member of points. */
  ghost predicate IsOnlyFurthest(l: Line, points: set<Point>, f: Point)
  {
    IsFurthest(l, points, f) &&
    forall q :: q in points && q != f ==> CalculateDistance(l, q) < CalculateDistance(l, f)
  }

  /** q lies strictly on side v of the line through p and f, told by orientation instead of slope and intercept. */
  ghost predicate Beyond(p: Point, f: Point, q: Point, v: char)
  {
    Sign(Orient(p, f, q)) * Sign(f.x - p.x) == Plus(v)
  }

  /** Both new edges from the border's ends to f have points of points beyond them. */
  ghost predicate SplitsBoth(points: set<Point>, border: Line, f: Point, v: char)
  {
    (exists q :: q in points && Beyond(border.pointA, f, q, v)) &&
    (exists q :: q in points && Beyond(border.pointB, f, q, v))
  }

  /** The side of the new edge from p to f that `SelectAboveOrBelow` keeps is the one `Beyond` names. */
  lemma SelectedIsBeyond(points: set<Point>, p: Point, f: Point, v: char)
    requires p.x != f.x
    ensures forall q :: q in Selected(points, MakeLine(p, f), v) <==> q in points && Beyond(p, f, q, v)
  {
    forall q | q in points
      ensures CheckIfAbove(MakeLine(p, f), q) == Plus(v) <==> Beyond(p, f, q, v)
    {
      CheckIfAboveMatchesOrient(MakeLine(p, f), q);
    }
  }

  /** f splits both ways exactly when both sub-sets the recursion computes for it are non-empty. */
  lemma SplitsBothIsNonEmpty(points: set<Point>, border: Line, f: Point, v: char)
    requires f.x != border.pointA.x && f.x != border.pointB.x
    ensures SplitsBoth(points, border, f, v) <==>
              Selected(points, MakeLine(border.pointA, f), v) != {} &&
              Selected(points, MakeLine(border.pointB, f), v) != {}
  {
    SelectedIsBeyond(points, border.pointA, f, v);
    SelectedIsBeyond(points, border.pointB, f, v);
    if Selected(points, MakeLine(border.pointA, f), v) != {} {
      var q :| q in Selected(points, MakeLine(border.pointA, f), v);
      assert q in points && Beyond(border.pointA, f, q, v);
    }
    if Selected(points, MakeLine(border.pointB, f), v) != {} {
      var q :| q in Selected(points, MakeLine(border.pointB, f), v);
      assert q in points && Beyond(border.pointB, f, q, v);
    }
  }

  /** The least and the greatest point in x-then-y order lie on the hull boundary and are side-supported on both sides. */
  lemma ExtremesOnBoundary(all: set<Point>, lo: Point, hi: Point)
    requires lo in all && hi in all
    requires forall q :: q in all ==> LexLe(lo, q) && LexLe(q, hi)
    ensures OnHullBoundary(all, lo) && OnHullBoundary(all, hi)
    ensures SideSupported(all, lo, '+') && SideSupported(all, hi, '+')
    ensures SideSupported(all, lo, '-') && SideSupported(all, hi, '-')
  {
    LeftmostOnBoundary(all, lo, '+');
    RightmostOnBoundary(all, hi, '+');
    LeftmostOnBoundary(all, lo, '-');
    RightmostOnBoundary(all, hi, '-');
  }

  /**
    The two top-level calls are ones that `HullCall` describes: the border
    joins the extremes, and each side is exactly the part of the input
    beyond it.
   */
  lemma TopCall(all: set<Point>, lo: Point, hi: Point, v: char)
    requires DistinctX(all) && lo in all && hi in all && lo.x != hi.x
    requires SideSupported(all, lo, v) && SideSupported(all, hi, v)
    ensures HullCall(all, Selected(all, MakeLine(lo, hi), v), MakeLine(lo, hi), v)
    ensures DistinctX(Selected(all, MakeLine(lo, hi), v) + {lo, hi})
    ensures Selected(all, MakeLine(lo, hi), v) != {} ==>
              exists p :: p in Selected(all, MakeLine(lo, hi), v) && CheckIfAbove(MakeLine(lo, hi), p) != 0
  {
    var sub := Selected(all, MakeLine(lo, hi), v);
    assert sub + {lo, hi} <= all;
    if sub != {} {
      var p :| p in sub;
      assert CheckIfAbove(MakeLine(lo, hi), p) != 0;
    }
  }

  /** The extremes together with two sets of boundary points of s form a set of boundary points of s. */
  lemma HullAssembled(s: set<Point>, lo: Point, hi: Point, a: set<Point>, b: set<Point>)
    requires OnHullBoundary(s, lo) && OnHullBoundary(s, hi) && a <= s && b <= s
    requires forall r :: r in a ==> OnHullBoundary(s, r)
    requires forall r :: r in b ==> OnHullBoundary(s, r)
    ensures {lo, hi} + a + b <= s
    ensures forall r :: r in {lo, hi} + a + b ==> OnHullBoundary(s, r)
  {
  }

  /** The extremes together with two parts of s form a part of s. */
  lemma AssembledSubset(s: set<Point>, lo: Point, hi: Point, a: set<Point>, b: set<Point>)
    requires lo in s && hi in s && a <= s && b <= s
    ensures {lo, hi} + a + b <= s
  {
  }

  /**
    `FindConvexHull`, guarding the cases the source does not: an empty list
    (where `First()` throws), a single distinct point (where the border is
    vertical) and an empty side of the border (where `FindFurthest` returns
    null). The result holds the two extreme points, only points of the
    list, and only points on the boundary of the list's convex hull.
   */
  method FindConvexHull(list: seq<Point>) returns (result: set<Point>)
    requires DistinctX(ToSet(list))
    ensures result <= ToSet(list)
    ensures list != [] ==> FindMinAndMax(list).0 in result && FindMinAndMax(list).1 in result
    ensures forall r :: r in result ==> OnHullBoundary(ToSet(list), r)
    ensures forall q :: IsVertex(ToSet(list), q) ==> q in result
    ensures list != [] ==> forall r :: r in result && r != FindMinAndMax(list).0 && r != FindMinAndMax(list).1 ==>
                                         Orient(FindMinAndMax(list).0, FindMinAndMax(list).1, r) != 0.0
  {
    if list == [] {
      return {};
    }
    ghost var all := ToSet(list);
    var borderPoints := FindMinAndMax(list);
    var lo, hi := borderPoints.0, borderPoints.1;
    ExtremesOnBoundary(all, lo, hi);
    result := {lo, hi};
    assert result <= all;
    if lo.x == hi.x {
      SinglePoint(all, lo, hi);
      return;
    }
    var border := MakeLine(lo, hi);
    var above := SelectAboveOrBelow(ToSet(list), border, '+');
    var below := SelectAboveOrBelow(ToSet(list), border, '-');
    TopCall(all, lo, hi, '+');
    TopCall(all, lo, hi, '-');
    if above != {} {
      above := FindConvexPoints(all, above, border, '+');
    }
    if below != {} {
      below := FindConvexPoints(all, below, border, '-');
    }
    result := result + above + below;
    HullAssembled(all, lo, hi, above, below);
    DiameterAssembled(all, lo, hi, above, below);
  }

  /** Extremes of the same x, with distinct x throughout, leave a single point. */
  lemma SinglePoint(all: set<Point>, lo: Point, hi: Point)
    requires DistinctX(all) && lo in all && hi in all && lo.x == hi.x
    requires forall q :: q in all ==> LexLe(lo, q) && LexLe(q, hi)
    ensures all == {lo}
  {
    forall q | q in all
      ensures q == lo
    {
      assert LexLe(lo, q) && LexLe(q, hi);
    }
  }

  /**
    A vertex of the hull that is neither extreme lies strictly on one side of
    the diameter: a point on it between the extremes is not a vertex.
   */
  lemma VertexOffDiameter(all: set<Point>, lo: Point, hi: Point, q: Point)
    requires DistinctX(all) && lo in all && hi in all && q in all && lo.x != hi.x
    requires forall p :: p in all ==> LexLe(lo, p) && LexLe(p, hi)
    ensures IsVertex(all, q) ==> q == lo || q == hi || CheckIfAbove(MakeLine(lo, hi), q) != 0
  {
    if q != lo && q != hi && CheckIfAbove(MakeLine(lo, hi), q) == 0 {
      CheckIfAboveMatchesOrient(MakeLine(lo, hi), q);
      OnSegmentNotVertex(all, lo, hi, q);
    }
  }

  /**
    The diameter's ends together with the parts returned for the two sides
    hold every vertex of the hull, and nothing else on the diameter's line.
   */
  lemma DiameterAssembled(all: set<Point>, lo: Point, hi: Point, above: set<Point>, below: set<Point>)
    requires DistinctX(all) && lo in all && hi in all && lo.x != hi.x
    requires forall p :: p in all ==> LexLe(lo, p) && LexLe(p, hi)
    requires above <= Selected(all, MakeLine(lo, hi), '+') && below <= Selected(all, MakeLine(lo, hi), '-')
    requires forall q :: q in Selected(all, MakeLine(lo, hi), '+') && IsVertex(all, q) ==> q in above
    requires forall q :: q in Selected(all, MakeLine(lo, hi), '-') && IsVertex(all, q) ==> q in below
    ensures forall q :: IsVertex(all, q) ==> q in {lo, hi} + above + below
    ensures forall r :: r in {lo, hi} + above + below && r != lo && r != hi ==> Orient(lo, hi, r) != 0.0
  {
    forall q | IsVertex(all, q)
      ensures q in {lo, hi} + above + below
    {
      VertexOffDiameter(all, lo, hi, q);
    }
    forall r | r in {lo, hi} + above + below && r != lo && r != hi
      ensures Orient(lo, hi, r) != 0.0
    {
      CheckIfAboveMatchesOrient(MakeLine(lo, hi), r);
    }
  }

  /** A point off the segment between the extremes puts them at distinct x, the least one to the left. */
  lemma ExtremesApart(list: seq<Point>, p: Point)
    requires DistinctX(ToSet(list)) && |list| > 0 && p in list
    requires Orient(FindMinAndMax(list).0, FindMinAndMax(list).1, p) != 0.0
    ensures FindMinAndMax(list).0.x < FindMinAndMax(list).1.x
  {
    var lo, hi := FindMinAndMax(list).0, FindMinAndMax(list).1;
    assert LexLe(lo, hi);
    assert lo.x == hi.x ==> lo == hi;
    assert lo == hi ==> Orient(lo, hi, p) == 0.0;
  }

  /** A side of the border that holds a point of the list is a valid argument of `FindConvexPoints`. */
  lemma SideCall(list: seq<Point>, border: Line, v: char)
    requires ValidLine(border) && border.pointA.x < border.pointB.x
    requires DistinctX(ToSet(list)) && border.pointA in list && border.pointB in list
    requires exists p :: p in list && Sign(Orient(border.pointA, border.pointB, p)) == Plus(v)
    ensures DistinctX(Selected(ToSet(list), border, v) + {border.pointA, border.pointB})
    ensures exists p :: p in Selected(ToSet(list), border, v) && CheckIfAbove(border, p) != 0
  {
    var p :| p in list && Sign(Orient(border.pointA, border.pointB, p)) == Plus(v);
    CheckIfAboveMatchesOrient(border, p);
    assert p in Selected(ToSet(list), border, v);
    assert Selected(ToSet(list), border, v) + {border.pointA, border.pointB} <= ToSet(list);
  }

  /**
    `FindConvexHull` as the source writes it: it needs a non-empty list and
    points strictly on both sides of the segment from the least to the
    greatest point (which then have distinct x), or the source throws. The result holds the two extreme points and only points
    of the list.
   */
  method FindConvexHullAsWritten(list: seq<Point>) returns (result: set<Point>)
    requires DistinctX(ToSet(list))
    requires |list| > 0
    requires exists p :: p in list && Orient(FindMinAndMax(list).0, FindMinAndMax(list).1, p) > 0.0
    requires exists p :: p in list && Orient(FindMinAndMax(list).0, FindMinAndMax(list).1, p) < 0.0
    ensures result <= ToSet(list)
    ensures FindMinAndMax(list).0 in result && FindMinAndMax(list).1 in result
  {
    var borderPoints := FindMinAndMax(list);
    ghost var p :| p in list && Orient(borderPoints.0, borderPoints.1, p) > 0.0;
    ExtremesApart(list, p);
    var border := MakeLine(borderPoints.0, borderPoints.1);
    var above := SelectAboveOrBelow(ToSet(list), border, '+');
    var below := SelectAboveOrBelow(ToSet(list), border, '-');
    ghost var all := ToSet(list);
    SideCall(list, border, '+');
    SideCall(list, border, '-');
    above := FindConvexPointsAsWritten(above, border, '+');
    below := FindConvexPointsAsWritten(below, border, '-');
    result := {borderPoints.0, borderPoints.1};
    result := result + above;
    result := result + below;
    AssembledSubset(all, borderPoints.0, borderPoints.1, above, below);
  }
}
