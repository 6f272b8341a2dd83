/**
  What the quickhull recursion keeps true, stated over the whole input set s:
  the set handed to each recursive call is exactly the part of s strictly
  beyond the call's border, and both ends of that border lie on the boundary
  of the hull of s. From this, every point the recursion returns lies on the
  boundary of the hull of s.
 */
module Convexity {
  import opened Geometry

  /** `plus` of `SelectAboveOrBelow`: '+' asks for 1 (above), every other character for -1 (below). */
  function Plus(v: char): (r: int)
    ensures r == 1 || r == -1
    ensures r == 1 <==> v == '+'
  {
    if v == '+' then 1 else -1
  }

  /** The same side as a real factor. */
  function SideSign(v: char): real
  {
    if v == '+' then 1.0 else -1.0
  }

  /** The members of points lying strictly on side v of l. */
  ghost function Selected(points: set<Point>, l: Line, v: char): set<Point>
  {
    set p | p in points && CheckIfAbove(l, p) == Plus(v)
  }

  /** No two points of s share an x coordinate, so every line between two of them is non-vertical. */
  ghost predicate DistinctX(s: set<Point>)
  {
    forall p, q :: p in s && q in s && p.x == q.x ==> p == q
  }

  /** points is exactly the part of s that lies strictly on side v of l. */
  ghost predicate Exact(s: set<Point>, points: set<Point>, l: Line, v: char)
  {
    points <= s &&
    forall q :: q in s ==> (q in points <==> CheckIfAbove(l, q) == Plus(v))
  }

  /** No segment between two points of s on either side of p (in x) passes strictly beyond p on side v. */
  ghost predicate SideSupported(s: set<Point>, p: Point, v: char)
  {
    forall q1, q2 :: q1 in s && q2 in s && q1.x < p.x < q2.x ==> SideSign(v) * Orient(q1, q2, p) >= 0.0
  }

  /** The line through r with normal (dx, dy) has all of s on one side: r maximises dx * x + dy * y over s. */
  ghost predicate Supports(s: set<Point>, r: Point, dx: real, dy: real)
  {
    forall q :: q in s ==> dx * q.x + dy * q.y <= dx * r.x + dy * r.y
  }

  /** r is a point of s on the boundary of the convex hull of s. */
  ghost predicate OnHullBoundary(s: set<Point>, r: Point)
  {
    r in s && exists dx: real, dy: real :: (dx != 0.0 || dy != 0.0) && Supports(s, r, dx, dy)
  }

  /** What a call of the recursion on points and border may rely on. */
  ghost predicate HullCall(s: set<Point>, points: set<Point>, border: Line, v: char)
  {
    ValidLine(border) && DistinctX(s) && border.pointA in s && border.pointB in s &&
    Exact(s, points, border, v) &&
    SideSupported(s, border.pointA, v) && SideSupported(s, border.pointB, v)
  }

  lemma SideIsSignedHeight(l: Line, p: Point, v: char)
    ensures CheckIfAbove(l, p) == Plus(v) <==> SideSign(v) * Height(l, p) > 0.0
  {
  }

  /**
    Two lines through a common point P, the second also through F: their
    offsets at q differ by the first line's offset at F, scaled by how far
    q.x is from P.x compared with F.x.
   */
  lemma {:induction false} HeightShift(l: Line, l2: Line, p: Point, f: Point, q: Point)
    requires Height(l, p) == 0.0 && Height(l2, p) == 0.0 && Height(l2, f) == 0.0
    ensures (Height(l, q) - Height(l2, q)) * (f.x - p.x) == Height(l, f) * (q.x - p.x)
  {
    var da := l2.a - l.a;
    assert l2.b - l.b == -da * p.x;
    assert Height(l, q) - Height(l2, q) == da * (q.x - p.x);
    assert Height(l, f) == da * (f.x - p.x);
    calc {
      (Height(l, q) - Height(l2, q)) * (f.x - p.x);
      da * (q.x - p.x) * (f.x - p.x);
      (da * (f.x - p.x)) * (q.x - p.x);
    }
  }

  /** A point beyond the new edge P-F, on the same side of P as F, is beyond the old edge too. */
  lemma NearSideBeyond(l: Line, l2: Line, p: Point, f: Point, q: Point, sigma: real)
    requires Height(l, p) == 0.0 && Height(l2, p) == 0.0 && Height(l2, f) == 0.0
    requires sigma == 1.0 || sigma == -1.0
    requires sigma * Height(l, f) > 0.0 && sigma * Height(l2, q) > 0.0
    requires (p.x < q.x && p.x < f.x) || (q.x < p.x && f.x < p.x)
    ensures sigma * Height(l, q) > 0.0
  {
    HeightShift(l, l2, p, f, q);
    var d, e := f.x - p.x, q.x - p.x;
    var hq, h2q, hf := sigma * Height(l, q), sigma * Height(l2, q), sigma * Height(l, f);
    assert (hq - h2q) * d == hf * e;
    if d > 0.0 {
      assert hf * e > 0.0;
      assert h2q * d > 0.0;
      assert hq * d > 0.0;
    } else {
      assert hf * e < 0.0;
      assert h2q * d < 0.0;
      assert hq * d < 0.0;
    }
  }

  /** A point on the far side of P from F cannot be beyond the edge P-F while P is side-supported. */
  lemma FarSideNotBeyond(s: set<Point>, p: Point, f: Point, q: Point, v: char)
    requires p.x != f.x && f in s && q in s
    requires SideSupported(s, p, v)
    requires (q.x < p.x < f.x) || (f.x < p.x < q.x)
    ensures SideSign(v) * Height(MakeLine(p, f), q) <= 0.0
  {
    var l2 := MakeLine(p, f);
    var sigma := SideSign(v);
    HeightScaled(l2, q);
    var d := f.x - p.x;
    var h := sigma * Height(l2, q);
    if q.x < p.x {
      assert sigma * Orient(q, f, p) >= 0.0;
      assert Orient(p, f, q) == -Orient(q, f, p);
      assert h * d == sigma * Orient(p, f, q);
      assert h * d <= 0.0 && d > 0.0;
    } else {
      assert sigma * Orient(f, q, p) >= 0.0;
      assert Orient(p, f, q) == Orient(f, q, p);
      assert h * d == sigma * Orient(p, f, q);
      assert h * d >= 0.0 && d < 0.0;
    }
  }

  /**
    The recursion step keeps `Exact`: if points is the part of s beyond the
    border, P is an end of the border with the boundary property, and F is
    one of points, then the points of points beyond the new edge P-F are
    exactly the points of s beyond it.
   */
  lemma ExactPreserved(s: set<Point>, points: set<Point>, l: Line, v: char, p: Point, f: Point)
    requires ValidLine(l) && (p == l.pointA || p == l.pointB)
    requires DistinctX(s) && p in s && f in points && p.x != f.x
    requires Exact(s, points, l, v) && SideSupported(s, p, v)
    ensures Exact(s, Selected(points, MakeLine(p, f), v), MakeLine(p, f), v)
  {
    var l2 := MakeLine(p, f);
    var sigma := SideSign(v);
    assert Height(l, p) == 0.0;
    SideIsSignedHeight(l, f, v);
    forall q | q in s && CheckIfAbove(l2, q) == Plus(v)
      ensures q in points
    {
      SideIsSignedHeight(l2, q, v);
      if q.x == p.x {
        assert false;
      } else if (p.x < q.x && p.x < f.x) || (q.x < p.x && f.x < p.x) {
        NearSideBeyond(l, l2, p, f, q, sigma);
        SideIsSignedHeight(l, q, v);
      } else {
        FarSideNotBeyond(s, p, f, q, v);
        assert false;
      }
    }
  }

  /**
    If the line through f with normal (dx, dy) has q1 and q2 on its inner
    side and f lies between them in x, then f is weakly on side dy of the
    segment q1-q2.
   */
  lemma SupportedBetween(q1: Point, q2: Point, f: Point, dx: real, dy: real)
    requires q1.x < f.x < q2.x
    requires dx * q1.x + dy * q1.y <= dx * f.x + dy * f.y
    requires dx * q2.x + dy * q2.y <= dx * f.x + dy * f.y
    ensures dy * Orient(q1, q2, f) >= 0.0
  {
    var x1, x2 := q1.x - f.x, q2.x - f.x;
    var y1, y2 := dy * (q1.y - f.y), dy * (q2.y - f.y);
    assert y1 <= -dx * x1 && y2 <= -dx * x2;
    assert dy * Orient(q1, q2, f) == x1 * y2 - x2 * y1;
    assert x1 * y2 >= x1 * (-dx * x2);
    assert x2 * y1 <= x2 * (-dx * x1);
  }

  lemma CompareScaled(hq: real, hf: real, oq: real, of: real, run: real, sigma: real)
    requires sigma == 1.0 || sigma == -1.0
    requires sigma * hq > 0.0 && sigma * hf > 0.0 && run != 0.0
    requires hq * run == oq && hf * run == of && Abs(oq) <= Abs(of)
    ensures sigma * hq <= sigma * hf
  {
    AbsOfProduct(hq, run);
    AbsOfProduct(hf, run);
    var ar := Abs(run);
    var uq, uf := Abs(hq), Abs(hf);
    assert uq * ar == Abs(oq) && uf * ar == Abs(of);
    assert uq * ar <= uf * ar;
    CancelPositive(uq, uf, ar);
    assert Abs(hq) == sigma * hq && Abs(hf) == sigma * hf;
  }

  lemma CancelPositive(u: real, v: real, c: real)
    requires c > 0.0 && u * c <= v * c
    ensures u <= v
  {
    assert (v - u) * c >= 0.0;
  }

  /** Among points strictly on one side of a line, a larger scaled distance means a larger offset on that side. */
  lemma FartherMeansHigher(l: Line, sigma: real, q: Point, f: Point)
    requires ValidLine(l) && (sigma == 1.0 || sigma == -1.0)
    requires sigma * Height(l, q) > 0.0 && sigma * Height(l, f) > 0.0
    requires CalculateDistance(l, q) <= CalculateDistance(l, f)
    ensures sigma * Height(l, q) <= sigma * Height(l, f)
  {
    HeightScaled(l, q);
    HeightScaled(l, f);
    CompareScaled(Height(l, q), Height(l, f), Orient(l.pointA, l.pointB, q), Orient(l.pointA, l.pointB, f),
                  l.pointB.x - l.pointA.x, sigma);
  }

  /** sigma times the offset above y = a * x + b is linear in the point, with normal (-sigma * a, sigma). */
  lemma OffsetIsLinear(l: Line, p: Point, sigma: real)
    ensures sigma * Height(l, p) == (-sigma * l.a) * p.x + sigma * p.y - sigma * l.b
  {
  }

  /** A farthest point of the part of s beyond the border has the largest offset beyond it over all of s. */
  lemma FurthestMaximisesOffset(s: set<Point>, points: set<Point>, l: Line, v: char, f: Point, q: Point)
    requires ValidLine(l) && Exact(s, points, l, v) && IsFurthest(l, points, f) && q in s
    ensures (-SideSign(v) * l.a) * q.x + SideSign(v) * q.y <= (-SideSign(v) * l.a) * f.x + SideSign(v) * f.y
  {
    var sigma := SideSign(v);
    DistanceIsScaledHeight(l, f);
    SideIsSignedHeight(l, f, v);
    SideIsSignedHeight(l, q, v);
    if q in points {
      FartherMeansHigher(l, sigma, q, f);
    }
    assert sigma * Height(l, q) <= sigma * Height(l, f);
    OffsetIsLinear(l, q, sigma);
    OffsetIsLinear(l, f, sigma);
  }

  /**
    A farthest point of the set beyond the border maximises the offset beyond
    the border over all of s: the parallel to the border through it supports
    s, so it lies on the hull boundary.
   */
  lemma FurthestSupports(s: set<Point>, points: set<Point>, l: Line, v: char, f: Point)
    requires ValidLine(l) && Exact(s, points, l, v) && IsFurthest(l, points, f)
    ensures Supports(s, f, -SideSign(v) * l.a, SideSign(v))
    ensures OnHullBoundary(s, f)
  {
    forall q | q in s
      ensures (-SideSign(v) * l.a) * q.x + SideSign(v) * q.y <= (-SideSign(v) * l.a) * f.x + SideSign(v) * f.y
    {
      FurthestMaximisesOffset(s, points, l, v, f, q);
    }
    assert Supports(s, f, -SideSign(v) * l.a, SideSign(v));
  }

  /** A point of s that a non-vertical line with s on its inner side v passes through is side-supported. */
  lemma SupportsGivesSideSupported(s: set<Point>, f: Point, dx: real, v: char)
    requires Supports(s, f, dx, SideSign(v))
    ensures SideSupported(s, f, v)
  {
    forall q1, q2 | q1 in s && q2 in s && q1.x < f.x < q2.x
      ensures SideSign(v) * Orient(q1, q2, f) >= 0.0
    {
      SupportedBetween(q1, q2, f, dx, SideSign(v));
    }
  }

  /** The farthest point lies on the hull boundary of s and is side-supported, as the border's ends are. */
  lemma FurthestOnBoundary(s: set<Point>, points: set<Point>, l: Line, v: char, f: Point)
    requires ValidLine(l) && Exact(s, points, l, v) && IsFurthest(l, points, f)
    ensures OnHullBoundary(s, f)
    ensures SideSupported(s, f, v)
  {
    FurthestSupports(s, points, l, v, f);
    SupportsGivesSideSupported(s, f, -SideSign(v) * l.a, v);
  }

  /** A point of least x supports s with normal (-1, 0), and nothing of s lies to its left. */
  lemma LeftmostOnBoundary(s: set<Point>, lo: Point, v: char)
    requires lo in s && forall q :: q in s ==> lo.x <= q.x
    ensures OnHullBoundary(s, lo) && SideSupported(s, lo, v)
  {
    assert Supports(s, lo, -1.0, 0.0);
  }

  /** A point of greatest x supports s with normal (1, 0), and nothing of s lies to its right. */
  lemma RightmostOnBoundary(s: set<Point>, hi: Point, v: char)
    requires hi in s && forall q :: q in s ==> q.x <= hi.x
    ensures OnHullBoundary(s, hi) && SideSupported(s, hi, v)
  {
    assert Supports(s, hi, 1.0, 0.0);
  }

  /** The line through r with normal (dx, dy) has every other point of s strictly on its inner side. */
  ghost predicate StrictlySupports(s: set<Point>, r: Point, dx: real, dy: real)
  {
    forall q :: q in s && q != r ==> dx * q.x + dy * q.y < dx * r.x + dy * r.y
  }

  /** r is a vertex (a corner) of the convex hull of s: some direction has r as its only maximiser over s. */
  ghost predicate IsVertex(s: set<Point>, r: Point)
  {
    r in s && exists dx: real, dy: real :: StrictlySupports(s, r, dx, dy)
  }

  /** The barycentric identity: Orient(a, b, c) * q is the combination of a, b, c weighted by the sub-triangle areas. */
  lemma Barycentric(a: Point, b: Point, c: Point, q: Point)
    ensures Orient(q, b, c) + Orient(a, q, c) + Orient(a, b, q) == Orient(a, b, c)
    ensures Orient(a, b, c) * q.x == Orient(q, b, c) * a.x + Orient(a, q, c) * b.x + Orient(a, b, q) * c.x
    ensures Orient(a, b, c) * q.y == Orient(q, b, c) * a.y + Orient(a, q, c) * b.y + Orient(a, b, q) * c.y
  {
  }

  lemma NonNegProduct(w: real, u: real)
    requires w >= 0.0 && u >= 0.0
    ensures w * u >= 0.0
  {
  }

  /**
    A point q in the closed triangle a, b, c (the three areas q cuts have the
    sign of the whole) reaches no farther in direction (dx, dy) than the
    farthest of a, b and c.
   */
  lemma TriangleReaches(a: Point, b: Point, c: Point, q: Point, dx: real, dy: real)
    requires Orient(a, b, c) != 0.0
    requires Orient(q, b, c) * Orient(a, b, c) >= 0.0
    requires Orient(a, q, c) * Orient(a, b, c) >= 0.0
    requires Orient(a, b, q) * Orient(a, b, c) >= 0.0
    ensures dx * q.x + dy * q.y <= dx * a.x + dy * a.y ||
            dx * q.x + dy * q.y <= dx * b.x + dy * b.y ||
            dx * q.x + dy * q.y <= dx * c.x + dy * c.y
  {
    var ga, gb, gc, gq := dx * a.x + dy * a.y, dx * b.x + dy * b.y, dx * c.x + dy * c.y, dx * q.x + dy * q.y;
    var m := if ga >= gb && ga >= gc then ga else if gb >= gc then gb else gc;
    BarycentricReach(a, b, c, q, dx, dy);
    WeightedMean(Orient(a, b, c), Orient(q, b, c), Orient(a, q, c), Orient(a, b, q), ga, gb, gc, gq, m);
  }

  /** The barycentric identity taken in direction (dx, dy). */
  lemma BarycentricReach(a: Point, b: Point, c: Point, q: Point, dx: real, dy: real)
    ensures Orient(q, b, c) + Orient(a, q, c) + Orient(a, b, q) == Orient(a, b, c)
    ensures Orient(a, b, c) * (dx * q.x + dy * q.y) ==
            Orient(q, b, c) * (dx * a.x + dy * a.y) + Orient(a, q, c) * (dx * b.x + dy * b.y) +
            Orient(a, b, q) * (dx * c.x + dy * c.y)
  {
    Barycentric(a, b, c, q);
    Combine(Orient(a, b, c), Orient(q, b, c), Orient(a, q, c), Orient(a, b, q), a, b, c, q, dx, dy);
  }

  /** A factor whose product with a non-zero d is non-negative has the sign of d. */
  lemma SameSign(w: real, d: real)
    requires d != 0.0 && w * d >= 0.0
    ensures d > 0.0 ==> w >= 0.0
    ensures d < 0.0 ==> w <= 0.0
  {
  }
  /** A mean of ga, gb, gc whose weights share the sign of their sum d is at most a bound m of all three. */
  lemma WeightedMean(d: real, w1: real, w2: real, w3: real, ga: real, gb: real, gc: real, gq: real, m: real)
    requires d != 0.0 && w1 * d >= 0.0 && w2 * d >= 0.0 && w3 * d >= 0.0 && d == w1 + w2 + w3
    requires d * gq == w1 * ga + w2 * gb + w3 * gc
    requires ga <= m && gb <= m && gc <= m
    ensures gq <= m
  {
    SameSign(w1, d);
    SameSign(w2, d);
    SameSign(w3, d);
    var s := if d > 0.0 then 1.0 else -1.0;
    NonNegProduct(s * w1, m - ga);
    NonNegProduct(s * w2, m - gb);
    NonNegProduct(s * w3, m - gc);
    assert (s * d) * (m - gq) == (s * w1) * (m - ga) + (s * w2) * (m - gb) + (s * w3) * (m - gc);
    SameSign(m - gq, s * d);
  }

  /** A weighted sum of points, taken in direction (dx, dy), is the same weighted sum of their reaches. */
  lemma Combine(k: real, k1: real, k2: real, k3: real, a: Point, b: Point, c: Point, q: Point, dx: real, dy: real)
    requires k * q.x == k1 * a.x + k2 * b.x + k3 * c.x
    requires k * q.y == k1 * a.y + k2 * b.y + k3 * c.y
    ensures k * (dx * q.x + dy * q.y) ==
            k1 * (dx * a.x + dy * a.y) + k2 * (dx * b.x + dy * b.y) + k3 * (dx * c.x + dy * c.y)
  {
    assert k * (dx * q.x + dy * q.y) == dx * (k * q.x) + dy * (k * q.y);
    assert dx * (k1 * a.x + k2 * b.x + k3 * c.x) == k1 * (dx * a.x) + k2 * (dx * b.x) + k3 * (dx * c.x);
    assert dy * (k1 * a.y + k2 * b.y + k3 * c.y) == k1 * (dy * a.y) + k2 * (dy * b.y) + k3 * (dy * c.y);
  }

  /**
    A point of s inside the closed triangle a, b, c of s that is none of a,
    b, c is not a vertex: in every direction one of a, b, c reaches at least
    as far.
   */
  lemma InTriangleNotVertex(s: set<Point>, a: Point, b: Point, c: Point, q: Point)
    requires a in s && b in s && c in s && q != a && q != b && q != c
    requires Orient(a, b, c) != 0.0
    requires Orient(q, b, c) * Orient(a, b, c) >= 0.0
    requires Orient(a, q, c) * Orient(a, b, c) >= 0.0
    requires Orient(a, b, q) * Orient(a, b, c) >= 0.0
    ensures !IsVertex(s, q)
  {
    forall dx: real, dy: real
      ensures !StrictlySupports(s, q, dx, dy)
    {
      TriangleReaches(a, b, c, q, dx, dy);
    }
  }

  /** A point strictly between lo and hi on the segment joining them reaches no farther in any direction than one of them. */
  lemma SegmentReaches(lo: Point, hi: Point, q: Point, dx: real, dy: real)
    requires lo.x < q.x < hi.x
    requires Orient(lo, hi, q) == 0.0
    ensures dx * q.x + dy * q.y <= dx * lo.x + dy * lo.y || dx * q.x + dy * q.y <= dx * hi.x + dy * hi.y
  {
    var gl, gh, gq := dx * lo.x + dy * lo.y, dx * hi.x + dy * hi.y, dx * q.x + dy * q.y;
    var m := if gl >= gh then gl else gh;
    var w1, w2 := hi.x - q.x, q.x - lo.x;
    assert (w1 + w2) * q.y == w1 * lo.y + w2 * hi.y;
    assert (w1 + w2) * gq == w1 * gl + w2 * gh;
    NonNegProduct(w1, w1 + w2);
    NonNegProduct(w2, w1 + w2);
    WeightedMean(w1 + w2, w1, w2, 0.0, gl, gh, gl, gq, m);
  }

  /** A point of s strictly between lo and hi on the segment joining them is not a vertex. */
  lemma OnSegmentNotVertex(s: set<Point>, lo: Point, hi: Point, q: Point)
    requires lo in s && hi in s && lo.x < q.x < hi.x
    requires Orient(lo, hi, q) == 0.0
    ensures !IsVertex(s, q)
  {
    forall dx: real, dy: real
      ensures !StrictlySupports(s, q, dx, dy)
    {
      SegmentReaches(lo, hi, q, dx, dy);
    }
  }

  /**
    On a call that `HullCall` describes, a point beyond the border lies
    strictly between the border's ends in x: beyond either end it would put
    that end strictly inside a segment of s.
   */
  lemma BeyondIsBetween(s: set<Point>, points: set<Point>, border: Line, v: char, f: Point)
    requires HullCall(s, points, border, v) && f in points
    ensures Sign(f.x - border.pointA.x) == Sign(border.pointB.x - border.pointA.x)
    ensures Sign(border.pointB.x - f.x) == Sign(border.pointB.x - border.pointA.x)
  {
    var A, B := border.pointA, border.pointB;
    CheckIfAboveMatchesOrient(border, f);
    var D := Orient(A, B, f);
    assert Sign(D) * Sign(B.x - A.x) == Plus(v);
    assert f.x != A.x && f.x != B.x by {
      DistanceIsScaledHeight(border, A);
      DistanceIsScaledHeight(border, B);
    }
    assert Orient(f, B, A) == -D && Orient(B, f, A) == D && Orient(A, f, B) == -D && Orient(f, A, B) == D;
    assert f.x < A.x < B.x ==> SideSign(v) * Orient(f, B, A) >= 0.0;
    assert A.x < B.x < f.x ==> SideSign(v) * Orient(A, f, B) >= 0.0;
    assert B.x < A.x < f.x ==> SideSign(v) * Orient(B, f, A) >= 0.0;
    assert f.x < B.x < A.x ==> SideSign(v) * Orient(f, A, B) >= 0.0;
  }

  /**
    On a call that `HullCall` describes, with F a farthest point, a vertex of
    the hull in the set other than F lies beyond one of the two new edges
    (from either end of the border to F): a point beyond neither lies in the
    triangle of the border and F.
   */
  lemma VertexBeyondAnEdge(s: set<Point>, points: set<Point>, border: Line, v: char, f: Point, q: Point)
    requires HullCall(s, points, border, v) && IsFurthest(border, points, f)
    requires q in points && q != f
    requires f.x != border.pointA.x && f.x != border.pointB.x
    ensures IsVertex(s, q) ==>
              CheckIfAbove(MakeLine(border.pointA, f), q) == Plus(v) ||
              CheckIfAbove(MakeLine(border.pointB, f), q) == Plus(v)
  {
    var A, B := border.pointA, border.pointB;
    if CheckIfAbove(MakeLine(A, f), q) != Plus(v) && CheckIfAbove(MakeLine(B, f), q) != Plus(v) {
      var D := Orient(A, B, f);
      var sr := Sign(B.x - A.x);
      CheckIfAboveMatchesOrient(border, f);
      CheckIfAboveMatchesOrient(border, q);
      BeyondIsBetween(s, points, border, v, f);
      CheckIfAboveMatchesOrient(MakeLine(A, f), q);
      CheckIfAboveMatchesOrient(MakeLine(B, f), q);
      assert Sign(f.x - B.x) == -sr;
      assert Sign(D) * sr == Plus(v) && Sign(Orient(A, B, q)) * sr == Plus(v);
      assert Sign(Orient(A, f, q)) * sr != Sign(D) * sr;
      assert Sign(Orient(B, f, q)) * -sr != Sign(D) * sr;
      assert Orient(A, q, f) == -Orient(A, f, q) && Orient(q, B, f) == Orient(B, f, q);
      assert CheckIfAbove(border, A) == 0 && CheckIfAbove(border, B) == 0;
      InTriangleNotVertex(s, A, B, f, q);
    }
  }
}
