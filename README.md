# Quickhull in Dafny

A model of the quickhull engine of the ConvexHull console program (C#). The
program computes the convex hull of a set of 2D points. It joins the
least and the greatest point (ordered by x, then y) with a border line. It
splits the other points by the side of that line they lie on. On each side it
recursively finds the point farthest from the current edge, builds the two
new edges through that point, and recurses on the points beyond each edge.

The model has four modules:

- `Geometry`: `Point` (ConvexHull/Program.cs:162-177) and `Line`
  (ConvexHull/Program.cs:181-202) as values. It holds the line's
  slope-and-intercept constructor `MakeLine`, the three-way side test
  `CheckIfAbove` and the distance `CalculateDistance`. It also holds
  `FindFurthest`, a loop that scans a set for its farthest point.
- `Convexity`: the geometric facts the recursion relies on. `HullCall` is
  what a recursive call may assume:
  - its set is exactly the part of the whole input strictly beyond its
    border;
  - both ends of the border lie on the hull boundary.

  It yields `OnHullBoundary`: a line through the point has the whole input
  on one side. `IsVertex` is the stronger notion of a corner of the hull:
  some direction has the point as its only farthest point. A point inside
  a triangle of input points, or on a segment between two of them, is not
  a corner.
- `Quickhull`: `SelectAboveOrBelow` (a loop over a set), `FindMinAndMax`,
  and the recursive `FindConvexPoints` and top-level `FindConvexHull`. The
  last two come in two forms:
  - as the source writes them (`...AsWritten`);
  - corrected, which is the form the rest of the model uses.
- `Examples`: concrete inputs that show the two defects listed under
  Findings, and small hulls (a triangle, collinear points, a pentagon)
  computed by the corrected driver.

Coordinates are exact reals. `HashSet<Point>` is `set<Point>` and
`List<Point>` is `seq<Point>`. The source enumerates a `HashSet` in an
unspecified order. The loops model this by picking an arbitrary remaining
element with `:|`. `FindFurthest` returns the order it visited the points in
as a ghost value, so its tie-breaking rule can be stated.

Two points about the code itself:

- The side test compares y against y = a * x + b, as the code does.
  `CheckIfAboveMatchesOrient` proves that it agrees with the cross-product
  orientation test on every non-vertical line.
- Quickhull as usually stated keeps the farthest point at every step. This
  code does not; see Findings.

The corrected driver `FindConvexHull` diverges from the source on purpose.
It guards the empty list, a single distinct point and an empty side of the
border, on each of which the source throws. The as-written
`FindConvexHullAsWritten` instead requires inputs that avoid them.

## Model

| member | source | states |
|---|---|---|
| Geometry.SlopeInterceptFit | ConvexHull/Program.cs:199-200 | the slope (B.y - A.y) / (B.x - A.x) and intercept (B.x * A.y - A.x * B.y) / (B.x - A.x) give a line through both points |
| Geometry.MakeLine | ConvexHull/Program.cs:181-202 | for points of distinct x, the line keeps them as pointA and pointB and passes through both |
| Geometry.EndpointsOnLine | ConvexHull/Program.cs:195-202 | `CheckIfAbove` answers 0 for both points the line was built from |
| Geometry.CheckIfAbove | ConvexHull/Program.cs:250-265 | the answer is always 1, 0 or -1: 0 exactly when y = a * x + b, 1 exactly when the point is above, -1 exactly when below |
| Geometry.HeightScaled | ConvexHull/Program.cs:250-265 | on a line through its two points, the vertical offset of p times the run equals the cross product (B - A) x (p - A) |
| Geometry.CheckIfAboveMatchesOrient | ConvexHull/Program.cs:250-265 | the side test equals the sign of the cross product times the sign of the run, so it agrees with the orientation test |
| Geometry.CalculateDistance | ConvexHull/Program.cs:236-244 | the distance numerator is non-negative and equals the absolute cross product of p against pointA and pointB |
| Geometry.DistanceIsScaledHeight | ConvexHull/Program.cs:236-244 | the distance is the absolute vertical offset times the run; it is zero exactly when `CheckIfAbove` answers 0 |
| Geometry.FindFurthest | ConvexHull/Program.cs:216-230 | the scan visits each point once; it returns nothing exactly when every distance is 0 (the empty set included); otherwise the answer is in the set, has positive distance that no member exceeds, and is strictly farther than every point visited before it (the earliest maximum wins) |
| Convexity.FartherMeansHigher | ConvexHull/Program.cs:216-230 | on one side of a line, a distance no larger means an offset beyond the line no larger |
| Convexity.FurthestMaximisesOffset | ConvexHull/Program.cs:102 | no point of the input has a larger offset beyond the border than a farthest point of the part beyond it |
| Convexity.FurthestSupports | ConvexHull/Program.cs:102 | a farthest point of the part of the input beyond the border maximises the offset over the whole input, so the parallel through it supports the input |
| Convexity.FurthestOnBoundary | ConvexHull/Program.cs:102 | that farthest point lies on the hull boundary and no segment of the input passes beyond it |
| Convexity.ExactPreserved | ConvexHull/Program.cs:103-107 | when the set is exactly the part of the input beyond the border, the points of it beyond an edge from a supported border end to the farthest point are exactly the points of the input beyond that edge |
| Convexity.FarSideNotBeyond | ConvexHull/Program.cs:103-107 | an input point on the other side of a supported border end, seen from the farthest point, is not beyond the new edge |
| Convexity.NearSideBeyond | ConvexHull/Program.cs:103-107 | a point beyond the new edge, on the same side of the border end as the farthest point, is beyond the old border |
| Convexity.LeftmostOnBoundary | ConvexHull/Program.cs:153-157 | a point of least x lies on the hull boundary and nothing passes beyond it |
| Convexity.RightmostOnBoundary | ConvexHull/Program.cs:153-157 | a point of greatest x lies on the hull boundary and nothing passes beyond it |
| Convexity.TriangleReaches | ConvexHull/Program.cs:103-107 | a point in the closed triangle of three points reaches, in any direction, no farther than the farthest of the three |
| Convexity.InTriangleNotVertex | ConvexHull/Program.cs:103-107 | a point of the input inside the closed triangle of three other input points is not a corner of the hull |
| Convexity.SegmentReaches | ConvexHull/Program.cs:79-80 | a point strictly between the ends of a segment, on it, reaches no farther in any direction than one end |
| Convexity.OnSegmentNotVertex | ConvexHull/Program.cs:79-80 | an input point on the segment strictly between two other input points is not a corner of the hull |
| Convexity.BeyondIsBetween | ConvexHull/Program.cs:102-104 | on a well-described call, every point beyond the border lies strictly between the border's ends in x |
| Convexity.VertexBeyondAnEdge | ConvexHull/Program.cs:103-107 | on a well-described call, a corner of the hull in the set, other than the farthest point, lies beyond one of the two new edges |
| Convexity.Plus | ConvexHull/Program.cs:136 | the character '+' selects side 1 and every other character side -1 |
| Quickhull.ToSet | ConvexHull/Program.cs:79-80 | `ToHashSet` keeps exactly the points of the list, at most one per entry, and is empty only for the empty list |
| Quickhull.LexLe | ConvexHull/Program.cs:155 | the x-then-y order puts a point of smaller x first and never puts a point of larger x before one of smaller x |
| Quickhull.LexLeTotalOrder | ConvexHull/Program.cs:155-156 | the x-then-y order is total, antisymmetric and transitive, so the first and last of the sorted list are the least and the greatest point |
| Quickhull.SelectAboveOrBelow | ConvexHull/Program.cs:133-147 | the loop returns exactly the points of the set that `CheckIfAbove` puts on side 1 for '+' and -1 for any other character |
| Quickhull.SelectionIsExactFilter | ConvexHull/Program.cs:133-147 | the selection is a subset, keeps a point exactly when its side matches, and never keeps a point on the line |
| Quickhull.SidesDisjoint | ConvexHull/Program.cs:79-80 | the '+' and '-' selections for one line share no point |
| Quickhull.FindMinAndMax | ConvexHull/Program.cs:153-157 | on a non-empty list, both answers are members of the list; the first is (x, then y) at most every member and the second at least every member |
| Quickhull.ApexOffBorder | ConvexHull/Program.cs:102-104 | the farthest point differs in x from both border ends, so both new edges are non-vertical |
| Quickhull.SubCallWellFormed | ConvexHull/Program.cs:103-107 | each sub-set excludes the farthest point, which lies on the new edge, so it is a strict subset; this is the measure the recursion decreases |
| Quickhull.SubCallOnHull | ConvexHull/Program.cs:102-107 | on a well-described call, the farthest point is on the hull boundary and both recursive calls are again well described |
| Quickhull.SelectedIsBeyond | ConvexHull/Program.cs:103-107 | the sub-set selected by slope and intercept is the set of points beyond the new edge by orientation |
| Quickhull.SplitsBothIsNonEmpty | ConvexHull/Program.cs:108-123 | a point splits both ways exactly when both sub-sets built for it are non-empty |
| Quickhull.FindConvexPoints | ConvexHull/Program.cs:99-125 | corrected: on a set with a point off the border, the result is a non-empty subset holding a farthest point; when the set is the part of the input beyond a border whose ends are on the hull boundary, every returned point is on the hull boundary of the input and every corner of the hull in the set is returned |
| Quickhull.VerticesKept | ConvexHull/Program.cs:102-123 | when each recursive result keeps the corners in its sub-set, the corners of the set are all among the two results and the farthest point |
| Quickhull.FindConvexPointsAsWritten | ConvexHull/Program.cs:99-125 | as written: the result is a non-empty subset, and a unique farthest point is in it exactly when it does not split both ways |
| Quickhull.ExtremesOnBoundary | ConvexHull/Program.cs:76-77 | the least and greatest points lie on the hull boundary with nothing beyond them on either side |
| Quickhull.TopCall | ConvexHull/Program.cs:77-83 | for extremes of distinct x, each side of the border is a well-described call |
| Quickhull.SinglePoint | ConvexHull/Program.cs:76-78 | extremes of equal x, with distinct x throughout, mean the input is a single point |
| Quickhull.VertexOffDiameter | ConvexHull/Program.cs:78-80 | a corner of the hull other than the two extremes lies strictly above or below the line joining them |
| Quickhull.DiameterAssembled | ConvexHull/Program.cs:85-89 | the extremes and the two side results hold every corner of the hull, and no other point on the line joining the extremes |
| Quickhull.FindConvexHull | ConvexHull/Program.cs:75-91 | corrected: the result is a subset of the input, holds both extremes of a non-empty list, holds only points on the hull boundary of the input, holds every corner of the hull, and holds no point other than the extremes on the line joining them |
| Quickhull.ExtremesApart | ConvexHull/Program.cs:76-78 | a point off the segment between the extremes forces them to distinct x, the least one to the left |
| Quickhull.SideCall | ConvexHull/Program.cs:79-83 | a side holding a point of the list is a valid argument of `FindConvexPoints` |
| Quickhull.FindConvexHullAsWritten | ConvexHull/Program.cs:75-91 | as written, on a list with points strictly on both sides of the segment between its extremes: the result is a subset of the input holding both extremes |
| Examples.ApexIsOnlyFurthest | ConvexHull/Program.cs:216-230 | over that border, (5, 10) is strictly farther than (1, 5) and (9, 5) |
| Examples.ApexSplitsBoth | ConvexHull/Program.cs:103-107 | (1, 5) and (9, 5) lie beyond the two new edges through (5, 10) |
| Examples.ApexOnHull | ConvexHull/Program.cs:99-125 | (5, 10) is on the hull boundary of the pentagon |
| Examples.ApexCallValid | ConvexHull/Program.cs:99-107 | the call on (1, 5), (5, 10), (9, 5) over y = 0 from (0, 0) to (10, 0) meets the requirements of both recursions, (5, 10) is its one farthest point, and a point lies beyond each new edge |
| Examples.ApexInput | ConvexHull/Program.cs:99-107 | builds that call and hands on the same facts |
| Examples.DroppedApexExample | ConvexHull/Program.cs:108-123 | on that input, the as-written recursion loses (5, 10) and the corrected one keeps it |
| Examples.TriangleHasNothingBelow | ConvexHull/Program.cs:79-83 | the triangle (0, 0), (4, 0), (2, 4) has extremes (0, 0) and (4, 0) and no point below them, so the as-written driver's requirement fails |
| Examples.TriangleApexIsVertex | ConvexHull/Program.cs:75-91 | (2, 4) is a corner of that triangle |
| Examples.TriangleExample | ConvexHull/Program.cs:75-91 | the corrected driver returns the whole triangle |
| Examples.CollinearExtremes | ConvexHull/Program.cs:153-157 | the extremes of (0, 0), (1, 0), (2, 0), (3, 0) are (0, 0) and (3, 0) |
| Examples.CollinearInput | ConvexHull/Program.cs:75-80 | the four points on the x-axis have distinct x, extremes (0, 0) and (3, 0), and all lie on the line joining them |
| Examples.CollinearExample | ConvexHull/Program.cs:75-91 | on those four collinear points the corrected driver returns only (0, 0) and (3, 0) |
| Examples.TiedMiddleNotVertex | ConvexHull/Program.cs:108-123 | over y = 0 from (0, 0) to (10, 0), (5, 5) ties (3, 5) and (7, 5) for the greatest distance and splits both ways, so the source drops it; with (5, -5) below it is not a corner of the input, since it lies inside the edge from (3, 5) to (7, 5) |
| Examples.TiedAtTop | ConvexHull/Program.cs:216-230 | the three points at height 5 all lie at the greatest distance from that border, so the scan may return (5, 5) |
| Examples.PentagonVertices | ConvexHull/Program.cs:75-91 | every point of the pentagon (0, 0), (10, 0), (1, 5), (5, 10), (9, 5) is a corner of its hull |
| Examples.PentagonDistinctX | ConvexHull/Program.cs:199-200 | no two points of the pentagon share an x coordinate, so no line between them is vertical |
| Examples.PentagonExample | ConvexHull/Program.cs:75-91 | on the whole pentagon the corrected driver returns all five corners, (5, 10) included |

## Left out

- `Main` and `ReadPointsFromFile` (ConvexHull/Program.cs:16-69): console and file I/O, number parsing and label generation.
- `Point.Name`, the `ToString` overrides and the unused `Line(double, double, string)` constructor: the labels are for display only and the constructor is never called.
- The `Line` class is a datatype: no field of a line changes after construction.
- `double` arithmetic: coordinates are exact reals. Rounding, `Math.Sqrt` and `Math.Pow` are not modelled, so an equality test such as `lineY == point.Y` is exact here.
- Geometry.CalculateDistance: returns the absolute numerator without the division by the length of AB. That length is a positive constant of the line, so the model orders points exactly as the source's distance does. The value itself differs.
- Reference identity of `Point`: the source's `Point` does not override `Equals`, so its `HashSet` tells apart two objects with the same coordinates. The model uses value equality, so such duplicates collapse into one point.
- The internals of `OrderBy`/`ThenBy`: `FindMinAndMax` is stated by the least and greatest element in x-then-y order.
- Vertical lines: `MakeLine` requires only that its two points differ in x. The operations on a line (`CheckIfAbove`, `CalculateDistance`, `FindFurthest`, `SelectAboveOrBelow`) require nothing; the lemmas that relate them to orientation assume the line was built from two such points (`ValidLine`). Pairwise distinct x over the whole input (`DistinctX`) is required only by `FindConvexPoints`, `FindConvexPointsAsWritten`, `FindConvexHull` and `FindConvexHullAsWritten`, because those build lines between arbitrary input points. With equal x the source's `Line(Point, Point)` divides by zero (ConvexHull/Program.cs:199-200) and then works with infinities or NaN.
- Quickhull.FindConvexPoints: requires a point off the border. On any other set `FindFurthest` returns null, line 103 passes it to `new Line`, and the constructor dereferences it (ConvexHull/Program.cs:199-200).
- Quickhull.FindConvexHull: states that every returned point is on the hull boundary, not that it is a corner. The correction keeps the farthest point at every step. When points tie at the greatest distance and a middle one is scanned first, it returns that point, which lies inside a hull edge; the source as written drops it (`Examples.TiedMiddleNotVertex`).

## Findings

| source | as written | input that shows it | evidently intended | confidence | as-written member | corrected member |
|---|---|---|---|---|---|---|
| ConvexHull/Program.cs:108-123 | `furthest` is added to the result only when `firstSet` or `secondSet` is empty | border (0, 0)-(10, 0) with (1, 5), (5, 10), (9, 5) above it: the result is {(1, 5), (9, 5)} and the hull vertex (5, 10) is lost | the farthest point, always a hull boundary point, is always added; when points tie at the greatest distance this also keeps a middle one that lies inside a hull edge (`Examples.TiedMiddleNotVertex`), which the code as written drops | not executed | Quickhull.FindConvexPointsAsWritten, Examples.DroppedApexExample | Quickhull.FindConvexPoints |
| ConvexHull/Program.cs:79-83 | `FindConvexPoints` is called on `above` and `below` even when one is empty; `FindFurthest` then returns null, line 103 passes it to `new Line`, and the constructor dereferences it at ConvexHull/Program.cs:199-200 (`B.Y`, `B.X`) | the triangle (0, 0), (4, 0), (2, 4): nothing lies below the border (0, 0)-(4, 0) | an empty side contributes no points | not executed | Quickhull.FindConvexHullAsWritten, Examples.TriangleHasNothingBelow | Quickhull.FindConvexHull |
