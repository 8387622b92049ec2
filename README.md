# Geometry — a Dafny model

This project models the exact-arithmetic core of Geometry, a small Python toolkit for 2-D shapes. It proves properties of that model. The model covers:

- **Points.** `Vertice`: the componentwise operators, the cross product, exact equality, the both-axes partial order and the subscript keys.
- **Segments.** `Segment`: the vector, the three overloads of `*` and the axis tests.
- **Polygons.** `Polygon`:
  - the cyclic pairs of vertices;
  - the shoelace area;
  - the vertex-mean centre;
  - the in-place append and the in-place angular sort;
  - the `is_convex` loop;
  - the stack-based convex hull;
  - `Polygon.random`.
- **Rectangles.** `Rectangle`:
  - the four-vertex construction;
  - the `rows × cols` grid division;
  - the disabled mutators;
  - the corner canonicalisation of `Rectangle.random`.
- **Collections.** `Collection`:
  - indexing, length and `+`;
  - the 'poly' listing;
  - the validation of the `random` options and the type dispatch;
  - the recursive generator, with its per-cell share and its early exit.

Turns are read with the y axis pointing up: a positive `Segment * point` is a counter-clockwise (left) turn, and "clockwise" in the table below means a negative one. The source's comments read the same signs on a screen whose y axis points down.

Coordinates are Dafny `real`s, an exact stand-in for the Python floats. Three external services are parameters of the model, called oracles here:

- `random.randint`, a function of a draw number and the two bounds;
- `atan2`, an uninterpreted angle key;
- the largest-interior-rectangle library, which maps a vertex list to two corners.

A method that draws numbers takes the number `k` of its first draw and returns the number of the next. An object whose fields Python updates in place is a Dafny `class`: a `Polygon` holds a `seq<Vertice>` field. The other entities are datatypes.

Each imperative operation is a method proved against a specification function. The methods are the grid division, the hull scan, the convexity loop, the random drawing, the 'poly' listing and the generator loops. The lemmas are stated about the specification functions.

Where the code and its documentation disagree, the model follows the code:

- The docstrings of `Collection.random` give `1` for polygons and `0` for rectangles. The `match` in `generate_polygon` does the reverse: `0` is 'polygon' and `1` is 'rectangle'. `CollectionRandom.KindOf` follows the `match`.
- Type `3`/'convex' draws with `simplify=True`, not with `convex=True`.
- The hull's pop test compares the two bottom entries of the stack, `[1]` and `[0]`, not the top two. A pop, if the test ever fired, would collapse the stack to the pivot. Under the `atan2` order it never fires, because every later vertex lies on or above the first edge, so the result keeps every vertex and need not be convex: see the first row under "## Findings". `Hull.HullSpec` follows the code; the Graham scan that tests the top two entries is `Hull.FixedHullSpec`.
- `Rectangle.random` can return a flat rectangle: two draws that share a coordinate give a zero length or width (`Rectangles.RandomRectangleCanBeFlat`). The test `test_rectangle_random_creates_rectangle_with_positive_dimensions` (tests/geometry/shapes/test_rectangle.py:68-71) expects both to be positive; the model follows the code and proves only that neither is negative.
- `return NotImplemented(...)` and `raise NotImplemented(...)` call a value that is not callable. Every such path is a TypeError.
- Validation accepts a zero division, and the share computation then divides by zero.

## Model

A row for a definition with no contract of its own says what the definition models. It names, in parentheses, the lemmas or methods whose contracts state its properties.

| member | source | states |
|---|---|---|
| Utils.Sign | geometry/utilities/utils.py:6-19 | `sign(v)` is 1 exactly when v > 0, -1 exactly when v < 0 and 0 exactly when v = 0 |
| Utils.SignNegate | geometry/utilities/utils.py:19 | `sign(-v) == -sign(v)` |
| Utils.PyDiv | geometry/collection.py:275-276 | Python `//` rounds toward negative infinity: `q*b <= a < q*b + b` for b > 0, the mirror bounds for b < 0 |
| Utils.PyMod | geometry/collection.py:275-276 | Python `%`: `a == (a // b) * b + m`, with m in `[0, b)` for b > 0 and in `(b, 0]` for b < 0 |
| Utils.Trunc | geometry/vertice.py:309-314 | `int(x)` truncates toward zero: `n <= x < n + 1` for x >= 0, `n - 1 < x <= n` below |
| Utils.TruncMonotone | geometry/vertice.py:309-314 | `int(a) <= int(b)` when a <= b |
| Vertices.GetItem | geometry/vertice.py:39-58 | `v[key]` succeeds exactly for 0, 'x', 1, 'y'; 0/'x' give x and 1/'y' give y; other keys are a KeyError |
| Vertices.GetItemRecovers | geometry/vertice.py:53-58 | the two subscripts rebuild the point, 'x'/'y' agree with 0/1, and key 2 is refused |
| Vertices.Add | geometry/vertice.py:60-73 | `a + b` on two points: the coordinates add one by one; its laws with `-` and the origin are stated by `Vertices.AddSubInverse` |
| Vertices.Sub | geometry/vertice.py:75-88 | `a - b` on two points: the coordinates subtract one by one; it undoes `+` (`Vertices.AddSubInverse`) |
| Vertices.Scale | geometry/vertice.py:106-108 | `a * f` with f an int or a float: both coordinates times f; dividing by a non-zero f undoes it (`Vertices.DivUndoesScale`) |
| Vertices.Cross | geometry/vertice.py:110-112 | `a * b` with b a point: the z-component of the cross product; antisymmetric and linear in scaling (`Vertices.CrossAntisymmetric`) |
| Vertices.Div | geometry/vertice.py:122-137 | `v / f` fails exactly when f = 0, with ZeroDivisionError |
| Vertices.AddSubInverse | geometry/vertice.py:60-88 | `(a + b) - b == a`, `(a - b) + b == a`, `+` commutes, and the origin is neutral |
| Vertices.DivUndoesScale | geometry/vertice.py:106-137 | for f ≠ 0, dividing by f undoes scaling by f, in both orders |
| Vertices.CrossAntisymmetric | geometry/vertice.py:110-112 | `a*b == -(b*a)`, `a*a == 0`, and the cross product is linear in scaling |
| Vertices.Eq | geometry/vertice.py:159-174 | `a == b` on two points: both coordinates equal; it is value equality of the model (`Vertices.EqIsEquality`) |
| Vertices.Ne | geometry/vertice.py:176-187 | `a != b` as `not a == b` (`Vertices.EqIsEquality`) |
| Vertices.Ge | geometry/vertice.py:189-205 | `a >= b`: both coordinates at least those of b; the converse of `<=` (`Vertices.ComparisonsConverse`) |
| Vertices.Gt | geometry/vertice.py:207-223 | `a > b`: both coordinates greater; the converse of `<` (`Vertices.ComparisonsConverse`) |
| Vertices.Le | geometry/vertice.py:225-241 | `a <= b`: both coordinates at most those of b; a partial order (`Vertices.LeTransitive`, `Vertices.OrderNotTotal`) |
| Vertices.Lt | geometry/vertice.py:243-259 | `a < b`: both coordinates smaller; it implies `<=` and `!=` (`Vertices.ComparisonsConverse`) |
| Vertices.EqIsEquality | geometry/vertice.py:159-187 | `==` holds exactly for equal coordinates and `!=` is its negation |
| Vertices.ComparisonsConverse | geometry/vertice.py:189-259 | `a < b` iff `b > a`, `a <= b` iff `b >= a`, `<` implies `<=` and `!=`, and `<=` is antisymmetric |
| Vertices.LeTransitive | geometry/vertice.py:225-241 | `<=` is reflexive and transitive |
| Vertices.OrderNotTotal | geometry/vertice.py:189-259 | (1, 5) and (5, 1) are related by none of the four comparisons and are unequal |
| Vertices.RandomVertice | geometry/vertice.py:297-316 | `Vertice.random` succeeds exactly when the space has a vertex 2 and both truncated ranges are non-empty; it uses two draws; with a `randint` that honours its bounds the point lies in those ranges |
| Segments.GetItem | geometry/segment.py:29-43 | `s[i]` succeeds exactly for 0 and 1, giving the start and the end |
| Segments.SegmentEq | geometry/segment.py:90-99 | `s == o`: both ends equal under point equality; a copy is equal to its original (`Segments.Copy`) |
| Segments.SegmentNe | geometry/segment.py:101-110 | `s != o` as `not s == o` |
| Segments.Copy | geometry/segment.py:21-27 | `copy(s)` equals `s` end by end |
| Segments.Vector | geometry/segment.py:136-142 | `s.vector()`, the end minus the start (`Segments.VectorIsEndMinusStart`) |
| Segments.VerticeMul | geometry/vertice.py:90-120 | `Vertice.__mul__`: scaling by a number, the cross product with a point, the cross product with a segment's vector, a TypeError for anything else (`Segments.VerticeTimesSegment`, `Segments.OtherOperandRefused`) |
| Segments.SegmentMul | geometry/segment.py:45-72 | `Segment.__mul__`: the vector times a number, a point or another segment's vector, a TypeError for anything else (`Segments.SegmentTimesNumber`, `Segments.SegmentTimesPoint`, `Segments.SegmentTimesSegment`) |
| Segments.VectorIsEndMinusStart | geometry/segment.py:136-142 | `vector() == s[1] - s[0]`; it is zero exactly for a degenerate segment, and start + vector = end |
| Segments.VerticeTimesSegment | geometry/vertice.py:114-117 | a point times a segment is the point crossed with the segment's vector |
| Segments.SegmentTimesNumber | geometry/segment.py:59-61 | a segment times a number is its vector scaled by the number |
| Segments.SegmentTimesPoint | geometry/segment.py:63-65 | a segment times p is `vector × (p - s[0])`, which is 0 at both ends |
| Segments.SegmentTimesSegment | geometry/segment.py:67-69 | a segment times a segment is the cross product of their vectors, 0 when the other segment is degenerate |
| Segments.OtherOperandRefused | geometry/segment.py:71-72 | any other operand of `*`, for a point or a segment, is a TypeError |
| Segments.IsVertical | geometry/segment.py:120-126 | `is_vertical()`: both ends have the same x (`Segments.AxisTests`) |
| Segments.IsHorizontal | geometry/segment.py:128-134 | `is_horizontal()`: both ends have the same y (`Segments.AxisTests`) |
| Segments.Orientation | geometry/segment.py:63-65 | the value of `s * p` for a point p: positive when p lies counter-clockwise of s with the y axis up, zero at both ends (`Segments.SegmentTimesPoint`, `Segments.OrientationCyclic`) |
| Segments.AxisTests | geometry/segment.py:120-134 | `is_vertical` iff the vector's x is 0; `is_horizontal` iff its y is 0 |
| Segments.OrientationCyclic | geometry/segment.py:63-65 | the turn of three points is invariant under cyclic relabelling and changes sign when the segment is reversed |
| Sorting.StableSort | geometry/shapes/polygon.py:175 | `list.sort` and `sorted` with a key: a stable insertion sort under the key's order, a permutation that is sorted and leaves sorted input alone (`Sorting.SortPermutes`, `Sorting.SortSorts`, `Sorting.SortFixesSorted`) |
| Sorting.Insert | geometry/shapes/polygon.py:175 | inserting adds exactly one element and keeps the others |
| Sorting.SortPermutes | geometry/shapes/polygon.py:175 | the key sort returns a permutation of its input |
| Sorting.InsertSorted | geometry/shapes/polygon.py:175 | with a total order, inserting into a sorted list keeps it sorted |
| Sorting.SortSorts | geometry/shapes/polygon.py:189-193 | with a total order on the keys, the result is sorted |
| Sorting.SortFixesSorted | geometry/shapes/polygon.py:189-193 | the sort is stable: an already sorted list is returned unchanged |
| Sorting.SortIdempotent | geometry/shapes/polygon.py:175 | sorting twice gives the order of sorting once |
| Sorting.SortedHeadIsLeast | geometry/shapes/polygon.py:188-189 | the head of a sorted list may precede every element |
| PolygonMeasures.Zip | geometry/shapes/polygon.py:99 | `zip` stops at the shorter list and pairs equal positions |
| PolygonMeasures.Couples | geometry/shapes/polygon.py:91-99 | `couples()` has one pair per vertex, pair i being `(v[i], v[(i+1) % n])` |
| PolygonMeasures.SumCross | geometry/shapes/polygon.py:119 | `sum(v1 * v2 for v1, v2 in couples)`, accumulated left to right (`PolygonMeasures.CouplesSum`) |
| PolygonMeasures.Area | geometry/shapes/polygon.py:111-119 | `area()`: half the cyclic sum of cross products, the signed shoelace area; negated by reversal and kept by translation (`PolygonMeasures.AreaReverse`, `PolygonMeasures.AreaTranslate`) |
| PolygonMeasures.CouplesSum | geometry/shapes/polygon.py:111-119 | the cyclic cross sum is the open chain's sum plus the closing pair's cross product |
| PolygonMeasures.AreaReverse | geometry/shapes/polygon.py:111-119 | reversing the vertex order negates `area()` |
| PolygonMeasures.AreaTranslate | geometry/shapes/polygon.py:111-119 | translating every vertex leaves `area()` unchanged |
| PolygonMeasures.AreaOfRightTriangle | geometry/shapes/polygon.py:111-119 | the triangle (0,0), (4,0), (0,3) has area 6, and -6 in reverse order |
| PolygonMeasures.Center | geometry/shapes/polygon.py:148-164 | `center()` fails exactly below 3 vertices, with AssertionError |
| PolygonMeasures.CenterPermutationInvariant | geometry/shapes/polygon.py:159-164 | the centre does not depend on the order of the vertices |
| Hull.YXLeq | geometry/shapes/polygon.py:189 | the order of the key `(vertice.y, vertice.x)`: tuples compared lexicographically |
| Hull.AngleXLeq | geometry/shapes/polygon.py:193 | the order of the key `(vertice.angle(pivot), vertice.x)` |
| Hull.PopsAt | geometry/shapes/polygon.py:202 | the pop test as written: at least two entries, and the new vertex lies clockwise of the segment from the pivot `stack[0]` to `stack[1]` |
| Hull.Step | geometry/shapes/polygon.py:200-204 | one iteration of the `for` loop: once the test holds it keeps holding, so the stack falls back to the pivot, and then the vertex is pushed (`Hull.ScanWithoutPops`, `Hull.TriangleScan`) |
| Hull.HullOrder | geometry/shapes/polygon.py:186-193 | the pivot sort followed by the angle sort of the tail permutes the vertices |
| Hull.Scan | geometry/shapes/polygon.py:195-204 | the stack holds between 2 and k entries, starts with the pivot and ends with the last vertex handled |
| Hull.HullSpec | geometry/shapes/polygon.py:177-206 | `convex_hull()` fails exactly below 2 vertices, with IndexError |
| Hull.GrahamScan | geometry/shapes/polygon.py:195-204 | the for/while stack loop computes the scan |
| Hull.HullIsSubsequence | geometry/shapes/polygon.py:195-206 | the hull is a subsequence of the sorted copy, with between 2 and n vertices |
| Hull.HullVerticesComeFromPolygon | geometry/shapes/polygon.py:177-206 | every hull vertex is a vertex of the polygon |
| Hull.HullStartsAtPivot | geometry/shapes/polygon.py:188-197 | the hull starts with the least vertex by `(y, x)`, which is never popped |
| Hull.TriangleScan | geometry/shapes/polygon.py:199-204 | a triangle survives the scan unchanged exactly when its third vertex does not turn clockwise |
| Hull.OwnOrderTriangleHull | geometry/shapes/polygon.py:177-206 | a triangle that the hull sort leaves in place and whose third vertex does not turn clockwise is its own hull |
| Hull.RightTrianglePivotSort | geometry/shapes/polygon.py:189 | sorting (0,0), (1,0), (0,1) by `(y, x)` leaves it in place |
| Hull.RightTriangleOrder | geometry/shapes/polygon.py:186-193 | the hull sort leaves (0,0), (1,0), (0,1) in place under an angle key that puts (1,0) before (0,1) |
| Hull.RightTriangleTurn | geometry/shapes/polygon.py:202 | that triangle's third vertex turns counter-clockwise (turn 1) |
| Hull.RightTriangleScan | geometry/shapes/polygon.py:195-204 | the scan pops nothing from that triangle and keeps it whole |
| Hull.RightTriangleHull | tests/geometry/shapes/test_polygon.py:65-67 | `convex_hull()` of the test triangle (0,0), (1,0), (0,1) returns its vertices unchanged, under an angle key that puts (1,0) before (0,1) |
| Hull.HullOrderTailSorted | geometry/shapes/polygon.py:191-193 | after the pivot, the hull order is sorted by `(angle, x)` around the pivot |
| Hull.SortedTriangleHull | tests/geometry/shapes/test_polygon.py:65-67 | a triangle already in pivot-then-angle order is its own hull, when the angle key behaves as `atan2` around the pivot (`AngleMatchesTurn`) |
| Hull.ScanWithoutPops | geometry/shapes/polygon.py:200-204 | when no vertex after the first two lies clockwise of the first edge, the scan as written pops nothing and keeps every vertex handled |
| Hull.HullIsOrderWithoutPops | geometry/shapes/polygon.py:177-206 | under the same condition on the sorted copy, `convex_hull()` returns the whole sorted copy |
| Hull.FixedHullSpec | geometry/shapes/polygon.py:177-206 | the Graham scan testing the top two entries fails exactly below 2 vertices, with IndexError |
| Hull.TopPopsAt | geometry/shapes/polygon.py:202 | the corrected pop test: the top two entries and the new vertex turn clockwise |
| Hull.TopStep | geometry/shapes/polygon.py:200-204 | one iteration of the corrected loop: pop while the top test holds, then push; it keeps every turn counter-clockwise (`Hull.TopStepTurnsLeft`) |
| Hull.TopScan | geometry/shapes/polygon.py:195-204 | the corrected stack after the vertices `2 .. k-1` (`Hull.TopScanTurnsLeft`) |
| Hull.TopStepTurnsLeft | geometry/shapes/polygon.py:202-204 | popping while the top two entries turn clockwise from the new vertex, then pushing it, keeps a stack whose every consecutive triple turns left |
| Hull.TopScanTurnsLeft | geometry/shapes/polygon.py:195-204 | the corrected stack holds between 2 and k entries, starts at the pivot, ends at the last vertex handled and never turns clockwise |
| Hull.FixedHullTurnsLeft | geometry/shapes/polygon.py:177-206 | the corrected hull starts at the pivot, has between 2 and n vertices and never turns clockwise |
| HullSquare.SquareHullOrder | geometry/shapes/polygon.py:186-193 | the pivot and angle sorts put the unit square with its centre in the order (0,0), (1,0), centre, (1,1), (0,1), the centre first on its tie with (1,1) for its smaller x |
| HullSquare.AsWrittenHullKeepsCentre | geometry/shapes/polygon.py:177-206 | as written, the hull of the unit square with its centre is all five vertices, a polygon that is not convex |
| HullSquare.TopScanOfSquare | geometry/shapes/polygon.py:200-204 | the corrected scan over that order pops the centre and keeps the four corners |
| HullSquare.FixedHullIsCorners | geometry/shapes/polygon.py:177-206 | the corrected hull of that input is the four corners, a convex polygon |
| Convexity.Turn | geometry/shapes/polygon.py:222-229 | the turn at index i: `Segment([self[i], self[(i+1) % n]]) * self[(i+2) % n]` (`Convexity.TurnInside`) |
| Convexity.ConvexSpec | geometry/shapes/polygon.py:208-241 | what `is_convex()` decides: fewer than 4 vertices, or no two non-zero turns of opposite sign (`Convexity.ConvexIffOneSided`, `Polygons.Polygon.IsConvex`) |
| Convexity.WrapIsMod | geometry/shapes/polygon.py:222-225 | the wrap-around index equals `j % n` for the indices the loop uses |
| Convexity.ConvexIffOneSided | geometry/shapes/polygon.py:208-241 | with 4 or more vertices, the convexity test holds exactly when all turns are ≥ 0 or all are ≤ 0 |
| Convexity.TurnInside | geometry/shapes/polygon.py:222-229 | away from the wrap-around, a turn is the turn of three consecutive vertices |
| Convexity.MixedTurnsNotConvex | geometry/shapes/polygon.py:233-239 | a positive and a negative turn make the polygon non-convex |
| Convexity.UnitSquareIsConvex | geometry/shapes/polygon.py:208-241 | the unit square is convex |
| Convexity.DentedSquareIsNotConvex | geometry/shapes/polygon.py:208-241 | (0,0), (1,0), (0.2,0.2), (0,1) is not convex |
| Convexity.DentedPentagonIsNotConvex | geometry/shapes/polygon.py:208-241 | the square with (0.5, 0.5) inserted after (1,0) is not convex |
| Polygons.AngleLeq | geometry/shapes/polygon.py:175 | the order of the key `vertice.angle(center)` that `simplify()` sorts by (`Polygons.SimplifyPermutesAndSorts`) |
| Polygons.SimplifySpec | geometry/shapes/polygon.py:166-175 | `simplify()` fails exactly below 3 vertices, through the centre's assertion |
| Polygons.SimplifyPermutesAndSorts | geometry/shapes/polygon.py:166-175 | simplifying permutes the vertices into non-decreasing angle order around the centre |
| Polygons.SimplifyIdempotent | geometry/shapes/polygon.py:166-175 | simplifying twice is simplifying once |
| Polygons.SimplifyKeepsAngleOrder | geometry/shapes/polygon.py:166-175 | vertices already in angle order are left as they are |
| Polygons.Polygon.constructor | geometry/shapes/polygon.py:30-38 | the polygon holds the given vertices |
| Polygons.Polygon.Length | geometry/shapes/polygon.py:81-89 | `len(polygon)` is the number of vertices |
| Polygons.Polygon.GetItem | geometry/shapes/polygon.py:40-58 | `polygon[i]` succeeds exactly for `0 <= i < len`, otherwise KeyError |
| Polygons.Polygon.Simplify | geometry/shapes/polygon.py:166-175 | the vertices are replaced by their simplified order; on failure they are unchanged |
| Polygons.Polygon.AddVertice | geometry/shapes/polygon.py:131-146 | the vertex is appended last, the others unchanged, then simplified when asked; the append survives a failing simplification |
| Polygons.Polygon.ConvexHull | geometry/shapes/polygon.py:177-206 | a fresh polygon holding the hull; this polygon is unchanged |
| Polygons.Polygon.IsConvex | geometry/shapes/polygon.py:208-241 | the loop with the running orientation returns exactly the convexity test |
| Polygons.Draws | geometry/shapes/polygon.py:307-310 | a successful run of n draws has n vertices |
| Polygons.RandomPolygonSpec | geometry/shapes/polygon.py:303-305 | a count below 3 is a ValueError |
| Polygons.RandomPolygon | geometry/shapes/polygon.py:270-320 | the drawing loop, then the hull or the simplification, computes the specification and uses two draws per vertex |
| Polygons.RandomPolygonSize | geometry/shapes/polygon.py:303-320 | without `convex`, a random polygon has exactly the requested count |
| Polygons.RandomPolygonFails | geometry/shapes/polygon.py:303-310 | `Polygon.random` fails exactly for a count below 3 or a space that cannot be drawn from |
| Polygons.RandomPolygonInSpace | geometry/shapes/polygon.py:307-320 | with a `randint` that honours its bounds, every vertex lies in the space |
| Rectangles.RectVertices | geometry/shapes/rectangle.py:41-50 | a rectangle has four vertices |
| Rectangles.RectVerticesAreCorners | geometry/shapes/rectangle.py:41-48 | the vertices are `top_left + (0,0), (w,0), (w,l), (0,l)`, in that order |
| Rectangles.RectangleArea | geometry/shapes/rectangle.py:41-52 | the shoelace area of a rectangle is `length * width` |
| Rectangles.RectangleCenter | geometry/shapes/rectangle.py:41-52 | the centre is `top_left + (w/2, l/2)` |
| Rectangles.Linspace | geometry/shapes/rectangle.py:72-73 | `linspace` fails exactly for a negative count, and otherwise runs from start to stop in `num` values |
| Rectangles.LinspaceStep | geometry/shapes/rectangle.py:72-73 | value i is `start + i * (stop - start) / (num - 1)` |
| Rectangles.DivideSpec | geometry/shapes/rectangle.py:66-69 | a divisor that is not a pair of ints is a TypeError |
| Rectangles.Divide | geometry/shapes/rectangle.py:54-86 | the nested loops fill exactly the grid of the specification |
| Rectangles.IsIntPair | geometry/shapes/rectangle.py:66-69 | the divisor accepted by `/`: a tuple of exactly two ints (`Rectangles.DivideSpec`) |
| Rectangles.Cell | geometry/shapes/rectangle.py:76-84 | cell (line, column): from `(h[column], v[line])` to `(h[column+1], v[line+1])` of the two linspace cuts (`Rectangles.GridCell`, `Rectangles.CellGeometry`) |
| Rectangles.Grid | geometry/shapes/rectangle.py:72-86 | `rows` lists of `cols` cells, and linspace's ValueError when `rows + 1` or `cols + 1` is negative (`Rectangles.GridShape`, `Rectangles.GridTiles`, `Rectangles.GridAreaIsWhole`) |
| Rectangles.GridShape | geometry/shapes/rectangle.py:72-86 | the grid fails exactly for a count below -1, with ValueError; otherwise it has `max(rows,0)` lines of `max(cols,0)` cells |
| Rectangles.GridCell | geometry/shapes/rectangle.py:76-84 | cell (line, column) spans the cut values at those indices |
| Rectangles.CellGeometry | geometry/shapes/rectangle.py:76-84 | each cell is `l/rows` long, `w/cols` wide, and sits at `top_left + (column*w/cols, line*l/rows)` |
| Rectangles.GridTiles | geometry/shapes/rectangle.py:72-84 | cell [0][0] starts at vertex 0, the last cell ends at vertex 2, and neighbouring cells share their cut lines |
| Rectangles.GridAreaIsWhole | geometry/shapes/rectangle.py:72-84 | the cell areas add up to the rectangle's area |
| Rectangles.DivideExamples | geometry/shapes/rectangle.py:54-86 | a 10 by 10 square cut by (2, 2) gives four 5 by 5 cells; `2`, `(2,)` and `(2.5, 2.5)` are refused |
| Rectangles.AddVertice | geometry/shapes/rectangle.py:98-99 | `add_vertice` always fails with TypeError and keeps the rectangle |
| Rectangles.Simplify | geometry/shapes/rectangle.py:101-102 | `simplify` always fails with TypeError and keeps the rectangle |
| Rectangles.RandomRectangleSpec | geometry/shapes/rectangle.py:105-143 | `Rectangle.random(space)`: a TypeError for a space that is not a Rectangle, otherwise two drawn points spanning the rectangle from their least to their greatest coordinates (`Rectangles.RandomRectangle`, `Rectangles.RandomRectangleInSpace`) |
| Rectangles.RandomRectangle | geometry/shapes/rectangle.py:105-143 | the two conditional swaps compute the rectangle spanned from the least to the greatest corner coordinates |
| Rectangles.RandomRectangleInSpace | geometry/shapes/rectangle.py:130-143 | a random rectangle has no negative dimension; with a `randint` that honours its bounds its corners lie in the space |
| Rectangles.RandomRectangleCanBeFlat | geometry/shapes/rectangle.py:130-143 | two equal draws give a rectangle with zero dimensions |
| Values.Contains | geometry/collection.py:156-176 | `key in v` fails exactly for values that are not a dict, a string or a tuple, with TypeError; a dict tests its keys |
| Values.GetKey | geometry/collection.py:157-176 | `v[key]` succeeds exactly for a dict holding the key; a dict without it raises KeyError, anything else TypeError |
| Values.AtLeastZero | geometry/collection.py:172-176 | `v >= 0` is defined exactly for numbers; anything else is a TypeError |
| Values.TupleItem | geometry/collection.py:172-176 | `t[i]` succeeds exactly inside the tuple, otherwise IndexError |
| Values.ContainsExamples | geometry/collection.py:156-176 | membership in a dict, a string, tuples and an int |
| Collections.ShapeVertices | geometry/collection.py:95 | `polygon.vertices`: a polygon's own list, a rectangle's four corners |
| Collections.Length | geometry/collection.py:62-68 | `len(collection)`, the number of polygons (`Collections.AddLength`) |
| Collections.GetItem | geometry/collection.py:29-43 | `c[i]` succeeds exactly for `0 <= i < len(c)`, otherwise IndexError |
| Collections.Add | geometry/collection.py:70-86 | `c + other` fails exactly for an operand that is neither a polygon nor a collection, with TypeError |
| Collections.AddLength | geometry/collection.py:82-85 | a sum is as long as both operands together |
| Collections.AddItems | geometry/collection.py:82-85 | a sum keeps the left polygons at their indices and puts the right ones after them |
| Collections.AddAssociative | geometry/collection.py:84-85 | adding collections is associative and the empty collection is neutral |
| Collections.Tagged | geometry/collection.py:94-96 | one line per vertex, tagged with the polygon's index |
| Collections.PolyLines | geometry/collection.py:94-96 | the 'poly' listing: each polygon's vertices in order, polygon after polygon, tagged with its index (`Collections.PolyLinesLength`, `Collections.PolyFileRoundTrip`) |
| Collections.PolyFilePrint | geometry/collection.py:88-96 | the nested loops emit the listing |
| Collections.PolyLinesLength | geometry/collection.py:94-96 | the listing has one line per vertex of all polygons |
| Collections.PolyLinesIndices | geometry/collection.py:94-96 | every tag is the index of a polygon |
| Collections.PolyFileRoundTrip | geometry/collection.py:94-96 | reading the listing back gives each polygon its vertices in order, and nothing past the last index |
| CollectionOptions.ValidType | geometry/collection.py:147-150 | `type in valid_types`: the four names and the ints 0 to 3, compared with `==` (`CollectionRandom.KindOfValidTypes`) |
| CollectionOptions.CheckVerticesCount | geometry/collection.py:156-165 | a vertex bound of `form`, when present, is an int of at least 3, else ValueError (`CollectionOptions.InvalidFormRefused`) |
| CollectionOptions.CheckSpaceEntry | geometry/collection.py:167-170 | `space['space']`, when present, is None or a Rectangle, else ValueError (`CollectionOptions.InvalidSpaceRefused`) |
| CollectionOptions.CheckDivisionItems | geometry/collection.py:173-175 | `divisions[0] >= 0 and divisions[1] >= 0`, left to right: IndexError for a missing item, TypeError for a non-number, ValueError for a negative one (`CollectionOptions.DivisionsErrors`) |
| CollectionOptions.CheckDivisionsEntry | geometry/collection.py:172-176 | `space['divisions']`, when present, must be a tuple (else ValueError) whose first two items pass `CheckDivisionItems` (`CollectionOptions.DivisionItemsPass`, `CollectionOptions.DivisionsErrors`) |
| CollectionOptions.ValidateOptions | geometry/collection.py:137-176 | `validate_options`: the checks in the order the code makes them; it passes exactly when `OptionsValid` holds (`CollectionOptions.ValidateOptionsMeaning`, `CollectionOptions.ValidateOptionsErrors`) |
| CollectionOptions.OptionsValid | geometry/collection.py:147-176 | the constraints on the options, stated apart from their order of checking (`CollectionOptions.ValidateOptionsMeaning`) |
| CollectionOptions.CheckOptions | geometry/collection.py:126-201 | `check_options`: the defaults when none are given, otherwise the defaults updated with the caller's options and then validated (`CollectionOptions.CheckedOptions`, `CollectionOptions.DefaultsValid`) |
| CollectionOptions.DivisionItemsPass | geometry/collection.py:172-176 | the divisions check passes exactly for a tuple of at least two non-negative numbers |
| CollectionOptions.ValidateOptionsMeaning | geometry/collection.py:137-176 | options that pass meet every constraint; with dictionary sub-options they pass exactly when they meet them |
| CollectionOptions.ValidateOptionsErrors | geometry/collection.py:137-176 | validation fails only with ValueError, TypeError or IndexError, never KeyError |
| CollectionOptions.DefaultsValid | geometry/collection.py:178-201 | the defaults pass validation, so empty options and no options agree |
| CollectionOptions.CheckedOptions | geometry/collection.py:192-201 | checked options hold the four keys, meet the constraints, take each given value and keep the other defaults |
| CollectionOptions.InvalidTypeRefused | geometry/collection.py:147-150 | an unknown type is a ValueError |
| CollectionOptions.InvalidCountRefused | geometry/collection.py:152-154 | a count that is not an int is a ValueError |
| CollectionOptions.InvalidFormRefused | geometry/collection.py:156-165 | vertex counts that are not ints are a ValueError |
| CollectionOptions.InvalidSpaceRefused | geometry/collection.py:167-170 | a space that is neither None nor a Rectangle is a ValueError |
| CollectionOptions.DivisionsErrors | geometry/collection.py:172-176 | one item is an IndexError, a string item a TypeError, a negative item a ValueError, two positive floats pass |
| CollectionRandom.Int32Grid | geometry/shapes/polygon.py:252 | `np.array(..., np.int32)`: each coordinate truncated toward zero |
| CollectionRandom.Lir | geometry/shapes/polygon.py:243-268 | the interior rectangle's opposite corners are the two corners the library returns for the int32 vertices |
| CollectionRandom.KindOf | geometry/collection.py:227-237 | the cases of `match polygon_type` in order: 0/'polygon' a plain polygon, 1/'rectangle' a rectangle, 2/'simple' and 3/'convex' a simplified polygon, anything else none (`CollectionRandom.KindOfValidTypes`) |
| CollectionRandom.KindOfValidTypes | geometry/collection.py:227-237 | validation accepts exactly the types the dispatch knows; 0/'polygon', 1/'rectangle', 3/'convex' map as the `match` says |
| CollectionRandom.GeneratedKind | geometry/collection.py:223-237 | a generated shape needs a Rectangle space and a known type, and is a Rectangle exactly for type 1/'rectangle' |
| CollectionRandom.GeneratePolygonSpec | geometry/collection.py:203-237 | `generate_polygon`: AssertionError for a space that is not a Rectangle, the vertex count drawn between the form's bounds, then the shape of the type, or ValueError (`CollectionRandom.GeneratedKind`) |
| CollectionRandom.GeneratePolygon | geometry/collection.py:203-237 | the dispatch computes the specification and its next draw |
| CollectionRandom.GridCells | geometry/collection.py:270-273 | a successful division has an int pair, the requested shape, and a cell only when both counts are at least 1 |
| CollectionRandom.ShareBounds | geometry/collection.py:275-276 | the share `rem % d + rem // d` lies between 1 and rem, and d shares cover rem |
| CollectionRandom.GenSpec | geometry/collection.py:239-287 | `generate_polygons`: nothing for count 0, one polygon for count 1, otherwise the first polygon and the subdivision (`CollectionCounts.GenSize`, `CollectionCounts.GenKinds`, `CollectionCounts.ProducedAtLeast`) |
| CollectionRandom.SubdivideSpec | geometry/collection.py:266-287 | the grid over the first polygon's interior rectangle, the per-cell share with ZeroDivisionError for a zero cell count, then the cell loop (`CollectionCounts.SubdivideSize`, `CollectionCounts.ZeroDivisionRefused`) |
| CollectionRandom.CellsSpec | geometry/collection.py:278-287 | the loop over the cells, line by line, each adding `share` polygons and returning once the count is used up (`CollectionCounts.CellsSize`, `CollectionRandom.CellUsesUp`) |
| CollectionRandom.Generate | geometry/collection.py:239-287 | the recursion computes the specified collection and its next draw |
| CollectionRandom.Subdivide | geometry/collection.py:266-287 | the subdivision computes the specified collection |
| CollectionRandom.GenerateCells | geometry/collection.py:278-287 | the cell loops with their early return compute the specified collection |
| CollectionRandom.GenerateCell | geometry/collection.py:280-285 | one cell: either the loop ends with the specified result or it goes on at the next cell |
| CollectionRandom.CellsAtCell | geometry/collection.py:280-285 | one cell adds its sub-collection and returns once the count is used up |
| CollectionRandom.CellFails | geometry/collection.py:281 | a cell whose generation fails ends the loop with that error |
| CollectionRandom.CellUsesUp | geometry/collection.py:281-285 | the cell that uses up the count returns the collection it completes |
| CollectionRandom.CellLeavesMore | geometry/collection.py:281-285 | a cell that leaves part of the count hands the rest, its collection and the draw counter to the next cell |
| CollectionRandom.CellsAtLineEnd | geometry/collection.py:278-279 | the end of a line moves to the next line |
| CollectionRandom.RandomCollectionSpec | geometry/collection.py:289-299 | `Collection.random`: the checked options, the default 1280 × 720 space in place of None, then the generation (`CollectionCounts.DefaultCollection`, `CollectionCounts.CustomCollection`) |
| CollectionRandom.RandomCollection | geometry/collection.py:289-299 | `Collection.random` checks the options, replaces a None space with the default space and generates |
| CollectionCounts.Produced | geometry/collection.py:261-287 | the number of polygons `generate_polygons` draws for a count when every division has d cells, counted apart from the shapes (`CollectionCounts.GenSize`, `CollectionCounts.ProducedAtLeast`) |
| CollectionCounts.CellsProduced | geometry/collection.py:278-287 | the number the cell loop draws: a full share per cell until the count still missing is used up (`CollectionCounts.CellsSize`, `CollectionCounts.CellsProducedAtLeast`) |
| CollectionCounts.GenSize | geometry/collection.py:239-287 | a successful generation draws `Produced(count, rows*cols)` polygons |
| CollectionCounts.SubdivideSize | geometry/collection.py:266-287 | the same, for the subdivision |
| CollectionCounts.CellsSize | geometry/collection.py:278-287 | the loop adds `CellsProduced` of the cells left |
| CollectionCounts.CellsSizeLineEnd | geometry/collection.py:278-279 | the end of a row adds nothing to the count |
| CollectionCounts.CellsSizeGoesOn | geometry/collection.py:280-285 | a cell that leaves more adds its share and the count of the cells after it |
| CollectionCounts.MoreCount | geometry/collection.py:280-285 | the count of a cell and the cells after it add up to the count from that cell |
| CollectionCounts.CellsLeftUniform | geometry/shapes/rectangle.py:75-77 | a grid with `cols` cells per line has `lines * cols` cells |
| CollectionCounts.CellsProducedStep | geometry/collection.py:280-285 | one cell of the count model |
| CollectionCounts.ProducedAtLeast | geometry/collection.py:274-287 | the generation never draws fewer polygons than asked for |
| CollectionCounts.CellsProducedAtLeast | geometry/collection.py:278-287 | enough cells to cover the count draw at least the count |
| CollectionCounts.ProducedOneCell | geometry/collection.py:274-287 | with one cell per division exactly the count is drawn |
| CollectionCounts.GenAtLeast | geometry/collection.py:239-287 | a successful generation has at least `count` polygons |
| CollectionCounts.GenOneCellExact | geometry/collection.py:239-287 | with (1, 1) divisions a successful generation has exactly `count` polygons |
| CollectionCounts.ProducedStep | geometry/collection.py:261-276 | the first polygon and the cells, unfolded |
| CollectionCounts.ProducedTwo | geometry/collection.py:274-287 | 2 polygons over (2, 2) divisions are drawn exactly |
| CollectionCounts.ProducedThree | geometry/collection.py:274-287 | 3 polygons over (2, 2) divisions are drawn exactly |
| CollectionCounts.ProducedSix | geometry/collection.py:274-287 | 6 polygons over (2, 2) divisions give 7 |
| CollectionCounts.SixOverTwoByTwoGivesSeven | geometry/collection.py:239-287 | a successful generation of 6 over (2, 2) has 7 polygons |
| CollectionCounts.CappedProduced | geometry/collection.py:275-285 | the corrected count, in which each cell is asked only for `min(share, remaining)`; it equals the count (`CollectionCounts.CappedProducedIsCount`) |
| CollectionCounts.CappedProducedIsCount | geometry/collection.py:274-287 | asking each cell for `min(share, remaining)` draws exactly the count, for any number of cells |
| CollectionCounts.CappedCellsExact | geometry/collection.py:278-287 | the capped cells draw exactly what is still missing |
| CollectionCounts.GenKinds | geometry/collection.py:227-287 | every generated shape is a Rectangle exactly when the type is 1/'rectangle' |
| CollectionCounts.SubdivideKinds | geometry/collection.py:266-287 | the same, for the subdivision |
| CollectionCounts.CellsKinds | geometry/collection.py:278-287 | the same, for the cell loop |
| CollectionCounts.CellsKeepPrefix | geometry/collection.py:277-285 | the loop only appends to the collection it starts from |
| CollectionCounts.GenStartsWithFirst | geometry/collection.py:263-277 | element 0 of a generated collection is the polygon drawn in the whole space |
| CollectionCounts.GenSmallCounts | geometry/collection.py:261-266 | count 0 gives the empty collection without drawing, count 1 the first polygon alone |
| CollectionCounts.ZeroDivisionPasses | geometry/collection.py:172-176 | divisions `(rows, cols)` with non-negative components pass validation, a zero one included |
| CollectionCounts.ZeroDivisionRefused | geometry/collection.py:270-275 | divisions with a zero component pass validation, then end in ZeroDivisionError once two or more polygons are asked for and the first one is drawn |
| CollectionCounts.DefaultGenerates | geometry/collection.py:289-299 | no options generate 3 polygons in the default space over (2, 2) |
| CollectionCounts.DefaultCollection | tests/geometry/test_collection.py:27-29 | with no options, a successful draw gives exactly 3 plain polygons |
| CollectionCounts.CustomOptionsValid | tests/geometry/test_collection.py:31-44 | the custom options of the tests pass validation |
| CollectionCounts.CustomGenerates | geometry/collection.py:289-299 | the custom options generate 5 rectangles over (1, 1) in the given square |
| CollectionCounts.CustomCollection | tests/geometry/test_collection.py:31-46 | those options give exactly 5 Rectangles whenever drawing succeeds |

## Left out

- `distance_to`, `Segment.length` and `Polygon.perimeter` are left out. They rest on `sqrt`, which has no exact model over the reals.
- `Vertice.angle` is left out. `atan2` is an uninterpreted key function; it is only used as a sort key. What the hull needs of it, that a larger angle around the pivot is a counter-clockwise turn for the points sorted after the pivot, is the hypothesis `Hull.AngleMatchesTurn`, assumed only by the lemmas that name it.
- `largestinteriorrectangle` is an oracle applied to the int32 vertices. The int32 overflow of coordinates outside its range is not modelled. The library is assumed not to raise, for example on a degenerate or collinear first polygon (geometry/shapes/polygon.py:252-256): the oracle always returns two corners.
- `random.randint` is an oracle. Its bounds are assumed only in lemmas that say so (`ValidRandom`). A draw with non-int bounds is modelled as a TypeError.
- `Polygon.random` with no space is left out. Its `if not space` default-space branch is never taken by its callers here, so the model takes the space's vertex list.
- The dead `space is None` branch of `Rectangle.random` is left out. It cannot be reached after the type check.
- Output is left out: `__str__` and `__repr__`, the float formatting and file writing of `poly_file_print` (its lines are returned as triples), and examples/example.py.
- IEEE-754 rounding is left out; coordinates are exact reals. The bool-as-int cases of Python (`True == 1`) are left out too.
- `Polygon.simplify` and `convex_hull` use Timsort, which is a builtin. It is modelled by a stable insertion sort; both are stable sorts, so they give the same order.
- Aliasing is left out. A collection holds value snapshots of its polygons. The options dictionaries are values, so the in-place `options['space']['space'] = ...` is a local replacement.
- The preallocated `None` grid of `__truediv__` is left out. It is built line by line, which gives the same final grid.
- Operands of the point operators that are neither numbers, points nor segments have no identity here. A `Segment` always has exactly two ends.
- Options that are not a dictionary are left out. Options are a `map` from strings to values.
- Membership in a Rectangle, modelled as a TypeError. Python iterates through `__getitem__`, whose first vertex refuses the comparison with a string.
- `importlib` lookups are left out. They only resolve the classes the model already names.
- Hull.HullSpec: states no convexity, because the code as written does not give a convex hull (see "## Findings").
- Hull.FixedHullTurnsLeft: states the left turns along the chain, not the closing turns back to the pivot nor that every vertex lies inside the hull.
- CollectionCounts.GenStartsWithFirst: states that the first polygon comes first and that the loop only appends, not the full row-major order of the sub-collections.
- CollectionCounts.CappedProducedIsCount: the correction is proved on the count model. The generation itself (`CollectionRandom.GenSpec`) keeps the behaviour as written, so that it stays a model of the code.

## Findings

| source | as written | input that shows it | evidently intended | confidence | as-written member | corrected member |
|---|---|---|---|---|---|---|
| geometry/shapes/polygon.py:202 | the pop test measures the turn of `vertices_stack[1]`, `vertices_stack[0]` (the bottom of the stack) against the new vertex | the unit square (0,0), (1,0), (1,1), (0,1) with its centre (0.5,0.5), under `atan2`: every vertex is on or above the first edge, so nothing is popped and the five vertices come back, a polygon that is not convex | a Graham scan: the test measures the top two entries, `vertices_stack[-2]`, `vertices_stack[-1]`, and the result is the convex hull, here the four corners | high, not executed | HullSquare.AsWrittenHullKeepsCentre | HullSquare.FixedHullIsCorners |
| geometry/collection.py:275-285 | every cell is asked for the full share `rem % d + rem // d`, even when fewer polygons are still missing | `count = 6` with divisions (2, 2): rem 5, share 2, and the cells draw 2 + 2 + 2, so 7 polygons | `count` is the number of polygons to generate; each cell asks only for what is still missing | medium (the docstring warns that divisions should suit the count), not executed | CollectionCounts.SixOverTwoByTwoGivesSeven | CollectionCounts.CappedProducedIsCount |
