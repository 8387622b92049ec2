/** The unit square with an inner point, as `Polygon.convex_hull`
    (geometry/shapes/polygon.py) handles it: the code as written returns the
    five vertices in hull order, a polygon that is not convex; the Graham
    scan that tests the top of its stack returns the four corners. */
module HullSquare {
  import opened Errors
  import opened Vertices
  import opened Segments
  import opened Sorting
  import opened Hull
  import opened Convexity

  /** The unit square's corners `a` to `d` counter-clockwise from the
      origin, and its centre `m`. */
  ghost predicate Square(a: Vertice, b: Vertice, c: Vertice, d: Vertice, m: Vertice)
  {
    a == Vertice(0.0, 0.0) && b == Vertice(1.0, 0.0) && c == Vertice(1.0, 1.0) &&
    d == Vertice(0.0, 1.0) && m == Vertice(0.5, 0.5)
  }

  /** What `atan2` gives around the pivot `a`: 0 for `b`, pi/4 for both the
      centre and `c`, pi/2 for `d`. */
  ghost predicate AtanOrder(angle: AngleFn, a: Vertice, b: Vertice, c: Vertice, d: Vertice, m: Vertice)
  {
    angle(b, a) < angle(m, a) && angle(m, a) == angle(c, a) && angle(c, a) < angle(d, a)
  }

  /** Sorting `[x] + s` inserts `x` into the sorted `s`. */
  lemma SortCons(x: Vertice, s: seq<Vertice>, leq: (Vertice, Vertice) -> bool)
    ensures StableSort([x] + s, leq) == Insert(x, StableSort(s, leq), leq)
  {
    assert ([x] + s)[1..] == s;
  }

  lemma InsertFirst(x: Vertice, y: Vertice, s: seq<Vertice>, leq: (Vertice, Vertice) -> bool)
    requires leq(x, y)
    ensures Insert(x, [y] + s, leq) == [x] + ([y] + s)
  {
  }

  lemma InsertLater(x: Vertice, y: Vertice, s: seq<Vertice>, leq: (Vertice, Vertice) -> bool)
    requires !leq(x, y)
    ensures Insert(x, [y] + s, leq) == [y] + Insert(x, s, leq)
  {
    assert ([y] + s)[1..] == s;
  }

  /** A sorted tail of two: `y` goes behind `x`. */
  lemma SortPair(leq: (Vertice, Vertice) -> bool, x: Vertice, y: Vertice)
    requires !leq(x, y)
    ensures StableSort([x] + [y], leq) == [y] + [x]
  {
    var e: seq<Vertice> := [];
    assert [y] == [y] + e && [x] == [x] + e;
    SortCons(y, e, leq);
    SortCons(x, [y] + e, leq);
    InsertLater(x, y, e, leq);
  }

  /** `x` goes behind both of a sorted pair `[y, z]`. */
  lemma InsertBehindPair(leq: (Vertice, Vertice) -> bool, x: Vertice, y: Vertice, z: Vertice)
    requires !leq(x, y) && !leq(x, z)
    ensures Insert(x, [y] + [z], leq) == [y] + ([z] + [x])
  {
    var e: seq<Vertice> := [];
    assert [z] == [z] + e;
    InsertLater(x, y, [z], leq);
    InsertLater(x, z, e, leq);
  }

  /** A display of five as nested prepends. */
  lemma NestFive(v: Vertice, w: Vertice, x: Vertice, y: Vertice, z: Vertice)
    ensures [v, w, x, y, z] == [v] + ([w] + ([x] + ([y] + [z])))
  {
  }

  /** A display of four as nested prepends. */
  lemma NestFour(w: Vertice, x: Vertice, y: Vertice, z: Vertice)
    ensures [w, x, y, z] == [w] + ([x] + ([y] + [z]))
  {
  }

  /** The `(y, x)` sort of the last three, `[c, d, m]`. */
  lemma PivotSortTail(c: Vertice, d: Vertice, m: Vertice)
    requires !YXLeq(d, m) && !YXLeq(c, m) && !YXLeq(c, d)
    ensures StableSort([c] + ([d] + [m]), YXLeq) == [m] + ([d] + [c])
  {
    SortPair(YXLeq, d, m);
    SortCons(c, [d] + [m], YXLeq);
    InsertBehindPair(YXLeq, c, m, d);
  }

  /** The `(y, x)` sort of `[a, b, c, d, m]` given how the keys compare. */
  lemma PivotSortSteps(a: Vertice, b: Vertice, c: Vertice, d: Vertice, m: Vertice)
    requires YXLeq(a, b) && YXLeq(b, m) && !YXLeq(d, m) && !YXLeq(c, m) && !YXLeq(c, d)
    ensures StableSort([a, b, c, d, m], YXLeq) == [a, b, m, d, c]
  {
    NestFive(a, b, c, d, m);
    PivotSortTail(c, d, m);
    var t := [m] + ([d] + [c]);
    SortCons(b, [c] + ([d] + [m]), YXLeq);
    InsertFirst(b, m, [d] + [c], YXLeq);
    SortCons(a, [b] + ([c] + ([d] + [m])), YXLeq);
    InsertFirst(a, b, t, YXLeq);
    NestFive(a, b, m, d, c);
  }

  /** The `(angle, x)` sort of the tail `[b, m, d, c]` given how the keys
      compare. */
  lemma AngleSortSteps(leq: (Vertice, Vertice) -> bool, b: Vertice, c: Vertice, d: Vertice, m: Vertice)
    requires leq(b, m) && leq(m, c) && !leq(d, c)
    ensures StableSort([b, m, d, c], leq) == [b, m, c, d]
  {
    NestFour(b, m, d, c);
    SortPair(leq, d, c);
    SortCons(m, [d] + [c], leq);
    InsertFirst(m, c, [d], leq);
    SortCons(b, [m] + ([d] + [c]), leq);
    InsertFirst(b, m, [c] + [d], leq);
    NestFour(b, m, c, d);
  }

  /** How the `(y, x)` keys of the square's vertices compare. */
  lemma PivotKeys(a: Vertice, b: Vertice, c: Vertice, d: Vertice, m: Vertice)
    requires Square(a, b, c, d, m)
    ensures YXLeq(a, b) && YXLeq(b, m) && !YXLeq(d, m) && !YXLeq(c, m) && !YXLeq(c, d)
  {
  }

  /** How the `(angle, x)` keys around the pivot compare: the centre comes
      before `c`, having its angle and the smaller abscissa. */
  lemma AngleKeys(angle: AngleFn, a: Vertice, b: Vertice, c: Vertice, d: Vertice, m: Vertice)
    requires Square(a, b, c, d, m) && AtanOrder(angle, a, b, c, d, m)
    ensures var leq := AngleXLeq(angle, a); leq(b, m) && leq(m, c) && !leq(d, c)
  {
  }

  /** `HullOrder` from the results of its two sorts. */
  lemma HullOrderFromSorts(vs: seq<Vertice>, angle: AngleFn, s: seq<Vertice>, t: seq<Vertice>)
    requires StableSort(vs, YXLeq) == s && |s| > 0
    requires StableSort(s[1..], AngleXLeq(angle, s[0])) == t
    ensures HullOrder(vs, angle) == [s[0]] + t
  {
  }

  lemma PrependToFour(x: Vertice, b: Vertice, c: Vertice, d: Vertice, m: Vertice)
    ensures [x] + [b, m, c, d] == [x, b, m, c, d]
  {
  }

  /** The copy the scan runs over: the corners with the centre after `b`. */
  lemma SquareHullOrder(angle: AngleFn, a: Vertice, b: Vertice, c: Vertice, d: Vertice, m: Vertice)
    requires Square(a, b, c, d, m) && AtanOrder(angle, a, b, c, d, m)
    ensures HullOrder([a, b, c, d, m], angle) == [a, b, m, c, d]
  {
    PivotKeys(a, b, c, d, m);
    PivotSortSteps(a, b, c, d, m);
    AngleKeys(angle, a, b, c, d, m);
    AngleSortSteps(AngleXLeq(angle, a), b, c, d, m);
    var s := [a, b, m, d, c];
    assert s[0] == a && s[1..] == [b, m, d, c];
    HullOrderFromSorts([a, b, c, d, m], angle, s, [b, m, c, d]);
    PrependToFour(a, b, c, d, m);
  }

  /** A point on or above the bottom edge does not turn clockwise from it. */
  lemma OnOrAboveBottomEdge(a: Vertice, b: Vertice, p: Vertice)
    requires a == Vertice(0.0, 0.0) && b == Vertice(1.0, 0.0) && p.y >= 0.0
    ensures Orientation(Segment(a, b), p) >= 0.0
  {
    assert a.x == 0.0 && a.y == 0.0 && b.x == 1.0 && b.y == 0.0;
  }

  /** Every vertex of the sorted copy lies on or above the first edge. */
  lemma AboveFirstEdge(a: Vertice, b: Vertice, c: Vertice, d: Vertice, m: Vertice)
    requires Square(a, b, c, d, m)
    ensures var s := [a, b, m, c, d];
      forall j :: 2 <= j < |s| ==> Orientation(Segment(s[0], s[1]), s[j]) >= 0.0
  {
    var s := [a, b, m, c, d];
    forall j | 2 <= j < |s| ensures Orientation(Segment(s[0], s[1]), s[j]) >= 0.0 {
      OnOrAboveBottomEdge(a, b, s[j]);
    }
  }

  /** As written, `convex_hull()` pops nothing and returns all five vertices,
      the centre included, and they do not form a convex polygon. */
  lemma AsWrittenHullKeepsCentre(angle: AngleFn, a: Vertice, b: Vertice, c: Vertice, d: Vertice, m: Vertice)
    requires Square(a, b, c, d, m) && AtanOrder(angle, a, b, c, d, m)
    ensures HullSpec([a, b, c, d, m], angle) == Ok([a, b, m, c, d])
    ensures !ConvexSpec(HullSpec([a, b, c, d, m], angle).value)
  {
    SquareHullOrder(angle, a, b, c, d, m);
    AboveFirstEdge(a, b, c, d, m);
    HullIsOrderWithoutPops([a, b, c, d, m], angle);
    DentedPentagonIsNotConvex([a, b, m, c, d]);
  }

  lemma StepPushes(stack: seq<Vertice>, p: Vertice)
    requires !TopPopsAt(stack, p)
    ensures TopStep(stack, p) == stack + [p]
  {
  }

  lemma StepPops(stack: seq<Vertice>, p: Vertice)
    requires TopPopsAt(stack, p)
    ensures TopStep(stack, p) == TopStep(stack[..|stack| - 1], p)
  {
  }

  /** The centre after the bottom edge turns left. */
  lemma CentreTurnsLeft(a: Vertice, b: Vertice, c: Vertice, d: Vertice, m: Vertice)
    requires Square(a, b, c, d, m)
    ensures !TopPopsAt([a, b], m)
  {
    assert a.x == 0.0 && a.y == 0.0 && b.x == 1.0 && b.y == 0.0 && m.x == 0.5 && m.y == 0.5;
  }

  /** `c` after `b` and the centre turns clockwise: the centre is popped. */
  lemma CornerPopsCentre(a: Vertice, b: Vertice, c: Vertice, d: Vertice, m: Vertice)
    requires Square(a, b, c, d, m)
    ensures TopPopsAt([a, b, m], c)
  {
    assert m.x == 0.5 && m.y == 0.5 && b.x == 1.0 && b.y == 0.0 && c.x == 1.0 && c.y == 1.0;
  }

  /** `c` after the bottom edge turns left. */
  lemma CornerTurnsLeft(a: Vertice, b: Vertice, c: Vertice, d: Vertice, m: Vertice)
    requires Square(a, b, c, d, m)
    ensures !TopPopsAt([a, b], c)
  {
    assert a.x == 0.0 && a.y == 0.0 && b.x == 1.0 && b.y == 0.0 && c.x == 1.0 && c.y == 1.0;
  }

  /** `d` after `b` and `c` turns left. */
  lemma LastCornerTurnsLeft(a: Vertice, b: Vertice, c: Vertice, d: Vertice, m: Vertice)
    requires Square(a, b, c, d, m)
    ensures !TopPopsAt([a, b, c], d)
  {
    assert c.x == 1.0 && c.y == 1.0 && b.x == 1.0 && b.y == 0.0 && d.x == 0.0 && d.y == 1.0;
  }

  /** The corrected scan over the sorted copy: `c` pops the centre. */
  lemma TopScanOfSquare(a: Vertice, b: Vertice, c: Vertice, d: Vertice, m: Vertice)
    requires Square(a, b, c, d, m)
    ensures TopScan([a, b, m, c, d], 5) == [a, b, c, d]
  {
    var s := [a, b, m, c, d];
    CentreTurnsLeft(a, b, c, d, m);
    CornerPopsCentre(a, b, c, d, m);
    CornerTurnsLeft(a, b, c, d, m);
    LastCornerTurnsLeft(a, b, c, d, m);
    assert TopScan(s, 2) == [a, b];
    StepPushes([a, b], m);
    assert [a, b] + [m] == [a, b, m];
    assert TopScan(s, 3) == [a, b, m];
    StepPops([a, b, m], c);
    assert [a, b, m][..2] == [a, b];
    StepPushes([a, b], c);
    assert [a, b] + [c] == [a, b, c];
    assert TopScan(s, 4) == [a, b, c];
    StepPushes([a, b, c], d);
    assert [a, b, c] + [d] == [a, b, c, d];
  }

  /** The corrected hull is the four corners counter-clockwise from the
      pivot, and they form a convex polygon. */
  lemma FixedHullIsCorners(angle: AngleFn, a: Vertice, b: Vertice, c: Vertice, d: Vertice, m: Vertice)
    requires Square(a, b, c, d, m) && AtanOrder(angle, a, b, c, d, m)
    ensures FixedHullSpec([a, b, c, d, m], angle) == Ok([a, b, c, d])
    ensures ConvexSpec(FixedHullSpec([a, b, c, d, m], angle).value)
  {
    SquareHullOrder(angle, a, b, c, d, m);
    TopScanOfSquare(a, b, c, d, m);
    UnitSquareIsConvex([a, b, c, d]);
  }
}
