/** `Polygon.convex_hull` (geometry/shapes/polygon.py): the Graham scan with
    its pivot sort, its angle sort and its stack loop. */
module Hull {
  import opened Errors
  import opened Vertices
  import opened Segments
  import opened Sorting

  /** The key `(vertice.y, vertice.x)`: lexicographic comparison of tuples. */
  function YXLeq(a: Vertice, b: Vertice): bool
  {
    a.y < b.y || (a.y == b.y && a.x <= b.x)
  }

  /** The key `(vertice.angle(pivot), vertice.x)`. */
  function AngleXLeq(angle: AngleFn, pivot: Vertice): (Vertice, Vertice) -> bool
  {
    (a: Vertice, b: Vertice) =>
      angle(a, pivot) < angle(b, pivot) || (angle(a, pivot) == angle(b, pivot) && a.x <= b.x)
  }

  /** The copy sorted by `(y, x)`, whose tail is then re-sorted by angle
      around the head (the pivot). */
  function HullOrder(vs: seq<Vertice>, angle: AngleFn): (r: seq<Vertice>)
    ensures |r| == |vs|
    ensures multiset(r) == multiset(vs)
  {
    var s := StableSort(vs, YXLeq);
    SortPermutes(vs, YXLeq);
    if s == [] then []
    else
      SortPermutes(s[1..], AngleXLeq(angle, s[0]));
      assert s == [s[0]] + s[1..];
      [s[0]] + StableSort(s[1..], AngleXLeq(angle, s[0]))
  }

  /** The pop test of the inner loop, `Segment([stack[1], stack[0]]) * vertice > 0`:
      note that it looks at the two BOTTOM entries of the stack. */
  predicate PopsAt(stack: seq<Vertice>, p: Vertice)
  {
    |stack| >= 2 && Orientation(Segment(stack[1], stack[0]), p) > 0.0
  }

  /** One iteration of the `for` loop. Popping never changes entries 0 and 1,
      so once the test holds the `while` loop empties the stack down to the
      pivot; then the vertex is pushed. */
  function Step(stack: seq<Vertice>, p: Vertice): seq<Vertice>
  {
    if PopsAt(stack, p) then [stack[0], p] else stack + [p]
  }

  /** The stack after the `for` loop has handled the indices `2 .. k-1`. */
  function Scan(s: seq<Vertice>, k: nat): (r: seq<Vertice>)
    requires 2 <= k <= |s|
    ensures 2 <= |r| <= k
    ensures r[0] == s[0] && r[|r| - 1] == s[k - 1]
    decreases k
  {
    if k == 2 then [s[0], s[1]] else Step(Scan(s, k - 1), s[k - 1])
  }

  /** The vertices of `convex_hull()`; with fewer than 2 vertices the
      initial stack `[vertices[0], vertices[1]]` is an IndexError. */
  function HullSpec(vs: seq<Vertice>, angle: AngleFn): (r: Result<seq<Vertice>>)
    ensures r.Err? <==> |vs| < 2
    ensures r.Err? ==> r.error == IndexError
  {
    if |vs| < 2 then Err(IndexError) else Ok(Scan(HullOrder(vs, angle), |vs|))
  }

  /** The stack loop of `convex_hull()` on the sorted copy. */
  method GrahamScan(s: seq<Vertice>) returns (stack: seq<Vertice>)
    requires |s| >= 2
    ensures stack == Scan(s, |s|)
  {
    stack := [s[0], s[1]];
    for index := 2 to |s|
      invariant stack == Scan(s, index)
    {
      ghost var before := stack;
      while |stack| >= 2 && Orientation(Segment(stack[1], stack[0]), s[index]) > 0.0
        invariant 1 <= |stack| <= |before|
        invariant stack == before[..|stack|]
        invariant |stack| < |before| ==> PopsAt(before, s[index])
        decreases |stack|
      {
        stack := stack[..|stack| - 1];
      }
      stack := stack + [s[index]];
    }
  }

  /** `a` can be obtained from `b` by deleting elements. */
  predicate IsSubsequence(a: seq<Vertice>, b: seq<Vertice>)
    decreases |b|
  {
    a == [] ||
      (b != [] &&
        ((a[|a| - 1] == b[|b| - 1] && IsSubsequence(a[..|a| - 1], b[..|b| - 1]))
         || IsSubsequence(a, b[..|b| - 1])))
  }

  lemma {:induction false} SubsequenceLength(a: seq<Vertice>, b: seq<Vertice>)
    requires IsSubsequence(a, b)
    ensures |a| <= |b|
    decreases |b|
  {
    if a != [] {
      if a[|a| - 1] == b[|b| - 1] && IsSubsequence(a[..|a| - 1], b[..|b| - 1]) {
        SubsequenceLength(a[..|a| - 1], b[..|b| - 1]);
      } else {
        SubsequenceLength(a, b[..|b| - 1]);
      }
    }
  }

  lemma {:induction false} HeadSubsequence(b: seq<Vertice>)
    requires |b| >= 1
    ensures IsSubsequence([b[0]], b)
    decreases |b|
  {
    if |b| == 1 {
      assert [b[0]][..0] == [];
    } else {
      HeadSubsequence(b[..|b| - 1]);
    }
  }

  /** The stack is always a subsequence of the vertices scanned so far. */
  lemma {:induction false} ScanSubsequence(s: seq<Vertice>, k: nat)
    requires 2 <= k <= |s|
    ensures IsSubsequence(Scan(s, k), s[..k])
    decreases k
  {
    var r := Scan(s, k);
    assert s[..k][..k - 1] == s[..k - 1];
    if k == 2 {
      assert r[..1] == [s[0]] == s[..1];
      HeadSubsequence(s[..1]);
    } else {
      var st := Scan(s, k - 1);
      ScanSubsequence(s, k - 1);
      if PopsAt(st, s[k - 1]) {
        assert r[..1] == [s[0]];
        HeadSubsequence(s[..k - 1]);
      } else {
        assert r[..|r| - 1] == st;
      }
    }
  }

  /** `convex_hull()` lists a subsequence of the sorted copy, so it has at
      most as many vertices as the polygon and at least 2. */
  lemma HullIsSubsequence(vs: seq<Vertice>, angle: AngleFn)
    requires |vs| >= 2
    ensures IsSubsequence(HullSpec(vs, angle).value, HullOrder(vs, angle))
    ensures 2 <= |HullSpec(vs, angle).value| <= |vs|
  {
    var s := HullOrder(vs, angle);
    ScanSubsequence(s, |s|);
    assert s[..|s|] == s;
  }

  /** Every hull vertex is a vertex of the polygon. */
  lemma {:induction false} SubsequenceMembers(a: seq<Vertice>, b: seq<Vertice>, v: Vertice)
    requires IsSubsequence(a, b) && v in a
    ensures v in b
    decreases |b|
  {
    if a[|a| - 1] == b[|b| - 1] && IsSubsequence(a[..|a| - 1], b[..|b| - 1]) {
      if v != a[|a| - 1] {
        assert a == a[..|a| - 1] + [a[|a| - 1]];
        SubsequenceMembers(a[..|a| - 1], b[..|b| - 1], v);
      }
    } else {
      SubsequenceMembers(a, b[..|b| - 1], v);
    }
  }

  lemma HullVerticesComeFromPolygon(vs: seq<Vertice>, angle: AngleFn, v: Vertice)
    requires |vs| >= 2 && v in HullSpec(vs, angle).value
    ensures v in vs
  {
    HullIsSubsequence(vs, angle);
    SubsequenceMembers(HullSpec(vs, angle).value, HullOrder(vs, angle), v);
    assert v in multiset(HullOrder(vs, angle));
  }

  /** The hull starts with the pivot, the least vertex by `(y, x)`; the
      pivot is never popped. */
  lemma HullStartsAtPivot(vs: seq<Vertice>, angle: AngleFn, v: Vertice)
    requires |vs| >= 2 && v in vs
    ensures HullSpec(vs, angle).value[0] == HullOrder(vs, angle)[0]
    ensures YXLeq(HullSpec(vs, angle).value[0], v)
  {
    var s := StableSort(vs, YXLeq);
    SortPermutes(vs, YXLeq);
    SortSorts(vs, YXLeq);
    assert v in multiset(s);
    var i :| 0 <= i < |s| && s[i] == v;
    SortedHeadIsLeast(s, YXLeq, i);
  }

  /** A triangle survives the scan unchanged exactly when its third vertex
      does not turn clockwise from its first edge. */
  lemma TriangleScan(s: seq<Vertice>)
    requires |s| == 3
    ensures Scan(s, 3) == s <==> Orientation(Segment(s[0], s[1]), s[2]) >= 0.0
  {
    assert Orientation(Segment(s[1], s[0]), s[2]) == -Orientation(Segment(s[0], s[1]), s[2]);
    if !PopsAt([s[0], s[1]], s[2]) {
      assert [s[0], s[1]] + [s[2]] == s;
    } else {
      assert |Scan(s, 3)| == 2;
    }
  }

  lemma SortTwo(a: Vertice, b: Vertice, leq: (Vertice, Vertice) -> bool)
    requires leq(a, b)
    ensures StableSort([a, b], leq) == [a, b]
  {
    assert [a, b][1..] == [b];
    assert StableSort([b], leq) == [b] by {
      assert [b][1..] == [];
    }
  }

  /** The triangle (0,0), (1,0), (0,1). */
  const RightTriangle: seq<Vertice> := [Origin, Vertice(1.0, 0.0), Vertice(0.0, 1.0)]

  /** Sorted by `(y, x)`, the triangle is already in order. */
  lemma RightTrianglePivotSort()
    ensures StableSort(RightTriangle, YXLeq) == RightTriangle
  {
    var a, b, c := Origin, Vertice(1.0, 0.0), Vertice(0.0, 1.0);
    SortTwo(b, c, YXLeq);
    assert RightTriangle[1..] == [b, c];
    assert StableSort(RightTriangle, YXLeq) == Insert(a, [b, c], YXLeq);
  }

  /** The hull sort leaves the triangle (0,0), (1,0), (0,1) in place, given
      an angle key that orders (1,0) before (0,1) around the origin, as
      `atan2` does (0 against pi/2). */
  lemma RightTriangleOrder(angle: AngleFn)
    requires angle(Vertice(1.0, 0.0), Origin) < angle(Vertice(0.0, 1.0), Origin)
    ensures HullOrder(RightTriangle, angle) == RightTriangle
  {
    RightTrianglePivotSort();
    assert RightTriangle[1..] == [Vertice(1.0, 0.0), Vertice(0.0, 1.0)];
    SortTwo(Vertice(1.0, 0.0), Vertice(0.0, 1.0), AngleXLeq(angle, Origin));
  }

  /** Its third vertex turns counter-clockwise by exactly 1. */
  lemma RightTriangleTurn()
    ensures Orientation(Segment(RightTriangle[0], RightTriangle[1]), RightTriangle[2]) == 1.0
  {
  }

  /** A triangle that the hull sort leaves in place and whose third vertex
      does not turn clockwise is its own hull. */
  lemma OwnOrderTriangleHull(t: seq<Vertice>, angle: AngleFn)
    requires |t| == 3 && HullOrder(t, angle) == t
    requires Orientation(Segment(t[0], t[1]), t[2]) >= 0.0
    ensures HullSpec(t, angle) == Ok(t)
  {
    TriangleScan(t);
  }

  /** What `atan2` gives around a pivot `c` (vertice.py's `angle`): the
      points the `(y, x)` sort puts after `c` lie in its closed upper
      half-plane, where the angle is in `[0, pi]`, so a larger angle is a
      counter-clockwise turn. The model leaves the angle uninterpreted and
      assumes this only in the lemmas that name it. */
  ghost predicate AngleMatchesTurn(angle: AngleFn, c: Vertice)
  {
    forall p, q :: YXLeq(c, p) && YXLeq(c, q) && angle(p, c) <= angle(q, c) ==>
      Orientation(Segment(c, p), q) >= 0.0
  }

  /** After the pivot, the hull order is sorted by angle around the pivot. */
  lemma HullOrderTailSorted(vs: seq<Vertice>, angle: AngleFn)
    requires |vs| > 0
    ensures var r := HullOrder(vs, angle); Sorted(r[1..], AngleXLeq(angle, r[0]))
  {
    var s := StableSort(vs, YXLeq);
    SortPermutes(vs, YXLeq);
    SortSorts(s[1..], AngleXLeq(angle, s[0]));
    assert HullOrder(vs, angle)[1..] == StableSort(s[1..], AngleXLeq(angle, s[0]));
  }

  /** A triangle already in pivot-then-angle order is its own hull when the
      angle behaves as `atan2` does around the pivot. */
  lemma SortedTriangleHull(t: seq<Vertice>, angle: AngleFn)
    requires |t| == 3 && HullOrder(t, angle) == t && AngleMatchesTurn(angle, t[0])
    ensures HullSpec(t, angle) == Ok(t)
  {
    HullStartsAtPivot(t, angle, t[1]);
    HullStartsAtPivot(t, angle, t[2]);
    assert AngleXLeq(angle, t[0])(t[1], t[2]) by {
      HullOrderTailSorted(t, angle);
      assert t[1..][0] == t[1] && t[1..][1] == t[2];
    }
    OwnOrderTriangleHull(t, angle);
  }

  /** The scan keeps the test triangle whole. */
  lemma RightTriangleScan()
    ensures Scan(RightTriangle, 3) == RightTriangle
  {
    CornerTriangleTurnsLeft(RightTriangle);
    TriangleScan(RightTriangle);
  }

  /** Seen from (0,0) along (1,0), the point (0,1) turns left. */
  lemma CornerTriangleTurnsLeft(t: seq<Vertice>)
    requires |t| == 3 && t[0] == Origin && t[1] == Vertice(1.0, 0.0) && t[2] == Vertice(0.0, 1.0)
    ensures Orientation(Segment(t[0], t[1]), t[2]) > 0.0
  {
    assert t[0].x == 0.0 && t[0].y == 0.0 && t[1].x == 1.0 && t[1].y == 0.0 && t[2].x == 0.0 && t[2].y == 1.0;
  }

  /** The test triangle (0,0), (1,0), (0,1) is its own hull under an angle
      key that orders (1,0) before (0,1) around the origin. */
  lemma RightTriangleHull(angle: AngleFn)
    requires angle(Vertice(1.0, 0.0), Origin) < angle(Vertice(0.0, 1.0), Origin)
    ensures HullSpec(RightTriangle, angle) == Ok(RightTriangle)
  {
    RightTriangleOrder(angle);
    RightTriangleScan();
  }

  /** The pop test of the code reads `stack[0]` and `stack[1]`, which stay
      the first two sorted vertices. A vertex on or to the left of that first
      edge never triggers it, so when every vertex does, the scan keeps
      them all. */
  lemma {:induction false} ScanWithoutPops(s: seq<Vertice>, k: nat)
    requires 2 <= k <= |s|
    requires forall j :: 2 <= j < k ==> Orientation(Segment(s[0], s[1]), s[j]) >= 0.0
    ensures Scan(s, k) == s[..k]
    decreases k
  {
    if k > 2 {
      ScanWithoutPops(s, k - 1);
      var st := s[..k - 1];
      assert st[0] == s[0] && st[1] == s[1];
      OrientationCyclic(s[0], s[1], s[k - 1]);
      assert !PopsAt(st, s[k - 1]);
      assert st + [s[k - 1]] == s[..k];
    }
  }

  /** Then `convex_hull()` returns the sorted copy unchanged, whatever its
      shape. */
  lemma HullIsOrderWithoutPops(vs: seq<Vertice>, angle: AngleFn)
    requires |vs| >= 2
    requires var s := HullOrder(vs, angle);
      forall j :: 2 <= j < |s| ==> Orientation(Segment(s[0], s[1]), s[j]) >= 0.0
    ensures HullSpec(vs, angle) == Ok(HullOrder(vs, angle))
  {
    var s := HullOrder(vs, angle);
    ScanWithoutPops(s, |s|);
    assert s[..|s|] == s;
  }

  /** The Graham scan's pop test on the TOP two entries of the stack: they
      and the new vertex turn clockwise. */
  predicate TopPopsAt(stack: seq<Vertice>, p: Vertice)
  {
    |stack| >= 2 && Orientation(Segment(stack[|stack| - 1], stack[|stack| - 2]), p) > 0.0
  }

  /** One iteration of the corrected `for` loop: pop while the top two
      entries and the vertex turn clockwise, then push the vertex. */
  function TopStep(stack: seq<Vertice>, p: Vertice): seq<Vertice>
    decreases |stack|
  {
    if TopPopsAt(stack, p) then TopStep(stack[..|stack| - 1], p) else stack + [p]
  }

  /** The corrected stack after the indices `2 .. k-1`. */
  function TopScan(s: seq<Vertice>, k: nat): seq<Vertice>
    requires 2 <= k <= |s|
    decreases k
  {
    if k == 2 then [s[0], s[1]] else TopStep(TopScan(s, k - 1), s[k - 1])
  }

  /** The corrected `convex_hull()`: the same sorts and the same IndexError,
      with the pop test on the top of the stack. */
  function FixedHullSpec(vs: seq<Vertice>, angle: AngleFn): (r: Result<seq<Vertice>>)
    ensures r.Err? <==> |vs| < 2
    ensures r.Err? ==> r.error == IndexError
  {
    if |vs| < 2 then Err(IndexError) else Ok(TopScan(HullOrder(vs, angle), |vs|))
  }

  /** Every three consecutive entries turn counter-clockwise (y up) or go
      straight. */
  ghost predicate LeftTurns(st: seq<Vertice>)
  {
    forall i :: 0 <= i < |st| - 2 ==> Orientation(Segment(st[i], st[i + 1]), st[i + 2]) >= 0.0
  }

  /** A step pops some entries, never the bottom one, pushes the vertex and
      keeps every turn of the stack a left turn or straight. */
  lemma {:induction false} TopStepTurnsLeft(stack: seq<Vertice>, p: Vertice)
    requires |stack| >= 1 && LeftTurns(stack)
    ensures var r := TopStep(stack, p);
      2 <= |r| <= |stack| + 1 && r == stack[..|r| - 1] + [p] && LeftTurns(r)
    decreases |stack|
  {
    var n := |stack|;
    if TopPopsAt(stack, p) {
      var st := stack[..n - 1];
      assert LeftTurns(st) by {
        forall i | 0 <= i < |st| - 2 ensures Orientation(Segment(st[i], st[i + 1]), st[i + 2]) >= 0.0 {
          assert st[i] == stack[i] && st[i + 1] == stack[i + 1] && st[i + 2] == stack[i + 2];
        }
      }
      TopStepTurnsLeft(st, p);
      var r := TopStep(st, p);
      assert stack[..|r| - 1] == st[..|r| - 1];
    } else {
      var r := stack + [p];
      assert r[..|r| - 1] == stack;
      forall i | 0 <= i < |r| - 2 ensures Orientation(Segment(r[i], r[i + 1]), r[i + 2]) >= 0.0 {
        if i < n - 2 {
          assert r[i] == stack[i] && r[i + 1] == stack[i + 1] && r[i + 2] == stack[i + 2];
        } else {
          var a, b := stack[n - 2], stack[n - 1];
          assert r[i] == a && r[i + 1] == b && r[i + 2] == p;
          assert Orientation(Segment(b, a), p) == -Orientation(Segment(a, b), p);
        }
      }
    }
  }

  /** The corrected scan keeps the pivot first, ends at the last vertex and
      turns only left or straight: the Graham scan's invariant. */
  lemma {:induction false} TopScanTurnsLeft(s: seq<Vertice>, k: nat)
    requires 2 <= k <= |s|
    ensures var r := TopScan(s, k); 2 <= |r| <= k && r[0] == s[0] && r[|r| - 1] == s[k - 1] && LeftTurns(r)
    decreases k
  {
    if k > 2 {
      TopScanTurnsLeft(s, k - 1);
      TopStepTurnsLeft(TopScan(s, k - 1), s[k - 1]);
    }
  }

  /** The corrected hull starts at the pivot and never turns clockwise. */
  lemma FixedHullTurnsLeft(vs: seq<Vertice>, angle: AngleFn)
    requires |vs| >= 2
    ensures var r := FixedHullSpec(vs, angle).value;
      2 <= |r| <= |vs| && r[0] == HullOrder(vs, angle)[0] && LeftTurns(r)
  {
    TopScanTurnsLeft(HullOrder(vs, angle), |vs|);
  }
}
