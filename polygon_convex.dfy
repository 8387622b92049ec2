/** The specification of `Polygon.is_convex` (geometry/shapes/polygon.py):
    the turns of consecutive vertex triples never change sign. */
module Convexity {
  import opened Utils
  import opened Vertices
  import opened Segments

  /** `j % n` for the indices `is_convex` uses, which are below `2 * n`. */
  function Wrap(j: nat, n: nat): (r: nat)
    requires j < 2 * n
    ensures r < n
  {
    if j < n then j else j - n
  }

  lemma WrapIsMod(j: nat, n: nat)
    requires j < 2 * n
    ensures Wrap(j, n) == j % n
  {
  }

  /** `Segment([self[i], self[(i + 1) % n]]) * self[(i + 2) % n]`, for the
      polygons of at least 4 vertices that reach the loop. */
  function Turn(vs: seq<Vertice>, i: nat): real
    requires |vs| >= 2 && i < |vs|
  {
    var n := |vs|;
    Orientation(Segment(vs[i], vs[Wrap(i + 1, n)]), vs[Wrap(i + 2, n)])
  }

  /** Fewer than 4 vertices count as convex; otherwise every two non-zero
      turns have the same sign (collinear triples are skipped). */
  predicate ConvexSpec(vs: seq<Vertice>)
  {
    |vs| < 4 ||
    forall i: nat, j: nat :: i < |vs| && j < |vs| && Turn(vs, i) != 0.0 && Turn(vs, j) != 0.0 ==>
      Sign(Turn(vs, i)) == Sign(Turn(vs, j))
  }

  /** An independent reading: a polygon of 4 or more vertices is convex in
      this sense exactly when all its turns are on one side. */
  lemma ConvexIffOneSided(vs: seq<Vertice>)
    requires |vs| >= 4
    ensures ConvexSpec(vs) <==>
      (forall i: nat :: i < |vs| ==> Turn(vs, i) >= 0.0) ||
      (forall i: nat :: i < |vs| ==> Turn(vs, i) <= 0.0)
  {
    if ConvexSpec(vs) {
      if exists i: nat :: i < |vs| && Turn(vs, i) > 0.0 {
        var i: nat :| i < |vs| && Turn(vs, i) > 0.0;
        forall j: nat | j < |vs| ensures Turn(vs, j) >= 0.0 {
          if Turn(vs, j) != 0.0 {
            assert Sign(Turn(vs, j)) == Sign(Turn(vs, i)) == 1;
          }
        }
      }
    }
  }

  /** `Turn` away from the wrap-around. */
  lemma TurnInside(vs: seq<Vertice>, i: nat)
    requires i + 2 < |vs|
    ensures Turn(vs, i) == Orientation(Segment(vs[i], vs[i + 1]), vs[i + 2])
  {
  }

  /** A polygon with a mixed pair of turns is not convex. */
  lemma MixedTurnsNotConvex(vs: seq<Vertice>, i: nat, j: nat)
    requires |vs| >= 4 && i < |vs| && j < |vs|
    requires Turn(vs, i) > 0.0 && Turn(vs, j) < 0.0
    ensures !ConvexSpec(vs)
  {
    assert Sign(Turn(vs, i)) != Sign(Turn(vs, j));
  }

  /** The unit square (0,0), (1,0), (1,1), (0,1) is convex: every turn is 1. */
  lemma UnitSquareIsConvex(q: seq<Vertice>)
    requires |q| == 4
    requires q[0] == Vertice(0.0, 0.0) && q[1] == Vertice(1.0, 0.0)
    requires q[2] == Vertice(1.0, 1.0) && q[3] == Vertice(0.0, 1.0)
    ensures ConvexSpec(q)
  {
    assert q[0].x == 0.0 && q[0].y == 0.0 && q[1].x == 1.0 && q[1].y == 0.0;
    assert q[2].x == 1.0 && q[2].y == 1.0 && q[3].x == 0.0 && q[3].y == 1.0;
    forall i: nat | i < 4 ensures Turn(q, i) == 1.0 {
      if i < 2 {
        TurnInside(q, i);
      } else if i == 2 {
        assert Turn(q, 2) == Orientation(Segment(q[2], q[3]), q[0]);
      } else {
        assert Turn(q, 3) == Orientation(Segment(q[3], q[0]), q[1]);
      }
    }
  }

  /** A square dented inwards at (0.2, 0.2) is not convex: the first turn
      is 0.2 (positive), the second -0.6 (negative). */
  lemma DentedSquareIsNotConvex(q: seq<Vertice>)
    requires |q| == 4
    requires q[0] == Vertice(0.0, 0.0) && q[1] == Vertice(1.0, 0.0)
    requires q[2] == Vertice(0.2, 0.2) && q[3] == Vertice(0.0, 1.0)
    ensures !ConvexSpec(q)
  {
    TurnInside(q, 0);
    TurnInside(q, 1);
    MixedTurnsNotConvex(q, 0, 1);
  }

  /** The square (0,0), (1,0), (1,1), (0,1) with (0.5, 0.5) inserted after
      (1,0) is not convex: its first two turns are 0.5 and -0.5. */
  lemma DentedPentagonIsNotConvex(q: seq<Vertice>)
    requires |q| == 5
    requires q[0] == Vertice(0.0, 0.0) && q[1] == Vertice(1.0, 0.0) && q[2] == Vertice(0.5, 0.5)
    requires q[3] == Vertice(1.0, 1.0) && q[4] == Vertice(0.0, 1.0)
    ensures !ConvexSpec(q)
  {
    TurnInside(q, 0);
    TurnInside(q, 1);
    MixedTurnsNotConvex(q, 0, 1);
  }
}
