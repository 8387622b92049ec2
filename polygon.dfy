/** geometry/shapes/polygon.py: the `Polygon` class, whose vertex list is
    updated in place by `add_vertice` and `simplify`, and `Polygon.random`. */
module Polygons {
  import opened Errors
  import opened Utils
  import opened Randomness
  import opened Vertices
  import opened Segments
  import opened Sorting
  import opened PolygonMeasures
  import opened Hull
  import opened Convexity

  /** The key `vertice.angle(center)` of `simplify()`. */
  function AngleLeq(angle: AngleFn, c: Vertice): (Vertice, Vertice) -> bool
  {
    (a: Vertice, b: Vertice) => angle(a, c) <= angle(b, c)
  }

  /** The vertex list after `simplify()`: sorted by angle around `center()`,
      which fails its assertion below 3 vertices. */
  function SimplifySpec(vs: seq<Vertice>, angle: AngleFn): (r: Result<seq<Vertice>>)
    ensures r.Err? <==> |vs| < 3
    ensures r.Err? ==> r.error == AssertionError
  {
    match Center(vs)
    case Err(e) => Err(e)
    case Ok(c) => Ok(StableSort(vs, AngleLeq(angle, c)))
  }

  lemma AngleLeqTotal(angle: AngleFn, c: Vertice)
    ensures Total(AngleLeq(angle, c)) && Transitive(AngleLeq(angle, c))
  {
  }

  /** `simplify()` permutes the vertices into non-decreasing angle order. */
  lemma SimplifyPermutesAndSorts(vs: seq<Vertice>, angle: AngleFn)
    requires |vs| >= 3
    ensures multiset(SimplifySpec(vs, angle).value) == multiset(vs)
    ensures Sorted(SimplifySpec(vs, angle).value, AngleLeq(angle, Center(vs).value))
  {
    var c := Center(vs).value;
    SortPermutes(vs, AngleLeq(angle, c));
    AngleLeqTotal(angle, c);
    SortSorts(vs, AngleLeq(angle, c));
  }

  /** Simplifying twice is simplifying once: the centre of the sorted
      vertices is the same centre, and the stable sort leaves a sorted list alone. */
  lemma SimplifyIdempotent(vs: seq<Vertice>, angle: AngleFn)
    requires |vs| >= 3
    ensures SimplifySpec(SimplifySpec(vs, angle).value, angle) == SimplifySpec(vs, angle)
  {
    var c := Center(vs).value;
    var s := SimplifySpec(vs, angle).value;
    SimplifyPermutesAndSorts(vs, angle);
    CenterPermutationInvariant(vs, s);
    SortFixesSorted(s, AngleLeq(angle, c));
  }

  /** Vertices already in angle order around their centre are left as they are. */
  lemma SimplifyKeepsAngleOrder(vs: seq<Vertice>, angle: AngleFn)
    requires |vs| >= 3 && Sorted(vs, AngleLeq(angle, Center(vs).value))
    ensures SimplifySpec(vs, angle) == Ok(vs)
  {
    SortFixesSorted(vs, AngleLeq(angle, Center(vs).value));
  }

  class Polygon {
    var vertices: seq<Vertice>

    /** `Polygon(vertices)`: a copy of the given list (empty by default). */
    constructor (vs: seq<Vertice>)
      ensures vertices == vs
    {
      vertices := vs;
    }

    /** `len(polygon)`. */
    function Length(): (n: nat)
      reads this
      ensures n == |vertices|
    {
      |vertices|
    }

    /** `polygon[item]`: a KeyError outside `0 <= item < len(polygon)`. */
    function GetItem(item: int): (r: Result<Vertice>)
      reads this
      ensures r.Ok? <==> 0 <= item < Length()
      ensures r.Ok? ==> r.value == vertices[item]
      ensures r.Err? ==> r.error == KeyError
    {
      if item < 0 || item >= |vertices| then Err(KeyError) else Ok(vertices[item])
    }

    /** `simplify()`: sorts the vertices in place; below 3 vertices the
        centre's assertion fails and nothing changes. */
    method Simplify(angle: AngleFn) returns (o: Outcome)
      modifies this
      ensures SimplifySpec(old(vertices), angle).Ok? ==>
        o == Pass && vertices == SimplifySpec(old(vertices), angle).value
      ensures SimplifySpec(old(vertices), angle).Err? ==>
        o == Fail(AssertionError) && vertices == old(vertices)
    {
      var r := SimplifySpec(vertices, angle);
      if r.Err? {
        return Fail(r.error);
      }
      vertices := r.value;
      return Pass;
    }

    /** `add_vertice(vertice, simplify)`: appends, then simplifies when asked.
        The append happens before the simplification can fail. */
    method AddVertice(v: Vertice, simplify: bool, angle: AngleFn) returns (o: Outcome)
      modifies this
      ensures !simplify ==> o == Pass && vertices == old(vertices) + [v]
      ensures simplify ==>
        var r := SimplifySpec(old(vertices) + [v], angle);
        (r.Ok? ==> o == Pass && vertices == r.value) &&
        (r.Err? ==> o == Fail(r.error) && vertices == old(vertices) + [v])
    {
      vertices := vertices + [v];
      o := Pass;
      if simplify {
        o := Simplify(angle);
      }
    }

    /** `convex_hull()`: a new polygon; this one is not modified. */
    method ConvexHull(angle: AngleFn) returns (r: Result<Polygon>)
      ensures r.Ok? <==> HullSpec(vertices, angle).Ok?
      ensures r.Err? ==> r.error == HullSpec(vertices, angle).error
      ensures r.Ok? ==> fresh(r.value) && r.value.vertices == HullSpec(vertices, angle).value
    {
      var sorted := HullOrder(vertices, angle);
      if |sorted| < 2 {
        return Err(IndexError);
      }
      var stack := GrahamScan(sorted);
      var hull := new Polygon(stack);
      return Ok(hull);
    }

    /** `is_convex()`: the loop with the running orientation. */
    method IsConvex() returns (b: bool)
      ensures b == ConvexSpec(vertices)
    {
      var n := |vertices|;
      if n < 4 {
        return true;
      }
      var current := 0;
      ghost var first: nat := 0;
      for index := 0 to n
        invariant current == 0 || current == 1 || current == -1
        invariant current == 0 ==> forall j: nat :: j < index ==> Turn(vertices, j) == 0.0
        invariant current != 0 ==>
          first < index && Turn(vertices, first) != 0.0 && Sign(Turn(vertices, first)) == current
        invariant current != 0 ==>
          forall j: nat :: j < index && Turn(vertices, j) != 0.0 ==> Sign(Turn(vertices, j)) == current
      {
        WrapIsMod(index + 1, n);
        WrapIsMod(index + 2, n);
        var segment := Segment(vertices[index], vertices[(index + 1) % n]);
        var nextVertice := vertices[(index + 2) % n];
        var product := Orientation(segment, nextVertice);
        var orientation := Sign(product);
        assert product == Turn(vertices, index);
        if product != 0.0 {
          if current == 0 {
            current := orientation;
            first := index;
          } else if current != orientation {
            assert Sign(Turn(vertices, first)) != Sign(Turn(vertices, index));
            return false;
          }
        }
      }
      return true;
    }
  }

  /** The vertices `n` successive `Vertice.random(space)` calls produce,
      starting at draw `k`; the first failing call decides the error. */
  function Draws(space: seq<Vertice>, rnd: RandInt, k: nat, n: nat): (r: Result<seq<Vertice>>)
    ensures r.Ok? ==> |r.value| == n
  {
    if n == 0 then Ok([])
    else
      match Draws(space, rnd, k, n - 1)
      case Err(e) => Err(e)
      case Ok(pts) =>
        match RandomVertice(space, rnd, k + 2 * (n - 1))
        case Err(e) => Err(e)
        case Ok(p) => Ok(pts + [p.0])
  }

  /** The result of `Polygon.random(space, count, simplify, convex)`. */
  function RandomPolygonSpec(space: seq<Vertice>, count: int, simplify: bool, convex: bool,
                             rnd: RandInt, angle: AngleFn, k: nat): (r: Result<seq<Vertice>>)
    ensures count < 3 ==> r == Err(ValueError)
  {
    if count < 3 then Err(ValueError)
    else
      match Draws(space, rnd, k, count)
      case Err(e) => Err(e)
      case Ok(pts) =>
        if convex then HullSpec(pts, angle)
        else if simplify then SimplifySpec(pts, angle)
        else Ok(pts)
  }

  /** Whether a draw fails does not depend on the draw number. */
  lemma RandomVerticeErrorFixed(space: seq<Vertice>, rnd: RandInt, k: nat, j: nat)
    requires RandomVertice(space, rnd, k).Err?
    ensures RandomVertice(space, rnd, j) == RandomVertice(space, rnd, k)
  {
  }

  lemma {:induction false} DrawsFail(space: seq<Vertice>, rnd: RandInt, k: nat, n: nat, j: nat)
    requires n >= 1 && RandomVertice(space, rnd, j).Err?
    ensures Draws(space, rnd, k, n) == Err(RandomVertice(space, rnd, j).error)
  {
    RandomVerticeErrorFixed(space, rnd, j, k + 2 * (n - 1));
    if n > 1 {
      DrawsFail(space, rnd, k, n - 1, j);
    }
  }

  /** `Polygon.random`: draws `count` vertices, appending each; then the
      hull or the simplification. */
  method RandomPolygon(space: seq<Vertice>, count: int, simplify: bool, convex: bool,
                       rnd: RandInt, angle: AngleFn, k: nat)
    returns (r: Result<Polygon>, next: nat)
    ensures r.Ok? <==> RandomPolygonSpec(space, count, simplify, convex, rnd, angle, k).Ok?
    ensures r.Err? ==> r.error == RandomPolygonSpec(space, count, simplify, convex, rnd, angle, k).error
    ensures r.Ok? ==> fresh(r.value)
    ensures r.Ok? ==>
      r.value.vertices == RandomPolygonSpec(space, count, simplify, convex, rnd, angle, k).value
    ensures r.Ok? ==> next == k + 2 * count
  {
    next := k;
    if count < 3 {
      return Err(ValueError), next;
    }
    var polygon := new Polygon([]);
    for i := 0 to count
      invariant next == k + 2 * i
      invariant Draws(space, rnd, k, i) == Ok(polygon.vertices)
      invariant fresh(polygon)
    {
      var v := RandomVertice(space, rnd, next);
      if v.Err? {
        DrawsFail(space, rnd, k, count, next);
        return Err(v.error), next;
      }
      var _ := polygon.AddVertice(v.value.0, false, angle);
      next := v.value.1;
    }
    if convex {
      r := polygon.ConvexHull(angle);
      return r, next;
    }
    if simplify {
      var _ := polygon.Simplify(angle);
    }
    return Ok(polygon), next;
  }

  /** Without `convex`, a successful `Polygon.random` has exactly `count` vertices. */
  lemma RandomPolygonSize(space: seq<Vertice>, count: int, simplify: bool,
                          rnd: RandInt, angle: AngleFn, k: nat)
    requires RandomPolygonSpec(space, count, simplify, false, rnd, angle, k).Ok?
    ensures |RandomPolygonSpec(space, count, simplify, false, rnd, angle, k).value| == count
  {
    var pts := Draws(space, rnd, k, count).value;
    if simplify {
      SimplifyPermutesAndSorts(pts, angle);
      SortPermutes(pts, AngleLeq(angle, Center(pts).value));
    }
  }

  /** `Polygon.random` fails exactly for a count below 3 or a space whose
      ranges cannot be drawn from. */
  lemma RandomPolygonFails(space: seq<Vertice>, count: int, simplify: bool, convex: bool,
                           rnd: RandInt, angle: AngleFn, k: nat)
    ensures RandomPolygonSpec(space, count, simplify, convex, rnd, angle, k).Err? <==>
      count < 3 || RandomVertice(space, rnd, k).Err?
  {
    if count >= 3 {
      if RandomVertice(space, rnd, k).Err? {
        DrawsFail(space, rnd, k, count, k);
      } else {
        DrawsSucceed(space, rnd, k, count);
      }
    }
  }

  lemma {:induction false} DrawsSucceed(space: seq<Vertice>, rnd: RandInt, k: nat, n: nat)
    requires RandomVertice(space, rnd, k).Ok?
    ensures Draws(space, rnd, k, n).Ok?
  {
    if n > 0 {
      DrawsSucceed(space, rnd, k, n - 1);
    }
  }

  /** Inside the space: `v` lies in the ranges `Vertice.random(space)` draws from. */
  predicate InSpace(space: seq<Vertice>, v: Vertice)
    requires |space| >= 3
  {
    Trunc(space[0].x) as real <= v.x <= Trunc(space[2].x) as real &&
    Trunc(space[0].y) as real <= v.y <= Trunc(space[2].y) as real
  }

  lemma {:induction false} DrawsInSpace(space: seq<Vertice>, rnd: RandInt, k: nat, n: nat)
    requires ValidRandom(rnd) && Draws(space, rnd, k, n).Ok?
    ensures n > 0 ==> |space| >= 3
    ensures n > 0 ==> forall v :: v in Draws(space, rnd, k, n).value ==> InSpace(space, v)
  {
    if n > 0 {
      DrawsInSpace(space, rnd, k, n - 1);
    }
  }

  /** With a `randint` that honours its bounds, every vertex of
      `Polygon.random` lies in the space, whichever post-processing applies. */
  lemma RandomPolygonInSpace(space: seq<Vertice>, count: int, simplify: bool, convex: bool,
                             rnd: RandInt, angle: AngleFn, k: nat, v: Vertice)
    requires ValidRandom(rnd)
    requires RandomPolygonSpec(space, count, simplify, convex, rnd, angle, k).Ok?
    requires v in RandomPolygonSpec(space, count, simplify, convex, rnd, angle, k).value
    ensures |space| >= 3 && InSpace(space, v)
  {
    var pts := Draws(space, rnd, k, count).value;
    DrawsInSpace(space, rnd, k, count);
    if convex {
      HullVerticesComeFromPolygon(pts, angle, v);
    } else if simplify {
      SimplifyPermutesAndSorts(pts, angle);
      assert v in multiset(SimplifySpec(pts, angle).value);
    }
  }
}
