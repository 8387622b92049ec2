/** geometry/segment.py: a directed segment and its cross-product overloads. */
module Segments {
  import opened Errors
  import opened Vertices

  /** `Segment([start, end])`, directed from `ends[0]` to `ends[1]`. */
  datatype Segment = Segment(start: Vertice, end: Vertice)

  /** `s[i]`: only 0 and 1 are keys; any other index is a KeyError. */
  function GetItem(s: Segment, i: int): (r: Result<Vertice>)
    ensures r.Ok? <==> 0 <= i <= 1
    ensures i == 0 ==> r == Ok(s.start)
    ensures i == 1 ==> r == Ok(s.end)
  {
    if i < 0 || i > 1 then Err(KeyError)
    else if i == 0 then Ok(s.start) else Ok(s.end)
  }

  /** `s == o`: both ends equal under point equality. */
  predicate SegmentEq(s: Segment, o: Segment)
  {
    Eq(s.start, o.start) && Eq(s.end, o.end)
  }

  /** `s != o` */
  predicate SegmentNe(s: Segment, o: Segment)
  {
    !SegmentEq(s, o)
  }

  /** `copy(s)`: a segment built from copies of both ends. */
  function Copy(s: Segment): (c: Segment)
    ensures SegmentEq(c, s) && c == s
  {
    Segment(Vertice(s.start.x, s.start.y), Vertice(s.end.x, s.end.y))
  }

  /** `s.vector()`: `s[1] - s[0]`. */
  function Vector(s: Segment): Vertice
  {
    Sub(s.end, s.start)
  }

  /** `s.is_vertical()`: equal x values. */
  predicate IsVertical(s: Segment) { s.start.x == s.end.x }

  /** `s.is_horizontal()`: equal y values. */
  predicate IsHorizontal(s: Segment) { s.start.y == s.end.y }

  /** The right operand of `*`: an int or float, a point, a segment, or anything else. */
  datatype Operand = Number(r: real) | Point(p: Vertice) | Line(l: Segment) | Other

  /** What `*` returns: a new point (scaling) or a float (cross product). */
  datatype Product = VectorProduct(v: Vertice) | ScalarProduct(r: real)

  /** `Vertice.__mul__`: scaling by a number, cross product with a point or
      with a segment's vector; any other operand is a TypeError. */
  function VerticeMul(v: Vertice, op: Operand): (r: Result<Product>)
    decreases if op.Line? then 1 else 0
  {
    match op
    case Number(f) => Ok(VectorProduct(Scale(v, f)))
    case Point(p) => Ok(ScalarProduct(Cross(v, p)))
    case Line(l) => VerticeMul(v, Point(Vector(l)))
    case Other => Err(TypeError)
  }

  /** `Segment.__mul__`: scaling the vector by a number; with a point `p`,
      the vector times `Segment([s[0], p])`; with a segment, the product of
      the two vectors; any other operand is a TypeError. */
  function SegmentMul(s: Segment, op: Operand): (r: Result<Product>)
  {
    match op
    case Number(f) => VerticeMul(Vector(s), Number(f))
    case Point(p) => VerticeMul(Vector(s), Line(Segment(s.start, p)))
    case Line(l) => VerticeMul(Vector(s), Point(Vector(l)))
    case Other => Err(TypeError)
  }

  /** The value of `s * p` for a point `p`: the turn of `p` relative to `s`.
      It is positive when `p` lies counter-clockwise of `s` with the y axis
      pointing up, negative when it lies clockwise, and zero when the three
      points are collinear. Every "left", "counter-clockwise" and "clockwise"
      in this model is meant in that y-up sense. The comments of `is_convex`
      read the same signs with the y axis pointing down, as on a screen, so
      there a positive value is a right turn. */
  function Orientation(s: Segment, p: Vertice): real
  {
    Cross(Vector(s), Sub(p, s.start))
  }

  /** `s.vector()` is `s[1] - s[0]`; it is zero exactly for a degenerate segment. */
  lemma VectorIsEndMinusStart(s: Segment)
    ensures Vector(s) == Sub(GetItem(s, 1).value, GetItem(s, 0).value)
    ensures Vector(s) == Origin <==> s.start == s.end
    ensures Add(s.start, Vector(s)) == s.end
  {
  }

  /** A point times a segment is the point crossed with the segment's vector. */
  lemma VerticeTimesSegment(v: Vertice, l: Segment)
    ensures VerticeMul(v, Line(l)) == Ok(ScalarProduct(Cross(v, Vector(l))))
  {
  }

  /** A segment times a number is its vector times that number. */
  lemma SegmentTimesNumber(s: Segment, f: real)
    ensures SegmentMul(s, Number(f)) == Ok(VectorProduct(Scale(Vector(s), f)))
  {
  }

  /** A segment times a point is the orientation of the point; it is 0 at the start point. */
  lemma SegmentTimesPoint(s: Segment, p: Vertice)
    ensures SegmentMul(s, Point(p)) == Ok(ScalarProduct(Orientation(s, p)))
    ensures Orientation(s, s.start) == 0.0
    ensures Orientation(s, s.end) == 0.0
  {
    VerticeTimesSegment(Vector(s), Segment(s.start, p));
  }

  /** A segment times a segment is the cross product of their vectors, hence 0
      when the other segment is degenerate. */
  lemma SegmentTimesSegment(s: Segment, o: Segment)
    ensures SegmentMul(s, Line(o)) == Ok(ScalarProduct(Cross(Vector(s), Vector(o))))
    ensures o.start == o.end ==> SegmentMul(s, Line(o)) == Ok(ScalarProduct(0.0))
  {
    if o.start == o.end {
      assert Vector(o) == Origin;
    }
  }

  /** Any other operand is refused. */
  lemma OtherOperandRefused(v: Vertice, s: Segment)
    ensures VerticeMul(v, Other) == Err(TypeError)
    ensures SegmentMul(s, Other) == Err(TypeError)
  {
  }

  /** The axis tests hold exactly when the corresponding component of the vector is 0. */
  lemma AxisTests(s: Segment)
    ensures IsVertical(s) <==> Vector(s).x == 0.0
    ensures IsHorizontal(s) <==> Vector(s).y == 0.0
  {
  }

  /** The orientation of three points is invariant under cyclic relabelling
      and changes sign when the segment is reversed. */
  lemma OrientationCyclic(a: Vertice, b: Vertice, c: Vertice)
    ensures Orientation(Segment(a, b), c) == Orientation(Segment(b, c), a)
    ensures Orientation(Segment(b, c), a) == Orientation(Segment(c, a), b)
    ensures Orientation(Segment(b, a), c) == -Orientation(Segment(a, b), c)
  {
  }
}
