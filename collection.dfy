/** geometry/collection.py: a collection of polygons, its indexing, its
    concatenation and its listing in the 'poly' file format. */
module Collections {
  import opened Errors
  import opened Vertices
  import opened Rectangles

  /** A member of a collection: a `Polygon` (its vertex list) or a
      `Rectangle`, which is a `Polygon` whose vertices are its corners. */
  datatype Shape = PolygonShape(vertices: seq<Vertice>) | RectangleShape(rect: Rectangle)

  /** `shape.vertices`. */
  function ShapeVertices(s: Shape): seq<Vertice>
  {
    match s
    case PolygonShape(vs) => vs
    case RectangleShape(r) => RectVertices(r)
  }

  /** `Collection(polygons)`: the list of polygons, empty by default. */
  datatype Collection = Collection(polygons: seq<Shape>)

  const Empty := Collection([])

  /** `len(collection)`. */
  function Length(c: Collection): nat
  {
    |c.polygons|
  }

  /** `collection[item]`: an index outside `[0, len)` is an IndexError,
      negative indices included. */
  function GetItem(c: Collection, item: int): (r: Result<Shape>)
    ensures r.Ok? <==> 0 <= item < Length(c)
    ensures r.Ok? ==> r.value == c.polygons[item]
    ensures r.Err? ==> r.error == IndexError
  {
    if item < 0 || item >= Length(c) then Err(IndexError) else Ok(c.polygons[item])
  }

  /** The right operand of `collection + other`. */
  datatype Addend = ShapeAddend(shape: Shape) | CollectionAddend(other: Collection) | OtherAddend

  /** `collection + other`: a new collection with the polygon, or the other
      collection's polygons, after this one's; any other operand reaches
      `NotImplemented(...)`, a TypeError. */
  function Add(c: Collection, other: Addend): (r: Result<Collection>)
    ensures r.Err? <==> other.OtherAddend?
    ensures r.Err? ==> r.error == TypeError
  {
    match other
    case ShapeAddend(s) => Ok(Collection(c.polygons + [s]))
    case CollectionAddend(o) => Ok(Collection(c.polygons + o.polygons))
    case OtherAddend => Err(TypeError)
  }

  /** The number of polygons an addend brings. */
  function AddendLength(other: Addend): nat
  {
    match other
    case ShapeAddend(_) => 1
    case CollectionAddend(o) => Length(o)
    case OtherAddend => 0
  }

  /** The polygon at position `j` of an addend. */
  function AddendItem(other: Addend, j: int): Result<Shape>
  {
    match other
    case ShapeAddend(s) => if j == 0 then Ok(s) else Err(IndexError)
    case CollectionAddend(o) => GetItem(o, j)
    case OtherAddend => Err(IndexError)
  }

  /** A sum is as long as both operands together. */
  lemma AddLength(c: Collection, other: Addend)
    requires !other.OtherAddend?
    ensures Length(Add(c, other).value) == Length(c) + AddendLength(other)
  {
  }

  /** A sum keeps the left operand's polygons at their indices and puts the
      right operand's after them, in order. */
  lemma AddItems(c: Collection, other: Addend, i: int)
    requires !other.OtherAddend?
    ensures 0 <= i < Length(c) ==> GetItem(Add(c, other).value, i) == GetItem(c, i)
    ensures Length(c) <= i ==> GetItem(Add(c, other).value, i) == AddendItem(other, i - Length(c))
  {
  }

  /** Adding collections is associative, and the empty collection is neutral
      on both sides. */
  lemma AddAssociative(a: Collection, b: Collection, c: Collection)
    ensures Add(Add(a, CollectionAddend(b)).value, CollectionAddend(c))
         == Add(a, CollectionAddend(Add(b, CollectionAddend(c)).value))
    ensures Add(Empty, CollectionAddend(a)) == Ok(a)
    ensures Add(a, CollectionAddend(Empty)) == Ok(a)
  {
    assert (a.polygons + b.polygons) + c.polygons == a.polygons + (b.polygons + c.polygons);
    assert [] + a.polygons == a.polygons;
    assert a.polygons + [] == a.polygons;
  }

  /** One line `"{index} {x} {y}"` of a 'poly' file. */
  datatype Line = Line(index: nat, x: real, y: real)

  /** The lines of one polygon, tagged with its index. */
  function Tagged(index: nat, vs: seq<Vertice>): (ls: seq<Line>)
    ensures |ls| == |vs|
    ensures forall j :: 0 <= j < |ls| ==> ls[j] == Line(index, vs[j].x, vs[j].y)
  {
    seq(|vs|, j requires 0 <= j < |vs| => Line(index, vs[j].x, vs[j].y))
  }

  /** The 'poly' listing of the polygons: every polygon's vertices in order,
      polygon after polygon. */
  function PolyLines(ps: seq<Shape>): seq<Line>
  {
    if ps == [] then []
    else PolyLines(ps[..|ps| - 1]) + Tagged(|ps| - 1, ShapeVertices(ps[|ps| - 1]))
  }

  /** `poly_file_print`: the lines are collected instead of written to a
      file. */
  method PolyFilePrint(c: Collection) returns (lines: seq<Line>)
    ensures lines == PolyLines(c.polygons)
  {
    lines := [];
    for index := 0 to |c.polygons|
      invariant lines == PolyLines(c.polygons[..index])
    {
      var vs := ShapeVertices(c.polygons[index]);
      for j := 0 to |vs|
        invariant lines == PolyLines(c.polygons[..index]) + Tagged(index, vs)[..j]
      {
        lines := lines + [Line(index, vs[j].x, vs[j].y)];
      }
      assert Tagged(index, vs)[..|vs|] == Tagged(index, vs);
      assert c.polygons[..index + 1][..index] == c.polygons[..index];
    }
    assert c.polygons[..|c.polygons|] == c.polygons;
  }

  /** Reading a 'poly' file back: the vertices on the lines tagged `index`,
      in file order. */
  function VerticesOf(lines: seq<Line>, index: nat): seq<Vertice>
  {
    if lines == [] then []
    else
      var last := lines[|lines| - 1];
      VerticesOf(lines[..|lines| - 1], index) + (if last.index == index then [Vertice(last.x, last.y)] else [])
  }

  /** The total number of vertices of the polygons. */
  function VerticeCount(ps: seq<Shape>): nat
  {
    if ps == [] then 0 else VerticeCount(ps[..|ps| - 1]) + |ShapeVertices(ps[|ps| - 1])|
  }

  lemma {:induction false} VerticesOfAppend(a: seq<Line>, b: seq<Line>, index: nat)
    ensures VerticesOf(a + b, index) == VerticesOf(a, index) + VerticesOf(b, index)
  {
    if b != [] {
      assert (a + b)[..|a + b| - 1] == a + b[..|b| - 1];
      VerticesOfAppend(a, b[..|b| - 1], index);
    } else {
      assert a + b == a;
    }
  }

  lemma {:induction false} VerticesOfTagged(tag: nat, vs: seq<Vertice>, index: nat)
    ensures VerticesOf(Tagged(tag, vs), index) == if tag == index then vs else []
  {
    if vs != [] {
      var n := |vs|;
      assert Tagged(tag, vs)[..n - 1] == Tagged(tag, vs[..n - 1]);
      VerticesOfTagged(tag, vs[..n - 1], index);
      assert vs[..n - 1] + [vs[n - 1]] == vs;
    }
  }

  /** The listing has one line per vertex. */
  lemma {:induction false} PolyLinesLength(ps: seq<Shape>)
    ensures |PolyLines(ps)| == VerticeCount(ps)
  {
    if ps != [] {
      PolyLinesLength(ps[..|ps| - 1]);
    }
  }

  /** Every tag of the listing is the index of a polygon. */
  lemma {:induction false} PolyLinesIndices(ps: seq<Shape>)
    ensures forall l :: l in PolyLines(ps) ==> l.index < |ps|
  {
    if ps != [] {
      PolyLinesIndices(ps[..|ps| - 1]);
    }
  }

  /** Reading the 'poly' listing back gives every polygon its own vertices,
      in order, and nothing for an index past the last polygon. */
  lemma {:induction false} PolyFileRoundTrip(ps: seq<Shape>, index: nat)
    ensures VerticesOf(PolyLines(ps), index)
         == if index < |ps| then ShapeVertices(ps[index]) else []
  {
    if ps != [] {
      var n := |ps|;
      PolyFileRoundTrip(ps[..n - 1], index);
      VerticesOfAppend(PolyLines(ps[..n - 1]), Tagged(n - 1, ShapeVertices(ps[n - 1])), index);
      VerticesOfTagged(n - 1, ShapeVertices(ps[n - 1]), index);
    }
  }
}
