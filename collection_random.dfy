/** `Collection.random` (geometry/collection.py): a first polygon drawn in the
    whole space, then the rest drawn recursively in the cells of a grid laid
    over the first polygon's largest interior rectangle. */
module CollectionRandom {
  import opened Errors
  import opened Utils
  import opened Randomness
  import opened Vertices
  import opened Values
  import opened Rectangles
  import opened Polygons
  import opened Collections
  import opened CollectionOptions

  /** The largest-interior-rectangle library: from the vertices of a polygon
      to the two limit corners `pt1` and `pt2` of the rectangle it finds. */
  type LirFn = seq<Vertice> -> (Vertice, Vertice)

  /** What the generation draws on: randint, atan2 and the library. */
  datatype Env = Env(rnd: RandInt, angle: AngleFn, lir: LirFn)

  /** `np.array(..., np.int32)`: each coordinate truncated toward zero. */
  function Int32Grid(vs: seq<Vertice>): seq<Vertice>
  {
    seq(|vs|, i requires 0 <= i < |vs| => Vertice(Trunc(vs[i].x) as real, Trunc(vs[i].y) as real))
  }

  /** `largestinteriorrectangle()`: the Rectangle from `pt1` with the
      dimensions `pt2 - pt1`, so that its opposite corners are the two limit
      corners the library returned. */
  function Lir(vs: seq<Vertice>, lir: LirFn): (r: Rectangle)
    ensures RectVertices(r)[0] == lir(Int32Grid(vs)).0
    ensures RectVertices(r)[2] == lir(Int32Grid(vs)).1
  {
    var (topLeft, bottomRight) := lir(Int32Grid(vs));
    var dimensions := Sub(bottomRight, topLeft);
    RectV(topLeft, dimensions.y, dimensions.x)
  }

  /** The kinds of polygon `generate_polygon` can draw. */
  datatype Kind = Plain | Rect | Simple

  /** The cases of `match polygon_type`, in order: `0 | 'polygon'`,
      `1 | 'rectangle'`, `2 | 'simple'` and `3 | 'convex'`; the last two both
      draw a simplified polygon. Literal patterns compare with `==`. */
  function KindOf(t: Value): Option<Kind>
  {
    if EqualsInt(t, 0) || t == StrV("polygon") then Some(Plain)
    else if EqualsInt(t, 1) || t == StrV("rectangle") then Some(Rect)
    else if EqualsInt(t, 2) || t == StrV("simple") || EqualsInt(t, 3) || t == StrV("convex") then Some(Simple)
    else None
  }

  /** The types validation accepts are exactly those the dispatch knows. */
  lemma KindOfValidTypes(t: Value)
    ensures ValidType(t) <==> KindOf(t).Some?
    ensures KindOf(StrV("polygon")) == KindOf(IntV(0)) == Some(Plain)
    ensures KindOf(StrV("rectangle")) == KindOf(IntV(1)) == Some(Rect)
    ensures KindOf(StrV("convex")) == KindOf(IntV(3)) == Some(Simple)
  {
  }

  /** The arguments `generate_polygons` passes down unchanged. */
  datatype Request = Request(ptype: Value, form: Value, divisions: Value)

  /** `generate_polygon`: the shape, and the next draw. The space must be a
      Rectangle (AssertionError); the vertex count is drawn between the
      form's bounds (a missing bound is a KeyError, an empty range
      randint's ValueError); an unknown type is a ValueError. */
  function GeneratePolygonSpec(req: Request, space: Value, env: Env, k: nat): (res: (Result<Shape>, nat))
  {
    if !space.RectV? then (Err(AssertionError), k)
    else
      match GetKey(req.form, "min_vertices_count")
      case Err(e) => (Err(e), k)
      case Ok(lo) =>
        match GetKey(req.form, "max_vertices_count")
        case Err(e) => (Err(e), k)
        case Ok(hi) =>
          if !lo.IntV? || !hi.IntV? then (Err(TypeError), k)
          else if lo.i > hi.i then (Err(ValueError), k)
          else
            var n := env.rnd(k, lo.i, hi.i);
            match KindOf(req.ptype)
            case None => (Err(ValueError), k + 1)
            case Some(Rect) =>
              var (r, next) := RandomRectangleSpec(space, env.rnd, k + 1);
              (if r.Err? then Err(r.error) else Ok(RectangleShape(r.value)), next)
            case Some(kind) =>
              var p := RandomPolygonSpec(RectVertices(space), n, kind == Simple, false, env.rnd, env.angle, k + 1);
              if p.Err? then (Err(p.error), k + 1) else (Ok(PolygonShape(p.value)), k + 1 + 2 * n)
  }

  /** The generated shape is of the requested kind. */
  lemma GeneratedKind(req: Request, space: Value, env: Env, k: nat)
    requires GeneratePolygonSpec(req, space, env, k).0.Ok?
    ensures space.RectV? && KindOf(req.ptype).Some?
    ensures GeneratePolygonSpec(req, space, env, k).0.value.RectangleShape? <==> KindOf(req.ptype) == Some(Rect)
  {
  }

  method GeneratePolygon(req: Request, space: Value, env: Env, k: nat) returns (r: Result<Shape>, next: nat)
    ensures r == GeneratePolygonSpec(req, space, env, k).0
    ensures r.Ok? ==> next == GeneratePolygonSpec(req, space, env, k).1
  {
    next := k;
    if !space.RectV? {
      return Err(AssertionError), next;
    }
    var lo := GetKey(req.form, "min_vertices_count");
    if lo.Err? {
      return Err(lo.error), next;
    }
    var hi := GetKey(req.form, "max_vertices_count");
    if hi.Err? {
      return Err(hi.error), next;
    }
    if !lo.value.IntV? || !hi.value.IntV? {
      return Err(TypeError), next;
    }
    if lo.value.i > hi.value.i {
      return Err(ValueError), next;
    }
    var n := env.rnd(k, lo.value.i, hi.value.i);
    next := k + 1;
    var kind := KindOf(req.ptype);
    if kind.None? {
      return Err(ValueError), next;
    }
    if kind.value == Rect {
      var rect;
      rect, next := RandomRectangle(space, env.rnd, next);
      if rect.Err? {
        return Err(rect.error), next;
      }
      return Ok(RectangleShape(rect.value)), next;
    }
    var polygon;
    polygon, next := RandomPolygon(RectVertices(space), n, kind.value == Simple, false, env.rnd, env.angle, next);
    if polygon.Err? {
      return Err(polygon.error), next;
    }
    return Ok(PolygonShape(polygon.value.vertices)), next;
  }

  /** Some line of the grid has a cell. */
  predicate HasCell(grid: seq<seq<Rectangle>>)
  {
    exists line :: 0 <= line < |grid| && |grid[line]| > 0
  }

  /** The grid of a successful division has the requested shape, and a cell
      only when both division counts are at least 1. */
  lemma GridCells(r: Rectangle, divisions: Value)
    requires DivideSpec(r, divisions).Ok?
    ensures IsIntPair(divisions)
    ensures var g := DivideSpec(r, divisions).value;
      var rows, cols := divisions.items[0].i, divisions.items[1].i;
      |g| == Max(rows, 0) && (forall line :: 0 <= line < |g| ==> |g[line]| == Max(cols, 0)) &&
      (HasCell(g) ==> rows >= 1 && cols >= 1)
  {
    GridShape(r, divisions.items[0].i, divisions.items[1].i);
  }

  /** The share of each cell, `count % d + count // d`, lies between 1 and
      the count, and `d` shares cover the count. */
  lemma ShareBounds(count: int, d: int)
    requires count >= 1 && d >= 1
    ensures var share := PyMod(count, d) + PyDiv(count, d);
      1 <= share <= count && d * share >= count
  {
    var q, m := PyDiv(count, d), PyMod(count, d);
    assert count == q * d + m && 0 <= m < d;
    NonNegativeFactor(q, d);
    NoSmallerThanFactor(q, d);
    NoSmallerThanFactor(m, d);
    assert d * (m + q) == m * d + q * d;
  }

  /** Multiplying by a positive int does not make a natural smaller. */
  lemma NoSmallerThanFactor(a: int, b: int)
    requires a >= 0 && b >= 1
    ensures a <= a * b
  {
    assert a * b == a * (b - 1) + a;
    assert a * (b - 1) >= 0;
  }

  /** A factor whose product with `b >= 1` exceeds `-b` is not negative. */
  lemma NonNegativeFactor(a: int, b: int)
    requires b >= 1 && a * b > -b
    ensures a >= 0
  {
    if a < 0 {
      NoSmallerThanFactor(b, -a);
      assert false;
    }
  }

  /** `generate_polygons`: the collection, and the next draw. */
  function GenSpec(count: nat, req: Request, space: Value, env: Env, k: nat): (Result<Collection>, nat)
    decreases count, 2, 0, 0
  {
    if count == 0 then (Ok(Empty), k)
    else
      var (first, k1) := GeneratePolygonSpec(req, space, env, k);
      if first.Err? then (Err(first.error), k1)
      else if count == 1 then (Ok(Collection([first.value])), k1)
      else SubdivideSpec(count, first.value, req, env, k1)
  }

  /** The rest of `generate_polygons` once the first polygon is drawn and
      more are wanted: the grid over its largest interior rectangle, the
      share of each cell (dividing by a zero cell count is a
      ZeroDivisionError) and the loop over the cells. */
  function SubdivideSpec(count: nat, first: Shape, req: Request, env: Env, k: nat): (Result<Collection>, nat)
    requires count >= 2
    decreases count, 1, 0, 0
  {
    var remaining := count - 1;
    var lir := Lir(ShapeVertices(first), env.lir);
    var subspaces := DivideSpec(lir, req.divisions);
    if subspaces.Err? then (Err(subspaces.error), k)
    else
      GridCells(lir, req.divisions);
      var d := req.divisions.items[0].i * req.divisions.items[1].i;
      if d == 0 then (Err(ZeroDivisionError), k)
      else
        var share := PyMod(remaining, d) + PyDiv(remaining, d);
        assert HasCell(subspaces.value) ==> 1 <= share < count by {
          if HasCell(subspaces.value) {
            ShareBounds(remaining, d);
          }
        }
        CellsSpec(subspaces.value, 0, 0, remaining, share, count, Collection([first]), req, env, k)
  }

  /** The loop over the cells, line by line, from cell `(line, column)`:
      each cell adds `share` polygons drawn in it, and the loop stops as soon
      as the count still to draw, `remaining`, is used up. */
  function CellsSpec(grid: seq<seq<Rectangle>>, line: nat, column: nat, remaining: int, share: int,
                     parent: nat, acc: Collection, req: Request, env: Env, k: nat): (Result<Collection>, nat)
    requires line <= |grid| && (line < |grid| ==> column <= |grid[line]|)
    requires HasCell(grid) ==> 0 <= share < parent
    decreases parent, 0, |grid| - line, if line < |grid| then |grid[line]| - column else 0
  {
    if line == |grid| then (Ok(acc), k)
    else if column == |grid[line]| then CellsSpec(grid, line + 1, 0, remaining, share, parent, acc, req, env, k)
    else
      assert HasCell(grid);
      var (sub, next) := GenSpec(share, req, grid[line][column], env, k);
      if sub.Err? then (Err(sub.error), next)
      else
        var acc' := Collection(acc.polygons + sub.value.polygons);
        if remaining - share <= 0 then (Ok(acc'), next)
        else CellsSpec(grid, line, column + 1, remaining - share, share, parent, acc', req, env, next)
  }

  method Generate(count: nat, req: Request, space: Value, env: Env, k: nat) returns (r: Result<Collection>, next: nat)
    ensures r == GenSpec(count, req, space, env, k).0
    ensures r.Ok? ==> next == GenSpec(count, req, space, env, k).1
    decreases count, 2, 0
  {
    next := k;
    if count == 0 {
      return Ok(Empty), next;
    }
    var first;
    first, next := GeneratePolygon(req, space, env, k);
    if first.Err? {
      return Err(first.error), next;
    }
    if count == 1 {
      return Ok(Collection([first.value])), next;
    }
    r, next := Subdivide(count, first.value, req, env, next);
  }

  method Subdivide(count: nat, first: Shape, req: Request, env: Env, k: nat) returns (r: Result<Collection>, next: nat)
    requires count >= 2
    ensures r == SubdivideSpec(count, first, req, env, k).0
    ensures r.Ok? ==> next == SubdivideSpec(count, first, req, env, k).1
    decreases count, 1, 0
  {
    next := k;
    var remaining := count - 1;
    var lir := Lir(ShapeVertices(first), env.lir);
    var subspaces := Divide(lir, req.divisions);
    if subspaces.Err? {
      return Err(subspaces.error), next;
    }
    GridCells(lir, req.divisions);
    var d := req.divisions.items[0].i * req.divisions.items[1].i;
    if d == 0 {
      return Err(ZeroDivisionError), next;
    }
    var share := PyMod(remaining, d) + PyDiv(remaining, d);
    SubdivideCells(count, first, req, env, k, subspaces.value, d);
    r, next := GenerateCells(subspaces.value, remaining, share, count, Collection([first]), req, env, next);
  }

  /** Past a successful division and a non-zero cell count, the subdivision
      is the loop over the cells with the share of each. */
  lemma SubdivideCells(count: nat, first: Shape, req: Request, env: Env, k: nat, grid: seq<seq<Rectangle>>, d: int)
    requires count >= 2
    requires DivideSpec(Lir(ShapeVertices(first), env.lir), req.divisions) == Ok(grid)
    requires IsIntPair(req.divisions) && d == req.divisions.items[0].i * req.divisions.items[1].i && d != 0
    ensures HasCell(grid) ==> 0 <= PyMod(count - 1, d) + PyDiv(count - 1, d) < count
    ensures SubdivideSpec(count, first, req, env, k)
         == CellsSpec(grid, 0, 0, count - 1, PyMod(count - 1, d) + PyDiv(count - 1, d), count, Collection([first]), req, env, k)
  {
    GridCells(Lir(ShapeVertices(first), env.lir), req.divisions);
    if HasCell(grid) {
      ShareBounds(count - 1, d);
    }
  }

  /** The `for subspaces_line ... for subspace ...` loops of
      `generate_polygons`. */
  method GenerateCells(grid: seq<seq<Rectangle>>, remaining: int, share: int, parent: nat,
                       acc: Collection, req: Request, env: Env, k: nat)
    returns (r: Result<Collection>, next: nat)
    requires HasCell(grid) ==> 0 <= share < parent
    ensures r == CellsSpec(grid, 0, 0, remaining, share, parent, acc, req, env, k).0
    ensures r.Ok? ==> next == CellsSpec(grid, 0, 0, remaining, share, parent, acc, req, env, k).1
    decreases parent, 0, 1
  {
    next := k;
    var left := remaining;
    var collection := acc;
    ghost var target := CellsSpec(grid, 0, 0, remaining, share, parent, acc, req, env, k);
    for line := 0 to |grid|
      invariant CellsSpec(grid, line, 0, left, share, parent, collection, req, env, next) == target
    {
      for column := 0 to |grid[line]|
        invariant CellsSpec(grid, line, column, left, share, parent, collection, req, env, next) == target
      {
        var stop, result;
        stop, result, left, collection, next := GenerateCell(grid, line, column, left, share, parent,
                                                             collection, req, env, next);
        if stop {
          return result, next;
        }
      }
      CellsAtLineEnd(grid, line, left, share, parent, collection, req, env, next);
    }
    return Ok(collection), next;
  }

  /** The body of the inner loop: the polygons drawn in cell
      `(line, column)`, then the early return once the count is used up.
      `stop` tells whether the loop ends here, with result `r`. */
  method GenerateCell(grid: seq<seq<Rectangle>>, line: nat, column: nat, remaining: int, share: int,
                      parent: nat, acc: Collection, req: Request, env: Env, k: nat)
    returns (stop: bool, r: Result<Collection>, left: int, collection: Collection, next: nat)
    requires line < |grid| && column < |grid[line]|
    requires HasCell(grid) ==> 0 <= share < parent
    ensures var spec := CellsSpec(grid, line, column, remaining, share, parent, acc, req, env, k);
      if stop then r == spec.0 && (r.Ok? ==> next == spec.1)
      else CellsSpec(grid, line, column + 1, left, share, parent, collection, req, env, next) == spec
    decreases parent, 0, 0
  {
    assert HasCell(grid) by {
      assert 0 <= line < |grid| && |grid[line]| > 0;
    }
    var sub, after := Generate(share, req, grid[line][column], env, k);
    if sub.Err? {
      CellFails(grid, line, column, remaining, share, parent, acc, req, env, k);
      return true, Err(sub.error), remaining, acc, after;
    }
    collection := Collection(acc.polygons + sub.value.polygons);
    next := after;
    left := remaining - share;
    stop := left <= 0;
    r := Ok(collection);
    if stop {
      CellUsesUp(grid, line, column, remaining, share, parent, acc, req, env, k, collection, next);
    } else {
      CellLeavesMore(grid, line, column, remaining, share, parent, acc, req, env, k, left, collection, next);
    }
  }

  /** A cell whose generation fails ends the cells with that error. */
  lemma CellFails(grid: seq<seq<Rectangle>>, line: nat, column: nat, remaining: int, share: int,
                  parent: nat, acc: Collection, req: Request, env: Env, k: nat)
    requires line < |grid| && column < |grid[line]|
    requires HasCell(grid) ==> 0 <= share < parent
    requires GenSpec(share, req, grid[line][column], env, k).0.Err?
    ensures CellsSpec(grid, line, column, remaining, share, parent, acc, req, env, k).0
         == Err(GenSpec(share, req, grid[line][column], env, k).0.error)
  {
    CellsAtCell(grid, line, column, remaining, share, parent, acc, req, env, k);
  }

  /** A cell that uses up the count ends the cells with the collection it
      completes. */
  lemma CellUsesUp(grid: seq<seq<Rectangle>>, line: nat, column: nat, remaining: int, share: int,
                   parent: nat, acc: Collection, req: Request, env: Env, k: nat,
                   collection: Collection, after: nat)
    requires line < |grid| && column < |grid[line]|
    requires HasCell(grid) ==> 0 <= share < parent
    requires GenSpec(share, req, grid[line][column], env, k).0.Ok?
    requires remaining - share <= 0
    requires after == GenSpec(share, req, grid[line][column], env, k).1
    requires collection == Collection(acc.polygons + GenSpec(share, req, grid[line][column], env, k).0.value.polygons)
    ensures CellsSpec(grid, line, column, remaining, share, parent, acc, req, env, k) == (Ok(collection), after)
  {
    CellsAtCell(grid, line, column, remaining, share, parent, acc, req, env, k);
  }

  /** A cell that leaves part of the count hands it, with its collection and
      draw counter, to the next cell. */
  lemma CellLeavesMore(grid: seq<seq<Rectangle>>, line: nat, column: nat, remaining: int, share: int,
                       parent: nat, acc: Collection, req: Request, env: Env, k: nat,
                       left: int, collection: Collection, after: nat)
    requires line < |grid| && column < |grid[line]|
    requires HasCell(grid) ==> 0 <= share < parent
    requires GenSpec(share, req, grid[line][column], env, k).0.Ok?
    requires left == remaining - share && left > 0
    requires after == GenSpec(share, req, grid[line][column], env, k).1
    requires collection == Collection(acc.polygons + GenSpec(share, req, grid[line][column], env, k).0.value.polygons)
    ensures CellsSpec(grid, line, column + 1, left, share, parent, collection, req, env, after)
         == CellsSpec(grid, line, column, remaining, share, parent, acc, req, env, k)
  {
    CellsAtCell(grid, line, column, remaining, share, parent, acc, req, env, k);
  }

  lemma CellsAtCell(grid: seq<seq<Rectangle>>, line: nat, column: nat, remaining: int, share: int,
                    parent: nat, acc: Collection, req: Request, env: Env, k: nat)
    requires line < |grid| && column < |grid[line]|
    requires HasCell(grid) ==> 0 <= share < parent
    ensures 0 <= share < parent
    ensures var (sub, next) := GenSpec(share, req, grid[line][column], env, k);
      CellsSpec(grid, line, column, remaining, share, parent, acc, req, env, k)
      == if sub.Err? then (Err(sub.error), next)
         else if remaining - share <= 0 then (Ok(Collection(acc.polygons + sub.value.polygons)), next)
         else CellsSpec(grid, line, column + 1, remaining - share, share, parent,
                        Collection(acc.polygons + sub.value.polygons), req, env, next)
  {
    assert HasCell(grid);
  }

  /** The end of a line of cells moves to the next line. */
  lemma CellsAtLineEnd(grid: seq<seq<Rectangle>>, line: nat, remaining: int, share: int,
                       parent: nat, acc: Collection, req: Request, env: Env, k: nat)
    requires line < |grid|
    requires HasCell(grid) ==> 0 <= share < parent
    ensures CellsSpec(grid, line, |grid[line]|, remaining, share, parent, acc, req, env, k)
         == CellsSpec(grid, line + 1, 0, remaining, share, parent, acc, req, env, k)
  {
  }

  /** `Rectangle(Vertice(), DEFAULT_RANDOM_SPACE_LENGTH, DEFAULT_RANDOM_SPACE_WIDTH)`. */
  const DefaultSpace: Rectangle := RectV(Origin, 720.0, 1280.0)

  /** `Collection.random(options)`: the checked options, the default space in
      place of a None one, then the generation. Reading `['space']` or
      `['divisions']` from a space dictionary that lacks them is a KeyError. */
  function RandomCollectionSpec(user: Option<map<string, Value>>, env: Env, k: nat): (Result<Collection>, nat)
  {
    match CheckOptions(user)
    case Err(e) => (Err(e), k)
    case Ok(o) =>
      CheckedOptions(user);
      var spaceOptions := o["space"];
      match GetKey(spaceOptions, "space")
      case Err(e) => (Err(e), k)
      case Ok(s) =>
        var space := if s == NoneV then DefaultSpace else s;
        match GetKey(spaceOptions, "divisions")
        case Err(e) => (Err(e), k)
        case Ok(divisions) => GenSpec(o["count"].i, Request(o["type"], o["form"], divisions), space, env, k)
  }

  method RandomCollection(user: Option<map<string, Value>>, env: Env, k: nat) returns (r: Result<Collection>, next: nat)
    ensures r == RandomCollectionSpec(user, env, k).0
    ensures r.Ok? ==> next == RandomCollectionSpec(user, env, k).1
  {
    var options := CheckOptions(user);
    if options.Err? {
      return Err(options.error), k;
    }
    var o := options.value;
    CheckedOptions(user);
    var spaceOptions := o["space"];
    var s := GetKey(spaceOptions, "space");
    if s.Err? {
      return Err(s.error), k;
    }
    var space := if s.value == NoneV then DefaultSpace else s.value;
    var divisions := GetKey(spaceOptions, "divisions");
    if divisions.Err? {
      return Err(divisions.error), k;
    }
    r, next := Generate(o["count"].i, Request(o["type"], o["form"], divisions.value), space, env, k);
  }
}
