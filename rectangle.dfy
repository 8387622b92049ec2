/** geometry/shapes/rectangle.py: a `Rectangle` is a polygon whose four
    vertices are fixed at construction; it can be cut into a grid and drawn
    at random inside a space. */
module Rectangles {
  import opened Errors
  import opened Utils
  import opened Randomness
  import opened Vertices
  import opened Values
  import opened PolygonMeasures

  /** An instance of `Rectangle`: `RectV(top_left, length, width)`. */
  type Rectangle = v: Value | v.RectV? witness RectV(Origin, 0.0, 0.0)

  /** The vertex list built by `Rectangle.__init__`: the corners of a
      `width` by `length` box at the origin, each translated by `top_left`. */
  function RectVertices(r: Rectangle): (vs: seq<Vertice>)
    ensures |vs| == 4
  {
    var tl := r.topLeft;
    [Add(Vertice(0.0, 0.0), tl), Add(Vertice(r.width, 0.0), tl),
     Add(Vertice(r.width, r.length), tl), Add(Vertice(0.0, r.length), tl)]
  }

  /** The box at the origin. */
  function BoxAtOrigin(length: real, width: real): seq<Vertice>
  {
    [Vertice(0.0, 0.0), Vertice(width, 0.0), Vertice(width, length), Vertice(0.0, length)]
  }

  /** The vertices are `top_left`, then `top_left` moved by `(w, 0)`,
      `(w, l)` and `(0, l)`: vertex 2 is opposite vertex 0. */
  lemma RectVerticesAreCorners(r: Rectangle)
    ensures var tl := r.topLeft;
      RectVertices(r) == [tl, Vertice(tl.x + r.width, tl.y),
                          Vertice(tl.x + r.width, tl.y + r.length), Vertice(tl.x, tl.y + r.length)]
    ensures RectVertices(r) == Translate(BoxAtOrigin(r.length, r.width), r.topLeft)
  {
  }

  /** The shoelace area of a rectangle is `length * width`. */
  lemma RectangleArea(r: Rectangle)
    ensures Area(RectVertices(r)) == r.length * r.width
  {
    var b := BoxAtOrigin(r.length, r.width);
    RectVerticesAreCorners(r);
    AreaTranslate(b, r.topLeft);
    CouplesSum(b);
    var cp := ChainPairs(b);
    assert cp == [(b[0], b[1]), (b[1], b[2]), (b[2], b[3])];
    assert cp[..2] == [(b[0], b[1]), (b[1], b[2])];
    assert cp[..2][..1] == [(b[0], b[1])];
    assert cp[..2][..1][..0] == [];
    assert SumCross(cp[..2][..1]) == Cross(b[0], b[1]);
    assert SumCross(cp[..2]) == Cross(b[0], b[1]) + Cross(b[1], b[2]);
    assert SumCross(cp) == Cross(b[0], b[1]) + Cross(b[1], b[2]) + Cross(b[2], b[3]);
  }

  /** The centre of a rectangle is `top_left + (width / 2, length / 2)`. */
  lemma RectangleCenter(r: Rectangle)
    ensures Center(RectVertices(r)) ==
      Ok(Vertice(r.topLeft.x + r.width / 2.0, r.topLeft.y + r.length / 2.0))
  {
    var vs := RectVertices(r);
    assert vs[..3][..2][..1][..0] == [];
    assert vs[..3][..2][..1] == [vs[0]];
    assert vs[..3][..2] == [vs[0], vs[1]];
    assert vs[..3] == [vs[0], vs[1], vs[2]];
    assert SumOf(vs[..3][..2][..1], X) == vs[0].x;
    assert SumOf(vs[..3][..2], X) == vs[0].x + vs[1].x;
    assert SumOf(vs[..3], X) == vs[0].x + vs[1].x + vs[2].x;
    assert SumOf(vs, X) == vs[0].x + vs[1].x + vs[2].x + vs[3].x;
    assert SumOf(vs[..3][..2][..1], Y) == vs[0].y;
    assert SumOf(vs[..3][..2], Y) == vs[0].y + vs[1].y;
    assert SumOf(vs[..3], Y) == vs[0].y + vs[1].y + vs[2].y;
    assert SumOf(vs, Y) == vs[0].y + vs[1].y + vs[2].y + vs[3].y;
  }

  /** `np.linspace(start, stop, num)`: `num` evenly spaced values from
      `start` to `stop` inclusive (`i * step + start`, the last one being
      `stop`); a negative `num` is a ValueError. */
  function Linspace(start: real, stop: real, num: int): (r: Result<seq<real>>)
    ensures r.Ok? <==> num >= 0
    ensures r.Err? ==> r.error == ValueError
    ensures r.Ok? ==> |r.value| == num
    ensures num >= 1 ==> r.value[0] == start
    ensures num >= 2 ==> r.value[num - 1] == stop
  {
    if num < 0 then Err(ValueError)
    else if num == 0 then Ok([])
    else if num == 1 then Ok([start])
    else
      var step := (stop - start) / (num - 1) as real;
      var values := seq(num, i requires 0 <= i < num => if i == num - 1 then stop else i as real * step + start);
      Ok(values)
  }

  /** Consecutive values of a linspace are one step apart. */
  lemma LinspaceStep(start: real, stop: real, num: int, i: nat)
    requires num >= 2 && i < num
    ensures Linspace(start, stop, num).value[i] == start + i as real * ((stop - start) / (num - 1) as real)
  {
    var step := (stop - start) / (num - 1) as real;
    if i == num - 1 {
      assert (num - 1) as real * step == stop - start;
    }
  }

  /** The divisor of `Rectangle.__truediv__` must be a tuple of two ints. */
  predicate IsIntPair(other: Value)
  {
    other.TupleV? && |other.items| == 2 && other.items[0].IntV? && other.items[1].IntV?
  }

  /** Cell `(line, column)`: from `(h[column], v[line])` to
      `(h[column + 1], v[line + 1])`. */
  function Cell(v: seq<real>, h: seq<real>, line: nat, column: nat): Rectangle
    requires line + 1 < |v| && column + 1 < |h|
  {
    var topLeft := Vertice(h[column], v[line]);
    var bottomRight := Vertice(h[column + 1], v[line + 1]);
    var dimensions := Sub(bottomRight, topLeft);
    RectV(topLeft, dimensions.y, dimensions.x)
  }

  /** The grid `r / (rows, cols)`: `rows` lists of `cols` cells (none for a
      count below 1); `rows + 1` or `cols + 1` below 0 makes linspace fail. */
  function Grid(r: Rectangle, rows: int, cols: int): (g: Result<seq<seq<Rectangle>>>)
  {
    var vs := RectVertices(r);
    match Linspace(vs[0].y, vs[2].y, rows + 1)
    case Err(e) => Err(e)
    case Ok(v) =>
      match Linspace(vs[0].x, vs[2].x, cols + 1)
      case Err(e) => Err(e)
      case Ok(h) =>
        Ok(seq(Max(rows, 0), line requires 0 <= line < Max(rows, 0) =>
             seq(Max(cols, 0), column requires 0 <= column < Max(cols, 0) => Cell(v, h, line, column))))
  }

  /** `r / other`: `NotImplemented(...)` is not callable, so a divisor that is
      not a pair of ints is a TypeError. */
  function DivideSpec(r: Rectangle, other: Value): (g: Result<seq<seq<Rectangle>>>)
    ensures !IsIntPair(other) ==> g == Err(TypeError)
  {
    if !IsIntPair(other) then Err(TypeError) else Grid(r, other.items[0].i, other.items[1].i)
  }

  /** `__truediv__`: the nested loops over lines and columns. */
  method Divide(r: Rectangle, other: Value) returns (g: Result<seq<seq<Rectangle>>>)
    ensures g == DivideSpec(r, other)
  {
    if !(other.TupleV? && |other.items| == 2 && other.items[0].IntV? && other.items[1].IntV?) {
      return Err(TypeError);
    }
    var rows, cols := other.items[0].i, other.items[1].i;
    var vs := RectVertices(r);
    var verticalValues := Linspace(vs[0].y, vs[2].y, rows + 1);
    if verticalValues.Err? {
      return Err(verticalValues.error);
    }
    var horizontalValues := Linspace(vs[0].x, vs[2].x, cols + 1);
    if horizontalValues.Err? {
      return Err(horizontalValues.error);
    }
    var v, h := verticalValues.value, horizontalValues.value;
    ghost var spec := Grid(r, rows, cols).value;
    var rectangles: seq<seq<Rectangle>> := [];
    for line := 0 to Max(rows, 0)
      invariant rectangles == spec[..line]
    {
      var row: seq<Rectangle> := [];
      for column := 0 to Max(cols, 0)
        invariant row == spec[line][..column]
      {
        var topLeft := Vertice(h[column], v[line]);
        var bottomRight := Vertice(h[column + 1], v[line + 1]);
        var dimensions := Sub(bottomRight, topLeft);
        row := row + [RectV(topLeft, dimensions.y, dimensions.x)];
      }
      assert row == spec[line];
      rectangles := rectangles + [row];
    }
    assert rectangles == spec;
    return Ok(rectangles);
  }

  /** The grid fails exactly for a count below -1, and otherwise has
      `max(rows, 0)` lines of `max(cols, 0)` cells. */
  lemma GridShape(r: Rectangle, rows: int, cols: int)
    ensures Grid(r, rows, cols).Ok? <==> rows >= -1 && cols >= -1
    ensures Grid(r, rows, cols).Err? ==> Grid(r, rows, cols).error == ValueError
    ensures Grid(r, rows, cols).Ok? ==> |Grid(r, rows, cols).value| == Max(rows, 0)
    ensures Grid(r, rows, cols).Ok? ==>
      forall line :: 0 <= line < Max(rows, 0) ==> |Grid(r, rows, cols).value[line]| == Max(cols, 0)
  {
  }

  /** Cell `(line, column)` of the grid, with the two linspaces named. */
  lemma GridCell(r: Rectangle, rows: int, cols: int, line: nat, column: nat)
    requires rows >= 1 && cols >= 1 && line < rows && column < cols
    ensures var vs := RectVertices(r);
      var v := Linspace(vs[0].y, vs[2].y, rows + 1).value;
      var h := Linspace(vs[0].x, vs[2].x, cols + 1).value;
      Grid(r, rows, cols).Ok? && Grid(r, rows, cols).value[line][column] == Cell(v, h, line, column)
  {
  }

  /** The values of the vertical and horizontal linspaces of a rectangle. */
  lemma CutValues(r: Rectangle, rows: int, i: nat, vertical: bool)
    requires rows >= 1 && i <= rows
    ensures var vs := RectVertices(r);
      vertical ==> Linspace(vs[0].y, vs[2].y, rows + 1).value[i] == r.topLeft.y + i as real * (r.length / rows as real)
    ensures var vs := RectVertices(r);
      !vertical ==> Linspace(vs[0].x, vs[2].x, rows + 1).value[i] == r.topLeft.x + i as real * (r.width / rows as real)
  {
    var vs := RectVertices(r);
    assert vs[2].y - vs[0].y == r.length && vs[2].x - vs[0].x == r.width;
    assert vs[0].y == r.topLeft.y && vs[0].x == r.topLeft.x;
    if vertical {
      LinspaceStep(vs[0].y, vs[2].y, rows + 1, i);
    } else {
      LinspaceStep(vs[0].x, vs[2].x, rows + 1, i);
    }
  }

  lemma StepDifference(base: real, step: real, i: nat)
    ensures (base + (i + 1) as real * step) - (base + i as real * step) == step
  {
  }

  /** The cells of line `line` are `length / rows` long and start at
      `top_left.y + line * length / rows`. */
  lemma CellVertical(r: Rectangle, rows: int, cols: int, line: nat, column: nat)
    requires rows >= 1 && cols >= 1 && line < rows && column < cols
    ensures var c := Grid(r, rows, cols).value[line][column];
      c.length == r.length / rows as real &&
      c.topLeft.y == r.topLeft.y + line as real * (r.length / rows as real)
  {
    GridCell(r, rows, cols, line, column);
    CutValues(r, rows, line, true);
    CutValues(r, rows, line + 1, true);
    StepDifference(r.topLeft.y, r.length / rows as real, line);
  }

  /** The cells of column `column` are `width / cols` wide and start at
      `top_left.x + column * width / cols`. */
  lemma CellHorizontal(r: Rectangle, rows: int, cols: int, line: nat, column: nat)
    requires rows >= 1 && cols >= 1 && line < rows && column < cols
    ensures var c := Grid(r, rows, cols).value[line][column];
      c.width == r.width / cols as real &&
      c.topLeft.x == r.topLeft.x + column as real * (r.width / cols as real)
  {
    GridCell(r, rows, cols, line, column);
    CutValues(r, cols, column, false);
    CutValues(r, cols, column + 1, false);
    StepDifference(r.topLeft.x, r.width / cols as real, column);
  }

  /** Each cell is `length / rows` long, `width / cols` wide, and placed at
      `top_left + (column * width / cols, line * length / rows)`. */
  lemma CellGeometry(r: Rectangle, rows: int, cols: int, line: nat, column: nat)
    requires rows >= 1 && cols >= 1 && line < rows && column < cols
    ensures var c := Grid(r, rows, cols).value[line][column];
      c.length == r.length / rows as real && c.width == r.width / cols as real &&
      c.topLeft == Vertice(r.topLeft.x + column as real * (r.width / cols as real),
                           r.topLeft.y + line as real * (r.length / rows as real))
  {
    CellVertical(r, rows, cols, line, column);
    CellHorizontal(r, rows, cols, line, column);
  }

  /** `n` steps of `total / n` make `total`. */
  lemma LastStep(n: int, total: real)
    requires n >= 1
    ensures (n - 1) as real * (total / n as real) + total / n as real == total
  {
    var s := total / n as real;
    assert n as real * s == total;
    assert (n - 1) as real * s + s == n as real * s;
  }

  lemma NextStep(i: nat, s: real)
    ensures i as real * s + s == (i + 1) as real * s
  {
  }

  /** Cell `[0][0]` starts at vertex 0 of the rectangle and the far corner of
      the last cell is its vertex 2. */
  lemma GridCorners(r: Rectangle, rows: int, cols: int)
    requires rows >= 1 && cols >= 1
    ensures var g := Grid(r, rows, cols).value;
      RectVertices(g[0][0])[0] == RectVertices(r)[0] &&
      RectVertices(g[rows - 1][cols - 1])[2] == RectVertices(r)[2]
  {
    CellGeometry(r, rows, cols, 0, 0);
    CellGeometry(r, rows, cols, rows - 1, cols - 1);
    LastStep(rows, r.length);
    LastStep(cols, r.width);
  }

  /** Neighbouring cells of a line share their cut line. */
  lemma GridColumnNeighbours(r: Rectangle, rows: int, cols: int, line: nat, column: nat)
    requires rows >= 1 && cols >= 1 && line < rows && column + 1 < cols
    ensures var g := Grid(r, rows, cols).value;
      RectVertices(g[line][column])[1] == RectVertices(g[line][column + 1])[0]
  {
    CellGeometry(r, rows, cols, line, column);
    CellGeometry(r, rows, cols, line, column + 1);
    NextStep(column, r.width / cols as real);
  }

  /** Neighbouring cells of a column share their cut line. */
  lemma GridLineNeighbours(r: Rectangle, rows: int, cols: int, line: nat, column: nat)
    requires rows >= 1 && cols >= 1 && line + 1 < rows && column < cols
    ensures var g := Grid(r, rows, cols).value;
      RectVertices(g[line][column])[3] == RectVertices(g[line + 1][column])[0]
  {
    CellGeometry(r, rows, cols, line, column);
    CellGeometry(r, rows, cols, line + 1, column);
    NextStep(line, r.length / rows as real);
  }

  /** The grid tiles the rectangle: cell `[0][0]` starts at vertex 0, the
      far corner of the last cell is vertex 2, and neighbouring cells share
      their cut lines. */
  lemma GridTiles(r: Rectangle, rows: int, cols: int, line: nat, column: nat)
    requires rows >= 1 && cols >= 1 && line < rows && column < cols
    ensures var g := Grid(r, rows, cols).value;
      RectVertices(g[0][0])[0] == RectVertices(r)[0] &&
      RectVertices(g[rows - 1][cols - 1])[2] == RectVertices(r)[2]
    ensures var g := Grid(r, rows, cols).value;
      column + 1 < cols ==> RectVertices(g[line][column])[1] == RectVertices(g[line][column + 1])[0]
    ensures var g := Grid(r, rows, cols).value;
      line + 1 < rows ==> RectVertices(g[line][column])[3] == RectVertices(g[line + 1][column])[0]
  {
    GridCorners(r, rows, cols);
    if column + 1 < cols {
      GridColumnNeighbours(r, rows, cols, line, column);
    }
    if line + 1 < rows {
      GridLineNeighbours(r, rows, cols, line, column);
    }
  }

  /** The summed area of a list of cells. */
  function RowArea(row: seq<Rectangle>): real
  {
    if row == [] then 0.0 else RowArea(row[..|row| - 1]) + row[|row| - 1].length * row[|row| - 1].width
  }

  function GridArea(g: seq<seq<Rectangle>>): real
  {
    if g == [] then 0.0 else GridArea(g[..|g| - 1]) + RowArea(g[|g| - 1])
  }

  lemma {:induction false} RowAreaUniform(row: seq<Rectangle>, cell: real)
    requires forall j :: 0 <= j < |row| ==> row[j].length * row[j].width == cell
    ensures RowArea(row) == |row| as real * cell
  {
    if row != [] {
      RowAreaUniform(row[..|row| - 1], cell);
    }
  }

  lemma {:induction false} GridAreaUniform(g: seq<seq<Rectangle>>, rowArea: real)
    requires forall line :: 0 <= line < |g| ==> RowArea(g[line]) == rowArea
    ensures GridArea(g) == |g| as real * rowArea
  {
    if g != [] {
      GridAreaUniform(g[..|g| - 1], rowArea);
    }
  }

  /** Every line of `g` has `cols` cells, each `a` long and `b` wide. */
  ghost predicate UniformCells(g: seq<seq<Rectangle>>, cols: nat, a: real, b: real)
  {
    forall line :: 0 <= line < |g| ==>
      |g[line]| == cols &&
      forall column :: 0 <= column < cols ==> g[line][column].length == a && g[line][column].width == b
  }

  lemma GridIsUniform(r: Rectangle, rows: int, cols: int)
    requires rows >= 1 && cols >= 1
    ensures Grid(r, rows, cols).Ok? && |Grid(r, rows, cols).value| == rows
    ensures UniformCells(Grid(r, rows, cols).value, cols, r.length / rows as real, r.width / cols as real)
  {
    GridShape(r, rows, cols);
    var g: seq<seq<Rectangle>> := Grid(r, rows, cols).value;
    forall line, column | 0 <= line < rows && 0 <= column < cols
      ensures g[line][column].length == r.length / rows as real
      ensures g[line][column].width == r.width / cols as real
    {
      CellVertical(r, rows, cols, line, column);
      CellHorizontal(r, rows, cols, line, column);
    }
  }

  /** A line of `cols` cells, each `a` long and `b` wide, covers
      `cols * (a * b)`. */
  lemma UniformRowArea(row: seq<Rectangle>, cols: nat, a: real, b: real)
    requires |row| == cols
    requires forall column :: 0 <= column < cols ==> row[column].length == a && row[column].width == b
    ensures RowArea(row) == cols as real * (a * b)
  {
    var cell := a * b;
    forall j | 0 <= j < |row| ensures row[j].length * row[j].width == cell {
      assert row[j].length == a && row[j].width == b;
    }
    RowAreaUniform(row, cell);
  }

  /** A grid of uniform lines covers `|g|` times the area of a line. */
  lemma UniformArea(g: seq<seq<Rectangle>>, cols: nat, a: real, b: real, rowArea: real)
    requires UniformCells(g, cols, a, b) && rowArea == cols as real * (a * b)
    ensures GridArea(g) == |g| as real * rowArea
  {
    forall line | 0 <= line < |g| ensures RowArea(g[line]) == rowArea {
      UniformRowArea(g[line], cols, a, b);
    }
    GridAreaUniform(g, rowArea);
  }

  lemma CellsMakeWhole(length: real, width: real, rows: int, cols: int)
    requires rows >= 1 && cols >= 1
    ensures rows as real * (cols as real * ((length / rows as real) * (width / cols as real)))
         == length * width
  {
    var m, n := rows as real, cols as real;
    assert m * (length / m) == length;
    assert n * (width / n) == width;
    calc {
      m * (n * ((length / m) * (width / n)));
      (m * (length / m)) * (n * (width / n));
    }
  }

  /** The cell areas add up to the area of the divided rectangle. */
  lemma GridAreaIsWhole(r: Rectangle, rows: int, cols: int)
    requires rows >= 1 && cols >= 1
    ensures Grid(r, rows, cols).Ok? && GridArea(Grid(r, rows, cols).value) == r.length * r.width
  {
    GridIsUniform(r, rows, cols);
    var a, b := r.length / rows as real, r.width / cols as real;
    UniformArea(Grid(r, rows, cols).value, cols, a, b, cols as real * (a * b));
    CellsMakeWhole(r.length, r.width, rows, cols);
  }

  /** The examples: a 10 by 10 square cut by `(2, 2)` gives 2 lines of 2
      cells, each 5 by 5; `2`, `(2,)` and `(2.5, 2.5)` are refused. */
  lemma DivideExamples(r: Rectangle)
    requires r.length == 10.0 && r.width == 10.0
    ensures var g := DivideSpec(r, TupleV([IntV(2), IntV(2)]));
      g.Ok? && |g.value| == 2 && |g.value[0]| == 2 && |g.value[1]| == 2 &&
      forall line, column :: 0 <= line < 2 && 0 <= column < 2 ==>
        g.value[line][column].length == 5.0 && g.value[line][column].width == 5.0
    ensures DivideSpec(r, IntV(2)) == Err(TypeError)
    ensures DivideSpec(r, TupleV([IntV(2)])) == Err(TypeError)
    ensures DivideSpec(r, TupleV([FloatV(2.5), FloatV(2.5)])) == Err(TypeError)
  {
    var other := TupleV([IntV(2), IntV(2)]);
    assert other.items[0].i == 2 && other.items[1].i == 2;
    GridShape(r, 2, 2);
    forall line: nat, column: nat | line < 2 && column < 2
      ensures Grid(r, 2, 2).value[line][column].length == 5.0
      ensures Grid(r, 2, 2).value[line][column].width == 5.0
    {
      CellGeometry(r, 2, 2, line, column);
    }
  }

  /** `add_vertice` and `simplify`: `raise NotImplemented(...)` calls a
      non-callable, so both always fail with a TypeError and the rectangle
      keeps its vertices. */
  function AddVertice(r: Rectangle, v: Vertice, simplify: bool): (res: (Rectangle, Outcome))
    ensures res.0 == r && res.1 == Fail(TypeError)
  {
    (r, Fail(TypeError))
  }

  function Simplify(r: Rectangle): (res: (Rectangle, Outcome))
    ensures res.0 == r && res.1 == Fail(TypeError)
  {
    (r, Fail(TypeError))
  }

  function MinReal(a: real, b: real): real { if a <= b then a else b }

  function AbsReal(a: real): real { if a >= 0.0 then a else -a }

  /** `Rectangle.random(space)`: two points drawn in the space, spanning the
      rectangle from their least to their greatest coordinates. A space that
      is not a Rectangle is a TypeError. */
  function RandomRectangleSpec(space: Value, rnd: RandInt, k: nat): (res: (Result<Rectangle>, nat))
  {
    if !space.RectV? then (Err(TypeError), k)
    else
      match RandomVertice(RectVertices(space), rnd, k)
      case Err(e) => (Err(e), k)
      case Ok(first) =>
        // The second draw uses the same ranges, so it cannot fail.
        var second := RandomVertice(RectVertices(space), rnd, first.1).value;
        var p, q := first.0, second.0;
        (Ok(RectV(Vertice(MinReal(p.x, q.x), MinReal(p.y, q.y)), AbsReal(p.y - q.y), AbsReal(p.x - q.x))),
         second.1)
  }

  /** The body of `Rectangle.random`: the two conditional swaps. */
  method RandomRectangle(space: Value, rnd: RandInt, k: nat) returns (r: Result<Rectangle>, next: nat)
    ensures (r, next) == RandomRectangleSpec(space, rnd, k)
  {
    if !space.RectV? {
      return Err(TypeError), k;
    }
    var first := RandomVertice(RectVertices(space), rnd, k);
    if first.Err? {
      return Err(first.error), k;
    }
    var second := RandomVertice(RectVertices(space), rnd, first.value.1).value;
    var vertice1, vertice2 := first.value.0, second.0;
    if vertice1.x > vertice2.x {
      vertice1, vertice2 := Vertice(vertice2.x, vertice1.y), Vertice(vertice1.x, vertice2.y);
    }
    if vertice1.y > vertice2.y {
      vertice1, vertice2 := Vertice(vertice1.x, vertice2.y), Vertice(vertice2.x, vertice1.y);
    }
    var dimensions := Sub(vertice2, vertice1);
    return Ok(RectV(vertice1, dimensions.y, dimensions.x)), second.1;
  }

  /** A random rectangle has no negative dimension and, with a `randint`
      that honours its bounds, its four vertices lie in the space's ranges. */
  lemma RandomRectangleInSpace(space: Value, rnd: RandInt, k: nat)
    requires RandomRectangleSpec(space, rnd, k).0.Ok?
    ensures var r := RandomRectangleSpec(space, rnd, k).0.value;
      r.length >= 0.0 && r.width >= 0.0
    ensures ValidRandom(rnd) ==>
      var r := RandomRectangleSpec(space, rnd, k).0.value;
      var s := RectVertices(space);
      forall c :: c in RectVertices(r) ==>
        Trunc(s[0].x) as real <= c.x <= Trunc(s[2].x) as real &&
        Trunc(s[0].y) as real <= c.y <= Trunc(s[2].y) as real
  {
  }

  /** Both draws can coincide, so a zero dimension is possible. */
  lemma RandomRectangleCanBeFlat(space: Value)
    requires space.RectV? && space.topLeft == Origin && space.length == 720.0 && space.width == 1280.0
    ensures var r := RandomRectangleSpec(space, (k: nat, lo: int, hi: int) => lo, 0).0;
      r.Ok? && r.value.length == 0.0 && r.value.width == 0.0
  {
    var s := RectVertices(space);
    var rnd := (k: nat, lo: int, hi: int) => lo;
    assert s[0] == Origin && s[2] == Vertice(1280.0, 720.0);
    assert Trunc(0.0) == 0 && Trunc(1280.0) == 1280 && Trunc(720.0) == 720;
    var p := RandomVertice(s, rnd, 0);
    assert p == Ok((Origin, 2));
    assert RandomVertice(s, rnd, 2) == Ok((Origin, 4));
  }
}
