/** How many polygons `Collection.random` (geometry/collection.py) draws, and
    of which kind: the count is a function of the requested count and of the
    number of cells, which the generation only ever exceeds. */
module CollectionCounts {
  import opened Errors
  import opened Utils
  import opened Vertices
  import opened Values
  import opened Rectangles
  import opened Collections
  import opened CollectionOptions
  import opened CollectionRandom

  /** The number of polygons `generate_polygons` draws for `count` when
      every division has `d` cells. */
  function Produced(count: nat, d: nat): nat
    requires d >= 1
    decreases count, 1, 0
  {
    if count <= 1 then count
    else
      ShareBounds(count - 1, d);
      1 + CellsProduced(d, count - 1, PyMod(count - 1, d) + PyDiv(count - 1, d), count, d)
  }

  /** The number drawn by the loop over `cells` cells, `share` per cell,
      with `remaining` still to draw. */
  function CellsProduced(cells: nat, remaining: int, share: nat, parent: nat, d: nat): nat
    requires d >= 1 && share < parent
    decreases parent, 0, cells
  {
    if cells == 0 then 0
    else if remaining - share <= 0 then Produced(share, d)
    else Produced(share, d) + CellsProduced(cells - 1, remaining - share, share, parent, d)
  }

  /** The cells of `grid` from cell `(line, column)` on. */
  function CellsLeft(grid: seq<seq<Rectangle>>, line: nat, column: nat): nat
    decreases |grid| - line
  {
    if line >= |grid| then 0
    else (if column <= |grid[line]| then |grid[line]| - column else 0) + CellsLeft(grid, line + 1, 0)
  }

  lemma {:induction false} CellsLeftUniform(grid: seq<seq<Rectangle>>, cols: nat, line: nat)
    requires line <= |grid|
    requires forall l :: 0 <= l < |grid| ==> |grid[l]| == cols
    ensures CellsLeft(grid, line, 0) == (|grid| - line) * cols
    decreases |grid| - line
  {
    if line < |grid| {
      CellsLeftUniform(grid, cols, line + 1);
      assert (|grid| - line) * cols == (|grid| - (line + 1)) * cols + cols;
    }
  }

  lemma ProductAtLeastOne(a: int, b: int)
    requires a >= 1 && b >= 1
    ensures a * b >= 1
  {
    assert a * b >= b by {
      assert a * b == (a - 1) * b + b;
      assert (a - 1) * b >= 0;
    }
  }

  /** Divisions of `(rows, cols)`, both at least 1. */
  predicate Divisions(req: Request, rows: int, cols: int)
  {
    req.divisions == TupleV([IntV(rows), IntV(cols)]) && rows >= 1 && cols >= 1
  }

  /** A successful generation draws `Produced(count, rows * cols)` polygons. */
  lemma {:induction false} GenSize(count: nat, req: Request, space: Value, env: Env, k: nat, rows: int, cols: int)
    requires Divisions(req, rows, cols)
    ensures rows * cols >= 1
    ensures GenSpec(count, req, space, env, k).0.Ok? ==>
      |GenSpec(count, req, space, env, k).0.value.polygons| == Produced(count, rows * cols)
    decreases count, 2, 0, 0, 0, 0
  {
    ProductAtLeastOne(rows, cols);
    if count >= 2 {
      var (first, k1) := GeneratePolygonSpec(req, space, env, k);
      if first.Ok? {
        SubdivideSize(count, first.value, req, env, k1, rows, cols);
      }
    }
  }

  lemma {:induction false} SubdivideSize(count: nat, first: Shape, req: Request, env: Env, k: nat, rows: int, cols: int)
    requires count >= 2 && Divisions(req, rows, cols)
    ensures rows * cols >= 1
    ensures SubdivideSpec(count, first, req, env, k).0.Ok? ==>
      |SubdivideSpec(count, first, req, env, k).0.value.polygons| == Produced(count, rows * cols)
    decreases count, 1, 0, 0, 0, 0
  {
    ProductAtLeastOne(rows, cols);
    var d := rows * cols;
    var lir := Lir(ShapeVertices(first), env.lir);
    GridShape(lir, rows, cols);
    var g := DivideSpec(lir, req.divisions).value;
    var remaining := count - 1;
    ShareBounds(remaining, d);
    var share := PyMod(remaining, d) + PyDiv(remaining, d);
    assert forall l :: 0 <= l < |g| ==> |g[l]| == cols;
    CellsLeftUniform(g, cols, 0);
    assert CellsLeft(g, 0, 0) == d;
    ProducedStep(count, d);
    CellsSize(g, 0, 0, remaining, share, count, Collection([first]), req, env, k, rows, cols);
  }

  lemma {:induction false} CellsSize(grid: seq<seq<Rectangle>>, line: nat, column: nat, remaining: int, share: nat,
                                     parent: nat, acc: Collection, req: Request, env: Env, k: nat, rows: int, cols: int)
    requires line <= |grid| && (line < |grid| ==> column <= |grid[line]|)
    requires share < parent && Divisions(req, rows, cols) && rows * cols >= 1
    ensures CellsSpec(grid, line, column, remaining, share, parent, acc, req, env, k).0.Ok? ==>
      |CellsSpec(grid, line, column, remaining, share, parent, acc, req, env, k).0.value.polygons|
      == |acc.polygons| + CellsProduced(CellsLeft(grid, line, column), remaining, share, parent, rows * cols)
    decreases parent, 0, |grid| - line, if line < |grid| then |grid[line]| - column else 0, 2, 0
  {
    if line < |grid| {
      if column == |grid[line]| {
        CellsSizeLineEnd(grid, line, remaining, share, parent, acc, req, env, k, rows, cols);
      } else {
        CellsSizeAtCell(grid, line, column, remaining, share, parent, acc, req, env, k, rows, cols);
      }
    }
  }

  lemma {:induction false} CellsSizeAtCell(grid: seq<seq<Rectangle>>, line: nat, column: nat, remaining: int, share: nat,
      parent: nat, acc: Collection, req: Request, env: Env, k: nat, rows: int, cols: int)
    requires line < |grid| && column < |grid[line]|
    requires share < parent && Divisions(req, rows, cols) && rows * cols >= 1
    ensures CellsSpec(grid, line, column, remaining, share, parent, acc, req, env, k).0.Ok? ==>
      |CellsSpec(grid, line, column, remaining, share, parent, acc, req, env, k).0.value.polygons|
      == |acc.polygons| + CellsProduced(CellsLeft(grid, line, column), remaining, share, parent, rows * cols)
    decreases parent, 0, |grid| - line, |grid[line]| - column, 1, 0
  {
    if remaining - share <= 0 {
      CellsSizeLast(grid, line, column, remaining, share, parent, acc, req, env, k, rows, cols);
    } else {
      CellsSizeMore(grid, line, column, remaining, share, parent, acc, req, env, k, rows, cols);
    }
  }

  /** At the end of a line the loop goes on at the next line. */
  lemma {:induction false} CellsSizeLineEnd(grid: seq<seq<Rectangle>>, line: nat, remaining: int, share: nat,
      parent: nat, acc: Collection, req: Request, env: Env, k: nat, rows: int, cols: int)
    requires line < |grid|
    requires share < parent && Divisions(req, rows, cols) && rows * cols >= 1
    ensures CellsSpec(grid, line, |grid[line]|, remaining, share, parent, acc, req, env, k).0.Ok? ==>
      |CellsSpec(grid, line, |grid[line]|, remaining, share, parent, acc, req, env, k).0.value.polygons|
      == |acc.polygons| + CellsProduced(CellsLeft(grid, line, |grid[line]|), remaining, share, parent, rows * cols)
    decreases parent, 0, |grid| - line, 0, 1, 0
  {
    CellsAtLineEnd(grid, line, remaining, share, parent, acc, req, env, k);
    assert CellsLeft(grid, line, |grid[line]|) == CellsLeft(grid, line + 1, 0);
    CellsSize(grid, line + 1, 0, remaining, share, parent, acc, req, env, k, rows, cols);
  }

  /** The cell that uses up the count ends the loop with its share. */
  lemma CellsSizeLast(grid: seq<seq<Rectangle>>, line: nat, column: nat, remaining: int, share: nat,
      parent: nat, acc: Collection, req: Request, env: Env, k: nat, rows: int, cols: int)
    requires line < |grid| && column < |grid[line]|
    requires share < parent && Divisions(req, rows, cols) && rows * cols >= 1
    requires remaining - share <= 0
    ensures CellsSpec(grid, line, column, remaining, share, parent, acc, req, env, k).0.Ok? ==>
      |CellsSpec(grid, line, column, remaining, share, parent, acc, req, env, k).0.value.polygons|
      == |acc.polygons| + CellsProduced(CellsLeft(grid, line, column), remaining, share, parent, rows * cols)
    decreases parent, 0, |grid| - line, |grid[line]| - column, 0, 0
  {
    var sub := GenSpec(share, req, grid[line][column], env, k);
    if sub.0.Ok? {
      var acc' := Collection(acc.polygons + sub.0.value.polygons);
      CellUsesUp(grid, line, column, remaining, share, parent, acc, req, env, k, acc', sub.1);
      GenSize(share, req, grid[line][column], env, k, rows, cols);
      assert |acc'.polygons| == |acc.polygons| + Produced(share, rows * cols);
      CellsProducedStep(CellsLeft(grid, line, column), remaining, share, parent, rows * cols);
    } else {
      CellFails(grid, line, column, remaining, share, parent, acc, req, env, k);
    }
  }

  /** Otherwise the loop goes on at the next cell. */
  lemma {:induction false} CellsSizeMore(grid: seq<seq<Rectangle>>, line: nat, column: nat, remaining: int, share: nat,
      parent: nat, acc: Collection, req: Request, env: Env, k: nat, rows: int, cols: int)
    requires line < |grid| && column < |grid[line]|
    requires share < parent && Divisions(req, rows, cols) && rows * cols >= 1
    requires remaining - share > 0
    ensures CellsSpec(grid, line, column, remaining, share, parent, acc, req, env, k).0.Ok? ==>
      |CellsSpec(grid, line, column, remaining, share, parent, acc, req, env, k).0.value.polygons|
      == |acc.polygons| + CellsProduced(CellsLeft(grid, line, column), remaining, share, parent, rows * cols)
    decreases parent, 0, |grid| - line, |grid[line]| - column, 0, 2
  {
    if GenSpec(share, req, grid[line][column], env, k).0.Ok? {
      CellsSizeGoesOn(grid, line, column, remaining, share, parent, acc, req, env, k, rows, cols);
    } else {
      CellFails(grid, line, column, remaining, share, parent, acc, req, env, k);
    }
  }

  /** A cell generated without error adds its share and hands the rest of
      the count to the next cell. */
  lemma {:induction false} CellsSizeGoesOn(grid: seq<seq<Rectangle>>, line: nat, column: nat, remaining: int, share: nat,
      parent: nat, acc: Collection, req: Request, env: Env, k: nat, rows: int, cols: int)
    requires line < |grid| && column < |grid[line]|
    requires share < parent && Divisions(req, rows, cols) && rows * cols >= 1
    requires remaining - share > 0
    requires GenSpec(share, req, grid[line][column], env, k).0.Ok?
    ensures CellsSpec(grid, line, column, remaining, share, parent, acc, req, env, k).0.Ok? ==>
      |CellsSpec(grid, line, column, remaining, share, parent, acc, req, env, k).0.value.polygons|
      == |acc.polygons| + CellsProduced(CellsLeft(grid, line, column), remaining, share, parent, rows * cols)
    decreases parent, 0, |grid| - line, |grid[line]| - column, 0, 1
  {
    var sub := GenSpec(share, req, grid[line][column], env, k);
    var acc' := Collection(acc.polygons + sub.0.value.polygons);
    CellLeavesMore(grid, line, column, remaining, share, parent, acc, req, env, k, remaining - share, acc', sub.1);
    GenSize(share, req, grid[line][column], env, k, rows, cols);
    NextCellCount(grid, line, column, remaining, share, parent, acc, req, env, k, rows, cols, acc', sub.1);
  }

  /** The count of the cells from this one, given the collection and draw
      counter this cell hands to the next. */
  lemma {:induction false} NextCellCount(grid: seq<seq<Rectangle>>, line: nat, column: nat, remaining: int, share: nat,
      parent: nat, acc: Collection, req: Request, env: Env, k: nat, rows: int, cols: int,
      acc': Collection, next: nat)
    requires line < |grid| && column < |grid[line]|
    requires share < parent && Divisions(req, rows, cols) && rows * cols >= 1
    requires remaining - share > 0
    requires CellsSpec(grid, line, column + 1, remaining - share, share, parent, acc', req, env, next)
          == CellsSpec(grid, line, column, remaining, share, parent, acc, req, env, k)
    requires |acc'.polygons| == |acc.polygons| + Produced(share, rows * cols)
    ensures CellsSpec(grid, line, column, remaining, share, parent, acc, req, env, k).0.Ok? ==>
      |CellsSpec(grid, line, column, remaining, share, parent, acc, req, env, k).0.value.polygons|
      == |acc.polygons| + CellsProduced(CellsLeft(grid, line, column), remaining, share, parent, rows * cols)
    decreases parent, 0, |grid| - line, |grid[line]| - column, 0, 0
  {
    CellsSize(grid, line, column + 1, remaining - share, share, parent, acc', req, env, next, rows, cols);
    var rest := CellsSpec(grid, line, column + 1, remaining - share, share, parent, acc', req, env, next);
    if rest.0.Ok? {
      MoreCount(CellsLeft(grid, line, column), CellsLeft(grid, line, column + 1), remaining, share, parent,
                rows * cols, |acc.polygons|, |acc'.polygons|, |rest.0.value.polygons|);
    }
  }

  /** The count of a cell that leaves more, added up with the count of the
      cells after it. */
  lemma MoreCount(cells: nat, later: nat, remaining: int, share: nat, parent: nat, d: nat,
                  before: nat, middle: nat, after: nat)
    requires d >= 1 && share < parent && cells >= 1 && later == cells - 1
    requires remaining - share > 0
    requires middle == before + Produced(share, d)
    requires after == middle + CellsProduced(later, remaining - share, share, parent, d)
    ensures after == before + CellsProduced(cells, remaining, share, parent, d)
  {
    CellsProducedStep(cells, remaining, share, parent, d);
  }

  /** One cell of the count model. */
  lemma CellsProducedStep(cells: nat, remaining: int, share: nat, parent: nat, d: nat)
    requires d >= 1 && share < parent && cells >= 1
    ensures CellsProduced(cells, remaining, share, parent, d)
         == Produced(share, d) + if remaining - share <= 0 then 0
                                 else CellsProduced(cells - 1, remaining - share, share, parent, d)
  {
  }

  /** The loop visits enough cells: `generate_polygons` never draws fewer
      polygons than asked for. */
  lemma {:induction false} ProducedAtLeast(count: nat, d: nat)
    requires d >= 1
    ensures Produced(count, d) >= count
    decreases count, 1, 0
  {
    if count >= 2 {
      ShareBounds(count - 1, d);
      CellsProducedAtLeast(d, count - 1, PyMod(count - 1, d) + PyDiv(count - 1, d), count, d);
    }
  }

  lemma {:induction false} CellsProducedAtLeast(cells: nat, remaining: int, share: nat, parent: nat, d: nat)
    requires d >= 1 && 1 <= share < parent && cells * share >= remaining
    ensures CellsProduced(cells, remaining, share, parent, d) >= remaining
    decreases parent, 0, cells
  {
    if cells > 0 {
      ProducedAtLeast(share, d);
      if remaining - share > 0 {
        assert (cells - 1) * share == cells * share - share;
        CellsProducedAtLeast(cells - 1, remaining - share, share, parent, d);
      }
    }
  }

  /** With a single cell per division the count is met exactly. */
  lemma {:induction false} ProducedOneCell(count: nat)
    ensures Produced(count, 1) == count
  {
    if count >= 2 {
      ProducedOneCell(count - 1);
      assert PyMod(count - 1, 1) + PyDiv(count - 1, 1) == count - 1;
    }
  }

  /** A successful generation draws at least the requested count. */
  lemma GenAtLeast(count: nat, req: Request, space: Value, env: Env, k: nat, rows: int, cols: int)
    requires Divisions(req, rows, cols)
    requires GenSpec(count, req, space, env, k).0.Ok?
    ensures |GenSpec(count, req, space, env, k).0.value.polygons| >= count
  {
    GenSize(count, req, space, env, k, rows, cols);
    ProducedAtLeast(count, rows * cols);
  }

  /** With `(1, 1)` divisions a successful generation draws exactly the
      requested count. */
  lemma GenOneCellExact(count: nat, req: Request, space: Value, env: Env, k: nat)
    requires Divisions(req, 1, 1)
    requires GenSpec(count, req, space, env, k).0.Ok?
    ensures |GenSpec(count, req, space, env, k).0.value.polygons| == count
  {
    GenSize(count, req, space, env, k, 1, 1);
    ProducedOneCell(count);
  }

  /** One polygon and more of the count model, unfolded once. */
  lemma ProducedStep(count: nat, d: nat)
    requires d >= 1 && count >= 2
    ensures 1 <= PyMod(count - 1, d) + PyDiv(count - 1, d) < count
    ensures Produced(count, d)
         == 1 + CellsProduced(d, count - 1, PyMod(count - 1, d) + PyDiv(count - 1, d), count, d)
  {
    ShareBounds(count - 1, d);
  }

  /** The counts of the default options: 2 and 3 polygons over `(2, 2)`
      divisions are drawn exactly. */
  lemma ProducedTwo()
    ensures Produced(2, 4) == 2
  {
    ProducedStep(2, 4);
    assert PyMod(1, 4) + PyDiv(1, 4) == 1;
    CellsProducedStep(4, 1, 1, 2, 4);
  }

  lemma ProducedThree()
    ensures Produced(3, 4) == 3
  {
    ProducedTwo();
    ProducedStep(3, 4);
    assert PyMod(2, 4) + PyDiv(2, 4) == 2;
    CellsProducedStep(4, 2, 2, 3, 4);
  }

  /** 6 polygons over `(2, 2)` divisions: each of the 4 cells is asked for
      `5 % 4 + 5 // 4 = 2`, and the third cell already covers the 5 still
      missing, so 1 + 2 + 2 + 2 = 7 are drawn. */
  lemma ProducedSix()
    ensures Produced(6, 4) == 7
  {
    ProducedTwo();
    ProducedStep(6, 4);
    assert PyMod(5, 4) + PyDiv(5, 4) == 2;
    CellsProducedStep(4, 5, 2, 6, 4);
    CellsProducedStep(3, 3, 2, 6, 4);
    CellsProducedStep(2, 1, 2, 6, 4);
  }

  /** Asking for 6 polygons over `(2, 2)` divisions gives 7 whenever the
      generation succeeds. */
  lemma SixOverTwoByTwoGivesSeven(req: Request, space: Value, env: Env, k: nat)
    requires Divisions(req, 2, 2)
    requires GenSpec(6, req, space, env, k).0.Ok?
    ensures |GenSpec(6, req, space, env, k).0.value.polygons| == 7
  {
    GenSize(6, req, space, env, k, 2, 2);
    ProducedSix();
  }

  /** The number drawn when each cell is asked only for what is still
      missing, `min(share, remaining)`. */
  function CappedProduced(count: nat, d: nat): nat
    requires d >= 1
    decreases count, 1, 0
  {
    if count <= 1 then count
    else
      ShareBounds(count - 1, d);
      1 + CappedCellsProduced(d, count - 1, PyMod(count - 1, d) + PyDiv(count - 1, d), count, d)
  }

  function CappedCellsProduced(cells: nat, remaining: int, share: nat, parent: nat, d: nat): nat
    requires d >= 1 && share < parent
    decreases parent, 0, cells
  {
    if cells == 0 || remaining <= 0 then 0
    else
      var ask := if remaining < share then remaining else share;
      CappedProduced(ask, d) + CappedCellsProduced(cells - 1, remaining - ask, share, parent, d)
  }

  /** With the cap, exactly the requested count is drawn, for every number
      of cells. */
  lemma {:induction false} CappedProducedIsCount(count: nat, d: nat)
    requires d >= 1
    ensures CappedProduced(count, d) == count
    decreases count, 1, 0
  {
    if count >= 2 {
      ShareBounds(count - 1, d);
      CappedCellsExact(d, count - 1, PyMod(count - 1, d) + PyDiv(count - 1, d), count, d);
    }
  }

  lemma {:induction false} CappedCellsExact(cells: nat, remaining: int, share: nat, parent: nat, d: nat)
    requires d >= 1 && 1 <= share < parent && cells * share >= remaining && remaining < parent
    ensures CappedCellsProduced(cells, remaining, share, parent, d) == Utils.Max(remaining, 0)
    decreases parent, 0, cells
  {
    if cells > 0 && remaining > 0 {
      var ask := if remaining < share then remaining else share;
      CappedProducedIsCount(ask, d);
      assert (cells - 1) * share == cells * share - share;
      CappedCellsExact(cells - 1, remaining - ask, share, parent, d);
    }
  }

  /** Every polygon of a collection is a Rectangle exactly when `rect`. */
  predicate AllOfKind(c: Collection, rect: bool)
  {
    forall s :: s in c.polygons ==> s.RectangleShape? == rect
  }

  /** A successful generation draws only shapes of the requested kind:
      Rectangles for type 1 or 'rectangle', polygons otherwise. */
  lemma {:induction false} GenKinds(count: nat, req: Request, space: Value, env: Env, k: nat)
    ensures GenSpec(count, req, space, env, k).0.Ok? ==>
      AllOfKind(GenSpec(count, req, space, env, k).0.value, KindOf(req.ptype) == Some(Rect))
    decreases count, 2, 0, 0
  {
    if count >= 1 {
      var (first, k1) := GeneratePolygonSpec(req, space, env, k);
      if first.Ok? {
        GeneratedKind(req, space, env, k);
        if count >= 2 {
          SubdivideKinds(count, first.value, req, env, k1);
        }
      }
    }
  }

  lemma {:induction false} SubdivideKinds(count: nat, first: Shape, req: Request, env: Env, k: nat)
    requires count >= 2
    requires first.RectangleShape? == (KindOf(req.ptype) == Some(Rect))
    ensures SubdivideSpec(count, first, req, env, k).0.Ok? ==>
      AllOfKind(SubdivideSpec(count, first, req, env, k).0.value, KindOf(req.ptype) == Some(Rect))
    decreases count, 1, 0, 0
  {
    var lir := Lir(ShapeVertices(first), env.lir);
    var subspaces := DivideSpec(lir, req.divisions);
    if subspaces.Ok? {
      GridCells(lir, req.divisions);
      var d := req.divisions.items[0].i * req.divisions.items[1].i;
      if d != 0 {
        var remaining := count - 1;
        var share := PyMod(remaining, d) + PyDiv(remaining, d);
        if HasCell(subspaces.value) {
          ShareBounds(remaining, d);
        }
        CellsKinds(subspaces.value, 0, 0, remaining, share, count, Collection([first]), req, env, k);
      }
    }
  }

  lemma {:induction false} CellsKinds(grid: seq<seq<Rectangle>>, line: nat, column: nat, remaining: int, share: int,
                                      parent: nat, acc: Collection, req: Request, env: Env, k: nat)
    requires line <= |grid| && (line < |grid| ==> column <= |grid[line]|)
    requires HasCell(grid) ==> 0 <= share < parent
    requires AllOfKind(acc, KindOf(req.ptype) == Some(Rect))
    ensures CellsSpec(grid, line, column, remaining, share, parent, acc, req, env, k).0.Ok? ==>
      AllOfKind(CellsSpec(grid, line, column, remaining, share, parent, acc, req, env, k).0.value,
                KindOf(req.ptype) == Some(Rect))
    decreases parent, 0, |grid| - line, if line < |grid| then |grid[line]| - column else 0
  {
    if line < |grid| {
      if column == |grid[line]| {
        CellsKinds(grid, line + 1, 0, remaining, share, parent, acc, req, env, k);
      } else {
        assert HasCell(grid);
        GenKinds(share, req, grid[line][column], env, k);
        var (sub, next) := GenSpec(share, req, grid[line][column], env, k);
        if sub.Ok? {
          var acc' := Collection(acc.polygons + sub.value.polygons);
          assert AllOfKind(acc', KindOf(req.ptype) == Some(Rect));
          if remaining - share > 0 {
            CellsKinds(grid, line, column + 1, remaining - share, share, parent, acc', req, env, next);
          }
        }
      }
    }
  }

  /** The loop only appends: the collection it starts from stays in front. */
  lemma {:induction false} CellsKeepPrefix(grid: seq<seq<Rectangle>>, line: nat, column: nat, remaining: int, share: int,
                                           parent: nat, acc: Collection, req: Request, env: Env, k: nat)
    requires line <= |grid| && (line < |grid| ==> column <= |grid[line]|)
    requires HasCell(grid) ==> 0 <= share < parent
    ensures CellsSpec(grid, line, column, remaining, share, parent, acc, req, env, k).0.Ok? ==>
      acc.polygons <= CellsSpec(grid, line, column, remaining, share, parent, acc, req, env, k).0.value.polygons
    decreases |grid| - line, if line < |grid| then |grid[line]| - column else 0
  {
    if line < |grid| {
      if column == |grid[line]| {
        CellsKeepPrefix(grid, line + 1, 0, remaining, share, parent, acc, req, env, k);
      } else {
        assert HasCell(grid);
        var (sub, next) := GenSpec(share, req, grid[line][column], env, k);
        if sub.Ok? && remaining - share > 0 {
          var acc' := Collection(acc.polygons + sub.value.polygons);
          CellsKeepPrefix(grid, line, column + 1, remaining - share, share, parent, acc', req, env, next);
        }
      }
    }
  }

  /** The first polygon of a generated collection is the one drawn in the
      whole space. */
  lemma GenStartsWithFirst(count: nat, req: Request, space: Value, env: Env, k: nat)
    requires count >= 1 && GenSpec(count, req, space, env, k).0.Ok?
    ensures GeneratePolygonSpec(req, space, env, k).0.Ok?
    ensures var c := GenSpec(count, req, space, env, k).0.value;
      |c.polygons| >= 1 && c.polygons[0] == GeneratePolygonSpec(req, space, env, k).0.value
  {
    var (first, k1) := GeneratePolygonSpec(req, space, env, k);
    if count >= 2 {
      SubdivideStartsWithFirst(count, first.value, req, env, k1);
    }
  }

  /** The subdivision starts from the collection holding the first polygon
      and only appends to it. */
  lemma SubdivideStartsWithFirst(count: nat, first: Shape, req: Request, env: Env, k: nat)
    requires count >= 2 && SubdivideSpec(count, first, req, env, k).0.Ok?
    ensures var c := SubdivideSpec(count, first, req, env, k).0.value;
      |c.polygons| >= 1 && c.polygons[0] == first
  {
    var lir := Lir(ShapeVertices(first), env.lir);
    var subspaces := DivideSpec(lir, req.divisions);
    GridCells(lir, req.divisions);
    var d := req.divisions.items[0].i * req.divisions.items[1].i;
    var remaining := count - 1;
    var share := PyMod(remaining, d) + PyDiv(remaining, d);
    if HasCell(subspaces.value) {
      ShareBounds(remaining, d);
    }
    CellsKeepPrefix(subspaces.value, 0, 0, remaining, share, count, Collection([first]), req, env, k);
  }

  /** A count of 0 gives the empty collection without drawing; a count of 1
      gives the polygon drawn in the whole space, alone. */
  lemma GenSmallCounts(req: Request, space: Value, env: Env, k: nat)
    ensures GenSpec(0, req, space, env, k) == (Ok(Empty), k)
    ensures var first := GeneratePolygonSpec(req, space, env, k).0;
      GenSpec(1, req, space, env, k).0 == if first.Ok? then Ok(Collection([first.value])) else Err(first.error)
  {
  }

  /** Validation accepts divisions with a zero component. */
  lemma ZeroDivisionPasses(rows: int, cols: int)
    requires rows >= 0 && cols >= 0
    ensures CheckOptions(Some(map["space" := DictV(map["space" := NoneV,
      "divisions" := TupleV([IntV(rows), IntV(cols)])])])).Ok?
  {
    DivisionItemsPass([IntV(rows), IntV(cols)]);
  }

  /** Once the first polygon is drawn and more are wanted, a zero cell
      count makes the share divide by zero. */
  lemma ZeroShareFails(count: nat, req: Request, space: Value, env: Env, k: nat, rows: int, cols: int)
    requires count >= 2 && req.divisions == TupleV([IntV(rows), IntV(cols)])
    requires rows >= -1 && cols >= -1 && (rows == 0 || cols == 0)
    requires GeneratePolygonSpec(req, space, env, k).0.Ok?
    ensures GenSpec(count, req, space, env, k).0 == Err(ZeroDivisionError)
  {
    var (first, k1) := GeneratePolygonSpec(req, space, env, k);
    var lir := Lir(ShapeVertices(first.value), env.lir);
    GridShape(lir, rows, cols);
    assert DivideSpec(lir, req.divisions) == Grid(lir, rows, cols);
  }

  /** Validation lets a zero division through; once the first polygon is
      drawn and more are wanted, the share then divides by zero. */
  lemma ZeroDivisionRefused(count: nat, req: Request, space: Value, env: Env, k: nat, rows: int, cols: int)
    requires count >= 2 && req.divisions == TupleV([IntV(rows), IntV(cols)])
    requires rows >= -1 && cols >= -1 && (rows == 0 || cols == 0)
    requires GeneratePolygonSpec(req, space, env, k).0.Ok?
    ensures rows >= 0 && cols >= 0 ==>
      CheckOptions(Some(map["space" := DictV(map["space" := NoneV,
        "divisions" := TupleV([IntV(rows), IntV(cols)])])])).Ok?
    ensures GenSpec(count, req, space, env, k).0 == Err(ZeroDivisionError)
  {
    if rows >= 0 && cols >= 0 {
      ZeroDivisionPasses(rows, cols);
    }
    ZeroShareFails(count, req, space, env, k, rows, cols);
  }

  /** No options generate 3 polygons in the default space over `(2, 2)`
      divisions. */
  lemma DefaultGenerates(env: Env, k: nat)
    ensures RandomCollectionSpec(None, env, k)
         == GenSpec(3, Request(StrV("polygon"), Defaults["form"], TupleV([IntV(2), IntV(2)])), DefaultSpace, env, k)
  {
    DefaultsValid();
    DefaultEntries();
    CollectionFromChecked(None, env, k, Defaults, 3, StrV("polygon"), Defaults["form"], NoneV,
                          TupleV([IntV(2), IntV(2)]));
  }

  /** The entries of the default options. */
  lemma DefaultEntries()
    ensures "space" in Defaults && "count" in Defaults && "type" in Defaults && "form" in Defaults
    ensures Defaults["count"] == IntV(3) && Defaults["type"] == StrV("polygon")
    ensures GetKey(Defaults["space"], "space") == Ok(NoneV)
    ensures GetKey(Defaults["space"], "divisions") == Ok(TupleV([IntV(2), IntV(2)]))
  {
  }

  /** No options: whenever drawing succeeds, 3 plain polygons. */
  lemma DefaultCollection(env: Env, k: nat)
    requires RandomCollectionSpec(None, env, k).0.Ok?
    ensures var c := RandomCollectionSpec(None, env, k).0.value;
      Length(c) == 3 && AllOfKind(c, false)
  {
    DefaultLength(env, k);
    DefaultKinds(env, k);
  }

  lemma DefaultLength(env: Env, k: nat)
    requires RandomCollectionSpec(None, env, k).0.Ok?
    ensures Length(RandomCollectionSpec(None, env, k).0.value) == 3
  {
    var req := Request(StrV("polygon"), Defaults["form"], TupleV([IntV(2), IntV(2)]));
    DefaultGenerates(env, k);
    GenSize(3, req, DefaultSpace, env, k, 2, 2);
    ProducedThree();
  }

  lemma DefaultKinds(env: Env, k: nat)
    requires RandomCollectionSpec(None, env, k).0.Ok?
    ensures AllOfKind(RandomCollectionSpec(None, env, k).0.value, false)
  {
    var req := Request(StrV("polygon"), Defaults["form"], TupleV([IntV(2), IntV(2)]));
    DefaultGenerates(env, k);
    GenKinds(3, req, DefaultSpace, env, k);
  }

  /** The options of the custom test: 5 rectangles in a 1000 by 1000 square
      with `(1, 1)` divisions give exactly 5 Rectangles whenever drawing
      succeeds. */
  const CustomOptions: map<string, Value> := map[
    "type" := StrV("rectangle"),
    "count" := IntV(5),
    "form" := DictV(map["min_vertices_count" := IntV(4), "max_vertices_count" := IntV(4)]),
    "space" := DictV(map["space" := RectV(Origin, 1000.0, 1000.0), "divisions" := TupleV([IntV(1), IntV(1)])])
  ]

  lemma CustomGenerates(env: Env, k: nat)
    ensures RandomCollectionSpec(Some(CustomOptions), env, k)
         == GenSpec(5, Request(StrV("rectangle"), CustomOptions["form"], TupleV([IntV(1), IntV(1)])),
                    RectV(Origin, 1000.0, 1000.0), env, k)
  {
    CustomChecked();
    CustomEntries();
    CollectionFromChecked(Some(CustomOptions), env, k, CustomOptions, 5, StrV("rectangle"), CustomOptions["form"],
                          RectV(Origin, 1000.0, 1000.0), TupleV([IntV(1), IntV(1)]));
  }

  /** `Collection.random` once the options are checked and the space options
      read: the generation of `count` shapes in the space given (the default
      space for None), over the divisions given. */
  lemma CollectionFromChecked(user: Option<map<string, Value>>, env: Env, k: nat, o: map<string, Value>,
                              count: nat, ptype: Value, form: Value, given: Value, divisions: Value)
    requires CheckOptions(user) == Ok(o)
    requires "space" in o && "count" in o && "type" in o && "form" in o
    requires o["count"] == IntV(count) && o["type"] == ptype && o["form"] == form
    requires GetKey(o["space"], "space") == Ok(given)
    requires GetKey(o["space"], "divisions") == Ok(divisions)
    ensures RandomCollectionSpec(user, env, k)
         == GenSpec(count, Request(ptype, form, divisions), if given == NoneV then DefaultSpace else given, env, k)
  {
  }

  /** The entries of the custom options. */
  lemma CustomEntries()
    ensures "space" in CustomOptions && "count" in CustomOptions && "type" in CustomOptions && "form" in CustomOptions
    ensures CustomOptions["count"] == IntV(5) && CustomOptions["type"] == StrV("rectangle")
    ensures GetKey(CustomOptions["space"], "space") == Ok(RectV(Origin, 1000.0, 1000.0))
    ensures GetKey(CustomOptions["space"], "divisions") == Ok(TupleV([IntV(1), IntV(1)]))
  {
  }

  /** The custom options give every key, so they replace the defaults whole
      and are checked as they are. */
  lemma CustomChecked()
    ensures CheckOptions(Some(CustomOptions)) == Ok(CustomOptions)
  {
    CustomReplacesDefaults();
    CustomOptionsValid();
  }

  lemma CustomReplacesDefaults()
    ensures Defaults + CustomOptions == CustomOptions
  {
    assert (Defaults + CustomOptions).Keys == CustomOptions.Keys;
  }

  lemma CustomOptionsValid()
    ensures ValidateOptions(CustomOptions) == Pass
  {
    assert CheckVerticesCount(CustomOptions["form"], "min_vertices_count") == Pass;
    assert CheckVerticesCount(CustomOptions["form"], "max_vertices_count") == Pass;
    assert CheckSpaceEntry(CustomOptions["space"]) == Pass;
    assert CheckDivisionItems([IntV(1), IntV(1)]) == Pass;
    assert CheckDivisionsEntry(CustomOptions["space"]) == Pass;
  }

  lemma CustomCollection(env: Env, k: nat)
    requires RandomCollectionSpec(Some(CustomOptions), env, k).0.Ok?
    ensures var c := RandomCollectionSpec(Some(CustomOptions), env, k).0.value;
      Length(c) == 5 && AllOfKind(c, true)
  {
    CustomLength(env, k);
    CustomKinds(env, k);
  }

  lemma CustomLength(env: Env, k: nat)
    requires RandomCollectionSpec(Some(CustomOptions), env, k).0.Ok?
    ensures Length(RandomCollectionSpec(Some(CustomOptions), env, k).0.value) == 5
  {
    var req := Request(StrV("rectangle"), CustomOptions["form"], TupleV([IntV(1), IntV(1)]));
    CustomGenerates(env, k);
    GenOneCellExact(5, req, RectV(Origin, 1000.0, 1000.0), env, k);
  }

  lemma CustomKinds(env: Env, k: nat)
    requires RandomCollectionSpec(Some(CustomOptions), env, k).0.Ok?
    ensures AllOfKind(RandomCollectionSpec(Some(CustomOptions), env, k).0.value, true)
  {
    var req := Request(StrV("rectangle"), CustomOptions["form"], TupleV([IntV(1), IntV(1)]));
    CustomGenerates(env, k);
    GenKinds(5, req, RectV(Origin, 1000.0, 1000.0), env, k);
  }
}
