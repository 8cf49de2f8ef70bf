/**
 * A grid of characters built from the puzzle lines by the rows constructor of
 * aoclib/grid.hpp, and what reading it means in terms of the lines.
 */
module LinesGrid {
  import opened Wrappers
  import opened Vec
  import opened Grids

  /** Every line has the width of the first: what the row constructor of the grid accepts. */
  predicate Rect<T>(lines: seq<seq<T>>)
  {
    forall y :: 0 <= y < |lines| ==> |lines[y]| == |lines[0]|
  }

  /** The letter at p, or None off the puzzle. */
  function Cell<T>(lines: seq<seq<T>>, p: Vec2): Option<T>
  {
    if 0 <= p.y < |lines| && 0 <= p.x < |lines[p.y]| then Some(lines[p.y][p.x]) else None
  }

  /** The grid holds the lines: `try_get` answers what `Cell` answers. */
  ghost predicate Holds<T>(g: Grid<T>, lines: seq<seq<T>>)
    reads g
  {
    g.Valid() && forall x, y {:trigger g.TryGet(x, y)} :: g.TryGet(x, y) == Cell(lines, Vec2(x, y))
  }

  /** What `try_get` finds at p is the letter of the lines there. */
  lemma ReadCell<T>(grid: Grid<T>, lines: seq<seq<T>>, p: Vec2)
    requires Holds(grid, lines)
    ensures grid.TryGetAt(p) == Cell(lines, p)
  {
    assert grid.TryGet(p.x, p.y) == Cell(lines, Vec2(p.x, p.y));
  }

  /** A grid of the lines' size whose cells are their characters holds them. */
  lemma GridHoldsLines<T>(grid: Grid<T>, lines: seq<seq<T>>)
    requires grid.Valid() && Rect(lines) && grid.height == |lines|
    requires grid.width == (if lines == [] then 0 else |lines[0]|)
    requires forall x, y :: grid.PosOnGrid(x, y) ==> grid.TryGet(x, y) == Some(lines[y][x])
    ensures Holds(grid, lines)
  {
  }

  /** `Grid<char> grid{lines}`: invalid_argument for ragged lines, otherwise a new grid holding them. */
  method FromLines<T(==)>(lines: seq<seq<T>>) returns (r: Result<Grid<T>>)
    ensures r.Err? <==> !Rect(lines)
    ensures r.Err? ==> r.error == InvalidArgument
    ensures r.Ok? ==> fresh(r.value) && Holds(r.value, lines)
    ensures r.Ok? ==> r.value.height == |lines| && r.value.width == (if lines == [] then 0 else |lines[0]|)
  {
    r := Grid<T>.FromRows(lines);
    if r.Ok? {
      GridHoldsLines(r.value, lines);
    }
  }
}
