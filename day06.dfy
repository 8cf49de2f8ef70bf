/**
 * Day 6 (day-06/day-06.cpp): a guard walks the map from the single '^',
 * stepping forward and turning right in front of an obstacle '#', marking
 * every cell it stands on with 'X' until it leaves the map.  Part one counts
 * the 'X' cells.
 */
module Day06 {
  import opened Wrappers
  import opened Vec
  import opened Grids
  import opened LinesGrid

  // ---------------------------------------------------------------------------
  // The walk on the unchanged lines
  // ---------------------------------------------------------------------------

  /** One step in a direction, y growing downwards: `dir_to_vec2` with its default. */
  function Delta(dir: Direction): Vec2
  {
    DirToVec2(dir, false)
  }

  predicate Obstacle(lines: seq<string>, p: Vec2)
  {
    Cell(lines, p) == Some('#')
  }

  /** The cell ahead of the guard in direction dir holds an obstacle. */
  predicate Blocked(lines: seq<string>, pos: Vec2, dir: Direction)
  {
    Obstacle(lines, Add(pos, Delta(dir)))
  }

  /**
   * One move of the guard: the first heading, among the one it has and those
   * reached by one, two and three right turns, whose cell ahead is free,
   * together with that cell; None when all four are blocked.
   */
  function Step(lines: seq<string>, pos: Vec2, dir: Direction): Option<(Vec2, Direction)>
  {
    var d1 := TurnRight(dir);
    var d2 := TurnRight(d1);
    var d3 := TurnRight(d2);
    if !Blocked(lines, pos, dir) then Some((Add(pos, Delta(dir)), dir))
    else if !Blocked(lines, pos, d1) then Some((Add(pos, Delta(d1)), d1))
    else if !Blocked(lines, pos, d2) then Some((Add(pos, Delta(d2)), d2))
    else if !Blocked(lines, pos, d3) then Some((Add(pos, Delta(d3)), d3))
    else None
  }

  /**
   * What the inner loop computes: from `turns` turns taken, turn right while
   * the cell ahead is an obstacle, four turns in all at most; the heading
   * reached and the turns taken.
   */
  function Turn(lines: seq<string>, pos: Vec2, dir: Direction, turns: nat): (Direction, nat)
    requires turns <= 4
    decreases 4 - turns
  {
    if turns < 4 && Blocked(lines, pos, dir) then Turn(lines, pos, TurnRight(dir), turns + 1)
    else (dir, turns)
  }

  /** Adds the cells s to the visited cells of a finished walk. */
  function Plus(w: Option<Result<set<Vec2>>>, s: set<Vec2>): Option<Result<set<Vec2>>>
  {
    match w
    case Some(Ok(v)) => Some(Ok(v + s))
    case _ => w
  }

  /**
   * The cells the guard stands on from (pos, dir) until it leaves the map;
   * runtime_error when it is boxed in; None when `fuel` moves do not suffice.
   */
  function Walk(lines: seq<string>, pos: Vec2, dir: Direction, fuel: nat): (r: Option<Result<set<Vec2>>>)
    decreases fuel
  {
    if Cell(lines, pos).None? then Some(Ok({}))
    else if fuel == 0 then None
    else match Step(lines, pos, dir)
      case None => Some(Err(RuntimeError))
      case Some((next, d)) => Plus(Walk(lines, next, d, fuel - 1), {pos})
  }

  /** The cells holding '^'. */
  function Carets(lines: seq<string>): set<Vec2>
  {
    set x, y | 0 <= y < |lines| && 0 <= x < |lines[y]| && lines[y][x] == '^' :: Vec2(x, y)
  }

  ghost function Start(lines: seq<string>): Vec2
    requires |Carets(lines)| == 1
  {
    var s :| s in Carets(lines); s
  }

  /** The cells holding 'X' once the cells of v are marked. */
  function XCells(lines: seq<string>, v: set<Vec2>): set<Vec2>
  {
    set x, y | 0 <= y < |lines| && 0 <= x < |lines[y]| && (Vec2(x, y) in v || lines[y][x] == 'X') :: Vec2(x, y)
  }

  /**
   * Part one: invalid_argument for ragged lines, runtime_error without exactly
   * one '^' or for a boxed-in guard, otherwise the number of 'X' cells after
   * the walk; None when the walk needs more than `fuel` moves.
   */
  ghost function Answer(lines: seq<string>, fuel: nat): Option<Result<int>>
  {
    if !Rect(lines) then Some(Err(InvalidArgument))
    else if |Carets(lines)| != 1 then Some(Err(RuntimeError))
    else match Walk(lines, Start(lines), Up, fuel)
      case None => None
      case Some(Err(e)) => Some(Err(e))
      case Some(Ok(v)) => Some(Ok(|XCells(lines, v)|))
  }

  // ---------------------------------------------------------------------------
  // Properties of the walk
  // ---------------------------------------------------------------------------

  /**
   * The turning loop agrees with the move: four turns exactly when the guard
   * is boxed in, and otherwise the heading of the move.
   */
  lemma TurnIsStep(lines: seq<string>, pos: Vec2, dir: Direction)
    ensures var t := Turn(lines, pos, dir, 0);
            Step(lines, pos, dir) == if t.1 == 4 then None else Some((Add(pos, Delta(t.0)), t.0))
  {
    var d1 := TurnRight(dir);
    var d2 := TurnRight(d1);
    var d3 := TurnRight(d2);
    TurnFrom(lines, pos, dir, 0);
    TurnFrom(lines, pos, d1, 1);
    TurnFrom(lines, pos, d2, 2);
    TurnFrom(lines, pos, d3, 3);
    assert Turn(lines, pos, TurnRight(d3), 4) == (TurnRight(d3), 4);
  }

  /** One iteration of the turning loop. */
  lemma TurnFrom(lines: seq<string>, pos: Vec2, dir: Direction, turns: nat)
    requires turns < 4
    ensures Turn(lines, pos, dir, turns) ==
              if Blocked(lines, pos, dir) then Turn(lines, pos, TurnRight(dir), turns + 1) else (dir, turns)
  {
  }

  /** A finished walk stays on the map and includes its starting cell when that is on the map. */
  lemma {:induction false} WalkOnMap(lines: seq<string>, pos: Vec2, dir: Direction, fuel: nat)
    ensures var w := Walk(lines, pos, dir, fuel);
            w.Some? && w.value.Ok? ==>
              (forall p :: p in w.value.value ==> Cell(lines, p).Some?) &&
              (Cell(lines, pos).Some? ==> pos in w.value.value)
    decreases fuel
  {
    if Cell(lines, pos).Some? && fuel > 0 && Step(lines, pos, dir).Some? {
      var next := Step(lines, pos, dir).value;
      WalkOnMap(lines, next.0, next.1, fuel - 1);
    }
  }

  /** The guard never stands on an obstacle. */
  lemma {:induction false} WalkAvoidsObstacles(lines: seq<string>, pos: Vec2, dir: Direction, fuel: nat)
    requires !Obstacle(lines, pos)
    ensures var w := Walk(lines, pos, dir, fuel);
            w.Some? && w.value.Ok? ==> forall p :: p in w.value.value ==> !Obstacle(lines, p)
    decreases fuel
  {
    if Cell(lines, pos).Some? && fuel > 0 && Step(lines, pos, dir).Some? {
      var next := Step(lines, pos, dir).value;
      WalkAvoidsObstacles(lines, next.0, next.1, fuel - 1);
    }
  }

  /** More fuel never changes a walk that already finished. */
  lemma {:induction false} WalkFuel(lines: seq<string>, pos: Vec2, dir: Direction, fuel: nat, more: nat)
    requires Walk(lines, pos, dir, fuel).Some? && fuel <= more
    ensures Walk(lines, pos, dir, more) == Walk(lines, pos, dir, fuel)
    decreases fuel
  {
    if Cell(lines, pos).Some? {
      assert fuel > 0;
      match Step(lines, pos, dir)
      case None =>
      case Some((next, d)) =>
        WalkFuel(lines, next, d, fuel - 1, more - 1);
    }
  }

  /** A finished walk marks at least its starting cell. */
  lemma AnswerBounds(lines: seq<string>, fuel: nat)
    requires Answer(lines, fuel).Some? && Answer(lines, fuel).value.Ok?
    ensures 1 <= Answer(lines, fuel).value.value
  {
    var s := Start(lines);
    var v := Walk(lines, s, Up, fuel).value.value;
    WalkOnMap(lines, s, Up, fuel);
    assert s in Carets(lines);
    assert s in XCells(lines, v);
  }

  // ---------------------------------------------------------------------------
  // The walk on the grid
  // ---------------------------------------------------------------------------

  /** The map with the cells of v overwritten by 'X'. */
  function Marked(lines: seq<string>, v: set<Vec2>, p: Vec2): Option<char>
  {
    if p in v then Some('X') else Cell(lines, p)
  }

  ghost predicate Shows(g: Grid<char>, lines: seq<string>, v: set<Vec2>)
    reads g
  {
    g.Valid() && forall x, y {:trigger g.TryGet(x, y)} :: g.TryGet(x, y) == Marked(lines, v, Vec2(x, y))
  }

  lemma PlusPlus(w: Option<Result<set<Vec2>>>, a: set<Vec2>, b: set<Vec2>)
    ensures Plus(Plus(w, a), b) == Plus(w, a + b)
  {
    match w
    case Some(Ok(v)) => assert v + a + b == v + (a + b);
    case _ =>
  }

  /**
   * The inner loop of `part_one`: turns right in front of obstacles, at most
   * four times, reading the marked grid.
   */
  method TurnAt(grid: Grid<char>, ghost lines: seq<string>, ghost visited: set<Vec2>, pos: Vec2, dir0: Direction)
    returns (dir: Direction, turns: nat)
    requires Shows(grid, lines, visited)
    requires forall p :: p in visited ==> !Obstacle(lines, p)
    ensures (dir, turns) == Turn(lines, pos, dir0, 0)
  {
    dir := dir0;
    var delta := Delta(dir);
    turns := 0;
    while grid.TryGetAt(Add(pos, delta)).Some? && grid.TryGetAt(Add(pos, delta)).value == '#' && turns < 4
      invariant turns <= 4 && delta == Delta(dir)
      invariant Turn(lines, pos, dir, turns) == Turn(lines, pos, dir0, 0)
      decreases 4 - turns
    {
      assert grid.TryGet(Add(pos, delta).x, Add(pos, delta).y) == Marked(lines, visited, Add(pos, delta));
      dir := TurnRight(dir);
      delta := Delta(dir);
      turns := turns + 1;
    }
    assert grid.TryGet(Add(pos, delta).x, Add(pos, delta).y) == Marked(lines, visited, Add(pos, delta));
  }

  /** Marking the guard's cell keeps the grid in step with the marked map. */
  method MarkCell(grid: Grid<char>, ghost lines: seq<string>, ghost visited: set<Vec2>, pos: Vec2)
    requires Shows(grid, lines, visited) && Cell(lines, pos).Some?
    modifies grid`data
    ensures Shows(grid, lines, visited + {pos})
    ensures grid.width == old(grid.width) && grid.height == old(grid.height)
  {
    assert grid.TryGet(pos.x, pos.y) == Marked(lines, visited, Vec2(pos.x, pos.y));
    var _ := grid.Set(pos.x, pos.y, 'X');
    forall x, y
      ensures grid.TryGet(x, y) == Marked(lines, visited + {pos}, Vec2(x, y))
    {
      if x != pos.x || y != pos.y {
        assert old(grid.TryGet(x, y)) == Marked(lines, visited, Vec2(x, y));
      }
    }
  }

  /** A grid that shows the marked lines is defined exactly where the lines are. */
  lemma ShowsOnMap(g: Grid<char>, lines: seq<string>, v: set<Vec2>, p: Vec2)
    requires Shows(g, lines, v)
    requires forall q :: q in v ==> Cell(lines, q).Some?
    ensures g.TryGetAt(p).Some? <==> Cell(lines, p).Some?
  {
    assert g.TryGet(p.x, p.y) == Marked(lines, v, Vec2(p.x, p.y));
  }

  /** The invariant of the loop of `Patrol` survives one move. */
  lemma WalkAdvance(lines: seq<string>, start: Vec2, fuel: nat, pos: Vec2, dir0: Direction, rem: nat,
                    visited: set<Vec2>, stuck: bool, dir: Direction)
    requires Cell(lines, pos).Some? && rem > 0
    requires Walk(lines, start, Up, fuel) == Plus(Walk(lines, pos, dir0, rem), visited)
    requires stuck <==> Turn(lines, pos, dir0, 0).1 == 4
    requires dir == Turn(lines, pos, dir0, 0).0
    ensures stuck ==> Walk(lines, start, Up, fuel) == Some(Err(RuntimeError))
    ensures !stuck ==> !Obstacle(lines, Add(pos, Delta(dir)))
    ensures !stuck ==> Walk(lines, start, Up, fuel) == Plus(Walk(lines, Add(pos, Delta(dir)), dir, rem - 1), visited + {pos})
  {
    TurnIsStep(lines, pos, dir0);
    if !stuck {
      var next := Add(pos, Delta(dir));
      assert Step(lines, pos, dir0) == Some((next, dir));
      PlusPlus(Walk(lines, next, dir, rem - 1), {pos}, visited);
      assert {pos} + visited == visited + {pos};
    }
  }

  /**
   * The body of the `while` loop: marks the guard's cell, then turns in front
   * of obstacles; the walk still ahead shrinks by this move.
   */
  method Move(grid: Grid<char>, ghost lines: seq<string>, ghost visited: set<Vec2>, pos: Vec2, dir0: Direction,
              ghost start: Vec2, ghost fuel: nat, ghost rem: nat)
    returns (stuck: bool, dir: Direction, ghost marked: set<Vec2>)
    requires Shows(grid, lines, visited) && Cell(lines, pos).Some? && !Obstacle(lines, pos)
    requires forall p :: p in visited ==> Cell(lines, p).Some? && !Obstacle(lines, p)
    requires rem > 0 && Walk(lines, start, Up, fuel) == Plus(Walk(lines, pos, dir0, rem), visited)
    modifies grid`data
    ensures marked == visited + {pos} && Shows(grid, lines, marked)
    ensures forall p :: p in marked ==> Cell(lines, p).Some? && !Obstacle(lines, p)
    ensures stuck <==> Turn(lines, pos, dir0, 0).1 == 4
    ensures dir == Turn(lines, pos, dir0, 0).0
    ensures stuck ==> Walk(lines, start, Up, fuel) == Some(Err(RuntimeError))
    ensures !stuck ==> !Obstacle(lines, Add(pos, Delta(dir)))
    ensures !stuck ==> Walk(lines, start, Up, fuel) == Plus(Walk(lines, Add(pos, Delta(dir)), dir, rem - 1), marked)
  {
    MarkCell(grid, lines, visited, pos);
    marked := visited + {pos};
    var turns;
    dir, turns := TurnAt(grid, lines, marked, pos, dir0);
    stuck := turns == 4;
    WalkAdvance(lines, start, fuel, pos, dir0, rem, visited, stuck, dir);
  }

  /** The `while` loop of `part_one`: walks and marks until the guard leaves the grid. */
  method Patrol(grid: Grid<char>, ghost lines: seq<string>, start: Vec2, fuel: nat)
    returns (r: Option<Result<()>>, ghost visited: set<Vec2>)
    requires Shows(grid, lines, {}) && Cell(lines, start) == Some('^')
    modifies grid`data
    ensures r.None? ==> Walk(lines, start, Up, fuel).None?
    ensures r.Some? && r.value.Err? ==> Walk(lines, start, Up, fuel) == Some(Err(r.value.error))
    ensures r.Some? && r.value.Ok? ==> Walk(lines, start, Up, fuel) == Some(Ok(visited))
    ensures r.Some? && r.value.Ok? ==> Shows(grid, lines, visited)
    ensures r.Some? && r.value.Ok? ==> forall p :: p in visited ==> Cell(lines, p).Some?
  {
    var guardPos := start;
    var guardDir := Up;
    var steps := 0;
    var stuck := false;
    var onGrid := grid.TryGetAt(guardPos).Some?;
    visited := {};
    ShowsOnMap(grid, lines, visited, guardPos);
    PlusPlus(Walk(lines, start, Up, fuel), {}, {});
    while onGrid && steps < fuel && !stuck
      invariant Shows(grid, lines, visited) && steps <= fuel
      invariant forall p :: p in visited ==> Cell(lines, p).Some? && !Obstacle(lines, p)
      invariant !stuck ==> onGrid == Cell(lines, guardPos).Some? && !Obstacle(lines, guardPos)
      invariant !stuck ==> Walk(lines, start, Up, fuel) == Plus(Walk(lines, guardPos, guardDir, fuel - steps), visited)
      invariant stuck ==> Walk(lines, start, Up, fuel) == Some(Err(RuntimeError))
      decreases fuel - steps, !stuck
    {
      var dir;
      stuck, dir, visited := Move(grid, lines, visited, guardPos, guardDir, start, fuel, fuel - steps);
      if !stuck {
        guardDir := dir;
        guardPos := Add(guardPos, Delta(guardDir));
        steps := steps + 1;
        onGrid := grid.TryGetAt(guardPos).Some?;
        ShowsOnMap(grid, lines, visited, guardPos);
      }
    }
    if stuck {
      return Some(Err(RuntimeError)), visited;
    }
    if onGrid {
      return None, visited;
    }
    assert Walk(lines, guardPos, guardDir, fuel - steps) == Some(Ok({}));
    assert {} + visited == visited;
    r := Some(Ok(()));
  }


  /** A sequence without repetitions has as many elements as its set of members. */
  lemma {:induction false} DistinctCard<T>(s: seq<T>)
    requires forall i, j :: 0 <= i < j < |s| ==> s[i] != s[j]
    ensures |set x | x in s| == |s|
  {
    if s != [] {
      var init := s[..|s| - 1];
      DistinctCard(init);
      assert (set x | x in s) == (set x | x in init) + {s[|s| - 1]};
      assert s[|s| - 1] !in init;
    }
  }

  /** `find_elem_positions` returns each cell holding the element exactly once. */
  lemma CountPositions(g: Grid<char>, elem: char, positions: seq<Vec2>, cells: set<Vec2>)
    requires g.Valid()
    requires forall k :: 0 <= k < |positions| ==> g.TryGet(positions[k].x, positions[k].y) == Some(elem)
    requires forall x, y :: g.TryGet(x, y) == Some(elem) ==> Vec2(x, y) in positions
    requires forall k, l :: 0 <= k < l < |positions| ==>
               g.CalcIdx(positions[k].x, positions[k].y) < g.CalcIdx(positions[l].x, positions[l].y)
    requires forall p :: p in cells <==> g.TryGet(p.x, p.y) == Some(elem)
    ensures |positions| == |cells|
  {
    DistinctCard(positions);
    assert (set x | x in positions) == cells by {
      forall p | p in cells ensures p in positions {
        assert g.TryGet(p.x, p.y) == Some(elem);
      }
    }
  }

  lemma XCellsMember(lines: seq<string>, v: set<Vec2>, p: Vec2)
    ensures p in XCells(lines, v) <==> Cell(lines, p).Some? && (p in v || Cell(lines, p) == Some('X'))
  {
    if Cell(lines, p).Some? && (p in v || Cell(lines, p) == Some('X')) {
      assert p == Vec2(p.x, p.y);
    }
  }

  /** The search for the one '^' cell, throwing when there is none or more than one. */
  method FindStart(grid: Grid<char>, ghost lines: seq<string>) returns (r: Result<Vec2>)
    requires Shows(grid, lines, {})
    ensures r.Err? <==> |Carets(lines)| != 1
    ensures r.Err? ==> r.error == RuntimeError
    ensures r.Ok? ==> Carets(lines) == {r.value} && Cell(lines, r.value) == Some('^')
  {
    var startPos := grid.FindElemPositions('^');
    CountPositions(grid, '^', startPos, Carets(lines)) by {
      forall p ensures p in Carets(lines) <==> grid.TryGet(p.x, p.y) == Some('^') {
        assert grid.TryGet(p.x, p.y) == Marked(lines, {}, Vec2(p.x, p.y));
      }
    }
    if |startPos| != 1 {
      return Err(RuntimeError);
    }
    var start := startPos[0];
    assert grid.TryGet(start.x, start.y) == Marked(lines, {}, Vec2(start.x, start.y));
    assert start in Carets(lines);
    return Ok(start);
  }

  /** The count of the cells marked 'X' once the guard has left. */
  method CountMarks(grid: Grid<char>, ghost lines: seq<string>, ghost visited: set<Vec2>) returns (n: int)
    requires Shows(grid, lines, visited)
    requires forall p :: p in visited ==> Cell(lines, p).Some?
    ensures n == |XCells(lines, visited)|
  {
    var marks := grid.FindElemPositions('X');
    CountPositions(grid, 'X', marks, XCells(lines, visited)) by {
      forall p ensures p in XCells(lines, visited) <==> grid.TryGet(p.x, p.y) == Some('X') {
        XCellsMember(lines, visited, p);
        assert grid.TryGet(p.x, p.y) == Marked(lines, visited, Vec2(p.x, p.y));
      }
    }
    n := |marks|;
  }

  /** `part_one`, with the walk cut off after `fuel` moves. */
  method PartOne(lines: seq<string>, fuel: nat) returns (r: Option<Result<int>>)
    ensures r == Answer(lines, fuel)
  {
    var built := FromLines(lines);
    if built.Err? {
      return Some(Err(built.error));
    }
    var grid := built.value;
    assert Shows(grid, lines, {}) by {
      forall x, y ensures grid.TryGet(x, y) == Marked(lines, {}, Vec2(x, y)) {
        assert grid.TryGet(x, y) == Cell(lines, Vec2(x, y));
      }
    }
    var found := FindStart(grid, lines);
    if found.Err? {
      return Some(Err(found.error));
    }
    var start := found.value;
    assert Start(lines) == start;
    var walked, visited := Patrol(grid, lines, start, fuel);
    if walked.None? {
      return None;
    }
    if walked.value.Err? {
      return Some(Err(walked.value.error));
    }
    var n := CountMarks(grid, lines, visited);
    r := Some(Ok(n));
  }

}
