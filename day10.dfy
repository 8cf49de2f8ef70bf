/**
 * Day 10: a topographic map of digit heights.  From every height-0 trailhead a
 * depth-first search follows steps to a neighbouring cell exactly one higher.
 * Part one scores a trailhead by the distinct height-9 cells it reaches, part
 * two by the number of climbing paths that end at height 9.
 */
module Day10 {
  import opened Wrappers
  import opened Vec
  import opened Grids
  import opened LinesGrid
  import opened AocIo

  // ---------------------------------------------------------------------------
  // The height map
  // ---------------------------------------------------------------------------

  /** Every height is a digit value. */
  predicate Digits(rows: seq<seq<int>>)
  {
    forall y, x :: 0 <= y < |rows| && 0 <= x < |rows[y]| ==> 0 <= rows[y][x] <= 9
  }

  /** The heights of the lines' digits, row by row. */
  function Heights(lines: seq<string>): (rows: seq<seq<int>>)
    ensures |rows| == |lines| && Digits(rows)
    ensures forall y :: 0 <= y < |rows| ==> |rows[y]| == |lines[y]|
  {
    seq(|lines|, y requires 0 <= y < |lines| => DigitsOf(lines[y]))
  }

  /**
   * The exception the row loop stops with, looking from line i on: the first
   * line with a non-digit (bad_optional_access), of another width than the
   * first (out_of_range from `push_row`) or empty (runtime_error from `push_row`).
   */
  function RowsError(lines: seq<string>, i: nat): Option<Error>
    decreases |lines| - i
  {
    if i >= |lines| then None
    else if !AllDigits(lines[i]) then Some(BadOptionalAccess)
    else if i > 0 && |lines[i]| != |lines[0]| then Some(OutOfRange)
    else if |lines[i]| == 0 then Some(RuntimeError)
    else RowsError(lines, i + 1)
  }

  /** Without an exception every line is a non-empty row of digits of the first line's width. */
  lemma {:induction false} RowsFine(lines: seq<string>, i: nat)
    requires RowsError(lines, i).None? && i <= |lines|
    requires i > 0 ==> |lines[0]| > 0
    ensures forall y :: i <= y < |lines| ==> AllDigits(lines[y]) && |lines[y]| == |lines[0]| && |lines[y]| > 0
    decreases |lines| - i
  {
    if i < |lines| {
      RowsFine(lines, i + 1);
    }
  }

  /** The row loop of `part_one`: each line parsed digit by digit and pushed as a row. */
  method BuildHeightMap(lines: seq<string>) returns (r: Result<Grid<int>>)
    ensures r.Err? <==> RowsError(lines, 0).Some?
    ensures r.Err? ==> r.error == RowsError(lines, 0).value
    ensures r.Ok? ==> fresh(r.value) && Holds(r.value, Heights(lines))
    ensures r.Ok? ==> r.value.height == |lines| && r.value.width == (if lines == [] then 0 else |lines[0]|)
  {
    var g := new Grid<int>();
    ghost var rows := Heights(lines);
    for i := 0 to |lines|
      invariant fresh(g) && g.Valid()
      invariant RowsError(lines, 0) == RowsError(lines, i)
      invariant g.height == i && g.width == (if i == 0 then 0 else |lines[0]|)
      invariant i > 0 ==> |lines[0]| > 0
      invariant forall y :: 0 <= y < i ==> |lines[y]| == |lines[0]|
      invariant Holds(g, rows[..i])
    {
      var row :- ParseDigits(lines[i]);
      label before:
      var out := g.PushRow(row);
      if out.Fail? {
        return Err(out.error);
      }
      forall x, y ensures g.TryGet(x, y) == Cell(rows[..i + 1], Vec2(x, y)) {
        if y < i {
          assert old@before(g.TryGet(x, y)) == Cell(rows[..i], Vec2(x, y));
        }
      }
    }
    assert rows[..|lines|] == rows;
    r := Ok(g);
  }

  predicate OnMap(rows: seq<seq<int>>, p: Vec2)
  {
    Cell(rows, p).Some?
  }

  predicate AllOnMap(rows: seq<seq<int>>, s: seq<Vec2>)
  {
    forall k :: 0 <= k < |s| ==> OnMap(rows, s[k])
  }

  function Height(rows: seq<seq<int>>, p: Vec2): int
    requires OnMap(rows, p)
  {
    Cell(rows, p).value
  }

  // ---------------------------------------------------------------------------
  // Neighbours
  // ---------------------------------------------------------------------------

  /** The on-map cells among p + d for the steps d, in order. */
  function AdjacentAmong(rows: seq<seq<int>>, p: Vec2, dirs: seq<Vec2>): (r: seq<Vec2>)
    ensures AllOnMap(rows, r)
  {
    if dirs == [] then []
    else
      var q := Add(p, dirs[|dirs| - 1]);
      AdjacentAmong(rows, p, dirs[..|dirs| - 1]) + if OnMap(rows, q) then [q] else []
  }

  /** The on-map neighbours of p in the order of `all_dirs_vec2` (right, left, up, down). */
  function Adjacent(rows: seq<seq<int>>, p: Vec2): (r: seq<Vec2>)
    ensures AllOnMap(rows, r)
  {
    AdjacentAmong(rows, p, AllDirsVec2(false))
  }

  lemma {:induction false} AdjacentAmongMembers(rows: seq<seq<int>>, p: Vec2, dirs: seq<Vec2>, q: Vec2)
    ensures q in AdjacentAmong(rows, p, dirs) <==> OnMap(rows, q) && Sub(q, p) in dirs
  {
    if dirs != [] {
      var d := dirs[|dirs| - 1];
      AdjacentAmongMembers(rows, p, dirs[..|dirs| - 1], q);
      assert dirs == dirs[..|dirs| - 1] + [d];
      AddSubRoundTrip(p, d);
      if Sub(q, p) == d {
        assert q == Add(p, d);
      }
    }
  }

  /** The neighbours are exactly the on-map cells one unit step away. */
  lemma AdjacentExact(rows: seq<seq<int>>, p: Vec2, q: Vec2)
    ensures q in Adjacent(rows, p) <==> OnMap(rows, q) && Manhattan(Sub(q, p)) == 1
  {
    AdjacentAmongMembers(rows, p, AllDirsVec2(false), q);
    AllDirsComplete(Sub(q, p), false);
  }

  /** `get_adjacent`: the steps of `all_dirs_vec2` whose target `try_get` finds. */
  method GetAdjacent(heightMap: Grid<int>, ghost rows: seq<seq<int>>, pos: Vec2) returns (neighbors: seq<Vec2>)
    requires Holds(heightMap, rows)
    ensures neighbors == Adjacent(rows, pos)
  {
    var dirs := AllDirsVec2(false);
    neighbors := [];
    for k := 0 to 4
      invariant neighbors == AdjacentAmong(rows, pos, dirs[..k])
    {
      assert dirs[..k + 1][..k] == dirs[..k];
      ReadCell(heightMap, rows, Add(pos, dirs[k]));
      if heightMap.TryGetAt(Add(pos, dirs[k])).Some? {
        neighbors := neighbors + [Add(pos, dirs[k])];
      }
    }
    assert dirs[..4] == dirs;
  }

  // ---------------------------------------------------------------------------
  // What the search counts
  // ---------------------------------------------------------------------------

  /** A step from p to q climbs when q is exactly one higher. */
  predicate Climbs(rows: seq<seq<int>>, p: Vec2, q: Vec2)
    requires OnMap(rows, p) && OnMap(rows, q)
  {
    Height(rows, q) == Height(rows, p) + 1
  }

  /** The number of climbing paths from p to a height-9 cell. */
  function Paths(rows: seq<seq<int>>, p: Vec2): nat
    requires Digits(rows) && OnMap(rows, p)
    decreases 9 - Height(rows, p), 1, 0
  {
    if Height(rows, p) == 9 then 1 else PathsVia(rows, p, Adjacent(rows, p))
  }

  /** The climbing paths from p that go on through one of the cells qs. */
  function PathsVia(rows: seq<seq<int>>, p: Vec2, qs: seq<Vec2>): nat
    requires Digits(rows) && OnMap(rows, p) && AllOnMap(rows, qs)
    decreases 9 - Height(rows, p), 0, |qs|
  {
    if qs == [] then 0
    else
      var q := qs[|qs| - 1];
      PathsVia(rows, p, qs[..|qs| - 1]) + if Climbs(rows, p, q) then Paths(rows, q) else 0
  }

  /** The height-9 cells reachable from p by climbing steps. */
  function Reach(rows: seq<seq<int>>, p: Vec2): set<Vec2>
    requires Digits(rows) && OnMap(rows, p)
    decreases 9 - Height(rows, p), 1, 0
  {
    if Height(rows, p) == 9 then {p} else ReachVia(rows, p, Adjacent(rows, p))
  }

  /** The height-9 cells reachable from p through one of the cells qs. */
  function ReachVia(rows: seq<seq<int>>, p: Vec2, qs: seq<Vec2>): set<Vec2>
    requires Digits(rows) && OnMap(rows, p) && AllOnMap(rows, qs)
    decreases 9 - Height(rows, p), 0, |qs|
  {
    if qs == [] then {}
    else
      var q := qs[|qs| - 1];
      ReachVia(rows, p, qs[..|qs| - 1]) + if Climbs(rows, p, q) then Reach(rows, q) else {}
  }

  /** The cells the search pops when it starts from p alone and never marks a cell reached. */
  function Visits(rows: seq<seq<int>>, p: Vec2): nat
    requires Digits(rows) && OnMap(rows, p)
    decreases 9 - Height(rows, p), 1, 0
  {
    1 + if Height(rows, p) == 9 then 0 else VisitsVia(rows, p, Adjacent(rows, p))
  }

  function VisitsVia(rows: seq<seq<int>>, p: Vec2, qs: seq<Vec2>): nat
    requires Digits(rows) && OnMap(rows, p) && AllOnMap(rows, qs)
    decreases 9 - Height(rows, p), 0, |qs|
  {
    if qs == [] then 0
    else
      var q := qs[|qs| - 1];
      VisitsVia(rows, p, qs[..|qs| - 1]) + if Climbs(rows, p, q) then Visits(rows, q) else 0
  }

  /** A trailhead's score: distinct height-9 cells in part one, paths in part two. */
  function Score(rows: seq<seq<int>>, p: Vec2, partTwo: bool): nat
    requires Digits(rows) && OnMap(rows, p)
  {
    if partTwo then Paths(rows, p) else |Reach(rows, p)|
  }

  // ---------------------------------------------------------------------------
  // Trails
  // ---------------------------------------------------------------------------

  /** A climbing trail: on the map, unit steps, each one higher than the last. */
  predicate Trail(rows: seq<seq<int>>, path: seq<Vec2>)
  {
    |path| > 0 && AllOnMap(rows, path) &&
    forall k :: 0 <= k < |path| - 1 ==> Manhattan(Sub(path[k + 1], path[k])) == 1 && Height(rows, path[k + 1]) == Height(rows, path[k]) + 1
  }

  /** What ReachVia collects: the Reach of each climbing cell of qs. */
  lemma {:induction false} ReachViaMembers(rows: seq<seq<int>>, p: Vec2, qs: seq<Vec2>, v: Vec2)
    requires Digits(rows) && OnMap(rows, p) && AllOnMap(rows, qs)
    ensures v in ReachVia(rows, p, qs) <==> exists k :: 0 <= k < |qs| && Climbs(rows, p, qs[k]) && v in Reach(rows, qs[k])
  {
    if qs != [] {
      ReachViaMembers(rows, p, qs[..|qs| - 1], v);
      if v in ReachVia(rows, p, qs) && v !in ReachVia(rows, p, qs[..|qs| - 1]) {
        assert Climbs(rows, p, qs[|qs| - 1]) && v in Reach(rows, qs[|qs| - 1]);
      }
      if exists k :: 0 <= k < |qs| && Climbs(rows, p, qs[k]) && v in Reach(rows, qs[k]) {
        var k :| 0 <= k < |qs| && Climbs(rows, p, qs[k]) && v in Reach(rows, qs[k]);
        if k < |qs| - 1 {
          assert qs[..|qs| - 1][k] == qs[k];
        }
      }
    }
  }

  /** A non-empty piece of a trail is a trail. */
  lemma TrailSlice(rows: seq<seq<int>>, path: seq<Vec2>, lo: nat, hi: nat)
    requires Trail(rows, path) && lo < hi <= |path|
    ensures Trail(rows, path[lo..hi])
  {
    var piece := path[lo..hi];
    forall j | 0 <= j < |piece| - 1
      ensures Manhattan(Sub(piece[j + 1], piece[j])) == 1 && Height(rows, piece[j + 1]) == Height(rows, piece[j]) + 1
    {
      assert piece[j] == path[lo + j] && piece[j + 1] == path[lo + j + 1];
    }
  }

  /** A climbing step onto the start of a trail makes a longer trail. */
  lemma TrailPrepend(rows: seq<seq<int>>, p: Vec2, path: seq<Vec2>)
    requires Trail(rows, path) && OnMap(rows, p)
    requires Manhattan(Sub(path[0], p)) == 1 && Height(rows, path[0]) == Height(rows, p) + 1
    ensures Trail(rows, [p] + path)
  {
    var longer := [p] + path;
    forall j | 0 <= j < |longer| - 1
      ensures Manhattan(Sub(longer[j + 1], longer[j])) == 1 && Height(rows, longer[j + 1]) == Height(rows, longer[j]) + 1
    {
      if j > 0 {
        assert longer[j] == path[j - 1] && longer[j + 1] == path[j];
      }
    }
  }

  /** Every cell Reach finds ends a climbing trail from p at height 9. */
  lemma {:induction false} ReachHasTrail(rows: seq<seq<int>>, p: Vec2, v: Vec2)
    requires Digits(rows) && OnMap(rows, p) && v in Reach(rows, p)
    ensures OnMap(rows, v) && Height(rows, v) == 9
    ensures exists path :: Trail(rows, path) && path[0] == p && path[|path| - 1] == v
    decreases 9 - Height(rows, p)
  {
    if Height(rows, p) == 9 {
      assert Trail(rows, [p]);
    } else {
      var adjacent := Adjacent(rows, p);
      ReachViaMembers(rows, p, adjacent, v);
      var k :| 0 <= k < |adjacent| && Climbs(rows, p, adjacent[k]) && v in Reach(rows, adjacent[k]);
      var q := adjacent[k];
      AdjacentExact(rows, p, q);
      ReachHasTrail(rows, q, v);
      var path :| Trail(rows, path) && path[0] == q && path[|path| - 1] == v;
      TrailPrepend(rows, p, path);
      assert ([p] + path)[|path|] == v;
    }
  }

  /** Every climbing trail from p that ends at height 9 ends at a cell of Reach. */
  lemma {:induction false} TrailInReach(rows: seq<seq<int>>, path: seq<Vec2>)
    requires Digits(rows) && Trail(rows, path) && Height(rows, path[|path| - 1]) == 9
    ensures path[|path| - 1] in Reach(rows, path[0])
  {
    if |path| > 1 {
      var p, q := path[0], path[1];
      var rest := path[1..];
      TrailSlice(rows, path, 1, |path|);
      TrailInReach(rows, rest);
      AdjacentExact(rows, p, q);
      var adjacent := Adjacent(rows, p);
      var k :| 0 <= k < |adjacent| && adjacent[k] == q;
      ReachViaMembers(rows, p, adjacent, path[|path| - 1]);
      TrailHeights(rows, path);
    }
  }

  /** Heights along a trail rise by one per step, so a trail reaching 9 starts below 9 unless it is one cell. */
  lemma {:induction false} TrailHeights(rows: seq<seq<int>>, path: seq<Vec2>)
    requires Trail(rows, path)
    ensures Height(rows, path[|path| - 1]) == Height(rows, path[0]) + |path| - 1
  {
    if |path| > 1 {
      var rest := path[..|path| - 1];
      TrailSlice(rows, path, 0, |path| - 1);
      TrailHeights(rows, rest);
    }
  }

  /** Part one never exceeds part two: distinct end cells are at most the paths to them. */
  lemma {:induction false} ReachAtMostPaths(rows: seq<seq<int>>, p: Vec2)
    requires Digits(rows) && OnMap(rows, p)
    ensures |Reach(rows, p)| <= Paths(rows, p)
    decreases 9 - Height(rows, p), 1, 0
  {
    if Height(rows, p) != 9 {
      ReachViaAtMostPathsVia(rows, p, Adjacent(rows, p));
    }
  }

  lemma {:induction false} ReachViaAtMostPathsVia(rows: seq<seq<int>>, p: Vec2, qs: seq<Vec2>)
    requires Digits(rows) && OnMap(rows, p) && AllOnMap(rows, qs)
    ensures |ReachVia(rows, p, qs)| <= PathsVia(rows, p, qs)
    decreases 9 - Height(rows, p), 0, |qs|
  {
    if qs != [] {
      var q := qs[|qs| - 1];
      ReachViaAtMostPathsVia(rows, p, qs[..|qs| - 1]);
      if Climbs(rows, p, q) {
        ReachAtMostPaths(rows, q);
        UnionSize(ReachVia(rows, p, qs[..|qs| - 1]), Reach(rows, q));
      }
    }
  }

  lemma UnionSize<T>(a: set<T>, b: set<T>)
    ensures |a + b| <= |a| + |b|
  {
    assert |a + b| == |a| + |b - a|;
    assert b - a <= b;
  }

  // ---------------------------------------------------------------------------
  // The search from one trailhead
  // ---------------------------------------------------------------------------

  function SumPaths(rows: seq<seq<int>>, s: seq<Vec2>): nat
    requires Digits(rows) && AllOnMap(rows, s)
  {
    if s == [] then 0 else SumPaths(rows, s[..|s| - 1]) + Paths(rows, s[|s| - 1])
  }

  function ReachAll(rows: seq<seq<int>>, s: seq<Vec2>): set<Vec2>
    requires Digits(rows) && AllOnMap(rows, s)
  {
    if s == [] then {} else ReachAll(rows, s[..|s| - 1]) + Reach(rows, s[|s| - 1])
  }

  function SumVisits(rows: seq<seq<int>>, s: seq<Vec2>): nat
    requires Digits(rows) && AllOnMap(rows, s)
  {
    if s == [] then 0 else SumVisits(rows, s[..|s| - 1]) + Visits(rows, s[|s| - 1])
  }

  /** The `reached` grid marks exactly the cells of seen. */
  ghost predicate Marks(reached: Grid<bool>, seen: set<Vec2>)
    reads reached
  {
    reached.Valid() && forall x, y :: reached.PosOnGrid(x, y) ==> reached.TryGet(x, y) == Some(Vec2(x, y) in seen)
  }

  /** Positions on the map are on a grid of the map's size. */
  predicate Sized(rows: seq<seq<int>>, w: nat, h: nat)
  {
    |rows| == h && (h > 0 ==> w == |rows[0]|) && (h == 0 ==> w == 0) && forall y :: 0 <= y < |rows| ==> |rows[y]| == w
  }

  /** Pushing q adds its share to each of the stack's totals. */
  lemma Pushed(rows: seq<seq<int>>, s: seq<Vec2>, q: Vec2)
    requires Digits(rows) && AllOnMap(rows, s) && OnMap(rows, q)
    ensures AllOnMap(rows, s + [q])
    ensures SumPaths(rows, s + [q]) == SumPaths(rows, s) + Paths(rows, q)
    ensures ReachAll(rows, s + [q]) == ReachAll(rows, s) + Reach(rows, q)
    ensures SumVisits(rows, s + [q]) == SumVisits(rows, s) + Visits(rows, q)
  {
    assert (s + [q])[..|s|] == s;
  }

  /** Taking one more neighbour into account adds its share when it climbs. */
  lemma ViaStep(rows: seq<seq<int>>, p: Vec2, qs: seq<Vec2>, j: nat)
    requires Digits(rows) && OnMap(rows, p) && AllOnMap(rows, qs) && j < |qs|
    ensures PathsVia(rows, p, qs[..j + 1]) == PathsVia(rows, p, qs[..j]) + if Climbs(rows, p, qs[j]) then Paths(rows, qs[j]) else 0
    ensures ReachVia(rows, p, qs[..j + 1]) == ReachVia(rows, p, qs[..j]) + if Climbs(rows, p, qs[j]) then Reach(rows, qs[j]) else {}
    ensures VisitsVia(rows, p, qs[..j + 1]) == VisitsVia(rows, p, qs[..j]) + if Climbs(rows, p, qs[j]) then Visits(rows, qs[j]) else 0
  {
    assert qs[..j + 1][..j] == qs[..j];
  }

  /** What is still on the stack: part two never pushes a height-9 cell, and part one only one it has marked. */
  ghost predicate Pending(rows: seq<seq<int>>, positions: seq<Vec2>, seen: set<Vec2>, partTwo: bool)
    requires AllOnMap(rows, positions)
  {
    if partTwo then seen == {} && forall k :: 0 <= k < |positions| ==> Height(rows, positions[k]) < 9
    else forall k :: 0 <= k < |positions| ==> Height(rows, positions[k]) == 9 ==> positions[k] in seen
  }

  /**
   * What handling the neighbours qs of pos did to the stack and the score: in
   * part two the paths through them moved from the stack to the score, in part
   * one the cells they reach are marked or on the stack, and the score counts
   * the marks; the search left at most their visits on the stack.
   */
  ghost predicate Explored(rows: seq<seq<int>>, pos: Vec2, qs: seq<Vec2>, partTwo: bool,
                           positions0: seq<Vec2>, score0: int, seen0: set<Vec2>,
                           positions: seq<Vec2>, score: int, seen: set<Vec2>)
  {
    && Digits(rows) && OnMap(rows, pos) && AllOnMap(rows, qs) && AllOnMap(rows, positions0) && AllOnMap(rows, positions)
    && SumVisits(rows, positions) <= SumVisits(rows, positions0) + VisitsVia(rows, pos, qs)
    && (partTwo ==> score + SumPaths(rows, positions) == score0 + SumPaths(rows, positions0) + PathsVia(rows, pos, qs))
    && (!partTwo ==> seen0 <= seen && score - score0 == |seen| - |seen0|)
    && (!partTwo ==> seen + ReachAll(rows, positions) == seen0 + ReachAll(rows, positions0) + ReachVia(rows, pos, qs))
  }

  /** Handling one more neighbour extends what was explored. */
  lemma ExploredStep(rows: seq<seq<int>>, pos: Vec2, qs: seq<Vec2>, j: nat, partTwo: bool,
                     positions0: seq<Vec2>, score0: int, seen0: set<Vec2>,
                     positions1: seq<Vec2>, score1: int, seen1: set<Vec2>,
                     positions: seq<Vec2>, score: int, seen: set<Vec2>)
    requires Digits(rows) && OnMap(rows, pos) && AllOnMap(rows, qs) && j < |qs|
    requires AllOnMap(rows, positions0) && AllOnMap(rows, positions1) && AllOnMap(rows, positions)
    requires Explored(rows, pos, qs[..j], partTwo, positions0, score0, seen0, positions1, score1, seen1)
    requires Explored(rows, pos, [qs[j]], partTwo, positions1, score1, seen1, positions, score, seen)
    ensures Explored(rows, pos, qs[..j + 1], partTwo, positions0, score0, seen0, positions, score, seen)
  {
    ViaStep(rows, pos, qs, j);
    ViaOne(rows, pos, qs[j]);
    if !partTwo {
      UnionStep(seen1, ReachAll(rows, positions1), seen0 + ReachAll(rows, positions0), ReachVia(rows, pos, qs[..j]),
                ReachVia(rows, pos, [qs[j]]), seen, ReachAll(rows, positions));
    }
  }

  lemma ViaOne(rows: seq<seq<int>>, pos: Vec2, q: Vec2)
    requires Digits(rows) && OnMap(rows, pos) && OnMap(rows, q)
    ensures PathsVia(rows, pos, [q]) == if Climbs(rows, pos, q) then Paths(rows, q) else 0
    ensures VisitsVia(rows, pos, [q]) == if Climbs(rows, pos, q) then Visits(rows, q) else 0
    ensures ReachVia(rows, pos, [q]) == if Climbs(rows, pos, q) then Reach(rows, q) else {}
  {
    assert [q][..0] == [];
  }

  lemma UnionStep<T>(seen: set<T>, r: set<T>, s0: set<T>, v: set<T>, x: set<T>, seen2: set<T>, r2: set<T>)
    requires seen + r == s0 + v && seen2 + r2 == seen + r + x
    ensures seen2 + r2 == s0 + (v + x)
  {
  }

  /**
   * The body of the loop over the neighbours: a climbing neighbour at height 9
   * not yet reached is counted (and marked in part one); any other climbing
   * neighbour is pushed.
   */
  method Step(heightMap: Grid<int>, ghost rows: seq<seq<int>>, reached: Grid<bool>, pos: Vec2, currentHeight: int, adjPos: Vec2,
              partTwo: bool, positions0: seq<Vec2>, score0: int, ghost seen0: set<Vec2>)
    returns (positions: seq<Vec2>, score: int, ghost seen: set<Vec2>)
    requires Holds(heightMap, rows) && Digits(rows) && OnMap(rows, pos) && OnMap(rows, adjPos)
    requires currentHeight == Height(rows, pos)
    requires Sized(rows, reached.width, reached.height) && Marks(reached, seen0)
    requires AllOnMap(rows, positions0) && Pending(rows, positions0, seen0, partTwo)
    modifies reached`data
    ensures Marks(reached, seen) && AllOnMap(rows, positions) && Pending(rows, positions, seen, partTwo)
    ensures Explored(rows, pos, [adjPos], partTwo, positions0, score0, seen0, positions, score, seen)
  {
    positions, score, seen := positions0, score0, seen0;
    ViaOne(rows, pos, adjPos);
    ReadCell(heightMap, rows, adjPos);
    var neighborHeight := heightMap.GetAt(adjPos).value;
    if neighborHeight == currentHeight + 1 {
      var isReached := false;
      if neighborHeight == 9 {
        isReached := reached.GetAt(adjPos).value;
        assert isReached == (adjPos in seen0);
      }
      if neighborHeight == 9 && !isReached {
        Counted(rows, adjPos);
        Mark(reached, seen, adjPos, !partTwo);
        seen := if partTwo then seen else seen + {adjPos};
        score := score + 1;
      } else {
        Pushed(rows, positions, adjPos);
        positions := positions + [adjPos];
      }
    }
  }

  /** `reached.set(p, flag)` on a grid that marks seen, p not yet among them. */
  method Mark(reached: Grid<bool>, ghost seen: set<Vec2>, p: Vec2, flag: bool)
    requires Marks(reached, seen) && reached.PosOnGrid(p.x, p.y) && p !in seen
    modifies reached`data
    ensures Marks(reached, if flag then seen + {p} else seen)
  {
    var _ := reached.Set(p.x, p.y, flag);
    ghost var now := if flag then seen + {p} else seen;
    forall x, y | reached.PosOnGrid(x, y) ensures reached.TryGet(x, y) == Some(Vec2(x, y) in now) {
      if x != p.x || y != p.y {
        assert reached.TryGet(x, y) == old(reached.TryGet(x, y));
      }
    }
  }

  /** A height-9 cell is one path and reaches only itself. */
  lemma Counted(rows: seq<seq<int>>, q: Vec2)
    requires Digits(rows) && OnMap(rows, q) && Height(rows, q) == 9
    ensures Paths(rows, q) == 1 && Reach(rows, q) == {q} && Visits(rows, q) == 1
  {
  }

  /** The loop over the neighbours of a popped position. */
  method Explore(heightMap: Grid<int>, ghost rows: seq<seq<int>>, reached: Grid<bool>, pos: Vec2, adjacent: seq<Vec2>,
                 partTwo: bool, positions0: seq<Vec2>, score0: int, ghost seen0: set<Vec2>)
    returns (positions: seq<Vec2>, score: int, ghost seen: set<Vec2>)
    requires Holds(heightMap, rows) && Digits(rows) && OnMap(rows, pos) && AllOnMap(rows, adjacent)
    requires Sized(rows, reached.width, reached.height) && Marks(reached, seen0)
    requires AllOnMap(rows, positions0) && Pending(rows, positions0, seen0, partTwo)
    modifies reached`data
    ensures Marks(reached, seen) && AllOnMap(rows, positions) && Pending(rows, positions, seen, partTwo)
    ensures Explored(rows, pos, adjacent, partTwo, positions0, score0, seen0, positions, score, seen)
  {
    positions, score, seen := positions0, score0, seen0;
    assert adjacent[..0] == [];
    ReadCell(heightMap, rows, pos);
    var currentHeight := heightMap.GetAt(pos).value;
    for j := 0 to |adjacent|
      invariant Marks(reached, seen) && AllOnMap(rows, positions) && Pending(rows, positions, seen, partTwo)
      invariant Explored(rows, pos, adjacent[..j], partTwo, positions0, score0, seen0, positions, score, seen)
    {
      ghost var positions1, score1, seen1 := positions, score, seen;
      positions, score, seen := Step(heightMap, rows, reached, pos, currentHeight, adjacent[j], partTwo, positions, score, seen);
      ExploredStep(rows, pos, adjacent, j, partTwo, positions0, score0, seen0, positions1, score1, seen1, positions, score, seen);
    }
    assert adjacent[..|adjacent|] == adjacent;
  }

  /** A height-9 cell climbs nowhere: no neighbour is at height 10. */
  lemma Summit(rows: seq<seq<int>>, p: Vec2, qs: seq<Vec2>)
    requires Digits(rows) && OnMap(rows, p) && AllOnMap(rows, qs) && Height(rows, p) == 9
    ensures PathsVia(rows, p, qs) == 0 && ReachVia(rows, p, qs) == {} && VisitsVia(rows, p, qs) == 0
  {
    if qs != [] {
      Summit(rows, p, qs[..|qs| - 1]);
    }
  }

  /** The search from trailhead is on course: what is counted plus what the stack still holds is the score. */
  ghost predicate Searching(rows: seq<seq<int>>, trailhead: Vec2, partTwo: bool, positions: seq<Vec2>, score: int, seen: set<Vec2>)
  {
    && Digits(rows) && OnMap(rows, trailhead) && AllOnMap(rows, positions)
    && (partTwo ==> score + SumPaths(rows, positions) == Paths(rows, trailhead))
    && (!partTwo ==> score == |seen| && seen + ReachAll(rows, positions) == Reach(rows, trailhead))
  }

  /** Popping the top of the stack and exploring its neighbours keeps the search on course and shrinks the work left. */
  lemma Popped(rows: seq<seq<int>>, trailhead: Vec2, partTwo: bool, stack: seq<Vec2>, score0: int, seen0: set<Vec2>,
               positions: seq<Vec2>, score: int, seen: set<Vec2>)
    requires Searching(rows, trailhead, partTwo, stack, score0, seen0) && stack != [] && Pending(rows, stack, seen0, partTwo)
    requires var pos := stack[|stack| - 1];
      Explored(rows, pos, Adjacent(rows, pos), partTwo, stack[..|stack| - 1], score0, seen0, positions, score, seen)
    ensures Searching(rows, trailhead, partTwo, positions, score, seen)
    ensures SumVisits(rows, positions) < SumVisits(rows, stack)
  {
    var pos := stack[|stack| - 1];
    var rest := stack[..|stack| - 1];
    if Height(rows, pos) == 9 {
      Summit(rows, pos, Adjacent(rows, pos));
    }
  }

  /** The search of `part_one` from one trailhead: the stack of positions and the per-trailhead `reached` grid. */
  method TrailScore(heightMap: Grid<int>, ghost rows: seq<seq<int>>, trailhead: Vec2, partTwo: bool) returns (score: int)
    requires Holds(heightMap, rows) && Digits(rows) && Sized(rows, heightMap.width, heightMap.height)
    requires OnMap(rows, trailhead) && Height(rows, trailhead) == 0
    ensures score == Score(rows, trailhead, partTwo)
  {
    score := 0;
    var positions := [trailhead];
    var reached := new Grid<bool>.Filled(heightMap.width, heightMap.height, false);
    ghost var seen: set<Vec2> := {};
    assert Marks(reached, seen) by {
      forall x, y | reached.PosOnGrid(x, y) ensures reached.TryGet(x, y) == Some(false) {
        RowMajor(reached.width, reached.height, x, y);
      }
    }
    assert [trailhead][..0] == [];
    while positions != []
      invariant fresh(reached) && Sized(rows, reached.width, reached.height) && Marks(reached, seen)
      invariant Searching(rows, trailhead, partTwo, positions, score, seen) && Pending(rows, positions, seen, partTwo)
      decreases SumVisits(rows, positions)
    {
      positions, score, seen := Visit(heightMap, rows, reached, trailhead, partTwo, positions, score, seen);
    }
  }

  /** One turn of the search loop: pop the top position and explore its neighbours. */
  method Visit(heightMap: Grid<int>, ghost rows: seq<seq<int>>, reached: Grid<bool>, ghost trailhead: Vec2, partTwo: bool,
               stack: seq<Vec2>, score0: int, ghost seen0: set<Vec2>)
    returns (positions: seq<Vec2>, score: int, ghost seen: set<Vec2>)
    requires Holds(heightMap, rows) && Sized(rows, reached.width, reached.height) && Marks(reached, seen0)
    requires Searching(rows, trailhead, partTwo, stack, score0, seen0) && Pending(rows, stack, seen0, partTwo)
    requires stack != []
    modifies reached`data
    ensures Marks(reached, seen) && Searching(rows, trailhead, partTwo, positions, score, seen)
    ensures Pending(rows, positions, seen, partTwo) && SumVisits(rows, positions) < SumVisits(rows, stack)
  {
    var pos := stack[|stack| - 1];
    positions := stack[..|stack| - 1];
    var adjacent := GetAdjacent(heightMap, rows, pos);
    positions, score, seen := Explore(heightMap, rows, reached, pos, adjacent, partTwo, positions, score0, seen0);
    Popped(rows, trailhead, partTwo, stack, score0, seen0, positions, score, seen);
  }

  // ---------------------------------------------------------------------------
  // The trailheads and the answer
  // ---------------------------------------------------------------------------

  /** The flat index of p on a map w wide (`calc_idx`). */
  function FlatIdx(w: int, p: Vec2): int
  {
    p.x + p.y * w
  }

  /** The height-0 cells whose flat index is below n, in row-major order. */
  function ZerosBelow(rows: seq<seq<int>>, w: nat, n: nat): (r: seq<Vec2>)
    requires w > 0
    ensures forall k :: 0 <= k < |r| ==> Cell(rows, r[k]) == Some(0) && 0 <= r[k].x < w && 0 <= FlatIdx(w, r[k]) < n
  {
    if n == 0 then []
    else
      var p := Vec2((n - 1) % w, (n - 1) / w);
      ZerosBelow(rows, w, n - 1) + if Cell(rows, p) == Some(0) then [p] else []
  }

  /** The height-0 cells of the map in row-major order. */
  function Trailheads(rows: seq<seq<int>>): (r: seq<Vec2>)
    ensures forall k :: 0 <= k < |r| ==> Cell(rows, r[k]) == Some(0)
  {
    if rows == [] || |rows[0]| == 0 then [] else ZerosBelow(rows, |rows[0]|, |rows[0]| * |rows|)
  }

  /** Strictly increasing flat indices. */
  predicate Increasing(w: int, s: seq<Vec2>)
  {
    forall i, j :: 0 <= i < j < |s| ==> FlatIdx(w, s[i]) < FlatIdx(w, s[j])
  }

  /** A flat index i splits into the column i % w and the row i / w. */
  lemma FlatSplit(w: int, i: int)
    requires w > 0 && i >= 0
    ensures 0 <= i % w < w && 0 <= i / w && FlatIdx(w, Vec2(i % w, i / w)) == i
  {
    assert (i / w) * w + i % w == i;
  }

  lemma {:induction false} ZerosBelowIncreasing(rows: seq<seq<int>>, w: nat, n: nat)
    requires w > 0
    ensures Increasing(w, ZerosBelow(rows, w, n))
  {
    if n > 0 {
      ZerosBelowIncreasing(rows, w, n - 1);
      FlatSplit(w, n - 1);
    }
  }

  lemma {:induction false} ZerosBelowMembers(rows: seq<seq<int>>, w: nat, n: nat, v: Vec2)
    requires w > 0
    ensures v in ZerosBelow(rows, w, n) <==> Cell(rows, v) == Some(0) && 0 <= v.x < w && 0 <= FlatIdx(w, v) < n
  {
    if n > 0 {
      ZerosBelowMembers(rows, w, n - 1, v);
      FlatSplit(w, n - 1);
      if 0 <= v.x < w && FlatIdx(w, v) == n - 1 {
        DivModOf(w, v.x, v.y);
      }
    }
  }

  /** The trailheads are exactly the height-0 cells, in increasing flat index. */
  lemma TrailheadsExact(rows: seq<seq<int>>, w: nat, h: nat, v: Vec2)
    requires Sized(rows, w, h)
    ensures Increasing(w, Trailheads(rows))
    ensures v in Trailheads(rows) <==> Cell(rows, v) == Some(0)
  {
    if rows != [] && |rows[0]| != 0 {
      ZerosBelowIncreasing(rows, w, w * h);
      ZerosBelowMembers(rows, w, w * h, v);
      if Cell(rows, v) == Some(0) {
        RowMajor(w, h, v.x, v.y);
      }
    }
  }

  /** Past a shared head, one increasing sequence's tail holds v exactly when the other's does. */
  lemma TailMember(w: int, a: seq<Vec2>, b: seq<Vec2>, v: Vec2)
    requires Increasing(w, a) && Increasing(w, b) && a != [] && b != [] && a[0] == b[0]
    requires v in a <==> v in b
    ensures v in a[1..] <==> v in b[1..]
  {
    if v in a[1..] {
      var k :| 0 <= k < |a| - 1 && a[1..][k] == v;
      assert a[k + 1] == v && FlatIdx(w, a[0]) < FlatIdx(w, a[k + 1]);
      var m :| 0 <= m < |b| && b[m] == v;
      assert b[1..][m - 1] == v;
    }
    if v in b[1..] {
      var k :| 0 <= k < |b| - 1 && b[1..][k] == v;
      assert b[k + 1] == v && FlatIdx(w, b[0]) < FlatIdx(w, b[k + 1]);
      var m :| 0 <= m < |a| && a[m] == v;
      assert a[1..][m - 1] == v;
    }
  }

  /** Two strictly increasing sequences with the same members are equal. */
  lemma {:induction false} IncreasingUnique(w: int, a: seq<Vec2>, b: seq<Vec2>)
    requires Increasing(w, a) && Increasing(w, b)
    requires forall v :: v in a <==> v in b
    ensures a == b
  {
    if a != [] && b != [] {
      HeadIn(a);
      HeadIn(b);
      SameHead(w, a, b);
      forall v ensures v in a[1..] <==> v in b[1..] {
        TailMember(w, a, b, v);
      }
      IncreasingUnique(w, a[1..], b[1..]);
      assert a == [a[0]] + a[1..] && b == [b[0]] + b[1..];
    } else if a != [] {
      HeadIn(a);
      assert false;
    } else if b != [] {
      HeadIn(b);
      assert false;
    }
  }

  /** Two increasing sequences holding each other's heads start alike. */
  lemma SameHead(w: int, a: seq<Vec2>, b: seq<Vec2>)
    requires Increasing(w, a) && Increasing(w, b) && a != [] && b != [] && a[0] in b && b[0] in a
    ensures a[0] == b[0]
  {
    var i :| 0 <= i < |b| && b[i] == a[0];
    var j :| 0 <= j < |a| && a[j] == b[0];
  }

  lemma HeadIn(s: seq<Vec2>)
    requires s != []
    ensures s[0] in s
  {
  }

  /** `find_elem_positions_if` with `h == 0` finds the trailheads. */
  lemma TrailheadsFound(heightMap: Grid<int>, rows: seq<seq<int>>, found: seq<Vec2>)
    requires Holds(heightMap, rows) && Sized(rows, heightMap.width, heightMap.height)
    requires forall k :: 0 <= k < |found| ==> heightMap.TryGet(found[k].x, found[k].y) == Some(0)
    requires forall x, y :: heightMap.TryGet(x, y) == Some(0) ==> Vec2(x, y) in found
    requires forall k, l :: 0 <= k < l < |found| ==>
               heightMap.CalcIdx(found[k].x, found[k].y) < heightMap.CalcIdx(found[l].x, found[l].y)
    ensures found == Trailheads(rows)
  {
    var w := heightMap.width;
    forall v ensures v in found <==> v in Trailheads(rows) {
      TrailheadsExact(rows, w, heightMap.height, v);
      ReadCell(heightMap, rows, v);
      if v in found {
        var k :| 0 <= k < |found| && found[k] == v;
      }
    }
    TrailheadsExact(rows, w, heightMap.height, Vec2(0, 0));
    IncreasingUnique(w, found, Trailheads(rows));
  }

  /** The sum of the trailheads' scores. */
  function SumScores(rows: seq<seq<int>>, trailheads: seq<Vec2>, partTwo: bool): nat
    requires Digits(rows) && AllOnMap(rows, trailheads)
  {
    if trailheads == [] then 0
    else SumScores(rows, trailheads[..|trailheads| - 1], partTwo) + Score(rows, trailheads[|trailheads| - 1], partTwo)
  }

  /** `part_one`: the first exception of the row loop, otherwise the sum of the trailheads' scores. */
  ghost function Answer(lines: seq<string>, partTwo: bool): Result<int>
  {
    match RowsError(lines, 0)
    case Some(e) => Err(e)
    case None => Ok(SumScores(Heights(lines), Trailheads(Heights(lines)), partTwo))
  }

  /** Without an exception the height map is a rectangle of digits the size of the lines. */
  lemma HeightsSized(lines: seq<string>)
    requires RowsError(lines, 0).None?
    ensures Digits(Heights(lines)) && Sized(Heights(lines), if lines == [] then 0 else |lines[0]|, |lines|)
  {
    RowsFine(lines, 0);
  }

  /** The loop over the trailheads of `part_one`, adding up their scores. */
  method SumTrailScores(heightMap: Grid<int>, ghost rows: seq<seq<int>>, trailheads: seq<Vec2>, partTwo: bool)
    returns (result: int)
    requires Holds(heightMap, rows) && Digits(rows) && Sized(rows, heightMap.width, heightMap.height)
    requires forall k :: 0 <= k < |trailheads| ==> Cell(rows, trailheads[k]) == Some(0)
    ensures AllOnMap(rows, trailheads) && result == SumScores(rows, trailheads, partTwo)
  {
    result := 0;
    for i := 0 to |trailheads|
      invariant AllOnMap(rows, trailheads[..i]) && result == SumScores(rows, trailheads[..i], partTwo)
    {
      assert trailheads[..i + 1][..i] == trailheads[..i];
      var score := TrailScore(heightMap, rows, trailheads[i], partTwo);
      result := result + score;
    }
    assert trailheads[..|trailheads|] == trailheads;
  }

  method PartOne(lines: seq<string>, partTwo: bool) returns (r: Result<int>)
    ensures r == Answer(lines, partTwo)
  {
    var heightMap :- BuildHeightMap(lines);
    ghost var rows := Heights(lines);
    HeightsSized(lines);
    var trailheads := heightMap.FindElemPositions(0);
    TrailheadsFound(heightMap, rows, trailheads);
    var result := SumTrailScores(heightMap, rows, trailheads, partTwo);
    r := Ok(result);
  }

  /** `part_two`: part one counting every path. */
  method PartTwo(lines: seq<string>) returns (r: Result<int>)
    ensures r == Answer(lines, true)
  {
    r := PartOne(lines, true);
  }
}
