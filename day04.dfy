/**
 * Day 4 (day-04/day-04.cpp): a word search.  Part one counts the readings of
 * "XMAS" in the eight directions from every 'X'; part two counts the 'A's at
 * the centre of two diagonal "MAS" (either way round) forming an X.
 */
module Day04 {
  import opened Wrappers
  import opened Vec
  import opened Grids
  import opened LinesGrid

  const XMAS := "XMAS"

  // ---------------------------------------------------------------------------
  // Part one: XMAS in eight directions
  // ---------------------------------------------------------------------------

  /** The unit step of direction i, in the order up, down, right, left, up-right, up-left, down-right, down-left. */
  function Unit(i: nat): Vec2
    requires i < 8
  {
    [Vec2(0, -1), Vec2(0, 1), Vec2(1, 0), Vec2(-1, 0), Vec2(1, -1), Vec2(-1, -1), Vec2(1, 1), Vec2(-1, 1)][i]
  }

  /** Letter d of "XMAS" stands d steps from pos in direction i. */
  predicate LetterAt(lines: seq<string>, pos: Vec2, i: nat, d: nat)
    requires i < 8 && d < 4
  {
    Cell(lines, Add(pos, Scale(d, Unit(i)))) == Some(XMAS[d])
  }

  /** "XMAS" reads from pos in direction i. */
  predicate ReadsXmas(lines: seq<string>, pos: Vec2, i: nat)
    requires i < 8
  {
    forall d :: 0 <= d < 4 ==> LetterAt(lines, pos, i, d)
  }

  /** How many of the first n letters of "XMAS" stand in place in direction i. */
  function Hits(lines: seq<string>, pos: Vec2, i: nat, n: nat): nat
    requires i < 8 && n <= 4
  {
    if n == 0 then 0 else Hits(lines, pos, i, n - 1) + if LetterAt(lines, pos, i, n - 1) then 1 else 0
  }

  /** How many of the first k directions read "XMAS". */
  function CountDirs(lines: seq<string>, pos: Vec2, k: nat): nat
    requires k <= 8
  {
    if k == 0 then 0 else CountDirs(lines, pos, k - 1) + if ReadsXmas(lines, pos, k - 1) then 1 else 0
  }

  /** The number of directions in which "XMAS" reads from pos. */
  function XmasScore(lines: seq<string>, pos: Vec2): nat
  {
    CountDirs(lines, pos, 8)
  }

  /** All n letters counted exactly when each of them stands in place. */
  lemma {:induction false} HitsAll(lines: seq<string>, pos: Vec2, i: nat, n: nat)
    requires i < 8 && n <= 4
    ensures Hits(lines, pos, i, n) <= n
    ensures Hits(lines, pos, i, n) == n <==> forall d :: 0 <= d < n ==> LetterAt(lines, pos, i, d)
  {
    if n > 0 {
      HitsAll(lines, pos, i, n - 1);
    }
  }

  /** At most eight readings start at a cell, and none unless it holds an 'X'. */
  lemma {:induction false} XmasScoreBounds(lines: seq<string>, pos: Vec2)
    ensures XmasScore(lines, pos) <= 8
    ensures Cell(lines, pos) != Some('X') ==> XmasScore(lines, pos) == 0
  {
    CountDirsBounds(lines, pos, 8);
  }

  lemma {:induction false} CountDirsBounds(lines: seq<string>, pos: Vec2, k: nat)
    requires k <= 8
    ensures CountDirs(lines, pos, k) <= k
    ensures Cell(lines, pos) != Some('X') ==> CountDirs(lines, pos, k) == 0
  {
    if k > 0 {
      CountDirsBounds(lines, pos, k - 1);
      assert Add(pos, Scale(0, Unit(k - 1))) == pos;
      if Cell(lines, pos) != Some('X') {
        assert !LetterAt(lines, pos, k - 1, 0);
      }
    }
  }

  /**
   * The `match_xmas` lambda: eight counters, one per direction; for each
   * letter of "XMAS" every direction whose cell at that distance holds the
   * letter gains one; the directions that gained four count.
   */
  method MatchXmas(grid: Grid<char>, ghost lines: seq<string>, pos: Vec2) returns (n: int)
    requires Holds(grid, lines)
    ensures n == XmasScore(lines, pos)
  {
    var matched := new int[8](_ => 0);
    var d := 0;
    while d < 4
      invariant 0 <= d <= 4
      invariant forall j :: 0 <= j < 8 ==> matched[j] == Hits(lines, pos, j, d)
    {
      MatchLetter(grid, lines, pos, matched, d);
      d := d + 1;
    }
    n := 0;
    var i := 0;
    while i < 8
      invariant 0 <= i <= 8
      invariant n == CountDirs(lines, pos, i)
      invariant forall j :: 0 <= j < 8 ==> matched[j] == Hits(lines, pos, j, 4)
    {
      HitsAll(lines, pos, i, 4);
      if matched[i] == |XMAS| {
        n := n + 1;
      }
      i := i + 1;
    }
  }

  /** One for a letter in place, zero otherwise. */
  function Bump(lines: seq<string>, pos: Vec2, i: nat, d: nat): nat
    requires i < 8 && d < 4
  {
    if LetterAt(lines, pos, i, d) then 1 else 0
  }

  /** One round of the outer loop of `match_xmas`: letter d checked in all eight directions. */
  method MatchLetter(grid: Grid<char>, ghost lines: seq<string>, pos: Vec2, matched: array<int>, d: nat)
    requires Holds(grid, lines) && matched.Length == 8 && d < 4
    modifies matched
    ensures forall j :: 0 <= j < 8 ==> matched[j] == old(matched[j]) + Bump(lines, pos, j, d)
  {
    ghost var before := matched[..];
    var i := 0;
    while i < 8
      invariant 0 <= i <= 8
      invariant forall j :: 0 <= j < i ==> matched[j] == before[j] + Bump(lines, pos, j, d)
      invariant forall j :: i <= j < 8 ==> matched[j] == before[j]
    {
      var target := Add(pos, Scale(d, Unit(i)));
      var ch := grid.TryGetAt(target);
      ReadCell(grid, lines, target);
      if ch.Some? && ch.value == XMAS[d] {
        matched[i] := matched[i] + 1;
      }
      i := i + 1;
    }
  }

  // ---------------------------------------------------------------------------
  // Part two: two crossing MAS
  // ---------------------------------------------------------------------------

  /** The two diagonals through a centre, each as the pair of its end offsets. */
  const CROSS_DIRS: seq<(Vec2, Vec2)> := [(Vec2(1, -1), Vec2(-1, 1)), (Vec2(-1, -1), Vec2(1, 1))]

  /** Both ends of a diagonal are on the puzzle, one an 'M' and the other an 'S'. */
  predicate MasPair(lines: seq<string>, pos: Vec2, ends: (Vec2, Vec2))
  {
    var top := Cell(lines, Add(pos, ends.0));
    var bottom := Cell(lines, Add(pos, ends.1));
    top.Some? && bottom.Some? &&
      ((top.value == 'M' && bottom.value == 'S') || (top.value == 'S' && bottom.value == 'M'))
  }

  /** Both diagonals through pos read "MAS" one way or the other. */
  predicate CrossMas(lines: seq<string>, pos: Vec2)
  {
    MasPair(lines, pos, CROSS_DIRS[0]) && MasPair(lines, pos, CROSS_DIRS[1])
  }

  /** The `match_cross_mas` lambda: 1 exactly when both diagonals pass, else 0. */
  method MatchCrossMas(grid: Grid<char>, ghost lines: seq<string>, pos: Vec2) returns (r: int)
    requires Holds(grid, lines)
    ensures r == if CrossMas(lines, pos) then 1 else 0
  {
    var k := 0;
    while k < |CROSS_DIRS|
      invariant 0 <= k <= |CROSS_DIRS|
      invariant forall j :: 0 <= j < k ==> MasPair(lines, pos, CROSS_DIRS[j])
    {
      var dirPair := CROSS_DIRS[k];
      var chTop := grid.TryGetAt(Add(pos, dirPair.0));
      var chBottom := grid.TryGetAt(Add(pos, dirPair.1));
      if chTop.None? || chBottom.None? {
        return 0;
      }
      var masCross := (chTop.value == 'M' && chBottom.value == 'S') || (chTop.value == 'S' && chBottom.value == 'M');
      if !masCross {
        return 0;
      }
      k := k + 1;
    }
    r := 1;
  }

  /** A cross needs all four diagonal neighbours: two 'M' and two 'S', each pair on one diagonal. */
  lemma CrossMasCorners(lines: seq<string>, pos: Vec2)
    requires CrossMas(lines, pos)
    ensures Cell(lines, Add(pos, Vec2(1, -1))).Some? && Cell(lines, Add(pos, Vec2(-1, 1))).Some?
    ensures Cell(lines, Add(pos, Vec2(-1, -1))).Some? && Cell(lines, Add(pos, Vec2(1, 1))).Some?
    ensures {Cell(lines, Add(pos, Vec2(1, -1))).value, Cell(lines, Add(pos, Vec2(-1, 1))).value} == {'M', 'S'}
    ensures {Cell(lines, Add(pos, Vec2(-1, -1))).value, Cell(lines, Add(pos, Vec2(1, 1))).value} == {'M', 'S'}
  {
  }

  // ---------------------------------------------------------------------------
  // Candidate positions in row-major order
  // ---------------------------------------------------------------------------

  /** The storage index of p in a grid of width w: `calc_idx`. */
  function Key(p: Vec2, w: int): int
  {
    p.x + p.y * w
  }

  /** Strictly increasing storage index. */
  predicate Increasing(ps: seq<Vec2>, w: int)
  {
    forall k, l :: 0 <= k < l < |ps| ==> Key(ps[k], w) < Key(ps[l], w)
  }

  /** The cells among the first n of row y that hold elem, left to right. */
  function RowMatches(row: string, y: int, elem: char, n: nat): seq<Vec2>
    requires n <= |row|
  {
    if n == 0 then []
    else RowMatches(row, y, elem, n - 1) + if row[n - 1] == elem then [Vec2(n - 1, y)] else []
  }

  /** The cells of the first m lines that hold elem, in row-major order. */
  function GridMatches(lines: seq<string>, elem: char, m: nat): seq<Vec2>
    requires m <= |lines|
  {
    if m == 0 then []
    else GridMatches(lines, elem, m - 1) + RowMatches(lines[m - 1], m - 1, elem, |lines[m - 1]|)
  }

  lemma {:induction false} RowMatchesAre(row: string, y: int, elem: char, n: nat)
    requires n <= |row|
    ensures forall k :: 0 <= k < |RowMatches(row, y, elem, n)| ==>
              var p := RowMatches(row, y, elem, n)[k]; p.y == y && 0 <= p.x < n && row[p.x] == elem
    ensures forall x :: 0 <= x < n && row[x] == elem ==> Vec2(x, y) in RowMatches(row, y, elem, n)
    ensures forall k, l :: 0 <= k < l < |RowMatches(row, y, elem, n)| ==>
              RowMatches(row, y, elem, n)[k].x < RowMatches(row, y, elem, n)[l].x
  {
    if n > 0 {
      RowMatchesAre(row, y, elem, n - 1);
    }
  }

  lemma GridMatchesAre(lines: seq<string>, elem: char, w: nat, m: nat)
    requires Rect(lines) && m <= |lines| && (lines != [] ==> w == |lines[0]|)
    ensures forall k :: 0 <= k < |GridMatches(lines, elem, m)| ==>
              var p := GridMatches(lines, elem, m)[k]; 0 <= p.y < m && 0 <= p.x < w && Cell(lines, p) == Some(elem)
    ensures forall x, y :: 0 <= y < m && Cell(lines, Vec2(x, y)) == Some(elem) ==> Vec2(x, y) in GridMatches(lines, elem, m)
  {
    GridMatchesSound(lines, elem, w, m);
    GridMatchesComplete(lines, elem, m);
  }

  /** Every listed cell lies in the first m rows and holds elem. */
  lemma {:induction false} GridMatchesSound(lines: seq<string>, elem: char, w: nat, m: nat)
    requires Rect(lines) && m <= |lines| && (lines != [] ==> w == |lines[0]|)
    ensures forall k :: 0 <= k < |GridMatches(lines, elem, m)| ==>
              var p := GridMatches(lines, elem, m)[k]; 0 <= p.y < m && 0 <= p.x < w && Cell(lines, p) == Some(elem)
  {
    if m > 0 {
      var y := m - 1;
      GridMatchesSound(lines, elem, w, y);
      RowMatchesAre(lines[y], y, elem, |lines[y]|);
      var a := GridMatches(lines, elem, y);
      var b := RowMatches(lines[y], y, elem, |lines[y]|);
      assert GridMatches(lines, elem, m) == a + b;
      forall k | 0 <= k < |a + b|
        ensures var p: Vec2 := (a + b)[k]; 0 <= p.y < m && 0 <= p.x < w && Cell(lines, p) == Some(elem)
      {
        if k < |a| {
          assert (a + b)[k] == a[k];
        } else {
          var p := b[k - |a|];
          assert (a + b)[k] == p;
          assert p.y == y && 0 <= p.x < |lines[y]| && lines[y][p.x] == elem;
        }
      }
    }
  }

  /** Every cell of the first m rows that holds elem is listed. */
  lemma {:induction false} GridMatchesComplete(lines: seq<string>, elem: char, m: nat)
    requires m <= |lines|
    ensures forall x, y :: 0 <= y < m && Cell(lines, Vec2(x, y)) == Some(elem) ==> Vec2(x, y) in GridMatches(lines, elem, m)
  {
    if m > 0 {
      GridMatchesComplete(lines, elem, m - 1);
      RowMatchesAre(lines[m - 1], m - 1, elem, |lines[m - 1]|);
      var a := GridMatches(lines, elem, m - 1);
      var b := RowMatches(lines[m - 1], m - 1, elem, |lines[m - 1]|);
      assert GridMatches(lines, elem, m) == a + b;
      forall x, y | 0 <= y < m && Cell(lines, Vec2(x, y)) == Some(elem)
        ensures Vec2(x, y) in a + b
      {
        if y < m - 1 {
          assert Vec2(x, y) in a;
        } else {
          assert 0 <= x < |lines[y]| && lines[y][x] == elem;
          assert Vec2(x, y) in b;
        }
      }
    }
  }

  /** Every cell of an earlier row comes before every cell of a later row. */
  lemma KeyEarlierRow(p: Vec2, q: Vec2, w: int)
    requires 0 <= p.x < w && 0 <= q.x && 0 <= p.y < q.y
    ensures Key(p, w) < Key(q, w)
  {
    MulLe(p.y + 1, q.y, w);
  }

  lemma {:induction false} GridMatchesIncreasing(lines: seq<string>, elem: char, w: nat, m: nat)
    requires Rect(lines) && m <= |lines| && (lines != [] ==> w == |lines[0]|)
    ensures Increasing(GridMatches(lines, elem, m), w)
  {
    if m > 0 {
      var y := m - 1;
      GridMatchesIncreasing(lines, elem, w, y);
      GridMatchesAre(lines, elem, w, y);
      RowMatchesAre(lines[y], y, elem, |lines[y]|);
      var a := GridMatches(lines, elem, y);
      var b := RowMatches(lines[y], y, elem, |lines[y]|);
      assert GridMatches(lines, elem, m) == a + b;
      forall k, l | 0 <= k < l < |a| + |b|
        ensures Key((a + b)[k], w) < Key((a + b)[l], w)
      {
        if l < |a| {
          assert (a + b)[k] == a[k] && (a + b)[l] == a[l];
        } else if k < |a| {
          assert (a + b)[k] == a[k] && (a + b)[l] == b[l - |a|];
          KeyEarlierRow(a[k], b[l - |a|], w);
        } else {
          assert (a + b)[k] == b[k - |a|] && (a + b)[l] == b[l - |a|];
        }
      }
    }
  }

  /** Members of the tail of a strictly increasing sequence: all but its head. */
  lemma TailMembers(ps: seq<Vec2>, w: int)
    requires ps != [] && Increasing(ps, w)
    ensures forall p :: p in ps[1..] <==> p in ps && p != ps[0]
  {
    forall p
      ensures p in ps[1..] <==> p in ps && p != ps[0]
    {
      if p in ps[1..] {
        var k :| 0 <= k < |ps| - 1 && ps[1..][k] == p;
        assert Key(ps[0], w) < Key(ps[k + 1], w);
      }
      if p in ps && p != ps[0] {
        var k :| 0 <= k < |ps| && ps[k] == p;
        assert ps[1..][k - 1] == p;
      }
    }
  }

  /** Two strictly increasing sequences with the same members are equal. */
  lemma {:induction false} SameIncreasing(ps: seq<Vec2>, qs: seq<Vec2>, w: int)
    requires Increasing(ps, w) && Increasing(qs, w)
    requires forall p :: p in ps <==> p in qs
    ensures ps == qs
    decreases |ps|
  {
    if ps != [] {
      assert ps[0] in qs;
    }
    if qs != [] {
      assert qs[0] in ps;
    }
    if ps != [] {
      var j :| 0 <= j < |qs| && qs[j] == ps[0];
      var i :| 0 <= i < |ps| && ps[i] == qs[0];
      assert Key(qs[0], w) <= Key(qs[j], w);
      assert Key(ps[0], w) <= Key(ps[i], w);
      assert j == 0;
      TailMembers(ps, w);
      TailMembers(qs, w);
      SameIncreasing(ps[1..], qs[1..], w);
      assert ps == [ps[0]] + ps[1..];
      assert qs == [qs[0]] + qs[1..];
    }
  }

  /** The positions `find_elem_positions` returns are the row-major matches of the lines. */
  lemma CandidatesAreMatches(grid: Grid<char>, lines: seq<string>, elem: char, positions: seq<Vec2>)
    requires Holds(grid, lines) && Rect(lines)
    requires lines != [] ==> grid.width == |lines[0]|
    requires forall k :: 0 <= k < |positions| ==> grid.TryGet(positions[k].x, positions[k].y) == Some(elem)
    requires forall x, y :: grid.TryGet(x, y) == Some(elem) ==> Vec2(x, y) in positions
    requires forall k, l :: 0 <= k < l < |positions| ==>
               grid.CalcIdx(positions[k].x, positions[k].y) < grid.CalcIdx(positions[l].x, positions[l].y)
    ensures positions == GridMatches(lines, elem, |lines|)
  {
    var w := grid.width;
    GridMatchesAre(lines, elem, w, |lines|);
    GridMatchesIncreasing(lines, elem, w, |lines|);
    var gm := GridMatches(lines, elem, |lines|);
    forall p
      ensures p in positions <==> p in gm
    {
      if p in positions {
        var k :| 0 <= k < |positions| && positions[k] == p;
        assert Cell(lines, Vec2(p.x, p.y)) == Some(elem);
      }
      if p in gm {
        var k :| 0 <= k < |gm| && gm[k] == p;
        assert grid.TryGet(p.x, p.y) == Some(elem);
      }
    }
    SameIncreasing(positions, gm, w);
  }

  // ---------------------------------------------------------------------------
  // The puzzle
  // ---------------------------------------------------------------------------

  /** What a candidate scores: its readings of "XMAS", or 1 for a cross of "MAS". */
  function Score(lines: seq<string>, pos: Vec2, partTwo: bool): int
  {
    if partTwo then (if CrossMas(lines, pos) then 1 else 0) else XmasScore(lines, pos)
  }

  function SumScores(lines: seq<string>, ps: seq<Vec2>, partTwo: bool): int
  {
    if ps == [] then 0 else SumScores(lines, ps[..|ps| - 1], partTwo) + Score(lines, ps[|ps| - 1], partTwo)
  }

  lemma SumScoresStep(lines: seq<string>, ps: seq<Vec2>, k: nat, partTwo: bool)
    requires k < |ps|
    ensures SumScores(lines, ps[..k + 1], partTwo) == SumScores(lines, ps[..k], partTwo) + Score(lines, ps[k], partTwo)
  {
    assert ps[..k + 1][..k] == ps[..k];
  }

  /** The answer: the scores of all cells holding 'X' (or 'A' in part two), in row-major order. */
  function Total(lines: seq<string>, partTwo: bool): int
  {
    SumScores(lines, GridMatches(lines, if partTwo then 'A' else 'X', |lines|), partTwo)
  }

  /** The summing loop of `part_one` over the candidate positions. */
  method SumMatches(grid: Grid<char>, ghost lines: seq<string>, candidates: seq<Vec2>, partTwo: bool)
    returns (totalMatches: int)
    requires Holds(grid, lines)
    ensures totalMatches == SumScores(lines, candidates, partTwo)
  {
    totalMatches := 0;
    var k := 0;
    while k < |candidates|
      invariant 0 <= k <= |candidates|
      invariant totalMatches == SumScores(lines, candidates[..k], partTwo)
    {
      var score := ScoreAt(grid, lines, candidates[k], partTwo);
      SumScoresStep(lines, candidates, k, partTwo);
      totalMatches := totalMatches + score;
      k := k + 1;
    }
    assert candidates[..k] == candidates;
  }

  /** `part_two ? match_cross_mas(pos) : match_xmas(pos)`. */
  method ScoreAt(grid: Grid<char>, ghost lines: seq<string>, pos: Vec2, partTwo: bool) returns (score: int)
    requires Holds(grid, lines)
    ensures score == Score(lines, pos, partTwo)
  {
    if partTwo {
      score := MatchCrossMas(grid, lines, pos);
    } else {
      score := MatchXmas(grid, lines, pos);
    }
  }

  /**
   * `part_one(lines, part_two)`: builds the grid (invalid_argument for lines
   * of unequal width), finds the 'X' (or 'A') cells and sums their scores.
   */
  method PartOne(lines: seq<string>, partTwo: bool) returns (r: Result<int>)
    ensures r.Err? <==> !Rect(lines)
    ensures r.Err? ==> r.error == InvalidArgument
    ensures r.Ok? ==> r.value == Total(lines, partTwo)
  {
    var built := FromLines(lines);
    if built.Err? {
      return Err(built.error);
    }
    var grid := built.value;
    var elem := if partTwo then 'A' else 'X';
    var candidates := grid.FindElemPositions(elem);
    CandidatesAreMatches(grid, lines, elem, candidates);
    var totalMatches := SumMatches(grid, lines, candidates, partTwo);
    r := Ok(totalMatches);
  }
}
