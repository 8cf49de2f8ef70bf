/**
 * Day 8 (day-08/day-08.cpp): antennas are the cells other than '.', grouped
 * by their character.  Every pair of antennas of one kind creates antinodes:
 * in part one the two cells twice as far from one antenna as from the other,
 * in part two every cell on the line through both at a whole multiple of
 * their distance.  The answer is the number of distinct antinodes on the map.
 */
module Day08 {
  import opened Wrappers
  import opened Vec
  import opened Grids
  import opened LinesGrid

  // ---------------------------------------------------------------------------
  // The antinodes of the map
  // ---------------------------------------------------------------------------

  /** The cells of the map. */
  function MapCells(lines: seq<string>): set<Vec2>
  {
    set x, y | 0 <= y < |lines| && 0 <= x < |lines[y]| :: Vec2(x, y)
  }

  lemma InMapCells(lines: seq<string>, p: Vec2)
    ensures p in MapCells(lines) <==> Cell(lines, p).Some?
  {
    if Cell(lines, p).Some? {
      assert p == Vec2(p.x, p.y);
    }
  }

  /** An antenna of kind c stands at p. */
  predicate Antenna(lines: seq<string>, c: char, p: Vec2)
  {
    c != '.' && Cell(lines, p) == Some(c)
  }

  /** Two different antennas of the same kind. */
  predicate Pair(lines: seq<string>, a: Vec2, b: Vec2)
  {
    a != b && Cell(lines, a).Some? && Antenna(lines, Cell(lines, a).value, b)
  }

  /** The cell beyond a, as far from a as b is: `b + 2 * (a - b)`. */
  function Behind(a: Vec2, b: Vec2): Vec2
  {
    Add(b, Scale(2, Sub(a, b)))
  }

  /** The point `a + k * (a - b)`. */
  function Point(a: Vec2, b: Vec2, k: int): Vec2
  {
    Add(a, Scale(k, Sub(a, b)))
  }

  /** p is a + k * (a - b) for some whole k. */
  ghost predicate OnLine(a: Vec2, b: Vec2, p: Vec2)
  {
    exists k: int :: p == Point(a, b, k)
  }

  /** The antinodes of the pair (a, b) on the map. */
  ghost function Contribution(lines: seq<string>, partTwo: bool, a: Vec2, b: Vec2): set<Vec2>
  {
    if !partTwo then set p | p in MapCells(lines) && (p == Behind(a, b) || p == Behind(b, a))
    else set p | p in MapCells(lines) && OnLine(a, b, p)
  }

  /** The cells of the map that are antinodes of some pair of antennas of one kind. */
  ghost function Antinodes(lines: seq<string>, partTwo: bool): set<Vec2>
  {
    set p | p in MapCells(lines) && exists a, b :: Pair(lines, a, b) && p in Contribution(lines, partTwo, a, b)
  }

  /** `part_one(lines, is_part_two)`: invalid_argument for ragged lines, otherwise the number of antinodes. */
  ghost function Answer(lines: seq<string>, partTwo: bool): Result<int>
  {
    if !Rect(lines) then Err(InvalidArgument) else Ok(|Antinodes(lines, partTwo)|)
  }

  /** The pair (b, a) has the antinodes of (a, b): each pair needs handling once only. */
  lemma ContributionSymmetric(lines: seq<string>, partTwo: bool, a: Vec2, b: Vec2)
    ensures Contribution(lines, partTwo, a, b) == Contribution(lines, partTwo, b, a)
  {
    if partTwo {
      forall p | OnLine(a, b, p) ensures OnLine(b, a, p) {
        var k :| p == Point(a, b, k);
        assert p == Point(b, a, -1 - k);
      }
      forall p | OnLine(b, a, p) ensures OnLine(a, b, p) {
        var k :| p == Point(b, a, k);
        assert p == Point(a, b, -1 - k);
      }
    }
  }

  /** In part two both antennas of a pair are antinodes themselves. */
  lemma AntennasAreAntinodes(lines: seq<string>, a: Vec2, b: Vec2)
    requires Pair(lines, a, b)
    ensures a in Antinodes(lines, true) && b in Antinodes(lines, true)
  {
    InMapCells(lines, a);
    InMapCells(lines, b);
    assert a == Point(a, b, 0);
    assert b == Point(a, b, -1);
    assert a in Contribution(lines, true, a, b);
    assert b in Contribution(lines, true, a, b);
  }

  /** Every part-one antinode is a part-two antinode. */
  lemma PartOneWithinPartTwo(lines: seq<string>)
    ensures Antinodes(lines, false) <= Antinodes(lines, true)
  {
    forall p | p in Antinodes(lines, false) ensures p in Antinodes(lines, true) {
      var a, b :| Pair(lines, a, b) && p in Contribution(lines, false, a, b);
      if p == Behind(a, b) {
        assert p == Point(a, b, 1);
      } else {
        assert p == Point(a, b, -2);
      }
      assert p in Contribution(lines, true, a, b);
    }
  }

  // ---------------------------------------------------------------------------
  // Grouping the antennas
  // ---------------------------------------------------------------------------

  predicate Distinct(s: seq<Vec2>)
  {
    forall i, j :: 0 <= i < j < |s| ==> s[i] != s[j]
  }

  /** Each kind maps to its antennas, each listed once. */
  ghost predicate Grouped(lines: seq<string>, m: map<char, seq<Vec2>>)
  {
    (forall c, q :: Antenna(lines, c, q) ==> c in m) &&
    (forall c :: c in m ==> Distinct(m[c]) && forall q :: q in m[c] <==> Antenna(lines, c, q))
  }

  /** The `foreach` over the grid in row-major order that collects the antennas of each kind. */
  method GroupAntennas(grid: Grid<char>, ghost lines: seq<string>) returns (m: map<char, seq<Vec2>>)
    requires Holds(grid, lines)
    ensures Grouped(lines, m)
  {
    m := map[];
    var i := 0;
    while i < |grid.data|
      invariant 0 <= i <= |grid.data|
      invariant forall c :: c in m ==> Distinct(m[c])
      invariant forall c, q :: c in m && q in m[c] ==>
                  Antenna(lines, c, q) && grid.PosOnGrid(q.x, q.y) && grid.CalcIdx(q.x, q.y) < i
      invariant forall k :: 0 <= k < i && grid.data[k] != '.' ==>
                  grid.data[k] in m && grid.IdxToPos(k) in m[grid.data[k]]
    {
      var pos := grid.IdxToPos(i);
      var elem := grid.data[i];
      assert grid.TryGet(pos.x, pos.y) == Cell(lines, Vec2(pos.x, pos.y));
      if elem != '.' {
        if elem in m {
          m := m[elem := m[elem] + [pos]];
        } else {
          m := m[elem := [pos]];
        }
      }
      i := i + 1;
    }
    forall c, q | Antenna(lines, c, q) ensures c in m && q in m[c] {
      assert grid.TryGet(q.x, q.y) == Cell(lines, Vec2(q.x, q.y));
      RowMajor(grid.width, grid.height, q.x, q.y);
      assert grid.IdxToPos(grid.CalcIdx(q.x, q.y)) == q;
    }
  }

  // ---------------------------------------------------------------------------
  // The two ways of handling a pair
  // ---------------------------------------------------------------------------

  /** `handle_pair_p1`: inserts `b + 2 * (a - b)` and `a + 2 * (b - a)` when they are on the grid. */
  method HandlePairOne(grid: Grid<char>, ghost lines: seq<string>, a: Vec2, b: Vec2, s: set<Vec2>)
    returns (t: set<Vec2>)
    requires Holds(grid, lines)
    ensures t == s + Contribution(lines, false, a, b)
  {
    t := s;
    var behindA := Behind(a, b);
    var behindB := Behind(b, a);
    var candidates := [behindA, behindB];
    ghost var added: set<Vec2> := {};
    for k := 0 to 2
      invariant t == s + added
      invariant added == set p | p in MapCells(lines) && p in candidates[..k]
    {
      var candidate := candidates[k];
      InMapCells(lines, candidate);
      assert grid.TryGet(candidate.x, candidate.y) == Cell(lines, Vec2(candidate.x, candidate.y));
      assert candidates[..k + 1] == candidates[..k] + [candidate];
      if grid.PosOnGrid(candidate.x, candidate.y) {
        t := t + {candidate};
        added := added + {candidate};
      }
    }
    assert candidates[..2] == [Behind(a, b), Behind(b, a)];
  }

  /** The j-th cell of the walk from a in direction dir: `a + (j * dir) * (a - b)`. */
  function RayPoint(a: Vec2, b: Vec2, dir: int, j: int): Vec2
  {
    Point(a, b, j * dir)
  }

  /** The first n cells of the walk. */
  ghost function RayPoints(a: Vec2, b: Vec2, dir: int, n: nat): set<Vec2>
  {
    set j | 0 <= j < n :: RayPoint(a, b, dir, j)
  }

  /** The cells of the map on the walk from a in direction dir. */
  ghost function Ray(lines: seq<string>, a: Vec2, b: Vec2, dir: int): set<Vec2>
  {
    set p | p in MapCells(lines) && exists k: nat :: p == RayPoint(a, b, dir, k)
  }

  /** p lies in the w by h rectangle. */
  predicate Inside(w: int, h: int, p: Vec2)
  {
    0 <= p.x < w && 0 <= p.y < h
  }

  /** The cells of a grid holding the lines are the cells of the map. */
  lemma OnMap(grid: Grid<char>, lines: seq<string>, p: Vec2)
    requires Holds(grid, lines)
    ensures Inside(grid.width, grid.height, p) <==> p in MapCells(lines)
  {
    ReadCell(grid, lines, p);
    InMapCells(lines, p);
  }

  /** A coordinate between two in [0, w) is in [0, w). */
  lemma Between(x0: int, c: int, j: int, k: int, w: int)
    requires 0 <= x0 < w && 0 <= x0 + k * c < w && 0 <= j <= k
    ensures 0 <= x0 + j * c < w
  {
    if c >= 0 {
      MulLe(0, j, c);
      MulLe(j, k, c);
    } else {
      MulLe(0, j, -c);
      MulLe(j, k, -c);
    }
  }

  /** A walk from x0 in steps c != 0 stays in [0, w) for fewer than w steps. */
  lemma StepsBound(x0: int, c: int, k: nat, w: int)
    requires c != 0 && 0 <= x0 < w && 0 <= x0 + k * c < w
    ensures k < w
  {
    if c > 0 {
      MulLe(1, c, k);
    } else {
      MulLe(1, -c, k);
    }
  }

  /** The coordinates of the j-th cell of the walk, as steps of `dir * (a - b)`. */
  lemma RayCoords(a: Vec2, b: Vec2, dir: int, j: int)
    ensures RayPoint(a, b, dir, j).x == a.x + j * (dir * (a.x - b.x))
    ensures RayPoint(a, b, dir, j).y == a.y + j * (dir * (a.y - b.y))
  {
    assert (j * dir) * (a.x - b.x) == j * (dir * (a.x - b.x));
    assert (j * dir) * (a.y - b.y) == j * (dir * (a.y - b.y));
  }

  /** The rectangle is convex: a cell of the walk between two inside it is inside it. */
  lemma RayBetween(w: int, h: int, a: Vec2, b: Vec2, dir: int, j: int, k: int)
    requires Inside(w, h, a) && Inside(w, h, RayPoint(a, b, dir, k)) && 0 <= j <= k
    ensures Inside(w, h, RayPoint(a, b, dir, j))
  {
    RayCoords(a, b, dir, k);
    RayCoords(a, b, dir, j);
    Between(a.x, dir * (a.x - b.x), j, k, w);
    Between(a.y, dir * (a.y - b.y), j, k, h);
  }

  /** A walk from a away from or towards b != a leaves the rectangle within w + h steps. */
  lemma RayLength(w: int, h: int, a: Vec2, b: Vec2, dir: int, k: nat)
    requires a != b && (dir == 1 || dir == -1)
    requires Inside(w, h, a) && Inside(w, h, RayPoint(a, b, dir, k))
    ensures k < w + h
  {
    RayCoords(a, b, dir, k);
    if a.x != b.x {
      StepsBound(a.x, dir * (a.x - b.x), k, w);
    } else {
      StepsBound(a.y, dir * (a.y - b.y), k, h);
    }
  }

  /** The walk of `handle_pair_p2` in one direction: inserts cells until it leaves the grid. */
  method WalkRay(grid: Grid<char>, ghost lines: seq<string>, a: Vec2, b: Vec2, dir: int, s: set<Vec2>)
    returns (t: set<Vec2>)
    requires Holds(grid, lines) && a != b && (dir == 1 || dir == -1) && grid.PosOnGrid(a.x, a.y)
    ensures t == s + Ray(lines, a, b, dir)
  {
    t := s;
    var candidate := a;
    var n := 1;
    assert a == RayPoint(a, b, dir, 0);
    while grid.PosOnGrid(candidate.x, candidate.y)
      invariant n >= 1 && candidate == RayPoint(a, b, dir, n - 1)
      invariant t == s + RayPoints(a, b, dir, n - 1)
      invariant forall j :: 0 <= j < n - 1 ==> Inside(grid.width, grid.height, RayPoint(a, b, dir, j))
      decreases grid.width + grid.height + 1 - n
    {
      RayLength(grid.width, grid.height, a, b, dir, n - 1);
      assert RayPoints(a, b, dir, n) == RayPoints(a, b, dir, n - 1) + {candidate};
      t := t + {candidate};
      candidate := Add(a, Scale(n * dir, Sub(a, b)));
      assert candidate == RayPoint(a, b, dir, n);
      n := n + 1;
    }
    RayEnds(grid, lines, a, b, dir, n - 1);
  }

  /** When the n-th cell of the walk is off the grid, the first n cells are all the walk has on it. */
  lemma RayEnds(grid: Grid<char>, lines: seq<string>, a: Vec2, b: Vec2, dir: int, n: nat)
    requires Holds(grid, lines) && 1 <= n
    requires forall j :: 0 <= j < n ==> Inside(grid.width, grid.height, RayPoint(a, b, dir, j))
    requires !Inside(grid.width, grid.height, RayPoint(a, b, dir, n))
    ensures RayPoints(a, b, dir, n) == Ray(lines, a, b, dir)
  {
    assert RayPoint(a, b, dir, 0) == a;
    assert Inside(grid.width, grid.height, a);
    forall p | p in Ray(lines, a, b, dir) ensures p in RayPoints(a, b, dir, n) {
      var k: nat :| p == RayPoint(a, b, dir, k);
      OnMap(grid, lines, p);
      if k >= n {
        RayBetween(grid.width, grid.height, a, b, dir, n, k);
        assert false;
      }
    }
    forall p | p in RayPoints(a, b, dir, n) ensures p in Ray(lines, a, b, dir) {
      var j :| 0 <= j < n && p == RayPoint(a, b, dir, j);
      OnMap(grid, lines, p);
    }
  }

  /** The two walks from a make up the line through a and b on the map. */
  lemma RaysMakeLine(lines: seq<string>, a: Vec2, b: Vec2)
    ensures Ray(lines, a, b, 1) + Ray(lines, a, b, -1) == Contribution(lines, true, a, b)
  {
    forall p | p in Contribution(lines, true, a, b) ensures p in Ray(lines, a, b, 1) + Ray(lines, a, b, -1) {
      var k :| p == Point(a, b, k);
      if k >= 0 {
        assert p == RayPoint(a, b, 1, k);
      } else {
        var m: nat := -k;
        assert p == RayPoint(a, b, -1, m);
      }
    }
    forall p | p in Ray(lines, a, b, 1) ensures OnLine(a, b, p) {
      var k: nat :| p == RayPoint(a, b, 1, k);
      assert p == Point(a, b, k);
    }
    forall p | p in Ray(lines, a, b, -1) ensures OnLine(a, b, p) {
      var k: nat :| p == RayPoint(a, b, -1, k);
      assert p == Point(a, b, -(k as int));
    }
  }

  /** `handle_pair_p2`: walks from a away from b and towards b, inserting every cell on the grid. */
  method HandlePairTwo(grid: Grid<char>, ghost lines: seq<string>, a: Vec2, b: Vec2, s: set<Vec2>)
    returns (t: set<Vec2>)
    requires Holds(grid, lines) && a != b && grid.PosOnGrid(a.x, a.y)
    ensures t == s + Contribution(lines, true, a, b)
  {
    t := WalkRay(grid, lines, a, b, 1, s);
    t := WalkRay(grid, lines, a, b, -1, t);
    RaysMakeLine(lines, a, b);
  }

  // ---------------------------------------------------------------------------
  // All pairs
  // ---------------------------------------------------------------------------

  /** The antinodes of a pair as a function of the pair. */
  ghost function ContributionOf(lines: seq<string>, partTwo: bool): (Vec2, Vec2) -> set<Vec2>
  {
    (a: Vec2, b: Vec2) => Contribution(lines, partTwo, a, b)
  }

  /** The union of f(pos[i], pos[j]) over i < j < n. */
  ghost function RowUnion(f: (Vec2, Vec2) -> set<Vec2>, pos: seq<Vec2>, i: nat, n: nat): set<Vec2>
    requires i < |pos| && n <= |pos|
  {
    if n <= i + 1 then {} else RowUnion(f, pos, i, n - 1) + f(pos[i], pos[n - 1])
  }

  /** The union of f(pos[i], pos[j]) over i < n and i < j. */
  ghost function Tri(f: (Vec2, Vec2) -> set<Vec2>, pos: seq<Vec2>, n: nat): set<Vec2>
    requires n <= |pos|
  {
    if n == 0 then {} else Tri(f, pos, n - 1) + RowUnion(f, pos, n - 1, |pos|)
  }

  /** p is in f(pos[i], pos[j]) with i < j. */
  ghost predicate PairHit(f: (Vec2, Vec2) -> set<Vec2>, pos: seq<Vec2>, i: int, j: int, p: Vec2)
  {
    0 <= i < j < |pos| && p in f(pos[i], pos[j])
  }

  lemma {:induction false} RowUnionMembers(f: (Vec2, Vec2) -> set<Vec2>, pos: seq<Vec2>, i: nat, n: nat, p: Vec2)
    requires i < |pos| && n <= |pos|
    ensures p in RowUnion(f, pos, i, n) <==> exists j :: j < n && PairHit(f, pos, i, j, p)
    decreases n
  {
    if n > i + 1 {
      RowUnionMembers(f, pos, i, n - 1, p);
      if p in f(pos[i], pos[n - 1]) {
        assert PairHit(f, pos, i, n - 1, p);
      }
    }
  }

  lemma {:induction false} TriMembers(f: (Vec2, Vec2) -> set<Vec2>, pos: seq<Vec2>, n: nat, p: Vec2)
    requires n <= |pos|
    ensures p in Tri(f, pos, n) <==> exists i, j :: i < n && PairHit(f, pos, i, j, p)
  {
    if n > 0 {
      TriMembers(f, pos, n - 1, p);
      RowUnionMembers(f, pos, n - 1, |pos|, p);
      if exists i, j :: i < n && PairHit(f, pos, i, j, p) {
        var i, j :| i < n && PairHit(f, pos, i, j, p);
        if i == n - 1 {
          assert p in RowUnion(f, pos, n - 1, |pos|);
        }
      }
    }
  }

  /** The last row of pairs is empty. */
  lemma TriLast(f: (Vec2, Vec2) -> set<Vec2>, pos: seq<Vec2>)
    ensures Tri(f, pos, |pos|) == Tri(f, pos, if |pos| > 0 then |pos| - 1 else 0)
  {
    if |pos| > 0 {
      assert RowUnion(f, pos, |pos| - 1, |pos|) == {};
    }
  }

  lemma UnionAssoc(s: set<Vec2>, a: set<Vec2>, b: set<Vec2>)
    ensures (s + a) + b == s + (a + b)
  {
  }

  /** Handling one pair in the way of the part. */
  method HandlePair(grid: Grid<char>, ghost lines: seq<string>, partTwo: bool, a: Vec2, b: Vec2, s: set<Vec2>)
    returns (t: set<Vec2>)
    requires Holds(grid, lines) && a != b && grid.PosOnGrid(a.x, a.y)
    ensures t == s + Contribution(lines, partTwo, a, b)
  {
    if !partTwo {
      t := HandlePairOne(grid, lines, a, b, s);
    } else {
      t := HandlePairTwo(grid, lines, a, b, s);
    }
  }

  /** The inner loop over j > i: handles the pairs (positions[i], positions[j]). */
  method HandleRow(grid: Grid<char>, ghost lines: seq<string>, partTwo: bool, positions: seq<Vec2>, i: nat, s: set<Vec2>)
    returns (t: set<Vec2>)
    requires Holds(grid, lines) && Distinct(positions) && i < |positions|
    requires grid.PosOnGrid(positions[i].x, positions[i].y)
    ensures t == s + RowUnion(ContributionOf(lines, partTwo), positions, i, |positions|)
  {
    t := s;
    var a := positions[i];
    var j := i + 1;
    while j < |positions|
      invariant i + 1 <= j <= |positions|
      invariant t == s + RowUnion(ContributionOf(lines, partTwo), positions, i, j)
    {
      var b := positions[j];
      t := HandlePair(grid, lines, partTwo, a, b, t);
      assert ContributionOf(lines, partTwo)(a, b) == Contribution(lines, partTwo, a, b);
      j := j + 1;
    }
  }

  /** The two loops over i < j of one kind's antennas. */
  method HandleKind(grid: Grid<char>, ghost lines: seq<string>, partTwo: bool, positions: seq<Vec2>, s: set<Vec2>)
    returns (t: set<Vec2>)
    requires Holds(grid, lines) && Distinct(positions)
    requires forall q :: q in positions ==> grid.PosOnGrid(q.x, q.y)
    ensures t == s + Tri(ContributionOf(lines, partTwo), positions, |positions|)
  {
    t := s;
    ghost var f := ContributionOf(lines, partTwo);
    var lastI := if |positions| > 0 then |positions| - 1 else 0;
    for i := 0 to lastI
      invariant t == s + Tri(f, positions, i)
    {
      assert positions[i] in positions;
      t := HandleRow(grid, lines, partTwo, positions, i, t);
      UnionAssoc(s, Tri(f, positions, i), RowUnion(f, positions, i, |positions|));
    }
    TriLast(f, positions);
  }

  /** Every pair of one kind handled, for every kind, gives exactly the antinodes. */
  lemma AllKinds(lines: seq<string>, partTwo: bool, m: map<char, seq<Vec2>>, t: set<Vec2>)
    requires Grouped(lines, m)
    requires forall p :: p in t <==> exists c :: c in m && p in Tri(ContributionOf(lines, partTwo), m[c], |m[c]|)
    ensures t == Antinodes(lines, partTwo)
  {
    forall p | p in t ensures p in Antinodes(lines, partTwo) {
      var c :| c in m && p in Tri(ContributionOf(lines, partTwo), m[c], |m[c]|);
      TriMembers(ContributionOf(lines, partTwo), m[c], |m[c]|, p);
      var i, j :| i < |m[c]| && PairHit(ContributionOf(lines, partTwo), m[c], i, j, p);
      assert Antenna(lines, c, m[c][i]) && Antenna(lines, c, m[c][j]);
      assert Pair(lines, m[c][i], m[c][j]);
      InMapCells(lines, p);
    }
    forall p | p in Antinodes(lines, partTwo) ensures p in t {
      var a, b :| Pair(lines, a, b) && p in Contribution(lines, partTwo, a, b);
      var c := Cell(lines, a).value;
      assert Antenna(lines, c, a) && Antenna(lines, c, b);
      var ia :| 0 <= ia < |m[c]| && m[c][ia] == a;
      var ib :| 0 <= ib < |m[c]| && m[c][ib] == b;
      TriMembers(ContributionOf(lines, partTwo), m[c], |m[c]|, p);
      if ia < ib {
        assert PairHit(ContributionOf(lines, partTwo), m[c], ia, ib, p);
      } else {
        ContributionSymmetric(lines, partTwo, a, b);
        assert PairHit(ContributionOf(lines, partTwo), m[c], ib, ia, p);
      }
    }
  }

  /** `part_one(lines, is_part_two)`: groups the antennas, handles every pair of each kind and counts. */
  method PartOne(lines: seq<string>, partTwo: bool) returns (r: Result<int>)
    ensures r == Answer(lines, partTwo)
  {
    var built := FromLines(lines);
    if built.Err? {
      return Err(built.error);
    }
    var grid := built.value;
    var antennaPositions := GroupAntennas(grid, lines);
    var antinodePositions: set<Vec2> := {};
    var kinds := antennaPositions.Keys;
    ghost var done: set<char> := {};
    while kinds != {}
      invariant Holds(grid, lines) && Grouped(lines, antennaPositions)
      invariant kinds + done == antennaPositions.Keys && kinds !! done
      invariant forall p :: p in antinodePositions <==>
                  exists c :: c in done && p in Tri(ContributionOf(lines, partTwo), antennaPositions[c], |antennaPositions[c]|)
      decreases |kinds|
    {
      var kind :| kind in kinds;
      var positions := antennaPositions[kind];
      forall q | q in positions ensures grid.PosOnGrid(q.x, q.y) {
        ReadCell(grid, lines, q);
      }
      antinodePositions := HandleKind(grid, lines, partTwo, positions, antinodePositions);
      kinds := kinds - {kind};
      done := done + {kind};
    }
    AllKinds(lines, partTwo, antennaPositions, antinodePositions);
    r := Ok(|antinodePositions|);
  }

  /** `part_two`: part one with the antinodes of whole lines. */
  method PartTwo(lines: seq<string>) returns (r: Result<int>)
    ensures r == Answer(lines, true)
  {
    r := PartOne(lines, true);
  }
}
