/**
 * Day 14 (day-14/day-14.cpp): robots walking in straight lines on a grid
 * that wraps around at its edges.  Part one moves every robot for 100
 * seconds on a 101 x 103 grid, counts the robots in each of the four
 * quadrants (robots on the middle row or column count for none) and
 * multiplies the four counts into the safety factor.
 */
module Day14 {
  import opened Wrappers
  import opened Vec

  datatype Robot = Robot(pos: Vec2, vel: Vec2)

  /** `elapsed_seconds` of `part_one`. */
  const ElapsedSeconds := 100

  /** The grid of `part_one`: 101 wide and 103 tall. */
  const Bathroom := Vec2(101, 103)

  // ---------------------------------------------------------------------------
  // Motion
  // ---------------------------------------------------------------------------

  /** C++ `%` on int: the remainder of the division truncated toward zero, which takes the sign of a. */
  function CMod(a: int, g: int): (r: int)
    requires g != 0
    ensures r < Abs(g) && -r < Abs(g)
    ensures a >= 0 ==> r >= 0
    ensures a < 0 ==> r <= 0
  {
    if a >= 0 then a % Abs(g) else -((-a) % Abs(g))
  }

  /** The truncated remainder, moved up by g when negative (the two statements per axis of `simulate_robot`). */
  function Norm(a: int, g: int): int
    requires g != 0
  {
    var r := CMod(a, g);
    if r < 0 then r + g else r
  }

  /** `simulate_robot`: where a robot stands after the given seconds. */
  function SimulateRobot(bot: Robot, grid: Vec2, seconds: int): Vec2
    requires grid.x != 0 && grid.y != 0
  {
    Vec2(Norm(bot.pos.x + bot.vel.x * seconds, grid.x), Norm(bot.pos.y + bot.vel.y * seconds, grid.y))
  }

  lemma MulAtLeast(g: int, n: int)
    requires g > 0 && n >= 1
    ensures g * n >= g
  {
  }

  /** Euclidean division is unique: x = g k + r with 0 <= r < g fixes the remainder. */
  lemma ModUnique(x: int, g: int, k: int, r: int)
    requires g > 0 && 0 <= r < g && x == g * k + r
    ensures x % g == r
  {
    var q := x / g;
    assert g * q + x % g == g * k + r;
    assert g * (q - k) == r - x % g;
    if q - k > 0 {
      MulAtLeast(g, q - k);
    } else if q - k < 0 {
      MulAtLeast(g, k - q);
    }
  }

  /** For a positive grid size, `simulate_robot`'s correction turns the truncated remainder into the Euclidean one. */
  lemma NormIsMod(a: int, g: int)
    requires g > 0
    ensures Norm(a, g) == a % g
    ensures 0 <= Norm(a, g) < g
  {
    if a < 0 {
      var k, c := (-a) / g, (-a) % g;
      assert -a == g * k + c;
      if c == 0 {
        assert a == g * (-k) + 0;
        ModUnique(a, g, -k, 0);
      } else {
        assert a == g * (-k - 1) + (g - c);
        ModUnique(a, g, -k - 1, g - c);
      }
    }
  }

  /** Wrapping first and adding b afterwards lands where adding b first does. */
  lemma NormShift(a: int, b: int, g: int)
    requires g > 0
    ensures Norm(Norm(a, g) + b, g) == Norm(a + b, g)
  {
    NormIsMod(a, g);
    NormIsMod(a % g + b, g);
    NormIsMod(a + b, g);
    ModAdd(a, b, g);
  }

  /** Taking the remainder before adding b does not change the remainder after. */
  lemma ModAdd(a: int, b: int, g: int)
    requires g > 0
    ensures (a % g + b) % g == (a + b) % g
  {
    var q, m := a / g, a % g + b;
    var q2 := m / g;
    assert m == g * q2 + m % g;
    assert a + b == g * q + m;
    Distrib(g, q, q2);
    ModUnique(a + b, g, q + q2, m % g);
  }

  /** For a positive grid, a simulated robot stands on the grid, at its start plus its velocity times the seconds, wrapped. */
  lemma SimulateOnGrid(bot: Robot, grid: Vec2, seconds: int)
    requires grid.x > 0 && grid.y > 0
    ensures var e := SimulateRobot(bot, grid, seconds);
      && 0 <= e.x < grid.x && 0 <= e.y < grid.y
      && e.x == (bot.pos.x + bot.vel.x * seconds) % grid.x
      && e.y == (bot.pos.y + bot.vel.y * seconds) % grid.y
  {
    NormIsMod(bot.pos.x + bot.vel.x * seconds, grid.x);
    NormIsMod(bot.pos.y + bot.vel.y * seconds, grid.y);
  }

  /** A robot simulated for s seconds and then t more seconds stands where one simulated for s + t seconds stands. */
  lemma SimulateCompose(bot: Robot, grid: Vec2, s: int, t: int)
    requires grid.x > 0 && grid.y > 0
    ensures SimulateRobot(Robot(SimulateRobot(bot, grid, s), bot.vel), grid, t) == SimulateRobot(bot, grid, s + t)
  {
    var p, v := bot.pos, bot.vel;
    NormShift(p.x + v.x * s, v.x * t, grid.x);
    NormShift(p.y + v.y * s, v.y * t, grid.y);
    Distrib(v.x, s, t);
    Distrib(v.y, s, t);
  }

  lemma Distrib(g: int, a: int, b: int)
    ensures g * a + g * b == g * (a + b)
  {
  }

  /** The `std::transform` of `part_one`: every robot's position after the given seconds. */
  function EndPositions(robots: seq<Robot>, grid: Vec2, seconds: int): (r: seq<Vec2>)
    requires grid.x != 0 && grid.y != 0
  {
    seq(|robots|, i requires 0 <= i < |robots| => SimulateRobot(robots[i], grid, seconds))
  }

  // ---------------------------------------------------------------------------
  // Quadrants
  // ---------------------------------------------------------------------------

  /**
   * Quadrant q (0 left-top, 1 left-bottom, 2 right-top, 3 right-bottom) holds the positions strictly
   * left or right of the middle column and strictly above or below the middle row.
   */
  predicate InQuadrant(pos: Vec2, grid: Vec2, q: int)
  {
    && (if q < 2 then pos.x < grid.x / 2 else pos.x > grid.x / 2)
    && (if q % 2 == 0 then pos.y < grid.y / 2 else pos.y > grid.y / 2)
  }

  /** A position lies in at most one quadrant. */
  lemma QuadrantUnique(pos: Vec2, grid: Vec2, q: int, q': int)
    requires 0 <= q < 4 && 0 <= q' < 4 && InQuadrant(pos, grid, q) && InQuadrant(pos, grid, q')
    ensures q == q'
  {
  }

  /** A position lies in some quadrant exactly when it is on neither middle line. */
  lemma QuadrantCover(pos: Vec2, grid: Vec2)
    ensures (exists q :: 0 <= q < 4 && InQuadrant(pos, grid, q)) <==> pos.x != grid.x / 2 && pos.y != grid.y / 2
  {
    if pos.x != grid.x / 2 && pos.y != grid.y / 2 {
      var q := (if pos.x < grid.x / 2 then 0 else 2) + (if pos.y < grid.y / 2 then 0 else 1);
      assert InQuadrant(pos, grid, q);
    }
  }

  /** How many of the positions lie in quadrant q. */
  function Count(ps: seq<Vec2>, grid: Vec2, q: int): (r: nat)
    ensures r <= |ps|
  {
    if ps == [] then 0 else Count(ps[..|ps| - 1], grid, q) + if InQuadrant(ps[|ps| - 1], grid, q) then 1 else 0
  }

  /** How many of the positions lie on a middle line. */
  function OnMiddle(ps: seq<Vec2>, grid: Vec2): nat
  {
    if ps == [] then 0
    else OnMiddle(ps[..|ps| - 1], grid) + if ps[|ps| - 1].x == grid.x / 2 || ps[|ps| - 1].y == grid.y / 2 then 1 else 0
  }

  /** Every position is counted exactly once: in one quadrant, or on a middle line. */
  lemma {:induction false} CountsCover(ps: seq<Vec2>, grid: Vec2)
    ensures Count(ps, grid, 0) + Count(ps, grid, 1) + Count(ps, grid, 2) + Count(ps, grid, 3) + OnMiddle(ps, grid) == |ps|
  {
    if ps != [] {
      CountsCover(ps[..|ps| - 1], grid);
      var p := ps[|ps| - 1];
      QuadrantCover(p, grid);
      if p.x != grid.x / 2 && p.y != grid.y / 2 {
        var q :| 0 <= q < 4 && InQuadrant(p, grid, q);
        forall q' | 0 <= q' < 4 && InQuadrant(p, grid, q') ensures q' == q {
          QuadrantUnique(p, grid, q, q');
        }
      }
    }
  }

  /** The product of the numbers. */
  function Product(s: seq<int>): int
  {
    if s == [] then 1 else Product(s[..|s| - 1]) * s[|s| - 1]
  }

  /** A product is 0 exactly when one factor is. */
  lemma {:induction false} ProductZero(s: seq<int>)
    ensures Product(s) == 0 <==> exists i :: 0 <= i < |s| && s[i] == 0
  {
    if s != [] {
      var init := s[..|s| - 1];
      ProductZero(init);
      if Product(init) == 0 {
        var i :| 0 <= i < |init| && init[i] == 0;
        assert s[i] == 0;
      }
      forall i | 0 <= i < |init| && init[i] == 0 ensures Product(init) == 0 {
      }
      forall i | 0 <= i < |s| - 1 ensures s[i] == init[i] {
      }
    }
  }

  /** The robot counts of the four quadrants, in quadrant order. */
  function Counts(ps: seq<Vec2>, grid: Vec2): (r: seq<int>)
  {
    [Count(ps, grid, 0), Count(ps, grid, 1), Count(ps, grid, 2), Count(ps, grid, 3)]
  }

  /** The safety factor: the product of the robot counts of the four quadrants after the given seconds. */
  function SafetyFactor(robots: seq<Robot>, grid: Vec2, seconds: int): int
    requires grid.x != 0 && grid.y != 0
  {
    Product(Counts(EndPositions(robots, grid, seconds), grid))
  }

  /** The product of the quadrant counts is 0 exactly when some quadrant is empty. */
  lemma CountsProductZero(ps: seq<Vec2>, grid: Vec2)
    ensures Product(Counts(ps, grid)) == 0 <==> exists q :: 0 <= q < 4 && Count(ps, grid, q) == 0
  {
    var counts := Counts(ps, grid);
    ProductZero(counts);
    if Product(counts) == 0 {
      var q :| 0 <= q < |counts| && counts[q] == 0;
      assert Count(ps, grid, q) == 0;
    }
    if exists q :: 0 <= q < 4 && Count(ps, grid, q) == 0 {
      var q :| 0 <= q < 4 && Count(ps, grid, q) == 0;
      assert counts[q] == 0;
    }
  }

  /** The safety factor is 0 exactly when some quadrant is empty. */
  lemma SafetyFactorZero(robots: seq<Robot>, grid: Vec2, seconds: int)
    requires grid.x != 0 && grid.y != 0
    ensures SafetyFactor(robots, grid, seconds) == 0 <==>
      exists q :: 0 <= q < 4 && Count(EndPositions(robots, grid, seconds), grid, q) == 0
  {
    CountsProductZero(EndPositions(robots, grid, seconds), grid);
  }

  // ---------------------------------------------------------------------------
  // part_one
  // ---------------------------------------------------------------------------

  /** The quadrant loop of `part_one`: robots on a middle line count for no quadrant. */
  method CountQuadrants(quadrantCnt: array<int>, ps: seq<Vec2>, grid: Vec2)
    requires quadrantCnt.Length == 4
    requires forall q :: 0 <= q < 4 ==> quadrantCnt[q] == 0
    modifies quadrantCnt
    ensures forall q :: 0 <= q < 4 ==> quadrantCnt[q] == Count(ps, grid, q)
  {
    for k := 0 to |ps|
      invariant forall q :: 0 <= q < 4 ==> quadrantCnt[q] == Count(ps[..k], grid, q)
    {
      var pos := ps[k];
      assert ps[..k + 1][..k] == ps[..k];
      if pos.x < grid.x / 2 {
        if pos.y < grid.y / 2 {
          quadrantCnt[0] := quadrantCnt[0] + 1;
        } else if pos.y > grid.y / 2 {
          quadrantCnt[1] := quadrantCnt[1] + 1;
        }
      } else if pos.x > grid.x / 2 {
        if pos.y < grid.y / 2 {
          quadrantCnt[2] := quadrantCnt[2] + 1;
        } else if pos.y > grid.y / 2 {
          quadrantCnt[3] := quadrantCnt[3] + 1;
        }
      }
    }
    assert ps[..|ps|] == ps;
  }

  /** The product loop of `part_one`. */
  method MultiplyCounts(quadrantCnt: array<int>) returns (safetyFactor: int)
    ensures safetyFactor == Product(quadrantCnt[..])
  {
    safetyFactor := 1;
    for k := 0 to quadrantCnt.Length
      invariant safetyFactor == Product(quadrantCnt[..k])
    {
      assert quadrantCnt[..k + 1][..k] == quadrantCnt[..k];
      safetyFactor := safetyFactor * quadrantCnt[k];
    }
    assert quadrantCnt[..quadrantCnt.Length] == quadrantCnt[..];
  }

  /** `part_one` on the parsed robots: the safety factor after 100 seconds on the 101 x 103 grid. */
  method PartOne(robots: seq<Robot>) returns (r: int)
    ensures r == SafetyFactor(robots, Bathroom, ElapsedSeconds)
  {
    var grid := Bathroom;
    var endPositions := EndPositions(robots, grid, ElapsedSeconds);
    var quadrantCnt := new int[4](_ => 0);
    CountQuadrants(quadrantCnt, endPositions, grid);
    r := MultiplyCounts(quadrantCnt);
    assert quadrantCnt[..] == Counts(endPositions, grid);
  }
}
