/**
 * Two-dimensional integer vectors and the four grid directions (aoclib/vec.hpp).
 * Screen coordinates: x grows to the right, y grows downwards, unless a caller asks for
 * `upIsPositive`.
 */
module Vec {

  datatype Vec2 = Vec2(x: int, y: int)

  datatype Direction = Up | Right | Down | Left

  function Add(a: Vec2, b: Vec2): Vec2
  {
    Vec2(a.x + b.x, a.y + b.y)
  }

  function Sub(a: Vec2, b: Vec2): Vec2
  {
    Vec2(a.x - b.x, a.y - b.y)
  }

  /** Scalar multiple `k * v`; used by the puzzles, its declaration is not part of this model. */
  function Scale(k: int, v: Vec2): Vec2
  {
    Vec2(k * v.x, k * v.y)
  }

  function Neg(v: Vec2): Vec2
  {
    Vec2(-v.x, -v.y)
  }

  function Abs(n: int): nat
  {
    if n < 0 then -n else n
  }

  /** The city-block length |x| + |y|. */
  function Manhattan(v: Vec2): nat
  {
    Abs(v.x) + Abs(v.y)
  }

  /** `Vec2::operator==` is the defaulted member-wise comparison. */
  lemma EqualityIsComponentwise(a: Vec2, b: Vec2)
    ensures a == b <==> a.x == b.x && a.y == b.y
  {
  }

  lemma {:induction false} AddSubRoundTrip(a: Vec2, b: Vec2)
    ensures Sub(Add(a, b), b) == a
    ensures Add(Sub(a, b), b) == a
    ensures Add(a, b) == Add(b, a)
  {
  }

  function DirUp(upIsPositive: bool): Vec2
  {
    if upIsPositive then Vec2(0, 1) else Vec2(0, -1)
  }

  function DirDown(upIsPositive: bool): Vec2
  {
    if upIsPositive then Vec2(0, -1) else Vec2(0, 1)
  }

  /** The unit step for a direction (`dir_to_vec2`). */
  function DirToVec2(dir: Direction, upIsPositive: bool): Vec2
  {
    match dir
    case Up => DirUp(upIsPositive)
    case Right => Vec2(1, 0)
    case Down => DirDown(upIsPositive)
    case Left => Vec2(-1, 0)
  }

  /** Every direction steps to a neighbour, and different directions to different neighbours. */
  lemma DirToVec2Unit(dir: Direction, other: Direction, upIsPositive: bool)
    ensures Manhattan(DirToVec2(dir, upIsPositive)) == 1
    ensures DirToVec2(dir, upIsPositive) == DirToVec2(other, upIsPositive) <==> dir == other
  {
  }

  /** The four unit steps in the order right, left, up, down (`all_dirs_vec2`). */
  function AllDirsVec2(upIsPositive: bool): (r: seq<Vec2>)
    ensures |r| == 4
  {
    [Vec2(1, 0), Vec2(-1, 0), DirUp(upIsPositive), DirDown(upIsPositive)]
  }

  /** `all_dirs_vec2` lists the steps of Right, Left, Up and Down, in that order. */
  lemma AllDirsOrder(upIsPositive: bool)
    ensures AllDirsVec2(upIsPositive) == [DirToVec2(Right, upIsPositive), DirToVec2(Left, upIsPositive),
                                          DirToVec2(Up, upIsPositive), DirToVec2(Down, upIsPositive)]
  {
  }

  /** The four steps are pairwise distinct. */
  lemma AllDirsDistinct(upIsPositive: bool)
    ensures var r := AllDirsVec2(upIsPositive);
            forall i, j :: 0 <= i < j < 4 ==> r[i] != r[j]
  {
  }

  /** The four steps are exactly the unit steps of the grid. */
  lemma AllDirsComplete(v: Vec2, upIsPositive: bool)
    ensures v in AllDirsVec2(upIsPositive) <==> Manhattan(v) == 1
  {
    var r := AllDirsVec2(upIsPositive);
    if Manhattan(v) == 1 {
      if v.x == 1 {
        assert v == r[0];
      } else if v.x == -1 {
        assert v == r[1];
      } else if v == r[2] {
      } else {
        assert v == r[3];
      }
    }
    if v in r {
      var k :| 0 <= k < 4 && r[k] == v;
      assert Manhattan(r[k]) == 1;
    }
  }

  /** The pair (turn left, turn right) of a direction (`dir_get_left_right`). */
  function DirGetLeftRight(dir: Direction): (r: (Direction, Direction))
    ensures r.0 != dir && r.1 != dir && r.0 != r.1
  {
    match dir
    case Right => (Up, Down)
    case Left => (Down, Up)
    case Up => (Left, Right)
    case Down => (Right, Left)
  }

  function TurnRight(dir: Direction): Direction
  {
    DirGetLeftRight(dir).1
  }

  function TurnLeft(dir: Direction): Direction
  {
    DirGetLeftRight(dir).0
  }

  /** Turning right is a clockwise quarter turn of the screen-coordinate step. */
  lemma TurnRightRotatesClockwise(dir: Direction)
    ensures var v := DirToVec2(dir, false);
            DirToVec2(TurnRight(dir), false) == Vec2(-v.y, v.x)
  {
  }

  /** Turning left undoes turning right and vice versa; four right turns are the identity. */
  lemma TurnsInverse(dir: Direction)
    ensures TurnLeft(TurnRight(dir)) == dir
    ensures TurnRight(TurnLeft(dir)) == dir
    ensures TurnRight(TurnRight(TurnRight(TurnRight(dir)))) == dir
  {
  }

  /** Two right turns give the opposite direction, whose step is the negated step. */
  lemma OppositeIsNegated(dir: Direction, upIsPositive: bool)
    ensures DirToVec2(TurnRight(TurnRight(dir)), upIsPositive) == Neg(DirToVec2(dir, upIsPositive))
  {
  }

  /** Perpendicular steps used by the reindeer maze (`Vec2::perp_dot`); its declaration is not part of this model. */
  function PerpLeft(v: Vec2): Vec2
  {
    Vec2(v.y, -v.x)
  }

  function PerpRight(v: Vec2): Vec2
  {
    Vec2(-v.y, v.x)
  }
}
