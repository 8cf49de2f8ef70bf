/**
 * Day 15 (day-15/day-15.cpp): a robot in a warehouse pushes rows of boxes.
 * The input is the warehouse map, a blank line, and the robot's moves as
 * arrows.  A move shifts the robot and every box directly in front of it by
 * one cell, unless the cell past the last box is not free.  Part one adds up
 * the GPS coordinates (x + 100 y) of the boxes after all moves.
 */
module Day15 {
  import opened Wrappers
  import opened Vec
  import opened Grids
  import opened AocIo

  // ---------------------------------------------------------------------------
  // The input: map rows, then moves
  // ---------------------------------------------------------------------------

  /** The move an arrow stands for, if it is one. */
  function DirOf(c: char): Option<Direction>
  {
    match c
    case '<' => Some(Left)
    case '>' => Some(Right)
    case '^' => Some(Up)
    case 'v' => Some(Down)
    case _ => None
  }

  /** The arrow of a move. */
  function MoveSymbol(d: Direction): (c: char)
    ensures DirOf(c) == Some(d)
  {
    match d
    case Left => '<'
    case Right => '>'
    case Up => '^'
    case Down => 'v'
  }

  /** An arrow stands for exactly the move whose arrow it is. */
  lemma ArrowOf(c: char, d: Direction)
    ensures DirOf(c) == Some(d) <==> c == MoveSymbol(d)
  {
  }

  /** Some line of ls is empty once its whitespace is removed. */
  predicate HasBlank(ls: seq<string>)
  {
    exists i :: 0 <= i < |ls| && WithoutWhitespace(ls[i]) == []
  }

  /** The map rows: the non-blank lines before the first blank one, whitespace removed. */
  function Rows(ls: seq<string>): seq<string>
  {
    if ls == [] then []
    else
      var init, line := ls[..|ls| - 1], WithoutWhitespace(ls[|ls| - 1]);
      if HasBlank(init) || line == [] then Rows(init) else Rows(init) + [line]
  }

  /** The move text: the lines after the first blank one, whitespace removed, run together. */
  function MoveText(ls: seq<string>): string
  {
    if ls == [] then []
    else
      var init := ls[..|ls| - 1];
      MoveText(init) + if HasBlank(init) then WithoutWhitespace(ls[|ls| - 1]) else []
  }

  /** Some row differs in width from the first: `push_row` refuses it. */
  predicate Ragged(rows: seq<string>)
  {
    exists y :: 0 <= y < |rows| && |rows[y]| != |rows[0]|
  }

  /** Every symbol of the text is an arrow. */
  predicate AllMoves(text: string)
  {
    forall i :: 0 <= i < |text| ==> DirOf(text[i]).Some?
  }

  /** The moves of a text of arrows, in order. */
  function Decode(text: string): (r: seq<Direction>)
    requires AllMoves(text)
    ensures |r| == |text| && forall i :: 0 <= i < |text| ==> MoveSymbol(r[i]) == text[i]
  {
    seq(|text|, i requires 0 <= i < |text| => DirOf(text[i]).value)
  }

  /** The map width the rows give: that of the first row, 0 without rows. */
  function Width(rows: seq<string>): nat
  {
    if rows == [] then 0 else |rows[0]|
  }

  datatype Input = Input(rows: seq<string>, moves: seq<Direction>)

  /**
   * What `parse_input` yields: out_of_range (from `push_row`) for a map row of another width, else
   * runtime_error for a move symbol that is not an arrow, else the rows and the moves.
   */
  function Parse(lines: seq<string>): Result<Input>
  {
    var rows, text := Rows(lines), MoveText(lines);
    if Ragged(rows) then Err(OutOfRange)
    else if !AllMoves(text) then Err(RuntimeError)
    else Ok(Input(rows, Decode(text)))
  }

  /** The lines with their whitespace removed. */
  function Stripped(ls: seq<string>): (r: seq<string>)
    ensures |r| == |ls| && forall i :: 0 <= i < |ls| ==> r[i] == WithoutWhitespace(ls[i])
  {
    if ls == [] then [] else Stripped(ls[..|ls| - 1]) + [WithoutWhitespace(ls[|ls| - 1])]
  }

  /** Before any blank line every line is a map row and there are no moves. */
  lemma {:induction false} BeforeBlank(ls: seq<string>)
    requires !HasBlank(ls)
    ensures Rows(ls) == Stripped(ls) && MoveText(ls) == []
  {
    if ls != [] {
      var init := ls[..|ls| - 1];
      assert !HasBlank(init) by {
        forall i | 0 <= i < |init| ensures WithoutWhitespace(init[i]) != [] {
          assert init[i] == ls[i];
        }
      }
      BeforeBlank(init);
      assert WithoutWhitespace(ls[|ls| - 1]) != [];
    }
  }

  /** The moves after line b: the lines from b on, whitespace removed, run together. */
  function LinesAfter(ls: seq<string>, b: nat): string
    requires b <= |ls|
    decreases |ls| - b
  {
    if b == |ls| then [] else WithoutWhitespace(ls[b]) + LinesAfter(ls, b + 1)
  }

  lemma {:induction false} LinesAfterSnoc(init: seq<string>, last: string, j: nat)
    requires j <= |init|
    ensures LinesAfter(init + [last], j) == LinesAfter(init, j) + WithoutWhitespace(last)
    decreases |init| - j
  {
    if j < |init| {
      LinesAfterSnoc(init, last, j + 1);
      assert (init + [last])[j] == init[j];
    }
  }

  /**
   * Once line b is the first blank line, the rows are the lines before it and the moves are
   * the lines after it.
   */
  lemma {:induction false} AfterBlank(ls: seq<string>, b: nat)
    requires b < |ls| && WithoutWhitespace(ls[b]) == [] && !HasBlank(ls[..b])
    ensures Rows(ls) == Stripped(ls[..b]) && MoveText(ls) == LinesAfter(ls, b + 1)
  {
    var init, last := ls[..|ls| - 1], ls[|ls| - 1];
    assert ls == init + [last];
    if |ls| == b + 1 {
      assert init == ls[..b];
      BeforeBlank(init);
    } else {
      assert init[..b] == ls[..b];
      AfterBlank(init, b);
      assert HasBlank(init) by {
        assert init[b] == ls[b];
      }
      LinesAfterSnoc(init, last, b + 1);
    }
  }

  /** Lines added after ls keep the rows of ls as a prefix and the moves of ls as a prefix. */
  lemma {:induction false} Extend(ls: seq<string>, more: seq<string>)
    ensures |Rows(ls)| <= |Rows(ls + more)| && Rows(ls + more)[..|Rows(ls)|] == Rows(ls)
    ensures |MoveText(ls)| <= |MoveText(ls + more)| && MoveText(ls + more)[..|MoveText(ls)|] == MoveText(ls)
    ensures HasBlank(ls) ==> Rows(ls + more) == Rows(ls) && HasBlank(ls + more)
  {
    if more == [] {
      assert ls + more == ls;
    } else {
      var front := more[..|more| - 1];
      Extend(ls, front);
      assert (ls + more)[..|ls + more| - 1] == ls + front;
      if HasBlank(ls) {
        var i :| 0 <= i < |ls| && WithoutWhitespace(ls[i]) == [];
        assert (ls + front)[i] == ls[i];
        assert (ls + more)[i] == ls[i];
      }
    }
  }

  /** A row of another width among the first rows makes the whole input fail with out_of_range. */
  lemma RaggedSticks(lines: seq<string>, k: nat)
    requires k <= |lines| && Ragged(Rows(lines[..k]))
    ensures Parse(lines) == Err(OutOfRange)
  {
    Extend(lines[..k], lines[k..]);
    assert lines[..k] + lines[k..] == lines;
    var y :| 0 <= y < |Rows(lines[..k])| && |Rows(lines[..k])[y]| != |Rows(lines[..k])[0]|;
    assert Rows(lines)[y] == Rows(lines[..k])[y];
  }

  /** A symbol that is not an arrow after the blank line, with the rows all of one width, fails with runtime_error. */
  lemma BadMoveSticks(lines: seq<string>, k: nat)
    requires k <= |lines| && HasBlank(lines[..k]) && !Ragged(Rows(lines[..k])) && !AllMoves(MoveText(lines[..k]))
    ensures Parse(lines) == Err(RuntimeError)
  {
    Extend(lines[..k], lines[k..]);
    assert lines[..k] + lines[k..] == lines;
    var i :| 0 <= i < |MoveText(lines[..k])| && DirOf(MoveText(lines[..k])[i]).None?;
    assert MoveText(lines)[i] == MoveText(lines[..k])[i];
  }

  /** The state `parse_input` has built after the lines ls: the rows in the grid's storage and the moves so far. */
  ghost predicate Parsed(ls: seq<string>, data: seq<char>, width: nat, height: nat, moves: seq<Direction>)
  {
    var rows := Rows(ls);
    && !Ragged(rows) && data == Concat(rows) && height == |rows| && width == Width(rows)
    && AllMoves(MoveText(ls)) && moves == Decode(MoveText(ls))
  }

  /** The symbol loop of `parse_input` over one line of moves. */
  method DecodeLine(line: string, moves0: seq<Direction>) returns (moves: seq<Direction>, out: Outcome)
    ensures out.Pass? <==> AllMoves(line)
    ensures out.Fail? ==> out.error == RuntimeError
    ensures out.Pass? ==> moves == moves0 + Decode(line)
  {
    moves := moves0;
    for j := 0 to |line|
      invariant AllMoves(line[..j]) && moves == moves0 + Decode(line[..j])
    {
      var c := line[j];
      assert line[..j + 1] == line[..j] + [c];
      match c {
        case '<' => moves := moves + [Left];
        case '>' => moves := moves + [Right];
        case '^' => moves := moves + [Up];
        case 'v' => moves := moves + [Down];
        case _ => return moves, Fail(RuntimeError);
      }
    }
    assert line[..|line|] == line;
    out := Pass;
  }

  /** One line of `parse_input` read into the state. */
  lemma ParsedRow(lines: seq<string>, k: nat, data: seq<char>, width: nat, height: nat, moves: seq<Direction>)
    requires k < |lines| && Parsed(lines[..k], data, width, height, moves) && !HasBlank(lines[..k])
    requires WithoutWhitespace(lines[k]) != [] && (height == 0 || |WithoutWhitespace(lines[k])| == width)
    ensures Parsed(lines[..k + 1], data + WithoutWhitespace(lines[k]), |WithoutWhitespace(lines[k])|, height + 1, moves)
  {
    assert lines[..k + 1][..k] == lines[..k];
  }

  lemma ParsedMoves(lines: seq<string>, k: nat, data: seq<char>, width: nat, height: nat, moves: seq<Direction>, moves': seq<Direction>)
    requires k < |lines| && Parsed(lines[..k], data, width, height, moves) && HasBlank(lines[..k])
    requires AllMoves(WithoutWhitespace(lines[k])) && moves' == moves + Decode(WithoutWhitespace(lines[k]))
    ensures Parsed(lines[..k + 1], data, width, height, moves')
  {
    assert lines[..k + 1][..k] == lines[..k];
    var text := MoveText(lines[..k]);
    var line := WithoutWhitespace(lines[k]);
    assert MoveText(lines[..k + 1]) == text + line;
    assert Decode(text + line) == Decode(text) + Decode(line);
    Extend(lines[..k], [lines[k]]);
    assert lines[..k] + [lines[k]] == lines[..k + 1];
  }

  lemma ParsedBlank(lines: seq<string>, k: nat, data: seq<char>, width: nat, height: nat, moves: seq<Direction>)
    requires k < |lines| && Parsed(lines[..k], data, width, height, moves) && WithoutWhitespace(lines[k]) == []
    ensures Parsed(lines[..k + 1], data, width, height, moves) && HasBlank(lines[..k + 1])
  {
    assert lines[..k + 1][..k] == lines[..k];
    assert lines[..k + 1][k] == lines[k];
    assert MoveText(lines[..k + 1]) == MoveText(lines[..k]);
  }

  lemma ParsedRowFails(lines: seq<string>, k: nat, data: seq<char>, width: nat, height: nat, moves: seq<Direction>)
    requires k < |lines| && Parsed(lines[..k], data, width, height, moves) && !HasBlank(lines[..k])
    requires WithoutWhitespace(lines[k]) != [] && height != 0 && |WithoutWhitespace(lines[k])| != width
    ensures Parse(lines) == Err(OutOfRange)
  {
    assert lines[..k + 1][..k] == lines[..k];
    var rows := Rows(lines[..k + 1]);
    assert rows == Rows(lines[..k]) + [WithoutWhitespace(lines[k])];
    assert |rows[|rows| - 1]| != |rows[0]|;
    RaggedSticks(lines, k + 1);
  }

  lemma ParsedMoveFails(lines: seq<string>, k: nat, data: seq<char>, width: nat, height: nat, moves: seq<Direction>)
    requires k < |lines| && Parsed(lines[..k], data, width, height, moves) && HasBlank(lines[..k])
    requires !AllMoves(WithoutWhitespace(lines[k]))
    ensures Parse(lines) == Err(RuntimeError)
  {
    var prefix := lines[..k + 1];
    assert prefix[..k] == lines[..k];
    var text := MoveText(lines[..k]);
    var line := WithoutWhitespace(lines[k]);
    assert MoveText(prefix) == text + line;
    assert Rows(prefix) == Rows(lines[..k]);
    var i :| 0 <= i < |line| && DirOf(line[i]).None?;
    assert (text + line)[|text| + i] == line[i];
    var j :| 0 <= j < k && WithoutWhitespace(lines[..k][j]) == [];
    assert prefix[j] == lines[..k][j];
    BadMoveSticks(lines, k + 1);
  }

  /**
   * `parse_input`: pushes the map rows into the empty grid and collects the moves; fails as `Parse`
   * says, and otherwise leaves the rows, laid out row by row, in the grid.
   */
  method ParseInput(lines: seq<string>, grid: Grid<char>) returns (moves: seq<Direction>, out: Outcome)
    requires grid.Valid() && grid.width == 0 && grid.height == 0
    modifies grid
    ensures out.Fail? <==> Parse(lines).Err?
    ensures out.Fail? ==> out.error == Parse(lines).error
    ensures out.Pass? ==> var input := Parse(lines).value;
      && grid.Valid() && grid.data == Concat(input.rows) && grid.height == |input.rows| && grid.width == Width(input.rows)
      && moves == input.moves
  {
    var inMoves := false;
    moves := [];
    assert lines[..0] == [];
    for k := 0 to |lines|
      invariant grid.Valid() && inMoves == HasBlank(lines[..k])
      invariant Parsed(lines[..k], grid.data, grid.width, grid.height, moves)
    {
      var line := StrRemoveWhitespace(lines[k]);
      if |line| == 0 {
        ParsedBlank(lines, k, grid.data, grid.width, grid.height, moves);
        inMoves := true;
        continue;
      }
      assert lines[..k + 1][..k] == lines[..k];
      if !inMoves {
        ghost var data, width, height := grid.data, grid.width, grid.height;
        if height != 0 && |line| != width {
          ParsedRowFails(lines, k, data, width, height, moves);
        } else {
          ParsedRow(lines, k, data, width, height, moves);
        }
        out := grid.PushRow(line);
        if out.Fail? {
          return;
        }
        assert !HasBlank(lines[..k + 1]);
      } else {
        ghost var moves0 := moves;
        moves, out := DecodeLine(line, moves);
        if out.Fail? {
          ParsedMoveFails(lines, k, grid.data, grid.width, grid.height, moves0);
          return;
        }
        ParsedMoves(lines, k, grid.data, grid.width, grid.height, moves0, moves);
      }
    }
    assert lines[..|lines|] == lines;
    out := Pass;
  }

  // ---------------------------------------------------------------------------
  // The warehouse: cells stored row by row
  // ---------------------------------------------------------------------------

  predicate OnBoard(w: nat, h: nat, p: Vec2)
  {
    0 <= p.x < w && 0 <= p.y < h
  }

  /** The storage index of an on-board cell. */
  function Idx(w: nat, h: nat, p: Vec2): (i: nat)
    requires OnBoard(w, h, p)
    ensures i < w * h
  {
    RowMajor(w, h, p.x, p.y);
    p.x + p.y * w
  }

  /** Different cells have different storage indices. */
  lemma IdxInjective(w: nat, h: nat, p: Vec2, q: Vec2)
    requires OnBoard(w, h, p) && OnBoard(w, h, q) && p != q
    ensures Idx(w, h, p) != Idx(w, h, q)
  {
    RowMajor(w, h, p.x, p.y);
    RowMajor(w, h, q.x, q.y);
  }

  /** The symbol at p of a w-by-h warehouse stored row by row, or None off it (what `try_get` answers). */
  function At(data: seq<char>, w: nat, h: nat, p: Vec2): Option<char>
    requires |data| == w * h
  {
    if OnBoard(w, h, p) then Some(data[Idx(w, h, p)]) else None
  }

  /** `try_get` on a grid reads its storage as `At` does. */
  lemma AtIsTryGet(grid: Grid<char>, p: Vec2)
    requires grid.Valid()
    ensures grid.TryGetAt(p) == At(grid.data, grid.width, grid.height, p)
  {
  }

  /** The cell j steps from r in direction d. */
  function Ray(r: Vec2, d: Vec2, j: nat): Vec2
  {
    if j == 0 then r else Add(Ray(r, d, j - 1), d)
  }

  lemma {:induction false} RayCoords(r: Vec2, d: Vec2, j: nat)
    ensures Ray(r, d, j) == Vec2(r.x + j * d.x, r.y + j * d.y)
  {
    if j > 0 {
      RayCoords(r, d, j - 1);
      assert (j - 1) * d.x + d.x == j * d.x;
      assert (j - 1) * d.y + d.y == j * d.y;
    }
  }

  /** Along a unit step, the cells of a ray are pairwise distinct. */
  lemma RayDistinct(r: Vec2, d: Vec2, i: nat, j: nat)
    requires Manhattan(d) == 1 && i != j
    ensures Ray(r, d, i) != Ray(r, d, j)
  {
    RayCoords(r, d, i);
    RayCoords(r, d, j);
    if d.x == 1 || d.x == -1 {
      assert i * d.x != j * d.x;
    } else {
      assert d.y == 1 || d.y == -1;
      assert i * d.y != j * d.y;
    }
  }

  /** How many more unit steps d from p stay on the board. */
  function Reach(w: nat, h: nat, p: Vec2, d: Vec2): nat
  {
    var k := if d.x > 0 then w - p.x else if d.x < 0 then p.x + 1 else if d.y > 0 then h - p.y else p.y + 1;
    if k < 0 then 0 else k
  }

  lemma ReachStep(w: nat, h: nat, p: Vec2, d: Vec2)
    requires Manhattan(d) == 1 && OnBoard(w, h, p)
    ensures Reach(w, h, Add(p, d), d) < Reach(w, h, p, d)
  {
  }

  /** The number of boxes in a row from the k-th cell of the ray from r on. */
  function BoxRun(data: seq<char>, w: nat, h: nat, r: Vec2, d: Vec2, k: nat): nat
    requires |data| == w * h && Manhattan(d) == 1
    decreases Reach(w, h, Ray(r, d, k), d)
  {
    if At(data, w, h, Ray(r, d, k)) == Some('O') then
      ReachStep(w, h, Ray(r, d, k), d);
      1 + BoxRun(data, w, h, r, d, k + 1)
    else 0
  }

  /** The run holds boxes only, and the cell past it holds none. */
  lemma {:induction false} RunCells(data: seq<char>, w: nat, h: nat, r: Vec2, d: Vec2, k: nat)
    requires |data| == w * h && Manhattan(d) == 1
    ensures forall i :: k <= i < k + BoxRun(data, w, h, r, d, k) ==> At(data, w, h, Ray(r, d, i)) == Some('O')
    ensures At(data, w, h, Ray(r, d, k + BoxRun(data, w, h, r, d, k))) != Some('O')
    decreases Reach(w, h, Ray(r, d, k), d)
  {
    if At(data, w, h, Ray(r, d, k)) == Some('O') {
      ReachStep(w, h, Ray(r, d, k), d);
      RunCells(data, w, h, r, d, k + 1);
    }
  }

  /**
   * One move of the robot at r in direction d: out_of_range when the cell past the boxes in front
   * is off the warehouse; nothing changes when that cell is not free; otherwise the boxes and the
   * robot advance one cell: that cell takes a box, the cell in front takes the robot's symbol, and
   * the robot's cell is freed.
   */
  function MoveSpec(data: seq<char>, w: nat, h: nat, r: Vec2, d: Vec2): (res: Result<(seq<char>, Vec2)>)
    requires |data| == w * h && Manhattan(d) == 1 && OnBoard(w, h, r)
    ensures res.Err? ==> res.error == OutOfRange
    ensures res.Ok? ==> |res.value.0| == |data| && At(res.value.0, w, h, res.value.1) == At(data, w, h, r)
  {
    var n := BoxRun(data, w, h, r, d, 1);
    var e := Ray(r, d, n + 1);
    RunCells(data, w, h, r, d, 1);
    match At(data, w, h, e)
    case None => Err(OutOfRange)
    case Some(c) =>
      if c != '.' then Ok((data, r))
      else
        FrontOnBoard(data, w, h, r, d, n);
        var front := Ray(r, d, 1);
        RayDistinct(r, d, 0, 1);
        IdxInjective(w, h, r, front);
        Ok((data[Idx(w, h, e) := 'O'][Idx(w, h, front) := data[Idx(w, h, r)]][Idx(w, h, r) := '.'], front))
  }

  /** When the cell past a run of n boxes is on the warehouse, so is the cell in front of the robot. */
  lemma FrontOnBoard(data: seq<char>, w: nat, h: nat, r: Vec2, d: Vec2, n: nat)
    requires |data| == w * h && Manhattan(d) == 1
    requires forall i :: 1 <= i < 1 + n ==> At(data, w, h, Ray(r, d, i)) == Some('O')
    requires OnBoard(w, h, Ray(r, d, n + 1))
    ensures OnBoard(w, h, Ray(r, d, 1))
  {
    if n > 0 {
      assert At(data, w, h, Ray(r, d, 1)) == Some('O');
    }
  }

  /**
   * The warehouse while the boxes are shifted from the far end back towards the robot, before
   * the j-th cell of the ray is overwritten: untouched at first, the far end holding a box after
   * the first copy, and the robot's symbol in front of it after the last.
   */
  ghost predicate Shifting(data0: seq<char>, data: seq<char>, w: nat, h: nat, r: Vec2, d: Vec2, n: nat, j: nat)
    requires |data0| == w * h && OnBoard(w, h, r) && OnBoard(w, h, Ray(r, d, 1)) && OnBoard(w, h, Ray(r, d, n + 1))
  {
    var e := Idx(w, h, Ray(r, d, n + 1));
    if j == n + 1 then data == data0
    else if 0 < j <= n then data == data0[e := 'O']
    else j == 0 && data == data0[e := 'O'][Idx(w, h, Ray(r, d, 1)) := data0[Idx(w, h, r)]]
  }

  /** Copying the (j-1)-th cell of the ray into the j-th one takes the shift one cell further. */
  lemma ShiftStep(data0: seq<char>, data: seq<char>, w: nat, h: nat, r: Vec2, d: Vec2, n: nat, j: nat)
    requires |data0| == w * h && Manhattan(d) == 1 && OnBoard(w, h, r)
    requires OnBoard(w, h, Ray(r, d, 1)) && OnBoard(w, h, Ray(r, d, n + 1))
    requires forall i :: 1 <= i < 1 + n ==> At(data0, w, h, Ray(r, d, i)) == Some('O')
    requires 0 < j <= n + 1 && Shifting(data0, data, w, h, r, d, n, j)
    ensures OnBoard(w, h, Ray(r, d, j)) && OnBoard(w, h, Ray(r, d, j - 1))
    ensures |data| == w * h && Sub(Ray(r, d, j), d) == Ray(r, d, j - 1)
    ensures Shifting(data0, data[Idx(w, h, Ray(r, d, j)) := data[Idx(w, h, Ray(r, d, j - 1))]], w, h, r, d, n, j - 1)
  {
    AddSubRoundTrip(Ray(r, d, j - 1), d);
    var e := Idx(w, h, Ray(r, d, n + 1));
    if j == n + 1 {
      if n > 0 {
        assert At(data0, w, h, Ray(r, d, n)) == Some('O');
      } else {
        assert data[e := data[Idx(w, h, r)]] == data0[e := 'O'][e := data0[Idx(w, h, r)]];
      }
    } else {
      assert 1 <= j - 1 ==> At(data0, w, h, Ray(r, d, j - 1)) == Some('O');
      assert At(data0, w, h, Ray(r, d, j)) == Some('O');
      RayDistinct(r, d, j, n + 1);
      RayDistinct(r, d, j - 1, n + 1);
      IdxInjective(w, h, Ray(r, d, j), Ray(r, d, n + 1));
      if j - 1 == 0 {
        IdxInjective(w, h, r, Ray(r, d, n + 1));
      } else {
        IdxInjective(w, h, Ray(r, d, j - 1), Ray(r, d, n + 1));
        assert data[Idx(w, h, Ray(r, d, j)) := data[Idx(w, h, Ray(r, d, j - 1))]] == data;
      }
    }
  }

  /** The first loop of `robot_move`: the cell past the run of boxes in front of r. */
  method FindRunEnd(grid: Grid<char>, r: Vec2, d: Vec2) returns (endPos: Vec2)
    requires grid.Valid() && Manhattan(d) == 1
    ensures endPos == Ray(r, d, BoxRun(grid.data, grid.width, grid.height, r, d, 1) + 1)
  {
    endPos := Add(r, d);
    ghost var k: nat := 1;
    AtIsTryGet(grid, endPos);
    var sym := grid.TryGetAt(endPos);
    while sym.Some? && sym.value == 'O'
      invariant 1 <= k && endPos == Ray(r, d, k) && sym == At(grid.data, grid.width, grid.height, endPos)
      invariant BoxRun(grid.data, grid.width, grid.height, r, d, 1)
                == k - 1 + BoxRun(grid.data, grid.width, grid.height, r, d, k)
      decreases Reach(grid.width, grid.height, endPos, d)
    {
      ReachStep(grid.width, grid.height, endPos, d);
      endPos := Add(endPos, d);
      k := k + 1;
      AtIsTryGet(grid, endPos);
      sym := grid.TryGetAt(endPos);
    }
  }

  /** The three outcomes of `MoveSpec`, by what lies past the run of boxes. */
  lemma MoveSpecCases(data: seq<char>, w: nat, h: nat, r: Vec2, d: Vec2, n: nat)
    requires |data| == w * h && Manhattan(d) == 1 && OnBoard(w, h, r)
    requires n == BoxRun(data, w, h, r, d, 1)
    ensures At(data, w, h, Ray(r, d, n + 1)).None? ==> MoveSpec(data, w, h, r, d) == Err(OutOfRange)
    ensures At(data, w, h, Ray(r, d, n + 1)).Some? && At(data, w, h, Ray(r, d, n + 1)) != Some('.') ==>
              MoveSpec(data, w, h, r, d) == Ok((data, r))
    ensures At(data, w, h, Ray(r, d, n + 1)) == Some('.') ==>
              OnBoard(w, h, Ray(r, d, 1)) && OnBoard(w, h, Ray(r, d, n + 1)) &&
              MoveSpec(data, w, h, r, d) ==
              Ok((data[Idx(w, h, Ray(r, d, n + 1)) := 'O'][Idx(w, h, Ray(r, d, 1)) := data[Idx(w, h, r)]][Idx(w, h, r) := '.'],
                  Ray(r, d, 1)))
  {
    RunCells(data, w, h, r, d, 1);
    if At(data, w, h, Ray(r, d, n + 1)) == Some('.') {
      FrontOnBoard(data, w, h, r, d, n);
    }
  }

  /** The second loop of `robot_move`: copies each cell of the ray from the far end back to the robot's front. */
  method ShiftRun(grid: Grid<char>, r: Vec2, d: Vec2, endPos: Vec2, ghost n: nat)
    requires grid.Valid() && Manhattan(d) == 1 && OnBoard(grid.width, grid.height, r)
    requires OnBoard(grid.width, grid.height, Ray(r, d, 1)) && endPos == Ray(r, d, n + 1)
    requires OnBoard(grid.width, grid.height, endPos)
    requires forall i :: 1 <= i < 1 + n ==> At(grid.data, grid.width, grid.height, Ray(r, d, i)) == Some('O')
    modifies grid`data
    ensures grid.Valid()
    ensures Shifting(old(grid.data), grid.data, grid.width, grid.height, r, d, n, 0)
  {
    ghost var w, h, data0 := grid.width, grid.height, grid.data;
    var pos := endPos;
    ghost var j := n + 1;
    while pos != r
      invariant grid.Valid() && grid.width == w && grid.height == h
      invariant 0 <= j <= n + 1 && pos == Ray(r, d, j)
      invariant Shifting(data0, grid.data, w, h, r, d, n, j)
      decreases j
    {
      if j == 0 {
        assert false;
      }
      ShiftStep(data0, grid.data, w, h, r, d, n, j);
      ghost var next := grid.data[Idx(w, h, Ray(r, d, j)) := grid.data[Idx(w, h, Ray(r, d, j - 1))]];
      var src := grid.GetAt(Sub(pos, d));
      var _ := grid.Set(pos.x, pos.y, src.value);
      assert grid.data == next;
      pos := Sub(pos, d);
      j := j - 1;
    }
    if j != 0 {
      RayDistinct(r, d, 0, j);
    }
  }

  /**
   * `robot_move`: pushes the run of boxes in front of the robot one cell on when the cell past it is
   * free, and the robot with it; out_of_range when that cell is off the warehouse.
   */
  method RobotMove(grid: Grid<char>, robotPos: Vec2, dir: Direction) returns (newPos: Vec2, out: Outcome)
    requires grid.Valid() && OnBoard(grid.width, grid.height, robotPos)
    modifies grid`data
    ensures grid.Valid()
    ensures var spec := MoveSpec(old(grid.data), grid.width, grid.height, robotPos, DirToVec2(dir, false));
            (out.Fail? <==> spec.Err?)
            && (spec.Err? ==> out.error == spec.error && grid.data == old(grid.data))
            && (spec.Ok? ==> grid.data == spec.value.0 && newPos == spec.value.1)
  {
    var delta := DirToVec2(dir, false);
    DirToVec2Unit(dir, dir, false);
    ghost var w, h, data0 := grid.width, grid.height, grid.data;
    ghost var n := BoxRun(data0, w, h, robotPos, delta, 1);
    RunCells(data0, w, h, robotPos, delta, 1);
    MoveSpecCases(data0, w, h, robotPos, delta, n);
    var endPos := FindRunEnd(grid, robotPos, delta);
    AtIsTryGet(grid, endPos);
    var sym := grid.GetAt(endPos);
    if sym.Err? {
      return robotPos, Fail(sym.error);
    }
    if sym.value != '.' {
      return robotPos, Pass;
    }
    ShiftRun(grid, robotPos, delta, endPos, n);
    var _ := grid.Set(robotPos.x, robotPos.y, '.');
    newPos := Add(robotPos, delta);
    out := Pass;
  }

  /** A move neither makes nor loses a symbol: boxes, walls and the robot are only moved about. */
  lemma MoveKeepsSymbols(data: seq<char>, w: nat, h: nat, r: Vec2, d: Vec2)
    requires |data| == w * h && Manhattan(d) == 1 && OnBoard(w, h, r)
    ensures MoveSpec(data, w, h, r, d).Ok? ==> multiset(MoveSpec(data, w, h, r, d).value.0) == multiset(data)
  {
    var n := BoxRun(data, w, h, r, d, 1);
    MoveSpecCases(data, w, h, r, d, n);
    if At(data, w, h, Ray(r, d, n + 1)) == Some('.') {
      RunCells(data, w, h, r, d, 1);
      var e, f, i := Idx(w, h, Ray(r, d, n + 1)), Idx(w, h, Ray(r, d, 1)), Idx(w, h, r);
      RayDistinct(r, d, 0, 1);
      IdxInjective(w, h, r, Ray(r, d, 1));
      RayDistinct(r, d, 0, n + 1);
      IdxInjective(w, h, r, Ray(r, d, n + 1));
      var c := data[i];
      if n == 0 {
        assert data[e := 'O'][f := c] == data[e := c];
      } else {
        assert At(data, w, h, Ray(r, d, 1)) == Some('O');
        RayDistinct(r, d, 1, n + 1);
        IdxInjective(w, h, Ray(r, d, 1), Ray(r, d, n + 1));
      }
    }
  }

  /**
   * A move that moves the robot puts it one step on, frees its old cell, leaves a box in each
   * cell from the second to the one past the run, and changes no cell but those three; a move
   * that leaves the robot where it was changes nothing.
   */
  lemma MoveShifts(data: seq<char>, w: nat, h: nat, r: Vec2, d: Vec2)
    requires |data| == w * h && Manhattan(d) == 1 && OnBoard(w, h, r)
    ensures var n, res := BoxRun(data, w, h, r, d, 1), MoveSpec(data, w, h, r, d);
            res.Ok? && res.value.1 != r ==>
              res.value.1 == Add(r, d) && At(res.value.0, w, h, r) == Some('.')
              && (forall i :: 2 <= i <= n + 1 ==> At(res.value.0, w, h, Ray(r, d, i)) == Some('O'))
              && (forall p :: At(res.value.0, w, h, p) != At(data, w, h, p) ==> p == r || p == Add(r, d) || p == Ray(r, d, n + 1))
    ensures MoveSpec(data, w, h, r, d).Ok? && MoveSpec(data, w, h, r, d).value.1 == r ==>
              MoveSpec(data, w, h, r, d).value.0 == data
  {
    var n := BoxRun(data, w, h, r, d, 1);
    MoveSpecCases(data, w, h, r, d, n);
    RayDistinct(r, d, 0, 1);
    if At(data, w, h, Ray(r, d, n + 1)) == Some('.') {
      RunCells(data, w, h, r, d, 1);
      var nd := MoveSpec(data, w, h, r, d).value.0;
      var e, f, i := Idx(w, h, Ray(r, d, n + 1)), Idx(w, h, Ray(r, d, 1)), Idx(w, h, r);
      RayDistinct(r, d, 0, n + 1);
      IdxInjective(w, h, r, Ray(r, d, 1));
      IdxInjective(w, h, r, Ray(r, d, n + 1));
      forall k | 2 <= k <= n + 1
        ensures At(nd, w, h, Ray(r, d, k)) == Some('O')
      {
        RayDistinct(r, d, 0, k);
        RayDistinct(r, d, 1, k);
        if k <= n {
          assert At(data, w, h, Ray(r, d, k)) == Some('O');
          IdxInjective(w, h, r, Ray(r, d, k));
          IdxInjective(w, h, Ray(r, d, 1), Ray(r, d, k));
        } else {
          IdxInjective(w, h, Ray(r, d, 1), Ray(r, d, k));
        }
      }
      forall p | At(nd, w, h, p) != At(data, w, h, p)
        ensures p == r || p == Add(r, d) || p == Ray(r, d, n + 1)
      {
        if p != r && p != Ray(r, d, 1) && p != Ray(r, d, n + 1) {
          IdxInjective(w, h, p, r);
          IdxInjective(w, h, p, Ray(r, d, 1));
          IdxInjective(w, h, p, Ray(r, d, n + 1));
        }
      }
    }
  }

  /** The warehouse and the robot's cell after a sequence of moves, or the first move's error. */
  function Run(data: seq<char>, w: nat, h: nat, r: Vec2, moves: seq<Direction>): (res: Result<(seq<char>, Vec2)>)
    requires |data| == w * h && OnBoard(w, h, r)
    ensures res.Err? ==> res.error == OutOfRange
    ensures res.Ok? ==> |res.value.0| == |data| && At(res.value.0, w, h, res.value.1) == At(data, w, h, r)
  {
    if moves == [] then Ok((data, r))
    else
      match Run(data, w, h, r, moves[..|moves| - 1])
      case Err(e) => Err(e)
      case Ok(state) =>
        DirToVec2Unit(moves[|moves| - 1], moves[|moves| - 1], false);
        MoveSpec(state.0, w, h, state.1, DirToVec2(moves[|moves| - 1], false))
  }

  /** Once a move fails, the whole run fails with its error. */
  lemma {:induction false} RunErrSticks(data: seq<char>, w: nat, h: nat, r: Vec2, moves: seq<Direction>, k: nat)
    requires |data| == w * h && OnBoard(w, h, r) && k <= |moves|
    requires Run(data, w, h, r, moves[..k]).Err?
    ensures Run(data, w, h, r, moves) == Run(data, w, h, r, moves[..k])
  {
    if k < |moves| {
      var init := moves[..|moves| - 1];
      assert init[..k] == moves[..k];
      RunErrSticks(data, w, h, r, init, k);
    } else {
      assert moves[..k] == moves;
    }
  }

  /** However the robot moves, the warehouse keeps its symbols. */
  lemma {:induction false} RunKeepsSymbols(data: seq<char>, w: nat, h: nat, r: Vec2, moves: seq<Direction>)
    requires |data| == w * h && OnBoard(w, h, r)
    ensures Run(data, w, h, r, moves).Ok? ==> multiset(Run(data, w, h, r, moves).value.0) == multiset(data)
  {
    if moves != [] {
      var init := moves[..|moves| - 1];
      RunKeepsSymbols(data, w, h, r, init);
      if Run(data, w, h, r, init).Ok? {
        var state := Run(data, w, h, r, init).value;
        DirToVec2Unit(moves[|moves| - 1], moves[|moves| - 1], false);
        MoveKeepsSymbols(state.0, w, h, state.1, DirToVec2(moves[|moves| - 1], false));
      }
    }
  }

  // ---------------------------------------------------------------------------
  // The robot's start, and the GPS sum
  // ---------------------------------------------------------------------------

  /** The first index holding c, or the length when none does. */
  function FirstAt(data: seq<char>, c: char): (i: nat)
    ensures i <= |data| && (i < |data| ==> data[i] == c)
    ensures forall j :: 0 <= j < i ==> data[j] != c
  {
    if data == [] then 0 else if data[0] == c then 0 else 1 + FirstAt(data[1..], c)
  }

  lemma EmptyWidth(w: nat, h: nat)
    ensures w == 0 ==> w * h == 0
  {
  }

  /** The robot's first cell in row-major order, if the warehouse has a robot. */
  function Start(data: seq<char>, w: nat, h: nat): (r: Option<Vec2>)
    requires |data| == w * h
    ensures r.Some? ==> At(data, w, h, r.value) == Some('@')
    ensures r.None? <==> '@' !in data
  {
    var i := FirstAt(data, '@');
    if i < |data| then
      EmptyWidth(w, h);
      IndexSplits(w, h, i);
      Some(Vec2(i % w, i / w))
    else None
  }

  /**
   * The robot's cell as `part_one` finds it: the first of the robot positions in row-major order,
   * out_of_range (from `at(0)`) when there is none.
   */
  method FindRobot(grid: Grid<char>) returns (r: Result<Vec2>)
    requires grid.Valid()
    ensures var s := Start(grid.data, grid.width, grid.height);
            (r.Err? <==> s.None?) && (r.Err? ==> r.error == OutOfRange) && (r.Ok? ==> r.value == s.value)
  {
    var positions := grid.FindElemPositions('@');
    RobotsFound(grid, positions);
    if |positions| == 0 {
      return Err(OutOfRange);
    }
    FirstPosition(grid, positions);
    r := Ok(positions[0]);
  }

  /** A grid holding a robot yields at least one robot position. */
  lemma RobotsFound(grid: Grid<char>, positions: seq<Vec2>)
    requires grid.Valid()
    requires forall x, y :: grid.TryGet(x, y) == Some('@') ==> Vec2(x, y) in positions
    ensures '@' in grid.data ==> |positions| > 0
  {
    if '@' in grid.data {
      var i :| 0 <= i < |grid.data| && grid.data[i] == '@';
      var q := grid.IdxToPos(i);
      assert grid.TryGet(q.x, q.y) == Some('@');
    }
  }

  /** The first of the row-major ordered robot positions is the one at the first robot index. */
  lemma FirstPosition(grid: Grid<char>, positions: seq<Vec2>)
    requires grid.Valid() && |positions| > 0
    requires forall k :: 0 <= k < |positions| ==> grid.TryGet(positions[k].x, positions[k].y) == Some('@')
    requires forall x, y :: grid.TryGet(x, y) == Some('@') ==> Vec2(x, y) in positions
    requires forall k, l :: 0 <= k < l < |positions| ==>
               grid.CalcIdx(positions[k].x, positions[k].y) < grid.CalcIdx(positions[l].x, positions[l].y)
    ensures Start(grid.data, grid.width, grid.height) == Some(positions[0])
  {
    var p := positions[0];
    assert grid.TryGet(p.x, p.y) == Some('@');
    RowMajor(grid.width, grid.height, p.x, p.y);
    var i := FirstAt(grid.data, '@');
    assert i <= grid.CalcIdx(p.x, p.y);
    var q := grid.IdxToPos(i);
    assert grid.TryGet(q.x, q.y) == Some('@');
    assert q in positions;
    var k :| 0 <= k < |positions| && positions[k] == q;
    assert k == 0;
    IndexSplits(grid.width, grid.height, i);
  }

  /** The GPS coordinate of a box: 100 times its row plus its column. */
  function Gps(p: Vec2): (g: int)
    ensures p.x >= 0 && p.y >= 0 ==> g >= 100 * p.y
  {
    p.x + p.y * 100
  }

  ghost function PickBox(ps: set<Vec2>): (p: Vec2)
    requires ps != {}
    ensures p in ps
  {
    var p :| p in ps; p
  }

  /** The sum of the GPS coordinates of a set of boxes. */
  ghost function GpsSum(ps: set<Vec2>): int
    decreases |ps|
  {
    if ps == {} then 0 else var p := PickBox(ps); Gps(p) + GpsSum(ps - {p})
  }

  /** The sum does not depend on the order the boxes are taken in. */
  lemma {:induction false} GpsSumRemove(ps: set<Vec2>, p: Vec2)
    requires p in ps
    ensures GpsSum(ps) == Gps(p) + GpsSum(ps - {p})
    decreases |ps|
  {
    var first := PickBox(ps);
    if first != p {
      GpsSumRemove(ps - {first}, p);
      GpsSumRemove(ps - {p}, first);
      assert ps - {first} - {p} == ps - {p} - {first};
    }
  }

  lemma GpsSumAdd(ps: set<Vec2>, p: Vec2)
    requires p !in ps
    ensures GpsSum(ps + {p}) == GpsSum(ps) + Gps(p)
  {
    GpsSumRemove(ps + {p}, p);
    assert ps + {p} - {p} == ps;
  }

  /** The cells of the boxes stored before index k of a warehouse w wide. */
  ghost function BoxesBelow(data: seq<char>, w: nat, k: nat): set<Vec2>
    requires k <= |data|
  {
    if w == 0 then {} else set i | 0 <= i < k && data[i] == 'O' :: Vec2(i % w, i / w)
  }

  /** The cells of all boxes of the warehouse. */
  ghost function Boxes(data: seq<char>, w: nat, h: nat): set<Vec2>
    requires |data| == w * h
  {
    BoxesBelow(data, w, |data|)
  }

  /** A cell is among the boxes exactly when it holds one. */
  lemma BoxesAt(data: seq<char>, w: nat, h: nat, p: Vec2)
    requires |data| == w * h
    ensures p in Boxes(data, w, h) <==> At(data, w, h, p) == Some('O')
  {
    if p in Boxes(data, w, h) {
      var i :| 0 <= i < |data| && data[i] == 'O' && p == Vec2(i % w, i / w);
      IndexSplits(w, h, i);
    }
    if At(data, w, h, p) == Some('O') {
      var i := Idx(w, h, p);
      DivModOf(w, p.x, p.y);
      assert p == Vec2(i % w, i / w);
    }
  }

  lemma BelowStep(data: seq<char>, w: nat, h: nat, k: nat)
    requires |data| == w * h && k < |data|
    ensures w > 0 && Vec2(k % w, k / w) !in BoxesBelow(data, w, k)
    ensures data[k] == 'O' ==> BoxesBelow(data, w, k + 1) == BoxesBelow(data, w, k) + {Vec2(k % w, k / w)}
    ensures data[k] != 'O' ==> BoxesBelow(data, w, k + 1) == BoxesBelow(data, w, k)
  {
    EmptyWidth(w, h);
    IndexSplits(w, h, k);
    if Vec2(k % w, k / w) in BoxesBelow(data, w, k) {
      var i :| 0 <= i < k && data[i] == 'O' && Vec2(k % w, k / w) == Vec2(i % w, i / w);
      IndexSplits(w, h, i);
      assert false;
    }
  }

  lemma BelowNone(data: seq<char>, w: nat)
    ensures BoxesBelow(data, w, 0) == {}
  {
    if w > 0 {
      forall p | p in BoxesBelow(data, w, 0)
        ensures false
      {
      }
    }
  }

  /** The GPS sum loop of `part_one`: the sum of the GPS coordinates of all boxes. */
  method GpsOf(grid: Grid<char>) returns (gpsSum: int)
    requires grid.Valid()
    ensures gpsSum == GpsSum(Boxes(grid.data, grid.width, grid.height))
  {
    gpsSum := 0;
    BelowNone(grid.data, grid.width);
    for k := 0 to |grid.data|
      invariant gpsSum == GpsSum(BoxesBelow(grid.data, grid.width, k))
    {
      BelowStep(grid.data, grid.width, grid.height, k);
      var pos := grid.IdxToPos(k);
      if grid.data[k] == 'O' {
        GpsSumAdd(BoxesBelow(grid.data, grid.width, k), pos);
        gpsSum := gpsSum + pos.x + pos.y * 100;
      }
    }
  }

  /** Rows of one width fill a warehouse of that width and as many rows. */
  lemma BoardSize(rows: seq<string>)
    requires !Ragged(rows)
    ensures |Concat(rows)| == Width(rows) * |rows|
  {
    ConcatLength(rows, Width(rows));
  }

  /**
   * The answer of part one: the GPS sum of the boxes once the robot has made all its moves;
   * the error of the input, of a missing robot or of the first failing move otherwise.
   */
  ghost function Answer(lines: seq<string>): Result<int>
  {
    match Parse(lines)
    case Err(e) => Err(e)
    case Ok(input) =>
      BoardSize(input.rows);
      var data, w, h := Concat(input.rows), Width(input.rows), |input.rows|;
      match Start(data, w, h)
      case None => Err(OutOfRange)
      case Some(r) =>
        match Run(data, w, h, r, input.moves)
        case Err(e) => Err(e)
        case Ok(state) => Ok(GpsSum(Boxes(state.0, w, h)))
  }

  /** `part_one`. */
  method PartOne(lines: seq<string>) returns (r: Result<int>)
    ensures r == Answer(lines)
  {
    var grid := new Grid<char>();
    var moves, out := ParseInput(lines, grid);
    if out.Fail? {
      return Err(out.error);
    }
    ghost var input := Parse(lines).value;
    ghost var w, h, data0 := grid.width, grid.height, grid.data;
    var start := FindRobot(grid);
    if start.Err? {
      return Err(start.error);
    }
    var robotPos := start.value;
    assert moves[..0] == [];
    for k := 0 to |moves|
      modifies grid
      invariant grid.Valid() && grid.width == w && grid.height == h
      invariant Run(data0, w, h, start.value, moves[..k]) == Ok((grid.data, robotPos))
    {
      var o;
      robotPos, o := RobotMove(grid, robotPos, moves[k]);
      assert moves[..k + 1][..k] == moves[..k];
      if o.Fail? {
        RunErrSticks(data0, w, h, start.value, moves, k + 1);
        return Err(o.error);
      }
    }
    assert moves[..|moves|] == moves;
    var gpsSum := GpsOf(grid);
    r := Ok(gpsSum);
  }
}
