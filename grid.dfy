/**
 * The two-dimensional grid of aoclib/grid.hpp: a row-major flat vector with a
 * width and a height, bounds-checked access, construction from rows or row by
 * row, position search, and two random-access cursors (one over the flat index,
 * one down a column).  Cursors are modelled by their index; the raw pointer a
 * cursor caches is the storage index it points at, or None for a null pointer.
 */
module Grids {
  import opened Wrappers
  import opened Vec

  // ---------------------------------------------------------------------------
  // Row-major index arithmetic
  // ---------------------------------------------------------------------------

  lemma MulLe(a: int, b: int, w: int)
    requires a <= b && 0 <= w
    ensures a * w <= b * w
  {
    var d := b - a;
    assert b * w == a * w + d * w;
  }

  lemma MulLt(a: int, b: int, w: int)
    ensures 0 <= w && a < b ==> a * w + w <= b * w
  {
    if 0 <= w && a < b {
      MulLe(a + 1, b, w);
    }
  }

  /** Division by w recovers (x, y) from x + y * w when 0 <= x < w. */
  lemma DivModOf(w: int, x: int, y: int)
    requires 0 <= x < w
    ensures (x + y * w) % w == x && (x + y * w) / w == y
  {
    var i := x + y * w;
    var q, r := i / w, i % w;
    assert q * w + r == i;
    MulLt(y, q, w);
    MulLt(q, y, w);
  }

  /** x + y * w is in [0, w * h) for an on-grid (x, y), and x, y are recovered by mod and div. */
  lemma RowMajor(w: int, h: int, x: int, y: int)
    requires 0 <= x < w && 0 <= y < h
    ensures 0 <= x + y * w < w * h
    ensures (x + y * w) % w == x && (x + y * w) / w == y
  {
    MulLe(0, y, w);
    MulLe(y + 1, h, w);
    assert (y + 1) * w == y * w + w;
    DivModOf(w, x, y);
  }

  /** Every index of a w-by-h grid is x + y * w for the on-grid (i mod w, i / w). */
  lemma IndexSplits(w: int, h: int, i: int)
    requires 0 < w && 0 <= i < w * h
    ensures 0 <= i % w < w && 0 <= i / w < h && i % w + (i / w) * w == i
  {
    var q := i / w;
    MulLt(q - 1, h - 1, w);
    if q >= h {
      MulLe(h, q, w);
    }
  }

  /** The rows laid out one after another, as the row constructor and `push_row` store them. */
  function Concat<T>(rows: seq<seq<T>>): seq<T>
  {
    if rows == [] then [] else Concat(rows[..|rows| - 1]) + rows[|rows| - 1]
  }

  predicate SameWidth<T>(rows: seq<seq<T>>, w: nat)
  {
    forall y :: 0 <= y < |rows| ==> |rows[y]| == w
  }

  /** Rows of equal width w concatenate to w * (number of rows) elements. */
  lemma {:induction false} ConcatLength<T>(rows: seq<seq<T>>, w: nat)
    requires SameWidth(rows, w)
    ensures |Concat(rows)| == w * |rows|
  {
    if rows != [] {
      var init := rows[..|rows| - 1];
      ConcatLength(init, w);
      assert w * |rows| == w * |init| + w;
    }
  }

  /** In the concatenation of rows of width w, cell (x, y) is at x + y * w: the row-major layout. */
  lemma {:induction false} ConcatCell<T>(rows: seq<seq<T>>, w: nat, x: int, y: int)
    requires SameWidth(rows, w) && 0 <= x < w && 0 <= y < |rows|
    ensures 0 <= x + y * w < |Concat(rows)| && Concat(rows)[x + y * w] == rows[y][x]
  {
    var init := rows[..|rows| - 1];
    var h := |init|;
    ConcatLength(rows, w);
    ConcatLength(init, w);
    RowMajor(w, |rows|, x, y);
    var c := Concat(init);
    assert Concat(rows) == c + rows[h];
    if y < h {
      ConcatCell(init, w, x, y);
    } else {
      assert x + y * w == |c| + x;
    }
  }

  // ---------------------------------------------------------------------------
  // The grid
  // ---------------------------------------------------------------------------

  class Grid<T(==)> {
    var data: seq<T>
    var width: nat
    var height: nat

    /** The storage holds exactly width * height cells. */
    ghost predicate Valid()
      reads this
    {
      |data| == width * height
    }

    /** The default constructor: a 0-by-0 grid. */
    constructor ()
      ensures data == [] && width == 0 && height == 0
      ensures Valid()
    {
      data := [];
      width := 0;
      height := 0;
    }

    /** `Grid(width, height, fill)`, used by the puzzles; its declaration is not part of this model. */
    constructor Filled(w: nat, h: nat, fill: T)
      ensures width == w && height == h && Valid()
      ensures forall i :: 0 <= i < |data| ==> data[i] == fill
    {
      data := seq(w * h, _ => fill);
      width := w;
      height := h;
    }

    function CalcIdx(x: int, y: int): int
      reads this
    {
      x + y * width
    }

    predicate PosOnGrid(x: int, y: int)
      reads this
    {
      0 <= x < width && 0 <= y < height
    }

    /** `idx_to_pos`: the inverse of `calc_idx` on the grid's indices. */
    function IdxToPos(idx: int): (r: Vec2)
      reads this
      requires Valid() && 0 <= idx < |data|
      ensures PosOnGrid(r.x, r.y) && CalcIdx(r.x, r.y) == idx
    {
      IndexSplits(width, height, idx);
      Vec2(idx % width, idx / width)
    }

    /** `try_get`: None off the grid, the cell's element on it. */
    function TryGet(x: int, y: int): (r: Option<T>)
      reads this
      requires Valid()
      ensures r.Some? <==> PosOnGrid(x, y)
    {
      if !PosOnGrid(x, y) then None
      else
        RowMajor(width, height, x, y);
        Some(data[CalcIdx(x, y)])
    }

    /** `get`, and `at` read through: out_of_range exactly off the grid, otherwise what `try_get` finds. */
    function Get(x: int, y: int): (r: Result<T>)
      reads this
      requires Valid()
      ensures r.Err? <==> !PosOnGrid(x, y)
      ensures r.Err? ==> r.error == OutOfRange
      ensures r.Ok? ==> TryGet(x, y) == Some(r.value)
    {
      if !PosOnGrid(x, y) then Err(OutOfRange)
      else
        RowMajor(width, height, x, y);
        Ok(data[CalcIdx(x, y)])
    }

    function TryGetAt(p: Vec2): Option<T>
      reads this
      requires Valid()
    {
      TryGet(p.x, p.y)
    }

    function GetAt(p: Vec2): Result<T>
      reads this
      requires Valid()
    {
      Get(p.x, p.y)
    }

    /** `set`, and `at` written through: only the addressed cell changes. */
    method Set(x: int, y: int, e: T) returns (out: Outcome)
      requires Valid()
      modifies this`data
      ensures Valid()
      ensures !PosOnGrid(x, y) ==> out == Fail(OutOfRange) && data == old(data)
      ensures PosOnGrid(x, y) ==> out == Pass && 0 <= CalcIdx(x, y) < |data| && data == old(data)[CalcIdx(x, y) := e]
      ensures PosOnGrid(x, y) ==> TryGet(x, y) == Some(e)
      ensures forall x2, y2 :: (x2 != x || y2 != y) ==> TryGet(x2, y2) == old(TryGet(x2, y2))
    {
      if !PosOnGrid(x, y) {
        return Fail(OutOfRange);
      }
      RowMajor(width, height, x, y);
      data := data[CalcIdx(x, y) := e];
      out := Pass;
      forall x2, y2 | x2 != x || y2 != y
        ensures TryGet(x2, y2) == old(TryGet(x2, y2))
      {
        if PosOnGrid(x2, y2) {
          RowMajor(width, height, x2, y2);
        }
      }
    }

    /** Appends every element of a row to the storage, one `push_back` at a time. */
    method AppendRow(row: seq<T>)
      modifies this`data
      ensures data == old(data) + row
    {
      var j := 0;
      while j < |row|
        invariant 0 <= j <= |row|
        invariant data == old(data) + row[..j]
      {
        data := data + [row[j]];
        j := j + 1;
      }
    }

    /**
     * The rows constructor: no rows give a 0-by-0 grid; a row whose length
     * differs from the first row's is an invalid_argument; otherwise the grid
     * is the rows laid out one after another.
     */
    static method FromRows(rows: seq<seq<T>>) returns (r: Result<Grid<T>>)
      ensures r.Err? <==> exists y :: 0 <= y < |rows| && |rows[y]| != |rows[0]|
      ensures r.Err? ==> r.error == InvalidArgument
      ensures r.Ok? ==> fresh(r.value) && r.value.Valid() && r.value.height == |rows|
      ensures r.Ok? ==> r.value.width == (if rows == [] then 0 else |rows[0]|) && r.value.data == Concat(rows)
      ensures r.Ok? ==> forall x, y :: r.value.PosOnGrid(x, y) ==> r.value.TryGet(x, y) == Some(rows[y][x])
    {
      var g := new Grid();
      if |rows| == 0 {
        return Ok(g);
      }
      g.width := |rows[0]|;
      g.height := |rows|;
      var y := 0;
      while y < |rows|
        invariant 0 <= y <= |rows|
        invariant g.width == |rows[0]| && g.height == |rows|
        invariant g.data == Concat(rows[..y])
        invariant SameWidth(rows[..y], g.width)
      {
        if |rows[y]| != g.width {
          return Err(InvalidArgument);
        }
        g.AppendRow(rows[y]);
        assert rows[..y + 1][..y] == rows[..y];
        y := y + 1;
      }
      assert rows[..y] == rows;
      ConcatLength(rows, g.width);
      forall x, y | g.PosOnGrid(x, y)
        ensures g.TryGet(x, y) == Some(rows[y][x])
      {
        ConcatCell(rows, g.width, x, y);
      }
      r := Ok(g);
    }

    /**
     * `push_row` as intended: a first row fixes the width, a later row of another
     * width is an out_of_range and changes nothing; an empty row is appended
     * (height grows) and then reported as a runtime_error.
     */
    method PushRow(row: seq<T>) returns (out: Outcome)
      requires Valid()
      modifies this
      ensures Valid()
      ensures old(height) != 0 && |row| != old(width) ==>
                out == Fail(OutOfRange) && data == old(data) && width == old(width) && height == old(height)
      ensures old(height) == 0 || |row| == old(width) ==>
                && data == old(data) + row && width == |row| && height == old(height) + 1
                && out == (if |row| == 0 then Fail(RuntimeError) else Pass)
      ensures out.Pass? ==> forall x, y :: PosOnGrid(x, y) ==>
                TryGet(x, y) == if y < old(height) then old(TryGet(x, y)) else Some(row[x])
    {
      if height != 0 && |row| != width {
        return Fail(OutOfRange);
      }
      width := |row|;
      AppendRow(row);
      height := height + 1;
      if width == 0 || height == 0 {
        return Fail(RuntimeError);
      }
      out := Pass;
      forall x, y | PosOnGrid(x, y)
        ensures TryGet(x, y) == if y < old(height) then old(TryGet(x, y)) else Some(row[x])
      {
        RowMajor(width, height, x, y);
        if y < old(height) {
          RowMajor(width, old(height), x, y);
        } else {
          assert x + y * width == |old(data)| + x;
        }
      }
    }

    /**
     * `push_row` as written: the width test is `width != 0`, so a grid whose rows
     * are all empty accepts a longer row and loses its row-major shape.
     */
    method PushRowAsWritten(row: seq<T>) returns (out: Outcome)
      requires Valid()
      modifies this
      ensures old(width) != 0 && |row| != old(width) ==>
                out == Fail(OutOfRange) && data == old(data) && width == old(width) && height == old(height)
      ensures old(width) == 0 || |row| == old(width) ==>
                && data == old(data) + row && width == |row| && height == old(height) + 1
                && out == (if |row| == 0 then Fail(RuntimeError) else Pass)
      ensures old(width) == 0 && old(height) != 0 && |row| != 0 ==> !Valid()
    {
      if width != 0 && |row| != width {
        return Fail(OutOfRange);
      }
      width := |row|;
      AppendRow(row);
      height := height + 1;
      if width == 0 || height == 0 {
        return Fail(RuntimeError);
      }
      out := Pass;
      if old(width) == 0 && old(height) != 0 {
        assert width * height == width * old(height) + width;
      }
    }

    /** `begin`: the cursor at index 0. */
    method Begin() returns (it: GridIterator<T>)
      ensures fresh(it) && it.parent == this && it.idx == 0 && it.Valid()
    {
      it := new GridIterator(0, 0, this);
    }

    /** `end`: built from (width, height - 1), which is index width * height, one past the last cell. */
    method End() returns (it: GridIterator<T>)
      ensures fresh(it) && it.parent == this && it.idx == width * height && it.Valid()
      ensures Valid() ==> it.ptr == None
    {
      it := new GridIterator(width, height - 1, this);
    }

    /** `begin_row(r)`: index r * width. */
    method BeginRow(r: int) returns (it: GridIterator<T>)
      ensures fresh(it) && it.parent == this && it.idx == r * width && it.Valid()
    {
      it := new GridIterator(0, r, this);
    }

    /** `end_row(r)`: index (r + 1) * width, where the next row begins. */
    method EndRow(r: int) returns (it: GridIterator<T>)
      ensures fresh(it) && it.parent == this && it.idx == (r + 1) * width && it.Valid()
    {
      it := new GridIterator(0, r + 1, this);
    }

    /** `begin_col(c)`: row 0 of column c. */
    method BeginCol(c: int) returns (it: GridColIterator<T>)
      ensures fresh(it) && it.parent == this && it.col == c && it.row == 0 && it.Valid()
    {
      it := new GridColIterator(c, 0, this);
    }

    /** `end_col(c)`: row height of column c, so end_col - begin_col == height. */
    method EndCol(c: int) returns (it: GridColIterator<T>)
      ensures fresh(it) && it.parent == this && it.col == c && it.row == height && it.Valid()
      ensures it.ptr == None
    {
      it := new GridColIterator(c, height, this);
    }

    /** `std::find` from index `from` to the end. */
    method Find(from: nat, elem: T) returns (i: nat)
      requires from <= |data|
      ensures from <= i <= |data|
      ensures i < |data| ==> data[i] == elem
      ensures forall j :: from <= j < i ==> data[j] != elem
    {
      i := from;
      while i < |data| && data[i] != elem
        invariant from <= i <= |data|
        invariant forall j :: from <= j < i ==> data[j] != elem
      {
        i := i + 1;
      }
    }

    /**
     * `find_elem_positions`: exactly the positions holding `elem`, in strictly
     * increasing row-major order.
     */
    method FindElemPositions(elem: T) returns (positions: seq<Vec2>)
      requires Valid()
      ensures forall k :: 0 <= k < |positions| ==> TryGet(positions[k].x, positions[k].y) == Some(elem)
      ensures forall x, y :: TryGet(x, y) == Some(elem) ==> Vec2(x, y) in positions
      ensures forall k, l :: 0 <= k < l < |positions| ==>
                CalcIdx(positions[k].x, positions[k].y) < CalcIdx(positions[l].x, positions[l].y)
    {
      positions := [];
      var start := 0;
      while true
        invariant 0 <= start <= |data|
        invariant forall k :: 0 <= k < |positions| ==>
                    PosOnGrid(positions[k].x, positions[k].y) && CalcIdx(positions[k].x, positions[k].y) < start
                    && TryGet(positions[k].x, positions[k].y) == Some(elem)
        invariant forall k, l :: 0 <= k < l < |positions| ==>
                    CalcIdx(positions[k].x, positions[k].y) < CalcIdx(positions[l].x, positions[l].y)
        invariant forall i :: 0 <= i < start && data[i] == elem ==> IdxToPos(i) in positions
        decreases |data| - start
      {
        var found := Find(start, elem);
        if found == |data| {
          forall x, y | TryGet(x, y) == Some(elem)
            ensures Vec2(x, y) in positions
          {
            RowMajor(width, height, x, y);
            assert IdxToPos(CalcIdx(x, y)) == Vec2(x, y);
          }
          return;
        }
        var p := IdxToPos(found);
        RowMajor(width, height, p.x, p.y);
        positions := positions + [p];
        start := found + 1;
      }
    }
  }

  // ---------------------------------------------------------------------------
  // GridIterator: a cursor over the flat index
  // ---------------------------------------------------------------------------

  class GridIterator<T(==)> {
    var idx: int
    /** The cached element pointer: Some(storage index), or None for a null pointer. */
    var ptr: Option<int>
    const parent: Grid<T>

    predicate IdxOnGrid(i: int)
      reads parent
    {
      0 <= i < |parent.data|
    }

    /** The pointer is set exactly when the index is a storage index. */
    ghost predicate Valid()
      reads this, parent
    {
      ptr == if IdxOnGrid(idx) then Some(idx) else None
    }

    constructor (column: int, row: int, parent: Grid<T>)
      ensures this.parent == parent && idx == column + row * parent.width && Valid()
    {
      this.parent := parent;
      idx := column + row * parent.width;
      new;
      ptr := if IdxOnGrid(idx) then Some(idx) else None;
    }

    /** `operator*`: the element the cursor stands on. */
    function Deref(): (r: T)
      reads this, parent
      requires Valid() && ptr.Some?
      ensures 0 <= idx < |parent.data| && r == parent.data[idx]
    {
      parent.data[ptr.value]
    }

    /** Prefix `++`. */
    method Inc()
      modifies this
      ensures idx == old(idx) + 1 && Valid()
      ensures ptr.Some? <==> 0 <= idx < |parent.data|
    {
      idx := idx + 1;
      ptr := if IdxOnGrid(idx) then Some(idx) else None;
    }

    /** Prefix `--`. */
    method Dec()
      modifies this
      ensures idx == old(idx) - 1 && Valid()
      ensures ptr.Some? <==> 0 <= idx < |parent.data|
    {
      idx := idx - 1;
      ptr := if IdxOnGrid(idx) then Some(idx) else None;
    }

    /** `+=`. */
    method AddAssign(n: int)
      modifies this
      ensures idx == old(idx) + n && Valid()
      ensures ptr.Some? <==> 0 <= idx < |parent.data|
    {
      idx := idx + n;
      ptr := if IdxOnGrid(idx) then Some(idx) else None;
    }

    /** `-=` is `+=` of the negation. */
    method SubAssign(n: int)
      modifies this
      ensures idx == old(idx) - n && Valid()
      ensures ptr.Some? <==> 0 <= idx < |parent.data|
    {
      AddAssign(-n);
    }

    /**
     * `it + n`: a new cursor n cells on, so (it + n) - it == n; it is
     * dereferenceable exactly when `it[n]` does not throw, and then reads the same cell.
     * `operator+` rebuilds the cursor from idx mod width and idx / width, so the
     * width must not be 0.
     */
    method Plus(n: int) returns (res: GridIterator<T>)
      requires parent.width > 0
      ensures fresh(res) && res.parent == parent && res.Valid()
      ensures res.Distance(this) == n
      ensures res.ptr.Some? <==> Subscript(n).Ok?
      ensures res.ptr.Some? ==> res.Deref() == Subscript(n).value
    {
      var column := idx % parent.width;
      var row := idx / parent.width;
      res := new GridIterator(column, row, parent);
      res.idx := idx + n;
      res.ptr := if IdxOnGrid(res.idx) then Some(res.idx) else None;
    }

    /** `it - n` is `it + (-n)`. */
    method Minus(n: int) returns (res: GridIterator<T>)
      requires parent.width > 0
      ensures fresh(res) && res.parent == parent && res.Valid()
      ensures res.Distance(this) == -n
    {
      res := Plus(-n);
    }

    /** `it[n]`: the cell n on, or out_of_range. */
    function Subscript(n: int): (r: Result<T>)
      reads this, parent
      ensures r.Ok? <==> 0 <= idx + n < |parent.data|
      ensures r.Err? ==> r.error == OutOfRange
    {
      if !IdxOnGrid(idx + n) then Err(OutOfRange) else Ok(parent.data[idx + n])
    }

    /** `it - other`, and `<=>`, compare the indices. */
    function Distance(other: GridIterator<T>): int
      reads this, other
    {
      idx - other.idx
    }

    /**
     * `==` compares indices; `operator==` asserts that equal cursors hold the same
     * pointer and that distinct cursors with a pointer hold different ones.
     */
    function Equal(other: GridIterator<T>): (r: bool)
      reads this, other, parent
      requires parent == other.parent
      ensures Valid() && other.Valid() && r ==> ptr == other.ptr
      ensures Valid() && other.Valid() && !r && ptr.Some? ==> ptr != other.ptr
    {
      idx == other.idx
    }
  }

  // ---------------------------------------------------------------------------
  // GridColIterator: a cursor down one column
  // ---------------------------------------------------------------------------

  class GridColIterator<T(==)> {
    var col: int
    var row: int
    /** The cached element pointer: Some(storage index), or None for a null pointer. */
    var ptr: Option<int>
    const parent: Grid<T>

    /** The pointer is set exactly when (col, row) is on the grid. */
    ghost predicate Valid()
      reads this, parent
    {
      ptr == if parent.PosOnGrid(col, row) then Some(parent.CalcIdx(col, row)) else None
    }

    constructor (column: int, row: int, parent: Grid<T>)
      ensures this.parent == parent && col == column && this.row == row && Valid()
    {
      this.parent := parent;
      col := column;
      this.row := row;
      new;
      ptr := if parent.PosOnGrid(col, row) then Some(parent.CalcIdx(col, row)) else None;
    }

    function Deref(): (r: T)
      reads this, parent
      requires parent.Valid() && Valid() && ptr.Some?
      ensures parent.TryGet(col, row) == Some(r)
    {
      RowMajor(parent.width, parent.height, col, row);
      parent.data[ptr.value]
    }

    /**
     * Points the cursor at (col, row) through `at`, which throws out_of_range
     * when the column is off the grid; the pointer is then left as it was.
     */
    method Repoint() returns (out: Outcome)
      modifies this`ptr
      ensures parent.PosOnGrid(col, row) ==> out == Pass && Valid()
      ensures !parent.PosOnGrid(col, row) ==> out == Fail(OutOfRange) && ptr == old(ptr)
    {
      if !parent.PosOnGrid(col, row) {
        return Fail(OutOfRange);
      }
      ptr := Some(parent.CalcIdx(col, row));
      out := Pass;
    }

    /**
     * Prefix `++`: one row down; the cursor is dereferenceable exactly when the new
     * row is on the grid, and an off-grid column makes the `at` call throw.
     */
    method Inc() returns (out: Outcome)
      modifies this`row, this`ptr
      ensures row == old(row) + 1
      ensures out.Pass? ==> Valid() && (ptr.Some? <==> 0 <= row < parent.height)
      ensures out.Fail? <==> 0 <= row < parent.height && !(0 <= col < parent.width)
      ensures out.Fail? ==> out.error == OutOfRange && ptr == old(ptr)
    {
      if row < parent.height - 1 && row >= -1 {
        row := row + 1;
        out := Repoint();
      } else {
        row := row + 1;
        ptr := None;
        out := Pass;
      }
    }

    /** Prefix `--`: one row up, symmetric to `Inc`. */
    method Dec() returns (out: Outcome)
      modifies this`row, this`ptr
      ensures row == old(row) - 1
      ensures out.Pass? ==> Valid() && (ptr.Some? <==> 0 <= row < parent.height)
      ensures out.Fail? <==> 0 <= row < parent.height && !(0 <= col < parent.width)
      ensures out.Fail? ==> out.error == OutOfRange && ptr == old(ptr)
    {
      if row > 0 && row <= parent.height {
        row := row - 1;
        out := Repoint();
      } else {
        row := row - 1;
        ptr := None;
        out := Pass;
      }
    }

    /** `+=`. */
    method AddAssign(n: int) returns (out: Outcome)
      modifies this`row, this`ptr
      ensures row == old(row) + n
      ensures out.Pass? ==> Valid() && (ptr.Some? <==> 0 <= row < parent.height)
      ensures out.Fail? <==> 0 <= row < parent.height && !(0 <= col < parent.width)
      ensures out.Fail? ==> out.error == OutOfRange && ptr == old(ptr)
    {
      row := row + n;
      if row < 0 || row >= parent.height {
        ptr := None;
        out := Pass;
      } else {
        out := Repoint();
      }
    }

    /** `-=` is `+=` of the negation. */
    method SubAssign(n: int) returns (out: Outcome)
      modifies this`row, this`ptr
      ensures row == old(row) - n
      ensures out.Pass? ==> Valid() && (ptr.Some? <==> 0 <= row < parent.height)
      ensures out.Fail? <==> 0 <= row < parent.height && !(0 <= col < parent.width)
    {
      out := AddAssign(-n);
    }

    /** `it + n`: a new cursor n rows down, so (it + n) - it == n. */
    method Plus(n: int) returns (r: Result<GridColIterator<T>>)
      ensures r.Err? <==> 0 <= row + n < parent.height && !(0 <= col < parent.width)
      ensures r.Err? ==> r.error == OutOfRange
      ensures r.Ok? ==> fresh(r.value) && r.value.parent == parent && r.value.col == col && r.value.Valid()
      ensures r.Ok? ==> r.value.Distance(this) == n
    {
      var res := new GridColIterator(col, row + n, parent);
      if res.row < 0 || res.row >= parent.height {
        res.ptr := None;
      } else {
        var out := res.Repoint();
        if out.Fail? {
          return Err(OutOfRange);
        }
      }
      r := Ok(res);
    }

    /** `it - n` is `it + (-n)`. */
    method Minus(n: int) returns (r: Result<GridColIterator<T>>)
      ensures r.Err? <==> 0 <= row - n < parent.height && !(0 <= col < parent.width)
      ensures r.Ok? ==> fresh(r.value) && r.value.parent == parent && r.value.Valid()
      ensures r.Ok? ==> r.value.Distance(this) == -n
    {
      r := Plus(-n);
    }

    /**
     * `it[n]` reads row `row - n`, the opposite sign to `GridIterator`, and throws
     * out_of_range off the grid.
     */
    function Subscript(n: int): (r: Result<T>)
      reads this, parent
      requires parent.Valid()
      ensures r.Ok? <==> parent.PosOnGrid(col, row - n)
      ensures r.Err? ==> r.error == OutOfRange
      ensures r.Ok? ==> parent.TryGet(col, row - n) == Some(r.value)
    {
      var newRow := row - n;
      if newRow < 0 || newRow >= parent.height then Err(OutOfRange)
      else parent.Get(col, newRow)
    }

    /** `it - other`, and `<=>`, compare the rows. */
    function Distance(other: GridColIterator<T>): int
      reads this, other
    {
      row - other.row
    }

    /** `==` compares rows; `operator==` asserts equal cursors hold the same pointer. */
    function Equal(other: GridColIterator<T>): (r: bool)
      reads this, other, parent
      requires parent == other.parent && col == other.col
      ensures Valid() && other.Valid() && r ==> ptr == other.ptr
    {
      row == other.row
    }
  }

  // ---------------------------------------------------------------------------
  // The `push_row` width test, as written and as intended
  // ---------------------------------------------------------------------------

  /** Two empty rows, then a row of three: as written, 3 cells for a 3-by-3 grid. */
  method EmptyRowsThenPushAsWritten() returns (g: Grid<char>, out: Outcome)
    ensures out == Pass && g.width == 3 && g.height == 3 && |g.data| == 3 && !g.Valid()
  {
    var r := Grid<char>.FromRows(["", ""]);
    g := r.value;
    out := g.PushRowAsWritten("abc");
  }

  /** The same calls with the intended test: the longer row is refused and the grid keeps its shape. */
  method EmptyRowsThenPush() returns (g: Grid<char>, out: Outcome)
    ensures out == Fail(OutOfRange) && g.width == 0 && g.height == 2 && g.Valid()
  {
    var r := Grid<char>.FromRows(["", ""]);
    g := r.value;
    out := g.PushRow("abc");
  }
}
