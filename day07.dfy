/**
 * Day 7 (day-07/day-07.cpp): each line `R: o1 o2 ...` is an equation whose
 * operands must be combined strictly left to right by operators chosen from a
 * given list so that the result is R.  Part one allows `+` and `*`, part two
 * also the decimal concatenation `concat_op`; the answer is the sum of the
 * results of the solvable equations.
 *
 * The lines are tokenised as `line_tokenise` evidently intends (`Lex`, the
 * result of `AocIo.LineTokenise`).  As written, `line_tokenise` reads the
 * character after a token that runs to the end of the line with `at`, so on
 * every equation line it throws out_of_range after its last token and
 * `parse_equations` never returns (`AocIo.EquationLineAsWritten`).
 */
module Day07 {
  import opened Wrappers
  import opened AocIo

  datatype Equation = Equation(result: int, operands: seq<int>)

  // ---------------------------------------------------------------------------
  // Parsing
  // ---------------------------------------------------------------------------

  /** The tokens of a line: split at ':' and ' ', keeping each ':' as a token. */
  function Tokens(line: string): seq<string>
  {
    Lex(line, ": ", ":", 0, [])
  }

  /**
   * The equation of a line's tokens: the result, ':', then at least two
   * operands; invalid_argument otherwise.
   */
  function EquationOf(toks: seq<string>): (r: Result<Equation>)
    ensures r.Ok? ==> |r.value.operands| == |toks| - 2 >= 2
    ensures r.Err? ==> r.error == InvalidArgument
  {
    if |toks| < 3 || toks[1] != ":" || ParseNum(toks[0]).Err? then Err(InvalidArgument)
    else
      var rest := toks[2..];
      if exists i :: 0 <= i < |rest| && ParseNum(rest[i]).Err? then Err(InvalidArgument)
      else if |rest| < 2 then Err(InvalidArgument)
      else Ok(Equation(ParseNum(toks[0]).value, seq(|rest|, i requires 0 <= i < |rest| => ParseNum(rest[i]).value)))
  }

  /** The checks of one line of `parse_equations`, in the order `parse_equations` makes them. */
  method ParseEquation(line: string) returns (r: Result<Equation>)
    ensures r == EquationOf(Tokens(line))
  {
    assert PreservedAreDelims(": ", ":");
    var toks, _ := LineTokenise(line, ": ", ":", []);
    assert toks == Tokens(line);
    if |toks| < 3 || toks[1] != ":" {
      return Err(InvalidArgument);
    }
    var result := ParseNum(toks[0]);
    if result.Err? {
      return Err(InvalidArgument);
    }
    var operands := ParseTokens(toks[2..]);
    if operands.Err? || |operands.value| < 2 {
      return Err(InvalidArgument);
    }
    r := Ok(Equation(result.value, operands.value));
    assert operands.value == seq(|toks| - 2, i requires 0 <= i < |toks| - 2 => ParseNum(toks[2..][i]).value);
  }

  /** `parse_equations`: one equation per line, in order, or the first line's invalid_argument. */
  method ParseEquations(lines: seq<string>) returns (r: Result<seq<Equation>>)
    ensures r.Ok? <==> forall i :: 0 <= i < |lines| ==> EquationOf(Tokens(lines[i])).Ok?
    ensures r.Ok? ==> |r.value| == |lines| &&
                      forall i :: 0 <= i < |lines| ==> r.value[i] == EquationOf(Tokens(lines[i])).value
    ensures r.Err? ==> r.error == InvalidArgument
  {
    var equations: seq<Equation> := [];
    var i := 0;
    while i < |lines|
      invariant 0 <= i <= |lines| && |equations| == i
      invariant forall j :: 0 <= j < i ==>
                  EquationOf(Tokens(lines[j])).Ok? && equations[j] == EquationOf(Tokens(lines[j])).value
    {
      var eq := ParseEquation(lines[i]);
      if eq.Err? {
        return Err(eq.error);
      }
      equations := equations + [eq.value];
      i := i + 1;
    }
    r := Ok(equations);
  }

  // ---------------------------------------------------------------------------
  // concat_op
  // ---------------------------------------------------------------------------

  function Pow10(k: nat): (p: nat)
    ensures p >= 1
  {
    if k == 0 then 1 else 10 * Pow10(k - 1)
  }

  /** The number of decimal digits of r, at least one (a negative r counts as one digit). */
  function Digits(r: int): (d: nat)
    ensures d >= 1
    decreases if r < 0 then 0 else r
  {
    if r < 10 then 1 else 1 + Digits(r / 10)
  }

  /** The power of ten `concat_op` multiplies by is the least power 10^k with k >= 1 beyond r. */
  lemma {:induction false} DigitsLeast(r: int)
    ensures r < Pow10(Digits(r))
    ensures forall k :: 1 <= k < Digits(r) ==> Pow10(k) <= r
    decreases if r < 0 then 0 else r
  {
    if r >= 10 {
      DigitsLeast(r / 10);
      forall k | 1 <= k < Digits(r)
        ensures Pow10(k) <= r
      {
        if k > 1 {
          assert Pow10(k - 1) <= r / 10;
        }
      }
    }
  }

  /** The operator `concat_op`: the decimal digits of lhs followed by those of rhs. */
  function Concat(lhs: int, rhs: int): int
  {
    lhs * Pow10(Digits(rhs)) + rhs
  }

  /** `concat_op`: multiplies n by ten until it exceeds rhs. */
  method ConcatOp(lhs: int, rhs: int) returns (v: int)
    ensures v == Concat(lhs, rhs)
  {
    DigitsLeast(rhs);
    var n := 10;
    ghost var k := 1;
    while n <= rhs
      invariant 1 <= k <= Digits(rhs) && n == Pow10(k)
      decreases rhs - n
    {
      n := n * 10;
      k := k + 1;
    }
    return lhs * n + rhs;
  }

  lemma DivModTen(a: int, r: nat)
    ensures (a * 10 + r) / 10 == a + r / 10
    ensures (a * 10 + r) % 10 == r % 10
  {
  }

  /** Dropping the last digit of rhs drops the last digit of the concatenation. */
  lemma ConcatStep(lhs: nat, rhs: nat)
    requires rhs >= 10
    ensures Concat(lhs, rhs) == Concat(lhs, rhs / 10) * 10 + rhs % 10
  {
    var d := Digits(rhs);
    assert Pow10(d) == 10 * Pow10(d - 1);
    assert rhs == (rhs / 10) * 10 + rhs % 10;
    calc {
      Concat(lhs, rhs);
      lhs * (10 * Pow10(d - 1)) + (rhs / 10) * 10 + rhs % 10;
      (lhs * Pow10(d - 1) + rhs / 10) * 10 + rhs % 10;
    }
  }

  /** Writing `concat_op(lhs, rhs)` in decimal writes lhs and then rhs. */
  lemma {:induction false} ConcatShows(lhs: nat, rhs: nat)
    requires lhs > 0
    ensures Concat(lhs, rhs) >= 0 && ShowNat(Concat(lhs, rhs)) == ShowNat(lhs) + ShowNat(rhs)
    decreases rhs
  {
    var c := Concat(lhs, rhs);
    var init, last := lhs, rhs;
    if rhs < 10 {
      assert c == lhs * 10 + rhs;
    } else {
      ConcatShows(lhs, rhs / 10);
      ConcatStep(lhs, rhs);
      init, last := Concat(lhs, rhs / 10), rhs % 10;
    }
    DivModTen(init, last);
    assert c / 10 == init && c % 10 == last && c >= 10;
    assert ShowNat(c) == ShowNat(init) + [('0' as int + last) as char];
  }

  // ---------------------------------------------------------------------------
  // Solvability
  // ---------------------------------------------------------------------------

  datatype Op = Plus | Times | Cat

  function Apply(op: Op, lhs: int, rhs: int): int
  {
    match op
    case Plus => lhs + rhs
    case Times => lhs * rhs
    case Cat => Concat(lhs, rhs)
  }

  /** The value of the operands xs[i..] combined left to right from acc, ops[j] at gap j. */
  function Fold(acc: int, xs: seq<int>, ops: seq<Op>): int
    requires |ops| == |xs|
    decreases |xs|
  {
    if xs == [] then acc else Fold(Apply(ops[0], acc, xs[0]), xs[1..], ops[1..])
  }

  /** The operators ops fill the gaps of xs and are all allowed. */
  predicate Choice(allowed: seq<Op>, xs: seq<int>, ops: seq<Op>)
  {
    |ops| == |xs| && forall j :: 0 <= j < |ops| ==> ops[j] in allowed
  }

  /**
   * The recursion of `equation_has_solution`: at operand idx with the value
   * acc so far, some allowed operator leads to a solution; the first operand
   * is taken as it is.
   */
  function Search(allowed: seq<Op>, eq: Equation, idx: nat, acc: int): bool
    requires idx <= |eq.operands|
    decreases |eq.operands| - idx
  {
    if idx == |eq.operands| then acc == eq.result
    else if idx == 0 then Search(allowed, eq, 1, eq.operands[0])
    else exists k :: 0 <= k < |allowed| && Search(allowed, eq, idx + 1, Apply(allowed[k], acc, eq.operands[idx]))
  }

  /**
   * An equation is solvable when some allowed operators between its operands,
   * evaluated strictly left to right, give its result; with no operands the
   * value is 0.
   */
  ghost predicate Solvable(allowed: seq<Op>, eq: Equation)
  {
    if eq.operands == [] then eq.result == 0
    else exists ops :: Choice(allowed, eq.operands[1..], ops) && Fold(eq.operands[0], eq.operands[1..], ops) == eq.result
  }

  /** From operand idx on, the search succeeds exactly when some operator choice for the rest succeeds. */
  lemma {:induction false} SearchFrom(allowed: seq<Op>, eq: Equation, idx: nat, acc: int)
    requires 1 <= idx <= |eq.operands|
    ensures Search(allowed, eq, idx, acc) <==>
              exists ops :: Choice(allowed, eq.operands[idx..], ops) && Fold(acc, eq.operands[idx..], ops) == eq.result
    decreases |eq.operands| - idx
  {
    var xs := eq.operands[idx..];
    if idx == |eq.operands| {
      assert Choice(allowed, xs, []) && Fold(acc, xs, []) == acc;
    } else {
      assert xs[1..] == eq.operands[idx + 1..];
      if Search(allowed, eq, idx, acc) {
        var k :| 0 <= k < |allowed| && Search(allowed, eq, idx + 1, Apply(allowed[k], acc, eq.operands[idx]));
        SearchFrom(allowed, eq, idx + 1, Apply(allowed[k], acc, eq.operands[idx]));
        var rest :| Choice(allowed, xs[1..], rest) && Fold(Apply(allowed[k], acc, xs[0]), xs[1..], rest) == eq.result;
        var ops := [allowed[k]] + rest;
        assert ops[1..] == rest;
        assert Choice(allowed, xs, ops) && Fold(acc, xs, ops) == eq.result;
      }
      if exists ops :: Choice(allowed, xs, ops) && Fold(acc, xs, ops) == eq.result {
        var ops :| Choice(allowed, xs, ops) && Fold(acc, xs, ops) == eq.result;
        var k :| 0 <= k < |allowed| && allowed[k] == ops[0];
        var next := Apply(allowed[k], acc, eq.operands[idx]);
        assert Choice(allowed, xs[1..], ops[1..]) && Fold(next, xs[1..], ops[1..]) == eq.result;
        SearchFrom(allowed, eq, idx + 1, next);
      }
    }
  }

  /** `equation_has_solution` from operand 0 decides solvability. */
  lemma SearchSolvable(allowed: seq<Op>, eq: Equation)
    ensures Search(allowed, eq, 0, 0) <==> Solvable(allowed, eq)
  {
    if eq.operands != [] {
      SearchFrom(allowed, eq, 1, eq.operands[0]);
      assert eq.operands[1..] == eq.operands[1..];
    }
  }

  /** Allowing more operators never makes a solvable equation unsolvable. */
  lemma MoreOperators(allowed: seq<Op>, more: seq<Op>, eq: Equation)
    requires forall op :: op in allowed ==> op in more
    requires Solvable(allowed, eq)
    ensures Solvable(more, eq)
  {
    if eq.operands != [] {
      var ops :| Choice(allowed, eq.operands[1..], ops) && Fold(eq.operands[0], eq.operands[1..], ops) == eq.result;
      assert Choice(more, eq.operands[1..], ops);
    }
  }

  /** One operator of the list as `part_one` applies it: `concat_op` runs its loop. */
  method ApplyOp(op: Op, lhs: int, rhs: int) returns (v: int)
    ensures v == Apply(op, lhs, rhs)
  {
    match op
    case Plus => v := lhs + rhs;
    case Times => v := lhs * rhs;
    case Cat => v := ConcatOp(lhs, rhs);
  }

  /** `equation_has_solution`: tries the operators in order and stops at the first that leads to a solution. */
  method EquationHasSolution(allowed: seq<Op>, eq: Equation, idx: nat, acc: int) returns (b: bool)
    requires idx <= |eq.operands|
    ensures b == Search(allowed, eq, idx, acc)
    decreases |eq.operands| - idx
  {
    if idx == |eq.operands| {
      return acc == eq.result;
    } else if idx == 0 {
      b := EquationHasSolution(allowed, eq, 1, eq.operands[0]);
      return;
    }
    var i := 0;
    while i < |allowed|
      invariant 0 <= i <= |allowed|
      invariant forall k :: 0 <= k < i ==> !Search(allowed, eq, idx + 1, Apply(allowed[k], acc, eq.operands[idx]))
    {
      var current := ApplyOp(allowed[i], acc, eq.operands[idx]);
      b := EquationHasSolution(allowed, eq, idx + 1, current);
      if b {
        return;
      }
      i := i + 1;
    }
    b := false;
  }

  // ---------------------------------------------------------------------------
  // The total
  // ---------------------------------------------------------------------------

  /** The sum of the results of the solvable equations. */
  ghost function Total(allowed: seq<Op>, eqs: seq<Equation>): int
  {
    if eqs == [] then 0
    else Total(allowed, eqs[..|eqs| - 1]) + (if Solvable(allowed, eqs[|eqs| - 1]) then eqs[|eqs| - 1].result else 0)
  }

  /** The equations may be summed in any split into consecutive parts, as the parallel reduction does. */
  lemma {:induction false} TotalSplit(allowed: seq<Op>, a: seq<Equation>, b: seq<Equation>)
    ensures Total(allowed, a + b) == Total(allowed, a) + Total(allowed, b)
    decreases |b|
  {
    if b == [] {
      assert a + b == a;
    } else {
      var b' := b[..|b| - 1];
      assert (a + b)[..|a + b| - 1] == a + b';
      assert (a + b)[|a + b| - 1] == b[|b| - 1];
      TotalSplit(allowed, a, b');
    }
  }

  /** With results that are not negative, more operators never lower the total. */
  lemma {:induction false} TotalGrows(allowed: seq<Op>, more: seq<Op>, eqs: seq<Equation>)
    requires forall op :: op in allowed ==> op in more
    requires forall j :: 0 <= j < |eqs| ==> eqs[j].result >= 0
    ensures Total(allowed, eqs) <= Total(more, eqs)
    decreases |eqs|
  {
    if eqs != [] {
      TotalGrows(allowed, more, eqs[..|eqs| - 1]);
      if Solvable(allowed, eqs[|eqs| - 1]) {
        MoreOperators(allowed, more, eqs[|eqs| - 1]);
      }
    }
  }

  /** The operators of part one, and of part two. */
  function Operators(partTwo: bool): (ops: seq<Op>)
    ensures Plus in ops && Times in ops && (Cat in ops <==> partTwo)
  {
    if partTwo then [Plus, Times, Cat] else [Plus, Times]
  }

  /** The answer: the parse error, or the total of the solvable equations. */
  ghost function Answer(lines: seq<string>, partTwo: bool): Result<int>
  {
    if exists i :: 0 <= i < |lines| && EquationOf(Tokens(lines[i])).Err? then Err(InvalidArgument)
    else Ok(Total(Operators(partTwo), seq(|lines|, i requires 0 <= i < |lines| => EquationOf(Tokens(lines[i])).value)))
  }

  /** `part_one(lines, part_two)`, with the reduction done in order. */
  method PartOne(lines: seq<string>, partTwo: bool) returns (r: Result<int>)
    ensures r == Answer(lines, partTwo)
  {
    var parsed := ParseEquations(lines);
    if parsed.Err? {
      return Err(parsed.error);
    }
    var equations := parsed.value;
    ghost var want := seq(|lines|, i requires 0 <= i < |lines| => EquationOf(Tokens(lines[i])).value);
    assert equations == want;
    var operators := Operators(partTwo);
    var sum := 0;
    var i := 0;
    while i < |equations|
      invariant 0 <= i <= |equations|
      invariant sum == Total(operators, equations[..i])
    {
      var solvable := EquationHasSolution(operators, equations[i], 0, 0);
      SearchSolvable(operators, equations[i]);
      assert equations[..i + 1][..i] == equations[..i];
      sum := sum + if solvable then equations[i].result else 0;
      i := i + 1;
    }
    assert equations[..i] == equations;
    r := Ok(sum);
  }

  /** `part_two`: part one with `concat_op` allowed as well. */
  method PartTwo(lines: seq<string>) returns (r: Result<int>)
    ensures r == Answer(lines, true)
  {
    r := PartOne(lines, true);
  }

}
