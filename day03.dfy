/**
 * Day 3 (day-03/day-03.cpp): a corrupted memory dump holds instructions
 * `mul(a,b)` among noise; the answer is the sum of their products.  In part
 * two the most recent `do()` / `don't()` before an instruction switches it
 * on or off.
 */
module Day03 {
  import opened Wrappers
  import opened AocIo

  /** The most digits an operand may have. */
  const MAX_DIGITS := 3

  /** `std::reduce` of the lines with string concatenation. */
  function Concat(lines: seq<string>): (r: string)
    ensures |lines| > 0 ==> r == Concat(lines[..|lines| - 1]) + lines[|lines| - 1]
  {
    if lines == [] then "" else Concat(lines[..|lines| - 1]) + lines[|lines| - 1]
  }

  /** The scanned text: all lines joined, spaces and tabs removed. */
  function Input(lines: seq<string>): string
  {
    WithoutWhitespace(Concat(lines))
  }

  // ---------------------------------------------------------------------------
  // Searching
  // ---------------------------------------------------------------------------

  /** The text pat occurs in s starting at position p. */
  predicate StartsAt(s: string, pat: string, p: nat)
  {
    p + |pat| <= |s| && s[p..p + |pat|] == pat
  }

  /** `std::string::find(pat, i)`: the first occurrence at or after i. */
  function FindFrom(s: string, pat: string, i: nat): (r: Option<nat>)
    ensures r.Some? ==> i <= r.value && StartsAt(s, pat, r.value)
    ensures r.Some? ==> forall q :: i <= q < r.value ==> !StartsAt(s, pat, q)
    ensures r.None? ==> forall q :: i <= q ==> !StartsAt(s, pat, q)
    decreases |s| - i
  {
    if i + |pat| > |s| then None
    else if StartsAt(s, pat, i) then Some(i)
    else FindFrom(s, pat, i + 1)
  }

  /** `std::string::rfind(pat, p)`: the last occurrence starting at or before p. */
  function LastAt(s: string, pat: string, p: nat): (r: Option<nat>)
    ensures r.Some? ==> r.value <= p && StartsAt(s, pat, r.value)
    ensures r.Some? ==> forall q :: r.value < q <= p ==> !StartsAt(s, pat, q)
    ensures r.None? ==> forall q: nat :: q <= p ==> !StartsAt(s, pat, q)
  {
    if StartsAt(s, pat, p) then Some(p)
    else if p == 0 then None
    else LastAt(s, pat, p - 1)
  }

  // ---------------------------------------------------------------------------
  // What the scanner accepts
  // ---------------------------------------------------------------------------

  /**
   * An operand starting at i: at most three digits (none reads as 0) and then
   * the terminator; its value and the position after the terminator.
   */
  function Operand(s: string, i: nat, term: char): Option<(nat, nat)>
    requires i <= |s|
  {
    var k := DigitRun(s, i);
    if k - i > MAX_DIGITS || k == |s| || s[k] != term then None
    else Some((Decimal(s[i..k]), k + 1))
  }

  /** The product of a well-formed instruction `mul(a,b)` starting at p. */
  function MulAt(s: string, p: nat): Option<int>
  {
    if !StartsAt(s, "mul(", p) then None
    else match Operand(s, p + 4, ',')
      case None => None
      case Some((a, j)) =>
        match Operand(s, j, ')')
          case None => None
          case Some((b, _)) => Some(a * b)
  }

  /**
   * Part two's switch: on unless a `don't()` starts at or before p and no
   * `do()` starts after the last such `don't()` and at or before p.
   */
  predicate Enabled(s: string, p: nat, partTwo: bool)
  {
    !partTwo ||
      var dont := LastAt(s, "don't()", p);
      var doAt := LastAt(s, "do()", p);
      dont.None? || (doAt.Some? && doAt.value > dont.value)
  }

  /** What the position p adds to the sum. */
  function Contribution(s: string, p: nat, partTwo: bool): int
  {
    if MulAt(s, p).Some? && Enabled(s, p, partTwo) then MulAt(s, p).value else 0
  }

  /** The sum of the contributions of the positions p, p + 1, ... of s. */
  function SumFrom(s: string, p: nat, partTwo: bool): int
    decreases |s| - p
  {
    if p >= |s| then 0 else Contribution(s, p, partTwo) + SumFrom(s, p + 1, partTwo)
  }

  // ---------------------------------------------------------------------------
  // The scanner
  // ---------------------------------------------------------------------------

  /**
   * The `parse_operand` lambda: reads digits from i; stops at the terminator
   * (`','`, or `')'` for the last operand) and steps over it, gives up at a
   * fourth digit, at any other character or at the end.  Everything it steps
   * over is a digit or the terminator, never an 'm'.
   */
  method ParseOperand(s: string, i: nat, isLast: bool) returns (r: Option<int>, j: nat)
    requires i <= |s|
    ensures i <= j <= |s|
    ensures forall k :: i <= k < j ==> s[k] != 'm'
    ensures var term := if isLast then ')' else ',';
            r.Some? <==> Operand(s, i, term).Some?
    ensures var term := if isLast then ')' else ',';
            r.Some? ==> r.value == Operand(s, i, term).value.0 && j == Operand(s, i, term).value.1
  {
    var term := if isLast then ')' else ',';
    var num := 0;
    var nDigits := 0;
    j := i;
    while j < |s|
      invariant i <= j <= |s| && nDigits == j - i <= MAX_DIGITS
      invariant forall k :: i <= k < j ==> IsDigit(s[k])
      invariant num == Decimal(s[i..j])
    {
      var digit := ParseDigit(s[j]);
      if digit.None? {
        if s[j] == term {
          assert DigitRun(s, i) == j;
          return Some(num), j + 1;
        }
        assert DigitRun(s, i) == j;
        return None, j;
      }
      DecimalStep(s, i, j);
      num := num * 10 + digit.value;
      nDigits := nDigits + 1;
      j := j + 1;
      if nDigits > MAX_DIGITS {
        assert DigitRun(s, i) >= j;
        return None, j;
      }
    }
    assert DigitRun(s, i) == |s|;
    r := None;
  }

  /** One more digit: the value read so far times ten plus that digit. */
  lemma DecimalStep(s: string, i: nat, j: nat)
    requires i <= j < |s| && IsDigit(s[j])
    ensures Decimal(s[i..j + 1]) == Decimal(s[i..j]) * 10 + (s[j] as int - '0' as int)
  {
    assert s[i..j + 1][..j - i] == s[i..j];
  }

  /**
   * `part_one(lines, part_two)`: finds each `"mul("` in turn, reads the two
   * operands after it and adds their product when the instruction is
   * enabled; it resumes the search where the reading stopped.
   */
  method PartOne(lines: seq<string>, partTwo: bool) returns (mulSum: int)
    ensures mulSum == SumFrom(Input(lines), 0, partTwo)
  {
    var input := WithoutWhitespace(Concat(lines));
    mulSum := 0;
    var iStart := 0;
    while iStart < |input|
      invariant iStart <= |input|
      invariant mulSum + SumFrom(input, iStart, partTwo) == SumFrom(input, 0, partTwo)
      decreases |input| - iStart
    {
      var found := FindFrom(input, "mul(", iStart);
      if found.None? {
        SumSame(input, iStart, |input|, partTwo);
        return mulSum;
      }
      var p := found.value;
      SumSame(input, iStart, p, partTwo);
      var enabled := MulEnabled(input, p, partTwo);
      ghost var sum0 := mulSum;
      iStart, mulSum := Instruction(input, p, enabled, mulSum);
      assert mulSum == sum0 + Contribution(input, p, partTwo);
      NoInstructionBetween(input, p + 1, iStart);
      SumSame(input, p + 1, iStart, partTwo);
    }
  }

  /** The `mul_enabled` test of the scan loop, through `rfind`. */
  method MulEnabled(input: string, p: nat, partTwo: bool) returns (enabled: bool)
    ensures enabled == Enabled(input, p, partTwo)
  {
    enabled := true;
    if partTwo {
      var dontAt := LastAt(input, "don't()", p);
      var doAt := LastAt(input, "do()", p);
      if dontAt.Some? {
        if doAt.Some? && doAt.value > dontAt.value {
          enabled := true;
        } else {
          enabled := false;
        }
      }
    }
  }

  /**
   * The body of the scan for the `"mul("` found at p: steps past it and reads
   * the operands; the product is added when both read and `enabled` holds.
   */
  method Instruction(input: string, p: nat, enabled: bool, sum0: int) returns (iStart: nat, mulSum: int)
    requires StartsAt(input, "mul(", p)
    ensures p + 4 <= iStart <= |input|
    ensures forall k :: p < k < iStart ==> input[k] != 'm'
    ensures mulSum == sum0 + if MulAt(input, p).Some? && enabled then MulAt(input, p).value else 0
  {
    assert input[p + 1..p + 4] == input[p..p + 4][1..] == "ul(";
    mulSum := sum0;
    iStart := p + 4;
    var operandI := 0;
    var mulRes := 1;
    while operandI < 2
      invariant 0 <= operandI <= 2
      invariant p + 4 <= iStart <= |input|
      invariant forall k :: p < k < iStart ==> input[k] != 'm'
      invariant operandI == 0 ==> iStart == p + 4 && mulRes == 1 && mulSum == sum0
      invariant operandI == 1 ==> Operand(input, p + 4, ',') == Some((mulRes, iStart)) && mulSum == sum0
      invariant operandI == 2 ==> MulAt(input, p).Some? && mulSum == sum0 + if enabled then MulAt(input, p).value else 0
    {
      var isLast := operandI == 1;
      var op, next := ParseOperand(input, iStart, isLast);
      iStart := next;
      if op.None? {
        break;
      }
      mulRes := mulRes * op.value;
      if isLast && enabled {
        mulSum := mulSum + mulRes;
      }
      operandI := operandI + 1;
    }
  }

  // ---------------------------------------------------------------------------
  // Properties
  // ---------------------------------------------------------------------------

  /** Positions where no `"mul("` starts add nothing. */
  lemma {:induction false} SumSame(s: string, a: nat, b: nat, partTwo: bool)
    requires a <= b <= |s|
    requires forall q :: a <= q < b ==> !StartsAt(s, "mul(", q)
    ensures SumFrom(s, a, partTwo) == SumFrom(s, b, partTwo)
    decreases b - a
  {
    if a < b {
      SumSame(s, a + 1, b, partTwo);
    }
  }

  /** No `"mul("` starts on a stretch without an 'm'. */
  lemma NoInstructionBetween(s: string, a: nat, b: nat)
    requires forall k :: a <= k < b ==> k < |s| && s[k] != 'm'
    ensures forall q :: a <= q < b ==> !StartsAt(s, "mul(", q)
  {
    forall q | a <= q < b
      ensures !StartsAt(s, "mul(", q)
    {
      if q + 4 <= |s| {
        assert s[q..q + 4][0] == s[q] != 'm';
      }
    }
  }

  /** At one position part two adds at most what part one adds, and the same when it is switched on. */
  lemma ContributionBounds(s: string, p: nat)
    ensures 0 <= Contribution(s, p, true) <= Contribution(s, p, false)
    ensures Enabled(s, p, true) ==> Contribution(s, p, true) == Contribution(s, p, false)
  {
    if MulAt(s, p).Some? {
      var a := Operand(s, p + 4, ',').value.0;
      var b := Operand(s, Operand(s, p + 4, ',').value.1, ')').value.0;
      assert MulAt(s, p).value == a * b >= 0;
    }
  }

  /**
   * Part two's switch only removes products: its sum is at most part one's,
   * and equal when the text holds no `don't()`.
   */
  lemma {:induction false} PartTwoAtMostPartOne(s: string, p: nat)
    ensures SumFrom(s, p, true) <= SumFrom(s, p, false)
    ensures (forall q :: !StartsAt(s, "don't()", q)) ==> SumFrom(s, p, true) == SumFrom(s, p, false)
    decreases |s| - p
  {
    if p < |s| {
      PartTwoAtMostPartOne(s, p + 1);
      ContributionBounds(s, p);
      if forall q :: !StartsAt(s, "don't()", q) {
        assert LastAt(s, "don't()", p).None?;
      }
    }
  }

  /** A well-formed instruction is read. */
  lemma ReadsInstruction()
    ensures MulAt("mul(2,4)", 0) == Some(8)
  {
    assert StartsAt("mul(2,4)", "mul(", 0);
    assert DigitRun("mul(2,4)", 4) == 5;
    assert DigitRun("mul(2,4)", 6) == 7;
    assert Decimal("2") == 2 && Decimal("4") == 4;
  }

  /** An operand without digits reads as 0. */
  lemma EmptyOperandIsZero()
    ensures MulAt("mul(,5)", 0) == Some(0)
  {
    assert StartsAt("mul(,5)", "mul(", 0);
    assert DigitRun("mul(,5)", 4) == 4;
  }

  /** Operands of up to three digits are read in full. */
  lemma ReadsThreeDigits()
    ensures MulAt("mul(123,45)", 0) == Some(5535)
  {
    assert StartsAt("mul(123,45)", "mul(", 0);
    assert DigitRun("mul(123,45)", 4) == 7;
    assert DigitRun("mul(123,45)", 8) == 10;
    assert "mul(123,45)"[4..7] == "123" && "mul(123,45)"[8..10] == "45";
    assert Decimal("1") == 1 && Decimal("12") == 12 && Decimal("123") == 123;
    assert Decimal("4") == 4 && Decimal("45") == 45;
  }

  /** A fourth digit abandons the instruction. */
  lemma FourDigitsRejected()
    ensures MulAt("mul(1234,5)", 0) == None
  {
    assert StartsAt("mul(1234,5)", "mul(", 0);
    assert DigitRun("mul(1234,5)", 4) == 8;
  }

  /** A wrong bracket, a missing comma or a stray character abandons the instruction. */
  lemma MalformedRejected()
    ensures MulAt("mul(32,64]", 0) == None
    ensures MulAt("mul[3,7]", 0) == None
    ensures MulAt("mul(4*", 0) == None
  {
    assert StartsAt("mul(32,64]", "mul(", 0);
    assert DigitRun("mul(32,64]", 4) == 6;
    assert DigitRun("mul(32,64]", 7) == 9;
    assert "mul[3,7]"[0..4][3] == '[';
    assert StartsAt("mul(4*", "mul(", 0);
    assert DigitRun("mul(4*", 4) == 5;
  }
}
