/**
 * Day 17 (day-17/day-17.cpp): the three-bit computer.  A program is a list of
 * numbers read in pairs (opcode, operand); three registers A, B and C hold
 * `int`s, and running the program appends the values printed by `out` to a
 * comma-separated output string.
 *
 * The model has two layers.  `Machine` and `Step`/`Run` are a pure reference
 * semantics of one instruction and of a run; the class `Computer` keeps the
 * C++ class's mutable state (a three-slot register array, the program, the
 * instruction pointer and the output) and each of its methods is proved to
 * change that state exactly as the reference does.  Everything the C++ does
 * with 32-bit `int`s is written out: `^` on two's-complement bit patterns, `/`
 * and `%` truncating toward zero, and `1 << k`, which is undefined behaviour
 * outside 0..31.
 */
module Day17 {
  import opened Wrappers
  import opened Vec
  import Day14

  // ---------------------------------------------------------------------------
  // 32-bit int arithmetic
  // ---------------------------------------------------------------------------

  const IntMin: int := -0x8000_0000
  const IntMax: int := 0x7fff_ffff

  predicate Int32(x: int) { IntMin <= x <= IntMax }

  function Pow2(k: nat): (r: nat)
    ensures r >= 1
  {
    if k == 0 then 1 else 2 * Pow2(k - 1)
  }

  lemma {:induction false} Pow2Mono(j: nat, k: nat)
    requires j <= k
    ensures Pow2(j) <= Pow2(k)
  {
    if j < k {
      Pow2Mono(j, k - 1);
    }
  }

  lemma {:induction false} Pow2Add(a: nat, b: nat)
    ensures Pow2(a + b) == Pow2(a) * Pow2(b)
  {
    if b > 0 {
      Pow2Add(a, b - 1);
      assert Pow2(a + b) == 2 * Pow2(a + b - 1);
    }
  }

  lemma Pow2Values()
    ensures Pow2(30) == 0x4000_0000 && Pow2(31) == 0x8000_0000 && Pow2(32) == 0x1_0000_0000
  {
    assert Pow2(8) == 0x100 && Pow2(6) == 0x40;
    Pow2Add(8, 8);
    Pow2Add(16, 16);
    Pow2Add(8, 6);
    Pow2Add(16, 14);
    assert Pow2(31) == 2 * Pow2(30);
  }

  /** The two's-complement bit pattern of an int, as a number below 2^32. */
  function Unsigned(x: int): (u: nat)
    requires Int32(x)
    ensures u < 0x1_0000_0000
  {
    if x < 0 then x + 0x1_0000_0000 else x
  }

  /** The int whose two's-complement bit pattern is `u`. */
  function Signed(u: nat): (r: int)
    requires u < 0x1_0000_0000
    ensures Int32(r)
    ensures (r >= 0) == (u <= IntMax)
  {
    if u <= IntMax then u else u - 0x1_0000_0000
  }

  lemma PatternRoundTrip(x: int)
    requires Int32(x)
    ensures Signed(Unsigned(x)) == x
  {
  }

  /** Bitwise exclusive or of two naturals, lowest bit first. */
  function XorNat(a: nat, b: nat): nat
    decreases a + b
  {
    if a == 0 then b
    else if b == 0 then a
    else 2 * XorNat(a / 2, b / 2) + (if a % 2 == b % 2 then 0 else 1)
  }

  /** Exclusive or of two numbers below 2^n stays below 2^n. */
  lemma {:induction false} XorBelow(a: nat, b: nat, n: nat)
    requires a < Pow2(n) && b < Pow2(n)
    ensures XorNat(a, b) < Pow2(n)
    decreases a + b
  {
    if a != 0 && b != 0 {
      assert n > 0;
      XorBelow(a / 2, b / 2, n - 1);
    }
  }

  lemma {:induction false} XorNatUndo(a: nat, b: nat)
    ensures XorNat(XorNat(a, b), b) == a
    decreases a + b
  {
    if a != 0 && b != 0 {
      XorNatUndo(a / 2, b / 2);
      var c := XorNat(a, b);
      assert c / 2 == XorNat(a / 2, b / 2) && c % 2 == (if a % 2 == b % 2 then 0 else 1);
      if c != 0 {
        assert XorNat(c, b) == 2 * XorNat(c / 2, b / 2) + (if c % 2 == b % 2 then 0 else 1);
      }
    } else if a == 0 && b != 0 {
      XorNatSelf(b);
    }
  }

  lemma {:induction false} XorNatSelf(a: nat)
    ensures XorNat(a, a) == 0
    decreases a
  {
    if a != 0 {
      XorNatSelf(a / 2);
    }
  }

  /** `x ^ y` on two ints: exclusive or of their bit patterns. */
  function Xor32(x: int, y: int): (r: int)
    requires Int32(x) && Int32(y)
    ensures Int32(r)
  {
    Pow2Values();
    XorBelow(Unsigned(x), Unsigned(y), 32);
    Signed(XorNat(Unsigned(x), Unsigned(y)))
  }

  /** `^` with the same operand twice is the identity: `bxl` with one literal undoes itself. */
  lemma XorUndo(x: int, y: int)
    requires Int32(x) && Int32(y)
    ensures Xor32(Xor32(x, y), y) == x
  {
    Pow2Values();
    var c := XorNat(Unsigned(x), Unsigned(y));
    XorBelow(Unsigned(x), Unsigned(y), 32);
    assert Unsigned(Signed(c)) == c;
    XorNatUndo(Unsigned(x), Unsigned(y));
    PatternRoundTrip(x);
  }

  /** `^` of two non-negative ints is non-negative, and of two three-bit values a three-bit value. */
  lemma XorNonneg(x: int, y: int)
    requires 0 <= x <= IntMax && 0 <= y <= IntMax
    ensures 0 <= Xor32(x, y)
    ensures x < 8 && y < 8 ==> Xor32(x, y) < 8
  {
    Pow2Values();
    XorBelow(x, y, 31);
    if x < 8 && y < 8 {
      assert Pow2(3) == 8;
      XorBelow(x, y, 3);
    }
  }

  /**
   * `1 << k` on an int: 2^k up to k = 30, INT_MIN at k = 31 (the bit pattern
   * with only the sign bit set), and None where the shift is undefined.
   */
  function ShiftOne(k: int): (r: Option<int>)
    ensures r.Some? <==> 0 <= k <= 31
    ensures r.Some? ==> Int32(r.value) && (r.value > 0 || r.value == IntMin)
    ensures 0 <= k <= 30 ==> r.Some? && r.value > 0
  {
    if 0 <= k <= 30 then (Pow2Mono(k, 30); Pow2Values(); Some(Pow2(k)))
    else if k == 31 then Some(IntMin)
    else None
  }

  /** ShiftOne is the bit pattern 2^k read back as an int. */
  lemma ShiftIsPattern(k: int)
    requires 0 <= k <= 31
    ensures Pow2(k) < 0x1_0000_0000 && ShiftOne(k) == Some(Signed(Pow2(k)))
  {
    Pow2Values();
    Pow2Mono(k, 31);
  }

  /** C++ `/` on ints: the quotient truncated toward zero. */
  function TruncDiv(a: int, d: int): int
    requires d != 0
  {
    var q := Abs(a) / Abs(d);
    if (a < 0) == (d < 0) then q else -q
  }

  /** C++'s quotient and remainder put the dividend back together. */
  lemma DivisionIdentity(a: int, d: int)
    requires d != 0
    ensures TruncDiv(a, d) * d + Day14.CMod(a, d) == a
  {
    var q, m := Abs(a) / Abs(d), Abs(a) % Abs(d);
    assert Abs(a) == q * Abs(d) + m;
    if a >= 0 {
      assert Day14.CMod(a, d) == m;
      if d > 0 {
        assert TruncDiv(a, d) * d == q * Abs(d);
      } else {
        assert TruncDiv(a, d) * d == q * Abs(d);
      }
    } else {
      assert Day14.CMod(a, d) == -m;
      if d > 0 {
        assert TruncDiv(a, d) * d == -(q * Abs(d));
      } else {
        assert TruncDiv(a, d) * d == -(q * Abs(d));
      }
    }
  }

  /** A truncated quotient is no larger in magnitude than the dividend, and has the sign of a/d. */
  lemma TruncDivBound(a: int, d: int)
    requires d != 0
    ensures Abs(TruncDiv(a, d)) <= Abs(a)
    ensures a >= 0 && d > 0 ==> 0 <= TruncDiv(a, d) == a / d
  {
    QuotientBelow(Abs(a), Abs(d));
  }

  lemma QuotientBelow(n: nat, e: nat)
    requires e >= 1
    ensures n / e <= n
  {
    var q := n / e;
    assert q * e + n % e == n;
    if q > 0 {
      Day14.MulAtLeast(q, e);
    }
  }

  lemma QuotientHalf(n: nat, d: nat)
    requires d >= 2
    ensures 2 * (n / d) <= n
  {
    var q := n / d;
    assert q * d <= n;
    assert q * 2 <= q * d;
  }

  /** The quotient of an int by a power of two or by INT_MIN is an int. */
  lemma TruncDivInt32(a: int, d: int)
    requires Int32(a) && d != 0
    requires d != -1
    ensures Int32(TruncDiv(a, d))
  {
    TruncDivBound(a, d);
    if a == IntMin && d != 1 {
      QuotientHalf(Abs(a), Abs(d));
    }
  }

  // ---------------------------------------------------------------------------
  // The reference semantics
  // ---------------------------------------------------------------------------

  /** Registers A, B, C at indices 0, 1, 2; `pc` indexes the program. */
  datatype Machine = Machine(regs: seq<int>, program: seq<int>, pc: int, output: string)

  /** What happened to one instruction: it finished, it threw, or it was undefined behaviour. */
  datatype Signal = Continue | Raise(error: Error) | Undefined

  /** How a run ended: the pc left the program, an instruction did not continue, or the fuel ran out. */
  datatype Stop = Halted | Faulted(signal: Signal) | OutOfFuel

  /** Every number the machine holds fits in an int. */
  ghost predicate Wellformed(m: Machine)
  {
    && |m.regs| == 3
    && (forall i :: 0 <= i < 3 ==> Int32(m.regs[i]))
    && (forall i :: 0 <= i < |m.program| ==> Int32(m.program[i]))
  }

  /** The loop condition of `run_program`: an opcode and its operand are left. */
  predicate Running(m: Machine)
  {
    m.pc < |m.program| - 1
  }

  /** The instruction at `pc` can read its operand. */
  predicate AtInstruction(m: Machine)
  {
    0 <= m.pc < |m.program| - 1
  }

  /** `register_read`: A, B, C are slots 0, 1, 2. */
  function RegisterIndex(name: char): (i: nat)
    requires 'A' <= name <= 'C'
    ensures i < 3 && i as char == name - 'A' as char
  {
    name as int - 'A' as int
  }

  /** `literal_operand`. */
  function Literal(m: Machine): int
    requires AtInstruction(m)
  {
    m.program[m.pc + 1]
  }

  /** `combo_operand`: 0..3 stand for themselves, 4..6 name A..C, anything larger throws. */
  function Combo(m: Machine): (r: Result<int>)
    requires |m.regs| == 3 && AtInstruction(m)
    ensures r.Err? <==> Literal(m) > 6
    ensures r.Err? ==> r.error == RuntimeError
    ensures Literal(m) <= 3 ==> r == Ok(Literal(m))
    ensures 4 <= Literal(m) <= 6 ==> r == Ok(m.regs[Literal(m) - 4])
  {
    var id := Literal(m);
    if id <= 3 then Ok(id)
    else if id <= 6 then Ok(m.regs[id - 4])
    else Err(RuntimeError)
  }

  /** The next instruction: pc moves past the operand. */
  function Next(m: Machine): Machine
  {
    m.(pc := m.pc + 2)
  }

  /** `dv`: A divided by 2^combo into register `target`; shared by adv, bdv and cdv. */
  function ExecDv(m: Machine, target: nat): (Signal, Machine)
    requires |m.regs| == 3 && AtInstruction(m) && target < 3
  {
    match Combo(m)
    case Err(e) => (Raise(e), m)
    case Ok(k) =>
      match ShiftOne(k)
      case None => (Undefined, m)
      case Some(denom) => (Continue, Next(m.(regs := m.regs[target := TruncDiv(m.regs[0], denom)])))
  }

  /** `bxl`: B ^= literal. */
  function ExecBxl(m: Machine): (Signal, Machine)
    requires Wellformed(m) && AtInstruction(m)
  {
    (Continue, Next(m.(regs := m.regs[1 := Xor32(m.regs[1], Literal(m))])))
  }

  /** `bst`: B = combo % 8, with C++'s remainder. */
  function ExecBst(m: Machine): (Signal, Machine)
    requires |m.regs| == 3 && AtInstruction(m)
  {
    match Combo(m)
    case Err(e) => (Raise(e), m)
    case Ok(k) => (Continue, Next(m.(regs := m.regs[1 := Day14.CMod(k, 8)])))
  }

  /** `jnz`: fall through when A is zero, otherwise jump to the literal. */
  function ExecJnz(m: Machine): (Signal, Machine)
    requires |m.regs| == 3 && AtInstruction(m)
  {
    if m.regs[0] == 0 then (Continue, Next(m))
    else (Continue, m.(pc := Literal(m)))
  }

  /** `bxc`: B ^= C (the operand is read and ignored). */
  function ExecBxc(m: Machine): (Signal, Machine)
    requires Wellformed(m) && AtInstruction(m)
  {
    (Continue, Next(m.(regs := m.regs[1 := Xor32(m.regs[1], m.regs[2])])))
  }

  /** The character `'0' + r` for a remainder of a division by 8. */
  function Digit(r: int): char
    requires -8 < r < 8
  {
    (48 + r) as char
  }

  /** `out`'s change to the output: a comma unless it is empty, then the digit. */
  function Emit(output: string, r: int): string
    requires -8 < r < 8
  {
    (if |output| > 0 then output + [','] else output) + [Digit(r)]
  }

  /** `out`: append combo % 8 to the output. */
  function ExecOut(m: Machine): (Signal, Machine)
    requires |m.regs| == 3 && AtInstruction(m)
  {
    match Combo(m)
    case Err(e) => (Raise(e), m)
    case Ok(k) => (Continue, Next(m.(output := Emit(m.output, Day14.CMod(k, 8)))))
  }

  /** One turn of `run_program`: fetch `program.at(pc)`, dispatch through `operations.at(opcode)`. */
  function Step(m: Machine): (Signal, Machine)
    requires Wellformed(m) && Running(m)
  {
    if m.pc < 0 then (Raise(OutOfRange), m)
    else
      var opcode := m.program[m.pc];
      if opcode == 0 then ExecDv(m, 0)
      else if opcode == 1 then ExecBxl(m)
      else if opcode == 2 then ExecBst(m)
      else if opcode == 3 then ExecJnz(m)
      else if opcode == 4 then ExecBxc(m)
      else if opcode == 5 then ExecOut(m)
      else if opcode == 6 then ExecDv(m, 1)
      else if opcode == 7 then ExecDv(m, 2)
      else (Raise(OutOfRange), m)
  }

  /** One step keeps every register an int and leaves the program alone. */
  lemma StepWellformed(m: Machine)
    requires Wellformed(m) && Running(m)
    ensures Wellformed(Step(m).1) && Step(m).1.program == m.program
  {
    if 0 <= m.pc && m.program[m.pc] in {0, 6, 7} {
      var target := if m.program[m.pc] == 0 then 0 else m.program[m.pc] - 5;
      assert Step(m) == ExecDv(m, target);
      if Combo(m).Ok? && ShiftOne(Combo(m).value).Some? {
        TruncDivInt32(m.regs[0], ShiftOne(Combo(m).value).value);
      }
    }
  }

  /**
   * `run_program` with at most `fuel` instructions: the machine where the loop
   * stops (or where the instruction that did not continue left it).
   */
  function Run(m: Machine, fuel: nat): (Stop, Machine)
    requires Wellformed(m)
    decreases fuel
  {
    if !Running(m) then (Halted, m)
    else if fuel == 0 then (OutOfFuel, m)
    else
      var (s, m') := Step(m);
      if s != Continue then (Faulted(s), m')
      else (StepWellformed(m); Run(m', fuel - 1))
  }

  // ---------------------------------------------------------------------------
  // Properties of the reference semantics
  // ---------------------------------------------------------------------------

  /** Every number in the program is an opcode or operand of three bits (the check of `parse`). */
  predicate ThreeBit(program: seq<int>)
  {
    forall i :: 0 <= i < |program| ==> 0 <= program[i] <= 7
  }

  /**
   * On a three-bit program that starts at pc 0 nothing is out of range: the
   * only exception left is combo operand 7, undefined behaviour needs a shift
   * outside 0..31, and the pc stays inside 0..7.
   */
  lemma ThreeBitStep(m: Machine)
    requires Wellformed(m) && Running(m) && ThreeBit(m.program) && 0 <= m.pc
    ensures Step(m).0 != Raise(OutOfRange)
    ensures Step(m).0.Raise? ==> Step(m).0.error == RuntimeError && Literal(m) == 7
    ensures Step(m).0 == Undefined ==>
      m.program[m.pc] in {0, 6, 7} && Combo(m).Ok? && !(0 <= Combo(m).value <= 31)
    ensures 0 <= Step(m).1.pc
  {
  }

  lemma {:induction false} ThreeBitRun(m: Machine, fuel: nat)
    requires Wellformed(m) && ThreeBit(m.program) && 0 <= m.pc
    ensures Run(m, fuel).0 != Faulted(Raise(OutOfRange))
    ensures Run(m, fuel).0.Faulted? && Run(m, fuel).0.signal.Raise? ==> Run(m, fuel).0.signal.error == RuntimeError
    decreases fuel
  {
    if Running(m) && fuel > 0 {
      ThreeBitStep(m);
      StepWellformed(m);
      if Step(m).0 == Continue {
        ThreeBitRun(Step(m).1, fuel - 1);
      }
    }
  }

  /** The output of `out` calls that printed `vs`, as `out` builds it. */
  function Join(vs: seq<int>): string
    requires forall i :: 0 <= i < |vs| ==> -8 < vs[i] < 8
  {
    if vs == [] then "" else Emit(Join(vs[..|vs| - 1]), vs[|vs| - 1])
  }

  /** Read the printed values back out of an output string, last first. */
  function Split(s: string): seq<int>
    decreases |s|
  {
    if |s| == 0 then []
    else if |s| == 1 then [s[0] as int - 48]
    else Split(s[..|s| - 2]) + [s[|s| - 1] as int - 48]
  }

  lemma {:induction false} JoinLength(vs: seq<int>)
    requires forall i :: 0 <= i < |vs| ==> -8 < vs[i] < 8
    ensures |Join(vs)| == if vs == [] then 0 else 2 * |vs| - 1
  {
    if vs != [] {
      JoinLength(vs[..|vs| - 1]);
    }
  }

  /** The output is the comma-separated values, so it splits back into them. */
  lemma {:induction false} SplitJoin(vs: seq<int>)
    requires forall i :: 0 <= i < |vs| ==> -8 < vs[i] < 8
    ensures Split(Join(vs)) == vs
  {
    if vs != [] {
      var init := vs[..|vs| - 1];
      SplitJoin(init);
      JoinLength(init);
      var s := Join(vs);
      if init == [] {
        assert s == [Digit(vs[0])];
      } else {
        assert s == Join(init) + [','] + [Digit(vs[|vs| - 1])];
        assert s[..|s| - 2] == Join(init);
      }
      assert vs == init + [vs[|vs| - 1]];
    }
  }

  /** A string made of `out`'s output: it is the join of the values it splits into. */
  ghost predicate Printed(output: string)
  {
    var vs := Split(output);
    (forall i :: 0 <= i < |vs| ==> -8 < vs[i] < 8) && Join(vs) == output
  }

  /** `out` on a printed output leaves a printed output one value longer. */
  lemma EmitPrinted(vs: seq<int>, r: int)
    requires forall i :: 0 <= i < |vs| ==> -8 < vs[i] < 8
    requires -8 < r < 8
    ensures Emit(Join(vs), r) == Join(vs + [r])
  {
    assert (vs + [r])[..|vs|] == vs;
  }

  /** `out` on a printed output leaves a printed output that extends it. */
  lemma EmitKeepsPrinted(output: string, r: int)
    requires Printed(output) && -8 < r < 8
    ensures Printed(Emit(output, r)) && output <= Emit(output, r)
  {
    var vs := Split(output);
    EmitPrinted(vs, r);
    var ws := vs + [r];
    assert forall i :: 0 <= i < |ws| ==> -8 < ws[i] < 8;
    SplitJoin(ws);
  }

  /** Only `out` touches the output, and it emits combo % 8. */
  lemma StepOutput(m: Machine)
    requires Wellformed(m) && Running(m)
    ensures Step(m).1.output == m.output
      || (AtInstruction(m) && Combo(m).Ok? && Step(m).1.output == Emit(m.output, Day14.CMod(Combo(m).value, 8)))
  {
  }

  /** One step either leaves the output alone or is `out`, which appends one printed value. */
  lemma StepPrinted(m: Machine)
    requires Wellformed(m) && Running(m) && Printed(m.output)
    ensures Printed(Step(m).1.output) && m.output <= Step(m).1.output
  {
    StepOutput(m);
    if Step(m).1.output != m.output {
      EmitKeepsPrinted(m.output, Day14.CMod(Combo(m).value, 8));
    }
  }

  /** A run only ever appends to the output, and what it appends keeps the comma-separated form. */
  lemma {:induction false} RunPrinted(m: Machine, fuel: nat)
    requires Wellformed(m) && Printed(m.output)
    ensures Printed(Run(m, fuel).1.output)
    ensures m.output <= Run(m, fuel).1.output
    decreases fuel
  {
    if !Running(m) || fuel == 0 {
      assert Run(m, fuel).1 == m;
    } else {
      StepWellformed(m);
      StepPrinted(m);
      var next := Step(m).1;
      if Step(m).0 == Continue {
        RunPrinted(next, fuel - 1);
        assert Run(m, fuel) == Run(next, fuel - 1);
      } else {
        assert Run(m, fuel).1 == next;
      }
    }
  }

  /** On a non-negative A every dv shift of 0..30 is floor division by 2^k, never larger than A. */
  lemma DvShrinks(m: Machine, target: nat)
    requires Wellformed(m) && AtInstruction(m) && target < 3
    requires m.regs[0] >= 0 && Combo(m).Ok? && 0 <= Combo(m).value <= 30
    ensures ExecDv(m, target).0 == Continue
    ensures ExecDv(m, target).1.regs[target] == m.regs[0] / Pow2(Combo(m).value)
    ensures 0 <= ExecDv(m, target).1.regs[target] <= m.regs[0]
  {
    TruncDivBound(m.regs[0], Pow2(Combo(m).value));
  }

  // ---------------------------------------------------------------------------
  // The computer
  // ---------------------------------------------------------------------------

  /** `Computer`: three registers, the program, the instruction pointer and the output so far. */
  class Computer {
    const registers: array<int>
    var program: seq<int>
    var pc: int
    var output: string

    /** The machine this computer is. */
    function State(): Machine
      reads this, registers
    {
      Machine(registers[..], program, pc, output)
    }

    ghost predicate Valid()
      reads this, registers
    {
      registers.Length == 3 && Wellformed(State())
    }

    /** A fresh computer; the registers, which C++ leaves unset until the parser writes them, start at zero. */
    constructor ()
      ensures Valid() && State() == Machine([0, 0, 0], [], 0, "")
      ensures fresh(registers)
    {
      registers := new int[3](_ => 0);
      program := [];
      pc := 0;
      output := "";
    }

    /** `register_read`. */
    function RegisterRead(name: char): int
      requires Valid() && 'A' <= name <= 'C'
      reads this, registers
    {
      registers[RegisterIndex(name)]
    }

    /** `register_write`. */
    method RegisterWrite(name: char, val: int)
      requires Valid() && 'A' <= name <= 'C' && Int32(val)
      modifies registers
      ensures Valid() && State() == old(State()).(regs := old(State()).regs[RegisterIndex(name) := val])
    {
      registers[RegisterIndex(name)] := val;
    }

    /** `literal_operand`. */
    function LiteralOperand(): int
      requires Valid() && AtInstruction(State())
      reads this, registers
    {
      Literal(State())
    }

    /** `combo_operand`. */
    function ComboOperand(): Result<int>
      requires Valid() && AtInstruction(State())
      reads this, registers
    {
      Combo(State())
    }

    /** `dv`: A / (1 << combo) into register `target`, then the next instruction. */
    method Dv(target: char) returns (s: Signal)
      requires Valid() && AtInstruction(State()) && 'A' <= target <= 'C'
      modifies this, registers
      ensures Valid() && (s, State()) == ExecDv(old(State()), RegisterIndex(target))
    {
      var num := RegisterRead('A');
      var k := ComboOperand();
      if k.Err? {
        return Raise(k.error);
      }
      var denom := ShiftOne(k.value);
      if denom.None? {
        return Undefined;
      }
      TruncDivInt32(num, denom.value);
      RegisterWrite(target, TruncDiv(num, denom.value));
      pc := pc + 2;
      s := Continue;
    }

    /** `adv` (opcode 0). */
    method Adv() returns (s: Signal)
      requires Valid() && AtInstruction(State()) && program[pc] == 0
      modifies this, registers
      ensures Valid() && (s, State()) == Step(old(State()))
    {
      s := Dv('A');
    }

    /** `bxl` (opcode 1). */
    method Bxl() returns (s: Signal)
      requires Valid() && AtInstruction(State()) && program[pc] == 1
      modifies this, registers
      ensures Valid() && (s, State()) == Step(old(State()))
    {
      RegisterWrite('B', Xor32(RegisterRead('B'), LiteralOperand()));
      pc := pc + 2;
      s := Continue;
    }

    /** `bst` (opcode 2). */
    method Bst() returns (s: Signal)
      requires Valid() && AtInstruction(State()) && program[pc] == 2
      modifies this, registers
      ensures Valid() && (s, State()) == Step(old(State()))
    {
      var k := ComboOperand();
      if k.Err? {
        return Raise(k.error);
      }
      RegisterWrite('B', Day14.CMod(k.value, 8));
      pc := pc + 2;
      s := Continue;
    }

    /** `jnz` (opcode 3). */
    method Jnz() returns (s: Signal)
      requires Valid() && AtInstruction(State()) && program[pc] == 3
      modifies this
      ensures Valid() && (s, State()) == Step(old(State()))
    {
      if RegisterRead('A') == 0 {
        pc := pc + 2;
      } else {
        pc := LiteralOperand();
      }
      s := Continue;
    }

    /** `bxc` (opcode 4); the operand it reads and drops is not modelled. */
    method Bxc() returns (s: Signal)
      requires Valid() && AtInstruction(State()) && program[pc] == 4
      modifies this, registers
      ensures Valid() && (s, State()) == Step(old(State()))
    {
      RegisterWrite('B', Xor32(RegisterRead('B'), RegisterRead('C')));
      pc := pc + 2;
      s := Continue;
    }

    /** `out` (opcode 5). */
    method Out() returns (s: Signal)
      requires Valid() && AtInstruction(State()) && program[pc] == 5
      modifies this
      ensures Valid() && (s, State()) == Step(old(State()))
    {
      var k := ComboOperand();
      if k.Err? {
        return Raise(k.error);
      }
      var c := Digit(Day14.CMod(k.value, 8));
      if |output| > 0 {
        output := output + [','];
      }
      output := output + [c];
      pc := pc + 2;
      s := Continue;
    }

    /** `bdv` (opcode 6). */
    method Bdv() returns (s: Signal)
      requires Valid() && AtInstruction(State()) && program[pc] == 6
      modifies this, registers
      ensures Valid() && (s, State()) == Step(old(State()))
    {
      s := Dv('B');
    }

    /** `cdv` (opcode 7). */
    method Cdv() returns (s: Signal)
      requires Valid() && AtInstruction(State()) && program[pc] == 7
      modifies this, registers
      ensures Valid() && (s, State()) == Step(old(State()))
    {
      s := Dv('C');
    }

    /** The body of `run_program`'s loop: `program.at(pc)`, then `operations.at(opcode)`. */
    method Execute() returns (s: Signal)
      requires Valid() && Running(State())
      modifies this, registers
      ensures Valid() && (s, State()) == Step(old(State()))
    {
      if pc < 0 {
        return Raise(OutOfRange);
      }
      var opcode := program[pc];
      if opcode == 0 {
        s := Adv();
      } else if opcode == 1 {
        s := Bxl();
      } else if opcode == 2 {
        s := Bst();
      } else if opcode == 3 {
        s := Jnz();
      } else if opcode == 4 {
        s := Bxc();
      } else if opcode == 5 {
        s := Out();
      } else if opcode == 6 {
        s := Bdv();
      } else if opcode == 7 {
        s := Cdv();
      } else {
        s := Raise(OutOfRange);
      }
    }

    /**
     * `run_program`: execute instructions until the pc no longer leaves room
     * for an opcode and its operand, for at most `fuel` instructions.
     */
    method RunProgram(fuel: nat) returns (stop: Stop)
      requires Valid()
      modifies this, registers
      ensures Valid() && (stop, State()) == Run(old(State()), fuel)
    {
      var left: nat := fuel;
      while pc < |program| - 1
        invariant Valid() && left <= fuel
        invariant Run(old(State()), fuel) == Run(State(), left)
        decreases left
      {
        if left == 0 {
          return OutOfFuel;
        }
        var s := Execute();
        if s != Continue {
          return Faulted(s);
        }
        left := left - 1;
      }
      stop := Halted;
    }

    /** `reset`: back to the first instruction with an empty output; registers and program stay. */
    method Reset()
      requires Valid()
      modifies this
      ensures Valid() && State() == old(State()).(pc := 0, output := "")
    {
      pc := 0;
      output := "";
    }

    /** `output`. */
    function Output(): string
      reads this
    {
      output
    }
  }

  // ---------------------------------------------------------------------------
  // ComputerParser
  // ---------------------------------------------------------------------------

  /** Some register is named twice among the "Register X: n" lines. */
  predicate RepeatsRegister(entries: seq<(char, int)>)
  {
    exists i, j :: 0 <= i < j < |entries| && entries[i].0 == entries[j].0
  }

  /** The registers after writing each entry's value to the register it names, in order. */
  function Assign(regs: seq<int>, entries: seq<(char, int)>): (r: seq<int>)
    requires |regs| == 3 && forall i :: 0 <= i < |entries| ==> 'A' <= entries[i].0 <= 'C'
    ensures |r| == 3
    ensures (forall i :: 0 <= i < 3 ==> Int32(regs[i])) && (forall i :: 0 <= i < |entries| ==> Int32(entries[i].1)) ==>
      forall i :: 0 <= i < 3 ==> Int32(r[i])
  {
    if entries == [] then regs
    else
      var last := entries[|entries| - 1];
      Assign(regs, entries[..|entries| - 1])[RegisterIndex(last.0) := last.1]
  }

  /** Without repeats, every register holds the value of the entry that names it. */
  lemma {:induction false} AssignNamed(regs: seq<int>, entries: seq<(char, int)>)
    requires |regs| == 3 && forall i :: 0 <= i < |entries| ==> 'A' <= entries[i].0 <= 'C'
    requires !RepeatsRegister(entries)
    ensures forall i :: 0 <= i < |entries| ==> Assign(regs, entries)[RegisterIndex(entries[i].0)] == entries[i].1
  {
    if entries != [] {
      var init := entries[..|entries| - 1];
      AssignNamed(regs, init);
      forall i | 0 <= i < |entries| - 1
        ensures Assign(regs, entries)[RegisterIndex(entries[i].0)] == entries[i].1
      {
        assert entries[i].0 != entries[|entries| - 1].0;
        assert init[i] == entries[i];
      }
    }
  }

  /** Three register lines without a repeat name each of A, B and C once. */
  lemma ThreeNamesCover(entries: seq<(char, int)>)
    requires |entries| == 3 && forall i :: 0 <= i < 3 ==> 'A' <= entries[i].0 <= 'C'
    requires !RepeatsRegister(entries)
    ensures {entries[0].0, entries[1].0, entries[2].0} == {'A', 'B', 'C'}
  {
    assert entries[0].0 != entries[1].0 && entries[0].0 != entries[2].0 && entries[1].0 != entries[2].0;
  }

  /**
   * `ComputerParser::registers` after tokenising: write the three register
   * lines into the computer in input order; false where a name repeats
   * (`invalid_argument`).
   */
  method ReadRegisters(c: Computer, entries: seq<(char, int)>) returns (ok: bool)
    requires c.Valid() && c.registers[..] == [0, 0, 0]
    requires |entries| == 3 && forall i :: 0 <= i < 3 ==> 'A' <= entries[i].0 <= 'C' && Int32(entries[i].1)
    modifies c.registers
    ensures c.Valid()
    ensures ok <==> !RepeatsRegister(entries)
    ensures ok ==> c.registers[..] == Assign([0, 0, 0], entries)
  {
    var seen: set<char> := {};
    for i := 0 to 3
      invariant c.Valid()
      invariant seen == set j | 0 <= j < i :: entries[j].0
      invariant !RepeatsRegister(entries[..i])
      invariant c.registers[..] == Assign([0, 0, 0], entries[..i])
    {
      var name := entries[i].0;
      if name in seen {
        var j :| 0 <= j < i && entries[j].0 == name;
        return false;
      }
      seen := seen + {name};
      c.registers[RegisterIndex(name)] := entries[i].1;
      assert entries[..i + 1][..i] == entries[..i];
    }
    assert entries[..3] == entries;
    ok := true;
  }

  /**
   * `ComputerParser::parse` after tokenising: the register lines, then the
   * program.  A register named twice and a program number outside 0..7 are
   * `invalid_argument`.
   */
  method Parse(entries: seq<(char, int)>, program: seq<int>) returns (r: Result<Computer>)
    requires |entries| == 3 && forall i :: 0 <= i < 3 ==> 'A' <= entries[i].0 <= 'C' && Int32(entries[i].1)
    requires forall i :: 0 <= i < |program| ==> Int32(program[i])
    ensures r.Err? <==> RepeatsRegister(entries) || !ThreeBit(program)
    ensures r.Err? ==> r.error == InvalidArgument
    ensures r.Ok? ==>
      && fresh(r.value) && fresh(r.value.registers) && r.value.Valid()
      && r.value.State() == Machine(Assign([0, 0, 0], entries), program, 0, "")
  {
    var c := new Computer();
    var ok := ReadRegisters(c, entries);
    if !ok {
      return Err(InvalidArgument);
    }
    c.program := program;
    for i := 0 to |program|
      invariant forall j :: 0 <= j < i ==> 0 <= program[j] <= 7
    {
      if program[i] < 0 || program[i] > 7 {
        return Err(InvalidArgument);
      }
    }
    r := Ok(c);
  }

  /**
   * `part_one`: parse, run, and return the output.  A failed parse stops with
   * `invalid_argument` and prints nothing.  A parsed program is three-bit, so
   * no instruction is out of range, and whatever the run prints is values
   * joined by commas.
   */
  method PartOne(entries: seq<(char, int)>, program: seq<int>, fuel: nat) returns (stop: Stop, output: string)
    requires |entries| == 3 && forall i :: 0 <= i < 3 ==> 'A' <= entries[i].0 <= 'C' && Int32(entries[i].1)
    requires forall i :: 0 <= i < |program| ==> Int32(program[i])
    ensures RepeatsRegister(entries) || !ThreeBit(program) ==> stop == Faulted(Raise(InvalidArgument)) && output == ""
    ensures !RepeatsRegister(entries) && ThreeBit(program) ==>
      && stop == Run(Machine(Assign([0, 0, 0], entries), program, 0, ""), fuel).0
      && output == Run(Machine(Assign([0, 0, 0], entries), program, 0, ""), fuel).1.output
    ensures stop != Faulted(Raise(OutOfRange)) && Printed(output)
  {
    var parsed := Parse(entries, program);
    if parsed.Err? {
      assert Printed("");
      return Faulted(Raise(InvalidArgument)), "";
    }
    var c := parsed.value;
    ghost var start := c.State();
    assert Printed(start.output);
    stop := c.RunProgram(fuel);
    output := c.Output();
    ThreeBitRun(start, fuel);
    RunPrinted(start, fuel);
  }
}
