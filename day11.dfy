/**
 * Day 11 (day-11/day-11.cpp): stones that change on every blink.  A 0
 * becomes 1, a stone with an even number of decimal digits splits into its
 * left and right halves, and any other stone is multiplied by 2024.  Part one
 * blinks a list 25 times; part two counts the stones after 75 blinks stone by
 * stone, with a cache of counts.
 */
module Day11 {
  import opened Wrappers
  import opened AocIo

  /** The largest exponent `log10_i64` and `pow10_i64` go up to. */
  const MaxExp := 18

  /** 2^63: every int64 value lies below it. */
  const Int64Limit := 0x8000_0000_0000_0000

  // ---------------------------------------------------------------------------
  // Powers of ten and decimal digits
  // ---------------------------------------------------------------------------

  function Pow10(e: nat): (r: nat)
    ensures r >= 1
  {
    if e == 0 then 1 else 10 * Pow10(e - 1)
  }

  lemma {:induction false} Pow10Add(a: nat, b: nat)
    ensures Pow10(a + b) == Pow10(a) * Pow10(b)
  {
    if a > 0 {
      Pow10Add(a - 1, b);
      assert Pow10(a + b) == 10 * Pow10(a - 1 + b);
    }
  }

  lemma {:induction false} Pow10Mono(a: nat, b: nat)
    requires a <= b
    ensures Pow10(a) <= Pow10(b)
  {
    if a < b {
      Pow10Mono(a, b - 1);
    }
  }

  /** ⌊log10 n⌋: one less than the number of decimal digits of n. */
  function FloorLog10(n: nat): nat
    requires n > 0
  {
    if n < 10 then 0 else 1 + FloorLog10(n / 10)
  }

  /** n lies between 10^⌊log10 n⌋ and the next power of ten. */
  lemma {:induction false} FloorLog10Bounds(n: nat)
    requires n > 0
    ensures Pow10(FloorLog10(n)) <= n < Pow10(FloorLog10(n) + 1)
  {
    if n >= 10 {
      FloorLog10Bounds(n / 10);
    }
  }

  /** The only e with 10^e <= n < 10^(e+1) is ⌊log10 n⌋. */
  lemma {:induction false} FloorLog10Unique(n: nat, e: nat)
    requires n > 0 && Pow10(e) <= n < Pow10(e + 1)
    ensures FloorLog10(n) == e
  {
    if e > 0 {
      assert Pow10(e) == 10 * Pow10(e - 1);
      FloorLog10Unique(n / 10, e - 1);
    }
  }

  /** A power of ten at most n has an exponent at most ⌊log10 n⌋. */
  lemma FloorLog10AtLeast(n: nat, e: nat)
    requires n > 0 && Pow10(e) <= n
    ensures e <= FloorLog10(n)
  {
    FloorLog10Bounds(n);
    if FloorLog10(n) < e {
      Pow10Mono(FloorLog10(n) + 1, e);
    }
  }

  /** ⌊log10 n⌋ with the cap of 18 that `log10_i64` applies. */
  function Log10Capped(n: nat): nat
    requires n > 0
  {
    if FloorLog10(n) < MaxExp then FloorLog10(n) else MaxExp
  }

  /** 10^19 exceeds every int64 value. */
  lemma Pow10Nineteen()
    ensures Pow10(MaxExp + 1) > Int64Limit
  {
    Pow10Add(10, 9);
    Pow10Add(5, 5);
    Pow10Add(4, 5);
  }

  /** On int64 values the cap never binds: `log10_i64` is ⌊log10 n⌋. */
  lemma CapNeverBinds(n: nat)
    requires 0 < n < Int64Limit
    ensures Log10Capped(n) == FloorLog10(n)
    ensures Pow10(Log10Capped(n)) <= n < Pow10(Log10Capped(n) + 1)
  {
    FloorLog10Bounds(n);
    Pow10Nineteen();
    FloorLog10AtMost(n, MaxExp + 1);
  }

  /** n below 10^e has ⌊log10 n⌋ below e. */
  lemma FloorLog10AtMost(n: nat, e: nat)
    requires 0 < n < Pow10(e)
    ensures FloorLog10(n) < e
  {
    FloorLog10Bounds(n);
    if e <= FloorLog10(n) {
      Pow10Mono(e, FloorLog10(n));
    }
  }

  /** `log10_i64`: multiplies up powers of ten while they stay at most n, at most 18 times. */
  method Log10I64(n: int) returns (exp: int)
    requires n > 0
    ensures exp == Log10Capped(n)
  {
    exp := 0;
    var powOf10 := 1;
    while exp < MaxExp && powOf10 * 10 <= n
      invariant 0 <= exp <= MaxExp && powOf10 == Pow10(exp) && powOf10 <= n
    {
      powOf10 := powOf10 * 10;
      exp := exp + 1;
    }
    FloorLog10AtLeast(n, exp);
    if exp < MaxExp {
      FloorLog10Unique(n, exp);
    }
  }

  /** `pow10_i64`: 0 for a negative exponent, otherwise 10 to the exponent capped at 18. */
  method Pow10I64(exp: int) returns (p: int)
    requires exp != 0
    ensures exp < 0 ==> p == 0
    ensures exp > 0 ==> p == Pow10(if exp < MaxExp then exp else MaxExp)
  {
    if exp < 0 {
      return 0;
    }
    p := 1;
    var bound := if exp < MaxExp then exp else MaxExp;
    for i := 0 to bound
      invariant p == Pow10(i)
    {
      p := p * 10;
    }
  }

  // ---------------------------------------------------------------------------
  // The rules
  // ---------------------------------------------------------------------------

  /** The digit count `apply_rules` works with: `log10_i64(stone) + 1`. */
  function NumDigits(stone: nat): nat
    requires stone > 0
  {
    Log10Capped(stone) + 1
  }

  /** A stone cut at a power of ten: the digits above it, then the digits below it. */
  function Halves(stone: nat, div: nat): (r: seq<nat>)
    requires div > 0
    ensures |r| == 2
  {
    [stone / div, stone % div]
  }

  /** One stone after one blink, in order. */
  function Blink(stone: nat): (r: seq<nat>)
    ensures 1 <= |r| <= 2
  {
    if stone == 0 then [1]
    else if NumDigits(stone) % 2 == 0 then Halves(stone, Pow10(NumDigits(stone) / 2))
    else [stone * 2024]
  }

  /** Dividing by m a number between lo * m and hi * m gives a quotient between lo and hi. */
  lemma DivBounds(s: nat, m: nat, lo: nat, hi: nat)
    requires m > 0 && lo * m <= s < hi * m
    ensures s == (s / m) * m + s % m && s % m < m
    ensures lo <= s / m < hi
  {
    var q := s / m;
    assert s == q * m + s % m;
    MulMono(hi, q, m);
    MulMono(q + 1, lo, m);
  }

  lemma MulMono(a: nat, b: nat, m: nat)
    ensures a <= b ==> a * m <= b * m
  {
    if a <= b {
      assert b * m == a * m + (b - a) * m;
    }
  }

  /** A split stone's halves: the left half has exactly half the digits, the right half at most that many. */
  lemma BlinkSplits(stone: nat)
    requires 0 < stone < Int64Limit && FloorLog10(stone) % 2 == 1
    ensures var h := (FloorLog10(stone) + 1) / 2;
      && Blink(stone) == [stone / Pow10(h), stone % Pow10(h)]
      && stone == Blink(stone)[0] * Pow10(h) + Blink(stone)[1]
      && Pow10(h - 1) <= Blink(stone)[0] < Pow10(h) && Blink(stone)[1] < Pow10(h)
  {
    CapNeverBinds(stone);
    var d := FloorLog10(stone) + 1;
    var h := d / 2;
    var m := Pow10(h);
    assert NumDigits(stone) == d && d == h + h;
    assert Blink(stone) == Halves(stone, m);
    FloorLog10Bounds(stone);
    HalfDigits(stone, h);
  }

  /** A number with 2h digits divided by 10^h leaves a quotient with h digits. */
  lemma HalfDigits(s: nat, h: nat)
    requires h >= 1 && Pow10(h + h - 1) <= s < Pow10(h + h)
    ensures s == (s / Pow10(h)) * Pow10(h) + s % Pow10(h) && s % Pow10(h) < Pow10(h)
    ensures Pow10(h - 1) <= s / Pow10(h) < Pow10(h)
  {
    Pow10Add(h, h);
    Pow10Add(h - 1, h);
    assert h - 1 + h == h + h - 1;
    DivBounds(s, Pow10(h), Pow10(h - 1), Pow10(h));
  }

  /** 2^31: every int value lies below it. */
  const IntLimit := 0x8000_0000

  /**
   * The `int` halves of `len_after_blinks` never truncate: an int64 stone has
   * at most 18 digits when their count is even, so both halves stay below 10^9.
   */
  lemma HalvesFitInt(stone: nat)
    requires 0 < stone < Int64Limit && FloorLog10(stone) % 2 == 1
    ensures |Blink(stone)| == 2 && Blink(stone)[0] < IntLimit && Blink(stone)[1] < IntLimit
    ensures Pow10(NumDigits(stone) / 2) < IntLimit
  {
    BlinkSplits(stone);
    CapNeverBinds(stone);
    var h := (FloorLog10(stone) + 1) / 2;
    assert h <= 9;
    Pow10Mono(h, 9);
    Pow10Add(4, 5);
  }

  /** The other two rules: 0 becomes 1, a stone with an odd digit count is multiplied by 2024. */
  lemma BlinkOthers(stone: nat)
    requires stone < Int64Limit
    ensures stone == 0 ==> Blink(stone) == [1]
    ensures stone > 0 && FloorLog10(stone) % 2 == 0 ==> Blink(stone) == [stone * 2024]
  {
    if stone > 0 {
      CapNeverBinds(stone);
    }
  }

  /** Every stone of the row replaced by what `rule` makes of it, keeping their order. */
  function Expand(rule: nat -> seq<nat>, stones: seq<nat>): seq<nat>
  {
    if stones == [] then [] else Expand(rule, stones[..|stones| - 1]) + rule(stones[|stones| - 1])
  }

  /** The row after k rounds of `rule`. */
  function Iterate(rule: nat -> seq<nat>, stones: seq<nat>, k: nat): seq<nat>
  {
    if k == 0 then stones else Expand(rule, Iterate(rule, stones, k - 1))
  }

  /** One blink over a row of stones, keeping their order. */
  function BlinkAll(stones: seq<nat>): seq<nat>
  {
    Expand(Blink, stones)
  }

  /** The stones after k blinks. */
  function Blinks(stones: seq<nat>, k: nat): seq<nat>
  {
    Iterate(Blink, stones, k)
  }

  /** Stones change independently: a round over a row is the round over its parts. */
  lemma {:induction false} ExpandConcat(rule: nat -> seq<nat>, a: seq<nat>, b: seq<nat>)
    ensures Expand(rule, a + b) == Expand(rule, a) + Expand(rule, b)
    decreases |b|
  {
    if b != [] {
      var b' := b[..|b| - 1];
      assert (a + b)[..|a + b| - 1] == a + b';
      ExpandConcat(rule, a, b');
    } else {
      assert a + b == a;
    }
  }

  lemma {:induction false} IterateConcat(rule: nat -> seq<nat>, a: seq<nat>, b: seq<nat>, k: nat)
    ensures Iterate(rule, a + b, k) == Iterate(rule, a, k) + Iterate(rule, b, k)
  {
    if k > 0 {
      IterateConcat(rule, a, b, k - 1);
      ExpandConcat(rule, Iterate(rule, a, k - 1), Iterate(rule, b, k - 1));
    }
  }

  /** No stones stay no stones. */
  lemma {:induction false} IterateEmpty(rule: nat -> seq<nat>, k: nat)
    ensures Iterate(rule, [], k) == []
  {
    if k > 0 {
      IterateEmpty(rule, k - 1);
    }
  }

  /** k + 1 rounds are one round followed by k rounds. */
  lemma {:induction false} IterateFirst(rule: nat -> seq<nat>, stones: seq<nat>, k: nat)
    ensures Iterate(rule, stones, k + 1) == Iterate(rule, Expand(rule, stones), k)
  {
    if k > 0 {
      IterateFirst(rule, stones, k - 1);
    }
  }

  /** Blinking the row is blinking each stone on its own: the order of the row is kept. */
  lemma BlinksConcat(a: seq<nat>, b: seq<nat>, k: nat)
    ensures Blinks(a + b, k) == Blinks(a, k) + Blinks(b, k)
  {
    IterateConcat(Blink, a, b, k);
  }

  /** k >= 1 blinks of one stone are k - 1 blinks of what its first blink gives. */
  lemma BlinkCount(stone: nat, k: nat)
    requires k >= 1
    ensures Blinks([stone], k) == Blinks(Blink(stone), k - 1)
  {
    IterateFirst(Blink, [stone], k - 1);
    assert [stone][..0] == [];
    assert Expand(Blink, [stone]) == Blink(stone);
  }

  /** Two stones after k blinks count as many as each of them does. */
  lemma PairCount(a: nat, b: nat, k: nat)
    ensures |Blinks([a, b], k)| == |Blinks([a], k)| + |Blinks([b], k)|
  {
    assert [a, b] == [a] + [b];
    BlinksConcat([a], [b], k);
  }

  /** The recurrence `len_after_blinks` follows, rule by rule. */
  lemma CountRules(stone: nat, k: nat)
    requires k >= 1
    ensures stone == 0 ==> |Blinks([stone], k)| == |Blinks([1], k - 1)|
    ensures stone > 0 && NumDigits(stone) % 2 == 0 ==>
      var halves := Halves(stone, Pow10(NumDigits(stone) / 2));
      |Blinks([stone], k)| == |Blinks([halves[0]], k - 1)| + |Blinks([halves[1]], k - 1)|
    ensures stone > 0 && NumDigits(stone) % 2 == 1 ==> |Blinks([stone], k)| == |Blinks([stone * 2024], k - 1)|
  {
    BlinkCount(stone, k);
    if stone > 0 && NumDigits(stone) % 2 == 0 {
      var halves := Halves(stone, Pow10(NumDigits(stone) / 2));
      assert Blink(stone) == [halves[0], halves[1]];
      PairCount(halves[0], halves[1], k - 1);
    }
  }

  // ---------------------------------------------------------------------------
  // Part one: apply the rules to the whole row
  // ---------------------------------------------------------------------------

  /** The inner loop of `apply_rules`: every stone of `in`, in order, blinked onto `out`. */
  method BlinkStones(stones: seq<nat>) returns (out: seq<nat>)
    ensures out == BlinkAll(stones)
  {
    out := [];
    for j := 0 to |stones|
      invariant out == BlinkAll(stones[..j])
    {
      assert stones[..j + 1][..j] == stones[..j];
      var stone := stones[j];
      if stone == 0 {
        out := out + [1];
      } else {
        var nDigits := Log10I64(stone);
        nDigits := nDigits + 1;
        if nDigits % 2 == 0 {
          var div := Pow10I64(nDigits / 2);
          out := out + Halves(stone, div);
        } else {
          out := out + [stone * 2024];
        }
      }
    }
    assert stones[..|stones|] == stones;
  }

  /**
   * `apply_rules`: the row after `numBlinks` blinks.  With no blink at all the
   * loop never fills `out`, so the row comes back empty.
   */
  method ApplyRules(input: seq<nat>, numBlinks: int) returns (out: seq<nat>)
    ensures out == if numBlinks <= 0 then [] else Blinks(input, numBlinks)
  {
    var stones := input;
    out := [];
    var i := 0;
    while i < numBlinks
      invariant 0 <= i && (i <= numBlinks || i == 0)
      invariant (i < numBlinks || i == 0) ==> stones == Blinks(input, i) && out == []
      invariant 0 < i == numBlinks ==> out == Blinks(input, i)
    {
      out := BlinkStones(stones);
      if i < numBlinks - 1 {
        stones, out := out, [];
      }
      i := i + 1;
    }
  }

  // ---------------------------------------------------------------------------
  // Part two: the count of one stone, with a cache
  // ---------------------------------------------------------------------------

  /** The cache of `part_two`: (stone, blinks) to the number of stones they become. */
  class StoneCache {
    var entries: map<(nat, nat), nat>

    /** Every entry is the true count. */
    ghost predicate Valid()
      reads this
    {
      forall key :: key in entries ==> entries[key] == |Blinks([key.0], key.1)|
    }

    constructor ()
      ensures entries == map[] && Valid()
    {
      entries := map[];
    }

    /** `unordered_map::insert`: adds the entry unless the key is already there; a true count keeps the cache valid. */
    method Insert(key: (nat, nat), value: nat)
      requires Valid() && value == |Blinks([key.0], key.1)|
      modifies this
      ensures entries == if key in old(entries) then old(entries) else old(entries)[key := value]
      ensures Valid()
    {
      if key !in entries {
        entries := entries[key := value];
      }
    }
  }

  /**
   * `len_after_blinks`: 1 without a blink, the cached count when there is one,
   * otherwise the counts of what the stone blinks into, added up and cached
   * (except for a 0, whose count is that of a 1).
   */
  method LenAfterBlinks(stone: nat, numBlinks: nat, cache: StoneCache) returns (r: nat)
    requires cache.Valid()
    modifies cache
    ensures cache.Valid() && old(cache.entries).Keys <= cache.entries.Keys
    ensures r == |Blinks([stone], numBlinks)|
    decreases numBlinks
  {
    if numBlinks == 0 {
      return 1;
    }
    if (stone, numBlinks) in cache.entries {
      return cache.entries[(stone, numBlinks)];
    }
    CountRules(stone, numBlinks);
    if stone == 0 {
      r := LenAfterBlinks(1, numBlinks - 1, cache);
      return;
    }
    var nDigits := Log10I64(stone);
    nDigits := nDigits + 1;
    if nDigits % 2 == 0 {
      var div := Pow10I64(nDigits / 2);
      var halves := Halves(stone, div);
      var left := LenAfterBlinks(halves[0], numBlinks - 1, cache);
      var right := LenAfterBlinks(halves[1], numBlinks - 1, cache);
      r := left + right;
      assert r == |Blinks([stone], numBlinks)|;
    } else {
      r := LenAfterBlinks(stone * 2024, numBlinks - 1, cache);
      assert r == |Blinks([stone], numBlinks)|;
    }
    cache.Insert((stone, numBlinks), r);
  }

  // ---------------------------------------------------------------------------
  // The answers
  // ---------------------------------------------------------------------------

  /** The stones on the first line: out_of_range without a line, invalid_argument for a token without digits. */
  function Stones(lines: seq<string>): Result<seq<int>>
  {
    if lines == [] then Err(OutOfRange)
    else
      var toks := Lex(lines[0], " ", "", 0, []);
      if exists i :: 0 <= i < |toks| && ParseNum(toks[i]).Err? then Err(InvalidArgument)
      else Ok(seq(|toks|, i requires 0 <= i < |toks| => ParseNum(toks[i]).value))
  }

  /** Engraved numbers are never negative: `log10_i64` asserts a positive argument. */
  predicate Engraved(lines: seq<string>)
  {
    Stones(lines).Ok? ==> forall i :: 0 <= i < |Stones(lines).value| ==> Stones(lines).value[i] >= 0
  }

  /** The number of stones after `blinks` blinks of the first line's stones, or the parsing error. */
  function Answer(lines: seq<string>, blinks: nat): Result<int>
    requires Engraved(lines)
  {
    match Stones(lines)
    case Err(e) => Err(e)
    case Ok(stones) => Ok(|Blinks(stones, blinks)|)
  }

  /** The tokens of the first line parsed with `parse_num_i64`. */
  method ReadStones(lines: seq<string>) returns (r: Result<seq<nat>>)
    requires Engraved(lines)
    ensures r.Err? <==> Stones(lines).Err?
    ensures r.Err? ==> r.error == Stones(lines).error
    ensures r.Ok? ==> r.value == Stones(lines).value
  {
    if lines == [] {
      return Err(OutOfRange);
    }
    var toks, _ := LineTokenise(lines[0], " ", "", []);
    assert toks == Lex(lines[0], " ", "", 0, []);
    var nums := ParseTokens(toks);
    if nums.Err? {
      return Err(nums.error);
    }
    assert nums.value == Stones(lines).value;
    var stones: seq<nat> := nums.value;
    r := Ok(stones);
  }

  /** `part_one`: the number of stones after 25 blinks. */
  method PartOne(lines: seq<string>) returns (r: Result<int>)
    requires Engraved(lines)
    ensures r == Answer(lines, 25)
  {
    var stones :- ReadStones(lines);
    var out := ApplyRules(stones, 25);
    r := Ok(|out|);
  }

  /** The stones after k blinks, counted stone by stone through one shared cache, added up. */
  method CountStones(stones: seq<nat>, blinks: nat) returns (total: nat)
    ensures total == |Blinks(stones, blinks)|
  {
    var cache := new StoneCache();
    total := 0;
    IterateEmpty(Blink, blinks);
    for i := 0 to |stones|
      invariant cache.Valid() && total == |Blinks(stones[..i], blinks)|
    {
      var n := LenAfterBlinks(stones[i], blinks, cache);
      assert stones[..i + 1] == stones[..i] + [stones[i]];
      BlinksConcat(stones[..i], [stones[i]], blinks);
      total := total + n;
    }
    assert stones[..|stones|] == stones;
  }

  /** `part_two`: the counts after 75 blinks of each stone, through one shared cache, added up. */
  method PartTwo(lines: seq<string>) returns (r: Result<int>)
    requires Engraved(lines)
    ensures r == Answer(lines, 75)
  {
    var stones :- ReadStones(lines);
    var total := CountStones(stones, 75);
    r := Ok(total);
  }
}
