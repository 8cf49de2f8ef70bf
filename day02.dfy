/**
 * Day 2 (day-02/day-02.cpp): reports of levels.  A report is safe when its
 * levels move in one direction only, by one to three per step.
 */
module Day02 {
  import opened Wrappers
  import opened AocIo

  /** Every step levels[i] - levels[i + 1] lies in [lo, hi]. */
  predicate StepsIn(levels: seq<int>, lo: int, hi: int)
  {
    forall i :: 0 <= i < |levels| - 1 ==> lo <= levels[i] - levels[i + 1] <= hi
  }

  /** Safe: strictly decreasing by 1 to 3 per step, or strictly increasing by 1 to 3 per step. */
  predicate Safe(levels: seq<int>)
  {
    StepsIn(levels, 1, 3) || StepsIn(levels, -3, -1)
  }

  /**
   * `report_is_safe`: invalid_argument for fewer than two levels; otherwise
   * the direction of the first step fixes the direction of all, and every
   * step must move by one to three.
   */
  method ReportIsSafe(levels: seq<int>) returns (r: Result<bool>)
    ensures r.Err? <==> |levels| < 2
    ensures r.Err? ==> r.error == InvalidArgument
    ensures r.Ok? ==> (r.value <==> Safe(levels))
  {
    if |levels| < 2 {
      return Err(InvalidArgument);
    }
    var numValid := 0;
    var mustBeDecreasing := levels[0] - levels[1] > 0;
    ghost var lo, hi := if mustBeDecreasing then 1 else -3, if mustBeDecreasing then 3 else -1;
    var i := 0;
    while i < |levels| - 1
      invariant 0 <= i <= |levels| - 1
      invariant numValid == i
      invariant StepsIn(levels[..i + 1], lo, hi)
    {
      var diff := levels[i] - levels[i + 1];
      var isDecreasing := diff > 0;
      if (!isDecreasing && mustBeDecreasing) || (isDecreasing && !mustBeDecreasing) {
        NotSafeAt(levels, i, mustBeDecreasing);
        return Ok(false);
      } else if 1 <= Abs(diff) <= 3 {
        numValid := numValid + 1;
      } else {
        NotSafeAt(levels, i, mustBeDecreasing);
        return Ok(false);
      }
      StepsExtend(levels, i, lo, hi);
      i := i + 1;
    }
    assert levels[..i + 1] == levels;
    r := Ok(true);
  }

  lemma StepsExtend(levels: seq<int>, i: nat, lo: int, hi: int)
    requires i + 1 < |levels|
    requires StepsIn(levels[..i + 1], lo, hi)
    requires lo <= levels[i] - levels[i + 1] <= hi
    ensures StepsIn(levels[..i + 2], lo, hi)
  {
    var p := levels[..i + 2];
    forall j | 0 <= j < |p| - 1
      ensures lo <= p[j] - p[j + 1] <= hi
    {
      if j < i {
        assert p[j] == levels[..i + 1][j] && p[j + 1] == levels[..i + 1][j + 1];
      }
    }
  }

  function Abs(n: int): nat
  {
    if n < 0 then -n else n
  }

  /** A step that breaks the direction fixed by the first step, or moves by 0 or more than 3, makes the report unsafe. */
  lemma NotSafeAt(levels: seq<int>, i: nat, mustBeDecreasing: bool)
    requires 2 <= |levels| && i < |levels| - 1
    requires mustBeDecreasing <==> levels[0] - levels[1] > 0
    requires var d := levels[i] - levels[i + 1];
             (d > 0) != mustBeDecreasing || !(1 <= Abs(d) <= 3)
    ensures !Safe(levels)
  {
    var d := levels[i] - levels[i + 1];
    if mustBeDecreasing {
      assert !(-3 <= levels[0] - levels[1] <= -1);
      assert !(1 <= d <= 3);
    } else {
      assert !(-3 <= d <= -1);
    }
  }

  // ---------------------------------------------------------------------------
  // Parsing and counting
  // ---------------------------------------------------------------------------

  /**
   * The report on one line: its blank-separated tokens as numbers;
   * invalid_argument for fewer than two tokens or a token without digits.
   */
  function Levels(line: string): Result<seq<int>>
  {
    var toks := Lex(line, " ", "", 0, []);
    if |toks| < 2 then Err(InvalidArgument)
    else if exists i :: 0 <= i < |toks| && ParseNum(toks[i]).Err? then Err(InvalidArgument)
    else Ok(seq(|toks|, i requires 0 <= i < |toks| => ParseNum(toks[i]).value))
  }

  predicate AllReports(lines: seq<string>)
  {
    forall i :: 0 <= i < |lines| ==> Levels(lines[i]).Ok?
  }

  /** `parse_reports`: one report per line, in order; the first bad line throws invalid_argument. */
  method ParseReports(lines: seq<string>) returns (r: Result<seq<seq<int>>>)
    ensures r.Ok? <==> AllReports(lines)
    ensures r.Ok? ==> |r.value| == |lines| && forall i :: 0 <= i < |lines| ==> r.value[i] == Levels(lines[i]).value
    ensures r.Err? ==> r.error == InvalidArgument
  {
    var reports: seq<seq<int>> := [];
    var i := 0;
    while i < |lines|
      invariant 0 <= i <= |lines| && |reports| == i
      invariant forall j :: 0 <= j < i ==> Levels(lines[j]).Ok? && reports[j] == Levels(lines[j]).value
    {
      var toks, _ := LineTokenise(lines[i], " ", "", []);
      assert toks == Lex(lines[i], " ", "", 0, []);
      if |toks| < 2 {
        return Err(InvalidArgument);
      }
      var levels := ParseTokens(toks);
      if levels.Err? {
        return Err(levels.error);
      }
      assert levels.value == seq(|toks|, k requires 0 <= k < |toks| => ParseNum(toks[k]).value);
      reports := reports + [levels.value];
      i := i + 1;
    }
    r := Ok(reports);
  }

  /** The number of safe reports. */
  function CountSafe(reports: seq<seq<int>>): nat
  {
    if reports == [] then 0
    else CountSafe(reports[..|reports| - 1]) + (if Safe(reports[|reports| - 1]) then 1 else 0)
  }

  lemma {:induction false} CountSafeBounds(reports: seq<seq<int>>)
    ensures CountSafe(reports) <= |reports|
    ensures CountSafe(reports) == |reports| <==> forall i :: 0 <= i < |reports| ==> Safe(reports[i])
  {
    if reports != [] {
      var init := reports[..|reports| - 1];
      CountSafeBounds(init);
      assert forall i :: 0 <= i < |init| ==> init[i] == reports[i];
    }
  }

  /** `part_one`: the number of safe reports among the parsed lines. */
  method PartOne(lines: seq<string>) returns (r: Result<int>)
    ensures r.Ok? <==> AllReports(lines)
    ensures r.Ok? ==> r.value == CountSafe(seq(|lines|, i requires 0 <= i < |lines| && AllReports(lines) => Levels(lines[i]).value))
  {
    var parsed := ParseReports(lines);
    if parsed.Err? {
      return Err(parsed.error);
    }
    var reports := parsed.value;
    assert reports == seq(|lines|, i requires 0 <= i < |lines| && AllReports(lines) => Levels(lines[i]).value);
    var safeReports := 0;
    var i := 0;
    while i < |reports|
      invariant 0 <= i <= |reports|
      invariant safeReports == CountSafe(reports[..i])
    {
      assert |reports[i]| >= 2;
      var safe := ReportIsSafe(reports[i]);
      assert reports[..i + 1][..i] == reports[..i];
      safeReports := safeReports + if safe.value then 1 else 0;
      i := i + 1;
    }
    assert reports[..i] == reports;
    r := Ok(safeReports);
  }
}
