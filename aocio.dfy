/**
 * The text helpers of aoclib/aocio.hpp: trimming blank lines off the input,
 * splitting a line into tokens, dropping blanks from a string, digit and
 * hexadecimal parsing, and the IOStatus flag set.
 */
module AocIo {
  import opened Wrappers

  /** The characters `find_first_not_of(" \t")` skips. */
  predicate IsWs(c: char)
  {
    c == ' ' || c == '\t'
  }

  /** A line with nothing but spaces and tabs (the empty line included). */
  predicate Blank(s: string)
  {
    forall i :: 0 <= i < |s| ==> IsWs(s[i])
  }

  // ---------------------------------------------------------------------------
  // Blank lines around the input
  // ---------------------------------------------------------------------------

  /** `remove_leading_empty_lines`: drops exactly the longest prefix of blank lines. */
  method RemoveLeadingEmptyLines(lines: seq<string>) returns (r: seq<string>)
    ensures |r| <= |lines| && r == lines[|lines| - |r|..]
    ensures forall i :: 0 <= i < |lines| - |r| ==> Blank(lines[i])
    ensures r != [] ==> !Blank(r[0]) && |r[0]| > 0
  {
    r := lines;
    while r != [] && Blank(r[0])
      invariant |r| <= |lines| && r == lines[|lines| - |r|..]
      invariant forall i :: 0 <= i < |lines| - |r| ==> Blank(lines[i])
    {
      r := r[1..];
    }
  }

  /** `remove_trailing_empty_lines`: drops exactly the longest suffix of blank lines. */
  method RemoveTrailingEmptyLines(lines: seq<string>) returns (r: seq<string>)
    ensures |r| <= |lines| && r == lines[..|r|]
    ensures forall i :: |r| <= i < |lines| ==> Blank(lines[i])
    ensures r != [] ==> !Blank(r[|r| - 1]) && |r[|r| - 1]| > 0
  {
    r := lines;
    while r != [] && Blank(r[|r| - 1])
      invariant |r| <= |lines| && r == lines[..|r|]
      invariant forall i :: |r| <= i < |lines| ==> Blank(lines[i])
    {
      r := r[..|r| - 1];
    }
  }

  // ---------------------------------------------------------------------------
  // Tokenising
  // ---------------------------------------------------------------------------

  function Flush(cur: string): seq<string>
  {
    if cur == [] then [] else [cur]
  }

  function Kept(c: char, preserved: string): seq<string>
  {
    if c in preserved then [[c]] else []
  }

  /**
   * The tokens of `s[i..]`, read one character at a time with `cur` the run of
   * non-delimiters read so far: a delimiter ends the run (if it is not empty)
   * and is a token of its own when it is preserved.
   */
  function Lex(s: string, delims: string, preserved: string, i: nat, cur: string): seq<string>
    decreases |s| - i
  {
    if i >= |s| then Flush(cur)
    else if s[i] in delims then Flush(cur) + Kept(s[i], preserved) + Lex(s, delims, preserved, i + 1, [])
    else Lex(s, delims, preserved, i + 1, cur + [s[i]])
  }

  /** Every token is a non-empty run free of delimiters, or a single preserved delimiter. */
  lemma {:induction false} LexShape(s: string, delims: string, preserved: string, i: nat, cur: string)
    requires forall c :: c in cur ==> c !in delims
    ensures forall t :: t in Lex(s, delims, preserved, i, cur) ==>
              (|t| > 0 && forall c :: c in t ==> c !in delims) || (|t| == 1 && t[0] in preserved)
    decreases |s| - i
  {
    if i < |s| {
      if s[i] in delims {
        LexShape(s, delims, preserved, i + 1, []);
      } else {
        LexShape(s, delims, preserved, i + 1, cur + [s[i]]);
      }
    }
  }

  /** A run without delimiters joins the pending run. */
  lemma {:induction false} LexRun(s: string, delims: string, preserved: string, i: nat, j: nat, cur: string)
    requires i <= j <= |s|
    requires forall k :: i <= k < j ==> s[k] !in delims
    ensures Lex(s, delims, preserved, i, cur) == Lex(s, delims, preserved, j, cur + s[i..j])
    decreases j - i
  {
    if i == j {
      assert cur + s[i..j] == cur;
    } else {
      LexRun(s, delims, preserved, i + 1, j, cur + [s[i]]);
      assert cur + [s[i]] + s[i + 1..j] == cur + s[i..j];
    }
  }

  /** `find_first_of(delims, start)`, with npos read as the line's length. */
  function FindFirstOf(s: string, delims: string, start: nat): (e: nat)
    requires start <= |s|
    ensures start <= e <= |s|
    decreases |s| - start
  {
    if start == |s| || s[start] in delims then start else FindFirstOf(s, delims, start + 1)
  }

  /** The search stops at a delimiter, or at the end of the line. */
  lemma {:induction false} FindFirstOfStops(s: string, delims: string, start: nat)
    requires start <= |s|
    ensures FindFirstOf(s, delims, start) < |s| ==> s[FindFirstOf(s, delims, start)] in delims
    decreases |s| - start
  {
    if start < |s| && s[start] !in delims {
      FindFirstOfStops(s, delims, start + 1);
    }
  }

  /** The search passes over no delimiter. */
  lemma {:induction false} FindFirstOfSkips(s: string, delims: string, start: nat, j: nat)
    requires start <= |s| && start <= j < FindFirstOf(s, delims, start)
    ensures s[j] !in delims
    decreases j - start
  {
    if start < j {
      FindFirstOfSkips(s, delims, start + 1, j);
    }
  }

  /** The tokens one round of the scan from `start` produces: the run up to the next delimiter, then that delimiter if preserved. */
  function Round(line: string, delims: string, preserved: string, start: nat): seq<string>
    requires start <= |line|
  {
    var e := FindFirstOf(line, delims, start);
    Flush(line[start..e]) + (if e < |line| then Kept(line[e], preserved) else [])
  }

  /** The character-level lexer, too, produces one round and then goes on after its delimiter. */
  lemma LexStep(line: string, delims: string, preserved: string, start: nat, e: nat)
    requires start < |line| && e == FindFirstOf(line, delims, start)
    ensures Lex(line, delims, preserved, start, []) ==
              Round(line, delims, preserved, start) + Lex(line, delims, preserved, e + 1, [])
  {
    forall k | start <= k < e
      ensures line[k] !in delims
    {
      FindFirstOfSkips(line, delims, start, k);
    }
    FindFirstOfStops(line, delims, start);
    LexRun(line, delims, preserved, start, e, []);
    assert [] + line[start..e] == line[start..e];
  }

  /** The tokens from `start` on, one delimiter-to-delimiter round at a time, as the scan of the line proceeds. */
  function Scan(line: string, delims: string, preserved: string, start: nat): seq<string>
    decreases |line| - start, 1
  {
    if start >= |line| then [] else ScanRound(line, delims, preserved, start)
  }

  /** The round from `start`, then the scan after its delimiter. */
  function ScanRound(line: string, delims: string, preserved: string, start: nat): seq<string>
    requires start < |line|
    decreases |line| - start, 0
  {
    Round(line, delims, preserved, start) + Scan(line, delims, preserved, FindFirstOf(line, delims, start) + 1)
  }

  lemma ScanUnfold(line: string, delims: string, preserved: string, start: nat, e: nat)
    requires start < |line| && e == FindFirstOf(line, delims, start)
    ensures Scan(line, delims, preserved, start) ==
              Round(line, delims, preserved, start) + Scan(line, delims, preserved, e + 1)
  {
    assert Scan(line, delims, preserved, start) == ScanRound(line, delims, preserved, start);
  }

  /** After one round the tokens appended so far and the tokens still to come again make up the whole line's. */
  lemma RoundStep(line: string, delims: string, preserved: string, start: nat, e: nat, want: seq<string>,
                  before: seq<string>, res: seq<string>)
    requires start < |line| && e == FindFirstOf(line, delims, start)
    requires before + Scan(line, delims, preserved, start) == want
    requires res == before + Round(line, delims, preserved, start)
    ensures res + Scan(line, delims, preserved, e + 1) == want
    ensures e == |line| ==> res == want
  {
    ScanUnfold(line, delims, preserved, start, e);
    Regroup(before, Round(line, delims, preserved, start), Scan(line, delims, preserved, e + 1));
    if e == |line| {
      AppendEmpty(res);
    }
  }

  /** Once the scan is past the end of the line, the tokens appended are all of them. */
  lemma ScanDone(line: string, delims: string, preserved: string, start: nat, res: seq<string>, want: seq<string>)
    requires start >= |line| && res + Scan(line, delims, preserved, start) == want
    ensures res == want
  {
    AppendEmpty(res);
  }

  /** Scanning run by run gives the tokens of the character-level lexer. */
  lemma {:induction false} ScanIsLex(line: string, delims: string, preserved: string, start: nat)
    ensures Scan(line, delims, preserved, start) == Lex(line, delims, preserved, start, [])
    decreases |line| - start
  {
    if start < |line| {
      var e := FindFirstOf(line, delims, start);
      LexStep(line, delims, preserved, start, e);
      ScanUnfold(line, delims, preserved, start, e);
      ScanIsLex(line, delims, preserved, e + 1);
    }
  }

  lemma AppendEmpty<T>(s: seq<T>)
    ensures s + [] == s
  {
  }

  /** Appending in two steps or in one gives the same sequence. */
  lemma Regroup<T>(a: seq<T>, b: seq<T>, c: seq<T>)
    ensures a + (b + c) == a + b + c
  {
  }

  /** Every preserved delimiter is also a delimiter. */
  predicate PreservedAreDelims(delims: string, preserved: string)
  {
    forall c :: c in preserved ==> c in delims
  }

  /** Every preserved delimiter must also be a delimiter, or the call is an invalid_argument. */
  method CheckPreserved(delims: string, preserved: string) returns (out: Outcome)
    ensures out.Pass? <==> PreservedAreDelims(delims, preserved)
    ensures out.Fail? ==> out.error == InvalidArgument
  {
    var k := 0;
    while k < |preserved|
      invariant 0 <= k <= |preserved|
      invariant forall j :: 0 <= j < k ==> preserved[j] in delims
    {
      if preserved[k] !in delims {
        return Fail(InvalidArgument);
      }
      k := k + 1;
    }
    return Pass;
  }

  /**
   * One round of `line_tokenise` as intended: appends the run from `start` to
   * the next delimiter (when not empty), then that delimiter when it is
   * preserved. Together with the tokens still to come it keeps the line's tokens.
   */
  method TokenRound(line: string, delims: string, preserved: string, start: nat, res: seq<string>,
                    ghost want: seq<string>)
    returns (e: nat, res': seq<string>)
    requires start < |line| && res + Scan(line, delims, preserved, start) == want
    ensures e == FindFirstOf(line, delims, start)
    ensures res' + Scan(line, delims, preserved, e + 1) == want
  {
    e := FindFirstOf(line, delims, start);
    var token := line[start..e];
    res' := res;
    if |token| > 0 {
      res' := res' + [token];
    }
    assert res' == res + Flush(token);
    if e < |line| && |preserved| > 0 && line[e] in preserved {
      res' := res' + [[line[e]]];
    }
    assert res' == res + Round(line, delims, preserved, start);
    RoundStep(line, delims, preserved, start, e, want, res, res');
  }

  /** The line's last character is a delimiter. */
  predicate EndsInDelim(line: string, delims: string)
  {
    |line| > 0 && line[|line| - 1] in delims
  }

  /**
   * One round of `line_tokenise` as written: after the run is appended the
   * character at the run's end is read with `at`, which fails when the run
   * reached the end of the line and there are preserved delimiters.
   */
  method TokenRoundAsWritten(line: string, delims: string, preserved: string, start: nat, res: seq<string>,
                             ghost want: seq<string>)
    returns (e: nat, res': seq<string>, out: Outcome)
    requires start < |line| && res + Scan(line, delims, preserved, start) == want
    ensures e == FindFirstOf(line, delims, start)
    ensures out.Fail? <==> |preserved| > 0 && e == |line|
    ensures out.Fail? ==> out.error == OutOfRange && res' == want && !EndsInDelim(line, delims)
    ensures out.Pass? && e + 1 == |line| ==> EndsInDelim(line, delims)
    ensures out.Pass? ==> res' + Scan(line, delims, preserved, e + 1) == want
  {
    e := FindFirstOf(line, delims, start);
    FindFirstOfStops(line, delims, start);
    var token := line[start..e];
    res' := res;
    if |token| > 0 {
      res' := res' + [token];
    }
    assert res' == res + Flush(token);
    if |preserved| > 0 {
      if e >= |line| {
        FindFirstOfSkips(line, delims, start, |line| - 1);
        assert res' == res + Round(line, delims, preserved, start);
        RoundStep(line, delims, preserved, start, e, want, res, res');
        return e, res', Fail(OutOfRange);
      }
      if line[e] in preserved {
        res' := res' + [[line[e]]];
      }
    }
    assert res' == res + Round(line, delims, preserved, start);
    RoundStep(line, delims, preserved, start, e, want, res, res');
    out := Pass;
  }

  /**
   * `line_tokenise` as intended: appends to `tokens` the tokens of the line, in
   * order, and reads the character at the end of a token only when there is one.
   */
  method LineTokenise(line: string, delims: string, preserved: string, tokens: seq<string>)
    returns (res: seq<string>, out: Outcome)
    ensures out.Fail? <==> !PreservedAreDelims(delims, preserved)
    ensures out.Fail? ==> out.error == InvalidArgument && res == tokens
    ensures out.Pass? ==> res == tokens + Lex(line, delims, preserved, 0, [])
  {
    out := CheckPreserved(delims, preserved);
    if out.Fail? {
      return tokens, out;
    }
    res := tokens;
    ghost var want := tokens + Scan(line, delims, preserved, 0);
    var start := 0;
    while start < |line|
      invariant 0 <= start <= |line| + 1
      invariant res + Scan(line, delims, preserved, start) == want
      decreases |line| + 1 - start
    {
      var e;
      e, res := TokenRound(line, delims, preserved, start, res, want);
      start := e + 1;
    }
    ScanDone(line, delims, preserved, start, res, want);
    ScanIsLex(line, delims, preserved, 0);
  }

  /**
   * `line_tokenise` as written: with preserved delimiters, the token that runs
   * to the end of the line is followed by `line.at(line.size())`, which throws
   * out_of_range after the token was appended.
   */
  method LineTokeniseAsWritten(line: string, delims: string, preserved: string, tokens: seq<string>)
    returns (res: seq<string>, out: Outcome)
    ensures !PreservedAreDelims(delims, preserved) ==> out == Fail(InvalidArgument) && res == tokens
    ensures PreservedAreDelims(delims, preserved) ==> res == tokens + Lex(line, delims, preserved, 0, [])
    ensures PreservedAreDelims(delims, preserved) ==>
              (out.Fail? <==> |preserved| > 0 && |line| > 0 && !EndsInDelim(line, delims))
    ensures PreservedAreDelims(delims, preserved) && out.Fail? ==> out.error == OutOfRange
  {
    out := CheckPreserved(delims, preserved);
    if out.Fail? {
      return tokens, out;
    }
    res := tokens;
    ghost var want := tokens + Scan(line, delims, preserved, 0);
    var start := 0;
    while start < |line|
      invariant out == Pass
      invariant 0 <= start <= |line| + 1
      invariant start == |line| > 0 ==> EndsInDelim(line, delims)
      invariant |preserved| > 0 ==> start <= |line|
      invariant res + Scan(line, delims, preserved, start) == want
      decreases |line| + 1 - start
    {
      var e;
      e, res, out := TokenRoundAsWritten(line, delims, preserved, start, res, want);
      if out.Fail? {
        ScanIsLex(line, delims, preserved, 0);
        return;
      }
      start := e + 1;
    }
    ScanDone(line, delims, preserved, start, res, want);
    ScanIsLex(line, delims, preserved, 0);
  }

  /** The line of the equation puzzle: as written the tokeniser throws after its last token. */
  method EquationLineAsWritten() returns (res: seq<string>, out: Outcome)
    ensures res == ["190", ":", "10", "19"] && out == Fail(OutOfRange)
  {
    res, out := LineTokeniseAsWritten("190: 10 19", ": ", ":", []);
    EquationTokens();
  }

  /** The same line with the intended guard: the same tokens, and no exception. */
  method EquationLine() returns (res: seq<string>, out: Outcome)
    ensures res == ["190", ":", "10", "19"] && out == Pass
  {
    res, out := LineTokenise("190: 10 19", ": ", ":", []);
    EquationTokens();
  }

  lemma EquationTokens()
    ensures Lex("190: 10 19", ": ", ":", 0, []) == ["190", ":", "10", "19"]
  {
    var s, d, p := "190: 10 19", ": ", ":";
    LexRun(s, d, p, 0, 3, []);
    assert [] + s[0..3] == "190";
    NumbersTokens();
    assert Lex(s, d, p, 3, "190") == ["190", ":"] + Lex(s, d, p, 4, []);
  }

  lemma NumbersTokens()
    ensures Lex("190: 10 19", ": ", ":", 4, []) == ["10", "19"]
  {
    var s, d, p := "190: 10 19", ": ", ":";
    LexRun(s, d, p, 5, 7, []);
    assert [] + s[5..7] == "10";
    LastNumberToken();
    assert Lex(s, d, p, 5, []) == ["10", "19"];
  }

  lemma LastNumberToken()
    ensures Lex("190: 10 19", ": ", ":", 8, []) == ["19"]
  {
    var s, d, p := "190: 10 19", ": ", ":";
    LexRun(s, d, p, 8, 10, []);
    assert [] + s[8..10] == "19";
  }

  // ---------------------------------------------------------------------------
  // Whitespace removal
  // ---------------------------------------------------------------------------

  /** `str_without_whitespace`: the string minus every space and tab, other characters in order. */
  function WithoutWhitespace(s: string): (r: string)
    ensures |r| <= |s|
  {
    if s == [] then []
    else WithoutWhitespace(s[..|s| - 1]) + (if IsWs(s[|s| - 1]) then [] else [s[|s| - 1]])
  }

  /** A line is blank exactly when `str_without_whitespace` leaves nothing of it. */
  lemma WithoutWhitespaceEmpty(s: string)
    ensures WithoutWhitespace(s) == [] <==> Blank(s)
  {
    if !Blank(s) {
      var i :| 0 <= i < |s| && !IsWs(s[i]);
      WithoutWhitespaceMembers(s, s[i]);
    } else if WithoutWhitespace(s) != [] {
      WithoutWhitespaceMembers(s, WithoutWhitespace(s)[0]);
    }
  }

  /** A character survives exactly when it occurs in the text and is neither space nor tab. */
  lemma {:induction false} WithoutWhitespaceMembers(s: string, c: char)
    ensures c in WithoutWhitespace(s) <==> c in s && !IsWs(c)
  {
    if s != [] {
      var t := s[..|s| - 1];
      assert s == t + [s[|s| - 1]];
      WithoutWhitespaceMembers(t, c);
    }
  }

  /**
   * `std::remove_if` on the whitespace predicate: moves the kept characters to
   * the front of the buffer and returns the new logical end.
   */
  method RemoveWs(a: array<char>) returns (n: nat)
    modifies a
    ensures n <= a.Length && a[..n] == WithoutWhitespace(old(a[..]))
  {
    ghost var s := a[..];
    n := 0;
    var i := 0;
    while i < a.Length
      invariant 0 <= n <= i <= a.Length
      invariant a[..n] == WithoutWhitespace(s[..i])
      invariant forall k :: i <= k < a.Length ==> a[k] == s[k]
    {
      assert s[..i + 1][..i] == s[..i];
      var c := a[i];
      if !IsWs(c) {
        ghost var before := a[..n];
        a[n] := c;
        assert a[..n + 1] == before + [c];
        n := n + 1;
      }
      i := i + 1;
    }
    assert s[..a.Length] == s;
  }

  /** `str_remove_whitespace`: `remove_if` and then `erase` of the tail, in place. */
  method StrRemoveWhitespace(str: string) returns (r: string)
    ensures r == WithoutWhitespace(str)
  {
    var a := new char[|str|](i requires 0 <= i < |str| => str[i]);
    assert a[..] == str;
    var n := RemoveWs(a);
    r := a[..n];
  }

  // ---------------------------------------------------------------------------
  // Digits
  // ---------------------------------------------------------------------------

  /** `parse_digit`: the value of a decimal digit, None for any other character. */
  function ParseDigit(c: char): (r: Option<int>)
    ensures r.Some? <==> '0' <= c <= '9'
    ensures r.Some? ==> 0 <= r.value <= 9
  {
    var digit := c as int - '0' as int;
    if 0 <= digit <= 9 then Some(digit) else None
  }

  /** Digit characters and their values correspond one to one. */
  lemma DigitRoundTrip(d: int)
    requires 0 <= d <= 9
    ensures ParseDigit(('0' as int + d) as char) == Some(d)
  {
  }

  /** Every character of the line is a decimal digit. */
  predicate AllDigits(line: string)
  {
    forall k :: 0 <= k < |line| ==> IsDigit(line[k])
  }

  /** The values of a line's digits. */
  function DigitsOf(line: string): (r: seq<int>)
    ensures |r| == |line|
    ensures forall k :: 0 <= k < |r| ==> 0 <= r[k] <= 9
  {
    seq(|line|, k requires 0 <= k < |line| => DigitValue(line[k]) as int)
  }

  /** `std::transform` of a line with `parse_digit(c).value()`: bad_optional_access at the first non-digit. */
  method ParseDigits(line: string) returns (r: Result<seq<int>>)
    ensures r.Err? <==> !AllDigits(line)
    ensures r.Err? ==> r.error == BadOptionalAccess
    ensures r.Ok? ==> r.value == DigitsOf(line)
  {
    var digits: seq<int> := [];
    for k := 0 to |line|
      invariant AllDigits(line[..k]) && digits == DigitsOf(line[..k])
    {
      var digit := ParseDigit(line[k]);
      if digit.None? {
        return Err(BadOptionalAccess);
      }
      digits := digits + [digit.value];
      assert line[..k + 1] == line[..k] + [line[k]];
    }
    assert line[..|line|] == line;
    r := Ok(digits);
  }

  // ---------------------------------------------------------------------------
  // Decimal numbers
  // ---------------------------------------------------------------------------

  /** The characters `std::isspace` accepts in the C locale: blank, tab and the four line-breaking controls. */
  predicate IsSpace(c: char)
  {
    c == ' ' || c == '\t' || c == '\n' || c == '\r' || c as int == 11 || c as int == 12
  }

  function SkipSpace(s: string, i: nat): (j: nat)
    requires i <= |s|
    ensures i <= j <= |s|
    ensures j < |s| ==> !IsSpace(s[j])
    decreases |s| - i
  {
    if i < |s| && IsSpace(s[i]) then SkipSpace(s, i + 1) else i
  }

  predicate IsDigit(c: char)
  {
    '0' <= c <= '9'
  }

  /** The end of the run of decimal digits that starts at i. */
  function DigitRun(s: string, i: nat): (j: nat)
    requires i <= |s|
    ensures i <= j <= |s|
    ensures forall k :: i <= k < j ==> IsDigit(s[k])
    ensures j < |s| ==> !IsDigit(s[j])
    decreases |s| - i
  {
    if i < |s| && IsDigit(s[i]) then DigitRun(s, i + 1) else i
  }

  function DigitValue(c: char): nat
  {
    if IsDigit(c) then c as int - '0' as int else 0
  }

  /** The value of a string of decimal digits, most significant first. */
  function Decimal(d: string): nat
  {
    if d == [] then 0 else Decimal(d[..|d| - 1]) * 10 + DigitValue(d[|d| - 1])
  }

  /**
   * `parse_num` (`std::stoi`): leading white space, an optional sign and the
   * longest run of digits after it; without a digit `std::stoi` throws
   * invalid_argument before `parse_num` could answer none.
   */
  function ParseNum(s: string): Result<int>
  {
    var i := SkipSpace(s, 0);
    var neg := i < |s| && s[i] == '-';
    var j := if i < |s| && (s[i] == '-' || s[i] == '+') then i + 1 else i;
    var k := DigitRun(s, j);
    if k == j then Err(InvalidArgument)
    else Ok(if neg then -(Decimal(s[j..k]) as int) else Decimal(s[j..k]) as int)
  }

  /** `parse_num` on every token, in order; the first token without digits throws invalid_argument. */
  method ParseTokens(toks: seq<string>) returns (r: Result<seq<int>>)
    ensures r.Ok? <==> forall i :: 0 <= i < |toks| ==> ParseNum(toks[i]).Ok?
    ensures r.Ok? ==> |r.value| == |toks| && forall i :: 0 <= i < |toks| ==> r.value[i] == ParseNum(toks[i]).value
    ensures r.Err? ==> r.error == InvalidArgument
  {
    var levels: seq<int> := [];
    var i := 0;
    while i < |toks|
      invariant 0 <= i <= |toks| && |levels| == i
      invariant forall j :: 0 <= j < i ==> ParseNum(toks[j]).Ok? && levels[j] == ParseNum(toks[j]).value
    {
      var n := ParseNum(toks[i]);
      if n.Err? {
        return Err(n.error);
      }
      levels := levels + [n.value];
      i := i + 1;
    }
    r := Ok(levels);
  }

  /** The decimal digits of n, most significant first, as `std::to_string` writes them. */
  function ShowNat(n: nat): (r: string)
    ensures |r| > 0 && forall k :: 0 <= k < |r| ==> IsDigit(r[k])
  {
    if n < 10 then [('0' as int + n) as char]
    else ShowNat(n / 10) + [('0' as int + n % 10) as char]
  }

  lemma {:induction false} DecimalOfShow(n: nat)
    ensures Decimal(ShowNat(n)) == n
  {
    if n >= 10 {
      var d := ShowNat(n);
      assert d[..|d| - 1] == ShowNat(n / 10);
      DecimalOfShow(n / 10);
    }
  }

  lemma {:induction false} DigitRunToEnd(s: string, i: nat)
    requires i <= |s| && forall k :: i <= k < |s| ==> IsDigit(s[k])
    ensures DigitRun(s, i) == |s|
    decreases |s| - i
  {
    if i < |s| {
      DigitRunToEnd(s, i + 1);
    }
  }

  /** `parse_num` reads back what `std::to_string` writes, with or without a minus sign. */
  lemma ParseShow(n: nat)
    ensures ParseNum(ShowNat(n)) == Ok(n)
    ensures ParseNum("-" + ShowNat(n)) == Ok(-(n as int))
  {
    var d := ShowNat(n);
    DecimalOfShow(n);
    DigitRunToEnd(d, 0);
    assert d[0..|d|] == d;
    var m := "-" + d;
    assert SkipSpace(m, 0) == 0;
    DigitRunToEnd(m, 1);
    assert m[1..|m|] == d;
  }

  /** One character of `parse_hex`: decimal digits, then a-f, then A-F; None for any other. */
  function HexDigit(c: char): (r: Option<int>)
    ensures r.Some? <==> '0' <= c <= '9' || 'a' <= c <= 'f' || 'A' <= c <= 'F'
    ensures r.Some? ==> 0 <= r.value < 16
  {
    if '0' <= c <= '9' then ParseDigit(c)
    else
      var lower := 10 + (c as int - 'a' as int);
      var digit := if lower < 10 || lower > 15 then 10 + (c as int - 'A' as int) else lower;
      if digit < 10 || digit > 15 then None else Some(digit)
  }

  function Pow16(k: nat): nat
  {
    if k == 0 then 1 else 16 * Pow16(k - 1)
  }

  /** Every character is a hex digit. */
  predicate IsHex(s: string)
  {
    forall i :: 0 <= i < |s| ==> HexDigit(s[i]).Some?
  }

  function DigitOrZero(c: char): nat
  {
    if HexDigit(c).Some? then HexDigit(c).value else 0
  }

  /** The number the first j characters denote as hex digits, most significant first. */
  function HexNumTo(s: string, j: nat): nat
    requires j <= |s|
  {
    if j == 0 then 0 else HexNumTo(s, j - 1) * 16 + DigitOrZero(s[j - 1])
  }

  /** The value of a text of hex digits; None if one of its characters is not a digit. */
  function HexValue(s: string): Option<int>
  {
    if IsHex(s) then Some(HexNumTo(s, |s|)) else None
  }

  /** The number read from a prefix depends on that prefix only. */
  lemma {:induction false} HexNumPrefix(s: string, t: string, j: nat)
    requires j <= |s| && j <= |t| && forall k :: 0 <= k < j ==> s[k] == t[k]
    ensures HexNumTo(s, j) == HexNumTo(t, j)
  {
    if j > 0 {
      HexNumPrefix(s, t, j - 1);
    }
  }

  /** The lower-case hex digit of a value below 16. */
  function HexChar(d: int): char
    requires 0 <= d < 16
  {
    if d < 10 then ('0' as int + d) as char else ('a' as int + d - 10) as char
  }

  lemma HexCharDigit(d: int)
    requires 0 <= d < 16
    ensures HexDigit(HexChar(d)) == Some(d)
  {
  }

  /** n as k lower-case hex digits, most significant first. */
  function ToHex(n: nat, k: nat): (r: string)
    ensures |r| == k
  {
    if k == 0 then [] else ToHex(n / 16, k - 1) + [HexChar(n % 16)]
  }

  /** Reading back k hex digits of n gives n, for n below 16^k. */
  lemma {:induction false} HexRoundTrip(n: nat, k: nat)
    requires n < Pow16(k)
    ensures HexValue(ToHex(n, k)) == Some(n)
  {
    if k > 0 {
      var t := ToHex(n / 16, k - 1);
      HexRoundTrip(n / 16, k - 1);
      HexCharDigit(n % 16);
      var s := t + [HexChar(n % 16)];
      assert forall i :: 0 <= i < |t| ==> s[i] == t[i];
      HexNumPrefix(s, t, |t|);
      assert IsHex(s);
    }
  }

  /** First index at or after i that is not a space or tab, or |s|. */
  function SkipWs(s: string, i: nat): (j: nat)
    requires i <= |s|
    ensures i <= j <= |s|
    decreases |s| - i
  {
    if i == |s| || !IsWs(s[i]) then i else SkipWs(s, i + 1)
  }

  /** Last index below j that is not a space or tab, or -1. */
  function LastNonWs(s: string, j: nat): (e: int)
    requires j <= |s|
    ensures -1 <= e < j
  {
    if j == 0 then -1 else if !IsWs(s[j - 1]) then j - 1 else LastNonWs(s, j - 1)
  }

  /** The text after the `#` or `0x` prefix, which is only looked for in texts of 2, resp. 3, characters or more. */
  function StripHexPrefix(s: string): string
  {
    if |s| >= 2 && s[0] == '#' then s[1..]
    else if |s| >= 3 && s[0] == '0' && s[1] == 'x' then s[2..]
    else s
  }

  /**
   * The digits `parse_hex` converts: leading blanks, the prefix and trailing
   * blanks removed; None where the blank scans run off the text, which `at` reports.
   */
  function HexCore(str: string): Option<string>
  {
    var p := SkipWs(str, 0);
    if p == |str| then None
    else
      var s := StripHexPrefix(str[p..]);
      var e := LastNonWs(s, |s|);
      if e < 0 then None else Some(s[..e + 1])
  }

  /** Blanks around, an optional prefix, and hex digits: the core is the digits. */
  lemma HexCoreOf(a: string, p: string, d: string, b: string)
    requires Blank(a) && Blank(b) && (p == "" || p == "#" || p == "0x")
    requires d != [] && IsHex(d)
    ensures HexCore(a + p + d + b) == Some(d)
  {
    var str := a + p + d + b;
    var s := p + d + b;
    assert str == a + s && str[|a|..] == s;
    SkipWsOver(str, 0, |a|);
    StripOf(p, d, b);
    TrailingBlanks(d, b);
  }

  /** Hex digits followed by blanks end at the last digit. */
  lemma TrailingBlanks(d: string, b: string)
    requires Blank(b) && d != [] && IsHex(d)
    ensures LastNonWs(d + b, |d + b|) == |d| - 1 && (d + b)[..|d|] == d
  {
    assert HexDigit(d[|d| - 1]).Some?;
    LastNonWsOver(d + b, |d + b|, |d| - 1);
  }

  /** The prefix comes off hex digits followed by blanks. */
  lemma StripOf(p: string, d: string, b: string)
    requires Blank(b) && (p == "" || p == "#" || p == "0x")
    requires d != [] && IsHex(d)
    ensures StripHexPrefix(p + d + b) == d + b
  {
    var s := p + d + b;
    assert HexDigit(d[0]).Some?;
    if p == "" {
      assert s == d + b;
      if |d| >= 2 {
        assert HexDigit(d[1]).Some?;
      } else if |s| >= 2 {
        assert s[1] == b[0] && IsWs(b[0]);
      }
    } else if p == "#" {
      assert s[1..] == d + b;
    } else {
      assert s[2..] == d + b;
    }
  }

  lemma {:induction false} SkipWsOver(s: string, i: nat, j: nat)
    requires i <= j < |s| && !IsWs(s[j]) && forall k :: i <= k < j ==> IsWs(s[k])
    ensures SkipWs(s, i) == j
    decreases j - i
  {
    if i < j {
      SkipWsOver(s, i + 1, j);
    }
  }

  lemma {:induction false} LastNonWsOver(s: string, j: nat, e: nat)
    requires e < j <= |s| && !IsWs(s[e]) && forall k :: e < k < j ==> IsWs(s[k])
    ensures LastNonWs(s, j) == e
    decreases j
  {
    if j - 1 > e {
      LastNonWsOver(s, j - 1, e);
    }
  }

  /** The step of `parse_hex`'s sum: one more digit to the left is worth 16 times as much. */
  lemma HornerStep(a: int, d: int, f: int, r: int)
    ensures (a * 16 + d) * f + r == a * (f * 16) + (r + d * f)
  {
  }

  /**
   * `parse_hex`: None for the empty text; otherwise the value of the digits
   * between the blanks and the prefix, None if one of them is not a hex digit.
   * When a blank scan runs off the text, `at` throws out_of_range.
   */
  method ParseHex(str: string) returns (r: Result<Option<int>>)
    ensures |str| == 0 ==> r == Ok(None)
    ensures |str| > 0 && HexCore(str).None? ==> r == Err(OutOfRange)
    ensures |str| > 0 && HexCore(str).Some? ==> r == Ok(HexValue(HexCore(str).value))
  {
    if |str| == 0 {
      return Ok(None);
    }
    var prefix := 0;
    while true
      invariant prefix <= |str| && SkipWs(str, prefix) == SkipWs(str, 0)
      decreases |str| - prefix
    {
      if prefix >= |str| {
        return Err(OutOfRange);
      }
      if !IsWs(str[prefix]) {
        break;
      }
      prefix := prefix + 1;
    }
    var s := str[prefix..];
    if |s| >= 2 {
      if s[0] == '#' {
        s := s[1..];
      } else if |s| >= 3 {
        if s[0] == '0' && s[1] == 'x' {
          s := s[2..];
        }
      }
    }
    assert s == StripHexPrefix(str[prefix..]);
    var endIdx := |s| - 1;
    while true
      invariant -1 <= endIdx < |s| && LastNonWs(s, endIdx + 1) == LastNonWs(s, |s|)
      decreases endIdx
    {
      if endIdx < 0 {
        return Err(OutOfRange);
      }
      if !IsWs(s[endIdx]) {
        break;
      }
      endIdx := endIdx - 1;
    }
    var core := s[..endIdx + 1];
    assert HexCore(str) == Some(core);
    var v := SumHexDigits(core);
    r := Ok(v);
  }

  /** The digit loop of `parse_hex`: from the last digit to the first, each worth 16 times the one after it. */
  method SumHexDigits(core: string) returns (v: Option<int>)
    ensures v == HexValue(core)
  {
    var res := 0;
    var fac := 1;
    var i := |core| - 1;
    while i >= 0
      invariant -1 <= i < |core|
      invariant fac == Pow16(|core| - 1 - i)
      invariant forall k :: i < k < |core| ==> HexDigit(core[k]).Some?
      invariant HexNumTo(core, |core|) == HexNumTo(core, i + 1) * fac + res
      decreases i
    {
      var digit := HexDigit(core[i]);
      if digit.None? {
        return None;
      }
      HornerStep(HexNumTo(core, i), digit.value, fac, res);
      res := res + digit.value * fac;
      fac := fac * 16;
      i := i - 1;
    }
    v := Some(res);
  }

  // ---------------------------------------------------------------------------
  // IOStatus
  // ---------------------------------------------------------------------------

  /** The IOStatus enumeration's underlying 32-bit value. */
  type IOStatus = bv32

  const UNDEFINED: IOStatus := 0
  const INPUT_SUCCESS: IOStatus := 1
  const INPUT_HELP: IOStatus := 2
  const OUTPUT_VERBOSE: IOStatus := 4

  function StatusOr(a: IOStatus, b: IOStatus): IOStatus
  {
    a | b
  }

  function StatusAnd(a: IOStatus, b: IOStatus): IOStatus
  {
    a & b
  }

  /** `iostat_has_flag`: every bit of the flag is set in the status. */
  function HasFlag(status: IOStatus, flag: IOStatus): (r: bool)
    ensures r <==> flag & !status == 0
  {
    StatusAnd(status, flag) == flag
  }

  /** Or-ing in a flag sets it, and keeps every flag already set. */
  lemma OrSetsFlag(a: IOStatus, b: IOStatus, f: IOStatus)
    ensures HasFlag(StatusOr(a, b), b)
    ensures HasFlag(a, f) ==> HasFlag(StatusOr(a, b), f)
  {
  }

  /** The three flags are distinct bits: none includes another, and UNDEFINED is in every status. */
  lemma FlagsDistinct(s: IOStatus)
    ensures !HasFlag(INPUT_SUCCESS, INPUT_HELP) && !HasFlag(INPUT_HELP, OUTPUT_VERBOSE)
    ensures !HasFlag(OUTPUT_VERBOSE, INPUT_SUCCESS)
    ensures HasFlag(s, UNDEFINED)
    ensures HasFlag(StatusOr(INPUT_SUCCESS, INPUT_HELP), INPUT_HELP)
    ensures !HasFlag(StatusOr(INPUT_SUCCESS, OUTPUT_VERBOSE), INPUT_HELP)
  {
  }
}
