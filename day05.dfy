/**
 * Day 5 (day-05/day-05.cpp): page-ordering rules `a|b` (page a must be
 * printed before page b), a blank line, then updates `p1,p2,...`.  Part one
 * adds up the middle page of every update that no rule forbids.
 */
module Day05 {
  import opened Wrappers
  import opened AocIo

  // ---------------------------------------------------------------------------
  // The meaning of each input line
  // ---------------------------------------------------------------------------

  /** A rule line: (before, after) from the two `|`-separated numbers; invalid_argument otherwise. */
  function RuleOf(line: string): Result<(int, int)>
  {
    var toks := Lex(line, "|", "", 0, []);
    if |toks| != 2 || ParseNum(toks[0]).Err? || ParseNum(toks[1]).Err? then Err(InvalidArgument)
    else Ok((ParseNum(toks[0]).value, ParseNum(toks[1]).value))
  }

  /** An update line: its comma-separated pages; invalid_argument for no token or a token without digits. */
  function UpdateOf(line: string): (r: Result<seq<int>>)
    ensures r.Ok? ==> |r.value| >= 1
  {
    var toks := Lex(line, ",", "", 0, []);
    if |toks| < 1 || exists i :: 0 <= i < |toks| && ParseNum(toks[i]).Err? then Err(InvalidArgument)
    else Ok(seq(|toks|, i requires 0 <= i < |toks| => ParseNum(toks[i]).value))
  }

  /** The section separator: `str_without_whitespace` leaves nothing of the line. */
  predicate BlankLine(line: string)
  {
    WithoutWhitespace(line) == ""
  }

  /** The index of the first blank line, or |lines| when there is none. */
  function FirstBlank(lines: seq<string>): (k: nat)
    ensures k <= |lines|
    ensures forall j :: 0 <= j < k ==> !BlankLine(lines[j])
    ensures k < |lines| ==> BlankLine(lines[k])
  {
    if lines == [] || BlankLine(lines[0]) then 0
    else 1 + FirstBlank(lines[1..])
  }

  /** The rules of the rule section, in order; invalid_argument when one line is malformed. */
  function Rules(ls: seq<string>): Result<seq<(int, int)>>
  {
    if ls == [] then Ok([])
    else
      var init := Rules(ls[..|ls| - 1]);
      var rule := RuleOf(ls[|ls| - 1]);
      if init.Err? then init
      else if rule.Err? then Err(InvalidArgument)
      else Ok(init.value + [rule.value])
  }

  /** The rule section parses exactly when each of its lines is a rule; rule j comes from line j. */
  lemma {:induction false} RulesAllParse(ls: seq<string>)
    ensures Rules(ls).Ok? <==> forall j :: 0 <= j < |ls| ==> RuleOf(ls[j]).Ok?
    ensures Rules(ls).Ok? ==> |Rules(ls).value| == |ls| && forall j :: 0 <= j < |ls| ==> Rules(ls).value[j] == RuleOf(ls[j]).value
  {
    if ls != [] {
      var init := ls[..|ls| - 1];
      RulesAllParse(init);
      assert forall j :: 0 <= j < |init| ==> init[j] == ls[j];
    }
  }

  /** Unfolding the rule section by one line. */
  lemma RulesStep(ls: seq<string>, n: nat)
    requires n < |ls|
    ensures Rules(ls[..n + 1]) ==
              if Rules(ls[..n]).Err? then Rules(ls[..n])
              else if RuleOf(ls[n]).Err? then Err(InvalidArgument)
              else Ok(Rules(ls[..n]).value + [RuleOf(ls[n]).value])
  {
    assert ls[..n + 1][..n] == ls[..n];
  }

  /** The updates of the update section: one per non-blank line, in order. */
  function Updates(ls: seq<string>): (r: Result<seq<seq<int>>>)
    ensures r.Ok? ==> forall u :: u in r.value ==> |u| >= 1
  {
    if ls == [] then Ok([])
    else
      var init := Updates(ls[..|ls| - 1]);
      var last := ls[|ls| - 1];
      if init.Err? || BlankLine(last) then init
      else if UpdateOf(last).Err? then Err(InvalidArgument)
      else Ok(init.value + [UpdateOf(last).value])
  }

  /**
   * The whole input: rules up to the first blank line, updates after it;
   * invalid_argument for a malformed line or when there is no update.
   */
  function Input(lines: seq<string>): Result<(seq<(int, int)>, seq<seq<int>>)>
  {
    var k := FirstBlank(lines);
    var rules := Rules(lines[..k]);
    var updates := Updates(lines[k..]);
    if rules.Err? || updates.Err? || updates.value == [] then Err(InvalidArgument)
    else Ok((rules.value, updates.value))
  }

  // ---------------------------------------------------------------------------
  // Parsing into the rule map
  // ---------------------------------------------------------------------------

  /**
   * The map `page -> pages that must come before it` holds exactly the rules:
   * b maps to a set holding a exactly when `a|b` is a rule, and no page maps
   * to an empty set.
   */
  ghost predicate RulesMap(m: map<int, set<int>>, pairs: seq<(int, int)>)
  {
    (forall b :: b in m ==> m[b] != {}) &&
    forall a, b :: (b in m && a in m[b]) <==> (a, b) in pairs
  }

  /** Adding the rule `a|b` to the map keeps it in step with the rule list. */
  lemma AddRule(m: map<int, set<int>>, pairs: seq<(int, int)>, a: int, b: int, m': map<int, set<int>>)
    requires RulesMap(m, pairs)
    requires m' == if b in m then m[b := m[b] + {a}] else m[b := {a}]
    ensures RulesMap(m', pairs + [(a, b)])
  {
    forall x, y
      ensures (y in m' && x in m'[y]) <==> (x, y) in pairs + [(a, b)]
    {
      assert (x, y) in pairs + [(a, b)] <==> (x, y) in pairs || (x, y) == (a, b);
    }
  }

  /** `ordering_rules[after].insert(before)`: the map gains the rule `before|after`. */
  method InsertRule(m: map<int, set<int>>, ghost pairs: seq<(int, int)>, before: int, after: int)
    returns (m': map<int, set<int>>)
    requires RulesMap(m, pairs)
    ensures RulesMap(m', pairs + [(before, after)])
  {
    if after in m {
      m' := m[after := m[after] + {before}];
    } else {
      m' := m[after := {before}];
    }
    AddRule(m, pairs, before, after, m');
  }

  /** Unfolding the update section by one line. */
  lemma UpdatesStep(ls: seq<string>, n: nat)
    requires n < |ls|
    ensures Updates(ls[..n + 1]) ==
              if Updates(ls[..n]).Err? || BlankLine(ls[n]) then Updates(ls[..n])
              else if UpdateOf(ls[n]).Err? then Err(InvalidArgument)
              else Ok(Updates(ls[..n]).value + [UpdateOf(ls[n]).value])
  {
    assert ls[..n + 1][..n] == ls[..n];
  }

  /** A prefix with a malformed update line stays malformed however it goes on. */
  lemma {:induction false} UpdatesErrExtends(ls: seq<string>, n: nat)
    requires n <= |ls| && Updates(ls[..n]).Err?
    ensures Updates(ls).Err?
  {
    if n < |ls| {
      assert ls[..|ls| - 1][..n] == ls[..n];
      UpdatesErrExtends(ls[..|ls| - 1], n);
    } else {
      assert ls[..n] == ls;
    }
  }

  /** The rule branch of `parse_input`: split at `|`, demand two tokens, read both numbers. */
  method ParseRule(line: string) returns (r: Result<(int, int)>)
    ensures r == RuleOf(line)
  {
    var toks, _ := LineTokenise(line, "|", "", []);
    assert toks == Lex(line, "|", "", 0, []);
    if |toks| != 2 {
      return Err(InvalidArgument);
    }
    var before := ParseNum(toks[0]);
    var after := ParseNum(toks[1]);
    if before.Err? || after.Err? {
      return Err(InvalidArgument);
    }
    r := Ok((before.value, after.value));
  }

  /** The update branch of `parse_input`: split at `,`, demand a token, read every number. */
  method ParseUpdate(line: string) returns (r: Result<seq<int>>)
    ensures r == UpdateOf(line)
  {
    var toks, _ := LineTokenise(line, ",", "", []);
    assert toks == Lex(line, ",", "", 0, []);
    if |toks| < 1 {
      return Err(InvalidArgument);
    }
    r := ParseTokens(toks);
    if r.Ok? {
      assert r.value == UpdateOf(line).value;
    }
  }

  /**
   * The state of `parse_input` after its first i lines: the map holds the
   * rules read so far, and past the first blank line `updates` holds the
   * updates read so far.
   */
  ghost predicate Parsed(lines: seq<string>, i: nat, firstSection: bool,
                         m: map<int, set<int>>, pairs: seq<(int, int)>, updates: seq<seq<int>>)
  {
    var k := FirstBlank(lines);
    i <= |lines| && (firstSection <==> i <= k) && RulesMap(m, pairs) &&
    (firstSection ==> Rules(lines[..i]) == Ok(pairs) && updates == []) &&
    (!firstSection ==> Rules(lines[..k]) == Ok(pairs) && Updates(lines[k..][..i - k]) == Ok(updates))
  }

  /** One line of `parse_input`'s loop: a section break, a rule or an update. */
  method ParseLine(lines: seq<string>, i: nat, firstSection: bool, m: map<int, set<int>>,
                   ghost pairs: seq<(int, int)>, updates: seq<seq<int>>)
    returns (ok: bool, firstSection': bool, m': map<int, set<int>>,
             ghost pairs': seq<(int, int)>, updates': seq<seq<int>>)
    requires i < |lines| && Parsed(lines, i, firstSection, m, pairs, updates)
    ensures ok ==> Parsed(lines, i + 1, firstSection', m', pairs', updates')
    ensures !ok ==> Input(lines).Err?
  {
    ghost var k := FirstBlank(lines);
    ghost var rest := lines[k..];
    ok, firstSection', m', pairs', updates' := true, firstSection, m, pairs, updates;
    var line := lines[i];
    if WithoutWhitespace(line) == "" {
      if !firstSection {
        UpdatesStep(rest, i - k);
      } else {
        assert rest[..i + 1 - k] == [lines[k]];
      }
      firstSection' := false;
    } else if firstSection {
      RulesStep(lines, i);
      var rule := ParseRule(line);
      if rule.Err? {
        RulesErr(lines, k, i);
        ok := false;
      } else {
        m' := InsertRule(m, pairs, rule.value.0, rule.value.1);
        pairs' := pairs + [rule.value];
      }
    } else {
      UpdatesStep(rest, i - k);
      var pages := ParseUpdate(line);
      if pages.Err? {
        UpdatesErrExtends(rest, i + 1 - k);
        ok := false;
      } else {
        updates' := updates + [pages.value];
      }
    }
  }

  /** `parse_input`: the rule map and the updates, in the order of the lines. */
  method ParseInput(lines: seq<string>) returns (r: Result<(map<int, set<int>>, seq<seq<int>>)>)
    ensures r.Ok? <==> Input(lines).Ok?
    ensures r.Err? ==> r.error == InvalidArgument
    ensures r.Ok? ==> RulesMap(r.value.0, Input(lines).value.0) && r.value.1 == Input(lines).value.1
  {
    ghost var pairs: seq<(int, int)> := [];
    var orderingRules: map<int, set<int>> := map[];
    var updates: seq<seq<int>> := [];
    var firstSection := true;
    var ok := true;
    var i := 0;
    while i < |lines| && ok
      invariant ok ==> Parsed(lines, i, firstSection, orderingRules, pairs, updates)
      invariant !ok ==> Input(lines).Err?
      decreases |lines| - i, ok
    {
      ok, firstSection, orderingRules, pairs, updates :=
        ParseLine(lines, i, firstSection, orderingRules, pairs, updates);
      if ok {
        i := i + 1;
      }
    }
    if !ok {
      return Err(InvalidArgument);
    }
    Finished(lines, firstSection, orderingRules, pairs, updates);
    if |updates| == 0 {
      return Err(InvalidArgument);
    }
    r := Ok((orderingRules, updates));
  }

  /** After the last line the parsed rules and updates are those of the whole input. */
  lemma Finished(lines: seq<string>, firstSection: bool,
                 m: map<int, set<int>>, pairs: seq<(int, int)>, updates: seq<seq<int>>)
    requires Parsed(lines, |lines|, firstSection, m, pairs, updates)
    ensures Rules(lines[..FirstBlank(lines)]) == Ok(pairs)
    ensures Updates(lines[FirstBlank(lines)..]) == Ok(updates)
  {
    var k := FirstBlank(lines);
    if firstSection {
      assert k == |lines|;
      assert Updates(lines[k..]) == Updates([]);
    } else {
      assert lines[k..][..|lines| - k] == lines[k..];
    }
  }

  /** A malformed line in the rule section makes the whole input malformed. */
  lemma RulesErr(lines: seq<string>, k: nat, i: nat)
    requires k == FirstBlank(lines) && i < k
    requires RuleOf(lines[i]).Err?
    ensures Input(lines).Err?
  {
    RulesAllParse(lines[..k]);
    assert lines[..k][i] == lines[i];
  }

  // ---------------------------------------------------------------------------
  // Order check and middle-page sum
  // ---------------------------------------------------------------------------

  /** No page is followed (or matched) by a page that a rule says must come before it. */
  predicate InOrder(pages: seq<int>, pairs: seq<(int, int)>)
  {
    forall i, j :: 0 <= i <= j < |pages| ==> (pages[j], pages[i]) !in pairs
  }

  /** The nested loops of `part_one` over one update: true exactly when it is in order. */
  method UpdateInOrder(pages: seq<int>, orderingRules: map<int, set<int>>, ghost pairs: seq<(int, int)>) returns (ok: bool)
    requires RulesMap(orderingRules, pairs)
    ensures ok <==> InOrder(pages, pairs)
  {
    var i := 0;
    while i < |pages|
      invariant 0 <= i <= |pages|
      invariant forall i', j :: 0 <= i' < i && i' <= j < |pages| ==> (pages[j], pages[i']) !in pairs
    {
      var page := pages[i];
      if page !in orderingRules {
        forall j | i <= j < |pages|
          ensures (pages[j], page) !in pairs
        {
          RuleInMap(orderingRules, pairs, pages[j], page);
        }
      } else {
        var before := orderingRules[page];
        var j := i;
        while j < |pages|
          invariant i <= j <= |pages|
          invariant forall j' :: i <= j' < j ==> (pages[j'], page) !in pairs
        {
          RuleInMap(orderingRules, pairs, pages[j], page);
          if pages[j] in before {
            return false;
          }
          j := j + 1;
        }
      }
      i := i + 1;
    }
    ok := true;
  }

  lemma RuleInMap(m: map<int, set<int>>, pairs: seq<(int, int)>, a: int, b: int)
    requires RulesMap(m, pairs)
    ensures (a, b) in pairs <==> b in m && a in m[b]
  {
  }

  /** The middle page when the update is in order and has one; 0 otherwise. */
  function Middle(pages: seq<int>, pairs: seq<(int, int)>): int
  {
    if InOrder(pages, pairs) && |pages| % 2 == 1 then pages[|pages| / 2] else 0
  }

  /** The sum of the middle pages of the in-order updates. */
  function SumMiddles(updates: seq<seq<int>>, pairs: seq<(int, int)>): int
  {
    if updates == [] then 0
    else SumMiddles(updates[..|updates| - 1], pairs) + Middle(updates[|updates| - 1], pairs)
  }

  /** An in-order update of even length: it has no middle page. */
  predicate NoMiddle(pages: seq<int>, pairs: seq<(int, int)>)
  {
    InOrder(pages, pairs) && |pages| % 2 == 0
  }

  /**
   * `part_one`: invalid_argument for malformed input or an in-order update of
   * even length; otherwise the sum of the middle pages of the in-order updates.
   */
  method PartOne(lines: seq<string>) returns (r: Result<int>)
    ensures r.Err? <==> Input(lines).Err? ||
                        exists u :: u in Input(lines).value.1 && NoMiddle(u, Input(lines).value.0)
    ensures r.Err? ==> r.error == InvalidArgument
    ensures r.Ok? ==> r.value == SumMiddles(Input(lines).value.1, Input(lines).value.0)
  {
    var parsed := ParseInput(lines);
    if parsed.Err? {
      return Err(parsed.error);
    }
    var orderingRules, updates := parsed.value.0, parsed.value.1;
    ghost var pairs := Input(lines).value.0;
    var sumOfMiddlePages := 0;
    var i := 0;
    while i < |updates|
      invariant 0 <= i <= |updates|
      invariant sumOfMiddlePages == SumMiddles(updates[..i], pairs)
      invariant forall j :: 0 <= j < i ==> !NoMiddle(updates[j], pairs)
    {
      var pages := updates[i];
      assert updates[..i + 1][..i] == updates[..i];
      var inOrder := UpdateInOrder(pages, orderingRules, pairs);
      if inOrder {
        if |pages| % 2 == 0 {
          assert pages in updates && NoMiddle(pages, pairs);
          return Err(InvalidArgument);
        }
        sumOfMiddlePages := sumOfMiddlePages + pages[|pages| / 2];
      }
      i := i + 1;
    }
    assert updates[..i] == updates;
    r := Ok(sumOfMiddlePages);
  }

  // ---------------------------------------------------------------------------
  // Properties
  // ---------------------------------------------------------------------------

  /** Out-of-order updates add nothing: dropping one leaves the sum unchanged. */
  lemma {:induction false} OutOfOrderAddsNothing(a: seq<seq<int>>, u: seq<int>, b: seq<seq<int>>, pairs: seq<(int, int)>)
    requires !InOrder(u, pairs)
    ensures SumMiddles(a + [u] + b, pairs) == SumMiddles(a + b, pairs)
  {
    if b == [] {
      assert (a + [u] + b)[..|a + [u] + b| - 1] == a && a + b == a;
    } else {
      var b' := b[..|b| - 1];
      OutOfOrderAddsNothing(a, u, b', pairs);
      assert (a + [u] + b)[..|a + [u] + b| - 1] == a + [u] + b';
      assert (a + b)[..|a + b| - 1] == a + b';
    }
  }

  /** More rules can only take updates out of order. */
  lemma MoreRulesFewerInOrder(pages: seq<int>, pairs: seq<(int, int)>, extra: seq<(int, int)>)
    requires InOrder(pages, pairs + extra)
    ensures InOrder(pages, pairs)
  {
    forall i, j | 0 <= i <= j < |pages|
      ensures (pages[j], pages[i]) !in pairs
    {
      assert (pages[j], pages[i]) !in pairs + extra;
    }
  }

  /** A rule `p|p` puts every update holding p out of order, since a page is checked against itself. */
  lemma SelfRuleBlocks(pages: seq<int>, pairs: seq<(int, int)>, i: nat)
    requires i < |pages| && (pages[i], pages[i]) in pairs
    ensures !InOrder(pages, pairs)
  {
  }
}
