/**
 * Day 1 (day-01/day-01.cpp): two columns of location ids.  Part one pairs the
 * sorted columns and adds up the distances, part two weighs every id of the
 * left column by how often it occurs in the right one.
 */
module Day01 {
  import opened Wrappers
  import opened AocIo

  // ---------------------------------------------------------------------------
  // Parsing
  // ---------------------------------------------------------------------------

  /**
   * The two ids of one line: token 0 and token 1 of its blank-separated
   * tokens.  `toks.at` throws out_of_range when a token is missing and
   * `parse_num` throws invalid_argument on a token without digits; token 0 is
   * read and parsed before token 1 is looked at.
   */
  function LineIds(line: string): Result<(int, int)>
  {
    var toks := Lex(line, " ", "", 0, []);
    if |toks| < 1 then Err(OutOfRange)
    else if ParseNum(toks[0]).Err? then Err(ParseNum(toks[0]).error)
    else if |toks| < 2 then Err(OutOfRange)
    else if ParseNum(toks[1]).Err? then Err(ParseNum(toks[1]).error)
    else Ok((ParseNum(toks[0]).value, ParseNum(toks[1]).value))
  }

  predicate AllParse(lines: seq<string>)
  {
    forall i :: 0 <= i < |lines| ==> LineIds(lines[i]).Ok?
  }

  /**
   * `parse_lists`: token 0 of line i is the i-th entry of the first list and
   * token 1 the i-th entry of the second; the first line that does not parse
   * decides the error.  Both lists grow in step, so the unequal-length check
   * after the loop never fires.
   */
  method ParseLists(lines: seq<string>) returns (r: Result<(seq<int>, seq<int>)>)
    ensures r.Ok? <==> AllParse(lines)
    ensures r.Ok? ==> |r.value.0| == |lines| == |r.value.1|
    ensures r.Ok? ==> forall i :: 0 <= i < |lines| ==> LineIds(lines[i]) == Ok((r.value.0[i], r.value.1[i]))
    ensures r.Err? ==> exists i :: 0 <= i < |lines| && LineIds(lines[i]) == Err(r.error) && AllParse(lines[..i])
  {
    var id1: seq<int> := [];
    var id2: seq<int> := [];
    var i := 0;
    while i < |lines|
      invariant 0 <= i <= |lines|
      invariant |id1| == i == |id2|
      invariant AllParse(lines[..i])
      invariant forall j :: 0 <= j < i ==> LineIds(lines[j]) == Ok((id1[j], id2[j]))
    {
      var toks, out := LineTokenise(lines[i], " ", "", []);
      assert toks == Lex(lines[i], " ", "", 0, []);
      if |toks| < 1 {
        return Err(OutOfRange);
      }
      var a := ParseNum(toks[0]);
      if a.Err? {
        return Err(a.error);
      }
      if |toks| < 2 {
        return Err(OutOfRange);
      }
      var b := ParseNum(toks[1]);
      if b.Err? {
        return Err(b.error);
      }
      id1 := id1 + [a.value];
      id2 := id2 + [b.value];
      assert lines[..i + 1] == lines[..i] + [lines[i]];
      i := i + 1;
    }
    assert lines[..i] == lines;
    r := Ok((id1, id2));
  }

  // ---------------------------------------------------------------------------
  // Sorting (`std::sort`)
  // ---------------------------------------------------------------------------

  predicate Sorted(s: seq<int>)
  {
    forall i, j :: 0 <= i < j < |s| ==> s[i] <= s[j]
  }

  function Insert(x: int, s: seq<int>): seq<int>
  {
    if s == [] || x <= s[0] then [x] + s else [s[0]] + Insert(x, s[1..])
  }

  /** Ascending order, the result `std::sort` leaves in the vector. */
  function Sort(s: seq<int>): seq<int>
  {
    if s == [] then [] else Insert(s[0], Sort(s[1..]))
  }

  lemma {:induction false} InsertElems(x: int, s: seq<int>)
    ensures multiset(Insert(x, s)) == multiset(s) + multiset{x} && |Insert(x, s)| == |s| + 1
    ensures Insert(x, s)[0] == if s == [] || x <= s[0] then x else s[0]
  {
    if s != [] && x > s[0] {
      assert s == [s[0]] + s[1..];
      InsertElems(x, s[1..]);
    }
  }

  lemma {:induction false} InsertKeeps(x: int, s: seq<int>)
    requires Sorted(s)
    ensures Sorted(Insert(x, s)) && multiset(Insert(x, s)) == multiset(s) + multiset{x}
  {
    InsertElems(x, s);
    if s != [] && x > s[0] {
      var t := s[1..];
      InsertKeeps(x, t);
      InsertElems(x, t);
      var r := Insert(x, t);
      assert Insert(x, s) == [s[0]] + r;
      assert s[0] <= r[0];
    }
  }

  /** `std::sort` leaves an ascending permutation of its input. */
  lemma {:induction false} SortIsSortedPermutation(s: seq<int>)
    ensures Sorted(Sort(s)) && multiset(Sort(s)) == multiset(s) && |Sort(s)| == |s|
  {
    if s != [] {
      SortIsSortedPermutation(s[1..]);
      InsertKeeps(s[0], Sort(s[1..]));
      InsertElems(s[0], Sort(s[1..]));
      assert s == [s[0]] + s[1..];
    }
  }

  lemma SortedHeadIsLeast(a: seq<int>, x: int)
    requires Sorted(a) && x in multiset(a)
    ensures a[0] <= x
  {
    var k :| 0 <= k < |a| && a[k] == x;
  }

  lemma DropHead(s: seq<int>)
    requires s != []
    ensures s == [s[0]] + s[1..] && s[0] in multiset(s)
    ensures multiset(s[1..]) == multiset(s) - multiset{s[0]}
    ensures Sorted(s) ==> Sorted(s[1..])
  {
    assert s == [s[0]] + s[1..];
  }

  /** Two ascending sequences with the same elements start alike and go on with the same elements. */
  lemma HeadsAgree(a: seq<int>, b: seq<int>)
    requires Sorted(a) && Sorted(b) && multiset(a) == multiset(b) && a != []
    ensures b != [] && a[0] == b[0] && a == [a[0]] + a[1..] && b == [b[0]] + b[1..]
    ensures Sorted(a[1..]) && Sorted(b[1..]) && multiset(a[1..]) == multiset(b[1..])
  {
    DropHead(a);
    assert b != [];
    DropHead(b);
    SortedHeadIsLeast(a, b[0]);
    SortedHeadIsLeast(b, a[0]);
  }

  /** Two ascending sequences holding the same elements are equal. */
  lemma {:induction false} SortedUnique(a: seq<int>, b: seq<int>)
    requires Sorted(a) && Sorted(b) && multiset(a) == multiset(b)
    ensures a == b
    decreases |a|
  {
    if a == [] {
      assert |multiset(b)| == 0;
    } else {
      HeadsAgree(a, b);
      SortedUnique(a[1..], b[1..]);
    }
  }

  /** `std::sort` does not depend on the order of its input. */
  lemma SortOrderFree(a: seq<int>, b: seq<int>)
    requires multiset(a) == multiset(b)
    ensures Sort(a) == Sort(b)
  {
    SortIsSortedPermutation(a);
    SortIsSortedPermutation(b);
    SortedUnique(Sort(a), Sort(b));
  }

  // ---------------------------------------------------------------------------
  // Part one
  // ---------------------------------------------------------------------------

  function Abs(n: int): nat
  {
    if n < 0 then -n else n
  }

  /** The zip and accumulate of `part_one`: the sum of |a[i] - b[i]|. */
  function TotalDistance(a: seq<int>, b: seq<int>): nat
    requires |a| == |b|
  {
    if a == [] then 0 else TotalDistance(a[..|a| - 1], b[..|b| - 1]) + Abs(a[|a| - 1] - b[|b| - 1])
  }

  /** `part_one` on parsed lists: both sorted ascending, then paired by index. */
  function PartOneScore(a: seq<int>, b: seq<int>): nat
    requires |a| == |b|
  {
    SortIsSortedPermutation(a);
    SortIsSortedPermutation(b);
    TotalDistance(Sort(a), Sort(b))
  }

  /** The answer of part one does not depend on the input order of either list. */
  lemma PartOneOrderFree(a: seq<int>, b: seq<int>, a2: seq<int>, b2: seq<int>)
    requires |a| == |b| && |a2| == |b2|
    requires multiset(a) == multiset(a2) && multiset(b) == multiset(b2)
    ensures PartOneScore(a, b) == PartOneScore(a2, b2)
  {
    SortOrderFree(a, a2);
    SortOrderFree(b, b2);
  }

  lemma {:induction false} TotalDistanceZero(a: seq<int>, b: seq<int>)
    requires |a| == |b|
    ensures TotalDistance(a, b) == 0 <==> a == b
  {
    if a != [] {
      TotalDistanceZero(a[..|a| - 1], b[..|b| - 1]);
      assert a == a[..|a| - 1] + [a[|a| - 1]] && b == b[..|b| - 1] + [b[|b| - 1]];
    }
  }

  /** Part one answers 0 exactly when the two lists hold the same ids, counted with multiplicity. */
  lemma PartOneZeroIff(a: seq<int>, b: seq<int>)
    requires |a| == |b|
    ensures PartOneScore(a, b) == 0 <==> multiset(a) == multiset(b)
  {
    SortIsSortedPermutation(a);
    SortIsSortedPermutation(b);
    TotalDistanceZero(Sort(a), Sort(b));
    if multiset(a) == multiset(b) {
      SortOrderFree(a, b);
    }
  }

  /** `part_one`: parse, sort both lists, sum the distances of the pairs. */
  method PartOne(lines: seq<string>) returns (r: Result<int>)
    ensures r.Ok? <==> AllParse(lines)
    ensures r.Ok? ==> exists a, b :: (|a| == |lines| == |b| &&
              (forall i :: 0 <= i < |lines| ==> LineIds(lines[i]) == Ok((a[i], b[i]))) &&
              r.value == PartOneScore(a, b))
  {
    var lists := ParseLists(lines);
    if lists.Err? {
      return Err(lists.error);
    }
    var a, b := lists.value.0, lists.value.1;
    r := Ok(PartOneScore(a, b));
  }

  // ---------------------------------------------------------------------------
  // Part two
  // ---------------------------------------------------------------------------

  /** The `count` map of `part_two`: every id of the list, mapped to how often it occurs. */
  method CountIds(ids: seq<int>) returns (count: map<int, nat>)
    ensures forall id :: id in count <==> id in ids
    ensures forall id :: id in count ==> count[id] == multiset(ids)[id]
  {
    count := map[];
    var i := 0;
    while i < |ids|
      invariant 0 <= i <= |ids|
      invariant forall id :: id in count <==> id in ids[..i]
      invariant forall id :: id in count ==> count[id] == multiset(ids[..i])[id]
    {
      var id := ids[i];
      assert ids[..i + 1] == ids[..i] + [id];
      if id in count {
        count := count[id := count[id] + 1];
      } else {
        count := count[id := 1];
      }
      i := i + 1;
    }
    assert ids[..i] == ids;
  }

  /** The similarity score: every id of the left list times its number of occurrences in the right list. */
  function Similarity(a: seq<int>, b: seq<int>): int
  {
    if a == [] then 0 else Similarity(a[..|a| - 1], b) + a[|a| - 1] * multiset(b)[a[|a| - 1]]
  }

  /** `part_two` after parsing: look each id of the left list up in the count map. */
  method SimilarityScore(a: seq<int>, b: seq<int>) returns (score: int)
    ensures score == Similarity(a, b)
  {
    var count := CountIds(b);
    score := 0;
    var i := 0;
    while i < |a|
      invariant 0 <= i <= |a|
      invariant score == Similarity(a[..i], b)
    {
      var id := a[i];
      assert a[..i + 1][..i] == a[..i];
      score := score + id * (if id in count then count[id] else 0);
      i := i + 1;
    }
    assert a[..i] == a;
  }

  /** One id against the right list, pair by pair. */
  function Matches(x: int, b: seq<int>): int
  {
    if b == [] then 0 else Matches(x, b[..|b| - 1]) + (if b[|b| - 1] == x then x else 0)
  }

  /** Every pair (i, j) with a[i] == b[j] adds a[i]: the score by its definition in the puzzle. */
  function PairSum(a: seq<int>, b: seq<int>): int
  {
    if a == [] then 0 else PairSum(a[..|a| - 1], b) + Matches(a[|a| - 1], b)
  }

  lemma {:induction false} MatchesCount(x: int, b: seq<int>)
    ensures Matches(x, b) == x * multiset(b)[x]
  {
    if b != [] {
      MatchesCount(x, b[..|b| - 1]);
      assert b == b[..|b| - 1] + [b[|b| - 1]];
    }
  }

  /** The count-map score equals the pairwise definition. */
  lemma {:induction false} SimilarityIsPairSum(a: seq<int>, b: seq<int>)
    ensures Similarity(a, b) == PairSum(a, b)
  {
    if a != [] {
      SimilarityIsPairSum(a[..|a| - 1], b);
      MatchesCount(a[|a| - 1], b);
    }
  }

  /** `part_two`: parse, then the similarity score of the two lists. */
  method PartTwo(lines: seq<string>) returns (r: Result<int>)
    ensures r.Ok? <==> AllParse(lines)
    ensures r.Ok? ==> exists a, b :: (|a| == |lines| == |b| &&
              (forall i :: 0 <= i < |lines| ==> LineIds(lines[i]) == Ok((a[i], b[i]))) &&
              r.value == PairSum(a, b))
  {
    var lists := ParseLists(lines);
    if lists.Err? {
      return Err(lists.error);
    }
    var a, b := lists.value.0, lists.value.1;
    var score := SimilarityScore(a, b);
    SimilarityIsPairSum(a, b);
    r := Ok(score);
  }
}
