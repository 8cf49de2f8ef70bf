/**
 * Day 12 (day-12/day-12.cpp): garden regions.  A region is a 4-connected set
 * of plots growing the same plant; its price is its area (the number of
 * plots) times its perimeter (the number of plot sides not shared with a plot
 * of the same plant).  Part one adds up the prices of all regions.
 */
module Day12 {
  import opened Wrappers
  import opened Vec
  import opened Grids
  import opened LinesGrid

  // ---------------------------------------------------------------------------
  // Regions
  // ---------------------------------------------------------------------------

  /** q is one step from p. */
  predicate Step(p: Vec2, q: Vec2)
  {
    Manhattan(Sub(q, p)) == 1
  }

  /** The plots of the garden. */
  function Cells(lines: seq<string>): set<Vec2>
  {
    set y, x | 0 <= y < |lines| && 0 <= x < |lines[y]| :: Vec2(x, y)
  }

  /** A walk through plots of plant c outside `avoid`, one step at a time. */
  ghost predicate Walk(lines: seq<string>, avoid: set<Vec2>, c: char, path: seq<Vec2>)
  {
    && (forall k :: 0 <= k < |path| ==> Cell(lines, path[k]) == Some(c) && path[k] !in avoid)
    && (forall k :: 0 <= k < |path| - 1 ==> Step(path[k], path[k + 1]))
  }

  /** A walk from p to q through plots of p's plant outside `avoid`. */
  ghost predicate Connected(lines: seq<string>, avoid: set<Vec2>, p: Vec2, q: Vec2)
  {
    Cell(lines, p).Some? &&
    exists path :: |path| > 0 && path[0] == p && path[|path| - 1] == q && Walk(lines, avoid, Cell(lines, p).value, path)
  }

  /** The plots p reaches without entering `avoid`: with `avoid` empty, p's region. */
  ghost function Region(lines: seq<string>, avoid: set<Vec2>, p: Vec2): set<Vec2>
  {
    set q | q in Cells(lines) && Connected(lines, avoid, p, q)
  }

  lemma CellIn(lines: seq<string>, q: Vec2)
    requires Cell(lines, q).Some?
    ensures q in Cells(lines)
  {
  }

  /** A walk extended by one more step through the same plant. */
  lemma WalkExtend(lines: seq<string>, avoid: set<Vec2>, c: char, path: seq<Vec2>, q: Vec2)
    requires Walk(lines, avoid, c, path) && |path| > 0
    requires Cell(lines, q) == Some(c) && q !in avoid && Step(path[|path| - 1], q)
    ensures Walk(lines, avoid, c, path + [q])
  {
  }

  /** A walk's prefix is a walk. */
  lemma WalkPrefix(lines: seq<string>, avoid: set<Vec2>, c: char, path: seq<Vec2>, n: nat)
    requires Walk(lines, avoid, c, path) && n <= |path|
    ensures Walk(lines, avoid, c, path[..n])
  {
  }

  /** A step from a plot of the region to a plot of the same plant outside `avoid` stays in the region. */
  lemma RegionStep(lines: seq<string>, avoid: set<Vec2>, p: Vec2, cur: Vec2, n: Vec2)
    requires cur in Region(lines, avoid, p)
    requires Cell(lines, n) == Cell(lines, p) && n !in avoid && Step(cur, n)
    ensures n in Region(lines, avoid, p)
  {
    var c := Cell(lines, p).value;
    var path :| |path| > 0 && path[0] == p && path[|path| - 1] == cur && Walk(lines, avoid, c, path);
    WalkExtend(lines, avoid, c, path, n);
    assert (path + [n])[0] == p;
    CellIn(lines, n);
  }

  /** The start is in its own region unless it is avoided. */
  lemma RegionStart(lines: seq<string>, avoid: set<Vec2>, p: Vec2)
    requires Cell(lines, p).Some? && p !in avoid
    ensures p in Region(lines, avoid, p)
  {
    assert Walk(lines, avoid, Cell(lines, p).value, [p]);
    CellIn(lines, p);
  }

  /** Every plot of the region grows p's plant and lies outside `avoid`. */
  lemma RegionPlant(lines: seq<string>, avoid: set<Vec2>, p: Vec2, q: Vec2)
    requires q in Region(lines, avoid, p)
    ensures Cell(lines, q) == Cell(lines, p) && q !in avoid
  {
    var path :| |path| > 0 && path[0] == p && path[|path| - 1] == q && Walk(lines, avoid, Cell(lines, p).value, path);
  }

  /** Closed: every step from a plot of `m` to a plot of plant c outside `avoid` stays in `m`. */
  ghost predicate Closed(lines: seq<string>, avoid: set<Vec2>, c: char, m: set<Vec2>)
  {
    forall cur, n :: cur in m && Step(cur, n) && Cell(lines, n) == Some(c) && n !in avoid ==> n in m
  }

  /** A closed set holding p holds p's whole region. */
  lemma RegionWithin(lines: seq<string>, avoid: set<Vec2>, p: Vec2, m: set<Vec2>)
    requires Cell(lines, p).Some? && p in m && Closed(lines, avoid, Cell(lines, p).value, m)
    ensures Region(lines, avoid, p) <= m
  {
    var c := Cell(lines, p).value;
    forall q | q in Region(lines, avoid, p) ensures q in m {
      var path :| |path| > 0 && path[0] == p && path[|path| - 1] == q && Walk(lines, avoid, c, path);
      WalkWithin(lines, avoid, c, m, path, |path| - 1);
    }
  }

  lemma {:induction false} WalkWithin(lines: seq<string>, avoid: set<Vec2>, c: char, m: set<Vec2>, path: seq<Vec2>, k: nat)
    requires |path| > 0 && path[0] in m && Walk(lines, avoid, c, path) && Closed(lines, avoid, c, m) && k < |path|
    ensures path[k] in m
  {
    if k > 0 {
      WalkWithin(lines, avoid, c, m, path, k - 1);
      assert Step(path[k - 1], path[k]);
    }
  }

  /** The region is closed itself. */
  lemma RegionClosed(lines: seq<string>, avoid: set<Vec2>, p: Vec2)
    requires Cell(lines, p).Some?
    ensures Closed(lines, avoid, Cell(lines, p).value, Region(lines, avoid, p))
  {
    forall cur, n | cur in Region(lines, avoid, p) && Step(cur, n) && Cell(lines, n) == Cell(lines, p) && n !in avoid
      ensures n in Region(lines, avoid, p)
    {
      RegionStep(lines, avoid, p, cur, n);
    }
  }

  /** A walk read backwards is a walk: steps are symmetric. */
  lemma WalkReverse(lines: seq<string>, avoid: set<Vec2>, c: char, path: seq<Vec2>) returns (back: seq<Vec2>)
    requires Walk(lines, avoid, c, path)
    ensures |back| == |path| && Walk(lines, avoid, c, back)
    ensures |path| > 0 ==> back[0] == path[|path| - 1] && back[|back| - 1] == path[0]
  {
    back := seq(|path|, k requires 0 <= k < |path| => path[|path| - 1 - k]);
    forall k | 0 <= k < |back| - 1 ensures Step(back[k], back[k + 1]) {
      assert Step(path[|path| - 2 - k], path[|path| - 1 - k]);
    }
  }

  /** Reaching is symmetric. */
  lemma RegionSymmetric(lines: seq<string>, avoid: set<Vec2>, p: Vec2, q: Vec2)
    requires q in Region(lines, avoid, p)
    ensures p in Region(lines, avoid, q)
  {
    var c := Cell(lines, p).value;
    var path :| |path| > 0 && path[0] == p && path[|path| - 1] == q && Walk(lines, avoid, c, path);
    var back := WalkReverse(lines, avoid, c, path);
    assert Cell(lines, q) == Some(c);
    CellIn(lines, p);
  }

  /** Plots of one region share it: the regions partition the plots they cover. */
  lemma RegionSame(lines: seq<string>, avoid: set<Vec2>, p: Vec2, q: Vec2)
    requires q in Region(lines, avoid, p)
    ensures Region(lines, avoid, q) == Region(lines, avoid, p)
  {
    RegionPlant(lines, avoid, p, q);
    RegionSymmetric(lines, avoid, p, q);
    RegionClosed(lines, avoid, p);
    RegionWithin(lines, avoid, q, Region(lines, avoid, p));
    RegionClosed(lines, avoid, q);
    RegionWithin(lines, avoid, p, Region(lines, avoid, q));
  }

  /** Nothing is reached from an avoided start. */
  lemma RegionAvoided(lines: seq<string>, avoid: set<Vec2>, p: Vec2)
    requires p in avoid
    ensures Region(lines, avoid, p) == {}
  {
  }

  /** Avoiding plots outside p's region changes nothing about what p reaches. */
  lemma RegionAvoid(lines: seq<string>, avoid: set<Vec2>, p: Vec2)
    requires Region(lines, {}, p) * avoid == {}
    ensures Region(lines, avoid, p) == Region(lines, {}, p)
  {
    forall q | q in Region(lines, avoid, p) ensures q in Region(lines, {}, p) {
      var path :| |path| > 0 && path[0] == p && path[|path| - 1] == q && Walk(lines, avoid, Cell(lines, p).value, path);
      assert Walk(lines, {}, Cell(lines, p).value, path);
    }
    if Cell(lines, p).Some? {
      var c := Cell(lines, p).value;
      RegionStart(lines, {}, p);
      RegionStart(lines, avoid, p);
      forall cur, n | cur in Region(lines, avoid, p) && Step(cur, n) && Cell(lines, n) == Some(c) && n !in {}
        ensures n in Region(lines, avoid, p)
      {
        RegionStep(lines, {}, p, cur, n);
        RegionStep(lines, avoid, p, cur, n);
      }
      RegionWithin(lines, {}, p, Region(lines, avoid, p));
    }
  }

  // ---------------------------------------------------------------------------
  // Fences and prices
  // ---------------------------------------------------------------------------

  /** How many of the steps ds from p lead to a plot of plant c (`num_adjacent`). */
  function SameAround(lines: seq<string>, c: char, p: Vec2, ds: seq<Vec2>): (r: nat)
    ensures r <= |ds|
  {
    if ds == [] then 0
    else SameAround(lines, c, p, ds[..|ds| - 1]) + if Cell(lines, Add(p, ds[|ds| - 1])) == Some(c) then 1 else 0
  }

  /** The sides of x, among the steps ds, that face something other than x's own plant. */
  function SidesAt(lines: seq<string>, x: Vec2, ds: seq<Vec2>): set<(Vec2, Vec2)>
  {
    set d | d in ds && Cell(lines, Add(x, d)) != Cell(lines, x) :: (x, d)
  }

  /** The fenced sides of the plots of r, as the flood fill counts them: facing another plant or the edge. */
  function Sides(lines: seq<string>, r: set<Vec2>): set<(Vec2, Vec2)>
  {
    set q, d | q in r && d in AllDirsVec2(false) && Cell(lines, Add(q, d)) != Cell(lines, q) :: (q, d)
  }

  /** The perimeter of a set of plots: its plots' sides that do not face a plot of the set. */
  function Perimeter(r: set<Vec2>): nat
  {
    |set q, d | q in r && d in AllDirsVec2(false) && Add(q, d) !in r :: (q, d)|
  }

  /** The price of fencing a region. */
  function Price(r: set<Vec2>): int
  {
    |r| * Perimeter(r)
  }

  predicate Distinct(ds: seq<Vec2>)
  {
    forall i, j :: 0 <= i < j < |ds| ==> ds[i] != ds[j]
  }

  /** `4 - num_adjacent` counts the fenced sides of a plot: each distinct step is a side. */
  lemma {:induction false} SidesCount(lines: seq<string>, c: char, x: Vec2, ds: seq<Vec2>)
    requires Cell(lines, x) == Some(c) && Distinct(ds)
    ensures |SidesAt(lines, x, ds)| == |ds| - SameAround(lines, c, x, ds)
  {
    if ds != [] {
      var init, last := ds[..|ds| - 1], ds[|ds| - 1];
      SidesCount(lines, c, x, init);
      assert last !in init;
      assert ds == init + [last];
      if Cell(lines, Add(x, last)) == Some(c) {
        assert SidesAt(lines, x, ds) == SidesAt(lines, x, init);
      } else {
        assert SidesAt(lines, x, ds) == SidesAt(lines, x, init) + {(x, last)};
      }
    }
  }

  /** A plot of plant c has between 0 and 4 fences (the assertion of `region_price`), one per fenced side. */
  lemma FencesAreSides(lines: seq<string>, c: char, x: Vec2)
    requires Cell(lines, x) == Some(c)
    ensures 0 <= 4 - SameAround(lines, c, x, AllDirsVec2(false)) <= 4
    ensures 4 - SameAround(lines, c, x, AllDirsVec2(false)) == |SidesAt(lines, x, AllDirsVec2(false))|
  {
    AllDirsDistinct(false);
    SidesCount(lines, c, x, AllDirsVec2(false));
  }

  /** Adding a plot adds its own fenced sides. */
  lemma SidesSplit(lines: seq<string>, r: set<Vec2>, x: Vec2)
    ensures Sides(lines, r + {x}) == Sides(lines, r) + SidesAt(lines, x, AllDirsVec2(false))
  {
  }

  /** In a whole region a side is fenced exactly when it leaves the region: fences measure the perimeter. */
  lemma RegionPerimeter(lines: seq<string>, p: Vec2)
    ensures |Sides(lines, Region(lines, {}, p))| == Perimeter(Region(lines, {}, p))
  {
    var r := Region(lines, {}, p);
    forall q, d | q in r && d in AllDirsVec2(false)
      ensures Cell(lines, Add(q, d)) != Cell(lines, q) <==> Add(q, d) !in r
    {
      RegionPlant(lines, {}, p, q);
      AllDirsComplete(d, false);
      assert Step(q, Add(q, d));
      if Cell(lines, Add(q, d)) == Cell(lines, q) {
        RegionStep(lines, {}, p, q, Add(q, d));
      }
      if Add(q, d) in r {
        RegionPlant(lines, {}, p, Add(q, d));
      }
    }
    assert Sides(lines, r) == set q, d | q in r && d in AllDirsVec2(false) && Add(q, d) !in r :: (q, d);
  }

  // ---------------------------------------------------------------------------
  // The flood fill of `region_price`
  // ---------------------------------------------------------------------------

  /** A plot with the number of its fenced sides. */
  datatype Plot = Plot(pos: Vec2, numFences: int)

  /** The `visited` grid flags exactly the plots of v with 1, the others with 0. */
  ghost predicate Marked(visited: Grid<int>, v: set<Vec2>)
    reads visited
  {
    visited.Valid() && forall x, y :: visited.PosOnGrid(x, y) ==> visited.TryGet(x, y) == Some(if Vec2(x, y) in v then 1 else 0)
  }

  /** `visited` has the garden's size. */
  predicate SameSize(visited: Grid<int>, garden: Grid<char>)
    reads visited, garden
  {
    visited.width == garden.width && visited.height == garden.height
  }

  /** `visited.at(cur_pos) = 1`. */
  method MarkVisited(visited: Grid<int>, ghost v: set<Vec2>, p: Vec2, ghost v': set<Vec2>)
    requires Marked(visited, v) && visited.PosOnGrid(p.x, p.y) && v' == v + {p}
    modifies visited`data
    ensures Marked(visited, v')
  {
    var _ := visited.Set(p.x, p.y, 1);
  }

  /** The distinct plots `plots` records for the marked set m, each with its fence count. */
  ghost predicate PlotsOf(lines: seq<string>, c: char, plots: seq<Plot>, m: set<Vec2>)
  {
    && (forall i, j :: 0 <= i < j < |plots| ==> plots[i].pos != plots[j].pos)
    && (set k | 0 <= k < |plots| :: plots[k].pos) == m
    && forall k :: 0 <= k < |plots| ==>
         Cell(lines, plots[k].pos) == Some(c) && plots[k].numFences == 4 - SameAround(lines, c, plots[k].pos, AllDirsVec2(false))
  }

  /** Every plot on the stack is pos itself or a plot of its region. */
  predicate StackIn(pos: Vec2, region: set<Vec2>, stack: seq<Vec2>)
  {
    forall k :: 0 <= k < |stack| ==> stack[k] == pos || stack[k] in region
  }

  /** Every step out of m to an unvisited plot of plant c leads into m or onto the stack. */
  ghost predicate Pending(lines: seq<string>, v0: set<Vec2>, c: char, stack: seq<Vec2>, m: set<Vec2>)
  {
    forall cur, n :: cur in m && Step(cur, n) && Cell(lines, n) == Some(c) && n !in v0 ==> n in m || n in stack
  }

  /**
   * The fill from pos is on course: what it marked lies in pos's region (avoiding v0), and the stack
   * holds every step out of it.
   */
  ghost predicate Flood(lines: seq<string>, v0: set<Vec2>, pos: Vec2, c: char, region: set<Vec2>,
                        stack: seq<Vec2>, m: set<Vec2>, plots: seq<Plot>)
  {
    && Cell(lines, pos) == Some(c)
    && m <= region
    && StackIn(pos, region, stack)
    && Pending(lines, v0, c, stack, m)
    && (pos in m || pos in stack || pos in v0)
    && PlotsOf(lines, c, plots, m)
  }

  /**
   * After looking at the steps ds from cur: numAdjacent counts those leading to plant c, and the
   * stack grew by exactly the unmarked ones among them.
   */
  ghost predicate Scanned(lines: seq<string>, marked: set<Vec2>, c: char, cur: Vec2, ds: seq<Vec2>,
                          stack0: seq<Vec2>, numAdjacent: int, stack: seq<Vec2>)
  {
    && numAdjacent == SameAround(lines, c, cur, ds)
    && |stack| >= |stack0| && stack[..|stack0|] == stack0
    && (forall n :: n in stack[|stack0|..] ==> Step(cur, n) && Cell(lines, n) == Some(c) && n !in marked)
    && (forall d :: d in ds && Cell(lines, Add(cur, d)) == Some(c) && Add(cur, d) !in marked ==> Add(cur, d) in stack)
  }

  /** One more direction looked at keeps the scan on course. */
  lemma ScannedStep(lines: seq<string>, marked: set<Vec2>, c: char, cur: Vec2, ds: seq<Vec2>, d: Vec2,
                    stack0: seq<Vec2>, numAdjacent0: int, stack1: seq<Vec2>, numAdjacent: int, stack: seq<Vec2>)
    requires Scanned(lines, marked, c, cur, ds, stack0, numAdjacent0, stack1) && Manhattan(d) == 1
    requires Cell(lines, Add(cur, d)) == Some(c) ==> numAdjacent == numAdjacent0 + 1
    requires Cell(lines, Add(cur, d)) != Some(c) ==> numAdjacent == numAdjacent0
    requires stack == if Cell(lines, Add(cur, d)) == Some(c) && Add(cur, d) !in marked then stack1 + [Add(cur, d)] else stack1
    ensures Scanned(lines, marked, c, cur, ds + [d], stack0, numAdjacent, stack)
  {
    assert (ds + [d])[..|ds|] == ds;
    assert stack[..|stack1|] == stack1;
    assert stack[..|stack0|] == stack0;
    assert Step(cur, Add(cur, d));
    if stack != stack1 {
      assert stack[|stack0|..] == stack1[|stack0|..] + [Add(cur, d)];
    }
  }

  /** The neighbours loop of `region_price`: counts the same-plant neighbours of cur, pushing the unvisited ones. */
  method Neighbours(garden: Grid<char>, ghost lines: seq<string>, visited: Grid<int>, ghost marked: set<Vec2>,
                    c: char, cur: Vec2, stack0: seq<Vec2>)
    returns (numAdjacent: int, stack: seq<Vec2>)
    requires Holds(garden, lines) && SameSize(visited, garden) && Marked(visited, marked)
    ensures Scanned(lines, marked, c, cur, AllDirsVec2(false), stack0, numAdjacent, stack)
  {
    var dirs := AllDirsVec2(false);
    numAdjacent, stack := 0, stack0;
    for j := 0 to |dirs|
      invariant Scanned(lines, marked, c, cur, dirs[..j], stack0, numAdjacent, stack)
    {
      ghost var numAdjacent1, stack1 := numAdjacent, stack;
      numAdjacent, stack := Neighbour(garden, lines, visited, marked, c, cur, dirs[j], numAdjacent, stack);
      AllDirsComplete(dirs[j], false);
      ScannedStep(lines, marked, c, cur, dirs[..j], dirs[j], stack0, numAdjacent1, stack1, numAdjacent, stack);
      assert dirs[..j] + [dirs[j]] == dirs[..j + 1];
    }
    assert dirs[..|dirs|] == dirs;
  }

  /** One pass of the neighbours loop: the plot one step d from cur. */
  method Neighbour(garden: Grid<char>, ghost lines: seq<string>, visited: Grid<int>, ghost marked: set<Vec2>,
                   c: char, cur: Vec2, d: Vec2, numAdjacent0: int, stack0: seq<Vec2>)
    returns (numAdjacent: int, stack: seq<Vec2>)
    requires Holds(garden, lines) && SameSize(visited, garden) && Marked(visited, marked)
    ensures Cell(lines, Add(cur, d)) == Some(c) ==> numAdjacent == numAdjacent0 + 1
    ensures Cell(lines, Add(cur, d)) != Some(c) ==> numAdjacent == numAdjacent0
    ensures stack == if Cell(lines, Add(cur, d)) == Some(c) && Add(cur, d) !in marked then stack0 + [Add(cur, d)] else stack0
  {
    numAdjacent, stack := numAdjacent0, stack0;
    var adjPos := Add(cur, d);
    ReadCell(garden, lines, adjPos);
    var adjSym := garden.TryGetAt(adjPos);
    if adjSym.Some? && adjSym.value == c {
      numAdjacent := numAdjacent + 1;
      var flag := visited.GetAt(adjPos).value;
      if flag == 0 {
        stack := stack + [adjPos];
      }
    }
  }

  /** Popping an already visited plot keeps the fill on course. */
  lemma FloodSkip(lines: seq<string>, v0: set<Vec2>, pos: Vec2, c: char, region: set<Vec2>,
                  s0: seq<Vec2>, rest: seq<Vec2>, cur: Vec2, m: set<Vec2>, plots: seq<Plot>)
    requires s0 == rest + [cur] && Flood(lines, v0, pos, c, region, s0, m, plots) && cur in v0 + m
    ensures Flood(lines, v0, pos, c, region, rest, m, plots)
  {
    forall k | 0 <= k < |rest| ensures rest[k] == pos || rest[k] in region {
      assert (rest + [cur])[k] == rest[k];
    }
    forall n | n in rest + [cur] && n != cur ensures n in rest {
    }
  }

  /** The plots pushed after marking cur are steps from cur into the region. */
  lemma StackStep(lines: seq<string>, v0: set<Vec2>, pos: Vec2, region: set<Vec2>, cur: Vec2, rest: seq<Vec2>, pushed: seq<Vec2>)
    requires region == Region(lines, v0, pos)
    requires StackIn(pos, region, rest + [cur]) && cur !in v0 && Cell(lines, pos).Some?
    requires forall n :: n in pushed ==> Step(cur, n) && Cell(lines, n) == Cell(lines, pos) && n !in v0
    ensures cur in region && StackIn(pos, region, rest + pushed)
  {
    assert (rest + [cur])[|rest|] == cur;
    if cur == pos {
      RegionStart(lines, v0, pos);
    }
    forall k | 0 <= k < |rest + pushed| ensures (rest + pushed)[k] == pos || (rest + pushed)[k] in region {
      if k < |rest| {
        assert (rest + pushed)[k] == (rest + [cur])[k];
      } else {
        assert (rest + pushed)[k] in pushed;
        RegionStep(lines, v0, pos, cur, (rest + pushed)[k]);
      }
    }
  }

  /** Marking cur after pushing its unvisited same-plant neighbours leaves no step out of the marked plots behind. */
  lemma PendingStep(lines: seq<string>, v0: set<Vec2>, c: char, rest: seq<Vec2>, cur: Vec2, m: set<Vec2>, pushed: seq<Vec2>)
    requires Pending(lines, v0, c, rest + [cur], m)
    requires forall d :: d in AllDirsVec2(false) && Cell(lines, Add(cur, d)) == Some(c) && Add(cur, d) !in v0 + (m + {cur}) ==>
               Add(cur, d) in rest + pushed
    ensures Pending(lines, v0, c, rest + pushed, m + {cur})
  {
    forall q, n | q in m + {cur} && Step(q, n) && Cell(lines, n) == Some(c) && n !in v0
      ensures n in m + {cur} || n in rest + pushed
    {
      if q == cur {
        var d := Sub(n, cur);
        AllDirsComplete(d, false);
        assert Add(cur, d) == n;
      } else {
        assert n in m || n in rest + [cur];
      }
    }
  }

  /** Recording a new plot with its fence count keeps the plots in step with the marked set. */
  lemma PlotsStep(lines: seq<string>, c: char, plots: seq<Plot>, m: set<Vec2>, cur: Vec2, plots1: seq<Plot>)
    requires PlotsOf(lines, c, plots, m) && cur !in m && Cell(lines, cur) == Some(c)
    requires plots1 == plots + [Plot(cur, 4 - SameAround(lines, c, cur, AllDirsVec2(false)))]
    ensures PlotsOf(lines, c, plots1, m + {cur})
  {
    var before, after := (set k | 0 <= k < |plots| :: plots[k].pos), (set k | 0 <= k < |plots1| :: plots1[k].pos);
    forall x | x in after ensures x in before + {cur} {
      var k :| 0 <= k < |plots1| && plots1[k].pos == x;
      if k < |plots| {
        assert plots[k] == plots1[k];
      }
    }
    forall x | x in before + {cur} ensures x in after {
      if x == cur {
        assert plots1[|plots|].pos == cur;
      } else {
        var k :| 0 <= k < |plots| && plots[k].pos == x;
        assert plots1[k].pos == x;
      }
    }
  }

  /** Marking a popped plot, pushing its unvisited same-plant neighbours and recording it keeps the fill on course. */
  lemma FloodStep(lines: seq<string>, v0: set<Vec2>, pos: Vec2, c: char, region: set<Vec2>,
                  s0: seq<Vec2>, rest: seq<Vec2>, cur: Vec2, m: set<Vec2>, plots: seq<Plot>, stack: seq<Vec2>, plots': seq<Plot>)
    requires s0 == rest + [cur] && region == Region(lines, v0, pos) && Flood(lines, v0, pos, c, region, s0, m, plots)
    requires cur !in v0 + m && Cell(lines, cur) == Some(c)
    requires Scanned(lines, v0 + (m + {cur}), c, cur, AllDirsVec2(false), rest, SameAround(lines, c, cur, AllDirsVec2(false)), stack)
    requires plots' == plots + [Plot(cur, 4 - SameAround(lines, c, cur, AllDirsVec2(false)))]
    ensures cur in region
    ensures Flood(lines, v0, pos, c, region, stack, m + {cur}, plots')
  {
    var pushed := stack[|rest|..];
    assert stack == rest + pushed;
    StackStep(lines, v0, pos, region, cur, rest, pushed);
    PendingStep(lines, v0, c, rest, cur, m, pushed);
    PlotsStep(lines, c, plots, m, cur, plots');
    assert pos in m + {cur} || pos in rest + pushed || pos in v0 by {
      if pos !in m + {cur} && pos !in v0 {
        assert pos in rest + [cur];
      }
    }
  }

  /** Marking one more plot of the garden leaves fewer plots unmarked. */
  lemma Shrinks(cells: set<Vec2>, m: set<Vec2>, cur: Vec2)
    requires cur in cells && cur !in m
    ensures |cells - (m + {cur})| < |cells - m|
  {
    assert cells - (m + {cur}) == (cells - m) - {cur};
  }

  /** The top of the stack grows pos's plant. */
  lemma TopPlant(lines: seq<string>, v0: set<Vec2>, pos: Vec2, region: set<Vec2>, s0: seq<Vec2>, rest: seq<Vec2>, cur: Vec2)
    requires s0 == rest + [cur] && region == Region(lines, v0, pos) && StackIn(pos, region, s0) && Cell(lines, pos).Some?
    ensures Cell(lines, cur) == Cell(lines, pos) && cur in Cells(lines)
  {
    assert (rest + [cur])[|rest|] == cur;
    if cur != pos {
      RegionPlant(lines, v0, pos, cur);
    }
    CellIn(lines, cur);
  }

  /** The sum of the fence counts of the plots (the perimeter loop of `region_price`). */
  function SumFences(plots: seq<Plot>): int
  {
    if plots == [] then 0 else SumFences(plots[..|plots| - 1]) + plots[|plots| - 1].numFences
  }

  /** Dropping the last plot drops its position from the marked set. */
  lemma PlotsInit(lines: seq<string>, c: char, plots: seq<Plot>, m: set<Vec2>)
    requires PlotsOf(lines, c, plots, m) && plots != []
    ensures var last := plots[|plots| - 1];
      last.pos in m && PlotsOf(lines, c, plots[..|plots| - 1], m - {last.pos})
  {
    var init, last := plots[..|plots| - 1], plots[|plots| - 1];
    var m' := m - {last.pos};
    forall x | x in m' ensures exists k :: 0 <= k < |init| && init[k].pos == x {
      var k :| 0 <= k < |plots| && plots[k].pos == x;
      assert init[k] == plots[k];
    }
    assert (set k | 0 <= k < |init| :: init[k].pos) == m';
  }

  /** A plot outside r adds its own fenced sides to those of r. */
  lemma SidesAdd(lines: seq<string>, r: set<Vec2>, x: Vec2)
    requires x !in r
    ensures |Sides(lines, r + {x})| == |Sides(lines, r)| + |SidesAt(lines, x, AllDirsVec2(false))|
  {
    SidesSplit(lines, r, x);
    assert Sides(lines, r) * SidesAt(lines, x, AllDirsVec2(false)) == {};
  }

  /** The plots recorded for m number |m|, and their fence counts add up to the fenced sides of m. */
  lemma {:induction false} PlotsTally(lines: seq<string>, c: char, plots: seq<Plot>, m: set<Vec2>)
    requires PlotsOf(lines, c, plots, m)
    ensures |plots| == |m| && SumFences(plots) == |Sides(lines, m)|
  {
    if plots == [] {
      assert m == {};
    } else {
      var init, last := plots[..|plots| - 1], plots[|plots| - 1];
      PlotsInit(lines, c, plots, m);
      PlotsTally(lines, c, init, m - {last.pos});
      assert m == (m - {last.pos}) + {last.pos};
      SidesAdd(lines, m - {last.pos}, last.pos);
      FencesAreSides(lines, c, last.pos);
    }
  }

  /** The area and perimeter loop of `region_price`. */
  method Tally(plots: seq<Plot>) returns (area: int, perimeter: int)
    ensures area == |plots| && perimeter == SumFences(plots)
  {
    area, perimeter := 0, 0;
    for k := 0 to |plots|
      invariant area == k && perimeter == SumFences(plots[..k])
    {
      assert plots[..k + 1][..k] == plots[..k];
      area := area + 1;
      perimeter := perimeter + plots[k].numFences;
    }
    assert plots[..|plots|] == plots;
  }

  /**
   * `region_price`: out_of_range off the garden; otherwise it flags the plots pos reaches through its
   * own plant without entering the already visited plots v0, and prices them: their number times
   * their fenced sides.
   */
  method RegionPrice(garden: Grid<char>, ghost lines: seq<string>, visited: Grid<int>, ghost v0: set<Vec2>, pos: Vec2)
    returns (r: Result<int>)
    requires Holds(garden, lines) && SameSize(visited, garden) && Marked(visited, v0)
    modifies visited`data
    ensures r.Err? <==> Cell(lines, pos).None?
    ensures r.Err? ==> r.error == OutOfRange && Marked(visited, v0)
    ensures r.Ok? ==> Marked(visited, v0 + Region(lines, v0, pos))
    ensures r.Ok? ==> r.value == |Region(lines, v0, pos)| * |Sides(lines, Region(lines, v0, pos))|
  {
    ReadCell(garden, lines, pos);
    var sym := garden.GetAt(pos);
    if sym.Err? {
      return Err(sym.error);
    }
    var plantSym := sym.value;
    var plots := FloodFill(garden, lines, visited, v0, pos, plantSym);
    var area, perimeter := Tally(plots);
    PlotsTally(lines, plantSym, plots, Region(lines, v0, pos));
    r := Ok(area * perimeter);
  }

  /** The fill loop of `region_price`: flags pos's region (avoiding v0) and records each of its plots once. */
  method FloodFill(garden: Grid<char>, ghost lines: seq<string>, visited: Grid<int>, ghost v0: set<Vec2>, pos: Vec2, plantSym: char)
    returns (plots: seq<Plot>)
    requires Holds(garden, lines) && SameSize(visited, garden) && Marked(visited, v0) && Cell(lines, pos) == Some(plantSym)
    modifies visited`data
    ensures Marked(visited, v0 + Region(lines, v0, pos)) && PlotsOf(lines, plantSym, plots, Region(lines, v0, pos))
  {
    ghost var region := Region(lines, v0, pos);
    plots := [];
    var s := [pos];
    ghost var m: set<Vec2> := {};
    FloodStart(lines, v0, pos, plantSym, region);
    assert v0 + m == v0;
    while s != []
      invariant Filling(garden, lines, visited, v0, pos, plantSym, region, s, m, plots)
      decreases |Cells(lines) - m|, |s|
    {
      s, m, plots := Visit(garden, lines, visited, v0, pos, plantSym, region, s, m, plots);
    }
    FloodDone(lines, v0, pos, plantSym, region, m, plots);
  }

  /** The fill starts on course with pos on the stack and nothing marked. */
  lemma FloodStart(lines: seq<string>, v0: set<Vec2>, pos: Vec2, c: char, region: set<Vec2>)
    requires Cell(lines, pos) == Some(c)
    ensures Flood(lines, v0, pos, c, region, [pos], {}, [])
  {
    var none: seq<Plot> := [];
    assert (set k | 0 <= k < |none| :: none[k].pos) == {};
  }

  /** Once the stack is empty, the marked plots are the whole region. */
  lemma FloodDone(lines: seq<string>, v0: set<Vec2>, pos: Vec2, c: char, region: set<Vec2>, m: set<Vec2>, plots: seq<Plot>)
    requires region == Region(lines, v0, pos) && Flood(lines, v0, pos, c, region, [], m, plots)
    ensures m == region && PlotsOf(lines, c, plots, region)
  {
    if pos in v0 {
      RegionAvoided(lines, v0, pos);
    } else {
      RegionWithin(lines, v0, pos, m);
    }
  }

  /** The state of the fill loop: the grids and the fill's bookkeeping are in step. */
  ghost predicate Filling(garden: Grid<char>, lines: seq<string>, visited: Grid<int>, v0: set<Vec2>, pos: Vec2, plantSym: char,
                          region: set<Vec2>, s: seq<Vec2>, m: set<Vec2>, plots: seq<Plot>)
    reads garden, visited
  {
    && Holds(garden, lines) && SameSize(visited, garden) && Marked(visited, v0 + m)
    && region == Region(lines, v0, pos) && Flood(lines, v0, pos, plantSym, region, s, m, plots)
  }

  /** One pass of the fill loop: pop a plot and, unless it is visited already, mark, scan and record it. */
  method Visit(garden: Grid<char>, ghost lines: seq<string>, visited: Grid<int>, ghost v0: set<Vec2>, pos: Vec2,
               plantSym: char, ghost region: set<Vec2>, s0: seq<Vec2>, ghost m0: set<Vec2>, plots0: seq<Plot>)
    returns (s: seq<Vec2>, ghost m: set<Vec2>, plots: seq<Plot>)
    requires Filling(garden, lines, visited, v0, pos, plantSym, region, s0, m0, plots0) && s0 != []
    modifies visited`data
    ensures Filling(garden, lines, visited, v0, pos, plantSym, region, s, m, plots)
    ensures |Cells(lines) - m| < |Cells(lines) - m0| || (m == m0 && |s| < |s0|)
  {
    var cur, rest := s0[|s0| - 1], s0[..|s0| - 1];
    assert s0 == rest + [cur];
    TopPlant(lines, v0, pos, region, s0, rest, cur);
    ReadCell(garden, lines, cur);
    var flag := visited.GetAt(cur).value;
    if flag != 0 {
      FloodSkip(lines, v0, pos, plantSym, region, s0, rest, cur, m0, plots0);
      s, m, plots := rest, m0, plots0;
    } else {
      m := m0 + {cur};
      s, plots := Fill(garden, lines, visited, v0 + m0, v0 + m, plantSym, cur, rest, plots0);
      FloodStep(lines, v0, pos, plantSym, region, s0, rest, cur, m0, plots0, s, plots);
      Shrinks(Cells(lines), m0, cur);
    }
  }

  /**
   * The unvisited branch of the fill loop: mark cur, record it as a plot, push its unvisited
   * same-plant neighbours and set the plot's fences to 4 less the same-plant neighbours.
   */
  method Fill(garden: Grid<char>, ghost lines: seq<string>, visited: Grid<int>, ghost marked: set<Vec2>, ghost marked': set<Vec2>,
              plantSym: char, cur: Vec2, rest: seq<Vec2>, plots0: seq<Plot>)
    returns (s: seq<Vec2>, plots: seq<Plot>)
    requires Holds(garden, lines) && SameSize(visited, garden) && Marked(visited, marked) && Cell(lines, cur).Some?
    requires marked' == marked + {cur}
    modifies visited`data
    ensures Marked(visited, marked')
    ensures plots == plots0 + [Plot(cur, 4 - SameAround(lines, plantSym, cur, AllDirsVec2(false)))]
    ensures Scanned(lines, marked', plantSym, cur, AllDirsVec2(false), rest, SameAround(lines, plantSym, cur, AllDirsVec2(false)), s)
  {
    ReadCell(garden, lines, cur);
    MarkVisited(visited, marked, cur, marked');
    plots := plots0 + [Plot(cur, 4)];
    var numAdjacent;
    numAdjacent, s := Neighbours(garden, lines, visited, marked', plantSym, cur, rest);
    plots := plots[|plots| - 1 := Plot(cur, 4 - numAdjacent)];
  }

  // ---------------------------------------------------------------------------
  // The total price (`part_one`)
  // ---------------------------------------------------------------------------

  /** The regions of the garden. */
  ghost function Regions(lines: seq<string>): set<set<Vec2>>
  {
    set q | q in Cells(lines) :: Region(lines, {}, q)
  }

  ghost function PickRegion(rs: set<set<Vec2>>): (r: set<Vec2>)
    requires rs != {}
    ensures r in rs
  {
    var r :| r in rs; r
  }

  /** The sum of the prices of a set of regions. */
  ghost function PriceSum(rs: set<set<Vec2>>): int
    decreases |rs|
  {
    if rs == {} then 0 else var r := PickRegion(rs); Price(r) + PriceSum(rs - {r})
  }

  /** The sum does not depend on the order the regions are taken in. */
  lemma {:induction false} PriceSumRemove(rs: set<set<Vec2>>, r: set<Vec2>)
    requires r in rs
    ensures PriceSum(rs) == Price(r) + PriceSum(rs - {r})
    decreases |rs|
  {
    var first := PickRegion(rs);
    if first != r {
      PriceSumRemove(rs - {first}, r);
      PriceSumRemove(rs - {r}, first);
      assert rs - {first} - {r} == rs - {r} - {first};
    }
  }

  /** The answer of part one: the sum, over all regions, of area times perimeter. */
  ghost function Total(lines: seq<string>): int
  {
    PriceSum(Regions(lines))
  }

  /** `part_one`'s result: invalid_argument for ragged lines, else the total price. */
  ghost function Answer(lines: seq<string>): Result<int>
  {
    if Rect(lines) then Ok(Total(lines)) else Err(InvalidArgument)
  }

  /** The plot at row-major index k of a garden w wide. */
  function FlatPos(w: int, k: int): Vec2
    requires w > 0
  {
    Vec2(k % w, k / w)
  }

  /** The regions of the plots before row-major index i: those `part_one` has priced. */
  ghost function Below(lines: seq<string>, w: int, i: int): set<set<Vec2>>
    requires i > 0 ==> w > 0
  {
    set k | 0 <= k < i :: Region(lines, {}, FlatPos(w, k))
  }

  /** The plots of the regions of rs: those flagged in `visited`. */
  ghost function Covered(lines: seq<string>, rs: set<set<Vec2>>): set<Vec2>
  {
    set q | q in Cells(lines) && exists r :: r in rs && q in r
  }

  /** The sweep reaches index i + 1 by adding the region of plot i. */
  lemma BelowNext(lines: seq<string>, w: int, i: nat)
    requires w > 0
    ensures Below(lines, w, i + 1) == Below(lines, w, i) + {Region(lines, {}, FlatPos(w, i))}
  {
  }

  /** A plot that is already flagged belongs to a region already priced. */
  lemma SweepSkip(lines: seq<string>, rs: set<set<Vec2>>, p: Vec2)
    requires forall r :: r in rs ==> exists q :: r == Region(lines, {}, q)
    requires p in Covered(lines, rs)
    ensures Region(lines, {}, p) in rs
  {
    var r :| r in rs && p in r;
    var q :| r == Region(lines, {}, q);
    RegionSame(lines, {}, q, p);
  }

  /** An unflagged plot starts a new region, disjoint from the flagged plots. */
  lemma SweepAdd(lines: seq<string>, rs: set<set<Vec2>>, p: Vec2)
    requires forall r :: r in rs ==> exists q :: r == Region(lines, {}, q)
    requires Cell(lines, p).Some? && p !in Covered(lines, rs)
    ensures Region(lines, {}, p) !in rs
    ensures Region(lines, Covered(lines, rs), p) == Region(lines, {}, p)
    ensures Covered(lines, rs + {Region(lines, {}, p)}) == Covered(lines, rs) + Region(lines, {}, p)
  {
    var region := Region(lines, {}, p);
    RegionStart(lines, {}, p);
    CellIn(lines, p);
    forall q | q in region * Covered(lines, rs) ensures false {
      var r :| r in rs && q in r;
      var q' :| r == Region(lines, {}, q');
      RegionSame(lines, {}, q', q);
      RegionSame(lines, {}, p, q);
    }
    RegionAvoid(lines, Covered(lines, rs), p);
  }

  /** The plots of a w-by-h garden are the row-major positions below w * h. */
  lemma CellsFlat(garden: Grid<char>, lines: seq<string>, q: Vec2)
    requires Holds(garden, lines)
    ensures q in Cells(lines) <==> garden.width > 0 && exists k :: 0 <= k < garden.width * garden.height && FlatPos(garden.width, k) == q
  {
    var w, h := garden.width, garden.height;
    ReadCell(garden, lines, q);
    if q in Cells(lines) {
      RowMajor(w, h, q.x, q.y);
      assert FlatPos(w, q.x + q.y * w) == q;
    }
    if w > 0 && exists k :: 0 <= k < w * h && FlatPos(w, k) == q {
      var k :| 0 <= k < w * h && FlatPos(w, k) == q;
      IndexSplits(w, h, k);
      CellIn(lines, q);
    }
  }

  /** The regions below index w * h are all the regions of a w-by-h garden. */
  lemma BelowAll(garden: Grid<char>, lines: seq<string>)
    requires Holds(garden, lines)
    requires garden.width * garden.height > 0 ==> garden.width > 0
    ensures Below(lines, garden.width, garden.width * garden.height) == Regions(lines)
  {
    var w, h := garden.width, garden.height;
    forall r | r in Below(lines, w, w * h) ensures r in Regions(lines) {
      var k :| 0 <= k < w * h && r == Region(lines, {}, FlatPos(w, k));
      CellsFlat(garden, lines, FlatPos(w, k));
    }
    forall r | r in Regions(lines) ensures r in Below(lines, w, w * h) {
      var q :| q in Cells(lines) && r == Region(lines, {}, q);
      CellsFlat(garden, lines, q);
    }
  }

  /** The sweep of `part_one` has priced the regions rs of the plots before i and flagged their plots. */
  ghost predicate Swept(garden: Grid<char>, lines: seq<string>, visited: Grid<int>, i: int, rs: set<set<Vec2>>, result: int)
    reads garden, visited
  {
    && Holds(garden, lines) && SameSize(visited, garden) && 0 <= i <= garden.width * garden.height
    && (i > 0 ==> garden.width > 0)
    && rs == Below(lines, garden.width, i)
    && Marked(visited, Covered(lines, rs))
    && result == PriceSum(rs)
  }

  /** Every region of the sweep is the region of some plot. */
  lemma BelowRegions(lines: seq<string>, w: int, i: int)
    requires i > 0 ==> w > 0
    ensures forall r :: r in Below(lines, w, i) ==> exists q :: r == Region(lines, {}, q)
  {
    forall r | r in Below(lines, w, i) ensures exists q :: r == Region(lines, {}, q) {
      var k :| 0 <= k < i && r == Region(lines, {}, FlatPos(w, k));
    }
  }

  /** Adding a region not yet counted adds its price. */
  lemma PriceSumAdd(rs: set<set<Vec2>>, r: set<Vec2>)
    requires r !in rs
    ensures PriceSum(rs + {r}) == PriceSum(rs) + Price(r)
  {
    PriceSumRemove(rs + {r}, r);
    assert rs + {r} - {r} == rs;
  }

  /** What `region_price` returns for a plot whose region avoids the flagged plots is the region's price. */
  lemma PriceOf(lines: seq<string>, v: set<Vec2>, pos: Vec2)
    requires Region(lines, v, pos) == Region(lines, {}, pos)
    ensures |Region(lines, v, pos)| * |Sides(lines, Region(lines, v, pos))| == Price(Region(lines, {}, pos))
  {
    RegionPerimeter(lines, pos);
  }

  lemma MarkedSame(visited: Grid<int>, a: set<Vec2>, b: set<Vec2>)
    requires Marked(visited, a) && a == b
    ensures Marked(visited, b)
  {
  }

  /** One step of the sweep over the plot at index i. */
  method SweepStep(garden: Grid<char>, ghost lines: seq<string>, visited: Grid<int>, i: int, ghost rs0: set<set<Vec2>>, result0: int)
    returns (ghost rs: set<set<Vec2>>, result: int)
    requires Swept(garden, lines, visited, i, rs0, result0) && i < garden.width * garden.height
    modifies visited`data
    ensures Swept(garden, lines, visited, i + 1, rs, result)
  {
    var w := garden.width;
    MulLe(1, garden.height, w);
    var pos := garden.IdxToPos(i);
    assert pos == FlatPos(w, i);
    var flag := visited.GetAt(pos).value;
    if flag != 0 {
      SweepKeep(garden, lines, visited, i, rs0, result0, pos);
      rs, result := rs0, result0;
    } else {
      rs, result := SweepPrice(garden, lines, visited, i, rs0, result0, pos);
    }
  }

  /** A flagged plot lies in a region already priced. */
  lemma SweepKeep(garden: Grid<char>, lines: seq<string>, visited: Grid<int>, i: int, rs0: set<set<Vec2>>, result0: int, pos: Vec2)
    requires Swept(garden, lines, visited, i, rs0, result0) && i < garden.width * garden.height
    requires garden.width > 0 && pos == FlatPos(garden.width, i) && visited.GetAt(pos).Ok? && visited.GetAt(pos) != Ok(0)
    ensures Swept(garden, lines, visited, i + 1, rs0, result0)
  {
    ReadCell(garden, lines, pos);
    BelowNext(lines, garden.width, i);
    BelowRegions(lines, garden.width, i);
    Flagged(visited, Covered(lines, rs0), pos);
    SweepSkip(lines, rs0, pos);
  }

  /** On the grid, the flag of a plot is not 0 exactly when it is one of the flagged plots. */
  lemma Flagged(visited: Grid<int>, v: set<Vec2>, p: Vec2)
    requires Marked(visited, v) && visited.GetAt(p).Ok?
    ensures p in v <==> visited.GetAt(p) != Ok(0)
  {
    assert visited.TryGet(p.x, p.y) == Some(visited.GetAt(p).value);
  }

  /** An unflagged plot starts a new region, which is priced and flagged. */
  method SweepPrice(garden: Grid<char>, ghost lines: seq<string>, visited: Grid<int>, i: int, ghost rs0: set<set<Vec2>>, result0: int, pos: Vec2)
    returns (ghost rs: set<set<Vec2>>, result: int)
    requires Swept(garden, lines, visited, i, rs0, result0) && i < garden.width * garden.height
    requires garden.width > 0 && pos == FlatPos(garden.width, i) && visited.GetAt(pos) == Ok(0)
    modifies visited`data
    ensures Swept(garden, lines, visited, i + 1, rs, result)
  {
    ghost var covered := Covered(lines, rs0);
    ReadCell(garden, lines, pos);
    Flagged(visited, covered, pos);
    var price := RegionPrice(garden, lines, visited, covered, pos);
    rs, result := rs0 + {Region(lines, {}, pos)}, result0 + price.value;
    SweepClose(garden, lines, visited, i, rs0, result0, pos, price.value);
  }

  /** After `region_price` on an unflagged plot the sweep has moved past it. */
  lemma SweepClose(garden: Grid<char>, lines: seq<string>, visited: Grid<int>, i: int, rs0: set<set<Vec2>>, result0: int, pos: Vec2, price: int)
    requires Holds(garden, lines) && SameSize(visited, garden)
    requires 0 <= i < garden.width * garden.height && garden.width > 0 && pos == FlatPos(garden.width, i)
    requires rs0 == Below(lines, garden.width, i) && result0 == PriceSum(rs0)
    requires Cell(lines, pos).Some? && pos !in Covered(lines, rs0)
    requires Marked(visited, Covered(lines, rs0) + Region(lines, Covered(lines, rs0), pos))
    requires price == |Region(lines, Covered(lines, rs0), pos)| * |Sides(lines, Region(lines, Covered(lines, rs0), pos))|
    ensures Swept(garden, lines, visited, i + 1, rs0 + {Region(lines, {}, pos)}, result0 + price)
  {
    var w := garden.width;
    BelowNext(lines, w, i);
    BelowRegions(lines, w, i);
    var region := Region(lines, {}, pos);
    var covered := Covered(lines, rs0);
    SweepAdd(lines, rs0, pos);
    MarkedSame(visited, covered + Region(lines, covered, pos), Covered(lines, rs0 + {region}));
    PriceOf(lines, covered, pos);
    PriceSumAdd(rs0, region);
  }

  /** Before the sweep nothing is priced and no plot is flagged. */
  lemma SweepStart(garden: Grid<char>, lines: seq<string>, visited: Grid<int>)
    requires Holds(garden, lines) && SameSize(visited, garden) && visited.Valid()
    requires forall k :: 0 <= k < |visited.data| ==> visited.data[k] == 0
    ensures Swept(garden, lines, visited, 0, {}, 0)
  {
    assert Below(lines, garden.width, 0) == {};
    assert Covered(lines, {}) == {};
    forall x, y | visited.PosOnGrid(x, y) ensures visited.TryGet(x, y) == Some(0) {
      RowMajor(visited.width, visited.height, x, y);
    }
  }

  /** After the sweep every region is priced once. */
  lemma SweepEnd(garden: Grid<char>, lines: seq<string>, visited: Grid<int>, rs: set<set<Vec2>>, result: int)
    requires Swept(garden, lines, visited, garden.width * garden.height, rs, result)
    ensures result == Total(lines)
  {
    BelowAll(garden, lines);
  }

  /** `part_one`: the total price of fencing every region of the garden. */
  method PartOne(lines: seq<string>) returns (r: Result<int>)
    ensures r == Answer(lines)
  {
    var garden :- FromLines(lines);
    var visited := new Grid<int>.Filled(garden.width, garden.height, 0);
    var result := 0;
    ghost var rs: set<set<Vec2>> := {};
    SweepStart(garden, lines, visited);
    for i := 0 to garden.width * garden.height
      invariant Swept(garden, lines, visited, i, rs, result)
      modifies visited
    {
      rs, result := SweepStep(garden, lines, visited, i, rs, result);
    }
    SweepEnd(garden, lines, visited, rs, result);
    r := Ok(result);
  }
}
