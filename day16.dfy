/**
 * Day 16, part one: the cheapest score of a reindeer walking a maze, where a step forward
 * costs 1 and a quarter turn followed by a step costs 1001. `find_cheapest_path` is a
 * Dijkstra-style search over a min-priority queue without decrease-key: better scores are
 * pushed again, and popped entries whose score differs from the recorded cost are skipped.
 */
module Day16 {
  import opened Wrappers
  import opened Vec
  import opened Grids
  import opened LinesGrid

  /** A reindeer on its walk: where it is, where it faces and the score so far. */
  datatype State = State(pos: Vec2, dir: Vec2, score: int)

  const TurnCost := 1000
  const ForwardCost := 1
  /** `std::numeric_limits<int>::max()`, the cost of a tile not reached yet. */
  const Infinity := 0x7fff_ffff
  /** The reindeer starts facing east. */
  const East := Vec2(1, 0)

  // ---------------------------------------------------------------------------
  // Moves of the reindeer
  // ---------------------------------------------------------------------------

  /** The three candidate successors: turn left and step, turn right and step, step forward. */
  function Candidates(r: State): seq<State>
  {
    var left, right := PerpLeft(r.dir), PerpRight(r.dir);
    [State(Add(r.pos, left), left, r.score + TurnCost + ForwardCost),
     State(Add(r.pos, right), right, r.score + TurnCost + ForwardCost),
     State(Add(r.pos, r.dir), r.dir, r.score + ForwardCost)]
  }

  /** Each candidate steps one tile in its own direction, a unit step whenever the reindeer's is. */
  lemma CandidateStep(r: State, t: State)
    requires t in Candidates(r) && Manhattan(r.dir) == 1
    ensures t.pos == Add(r.pos, t.dir) && Manhattan(t.dir) == 1
    ensures t.score == r.score + ForwardCost || (t.score == r.score + TurnCost + ForwardCost && t.dir != r.dir)
    ensures t.dir != Vec2(-r.dir.x, -r.dir.y)
  {
  }

  lemma LeftMove(r: State)
    ensures State(Add(r.pos, PerpLeft(r.dir)), PerpLeft(r.dir), r.score + TurnCost + ForwardCost) in Candidates(r)
  {
    assert Candidates(r)[0] == State(Add(r.pos, PerpLeft(r.dir)), PerpLeft(r.dir), r.score + TurnCost + ForwardCost);
  }

  lemma RightMove(r: State)
    ensures State(Add(r.pos, PerpRight(r.dir)), PerpRight(r.dir), r.score + TurnCost + ForwardCost) in Candidates(r)
  {
    assert Candidates(r)[1] == State(Add(r.pos, PerpRight(r.dir)), PerpRight(r.dir), r.score + TurnCost + ForwardCost);
  }

  lemma ForwardMove(r: State)
    ensures State(Add(r.pos, r.dir), r.dir, r.score + ForwardCost) in Candidates(r)
  {
    assert Candidates(r)[2] == State(Add(r.pos, r.dir), r.dir, r.score + ForwardCost);
  }

  /** The four unit directions. */
  lemma UnitCases(d: Vec2)
    ensures Manhattan(d) == 1 ==> d == Vec2(1, 0) || d == Vec2(-1, 0) || d == Vec2(0, 1) || d == Vec2(0, -1)
  {
  }

  /** A tile the reindeer may stand on: on the map and not a wall. */
  predicate Open(lines: seq<string>, p: Vec2)
  {
    Cell(lines, p).Some? && Cell(lines, p) != Some('#')
  }

  /** The candidates on open tiles, in order. */
  function Keep(lines: seq<string>, cs: seq<State>): (r: seq<State>)
    ensures |r| <= |cs|
    ensures forall s :: s in r <==> s in cs && Open(lines, s.pos)
  {
    if cs == [] then []
    else
      var init := Keep(lines, cs[..|cs| - 1]);
      var last := cs[|cs| - 1];
      assert cs == cs[..|cs| - 1] + [last];
      if Open(lines, last.pos) then init + [last] else init
  }

  /** The successors of a state: what `adjacent_states` returns. */
  function Successors(lines: seq<string>, r: State): seq<State>
  {
    Keep(lines, Candidates(r))
  }

  /** `adjacent_states`: the candidates whose tile is on the map and not a wall. */
  method AdjacentStates(maze: Grid<char>, ghost lines: seq<string>, r: State) returns (adjacent: seq<State>)
    requires Holds(maze, lines)
    ensures adjacent == Successors(lines, r)
  {
    var candidates := Candidates(r);
    adjacent := [];
    for i := 0 to |candidates|
      invariant adjacent == Keep(lines, candidates[..i])
    {
      assert candidates[..i + 1][..i] == candidates[..i];
      ReadCell(maze, lines, candidates[i].pos);
      var tile := maze.TryGetAt(candidates[i].pos);
      if tile.Some? && tile.value != '#' {
        adjacent := adjacent + [candidates[i]];
      }
    }
    assert candidates[..|candidates|] == candidates;
  }

  // ---------------------------------------------------------------------------
  // Walks
  // ---------------------------------------------------------------------------

  /** One move of the reindeer: a candidate successor on an open tile. */
  predicate Step(lines: seq<string>, s: State, t: State)
  {
    t in Candidates(s) && Open(lines, t.pos)
  }

  /** A walk from the start tile, facing east with score 0, each state a successor of the one before. */
  ghost predicate IsWalk(lines: seq<string>, start: Vec2, w: seq<State>)
  {
    if |w| <= 1 then w == [State(start, East, 0)]
    else IsWalk(lines, start, w[..|w| - 1]) && Step(lines, w[|w| - 2], w[|w| - 1])
  }

  /** A state some walk from the start ends in. */
  ghost predicate Reached(lines: seq<string>, start: Vec2, s: State)
  {
    exists w :: IsWalk(lines, start, w) && w[|w| - 1] == s
  }

  lemma ReachedStart(lines: seq<string>, start: Vec2)
    ensures Reached(lines, start, State(start, East, 0))
  {
    assert IsWalk(lines, start, [State(start, East, 0)]);
  }

  /** A walk followed by one more move is a walk. */
  lemma WalkExtend(lines: seq<string>, start: Vec2, w: seq<State>, t: State)
    requires IsWalk(lines, start, w) && Step(lines, w[|w| - 1], t)
    ensures IsWalk(lines, start, w + [t])
  {
    var w' := w + [t];
    assert w'[..|w'| - 1] == w;
    assert w'[|w'| - 2] == w[|w| - 1];
  }

  /** A successor of a reached state is reached. */
  lemma ReachedStep(lines: seq<string>, start: Vec2, s: State, t: State)
    requires Reached(lines, start, s) && Step(lines, s, t)
    ensures Reached(lines, start, t)
  {
    var w :| IsWalk(lines, start, w) && w[|w| - 1] == s;
    WalkExtend(lines, start, w, t);
    assert (w + [t])[|w|] == t;
  }

  /** Along a walk the reindeer faces a unit direction, and its score is at least the distance walked from the start. */
  lemma {:induction false} WalkBound(lines: seq<string>, start: Vec2, w: seq<State>)
    requires IsWalk(lines, start, w)
    ensures Manhattan(w[|w| - 1].dir) == 1
    ensures w[|w| - 1].score >= Manhattan(Sub(w[|w| - 1].pos, start))
  {
    if |w| > 1 {
      var init := w[..|w| - 1];
      WalkBound(lines, start, init);
      var s, t := w[|w| - 2], w[|w| - 1];
      assert s == init[|init| - 1];
      CandidateStep(s, t);
      Triangle(Sub(s.pos, start), t.dir);
      assert Sub(t.pos, start) == Add(Sub(s.pos, start), t.dir);
    }
  }

  lemma Triangle(a: Vec2, b: Vec2)
    ensures Manhattan(Add(a, b)) <= Manhattan(a) + Manhattan(b)
  {
  }

  /** Every reached state scores at least the city-block distance of its tile from the start. */
  lemma ReachedBound(lines: seq<string>, start: Vec2, s: State)
    requires Reached(lines, start, s)
    ensures Manhattan(s.dir) == 1 && s.score >= Manhattan(Sub(s.pos, start))
  {
    var w :| IsWalk(lines, start, w) && w[|w| - 1] == s;
    WalkBound(lines, start, w);
  }

  /** No state after the first stands on the start tile again. */
  ghost predicate Fresh(start: Vec2, w: seq<State>)
  {
    forall i :: 0 < i < |w| ==> w[i].pos != start
  }

  /** A state some walk from the start ends in without ever coming back to the start tile. */
  ghost predicate ReachedFresh(lines: seq<string>, start: Vec2, s: State)
  {
    exists w :: IsWalk(lines, start, w) && Fresh(start, w) && w[|w| - 1] == s
  }

  lemma ReachedFreshStart(lines: seq<string>, start: Vec2)
    ensures ReachedFresh(lines, start, State(start, East, 0))
  {
    assert IsWalk(lines, start, [State(start, East, 0)]);
  }

  /** A move scores above 0 from a state reached without coming back, and leads to one unless it enters the start tile. */
  lemma ReachedFreshStep(lines: seq<string>, start: Vec2, s: State, t: State)
    requires ReachedFresh(lines, start, s) && Step(lines, s, t)
    ensures t.score > 0 && Reached(lines, start, t)
    ensures t.pos != start ==> ReachedFresh(lines, start, t)
  {
    var w :| IsWalk(lines, start, w) && Fresh(start, w) && w[|w| - 1] == s;
    WalkBound(lines, start, w);
    CandidateStep(s, t);
    WalkExtend(lines, start, w, t);
    var w' := w + [t];
    assert w'[|w|] == t;
    if t.pos != start {
      assert Fresh(start, w');
    }
  }

  // ---------------------------------------------------------------------------
  // The priority queue and the cost sums
  // ---------------------------------------------------------------------------

  /**
   * `top` and `pop` of the min-priority queue: removes one entry of lowest score. Which one of
   * several such entries is left open; everything proved below holds for any choice.
   */
  method PopMin(queue: seq<State>) returns (top: State, rest: seq<State>)
    requires |queue| > 0
    ensures top in queue && forall s :: s in queue ==> top.score <= s.score
    ensures multiset(rest) + multiset{top} == multiset(queue)
    ensures |rest| == |queue| - 1 && forall s :: s in rest ==> s in queue
  {
    var best := 0;
    for i := 1 to |queue|
      invariant 0 <= best < |queue|
      invariant forall j :: 0 <= j < i ==> queue[best].score <= queue[j].score
    {
      if queue[i].score < queue[best].score {
        best := i;
      }
    }
    top := queue[best];
    rest := queue[..best] + queue[best + 1..];
    assert queue == queue[..best] + [top] + queue[best + 1..];
    assert forall s :: s in rest ==> s in queue[..best] || s in queue[best + 1..];
  }

  /** The sum of the recorded costs, which every improvement lowers: the search's termination measure. */
  function CostSum(costs: seq<int>): int
  {
    if costs == [] then 0 else CostSum(costs[..|costs| - 1]) + costs[|costs| - 1]
  }

  lemma {:induction false} CostSumNonneg(costs: seq<int>)
    requires forall i :: 0 <= i < |costs| ==> costs[i] >= 0
    ensures CostSum(costs) >= 0
  {
    if costs != [] {
      CostSumNonneg(costs[..|costs| - 1]);
    }
  }

  /** Changing one cost changes the sum by the difference. */
  lemma {:induction false} CostSumUpdate(costs: seq<int>, i: nat, v: int)
    requires i < |costs|
    ensures CostSum(costs[i := v]) == CostSum(costs) - costs[i] + v
  {
    var n := |costs| - 1;
    if i == n {
      assert costs[i := v][..n] == costs[..n];
    } else {
      assert costs[i := v][..n] == costs[..n][i := v];
      CostSumUpdate(costs[..n], i, v);
    }
  }

  /** Lowering one bounded cost to a value still at least 0 keeps the costs bounded and lowers their sum. */
  lemma CostLowered(costs: seq<int>, costs': seq<int>, i: int, v: int)
    requires CostsBounded(costs) && 0 <= i < |costs| && 0 <= v < costs[i] && costs' == costs[i := v]
    ensures CostsBounded(costs') && CostSum(costs') < CostSum(costs)
    ensures |costs'| == |costs| && forall j :: 0 <= j < |costs| ==> costs'[j] <= costs[j]
  {
    CostSumUpdate(costs, i, v);
  }

  /** Every recorded cost lies between 0 and `INFINITY`. */
  ghost predicate CostsBounded(costs: seq<int>)
  {
    forall i :: 0 <= i < |costs| ==> 0 <= costs[i] <= Infinity
  }

  /** Successors stand on open tiles, so on the map. */
  lemma OnMap(maze: Grid<char>, lines: seq<string>, adjacent: seq<State>)
    requires Holds(maze, lines)
    requires forall s :: s in adjacent ==> Open(lines, s.pos)
    ensures forall s :: s in adjacent ==> 0 <= s.pos.x < maze.width && 0 <= s.pos.y < maze.height
  {
    forall s | s in adjacent
      ensures 0 <= s.pos.x < maze.width && 0 <= s.pos.y < maze.height
    {
      ReadCell(maze, lines, s.pos);
    }
  }

  // ---------------------------------------------------------------------------
  // `find_cheapest_path` as written: one recorded cost per tile
  // ---------------------------------------------------------------------------

  /** The index of tile p in a cost table of one entry per tile, row-major w wide: the grid's `calc_idx`. */
  function TileIdx(w: int, p: Vec2): int
  {
    p.x + p.y * w
  }

  /**
   * A queue entry as the tile-keyed search keeps it: a state reached without coming back to the
   * start tile, on the cost grid w wide, scoring no less than the cost recorded for its tile.
   */
  ghost predicate Queued(lines: seq<string>, start: Vec2, costs: seq<int>, w: nat, h: nat, s: State)
  {
    && ReachedFresh(lines, start, s) && 0 <= s.pos.x < w && 0 <= s.pos.y < h
    && 0 <= TileIdx(w, s.pos) < |costs| && s.score >= costs[TileIdx(w, s.pos)]
  }

  /**
   * The tile-keyed search between rounds: costs bounded, the start tile's cost still 0, and
   * every queue entry queued.
   */
  ghost predicate Searching(lines: seq<string>, start: Vec2, costs: seq<int>, w: nat, h: nat, queue: seq<State>)
  {
    && CostsBounded(costs) && 0 <= start.x < w && 0 <= start.y < h
    && 0 <= TileIdx(w, start) < |costs| && costs[TileIdx(w, start)] == 0
    && forall s :: s in queue ==> Queued(lines, start, costs, w, h, s)
  }

  /** Lowering recorded costs keeps every queue entry as the search keeps it. */
  lemma LowerKeepsQueued(lines: seq<string>, start: Vec2, costs: seq<int>, costs': seq<int>, w: nat, h: nat, queue: seq<State>)
    requires |costs'| == |costs| && forall j :: 0 <= j < |costs| ==> costs'[j] <= costs[j]
    requires forall s :: s in queue ==> Queued(lines, start, costs, w, h, s)
    ensures forall s :: s in queue ==> Queued(lines, start, costs', w, h, s)
  {
  }

  /**
   * Recording a lower cost for a successor's tile and pushing the successor keeps the search's
   * invariants, lowers that one cost and the cost sum. The successor cannot stand on the start
   * tile, whose cost 0 no move beats.
   */
  lemma Push(lines: seq<string>, start: Vec2, costs: seq<int>, costs': seq<int>, w: nat, h: nat, queue: seq<State>, current: State, adj: State)
    requires Searching(lines, start, costs, w, h, queue)
    requires ReachedFresh(lines, start, current) && Step(lines, current, adj) && 0 <= adj.pos.x < w && 0 <= adj.pos.y < h
    requires 0 <= TileIdx(w, adj.pos) < |costs| && adj.score < costs[TileIdx(w, adj.pos)]
    requires costs' == costs[TileIdx(w, adj.pos) := adj.score]
    ensures Searching(lines, start, costs', w, h, queue + [adj])
    ensures CostSum(costs') < CostSum(costs)
    ensures forall j :: 0 <= j < |costs| ==> costs'[j] <= costs[j]
  {
    ReachedFreshStep(lines, start, current, adj);
    assert adj.pos != start;
    CostLowered(costs, costs', TileIdx(w, adj.pos), adj.score);
    LowerKeepsQueued(lines, start, costs, costs', w, h, queue);
  }

  /** No cost is higher than before. */
  ghost predicate NoHigher(costs': seq<int>, costs: seq<int>)
  {
    |costs'| == |costs| && forall i :: 0 <= i < |costs| ==> costs'[i] <= costs[i]
  }

  /** The first k states of `adjacent` are relaxed: their tiles cost no more than they score. */
  ghost predicate RelaxedTiles(costs: seq<int>, w: int, adjacent: seq<State>, k: int)
  {
    k <= |adjacent|
    && forall j :: 0 <= j < k ==> 0 <= TileIdx(w, adjacent[j].pos) < |costs| && costs[TileIdx(w, adjacent[j].pos)] <= adjacent[j].score
  }

  /**
   * The relaxation loop's invariant, from the costs `initial` and the queue `queue0` it started
   * with: the search's invariants hold, no cost has risen, the first k successors are relaxed,
   * and the cost sum has dropped whenever something was pushed.
   */
  ghost predicate Relaxing(lines: seq<string>, start: Vec2, costs: seq<int>, w: nat, h: nat, queue: seq<State>,
                           initial: seq<int>, queue0: seq<State>, adjacent: seq<State>, k: int)
  {
    && Searching(lines, start, costs, w, h, queue) && NoHigher(costs, initial) && RelaxedTiles(costs, w, adjacent, k)
    && CostSum(costs) <= CostSum(initial) && |queue| >= |queue0|
    && (|queue| != |queue0| ==> CostSum(costs) < CostSum(initial))
  }

  /** Relaxing one more successor, pushed or not, keeps the relaxation loop's invariant. */
  lemma RelaxStep(lines: seq<string>, start: Vec2, costs: seq<int>, costs': seq<int>, w: nat, h: nat, queue: seq<State>, queue': seq<State>,
                  initial: seq<int>, queue0: seq<State>, adjacent: seq<State>, k: nat, current: State, adj: State)
    requires Relaxing(lines, start, costs, w, h, queue, initial, queue0, adjacent, k) && k < |adjacent| && adj == adjacent[k]
    requires ReachedFresh(lines, start, current) && Step(lines, current, adj) && 0 <= adj.pos.x < w && 0 <= adj.pos.y < h
    requires 0 <= TileIdx(w, adj.pos) < |costs|
    requires adj.score < costs[TileIdx(w, adj.pos)] ==> queue' == queue + [adj] && costs' == costs[TileIdx(w, adj.pos) := adj.score]
    requires adj.score >= costs[TileIdx(w, adj.pos)] ==> queue' == queue && costs' == costs
    ensures Relaxing(lines, start, costs', w, h, queue', initial, queue0, adjacent, k + 1)
  {
    if adj.score < costs[TileIdx(w, adj.pos)] {
      Push(lines, start, costs, costs', w, h, queue, current, adj);
    }
  }

  /**
   * One step of the relaxation loop of `find_cheapest_path`: a successor that beats the recorded
   * cost of its tile lowers that cost and is pushed; otherwise nothing changes.
   */
  method RelaxOne(costGrid: Grid<int>, queue0: seq<State>, adj: State) returns (queue: seq<State>)
    requires costGrid.Valid() && 0 <= adj.pos.x < costGrid.width && 0 <= adj.pos.y < costGrid.height
    modifies costGrid`data
    ensures costGrid.Valid() && 0 <= TileIdx(costGrid.width, adj.pos) < |old(costGrid.data)|
    ensures adj.score < old(costGrid.data[TileIdx(costGrid.width, adj.pos)]) ==>
              queue == queue0 + [adj] && costGrid.data == old(costGrid.data)[TileIdx(costGrid.width, adj.pos) := adj.score]
    ensures adj.score >= old(costGrid.data[TileIdx(costGrid.width, adj.pos)]) ==> queue == queue0 && costGrid.data == old(costGrid.data)
  {
    RowMajor(costGrid.width, costGrid.height, adj.pos.x, adj.pos.y);
    var cost := costGrid.GetAt(adj.pos);
    assert cost == Ok(costGrid.data[TileIdx(costGrid.width, adj.pos)]);
    queue := queue0;
    if adj.score < cost.value {
      var _ := costGrid.Set(adj.pos.x, adj.pos.y, adj.score);
      queue := queue + [adj];
    }
  }

  /**
   * The relaxation loop of `find_cheapest_path`: each successor that beats the recorded cost of
   * its tile lowers that cost and is pushed. Afterwards no successor beats its tile's cost, no
   * cost has risen, and the cost sum has dropped whenever something was pushed.
   */
  method Relax(costGrid: Grid<int>, ghost lines: seq<string>, start: Vec2, queue0: seq<State>, current: State, adjacent: seq<State>)
    returns (queue: seq<State>)
    requires costGrid.Valid() && Searching(lines, start, costGrid.data, costGrid.width, costGrid.height, queue0)
    requires ReachedFresh(lines, start, current)
    requires forall s :: s in adjacent ==> Step(lines, current, s) && 0 <= s.pos.x < costGrid.width && 0 <= s.pos.y < costGrid.height
    modifies costGrid`data
    ensures costGrid.Valid()
    ensures Relaxing(lines, start, costGrid.data, costGrid.width, costGrid.height, queue, old(costGrid.data), queue0, adjacent, |adjacent|)
  {
    queue := queue0;
    ghost var initial := costGrid.data;
    for k := 0 to |adjacent|
      invariant costGrid.Valid()
      invariant Relaxing(lines, start, costGrid.data, costGrid.width, costGrid.height, queue, initial, queue0, adjacent, k)
    {
      ghost var costs, queue1 := costGrid.data, queue;
      assert adjacent[k] in adjacent;
      queue := RelaxOne(costGrid, queue, adjacent[k]);
      RelaxStep(lines, start, costs, costGrid.data, costGrid.width, costGrid.height, queue1, queue, initial, queue0, adjacent, k, current, adjacent[k]);
    }
  }

  /**
   * One round of the search loop: pop an entry of lowest score, skip it when the recorded cost
   * of its tile is lower (the assertion of `find_cheapest_path` holds), stop with its score at
   * the end tile, otherwise relax its successors. A round that does not stop lowers the cost
   * sum or shortens the queue with the costs unchanged.
   */
  method SearchStep(maze: Grid<char>, ghost lines: seq<string>, costGrid: Grid<int>, startPos: Vec2, endPos: Vec2, queue0: seq<State>)
    returns (queue: seq<State>, found: Option<int>)
    requires Holds(maze, lines) && costGrid.Valid() && costGrid.width == maze.width && costGrid.height == maze.height
    requires Searching(lines, startPos, costGrid.data, costGrid.width, costGrid.height, queue0) && queue0 != []
    modifies costGrid`data
    ensures costGrid.Valid() && Searching(lines, startPos, costGrid.data, costGrid.width, costGrid.height, queue)
    ensures NoHigher(costGrid.data, old(costGrid.data))
    ensures found.Some? ==> exists d :: ReachedFresh(lines, startPos, State(endPos, d, found.value))
    ensures found.None? ==>
              CostSum(costGrid.data) < old(CostSum(costGrid.data)) || (CostSum(costGrid.data) == old(CostSum(costGrid.data)) && |queue| < |queue0|)
  {
    var current, rest := PopMin(queue0);
    queue := rest;
    RowMajor(costGrid.width, costGrid.height, current.pos.x, current.pos.y);
    var currentScore := costGrid.GetAt(current.pos);
    assert currentScore == Ok(costGrid.data[TileIdx(costGrid.width, current.pos)]);
    if current.score != currentScore.value {
      assert current.score > currentScore.value;
      return queue, None;
    }
    if current.pos == endPos {
      assert current == State(endPos, current.dir, current.score);
      return queue, Some(current.score);
    }
    var adjacent := AdjacentStates(maze, lines, current);
    OnMap(maze, lines, adjacent);
    queue := Relax(costGrid, lines, startPos, queue, current, adjacent);
    found := None;
  }

  /**
   * `find_cheapest_path` as written, with one recorded cost per tile: out_of_range when the start
   * is off the map; otherwise -1, or the score of a state on the end tile that a walk reaches
   * without ever coming back to the start tile (whose cost 0 no later state beats).
   */
  method FindCheapestPath(maze: Grid<char>, ghost lines: seq<string>, startPos: Vec2, endPos: Vec2) returns (r: Result<int>)
    requires Holds(maze, lines)
    ensures r.Err? <==> !maze.PosOnGrid(startPos.x, startPos.y)
    ensures r.Err? ==> r.error == OutOfRange
    ensures r.Ok? && r.value != -1 ==> exists d :: ReachedFresh(lines, startPos, State(endPos, d, r.value))
  {
    var costGrid := new Grid<int>.Filled(maze.width, maze.height, Infinity);
    var o := costGrid.Set(startPos.x, startPos.y, 0);
    if o.Fail? {
      return Err(o.error);
    }
    var queue := [State(startPos, East, 0)];
    ReachedFreshStart(lines, startPos);
    RowMajor(costGrid.width, costGrid.height, startPos.x, startPos.y);
    CostSumNonneg(costGrid.data);
    while queue != []
      invariant costGrid.Valid() && costGrid.width == maze.width && costGrid.height == maze.height
      invariant Searching(lines, startPos, costGrid.data, costGrid.width, costGrid.height, queue)
      invariant CostSum(costGrid.data) >= 0
      decreases CostSum(costGrid.data), |queue|
    {
      var found;
      queue, found := SearchStep(maze, lines, costGrid, startPos, endPos, queue);
      if found.Some? {
        return Ok(found.value);
      }
      CostSumNonneg(costGrid.data);
    }
    return Ok(-1);
  }

  // ---------------------------------------------------------------------------
  // Start and end tiles
  // ---------------------------------------------------------------------------

  /** Some tile of the lines holds c. */
  ghost predicate HasTile(lines: seq<string>, c: char)
  {
    exists p :: Cell(lines, p) == Some(c)
  }

  /** A grid holding the lines yields a position for every tile of c, so none only when no tile holds c. */
  lemma TilesFound(maze: Grid<char>, lines: seq<string>, c: char, positions: seq<Vec2>)
    requires Holds(maze, lines)
    requires forall x, y :: maze.TryGet(x, y) == Some(c) ==> Vec2(x, y) in positions
    ensures HasTile(lines, c) ==> |positions| > 0
  {
    if HasTile(lines, c) {
      var p :| Cell(lines, p) == Some(c);
      ReadCell(maze, lines, p);
      assert Vec2(p.x, p.y) in positions;
    }
  }

  /** p comes no later than q in row-major order: an earlier row, or the same row and no later column. */
  predicate RowMajorLe(p: Vec2, q: Vec2)
  {
    p.y < q.y || (p.y == q.y && p.x <= q.x)
  }

  /** p is the first tile holding c in row-major order. */
  ghost predicate FirstTile(lines: seq<string>, c: char, p: Vec2)
  {
    Cell(lines, p) == Some(c) && forall q :: Cell(lines, q) == Some(c) ==> RowMajorLe(p, q)
  }

  /** There is at most one first tile of c. */
  lemma FirstTileUnique(lines: seq<string>, c: char, p: Vec2, q: Vec2)
    requires FirstTile(lines, c, p) && FirstTile(lines, c, q)
    ensures p == q
  {
    assert RowMajorLe(p, q) && RowMajorLe(q, p);
  }

  /** On a grid of width w, a no-larger `calc_idx` means no later in row-major order. */
  lemma IdxOrder(w: int, p: Vec2, q: Vec2)
    requires 0 <= p.x < w && 0 <= q.x < w
    requires p.x + p.y * w <= q.x + q.y * w
    ensures RowMajorLe(p, q)
  {
    if q.y < p.y {
      assert (q.y + 1) * w == q.y * w + w;
      MulLe(q.y + 1, p.y, w);
    }
  }

  /**
   * `find_elem_positions(c).at(0)`: out_of_range when no tile holds c, otherwise the first tile
   * holding it in row-major order.
   */
  method FindTile(maze: Grid<char>, ghost lines: seq<string>, c: char) returns (r: Result<Vec2>)
    requires Holds(maze, lines)
    ensures r.Err? <==> !HasTile(lines, c)
    ensures r.Err? ==> r.error == OutOfRange
    ensures r.Ok? ==> FirstTile(lines, c, r.value)
  {
    var positions := maze.FindElemPositions(c);
    TilesFound(maze, lines, c, positions);
    if |positions| == 0 {
      return Err(OutOfRange);
    }
    var p := positions[0];
    ReadCell(maze, lines, p);
    forall q | Cell(lines, q) == Some(c)
      ensures RowMajorLe(p, q)
    {
      ReadCell(maze, lines, q);
      assert maze.TryGet(q.x, q.y) == Some(c);
      var k :| 0 <= k < |positions| && positions[k] == Vec2(q.x, q.y);
      assert maze.TryGet(p.x, p.y) == Some(c);
      IdxOrder(maze.width, p, q);
    }
    r := Ok(p);
  }

  /**
   * `part_one` as written: invalid_argument for ragged lines, out_of_range without a start or an
   * end tile; otherwise -1 or the score of a walk from a start tile to an end tile that never
   * comes back to the start tile.
   */
  method PartOneAsWritten(lines: seq<string>) returns (r: Result<int>)
    ensures r.Err? <==> !Rect(lines) || !HasTile(lines, 'S') || !HasTile(lines, 'E')
    ensures !Rect(lines) ==> r == Err(InvalidArgument)
    ensures Rect(lines) && r.Err? ==> r.error == OutOfRange
    ensures r.Ok? && r.value != -1 ==>
              forall s, e :: FirstTile(lines, 'S', s) && FirstTile(lines, 'E', e) ==>
                exists d :: ReachedFresh(lines, s, State(e, d, r.value))
  {
    var built := FromLines(lines);
    if built.Err? {
      return Err(built.error);
    }
    var maze := built.value;
    var startPos := FindTile(maze, lines, 'S');
    if startPos.Err? {
      return Err(startPos.error);
    }
    var endPos := FindTile(maze, lines, 'E');
    if endPos.Err? {
      return Err(endPos.error);
    }
    ReadCell(maze, lines, startPos.value);
    r := FindCheapestPath(maze, lines, startPos.value, endPos.value);
    forall s, e | FirstTile(lines, 'S', s) && FirstTile(lines, 'E', e)
      ensures s == startPos.value && e == endPos.value
    {
      FirstTileUnique(lines, 'S', s, startPos.value);
      FirstTileUnique(lines, 'E', e, endPos.value);
    }
  }

  // ---------------------------------------------------------------------------
  // The search keyed by tile and facing
  // ---------------------------------------------------------------------------

  /** Which of the four facings d is: east 0, south 1, west 2, north 3. */
  function FacingIndex(d: Vec2): int
  {
    if d == Vec2(1, 0) then 0 else if d == Vec2(0, 1) then 1 else if d == Vec2(-1, 0) then 2 else 3
  }

  /** The facing with index f. */
  function FacingOf(f: int): Vec2
  {
    if f == 0 then Vec2(1, 0) else if f == 1 then Vec2(0, 1) else if f == 2 then Vec2(-1, 0) else Vec2(0, -1)
  }

  /** The slot of tile p faced along d in a cost table of four slots per tile, tiles row-major w wide. */
  function Slot(w: int, p: Vec2, d: Vec2): int
  {
    4 * TileIdx(w, p) + FacingIndex(d)
  }

  /** The state in slot i scoring c: the tile and facing that `Slot` numbers i. */
  function SlotState(w: int, i: int, c: int): State
    requires w > 0
  {
    State(Vec2((i / 4) % w, (i / 4) / w), FacingOf(i % 4), c)
  }

  /** A unit direction is one of the four facings, and its index names it back. */
  lemma UnitFacing(d: Vec2)
    requires Manhattan(d) == 1
    ensures 0 <= FacingIndex(d) < 4 && FacingOf(FacingIndex(d)) == d
  {
  }

  /** Slots number the tiles and unit facings of a w-by-h map: each pair gets a slot that names it back. */
  lemma SlotRoundTrip(w: int, h: int, p: Vec2, d: Vec2, c: int)
    requires 0 <= p.x < w && 0 <= p.y < h && Manhattan(d) == 1
    ensures 0 <= Slot(w, p, d) < 4 * (w * h) && SlotState(w, Slot(w, p, d), c) == State(p, d, c)
  {
    RowMajor(w, h, p.x, p.y);
    UnitFacing(d);
    DivModOf(4, FacingIndex(d), TileIdx(w, p));
  }

  /** ... and every slot of the table names a tile and unit facing of the map whose slot it is. */
  lemma SlotNames(w: int, h: int, i: int, c: int)
    requires 0 < w && 0 <= i < 4 * (w * h)
    ensures var s := SlotState(w, i, c);
      0 <= s.pos.x < w && 0 <= s.pos.y < h && Manhattan(s.dir) == 1 && Slot(w, s.pos, s.dir) == i
  {
    var t := i / 4;
    IndexSplits(w, h, t);
    assert FacingIndex(FacingOf(i % 4)) == i % 4;
  }

  /**
   * A queue entry of the facing-keyed search: a reached state on the map scoring no less than
   * the cost recorded for its tile and facing.
   */
  ghost predicate Pending(lines: seq<string>, start: Vec2, costs: seq<int>, w: int, h: int, s: State)
  {
    && Reached(lines, start, s) && 0 <= s.pos.x < w && 0 <= s.pos.y < h
    && 0 <= Slot(w, s.pos, s.dir) < |costs| && s.score >= costs[Slot(w, s.pos, s.dir)]
  }

  /** Every slot with a finite cost is accounted for: its state at that cost is still queued or already expanded. */
  ghost predicate Tracked(costs: seq<int>, w: int, queue: seq<State>, settled: set<State>)
  {
    w > 0 && forall i :: 0 <= i < |costs| && costs[i] < Infinity ==> SlotState(w, i, costs[i]) in queue || SlotState(w, i, costs[i]) in settled
  }

  /** Every expanded state is relaxed: each successor is on the map and its slot costs no more than it scores. */
  ghost predicate Relaxed(lines: seq<string>, costs: seq<int>, w: int, h: int, settled: set<State>)
  {
    forall s, t :: s in settled && t in Successors(lines, s) ==>
      0 <= t.pos.x < w && 0 <= t.pos.y < h && 0 <= Slot(w, t.pos, t.dir) < |costs| && costs[Slot(w, t.pos, t.dir)] <= t.score
  }

  /**
   * What the facing-keyed search keeps while it relaxes: the costs bounded, the start slot's
   * cost 0, every queue entry pending, every finite cost tracked, and no expanded state on the
   * end tile.
   */
  ghost predicate Holding(lines: seq<string>, start: Vec2, endPos: Vec2, costs: seq<int>, w: int, h: int,
                          queue: seq<State>, settled: set<State>)
  {
    && 0 <= start.x < w && 0 <= start.y < h && CostsBounded(costs)
    && 0 <= Slot(w, start, East) < |costs| && costs[Slot(w, start, East)] == 0
    && (forall s :: s in queue ==> Pending(lines, start, costs, w, h, s))
    && Tracked(costs, w, queue, settled)
    && (forall s :: s in settled ==> s.pos != endPos)
  }

  /** The facing-keyed search between rounds: what it keeps, and every expanded state relaxed. */
  ghost predicate Frontier(lines: seq<string>, start: Vec2, endPos: Vec2, costs: seq<int>, w: int, h: int,
                           queue: seq<State>, settled: set<State>)
  {
    Holding(lines, start, endPos, costs, w, h, queue, settled) && Relaxed(lines, costs, w, h, settled)
  }

  /** A move from a state is open alike from the same tile and facing at another score, shifted by the difference. */
  lemma Shifted(lines: seq<string>, p: State, s: State, c: int)
    requires Step(lines, p, s)
    ensures State(s.pos, s.dir, s.score - p.score + c) in Successors(lines, State(p.pos, p.dir, c))
  {
    var cs, ds := Candidates(p), Candidates(State(p.pos, p.dir, c));
    var t := State(s.pos, s.dir, s.score - p.score + c);
    if s == cs[0] {
      assert t == ds[0];
    } else if s == cs[1] {
      assert t == ds[1];
    } else {
      assert t == ds[2];
    }
  }

  /** The tile and facing of s were expanded at a cost no higher than s scores. */
  ghost predicate Expanded(costs: seq<int>, w: int, h: int, settled: set<State>, s: State)
  {
    && 0 <= s.pos.x < w && 0 <= s.pos.y < h && Manhattan(s.dir) == 1
    && 0 <= Slot(w, s.pos, s.dir) < |costs| && costs[Slot(w, s.pos, s.dir)] <= s.score
    && State(s.pos, s.dir, costs[Slot(w, s.pos, s.dir)]) in settled
  }

  /** A slot costing less than every queued entry scores was expanded at that cost, since its state is tracked. */
  lemma SettledAt(costs: seq<int>, w: int, h: int, queue: seq<State>, settled: set<State>, bound: int, p: Vec2, d: Vec2)
    requires Tracked(costs, w, queue, settled) && bound <= Infinity && forall q :: q in queue ==> q.score >= bound
    requires 0 <= p.x < w && 0 <= p.y < h && Manhattan(d) == 1
    requires 0 <= Slot(w, p, d) < |costs| && costs[Slot(w, p, d)] < bound
    ensures State(p, d, costs[Slot(w, p, d)]) in settled
  {
    SlotRoundTrip(w, h, p, d, costs[Slot(w, p, d)]);
  }

  /** A move out of an expanded state below `bound` leads to an expanded state, by relaxation. */
  lemma SettledNext(lines: seq<string>, start: Vec2, endPos: Vec2, costs: seq<int>, w: int, h: int,
                    queue: seq<State>, settled: set<State>, bound: int, p: State, s: State)
    requires Frontier(lines, start, endPos, costs, w, h, queue, settled)
    requires bound <= Infinity && forall q :: q in queue ==> q.score >= bound
    requires Expanded(costs, w, h, settled, p) && Step(lines, p, s) && s.score < bound
    ensures Expanded(costs, w, h, settled, s)
  {
    var c := costs[Slot(w, p.pos, p.dir)];
    Shifted(lines, p, s, c);
    CandidateStep(p, s);
    var t := State(s.pos, s.dir, s.score - p.score + c);
    assert t in Successors(lines, State(p.pos, p.dir, c));
    assert costs[Slot(w, s.pos, s.dir)] <= t.score;
    SettledAt(costs, w, h, queue, settled, bound, s.pos, s.dir);
  }

  /**
   * Induction along walks: when a property holds of the start state and every move scoring
   * below `bound` out of a state with the property leads to a state with it, every walk
   * scoring below `bound` ends in a state with the property.
   */
  lemma {:induction false} AlongWalks(lines: seq<string>, start: Vec2, P: State -> bool, bound: int, walk: seq<State>)
    requires 0 < bound ==> P(State(start, East, 0))
    requires forall p, s :: P(p) && Step(lines, p, s) && s.score < bound ==> P(s)
    requires IsWalk(lines, start, walk)
    ensures walk[|walk| - 1].score < bound ==> P(walk[|walk| - 1])
  {
    if |walk| > 1 {
      var init := walk[..|walk| - 1];
      var p, s := walk[|walk| - 2], walk[|walk| - 1];
      assert p == init[|init| - 1];
      assert Step(lines, p, s);
      WalkBound(lines, start, init);
      CandidateStep(p, s);
      AlongWalks(lines, start, P, bound, init);
      assert s.score < bound ==> P(p);
    }
  }

  /** While every queued entry scores at least `bound`, no walk reaches the end tile scoring below it. */
  lemma NoneCheaper(lines: seq<string>, start: Vec2, endPos: Vec2, costs: seq<int>, w: int, h: int,
                    queue: seq<State>, settled: set<State>, bound: int)
    requires Frontier(lines, start, endPos, costs, w, h, queue, settled)
    requires bound <= Infinity && forall q :: q in queue ==> q.score >= bound
    ensures forall s :: Reached(lines, start, s) && s.pos == endPos ==> s.score >= bound
  {
    ghost var expanded := (s: State) => Expanded(costs, w, h, settled, s);
    if 0 < bound {
      SettledAt(costs, w, h, queue, settled, bound, start, East);
    }
    forall p, s | expanded(p) && Step(lines, p, s) && s.score < bound
      ensures expanded(s)
    {
      SettledNext(lines, start, endPos, costs, w, h, queue, settled, bound, p, s);
    }
    forall s | Reached(lines, start, s) && s.pos == endPos
      ensures s.score >= bound
    {
      var walk :| IsWalk(lines, start, walk) && walk[|walk| - 1] == s;
      AlongWalks(lines, start, expanded, bound, walk);
    }
  }

  /**
   * What `find_cheapest_path` is for: v is the lowest score of a state a walk from the start
   * reaches on the end tile, or -1 when no walk gets there scoring below `INFINITY`.
   */
  ghost predicate Cheapest(lines: seq<string>, start: Vec2, endPos: Vec2, v: int)
  {
    if v == -1 then forall s :: Reached(lines, start, s) && s.pos == endPos ==> s.score >= Infinity
    else (exists d :: Reached(lines, start, State(endPos, d, v))) && forall s :: Reached(lines, start, s) && s.pos == endPos ==> v <= s.score
  }

  /** Dropping a stale entry, one whose slot records a different cost, keeps every finite cost tracked. */
  lemma StaleDropped(costs: seq<int>, w: int, h: int, queue: seq<State>, rest: seq<State>, settled: set<State>, top: State)
    requires |costs| == 4 * (w * h) && Tracked(costs, w, queue, settled)
    requires multiset(rest) + multiset{top} == multiset(queue)
    requires 0 <= Slot(w, top.pos, top.dir) < |costs| && costs[Slot(w, top.pos, top.dir)] != top.score
    ensures Tracked(costs, w, rest, settled)
  {
    forall i | 0 <= i < |costs| && costs[i] < Infinity && SlotState(w, i, costs[i]) !in settled
      ensures SlotState(w, i, costs[i]) in rest
    {
      var s := SlotState(w, i, costs[i]);
      SlotNames(w, h, i, costs[i]);
      assert s != top;
      assert s in multiset(queue);
    }
  }

  /** Expanding the popped entry keeps every finite cost tracked: it counts as expanded from now on. */
  lemma LivePopped(costs: seq<int>, w: int, queue: seq<State>, rest: seq<State>, settled: set<State>, top: State)
    requires Tracked(costs, w, queue, settled)
    requires multiset(rest) + multiset{top} == multiset(queue)
    ensures Tracked(costs, w, rest, settled + {top})
  {
    forall i | 0 <= i < |costs| && costs[i] < Infinity && SlotState(w, i, costs[i]) != top && SlotState(w, i, costs[i]) !in settled
      ensures SlotState(w, i, costs[i]) in rest
    {
      assert SlotState(w, i, costs[i]) in multiset(queue);
    }
  }

  /** Recording a lower cost for one slot and pushing its state keeps every finite cost tracked. */
  lemma TrackPush(costs: seq<int>, costs': seq<int>, w: int, h: int, queue: seq<State>, settled: set<State>, adj: State)
    requires Tracked(costs, w, queue, settled)
    requires 0 <= adj.pos.x < w && 0 <= adj.pos.y < h && Manhattan(adj.dir) == 1
    requires 0 <= Slot(w, adj.pos, adj.dir) < |costs| && costs' == costs[Slot(w, adj.pos, adj.dir) := adj.score]
    ensures Tracked(costs', w, queue + [adj], settled)
  {
    SlotRoundTrip(w, h, adj.pos, adj.dir, adj.score);
    forall i | 0 <= i < |costs'| && costs'[i] < Infinity
      ensures SlotState(w, i, costs'[i]) in queue + [adj] || SlotState(w, i, costs'[i]) in settled
    {
      if i != Slot(w, adj.pos, adj.dir) {
        assert costs'[i] == costs[i];
      }
    }
  }

  /**
   * Recording a lower cost for the slot of a successor of a reached state and pushing the
   * successor keeps what the search keeps, lowers that one cost and the cost sum. The start
   * slot's cost 0 no move beats.
   */
  lemma PushByFacing(lines: seq<string>, start: Vec2, endPos: Vec2, costs: seq<int>, costs': seq<int>, w: int, h: int,
                     queue: seq<State>, settled: set<State>, current: State, adj: State)
    requires Holding(lines, start, endPos, costs, w, h, queue, settled)
    requires Reached(lines, start, current) && Step(lines, current, adj) && 0 <= adj.pos.x < w && 0 <= adj.pos.y < h
    requires 0 <= Slot(w, adj.pos, adj.dir) < |costs| && adj.score < costs[Slot(w, adj.pos, adj.dir)]
    requires costs' == costs[Slot(w, adj.pos, adj.dir) := adj.score]
    ensures Holding(lines, start, endPos, costs', w, h, queue + [adj], settled)
    ensures CostSum(costs') < CostSum(costs) && NoHigher(costs', costs)
  {
    var i := Slot(w, adj.pos, adj.dir);
    ReachedStep(lines, start, current, adj);
    ReachedBound(lines, start, adj);
    CostLowered(costs, costs', i, adj.score);
    assert Pending(lines, start, costs', w, h, adj);
    PendingKept(lines, start, costs, costs', w, h, queue, adj);
    TrackPush(costs, costs', w, h, queue, settled, adj);
  }

  /** Lowering costs keeps queued entries pending, and a pending entry may join them. */
  lemma PendingKept(lines: seq<string>, start: Vec2, costs: seq<int>, costs': seq<int>, w: int, h: int, queue: seq<State>, adj: State)
    requires forall s :: s in queue ==> Pending(lines, start, costs, w, h, s)
    requires NoHigher(costs', costs) && Pending(lines, start, costs', w, h, adj)
    ensures forall s :: s in queue + [adj] ==> Pending(lines, start, costs', w, h, s)
  {
  }

  /** The first k states of `adjacent` are relaxed: their slots cost no more than they score. */
  ghost predicate RelaxedSlots(costs: seq<int>, w: int, adjacent: seq<State>, k: int)
  {
    k <= |adjacent|
    && forall j :: 0 <= j < k ==>
      0 <= Slot(w, adjacent[j].pos, adjacent[j].dir) < |costs| && costs[Slot(w, adjacent[j].pos, adjacent[j].dir)] <= adjacent[j].score
  }

  /**
   * The facing-keyed relaxation loop's invariant, from the costs `initial` and the queue
   * `queue0` it started with: what the search keeps holds, the states expanded before stay
   * relaxed, no cost has risen, the first k successors are relaxed, and the cost sum has
   * dropped whenever something was pushed.
   */
  ghost predicate RelaxingByFacing(lines: seq<string>, start: Vec2, endPos: Vec2, costs: seq<int>, w: int, h: int,
                                   queue: seq<State>, settled: set<State>, settled0: set<State>,
                                   initial: seq<int>, queue0: seq<State>, adjacent: seq<State>, k: int)
  {
    && Holding(lines, start, endPos, costs, w, h, queue, settled) && Relaxed(lines, costs, w, h, settled0)
    && NoHigher(costs, initial) && RelaxedSlots(costs, w, adjacent, k)
    && CostSum(costs) <= CostSum(initial) && |queue| >= |queue0|
    && (|queue| != |queue0| ==> CostSum(costs) < CostSum(initial))
  }

  /** Relaxing one more successor, pushed or not, keeps the facing-keyed relaxation loop's invariant. */
  lemma RelaxStepByFacing(lines: seq<string>, start: Vec2, endPos: Vec2, costs: seq<int>, costs': seq<int>, w: int, h: int,
                          queue: seq<State>, queue': seq<State>, settled: set<State>, settled0: set<State>,
                          initial: seq<int>, queue0: seq<State>, adjacent: seq<State>, k: nat, current: State, adj: State)
    requires RelaxingByFacing(lines, start, endPos, costs, w, h, queue, settled, settled0, initial, queue0, adjacent, k)
    requires k < |adjacent| && adj == adjacent[k]
    requires Reached(lines, start, current) && Step(lines, current, adj) && 0 <= adj.pos.x < w && 0 <= adj.pos.y < h
    requires 0 <= Slot(w, adj.pos, adj.dir) < |costs|
    requires adj.score < costs[Slot(w, adj.pos, adj.dir)] ==> queue' == queue + [adj] && costs' == costs[Slot(w, adj.pos, adj.dir) := adj.score]
    requires adj.score >= costs[Slot(w, adj.pos, adj.dir)] ==> queue' == queue && costs' == costs
    ensures RelaxingByFacing(lines, start, endPos, costs', w, h, queue', settled, settled0, initial, queue0, adjacent, k + 1)
  {
    if adj.score < costs[Slot(w, adj.pos, adj.dir)] {
      PushByFacing(lines, start, endPos, costs, costs', w, h, queue, settled, current, adj);
      RelaxedLowered(lines, costs, costs', w, h, settled0);
      SlotsLowered(costs, costs', w, adjacent, k);
      assert NoHigher(costs', initial);
    }
  }

  /** Lowering costs keeps expanded states relaxed. */
  lemma RelaxedLowered(lines: seq<string>, costs: seq<int>, costs': seq<int>, w: int, h: int, settled: set<State>)
    requires Relaxed(lines, costs, w, h, settled) && NoHigher(costs', costs)
    ensures Relaxed(lines, costs', w, h, settled)
  {
  }

  /** Lowering costs keeps the first k successors relaxed; the next one is relaxed once its slot costs its score. */
  lemma SlotsLowered(costs: seq<int>, costs': seq<int>, w: int, adjacent: seq<State>, k: nat)
    requires RelaxedSlots(costs, w, adjacent, k) && NoHigher(costs', costs) && k < |adjacent|
    requires 0 <= Slot(w, adjacent[k].pos, adjacent[k].dir) < |costs'| && costs'[Slot(w, adjacent[k].pos, adjacent[k].dir)] <= adjacent[k].score
    ensures RelaxedSlots(costs', w, adjacent, k + 1)
  {
  }

  /**
   * One step of the facing-keyed relaxation loop: a successor that beats the recorded cost of
   * its tile and facing lowers that cost and is pushed; otherwise nothing changes.
   */
  method RelaxOneByFacing(costs: array<int>, w: int, queue0: seq<State>, adj: State) returns (queue: seq<State>)
    requires 0 <= Slot(w, adj.pos, adj.dir) < costs.Length
    modifies costs
    ensures adj.score < old(costs[Slot(w, adj.pos, adj.dir)]) ==>
              queue == queue0 + [adj] && costs[..] == old(costs[..])[Slot(w, adj.pos, adj.dir) := adj.score]
    ensures adj.score >= old(costs[Slot(w, adj.pos, adj.dir)]) ==> queue == queue0 && costs[..] == old(costs[..])
  {
    var i := Slot(w, adj.pos, adj.dir);
    queue := queue0;
    if adj.score < costs[i] {
      costs[i] := adj.score;
      queue := queue + [adj];
    }
  }

  /**
   * The facing-keyed relaxation loop: each successor that beats the recorded cost of its tile
   * and facing lowers that cost and is pushed.
   */
  method RelaxByFacing(costs: array<int>, w: int, h: int, ghost lines: seq<string>, start: Vec2, endPos: Vec2,
                       queue0: seq<State>, ghost settled: set<State>, ghost settled0: set<State>, current: State, adjacent: seq<State>)
    returns (queue: seq<State>)
    requires costs.Length == 4 * (w * h) && Holding(lines, start, endPos, costs[..], w, h, queue0, settled)
    requires Relaxed(lines, costs[..], w, h, settled0) && Reached(lines, start, current)
    requires forall s :: s in adjacent ==> Step(lines, current, s) && 0 <= s.pos.x < w && 0 <= s.pos.y < h
    modifies costs
    ensures RelaxingByFacing(lines, start, endPos, costs[..], w, h, queue, settled, settled0, old(costs[..]), queue0, adjacent, |adjacent|)
  {
    queue := queue0;
    ghost var initial := costs[..];
    for k := 0 to |adjacent|
      invariant RelaxingByFacing(lines, start, endPos, costs[..], w, h, queue, settled, settled0, initial, queue0, adjacent, k)
    {
      ghost var before, queue1 := costs[..], queue;
      var adj := adjacent[k];
      assert adj in adjacent;
      ReachedBound(lines, start, current);
      CandidateStep(current, adj);
      SlotRoundTrip(w, h, adj.pos, adj.dir, adj.score);
      queue := RelaxOneByFacing(costs, w, queue, adj);
      RelaxStepByFacing(lines, start, endPos, before, costs[..], w, h, queue1, queue, settled, settled0, initial, queue0, adjacent, k, current, adj);
    }
  }

  /** A state whose successors are all relaxed joins the relaxed expanded states. */
  lemma RelaxedAdd(lines: seq<string>, costs: seq<int>, w: int, h: int, settled: set<State>, current: State, adjacent: seq<State>)
    requires Relaxed(lines, costs, w, h, settled) && adjacent == Successors(lines, current)
    requires RelaxedSlots(costs, w, adjacent, |adjacent|)
    requires forall s :: s in adjacent ==> 0 <= s.pos.x < w && 0 <= s.pos.y < h
    ensures Relaxed(lines, costs, w, h, settled + {current})
  {
    forall s, t | s in settled + {current} && t in Successors(lines, s)
      ensures 0 <= t.pos.x < w && 0 <= t.pos.y < h && 0 <= Slot(w, t.pos, t.dir) < |costs| && costs[Slot(w, t.pos, t.dir)] <= t.score
    {
      if s == current {
        var j :| 0 <= j < |adjacent| && adjacent[j] == t;
      }
    }
  }

  /**
   * One round of the facing-keyed search: pop an entry of lowest score, skip it when the
   * recorded cost of its tile and facing is lower, stop with its score at the end tile (then
   * the cheapest), otherwise expand it and relax its successors. A round that does not stop
   * lowers the cost sum or shortens the queue with the costs unchanged.
   */
  method SearchStepByFacing(maze: Grid<char>, ghost lines: seq<string>, costs: array<int>, startPos: Vec2, endPos: Vec2,
                            queue0: seq<State>, ghost settled0: set<State>)
    returns (queue: seq<State>, found: Option<int>, ghost settled: set<State>)
    requires Holds(maze, lines) && costs.Length == 4 * (maze.width * maze.height)
    requires Frontier(lines, startPos, endPos, costs[..], maze.width, maze.height, queue0, settled0) && queue0 != []
    modifies costs
    ensures found.Some? ==> Cheapest(lines, startPos, endPos, found.value)
    ensures found.None? ==> Frontier(lines, startPos, endPos, costs[..], maze.width, maze.height, queue, settled)
    ensures found.None? ==>
              CostSum(costs[..]) < old(CostSum(costs[..])) || (CostSum(costs[..]) == old(CostSum(costs[..])) && |queue| < |queue0|)
  {
    var current, rest := PopMin(queue0);
    queue, settled := rest, settled0;
    var i := Slot(maze.width, current.pos, current.dir);
    if current.score != costs[i] {
      assert current.score > costs[i];
      StaleDropped(costs[..], maze.width, maze.height, queue0, rest, settled0, current);
      return queue, None, settled;
    }
    if current.pos == endPos {
      NoneCheaper(lines, startPos, endPos, costs[..], maze.width, maze.height, queue0, settled0, current.score);
      ReachedBound(lines, startPos, current);
      assert Reached(lines, startPos, State(endPos, current.dir, current.score));
      return queue, Some(current.score), settled;
    }
    settled := settled0 + {current};
    LivePopped(costs[..], maze.width, queue0, rest, settled0, current);
    var adjacent := AdjacentStates(maze, lines, current);
    OnMap(maze, lines, adjacent);
    queue := RelaxByFacing(costs, maze.width, maze.height, lines, startPos, endPos, rest, settled, settled0, current, adjacent);
    RelaxedAdd(lines, costs[..], maze.width, maze.height, settled0, current, adjacent);
    found := None;
  }

  /**
   * `find_cheapest_path` with one recorded cost per tile and facing: out_of_range when the start
   * is off the map, otherwise the cheapest score of a walk from the start to the end tile, or -1
   * when no walk gets there below `INFINITY`.
   */
  method FindCheapestPathByFacing(maze: Grid<char>, ghost lines: seq<string>, startPos: Vec2, endPos: Vec2) returns (r: Result<int>)
    requires Holds(maze, lines)
    ensures r.Err? <==> !maze.PosOnGrid(startPos.x, startPos.y)
    ensures r.Err? ==> r.error == OutOfRange
    ensures r.Ok? ==> Cheapest(lines, startPos, endPos, r.value)
  {
    if !maze.PosOnGrid(startPos.x, startPos.y) {
      return Err(OutOfRange);
    }
    var w, h := maze.width, maze.height;
    RowMajor(w, h, startPos.x, startPos.y);
    var costs := new int[4 * (w * h)](_ => Infinity);
    SlotRoundTrip(w, h, startPos, East, 0);
    costs[Slot(w, startPos, East)] := 0;
    var queue := [State(startPos, East, 0)];
    ghost var settled: set<State> := {};
    ReachedStart(lines, startPos);
    CostSumNonneg(costs[..]);
    while queue != []
      invariant costs.Length == 4 * (w * h)
      invariant Frontier(lines, startPos, endPos, costs[..], w, h, queue, settled)
      invariant CostSum(costs[..]) >= 0
      decreases CostSum(costs[..]), |queue|
    {
      var found;
      queue, found, settled := SearchStepByFacing(maze, lines, costs, startPos, endPos, queue, settled);
      if found.Some? {
        return Ok(found.value);
      }
      CostSumNonneg(costs[..]);
    }
    NoneCheaper(lines, startPos, endPos, costs[..], w, h, queue, settled, Infinity);
    return Ok(-1);
  }

  /**
   * `part_one` with the facing-keyed search: invalid_argument for ragged lines, out_of_range
   * without a start or an end tile; otherwise the cheapest score of a walk from the first start
   * tile to the first end tile, or -1 when there is none below `INFINITY`.
   */
  method PartOne(lines: seq<string>) returns (r: Result<int>)
    ensures r.Err? <==> !Rect(lines) || !HasTile(lines, 'S') || !HasTile(lines, 'E')
    ensures !Rect(lines) ==> r == Err(InvalidArgument)
    ensures Rect(lines) && r.Err? ==> r.error == OutOfRange
    ensures r.Ok? ==> forall s, e :: FirstTile(lines, 'S', s) && FirstTile(lines, 'E', e) ==> Cheapest(lines, s, e, r.value)
  {
    var built := FromLines(lines);
    if built.Err? {
      return Err(built.error);
    }
    var maze := built.value;
    var startPos := FindTile(maze, lines, 'S');
    if startPos.Err? {
      return Err(startPos.error);
    }
    var endPos := FindTile(maze, lines, 'E');
    if endPos.Err? {
      return Err(endPos.error);
    }
    ReadCell(maze, lines, startPos.value);
    r := FindCheapestPathByFacing(maze, lines, startPos.value, endPos.value);
    forall s, e | FirstTile(lines, 'S', s) && FirstTile(lines, 'E', e)
      ensures s == startPos.value && e == endPos.value
    {
      FirstTileUnique(lines, 'S', s, startPos.value);
      FirstTileUnique(lines, 'E', e, endPos.value);
    }
  }

  // ---------------------------------------------------------------------------
  // A maze the tile-keyed search gets wrong
  // ---------------------------------------------------------------------------

  /**
   * The end tile lies west of the start tile and is walled in on its other three sides. The
   * reindeer, facing east, has to loop round the two tiles below and cross the start tile
   * again facing west: a tile-keyed search never lets it back onto the start tile.
   */
  function DeadEnd(): seq<string>
  {
    ["#####",
     "#ES.#",
     "##..#",
     "#####"]
  }

  /**
   * What the proofs below use of a maze shaped like the dead-end maze: rectangular, its one
   * start tile at (2, 1) and its one end tile at (1, 1), the end tile walled in on the other
   * three sides, and open tiles round the block below the start.
   */
  ghost predicate DeadEndShape(lines: seq<string>)
  {
    && Rect(lines)
    && (forall p :: Cell(lines, p) == Some('S') <==> p == Vec2(2, 1))
    && (forall p :: Cell(lines, p) == Some('E') <==> p == Vec2(1, 1))
    && EndWalled(lines) && LoopOpen(lines)
  }

  /** The end tile (1, 1) is walled in to the north, the west and the south. */
  ghost predicate EndWalled(lines: seq<string>)
  {
    !Open(lines, Vec2(1, 0)) && !Open(lines, Vec2(0, 1)) && !Open(lines, Vec2(1, 2))
  }

  /** The tiles of `DeadEndLoop`, from the start (2, 1) round the block below it to the end tile, are open. */
  ghost predicate LoopOpen(lines: seq<string>)
  {
    forall i :: 0 <= i < |DeadEndLoop()| ==> Open(lines, DeadEndLoop()[i].pos)
  }

  lemma DeadEndTiles()
    ensures DeadEndShape(DeadEnd())
  {
    var lines, w := DeadEnd(), DeadEndLoop();
    assert lines[1] == "#ES.#" && lines[2] == "##..#";
    forall i | 0 <= i < |w|
      ensures Open(lines, w[i].pos)
    {
      assert w[i].pos in {Vec2(2, 1), Vec2(2, 2), Vec2(3, 2), Vec2(3, 1), Vec2(1, 1)};
    }
    forall p | Cell(lines, p).Some?
      ensures Cell(lines, p) == Some('S') <==> p == Vec2(2, 1)
      ensures Cell(lines, p) == Some('E') <==> p == Vec2(1, 1)
    {
      assert 0 <= p.y < 4 && 0 <= p.x < 5;
    }
  }

  /** The first move heads north, south or east, so not onto the end tile west of the start. */
  lemma FirstMoveOffEnd(s: State)
    requires s in Candidates(State(Vec2(2, 1), East, 0))
    ensures s.pos != Vec2(1, 1)
  {
    CandidateStep(State(Vec2(2, 1), East, 0), s);
    assert s.dir != Vec2(-1, 0);
  }

  /** The only open tile a unit step onto the end tile can come from is the start tile. */
  lemma WalledEntry(lines: seq<string>, from: Vec2, d: Vec2)
    requires EndWalled(lines) && Manhattan(d) == 1 && Open(lines, from)
    ensures Add(from, d) == Vec2(1, 1) ==> from == Vec2(2, 1)
  {
    UnitCases(d);
  }

  /** No walk from the start that keeps off the start tile ends on the end tile. */
  lemma NoFreshWalkToEnd(lines: seq<string>, walk: seq<State>)
    requires EndWalled(lines)
    requires IsWalk(lines, Vec2(2, 1), walk) && Fresh(Vec2(2, 1), walk)
    ensures walk[|walk| - 1].pos != Vec2(1, 1)
  {
    var start := Vec2(2, 1);
    if |walk| > 1 {
      var init := walk[..|walk| - 1];
      var p, s := walk[|walk| - 2], walk[|walk| - 1];
      assert p == init[|init| - 1] && Step(lines, p, s);
      WalkBound(lines, start, init);
      if |walk| == 2 {
        assert p == State(start, East, 0);
        FirstMoveOffEnd(s);
      } else {
        assert Step(lines, init[|init| - 2], p);
        assert p == walk[|walk| - 2] && p.pos != start;
        CandidateStep(p, s);
        WalledEntry(lines, p.pos, s.dir);
      }
    }
  }

  /** Hence no state on the end tile is reached without coming back to the start tile. */
  lemma DeadEndUnreachedFresh(lines: seq<string>)
    requires DeadEndShape(lines)
    ensures forall s, e, d, v :: Cell(lines, s) == Some('S') && Cell(lines, e) == Some('E') ==> !ReachedFresh(lines, s, State(e, d, v))
  {
    forall s, e, d, v | Cell(lines, s) == Some('S') && Cell(lines, e) == Some('E')
      ensures !ReachedFresh(lines, s, State(e, d, v))
    {
      forall walk | IsWalk(lines, s, walk) && Fresh(s, walk)
        ensures walk[|walk| - 1] != State(e, d, v)
      {
        NoFreshWalkToEnd(lines, walk);
      }
    }
  }

  /** The moves of the loop: turn south off the start, then three left turns, then a step west onto the end tile. */
  function DeadEndLoop(): seq<State>
  {
    [State(Vec2(2, 1), East, 0),
     State(Vec2(2, 2), Vec2(0, 1), 1001),
     State(Vec2(3, 2), Vec2(1, 0), 2002),
     State(Vec2(3, 1), Vec2(0, -1), 3003),
     State(Vec2(2, 1), Vec2(-1, 0), 4004),
     State(Vec2(1, 1), Vec2(-1, 0), 4005)]
  }

  /** Each state of the loop is a candidate successor of the one before. */
  lemma DeadEndMoves()
    ensures forall i :: 0 < i < |DeadEndLoop()| ==> DeadEndLoop()[i] in Candidates(DeadEndLoop()[i - 1])
  {
    var w := DeadEndLoop();
    assert w[1] == State(Add(w[0].pos, PerpRight(w[0].dir)), PerpRight(w[0].dir), w[0].score + TurnCost + ForwardCost);
    RightMove(w[0]);
    forall i | 2 <= i <= 4
      ensures w[i] in Candidates(w[i - 1])
    {
      assert w[i] == State(Add(w[i - 1].pos, PerpLeft(w[i - 1].dir)), PerpLeft(w[i - 1].dir), w[i - 1].score + TurnCost + ForwardCost);
      LeftMove(w[i - 1]);
    }
    assert w[5] == State(Add(w[4].pos, w[4].dir), w[4].dir, w[4].score + ForwardCost);
    ForwardMove(w[4]);
  }

  /** Yet a walk of four turns and five steps, crossing the start tile facing west, reaches the end tile. */
  lemma DeadEndReached(lines: seq<string>)
    requires LoopOpen(lines)
    ensures Reached(lines, Vec2(2, 1), State(Vec2(1, 1), Vec2(-1, 0), 4005))
  {
    var start, w := Vec2(2, 1), DeadEndLoop();
    DeadEndMoves();
    ReachedStart(lines, start);
    for i := 1 to |w|
      invariant Reached(lines, start, w[i - 1])
    {
      ReachedStep(lines, start, w[i - 1], w[i]);
    }
  }

  /** `part_one` as written answers -1 on the dead-end maze, although a walk reaches the end tile. */
  method DeadEndAsWritten() returns (r: Result<int>)
    ensures r == Ok(-1)
  {
    DeadEndTiles();
    DeadEndUnreachedFresh(DeadEnd());
    assert FirstTile(DeadEnd(), 'S', Vec2(2, 1)) && FirstTile(DeadEnd(), 'E', Vec2(1, 1));
    r := PartOneAsWritten(DeadEnd());
  }

  /** `part_one` with the facing-keyed search finds a walk on the dead-end maze, no dearer than the one above. */
  method DeadEndByFacing() returns (r: Result<int>)
    ensures r.Ok? && 0 <= r.value <= 4005
  {
    var lines := DeadEnd();
    DeadEndTiles();
    DeadEndReached(lines);
    assert FirstTile(lines, 'S', Vec2(2, 1)) && FirstTile(lines, 'E', Vec2(1, 1));
    r := PartOne(lines);
    assert Cheapest(lines, Vec2(2, 1), Vec2(1, 1), r.value);
    ghost var d :| Reached(lines, Vec2(2, 1), State(Vec2(1, 1), d, r.value));
    ReachedBound(lines, Vec2(2, 1), State(Vec2(1, 1), d, r.value));
  }
}
