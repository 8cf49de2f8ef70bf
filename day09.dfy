/**
 * Day 9 (day-09/day-09.cpp): the disk map is a line of digits that alternate
 * between the size of a file and the size of a gap.  Part one builds the
 * ranges of the disk, moves file blocks from the last occupied range into the
 * first free range until no free range lies before an occupied one, and sums
 * id times position over all file blocks.
 *
 * The `std::set<IDRange>` compares ranges by their start alone.  It is modelled
 * as a sequence sorted by start: `SetInsert` leaves the sequence alone when a
 * range with the same start is present, `SetErase` removes the range with the
 * start of its argument, and the set's iteration order is the sequence order.
 */
module Day09 {
  import opened Wrappers
  import opened AocIo
  import Grids

  /** `IDRange::ID_FREE`: the id of a gap. */
  const Free: int := -1

  /** `IDRange`: `size` blocks from `start` on, holding file `id` or free. */
  datatype IdRange = IdRange(id: int, start: int, size: int)

  /** The first block after the range. */
  function End(r: IdRange): int
  {
    r.start + r.size
  }

  // ---------------------------------------------------------------------------
  // The set of ranges
  // ---------------------------------------------------------------------------

  /** Every range starts below key. */
  predicate Below(s: seq<IdRange>, key: int)
  {
    forall i :: 0 <= i < |s| ==> s[i].start < key
  }

  /** Every range starts above key. */
  predicate Above(s: seq<IdRange>, key: int)
  {
    forall i :: 0 <= i < |s| ==> s[i].start > key
  }

  /** The ranges of a disk in set order: non-empty, from block 0 on, each ending before the next starts. */
  predicate Tidy(rs: seq<IdRange>)
  {
    (forall i :: 0 <= i < |rs| ==> 0 <= rs[i].start && 0 < rs[i].size) &&
    (forall i, j :: 0 <= i < j < |rs| ==> End(rs[i]) <= rs[j].start)
  }

  /** `id_ranges.insert(r)`: in start order, and no change when a range with r's start is present. */
  function SetInsert(rs: seq<IdRange>, r: IdRange): seq<IdRange>
  {
    if rs == [] then [r]
    else if r.start < rs[0].start then [r] + rs
    else if r.start == rs[0].start then rs
    else [rs[0]] + SetInsert(rs[1..], r)
  }

  /** `id_ranges.erase(r)`: removes the range with r's start. */
  function SetErase(rs: seq<IdRange>, r: IdRange): seq<IdRange>
  {
    if rs == [] then []
    else if rs[0].start == r.start then rs[1..]
    else [rs[0]] + SetErase(rs[1..], r)
  }

  /** Inserting between the ranges that start before and after r puts r there. */
  lemma {:induction false} InsertBetween(p: seq<IdRange>, t: seq<IdRange>, r: IdRange)
    requires Below(p, r.start) && Above(t, r.start)
    ensures SetInsert(p + t, r) == p + [r] + t
  {
    if p == [] {
      assert p + t == t;
    } else {
      assert (p + t)[1..] == p[1..] + t;
      InsertBetween(p[1..], t, r);
      assert p + [r] + t == [p[0]] + (p[1..] + [r] + t);
    }
  }

  /** A range whose start is taken is not inserted: the set holds one range per start. */
  lemma {:induction false} InsertTaken(p: seq<IdRange>, x: IdRange, t: seq<IdRange>, r: IdRange)
    requires Below(p, r.start) && x.start == r.start
    ensures SetInsert(p + [x] + t, r) == p + [x] + t
  {
    if p != [] {
      assert (p + [x] + t)[1..] == p[1..] + [x] + t;
      InsertTaken(p[1..], x, t, r);
      assert p + [x] + t == [p[0]] + (p[1..] + [x] + t);
    }
  }

  /** Erasing removes exactly the range with the key's start. */
  lemma {:induction false} EraseAt(p: seq<IdRange>, x: IdRange, t: seq<IdRange>, r: IdRange)
    requires Below(p, r.start) && x.start == r.start
    ensures SetErase(p + [x] + t, r) == p + t
  {
    if p == [] {
      assert (p + [x] + t)[1..] == t;
    } else {
      assert (p + [x] + t)[1..] == p[1..] + [x] + t;
      EraseAt(p[1..], x, t, r);
      assert p + t == [p[0]] + (p[1..] + t);
    }
  }

  /** A slice of tidy ranges is tidy. */
  lemma TidySlice(rs: seq<IdRange>, lo: int, hi: int)
    requires Tidy(rs) && 0 <= lo <= hi <= |rs|
    ensures Tidy(rs[lo..hi])
  {
    forall i, j | 0 <= i < j < hi - lo ensures End(rs[lo..hi][i]) <= rs[lo..hi][j].start {
      assert rs[lo..hi][i] == rs[lo + i] && rs[lo..hi][j] == rs[lo + j];
    }
  }

  // ---------------------------------------------------------------------------
  // Block counts and the position weight
  // ---------------------------------------------------------------------------

  /** What is counted over the ranges: the blocks of one file, or the blocks' positions. */
  datatype Measure = Blocks(id: int) | Moments

  function Val(r: IdRange, m: Measure): int
  {
    match m
    case Blocks(id) => if r.id == id then r.size else 0
    case Moments => if r.id != Free then r.start * r.size else 0
  }

  function Tally(rs: seq<IdRange>, m: Measure): int
  {
    if rs == [] then 0 else Tally(rs[..|rs| - 1], m) + Val(rs[|rs| - 1], m)
  }

  /** The number of blocks of file id. */
  function Mass(rs: seq<IdRange>, id: int): int
  {
    Tally(rs, Blocks(id))
  }

  /** The sum of start times size over the occupied ranges; it falls with every move. */
  function Weight(rs: seq<IdRange>): int
  {
    Tally(rs, Moments)
  }

  lemma {:induction false} TallyConcat(a: seq<IdRange>, b: seq<IdRange>, m: Measure)
    ensures Tally(a + b, m) == Tally(a, m) + Tally(b, m)
    decreases |b|
  {
    if b == [] {
      assert a + b == a;
    } else {
      assert (a + b)[..|a + b| - 1] == a + b[..|b| - 1];
      TallyConcat(a, b[..|b| - 1], m);
    }
  }

  lemma {:induction false} WeightNonNegative(rs: seq<IdRange>)
    requires Tidy(rs)
    ensures Weight(rs) >= 0
  {
    if rs != [] {
      TidySlice(rs, 0, |rs| - 1);
      WeightNonNegative(rs[..|rs| - 1]);
      var last := rs[|rs| - 1];
      assert last.start * last.size >= 0;
    }
  }

  // ---------------------------------------------------------------------------
  // One move
  // ---------------------------------------------------------------------------

  /** `new_occupied` and `new_free` of the three cases; a size of 0 means "not inserted". */
  function NewRanges(free: IdRange, occupied: IdRange): (IdRange, IdRange)
  {
    if free.size < occupied.size then
      (occupied.(size := occupied.size - free.size), free.(id := occupied.id))
    else if occupied.size < free.size then
      (IdRange(occupied.id, free.start, occupied.size), IdRange(Free, free.start + occupied.size, free.size - occupied.size))
    else
      (free.(id := occupied.id), IdRange(0, 0, 0))
  }

  /** The two inserts of a round: `new_free`, then `new_occupied`, each only when non-empty. */
  function Reinsert(rs: seq<IdRange>, newOccupied: IdRange, newFree: IdRange): seq<IdRange>
  {
    var withFree := if newFree.size != 0 then SetInsert(rs, newFree) else rs;
    if newOccupied.size != 0 then SetInsert(withFree, newOccupied) else withFree
  }

  /**
   * One round of the loop: with the free range at fi and the occupied range
   * at oi, erase both and insert what is left of them.
   */
  function Round(rs: seq<IdRange>, fi: nat, oi: nat): seq<IdRange>
    requires fi < |rs| && oi < |rs|
  {
    var (newOccupied, newFree) := NewRanges(rs[fi], rs[oi]);
    Reinsert(SetErase(SetErase(rs, rs[fi]), rs[oi]), newOccupied, newFree)
  }

  /** The conditions under which the loop makes a move. */
  predicate Movable(rs: seq<IdRange>, fi: nat, oi: nat)
  {
    fi < |rs| && oi < |rs| && rs[fi].id == Free && rs[oi].id != Free && End(rs[fi]) <= rs[oi].start
  }

  /** Below and Above carry over to concatenations. */
  lemma BoundsConcat(a: seq<IdRange>, b: seq<IdRange>, key: int)
    ensures Below(a, key) && Below(b, key) ==> Below(a + b, key)
    ensures Above(a, key) && Above(b, key) ==> Above(a + b, key)
  {
  }

  /** Every range ends by block k. */
  predicate EndsBy(s: seq<IdRange>, k: int)
  {
    forall i :: 0 <= i < |s| ==> End(s[i]) <= k
  }

  /** Every range starts at block k or later. */
  predicate StartsFrom(s: seq<IdRange>, k: int)
  {
    forall i :: 0 <= i < |s| ==> s[i].start >= k
  }

  /** Tidy runs separated by block k make a tidy run. */
  lemma TidyConcat(a: seq<IdRange>, b: seq<IdRange>, k: int)
    requires Tidy(a) && Tidy(b) && EndsBy(a, k) && StartsFrom(b, k)
    ensures Tidy(a + b)
  {
    forall i, j | 0 <= i < j < |a + b| ensures End((a + b)[i]) <= (a + b)[j].start {
      if i < |a| && |a| <= j {
        assert End(a[i]) <= k <= b[j - |a|].start;
      }
    }
  }

  /** Five tidy runs, each ending before the next starts, make a tidy run. */
  lemma TidyFive(a: seq<IdRange>, b: seq<IdRange>, c: seq<IdRange>, d: seq<IdRange>, e: seq<IdRange>, k1: int, k2: int, k3: int, k4: int)
    requires Tidy(a) && Tidy(b) && Tidy(c) && Tidy(d) && Tidy(e)
    requires EndsBy(a, k1) && StartsFrom(b, k1) && EndsBy(b, k2) && StartsFrom(c, k2)
    requires EndsBy(c, k3) && StartsFrom(d, k3) && EndsBy(d, k4) && StartsFrom(e, k4)
    requires k1 <= k2 <= k3 <= k4
    ensures Tidy(a + b + c + d + e)
  {
    TidyConcat(a, b, k1);
    assert EndsBy(a + b, k2);
    TidyConcat(a + b, c, k2);
    assert EndsBy(a + b + c, k3);
    TidyConcat(a + b + c, d, k3);
    assert EndsBy(a + b + c + d, k4);
    TidyConcat(a + b + c + d, e, k4);
  }

  /** The ranges around the free and the occupied range, and the blocks that separate them. */
  lemma Pieces(rs: seq<IdRange>, fi: nat, oi: nat)
    requires Tidy(rs) && Movable(rs, fi, oi)
    ensures fi < oi
    ensures rs == rs[..fi] + [rs[fi]] + rs[fi + 1..oi] + [rs[oi]] + rs[oi + 1..]
    ensures Around(rs[..fi], rs[fi], rs[fi + 1..oi], rs[oi], rs[oi + 1..])
    ensures EndsBy(rs[..fi], rs[fi].start) && EndsBy(rs[fi + 1..oi], rs[oi].start)
    ensures Tidy(rs[..fi]) && Tidy(rs[fi + 1..oi]) && Tidy(rs[oi + 1..])
  {
    assert rs == rs[..fi] + [rs[fi]] + rs[fi + 1..oi] + [rs[oi]] + rs[oi + 1..];
    TidySlice(rs, 0, fi);
    TidySlice(rs, fi + 1, oi);
    TidySlice(rs, oi + 1, |rs|);
  }

  /** Erasing the free and then the occupied range leaves the ranges around them. */
  lemma EraseBoth(p: seq<IdRange>, free: IdRange, q: seq<IdRange>, occupied: IdRange, t: seq<IdRange>)
    requires Around(p, free, q, occupied, t)
    ensures SetErase(SetErase(p + [free] + q + [occupied] + t, free), occupied) == p + q + t
  {
    assert p + [free] + q + [occupied] + t == p + [free] + (q + [occupied] + t);
    EraseAt(p, free, q + [occupied] + t, free);
    assert p + (q + [occupied] + t) == (p + q) + [occupied] + t;
    BoundsConcat(p, q, occupied.start);
    EraseAt(p + q, occupied, t, occupied);
  }

  /** What a move leaves between the ranges before and after the free range. */
  function Middle(free: IdRange, occupied: IdRange): seq<IdRange>
  {
    if free.size < occupied.size then [free.(id := occupied.id)]
    else if occupied.size < free.size then [IdRange(occupied.id, free.start, occupied.size), IdRange(Free, free.start + occupied.size, free.size - occupied.size)]
    else [free.(id := occupied.id)]
  }

  /** What a move leaves where the occupied range was. */
  function Rest(free: IdRange, occupied: IdRange): seq<IdRange>
  {
    if free.size < occupied.size then [occupied.(size := occupied.size - free.size)] else []
  }

  /** p lies before the free range, q between it and the occupied range, t after the occupied range. */
  predicate Around(p: seq<IdRange>, free: IdRange, q: seq<IdRange>, occupied: IdRange, t: seq<IdRange>)
  {
    Below(p, free.start) && StartsFrom(q, End(free)) && Below(q, occupied.start) && StartsFrom(t, End(occupied)) &&
    0 <= free.start && 0 < free.size && 0 < occupied.size && End(free) <= occupied.start
  }

  lemma InsertShrunk(p: seq<IdRange>, free: IdRange, q: seq<IdRange>, occupied: IdRange, t: seq<IdRange>)
    requires Around(p, free, q, occupied, t) && free.size < occupied.size
    ensures Reinsert(p + q + t, NewRanges(free, occupied).0, NewRanges(free, occupied).1)
              == p + Middle(free, occupied) + q + Rest(free, occupied) + t
  {
    var nf := free.(id := occupied.id);
    var no := occupied.(size := occupied.size - free.size);
    assert Above(q, free.start) && Above(t, free.start);
    BoundsConcat(q, t, free.start);
    assert p + q + t == p + (q + t);
    InsertBetween(p, q + t, nf);
    assert p + [nf] + (q + t) == (p + [nf] + q) + t;
    assert Below(p, occupied.start) && Below([nf], occupied.start);
    BoundsConcat(p, [nf], occupied.start);
    BoundsConcat(p + [nf], q, occupied.start);
    assert Above(t, occupied.start);
    InsertBetween(p + [nf] + q, t, no);
  }

  lemma InsertSplit(p: seq<IdRange>, free: IdRange, q: seq<IdRange>, occupied: IdRange, t: seq<IdRange>)
    requires Around(p, free, q, occupied, t) && occupied.size < free.size
    ensures Reinsert(p + q + t, NewRanges(free, occupied).0, NewRanges(free, occupied).1)
              == p + Middle(free, occupied) + q + Rest(free, occupied) + t
  {
    var no := IdRange(occupied.id, free.start, occupied.size);
    var nf := IdRange(Free, free.start + occupied.size, free.size - occupied.size);
    assert NewRanges(free, occupied) == (no, nf);
    var qt := q + t;
    assert Above(q, nf.start) && Above(t, nf.start);
    BoundsConcat(q, t, nf.start);
    assert p + q + t == p + qt;
    InsertBetween(p, qt, nf);
    var tail := [nf] + qt;
    assert Above(tail, no.start);
    assert p + [nf] + qt == p + tail;
    InsertBetween(p, tail, no);
    assert Middle(free, occupied) == [no, nf] && Rest(free, occupied) == [];
    assert p + [no] + tail == p + [no, nf] + q + [] + t;
  }

  lemma InsertRelabelled(p: seq<IdRange>, free: IdRange, q: seq<IdRange>, occupied: IdRange, t: seq<IdRange>)
    requires Around(p, free, q, occupied, t) && occupied.size == free.size
    ensures Reinsert(p + q + t, NewRanges(free, occupied).0, NewRanges(free, occupied).1)
              == p + Middle(free, occupied) + q + Rest(free, occupied) + t
  {
    var no := free.(id := occupied.id);
    assert Above(q, free.start) && Above(t, free.start);
    BoundsConcat(q, t, free.start);
    assert p + q + t == p + (q + t);
    InsertBetween(p, q + t, no);
    assert p + [no] + (q + t) == p + [no] + q + [] + t;
  }

  /** A move replaces the free range by Middle and the occupied range by Rest. */
  lemma RoundShape(rs: seq<IdRange>, fi: nat, oi: nat)
    requires Tidy(rs) && Movable(rs, fi, oi)
    ensures fi < oi
    ensures Round(rs, fi, oi) == rs[..fi] + Middle(rs[fi], rs[oi]) + rs[fi + 1..oi] + Rest(rs[fi], rs[oi]) + rs[oi + 1..]
  {
    Pieces(rs, fi, oi);
    var p, free, q, occupied, t := rs[..fi], rs[fi], rs[fi + 1..oi], rs[oi], rs[oi + 1..];
    EraseBoth(p, free, q, occupied, t);
    assert SetErase(SetErase(rs, free), occupied) == p + q + t;
    if free.size < occupied.size {
      InsertShrunk(p, free, q, occupied, t);
    } else if occupied.size < free.size {
      InsertSplit(p, free, q, occupied, t);
    } else {
      InsertRelabelled(p, free, q, occupied, t);
    }
  }

  lemma TallyFive(a: seq<IdRange>, b: seq<IdRange>, c: seq<IdRange>, d: seq<IdRange>, e: seq<IdRange>, m: Measure)
    ensures Tally(a + b + c + d + e, m) == Tally(a, m) + Tally(b, m) + Tally(c, m) + Tally(d, m) + Tally(e, m)
  {
    TallyConcat(a, b, m);
    TallyConcat(a + b, c, m);
    TallyConcat(a + b + c, d, m);
    TallyConcat(a + b + c + d, e, m);
  }

  lemma TallyPair(x: IdRange, y: IdRange, m: Measure)
    ensures Tally([x], m) == Val(x, m)
    ensures Tally([x, y], m) == Val(x, m) + Val(y, m)
  {
    assert [x, y][..1] == [x];
  }

  /** Middle and Rest are tidy and stay within the free and the occupied range. */
  lemma MovedTidy(free: IdRange, occupied: IdRange)
    requires 0 <= free.start && 0 < free.size && 0 < occupied.size && End(free) <= occupied.start
    ensures Tidy(Middle(free, occupied)) && StartsFrom(Middle(free, occupied), free.start) && EndsBy(Middle(free, occupied), End(free))
    ensures Tidy(Rest(free, occupied)) && StartsFrom(Rest(free, occupied), occupied.start) && EndsBy(Rest(free, occupied), End(occupied))
  {
  }

  /** The ranges a move leaves are tidy. */
  lemma RoundTidy(rs: seq<IdRange>, fi: nat, oi: nat)
    requires Tidy(rs) && Movable(rs, fi, oi)
    ensures Tidy(Round(rs, fi, oi))
  {
    Pieces(rs, fi, oi);
    RoundShape(rs, fi, oi);
    var free, occupied := rs[fi], rs[oi];
    MovedTidy(free, occupied);
    TidyFive(rs[..fi], Middle(free, occupied), rs[fi + 1..oi], Rest(free, occupied), rs[oi + 1..],
             free.start, End(free), occupied.start, End(occupied));
  }

  /** A move changes a tally by what Middle and Rest count instead of the two ranges. */
  lemma RoundTally(rs: seq<IdRange>, fi: nat, oi: nat, m: Measure)
    requires Tidy(rs) && Movable(rs, fi, oi)
    ensures Tally(Round(rs, fi, oi), m) == Tally(rs, m) - Val(rs[fi], m) - Val(rs[oi], m)
              + Tally(Middle(rs[fi], rs[oi]), m) + Tally(Rest(rs[fi], rs[oi]), m)
  {
    Pieces(rs, fi, oi);
    RoundShape(rs, fi, oi);
    var p, q, t := rs[..fi], rs[fi + 1..oi], rs[oi + 1..];
    TallyFive(p, Middle(rs[fi], rs[oi]), q, Rest(rs[fi], rs[oi]), t, m);
    TallyFive(p, [rs[fi]], q, [rs[oi]], t, m);
    TallyPair(rs[fi], rs[oi], m);
    TallyPair(rs[oi], rs[fi], m);
  }

  /** Middle and Rest hold the blocks the two ranges held, for every file. */
  lemma MovedMass(free: IdRange, occupied: IdRange, id: int)
    requires free.id == Free && occupied.id != Free && id != Free
    requires 0 < free.size && 0 < occupied.size
    ensures Mass(Middle(free, occupied), id) + Mass(Rest(free, occupied), id) == Val(occupied, Blocks(id))
  {
    var mid := Middle(free, occupied);
    TallyPair(mid[0], if |mid| == 2 then mid[1] else mid[0], Blocks(id));
    TallyPair(occupied, occupied, Blocks(id));
    if |mid| == 2 {
      assert mid == [mid[0], mid[1]];
    }
  }

  /** Middle and Rest weigh less than the occupied range did, since its blocks move left. */
  lemma MovedWeight(free: IdRange, occupied: IdRange)
    requires free.id == Free && occupied.id != Free
    requires 0 <= free.start && 0 < free.size && 0 < occupied.size && End(free) <= occupied.start
    ensures Weight(Middle(free, occupied)) + Weight(Rest(free, occupied)) < Val(occupied, Moments)
  {
    var mid := Middle(free, occupied);
    TallyPair(mid[0], if |mid| == 2 then mid[1] else mid[0], Moments);
    TallyPair(occupied, occupied, Moments);
    if |mid| == 2 {
      assert mid == [mid[0], mid[1]];
    }
    assert (free.start - occupied.start) * occupied.size < 0;
    assert (free.start - occupied.start) * free.size < 0;
  }

  /** A move keeps every file's block count. */
  lemma RoundMass(rs: seq<IdRange>, fi: nat, oi: nat, id: int)
    requires Tidy(rs) && Movable(rs, fi, oi) && id != Free
    ensures Mass(Round(rs, fi, oi), id) == Mass(rs, id)
  {
    RoundTally(rs, fi, oi, Blocks(id));
    MovedMass(rs[fi], rs[oi], id);
  }

  /** A move keeps the ranges tidy, keeps every file's block count, and lowers the weight. */
  lemma RoundKeeps(rs: seq<IdRange>, fi: nat, oi: nat)
    requires Tidy(rs) && Movable(rs, fi, oi)
    ensures Tidy(Round(rs, fi, oi))
    ensures forall id :: id != Free ==> Mass(Round(rs, fi, oi), id) == Mass(rs, id)
    ensures 0 <= Weight(Round(rs, fi, oi)) < Weight(rs)
  {
    RoundTidy(rs, fi, oi);
    forall id | id != Free ensures Mass(Round(rs, fi, oi), id) == Mass(rs, id) {
      RoundMass(rs, fi, oi, id);
    }
    RoundTally(rs, fi, oi, Moments);
    MovedWeight(rs[fi], rs[oi]);
    WeightNonNegative(Round(rs, fi, oi));
  }

  // ---------------------------------------------------------------------------
  // The compaction
  // ---------------------------------------------------------------------------

  /** `find_first_free` from index from on: the first free range in set order. */
  function FirstFree(rs: seq<IdRange>, from: nat): (r: Option<nat>)
    ensures r.Some? ==> from <= r.value < |rs|
    decreases |rs| - from
  {
    if from >= |rs| then None
    else if rs[from].id == Free then Some(from)
    else FirstFree(rs, from + 1)
  }

  /** `find_last_occupied` below index upTo: the last occupied range in set order. */
  function LastOccupied(rs: seq<IdRange>, upTo: nat): (r: Option<nat>)
    requires upTo <= |rs|
    ensures r.Some? ==> r.value < upTo
  {
    if upTo == 0 then None
    else if rs[upTo - 1].id != Free then Some(upTo - 1)
    else LastOccupied(rs, upTo - 1)
  }

  lemma {:induction false} FirstFreeIs(rs: seq<IdRange>, from: nat)
    ensures FirstFree(rs, from).Some? ==> rs[FirstFree(rs, from).value].id == Free
    ensures forall i :: from <= i < |rs| && (FirstFree(rs, from).None? || i < FirstFree(rs, from).value) ==> rs[i].id != Free
    decreases |rs| - from
  {
    if from < |rs| && rs[from].id != Free {
      FirstFreeIs(rs, from + 1);
    }
  }

  lemma {:induction false} LastOccupiedIs(rs: seq<IdRange>, upTo: nat)
    requires upTo <= |rs|
    ensures LastOccupied(rs, upTo).Some? ==> rs[LastOccupied(rs, upTo).value].id != Free
    ensures forall i :: 0 <= i < upTo && (LastOccupied(rs, upTo).None? || i > LastOccupied(rs, upTo).value) ==> rs[i].id == Free
  {
    if upTo > 0 && rs[upTo - 1].id == Free {
      LastOccupiedIs(rs, upTo - 1);
    }
  }

  /** The compaction: moves until no free range ends at or before the last occupied range's start. */
  ghost function CompactOf(rs: seq<IdRange>): seq<IdRange>
    requires Tidy(rs)
    decreases Weight(rs)
  {
    var f := FirstFree(rs, 0);
    var o := LastOccupied(rs, |rs|);
    if f.None? || o.None? || End(rs[f.value]) > rs[o.value].start then rs
    else
      FirstFreeIs(rs, 0);
      LastOccupiedIs(rs, |rs|);
      RoundKeeps(rs, f.value, o.value);
      CompactOf(Round(rs, f.value, o.value))
  }

  /** Every occupied range comes before every free range. */
  predicate Compacted(rs: seq<IdRange>)
  {
    forall i, j :: 0 <= i < |rs| && 0 <= j < |rs| && rs[i].id != Free && rs[j].id == Free ==> i < j
  }

  /** When the loop stops, the occupied ranges all precede the free ones. */
  lemma Stops(rs: seq<IdRange>)
    requires Tidy(rs)
    requires var f, o := FirstFree(rs, 0), LastOccupied(rs, |rs|); f.None? || o.None? || End(rs[f.value]) > rs[o.value].start
    ensures Compacted(rs)
  {
    FirstFreeIs(rs, 0);
    LastOccupiedIs(rs, |rs|);
  }

  /** The compaction keeps every file's blocks and the ranges tidy, and leaves the files before the gaps. */
  lemma {:induction false} CompactKeeps(rs: seq<IdRange>)
    requires Tidy(rs)
    ensures Tidy(CompactOf(rs)) && Compacted(CompactOf(rs))
    ensures forall id :: id != Free ==> Mass(CompactOf(rs), id) == Mass(rs, id)
    decreases Weight(rs)
  {
    var f := FirstFree(rs, 0);
    var o := LastOccupied(rs, |rs|);
    if f.None? || o.None? || End(rs[f.value]) > rs[o.value].start {
      Stops(rs);
    } else {
      FirstFreeIs(rs, 0);
      LastOccupiedIs(rs, |rs|);
      RoundKeeps(rs, f.value, o.value);
      CompactKeeps(Round(rs, f.value, o.value));
    }
  }

  /** The body of the loop: the new ranges by the three cases, then two erases and up to two inserts. */
  method Move(rs: seq<IdRange>, fi: nat, oi: nat) returns (moved: seq<IdRange>)
    requires fi < |rs| && oi < |rs|
    ensures moved == Round(rs, fi, oi)
  {
    var free := rs[fi];
    var occupied := rs[oi];
    var newOccupied := IdRange(0, 0, 0);
    var newFree := IdRange(0, 0, 0);
    if free.size < occupied.size {
      newOccupied := occupied.(size := occupied.size - free.size);
      newFree := free.(id := occupied.id);
    } else if occupied.size < free.size {
      newOccupied := IdRange(occupied.id, free.start, occupied.size);
      newFree := IdRange(Free, newOccupied.start + newOccupied.size, free.size - occupied.size);
    } else {
      newOccupied := free.(id := occupied.id);
    }
    assert (newOccupied, newFree) == NewRanges(free, occupied);
    moved := SetErase(rs, free);
    moved := SetErase(moved, occupied);
    if newFree.size != 0 {
      moved := SetInsert(moved, newFree);
    }
    if newOccupied.size != 0 {
      moved := SetInsert(moved, newOccupied);
    }
  }

  /** The loop of `part_one` over the set: erases and inserts until the condition of the break holds. */
  method Compact(ranges: seq<IdRange>) returns (rs: seq<IdRange>)
    requires Tidy(ranges)
    ensures rs == CompactOf(ranges)
  {
    rs := ranges;
    var freeIdx := FirstFree(rs, 0);
    var occupiedIdx := LastOccupied(rs, |rs|);
    var stop := false;
    WeightNonNegative(rs);
    while !stop && freeIdx.Some? && occupiedIdx.Some?
      invariant Tidy(rs) && CompactOf(rs) == CompactOf(ranges) && Weight(rs) >= 0
      invariant freeIdx == FirstFree(rs, 0) && occupiedIdx == LastOccupied(rs, |rs|)
      invariant stop ==> freeIdx.Some? && occupiedIdx.Some? && End(rs[freeIdx.value]) > rs[occupiedIdx.value].start
      decreases Weight(rs), !stop
    {
      var free := rs[freeIdx.value];
      var occupied := rs[occupiedIdx.value];
      if free.start + free.size > occupied.start {
        stop := true;
      } else {
        FirstFreeIs(rs, 0);
        LastOccupiedIs(rs, |rs|);
        RoundKeeps(rs, freeIdx.value, occupiedIdx.value);
        rs := Move(rs, freeIdx.value, occupiedIdx.value);
        freeIdx := FirstFree(rs, 0);
        occupiedIdx := LastOccupied(rs, |rs|);
      }
    }
  }

  // ---------------------------------------------------------------------------
  // Building the ranges
  // ---------------------------------------------------------------------------

  /** The ranges of digits i onwards, the first starting at block start; empty ones are left out. */
  function Layout(disk: seq<int>, i: nat, start: int): seq<IdRange>
    decreases |disk| - i
  {
    if i >= |disk| then []
    else
      var r := IdRange(if i % 2 == 1 then Free else i / 2, start, disk[i]);
      (if disk[i] != 0 then [r] else []) + Layout(disk, i + 1, start + disk[i])
  }

  predicate Digits(disk: seq<int>)
  {
    forall k :: 0 <= k < |disk| ==> 0 <= disk[k] <= 9
  }

  lemma {:induction false} LayoutTidy(disk: seq<int>, i: nat, start: int)
    requires Digits(disk) && start >= 0
    ensures Tidy(Layout(disk, i, start))
    ensures StartsFrom(Layout(disk, i, start), start)
    decreases |disk| - i
  {
    if i < |disk| {
      LayoutTidy(disk, i + 1, start + disk[i]);
      var rest := Layout(disk, i + 1, start + disk[i]);
      if disk[i] != 0 {
        var r := IdRange(if i % 2 == 1 then Free else i / 2, start, disk[i]);
        TidyConcat([r], rest, start + disk[i]);
      }
    }
  }

  /** File id has exactly the blocks its digit, the one at 2 * id, gives it. */
  lemma {:induction false} LayoutMass(disk: seq<int>, i: nat, start: int, id: int)
    requires id >= 0
    ensures Mass(Layout(disk, i, start), id) == if i <= 2 * id < |disk| then disk[2 * id] else 0
    decreases |disk| - i
  {
    if i < |disk| {
      LayoutMass(disk, i + 1, start + disk[i], id);
      var r := IdRange(if i % 2 == 1 then Free else i / 2, start, disk[i]);
      var head := if disk[i] != 0 then [r] else [];
      TallyConcat(head, Layout(disk, i + 1, start + disk[i]), Blocks(id));
      if head != [] {
        assert Tally(head, Blocks(id)) == Val(r, Blocks(id));
      }
    }
  }

  /** The loop of `part_one` that turns the digits into ranges and inserts the non-empty ones. */
  method BuildRanges(disk: seq<int>) returns (rs: seq<IdRange>)
    requires Digits(disk)
    ensures rs == Layout(disk, 0, 0)
  {
    rs := [];
    var rangeStart := 0;
    for i := 0 to |disk|
      invariant rs + Layout(disk, i, rangeStart) == Layout(disk, 0, 0)
      invariant Below(rs, rangeStart) && rangeStart >= 0
    {
      var id := i / 2;
      id := if i % 2 == 1 then Free else id;
      var range := IdRange(id, rangeStart, disk[i]);
      if range.size != 0 {
        InsertBetween(rs, [], range);
        assert rs + [] == rs;
        rs := SetInsert(rs, range);
      }
      assert rs + Layout(disk, i + 1, rangeStart + range.size) == Layout(disk, 0, 0);
      rangeStart := rangeStart + range.size;
    }
  }

  // ---------------------------------------------------------------------------
  // The checksum
  // ---------------------------------------------------------------------------

  /** `sum_of_first_n`: 1 + 2 + ... + n, and 0 for n <= 0. */
  function SumOfFirstN(n: int): int
  {
    if n <= 0 then 0 else n * (n + 1) / 2
  }

  /**
   * The lambda returns `int`: n(n + 1)/2 fits a 32-bit `int` exactly for n up to 65535,
   * so the checksum's position sums are exact while no occupied block lies past position 65535.
   */
  lemma SumOfFirstNFits(n: int)
    requires n >= 0
    ensures SumOfFirstN(n) <= 0x7fff_ffff <==> n <= 65535
  {
    if n <= 65535 {
      Grids.MulLe(n, 65535, n + 1);
    } else {
      Grids.MulLe(65536, n, n + 1);
    }
  }

  /** start + (start + 1) + ... + (start + size - 1). */
  function PositionSum(start: int, size: int): int
    decreases size
  {
    if size <= 0 then 0 else PositionSum(start, size - 1) + start + size - 1
  }

  lemma SumStep(n: int)
    requires n >= 0
    ensures SumOfFirstN(n) == SumOfFirstN(n - 1) + n
  {
    if n > 1 {
      assert n * (n + 1) == (n - 1) * n + 2 * n;
    }
  }

  /** The difference of the two triangular numbers is the sum of the range's positions. */
  lemma {:induction false} IndexSum(start: int, size: int)
    requires start >= 0 && size >= 0
    ensures SumOfFirstN(start + size - 1) - SumOfFirstN(start - 1) == PositionSum(start, size)
  {
    if size > 0 {
      IndexSum(start, size - 1);
      SumStep(start + size - 1);
    }
  }

  /** What one range adds to the checksum: its id times each of its positions. */
  function RangeSum(r: IdRange): int
  {
    if r.id == Free then 0 else r.id * PositionSum(r.start, r.size)
  }

  /** The closed form `part_one` uses for what an occupied range adds. */
  lemma RangeSumClosed(r: IdRange)
    requires r.id != Free && r.start >= 0 && r.size >= 0
    ensures (SumOfFirstN(r.start + r.size - 1) - SumOfFirstN(r.start - 1)) * r.id == RangeSum(r)
  {
    IndexSum(r.start, r.size);
  }

  /** The sum of id times position over the blocks of the occupied ranges. */
  function Checksum(rs: seq<IdRange>): int
  {
    if rs == [] then 0 else Checksum(rs[..|rs| - 1]) + RangeSum(rs[|rs| - 1])
  }

  /** The checksum loop of `part_one`, with the closed form of the position sums. */
  method ChecksumOf(rs: seq<IdRange>) returns (result: int)
    requires Tidy(rs)
    ensures result == Checksum(rs)
  {
    result := 0;
    for i := 0 to |rs|
      invariant result == Checksum(rs[..i])
    {
      assert rs[..i + 1][..i] == rs[..i];
      assert Checksum(rs[..i + 1]) == Checksum(rs[..i]) + RangeSum(rs[i]);
      var range := rs[i];
      if range.id == Free {
        continue;
      }
      var indexSum := SumOfFirstN(range.start + range.size - 1) - SumOfFirstN(range.start - 1);
      RangeSumClosed(range);
      result := result + indexSum * range.id;
    }
    assert rs[..|rs|] == rs;
  }

  // ---------------------------------------------------------------------------
  // Part one
  // ---------------------------------------------------------------------------

  /** `part_one`: out_of_range without a line, bad_optional_access for a non-digit, otherwise the checksum. */
  ghost function Answer(lines: seq<string>): Result<int>
  {
    if |lines| == 0 then Err(OutOfRange)
    else if !AllDigits(lines[0]) then Err(BadOptionalAccess)
    else
      LayoutTidy(DigitsOf(lines[0]), 0, 0);
      Ok(Checksum(CompactOf(Layout(DigitsOf(lines[0]), 0, 0))))
  }

  /** The checksum is taken over tidy ranges that hold each file's blocks and list the files first. */
  lemma AnswerCompacted(lines: seq<string>)
    requires |lines| > 0 && AllDigits(lines[0])
    ensures var rs := (LayoutTidy(DigitsOf(lines[0]), 0, 0); CompactOf(Layout(DigitsOf(lines[0]), 0, 0)));
            Tidy(rs) && Compacted(rs) &&
            (forall id :: 0 <= id ==> Mass(rs, id) == if 2 * id < |lines[0]| then DigitValue(lines[0][2 * id]) as int else 0)
  {
    var disk := DigitsOf(lines[0]);
    LayoutTidy(disk, 0, 0);
    CompactKeeps(Layout(disk, 0, 0));
    forall id | 0 <= id {
      LayoutMass(disk, 0, 0, id);
    }
  }

  method PartOne(lines: seq<string>) returns (r: Result<int>)
    ensures r == Answer(lines)
  {
    if |lines| == 0 {
      return Err(OutOfRange);
    }
    var disk :- ParseDigits(lines[0]);
    var ranges := BuildRanges(disk);
    LayoutTidy(disk, 0, 0);
    var compacted := Compact(ranges);
    CompactKeeps(ranges);
    var sum := ChecksumOf(compacted);
    r := Ok(sum);
  }
}
