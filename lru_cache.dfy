/**
 * The fixed-capacity least-recently-used cache of aoclib/lru-cache.hpp.
 *
 * All N nodes live in one array that doubles as an object pool.  The occupied
 * nodes form a doubly-linked recency list (head = most recently used) threaded
 * through the `prev`/`next` slot indices, with IDX_NULL as the sentinel; the
 * free nodes form a second, singly-followed list over the same `next` field;
 * a map sends each cached key to its slot.
 *
 * The abstract value of a cache is the sequence of its (key, value) entries,
 * most recently used first.  The ghost fields `Order` and `Free` name the slots
 * of the two lists in list order, and `Valid()` ties them to the real links.
 */
module LruCache {
  import opened Wrappers

  /** `IDX_NULL`: the largest 32-bit unsigned index, never a slot because N < IDX_NULL. */
  const IDX_NULL: nat := 0xFFFF_FFFF

  datatype ValNode<K, V> = ValNode(key: K, data: V, prev: nat, next: nat)

  // ---------------------------------------------------------------------------
  // Abstract behaviour: a sequence of entries, most recently used first
  // ---------------------------------------------------------------------------

  function KeysOf<K(==), V>(c: seq<(K, V)>): set<K>
  {
    set j | 0 <= j < |c| :: c[j].0
  }

  ghost predicate DistinctKeys<K, V>(c: seq<(K, V)>)
  {
    forall i, j :: 0 <= i < j < |c| ==> c[i].0 != c[j].0
  }

  /** The entries without the one for `k`. */
  function RemoveKey<K(==), V>(c: seq<(K, V)>, k: K): seq<(K, V)>
  {
    if c == [] then []
    else if c[0].0 == k then RemoveKey(c[1..], k)
    else [c[0]] + RemoveKey(c[1..], k)
  }

  /** The value stored for a cached key. */
  function Lookup<K(==), V>(c: seq<(K, V)>, k: K): V
    requires k in KeysOf(c)
  {
    if c[0].0 == k then c[0].1
    else
      assert k in KeysOf(c[1..]) by {
        var j :| 0 <= j < |c| && c[j].0 == k;
        assert c[1..][j - 1].0 == k;
      }
      Lookup(c[1..], k)
  }

  /**
   * The entries after `insert(k, v)` on a cache of capacity `cap`: the key moves
   * (or arrives) at the front with the new value; a new key arriving at a full
   * cache pushes the least recently used entry, the last one, out.
   */
  function AfterInsert<K(==), V>(c: seq<(K, V)>, cap: nat, k: K, v: V): seq<(K, V)>
    requires cap > 0
  {
    if k in KeysOf(c) then [(k, v)] + RemoveKey(c, k)
    else if |c| < cap then [(k, v)] + c
    else [(k, v)] + c[..|c| - 1]
  }

  lemma KeysOfCons<K, V>(x: (K, V), t: seq<(K, V)>)
    ensures KeysOf([x] + t) == {x.0} + KeysOf(t)
  {
    var c := [x] + t;
    assert c[0] == x;
    forall y | y in KeysOf(c) ensures y in {x.0} + KeysOf(t) {
      var j :| 0 <= j < |c| && c[j].0 == y;
      if j > 0 { assert t[j - 1].0 == y; }
    }
    forall y | y in {x.0} + KeysOf(t) ensures y in KeysOf(c) {
      if y != x.0 {
        var j :| 0 <= j < |t| && t[j].0 == y;
        assert c[j + 1].0 == y;
      }
    }
  }

  /** In a sequence with distinct keys, the first key does not occur in the rest. */
  lemma FirstKeyNotInRest<K, V>(c: seq<(K, V)>)
    requires DistinctKeys(c) && c != []
    ensures c[0].0 !in KeysOf(c[1..])
  {
    forall j | 0 <= j < |c| - 1 ensures c[1..][j].0 != c[0].0 {
      assert c[1..][j] == c[j + 1];
    }
  }

  lemma {:induction false} RemoveKeyKeys<K, V>(c: seq<(K, V)>, k: K)
    ensures KeysOf(RemoveKey(c, k)) == KeysOf(c) - {k}
    ensures |RemoveKey(c, k)| <= |c|
  {
    if c != [] {
      RemoveKeyKeys(c[1..], k);
      assert c == [c[0]] + c[1..];
      KeysOfCons(c[0], c[1..]);
      if c[0].0 != k {
        KeysOfCons(c[0], RemoveKey(c[1..], k));
      }
    }
  }

  lemma {:induction false} RemoveKeyDistinct<K, V>(c: seq<(K, V)>, k: K)
    requires DistinctKeys(c)
    ensures DistinctKeys(RemoveKey(c, k))
  {
    if c != [] {
      RemoveKeyDistinct(c[1..], k);
      if c[0].0 != k {
        var t := RemoveKey(c[1..], k);
        RemoveKeyKeys(c[1..], k);
        FirstKeyNotInRest(c);
        KeysOfCons(c[0], t);
        var r := [c[0]] + t;
        forall i, j | 0 <= i < j < |r| ensures r[i].0 != r[j].0 {
          if i == 0 {
            assert r[j] == t[j - 1];
            assert r[j].0 in KeysOf(t);
          } else {
            assert r[i] == t[i - 1] && r[j] == t[j - 1];
          }
        }
      }
    }
  }

  lemma {:induction false} RemoveKeyAbsent<K, V>(c: seq<(K, V)>, k: K)
    requires k !in KeysOf(c)
    ensures RemoveKey(c, k) == c
  {
    if c != [] {
      assert c == [c[0]] + c[1..];
      KeysOfCons(c[0], c[1..]);
      RemoveKeyAbsent(c[1..], k);
    }
  }

  lemma {:induction false} RemoveKeyAt<K, V>(c: seq<(K, V)>, k: K, p: nat)
    requires DistinctKeys(c) && p < |c| && c[p].0 == k
    ensures RemoveKey(c, k) == c[..p] + c[p + 1..]
  {
    if p == 0 {
      FirstKeyNotInRest(c);
      RemoveKeyAbsent(c[1..], k);
    } else {
      RemoveKeyAt(c[1..], k, p - 1);
      assert c[1..][..p - 1] + c[1..][p..] == c[1..p] + c[p + 1..];
      assert [c[0]] + c[1..p] == c[..p];
    }
  }

  lemma {:induction false} LookupAt<K, V>(c: seq<(K, V)>, k: K, p: nat)
    requires DistinctKeys(c) && p < |c| && c[p].0 == k
    ensures k in KeysOf(c) && Lookup(c, k) == c[p].1
  {
    if p > 0 {
      assert c[1..][p - 1] == c[p];
      LookupAt(c[1..], k, p - 1);
    }
  }

  lemma ConsDistinct<K, V>(x: (K, V), t: seq<(K, V)>)
    requires DistinctKeys(t) && x.0 !in KeysOf(t)
    ensures DistinctKeys([x] + t)
  {
    var r := [x] + t;
    forall i, j | 0 <= i < j < |r| ensures r[i].0 != r[j].0 {
      assert r[j] == t[j - 1];
      if i == 0 {
        assert r[j].0 in KeysOf(t);
      } else {
        assert r[i] == t[i - 1];
      }
    }
  }

  lemma DropLastKeys<K, V>(c: seq<(K, V)>)
    requires DistinctKeys(c) && c != []
    ensures DistinctKeys(c[..|c| - 1])
    ensures KeysOf(c[..|c| - 1]) == KeysOf(c) - {c[|c| - 1].0}
  {
    var t := c[..|c| - 1];
    var last := c[|c| - 1].0;
    forall x | x in KeysOf(c) - {last} ensures x in KeysOf(t) {
      var j :| 0 <= j < |c| && c[j].0 == x;
      assert t[j].0 == x;
    }
    forall x | x in KeysOf(t) ensures x in KeysOf(c) - {last} {
      var j :| 0 <= j < |t| && t[j].0 == x;
      assert c[j].0 == x;
    }
  }

  /**
   * What one `insert` does to the size and the key set: a cached key keeps both;
   * a new key grows the cache by one while there is room, and otherwise takes
   * the place of exactly the least recently used key.  The size never passes the
   * capacity, keys stay distinct, and the new entry is at the front.
   */
  lemma {:induction false} AfterInsertShape<K, V>(c: seq<(K, V)>, cap: nat, k: K, v: V)
    requires DistinctKeys(c) && 0 < cap && |c| <= cap
    ensures var r := AfterInsert(c, cap, k, v);
      && DistinctKeys(r) && |r| <= cap && r[0] == (k, v) && k in KeysOf(r)
      && (k in KeysOf(c) ==> |r| == |c| && KeysOf(r) == KeysOf(c))
      && (k !in KeysOf(c) && |c| < cap ==> |r| == |c| + 1 && KeysOf(r) == KeysOf(c) + {k})
      && (k !in KeysOf(c) && |c| == cap ==>
            |r| == cap && KeysOf(r) == KeysOf(c) - {c[|c| - 1].0} + {k})
  {
    var t := if k in KeysOf(c) then RemoveKey(c, k) else if |c| < cap then c else c[..|c| - 1];
    assert AfterInsert(c, cap, k, v) == [(k, v)] + t;
    KeysOfCons((k, v), t);
    if k in KeysOf(c) {
      RemoveKeyKeys(c, k);
      RemoveKeyDistinct(c, k);
      var p :| 0 <= p < |c| && c[p].0 == k;
      RemoveKeyAt(c, k, p);
    } else if |c| == cap {
      DropLastKeys(c);
    }
    ConsDistinct((k, v), t);
  }

  /** After `insert(k, v)` the cache maps k to v, and every other key still cached keeps its value. */
  lemma {:induction false} LookupAfterInsert<K, V>(c: seq<(K, V)>, cap: nat, k: K, v: V, k2: K)
    requires DistinctKeys(c) && 0 < cap && |c| <= cap
    requires k2 != k && k2 in KeysOf(AfterInsert(c, cap, k, v))
    ensures k in KeysOf(AfterInsert(c, cap, k, v))
    ensures Lookup(AfterInsert(c, cap, k, v), k) == v
    ensures k2 in KeysOf(c) && Lookup(AfterInsert(c, cap, k, v), k2) == Lookup(c, k2)
  {
    var r := AfterInsert(c, cap, k, v);
    AfterInsertShape(c, cap, k, v);
    LookupAt(r, k, 0);
    var j :| 0 <= j < |r| && r[j].0 == k2;
    assert j > 0;
    LookupAt(r, k2, j);
    // the position in c of the entry that ends up at position j of r
    var a: nat;
    if k in KeysOf(c) {
      var p :| 0 <= p < |c| && c[p].0 == k;
      RemoveKeyAt(c, k, p);
      a := if j - 1 < p then j - 1 else j;
    } else {
      a := j - 1;
    }
    assert r[j] == c[a];
    LookupAt(c, k2, a);
  }

  /**
   * Re-inserting a cached key with its own value, as `get_copy` and `get_ptr`
   * do, changes only the order: same keys, same value for every key.
   */
  lemma {:induction false} TouchKeepsMapping<K, V>(c: seq<(K, V)>, cap: nat, k: K, k2: K)
    requires DistinctKeys(c) && 0 < cap && |c| <= cap && k in KeysOf(c) && k2 in KeysOf(c)
    ensures var r := AfterInsert(c, cap, k, Lookup(c, k));
      |r| == |c| && KeysOf(r) == KeysOf(c) && k2 in KeysOf(r) && Lookup(r, k2) == Lookup(c, k2)
  {
    var v := Lookup(c, k);
    AfterInsertShape(c, cap, k, v);
    var r := AfterInsert(c, cap, k, v);
    if k2 == k {
      LookupAt(r, k, 0);
    } else {
      LookupAfterInsert(c, cap, k, v, k2);
    }
  }

  /** With capacity 2, inserting A, B, A, C evicts B: touching A made B the least recently used. */
  lemma EvictionScenario(a: int, b: int, cv: int, x: int)
    requires a != b && b != cv && a != cv
    ensures var s := AfterInsert(AfterInsert(AfterInsert(AfterInsert([], 2, a, x), 2, b, x), 2, a, x), 2, cv, x);
      KeysOf(s) == {a, cv} && s == [(cv, x), (a, x)]
  {
    var s1 := AfterInsert([], 2, a, x);
    assert s1 == [(a, x)];
    var s2 := AfterInsert(s1, 2, b, x);
    assert b !in KeysOf(s1);
    assert s2 == [(b, x), (a, x)];
    var s3 := AfterInsert(s2, 2, a, x);
    assert a in KeysOf(s2) by { assert s2[1].0 == a; }
    RemoveKeyAt(s2, a, 1);
    assert s3 == [(a, x), (b, x)];
    var s4 := AfterInsert(s3, 2, cv, x);
    assert cv !in KeysOf(s3);
    assert s4 == [(cv, x), (a, x)];
    assert KeysOf(s4) == {a, cv} by {
      assert s4[0].0 == cv && s4[1].0 == a;
    }
  }

  // ---------------------------------------------------------------------------
  // The node array: links, free list, map
  // ---------------------------------------------------------------------------

  ghost predicate InBounds(o: seq<nat>, n: nat)
  {
    forall j :: 0 <= j < |o| ==> o[j] < n
  }

  /** Positions i and j of `o` hold different slots. */
  ghost predicate Apart(o: seq<nat>, i: nat, j: nat)
    requires i < |o| && j < |o|
  {
    o[i] != o[j]
  }

  /** No slot occurs twice in `o`. */
  ghost predicate Distinct(o: seq<nat>)
  {
    forall i, j :: 0 <= i < |o| && 0 <= j < |o| && i != j ==> Apart(o, i, j)
  }

  lemma DistinctAt(o: seq<nat>, i: nat, j: nat)
    requires Distinct(o) && i < |o| && j < |o|
    ensures o[i] == o[j] <==> i == j
  {
    if i != j {
      assert Apart(o, i, j);
    }
  }

  function HeadOr(o: seq<nat>): nat
  {
    if o == [] then IDX_NULL else o[0]
  }

  function LastOr(o: seq<nat>): nat
  {
    if o == [] then IDX_NULL else o[|o| - 1]
  }

  /** The slot that follows position j of a list, IDX_NULL after the last. */
  function NextOf(o: seq<nat>, j: nat): nat
    requires j < |o|
  {
    if j + 1 < |o| then o[j + 1] else IDX_NULL
  }

  function PrevOf(o: seq<nat>, j: nat): nat
    requires j < |o|
  {
    if j == 0 then IDX_NULL else o[j - 1]
  }

  /** The node at position j of list `o` points back to its predecessor and on to its successor. */
  ghost predicate LinkedAt<K, V>(ns: seq<ValNode<K, V>>, o: seq<nat>, j: nat)
    requires j < |o|
  {
    o[j] < |ns| && ns[o[j]].prev == PrevOf(o, j) && ns[o[j]].next == NextOf(o, j)
  }

  /** Following `next` from the head visits `o` in order, and every `prev` is the predecessor. */
  ghost predicate Linked<K, V>(ns: seq<ValNode<K, V>>, o: seq<nat>)
  {
    forall j :: 0 <= j < |o| ==> LinkedAt(ns, o, j)
  }

  ghost predicate FreeAt<K, V>(ns: seq<ValNode<K, V>>, f: seq<nat>, j: nat)
    requires j < |f|
  {
    f[j] < |ns| && ns[f[j]].next == NextOf(f, j)
  }

  /** Following `next` from the first free slot visits `f` in order. */
  ghost predicate FreeLinked<K, V>(ns: seq<ValNode<K, V>>, f: seq<nat>)
  {
    forall j :: 0 <= j < |f| ==> FreeAt(ns, f, j)
  }

  /** No free slot is occupied. */
  ghost predicate Disjoint(o: seq<nat>, f: seq<nat>)
  {
    forall j :: 0 <= j < |f| ==> f[j] !in o
  }

  /** The occupied and the free slots partition 0..n-1. */
  ghost predicate Partitioned(o: seq<nat>, f: seq<nat>, n: nat)
  {
    |o| + |f| == n && InBounds(o, n) && InBounds(f, n) && Distinct(o) && Distinct(f) && Disjoint(o, f)
  }

  /** Slot `idx` is in neither list and the two lists partition the other slots. */
  ghost predicate PartitionedBut(o: seq<nat>, f: seq<nat>, n: nat, idx: nat)
  {
    |o| + |f| + 1 == n && InBounds(o, n) && InBounds(f, n) && Distinct(o) && Distinct(f) && Disjoint(o, f) &&
    idx < n && idx !in o && idx !in f
  }

  /**
   * The recency list: head and tail name its ends and, from two slots on, the
   * links are exact.  With a single slot the eviction path leaves the recycled
   * node linked to itself, so for N = 1 only the end indices and in-range
   * `prev` links are kept.
   */
  ghost predicate Threaded<K, V>(ns: seq<ValNode<K, V>>, o: seq<nat>, head: nat, tail: nat, n: nat)
  {
    head == HeadOr(o) && tail == LastOr(o) &&
    if n >= 2 then Linked(ns, o)
    else forall j :: 0 <= j < |o| ==> o[j] < |ns| && (ns[o[j]].prev == IDX_NULL || ns[o[j]].prev < n)
  }

  /** Both lists well formed over the array of `n` nodes. */
  ghost predicate Lists<K, V>(ns: seq<ValNode<K, V>>, o: seq<nat>, f: seq<nat>, firstFree: nat,
                              head: nat, tail: nat, n: nat)
  {
    |ns| == n && 0 < n < IDX_NULL && Partitioned(o, f, n) &&
    FreeLinked(ns, f) && firstFree == HeadOr(f) && Threaded(ns, o, head, tail, n)
  }

  /**
   * The lists while slot `idx` is between them: taken off the recency list or
   * the free list and not yet pushed at the head.  For N = 1 the head and tail
   * may still name the slot.
   */
  ghost predicate Detached<K, V>(ns: seq<ValNode<K, V>>, o: seq<nat>, f: seq<nat>, firstFree: nat,
                                 head: nat, tail: nat, n: nat, idx: nat)
  {
    |ns| == n && 0 < n < IDX_NULL && PartitionedBut(o, f, n, idx) &&
    FreeLinked(ns, f) && firstFree == HeadOr(f) &&
    if n >= 2 then head == HeadOr(o) && tail == LastOr(o) && Linked(ns, o)
    else head == tail && (head == IDX_NULL || head == idx)
  }

  /** `map[k] == i` exactly when slot i is occupied and holds key k. */
  ghost predicate MapAgrees<K, V>(ns: seq<ValNode<K, V>>, o: seq<nat>, m: map<K, nat>)
  {
    (forall i :: i in o ==> i < |ns| && ns[i].key in m && m[ns[i].key] == i) &&
    (forall k :: k in m ==> m[k] in o && m[k] < |ns| && ns[m[k]].key == k)
  }

  /** Two snapshots of the array that differ at most in keys and values. */
  ghost predicate SameLinks<K, V>(ns: seq<ValNode<K, V>>, ns2: seq<ValNode<K, V>>)
  {
    |ns2| == |ns| && forall i :: 0 <= i < |ns| ==> ns2[i].prev == ns[i].prev && ns2[i].next == ns[i].next
  }

  /** Two snapshots of the array that differ at most in links. */
  ghost predicate SamePayload<K, V>(ns: seq<ValNode<K, V>>, ns2: seq<ValNode<K, V>>)
  {
    |ns2| == |ns| && forall i :: 0 <= i < |ns| ==> ns2[i].key == ns[i].key && ns2[i].data == ns[i].data
  }

  /** The entries held by the slots of `o`, in list order. */
  ghost function Entries<K, V>(ns: seq<ValNode<K, V>>, o: seq<nat>): seq<(K, V)>
    requires InBounds(o, |ns|)
  {
    seq(|o|, j requires 0 <= j < |o| => (ns[o[j]].key, ns[o[j]].data))
  }

  lemma InBoundsWeaken(o: seq<nat>, n: nat, m: nat)
    requires InBounds(o, n) && n <= m
    ensures InBounds(o, m)
  {
  }

  /** Unlinking the node at position p (not the head) leaves the rest of the list linked. */
  lemma LinkedRemoveAt<K, V>(ns: seq<ValNode<K, V>>, ns2: seq<ValNode<K, V>>, o: seq<nat>, p: nat)
    requires Linked(ns, o) && InBounds(o, |ns|) && Distinct(o) && 0 < p < |o| && |ns2| == |ns|
    requires ns2[o[p - 1]] == ns[o[p - 1]].(next := NextOf(o, p))
    requires p + 1 < |o| ==> ns2[o[p + 1]] == ns[o[p + 1]].(prev := o[p - 1])
    requires forall i :: 0 <= i < |ns| && i != o[p - 1] && (p + 1 < |o| ==> i != o[p + 1]) ==> ns2[i] == ns[i]
    ensures Linked(ns2, o[..p] + o[p + 1..])
  {
    var o1 := o[..p] + o[p + 1..];
    forall j | 0 <= j < |o1| ensures LinkedAt(ns2, o1, j) {
      LinkedRemoveAtStep(ns, ns2, o, p, j);
    }
  }

  lemma LinkedRemoveAtStep<K, V>(ns: seq<ValNode<K, V>>, ns2: seq<ValNode<K, V>>, o: seq<nat>, p: nat, j: nat)
    requires Linked(ns, o) && InBounds(o, |ns|) && Distinct(o) && 0 < p < |o| && |ns2| == |ns|
    requires ns2[o[p - 1]] == ns[o[p - 1]].(next := NextOf(o, p))
    requires p + 1 < |o| ==> ns2[o[p + 1]] == ns[o[p + 1]].(prev := o[p - 1])
    requires forall i :: 0 <= i < |ns| && i != o[p - 1] && (p + 1 < |o| ==> i != o[p + 1]) ==> ns2[i] == ns[i]
    requires j < |o| - 1
    ensures LinkedAt(ns2, o[..p] + o[p + 1..], j)
  {
    var o1 := o[..p] + o[p + 1..];
    var a := if j < p then j else j + 1;
    assert o1[j] == o[a];
    assert LinkedAt(ns, o, a);
    if j > 0 { assert o1[j - 1] == o[if j == p then p - 1 else a - 1]; }
    if j + 1 < |o1| { assert o1[j + 1] == o[if j + 1 == p then p + 1 else a + 1]; }
    if a != p - 1 && a != p + 1 {
      DistinctAt(o, a, p - 1);
      if p + 1 < |o| { DistinctAt(o, a, p + 1); }
    }
  }

  /** Pushing a detached node in front of a linked list gives a linked list. */
  lemma LinkedPushFront<K, V>(ns: seq<ValNode<K, V>>, ns2: seq<ValNode<K, V>>, o: seq<nat>, idx: nat)
    requires Linked(ns, o) && InBounds(o, |ns|) && Distinct(o) && idx < |ns| && idx !in o && |ns2| == |ns|
    requires ns2[idx].prev == IDX_NULL && ns2[idx].next == HeadOr(o)
    requires o != [] ==> ns2[o[0]] == ns[o[0]].(prev := idx)
    requires forall i :: 0 <= i < |ns| && i != idx && (o != [] ==> i != o[0]) ==> ns2[i] == ns[i]
    ensures Linked(ns2, [idx] + o)
  {
    var o1 := [idx] + o;
    forall j | 0 <= j < |o1| ensures LinkedAt(ns2, o1, j) {
      if j > 0 {
        assert o1[j] == o[j - 1];
        assert LinkedAt(ns, o, j - 1);
        if j > 1 { DistinctAt(o, j - 1, 0); }
        if j + 1 < |o1| { assert o1[j + 1] == o[j]; }
      }
    }
  }

  /** Dropping the tail: the new last node's `next` becomes IDX_NULL. */
  lemma LinkedPopBack<K, V>(ns: seq<ValNode<K, V>>, ns2: seq<ValNode<K, V>>, o: seq<nat>)
    requires Linked(ns, o) && InBounds(o, |ns|) && Distinct(o) && |o| >= 2 && |ns2| == |ns|
    requires ns2[o[|o| - 2]] == ns[o[|o| - 2]].(next := IDX_NULL)
    requires forall i :: 0 <= i < |ns| && i != o[|o| - 2] && i != o[|o| - 1] ==> ns2[i] == ns[i]
    ensures Linked(ns2, o[..|o| - 1])
  {
    var o1 := o[..|o| - 1];
    forall j | 0 <= j < |o1| ensures LinkedAt(ns2, o1, j) {
      assert LinkedAt(ns, o, j);
      if j < |o| - 2 {
        DistinctAt(o, j, |o| - 2);
        DistinctAt(o, j, |o| - 1);
      }
    }
  }

  lemma LinkedSameLinks<K, V>(ns: seq<ValNode<K, V>>, ns2: seq<ValNode<K, V>>, o: seq<nat>)
    requires SameLinks(ns, ns2) && Linked(ns, o)
    ensures Linked(ns2, o)
  {
    forall j | 0 <= j < |o| ensures LinkedAt(ns2, o, j) {
      assert LinkedAt(ns, o, j);
    }
  }

  /** Writes that miss every free slot keep the free list. */
  lemma FreeLinkedFrame<K, V>(ns: seq<ValNode<K, V>>, ns2: seq<ValNode<K, V>>, f: seq<nat>)
    requires FreeLinked(ns, f) && |ns2| == |ns|
    requires forall i :: 0 <= i < |ns| && i in f ==> ns2[i].next == ns[i].next
    ensures FreeLinked(ns2, f)
  {
    forall j | 0 <= j < |f| ensures FreeAt(ns2, f, j) {
      assert FreeAt(ns, f, j);
    }
  }

  lemma FreeLinkedTail<K, V>(ns: seq<ValNode<K, V>>, f: seq<nat>)
    requires FreeLinked(ns, f) && InBounds(f, |ns|) && f != []
    ensures FreeLinked(ns, f[1..]) && (|f| > 1 ==> ns[f[0]].next == f[1]) && (|f| == 1 ==> ns[f[0]].next == IDX_NULL)
  {
    assert FreeAt(ns, f, 0);
    forall j | 0 <= j < |f| - 1 ensures FreeAt(ns, f[1..], j) {
      assert FreeAt(ns, f, j + 1);
    }
  }

  lemma SameLinksKeepLists<K, V>(ns: seq<ValNode<K, V>>, ns2: seq<ValNode<K, V>>, o: seq<nat>, f: seq<nat>,
                                 firstFree: nat, head: nat, tail: nat, n: nat)
    requires SameLinks(ns, ns2) && Lists(ns, o, f, firstFree, head, tail, n)
    ensures Lists(ns2, o, f, firstFree, head, tail, n)
  {
    FreeLinkedFrame(ns, ns2, f);
    if n >= 2 {
      LinkedSameLinks(ns, ns2, o);
    }
  }

  lemma SameLinksKeepDetached<K, V>(ns: seq<ValNode<K, V>>, ns2: seq<ValNode<K, V>>, o: seq<nat>, f: seq<nat>,
                                    firstFree: nat, head: nat, tail: nat, n: nat, idx: nat)
    requires SameLinks(ns, ns2) && Detached(ns, o, f, firstFree, head, tail, n, idx)
    ensures Detached(ns2, o, f, firstFree, head, tail, n, idx)
  {
    FreeLinkedFrame(ns, ns2, f);
    if n >= 2 {
      LinkedSameLinks(ns, ns2, o);
    }
  }

  /** Taking the first free slot leaves it between the lists. */
  lemma PopFreePartition(o: seq<nat>, f: seq<nat>, n: nat)
    requires Partitioned(o, f, n) && f != []
    ensures PartitionedBut(o, f[1..], n, f[0])
  {
    var f1 := f[1..];
    forall i, j | 0 <= i < |f1| && 0 <= j < |f1| && i != j ensures Apart(f1, i, j) {
      DistinctAt(f, i + 1, j + 1);
    }
    forall j | 0 <= j < |f1| ensures f1[j] != f[0] {
      DistinctAt(f, j + 1, 0);
    }
    forall j | 0 <= j < |o| ensures o[j] != f[0] {
    }
  }

  /** Taking the node at position p off the recency list leaves it between the lists. */
  lemma RemoveAtPartition(o: seq<nat>, f: seq<nat>, n: nat, p: nat)
    requires Partitioned(o, f, n) && p < |o|
    ensures PartitionedBut(o[..p] + o[p + 1..], f, n, o[p])
    ensures forall i :: i in o <==> i == o[p] || i in o[..p] + o[p + 1..]
  {
    var o1 := o[..p] + o[p + 1..];
    forall i, j | 0 <= i < |o1| && 0 <= j < |o1| && i != j ensures Apart(o1, i, j) {
      var a := if i < p then i else i + 1;
      var b := if j < p then j else j + 1;
      assert o1[i] == o[a] && o1[j] == o[b];
      DistinctAt(o, a, b);
    }
    forall j | 0 <= j < |o1| ensures o1[j] != o[p] && o1[j] < n && o1[j] in o {
      var a := if j < p then j else j + 1;
      assert o1[j] == o[a];
      DistinctAt(o, a, p);
    }
    forall i, j | 0 <= i < |o1| && 0 <= j < |f| ensures o1[i] != f[j] {
      var a := if i < p then i else i + 1;
      assert o1[i] == o[a];
    }
    assert o == o[..p] + [o[p]] + o[p + 1..];
    forall i | i in o ensures i == o[p] || i in o1 {
    }
  }

  /** Evicting the tail slot leaves it between the lists. */
  lemma PopBackPartition(o: seq<nat>, n: nat)
    requires Partitioned(o, [], n) && o != []
    ensures PartitionedBut(o[..|o| - 1], [], n, o[|o| - 1])
  {
    var o1 := o[..|o| - 1];
    forall i, j | 0 <= i < |o1| && 0 <= j < |o1| && i != j ensures Apart(o1, i, j) {
      DistinctAt(o, i, j);
    }
    forall j | 0 <= j < |o1| ensures o1[j] != o[|o| - 1] {
      DistinctAt(o, j, |o| - 1);
    }
  }

  /** Pushing the detached slot at the head restores the partition. */
  lemma PushPartition(o: seq<nat>, f: seq<nat>, n: nat, idx: nat)
    requires PartitionedBut(o, f, n, idx)
    ensures Partitioned([idx] + o, f, n)
  {
    var o1 := [idx] + o;
    forall i, j | 0 <= i < |o1| && 0 <= j < |o1| && i != j ensures Apart(o1, i, j) {
      if i > 0 && j > 0 {
        DistinctAt(o, i - 1, j - 1);
      }
    }
    forall i, j | 0 <= i < |o1| && 0 <= j < |f| ensures o1[i] != f[j] {
      if i > 0 { assert o1[i] == o[i - 1]; }
    }
  }

  lemma MapPushFront<K, V>(ns: seq<ValNode<K, V>>, ns2: seq<ValNode<K, V>>, o: seq<nat>, m: map<K, nat>, idx: nat, k: K)
    requires MapAgrees(ns, o, m) && k !in m && idx !in o && idx < |ns| && |ns2| == |ns|
    requires ns2[idx].key == k
    requires forall i :: 0 <= i < |ns| && i != idx ==> ns2[i].key == ns[i].key
    ensures MapAgrees(ns2, [idx] + o, m[k := idx])
  {
    var o1 := [idx] + o;
    var m2 := m[k := idx];
    forall i | i in o1 ensures i < |ns2| && ns2[i].key in m2 && m2[ns2[i].key] == i {
      if i != idx { assert i in o; }
    }
    forall key | key in m2 ensures m2[key] in o1 && m2[key] < |ns2| && ns2[m2[key]].key == key {
      if key != k {
        assert m[key] in o;
        assert m[key] in o1;
      }
    }
  }

  lemma MapPopBack<K, V>(ns: seq<ValNode<K, V>>, o: seq<nat>, m: map<K, nat>)
    requires MapAgrees(ns, o, m) && InBounds(o, |ns|) && |o| >= 1 && Distinct(o)
    ensures MapAgrees(ns, o[..|o| - 1], m - {ns[o[|o| - 1]].key})
  {
    var last := o[|o| - 1];
    var o1 := o[..|o| - 1];
    var m1 := m - {ns[last].key};
    forall i | i in o1 ensures i < |ns| && ns[i].key in m1 && m1[ns[i].key] == i {
      var j :| 0 <= j < |o1| && o1[j] == i;
      assert o[j] == i;
      DistinctAt(o, j, |o| - 1);
    }
    forall key | key in m1 ensures m1[key] in o1 && m1[key] < |ns| && ns[m1[key]].key == key {
      var j :| 0 <= j < |o| && o[j] == m[key];
      assert j != |o| - 1;
      assert o1[j] == m[key];
    }
  }

  /** Distinct slots with their map entries hold distinct keys, exactly the map's keys. */
  lemma EntriesKeys<K, V>(ns: seq<ValNode<K, V>>, o: seq<nat>, m: map<K, nat>)
    requires InBounds(o, |ns|) && Distinct(o) && MapAgrees(ns, o, m)
    ensures DistinctKeys(Entries(ns, o)) && KeysOf(Entries(ns, o)) == m.Keys
  {
    var c := Entries(ns, o);
    forall i, j | 0 <= i < j < |c| ensures c[i].0 != c[j].0 {
      assert o[i] in o && o[j] in o;
      assert m[ns[o[i]].key] == o[i] && m[ns[o[j]].key] == o[j];
      DistinctAt(o, i, j);
    }
    forall key | key in m ensures key in KeysOf(c) {
      var j :| 0 <= j < |o| && o[j] == m[key];
      assert c[j].0 == key;
    }
    forall key | key in KeysOf(c) ensures key in m {
      var j :| 0 <= j < |c| && c[j].0 == key;
      assert o[j] in o;
    }
  }

  lemma SamePayloadTrans<K, V>(a: seq<ValNode<K, V>>, b: seq<ValNode<K, V>>, c: seq<ValNode<K, V>>)
    requires SamePayload(a, b) && SamePayload(b, c)
    ensures SamePayload(a, c)
  {
  }

  /**
   * Moving the node at position p to the front and giving it value v: the map
   * still agrees, and the entries are the old ones with entry p moved up front.
   */
  lemma EntriesMoveToFront<K, V>(ns: seq<ValNode<K, V>>, ns2: seq<ValNode<K, V>>, o: seq<nat>, o2: seq<nat>,
                                 m: map<K, nat>, p: nat, v: V)
    requires InBounds(o, |ns|) && Distinct(o) && MapAgrees(ns, o, m) && p < |o|
    requires o2 == [o[p]] + o[..p] + o[p + 1..]
    requires SamePayload(ns[o[p] := ns[o[p]].(data := v)], ns2)
    ensures var c := Entries(ns, o);
      InBounds(o2, |ns2|) && MapAgrees(ns2, o2, m) &&
      Entries(ns2, o2) == [(c[p].0, v)] + c[..p] + c[p + 1..]
  {
    var c := Entries(ns, o);
    var r := [(c[p].0, v)] + c[..p] + c[p + 1..];
    forall j | 0 <= j < |o2| ensures o2[j] < |ns2| && (ns2[o2[j]].key, ns2[o2[j]].data) == r[j] {
      if j > 0 {
        var a := if j <= p then j - 1 else j;
        assert o2[j] == o[a] && r[j] == c[a];
        DistinctAt(o, a, p);
      }
    }
    assert o == o[..p] + [o[p]] + o[p + 1..];
    forall i ensures i in o <==> i in o2 {
    }
  }

  /** The cached path of `insert` in terms of the entries: the abstract `AfterInsert`. */
  lemma CachedInsertEntries<K, V>(ns: seq<ValNode<K, V>>, ns2: seq<ValNode<K, V>>, o: seq<nat>, o2: seq<nat>,
                                  m: map<K, nat>, p: nat, cap: nat, k: K, v: V)
    requires InBounds(o, |ns|) && Distinct(o) && MapAgrees(ns, o, m) && k in m && p < |o| && o[p] == m[k] && cap > 0
    requires o2 == [o[p]] + o[..p] + o[p + 1..]
    requires SamePayload(ns[o[p] := ns[o[p]].(data := v)], ns2)
    ensures InBounds(o2, |ns2|) && MapAgrees(ns2, o2, m)
    ensures Entries(ns2, o2) == AfterInsert(Entries(ns, o), cap, k, v)
  {
    var c := Entries(ns, o);
    EntriesKeys(ns, o, m);
    assert c[p].0 == k;
    RemoveKeyAt(c, k, p);
    EntriesMoveToFront(ns, ns2, o, o2, m, p, v);
  }

  /**
   * Taking a slot for a new key keeps the entries, or drops the last one when
   * the cache was full; the new key is still absent.
   */
  lemma TakenEntries<K, V>(ns0: seq<ValNode<K, V>>, ns1: seq<ValNode<K, V>>, o0: seq<nat>, o1: seq<nat>,
                           m0: map<K, nat>, m1: map<K, nat>, cap: nat, k: K)
    requires InBounds(o0, |ns0|) && Distinct(o0) && MapAgrees(ns0, o0, m0) && k !in m0 && 0 < cap && |o0| <= cap
    requires if |o0| < cap then o1 == o0 && m1 == m0
             else o1 == o0[..|o0| - 1] && m1 == m0 - {ns0[o0[|o0| - 1]].key}
    requires SamePayload(ns0, ns1)
    ensures k !in m1 && k !in KeysOf(Entries(ns0, o0)) && InBounds(o1, |ns1|)
    ensures Entries(ns1, o1) == if |o0| < cap then Entries(ns0, o0) else Entries(ns0, o0)[..|o0| - 1]
  {
    EntriesKeys(ns0, o0, m0);
    assert o1 == o0[..|o1|];
    EntriesPrefix(ns0, ns1, o0, |o1|);
  }

  /** Writing (k, v) into slot idx and pushing it at the front puts (k, v) before the other entries. */
  lemma FilledEntries<K, V>(ns1: seq<ValNode<K, V>>, ns2: seq<ValNode<K, V>>, o1: seq<nat>, m1: map<K, nat>,
                            idx: nat, k: K, v: V)
    requires InBounds(o1, |ns1|) && MapAgrees(ns1, o1, m1) && k !in m1 && idx < |ns1| && idx !in o1
    requires SamePayload(ns1[idx := ns1[idx].(key := k, data := v)], ns2)
    ensures InBounds([idx] + o1, |ns2|) && MapAgrees(ns2, [idx] + o1, m1[k := idx])
    ensures Entries(ns2, [idx] + o1) == [(k, v)] + Entries(ns1, o1)
  {
    MapPushFront(ns1, ns2, o1, m1, idx, k);
    EntriesPushFront(ns1, ns2, o1, idx, k, v);
  }

  /** The value the map's slot holds for k is the abstract lookup of k. */
  lemma EntriesLookup<K, V>(ns: seq<ValNode<K, V>>, o: seq<nat>, m: map<K, nat>, k: K)
    requires InBounds(o, |ns|) && Distinct(o) && MapAgrees(ns, o, m) && k in m
    ensures k in KeysOf(Entries(ns, o)) && Lookup(Entries(ns, o), k) == ns[m[k]].data
  {
    var p := IndexOf(o, m[k]);
    EntriesKeys(ns, o, m);
    LookupAt(Entries(ns, o), k, p);
  }

  lemma IndexOf(o: seq<nat>, x: nat) returns (p: nat)
    requires x in o
    ensures p < |o| && o[p] == x
  {
    p :| 0 <= p < |o| && o[p] == x;
  }

  lemma EntriesPrefix<K, V>(ns: seq<ValNode<K, V>>, ns2: seq<ValNode<K, V>>, o: seq<nat>, n: nat)
    requires InBounds(o, |ns|) && SamePayload(ns, ns2) && n <= |o|
    ensures InBounds(o[..n], |ns2|) && Entries(ns2, o[..n]) == Entries(ns, o)[..n]
  {
  }

  /** The entries after pushing slot idx, now holding (k, v), at the front. */
  lemma EntriesPushFront<K, V>(ns: seq<ValNode<K, V>>, ns2: seq<ValNode<K, V>>, o: seq<nat>, idx: nat, k: K, v: V)
    requires InBounds(o, |ns|) && idx !in o && idx < |ns| && |ns2| == |ns|
    requires ns2[idx].key == k && ns2[idx].data == v
    requires forall i :: 0 <= i < |ns| && i != idx ==> ns2[i].key == ns[i].key && ns2[i].data == ns[i].data
    ensures InBounds([idx] + o, |ns2|) && Entries(ns2, [idx] + o) == [(k, v)] + Entries(ns, o)
  {
    var o1 := [idx] + o;
    forall j | 0 <= j < |o1| ensures o1[j] < |ns2| && (ns2[o1[j]].key, ns2[o1[j]].data) == ([(k, v)] + Entries(ns, o))[j] {
      if j > 0 { assert o1[j] == o[j - 1]; }
    }
  }

  /** On a full cache the tail is the last occupied slot and its `prev` link stays in range. */
  lemma FullTail<K, V>(ns: seq<ValNode<K, V>>, o: seq<nat>, head: nat, tail: nat, n: nat)
    requires Lists(ns, o, [], IDX_NULL, head, tail, n)
    ensures o != [] && tail == o[|o| - 1] && tail < |ns| && (ns[tail].prev == IDX_NULL || ns[tail].prev < |ns|)
  {
    assert n >= 2 ==> LinkedAt(ns, o, |o| - 1);
  }

  /**
   * The state after evicting the tail slot `idx` of the full list `o`: the rest of
   * the list is linked, the slot is detached with a null `next`, its key has left
   * the map and no key or value moved.
   */
  ghost predicate Evicted<K, V>(ns0: seq<ValNode<K, V>>, ns: seq<ValNode<K, V>>, o: seq<nat>, m0: map<K, nat>,
                                m: map<K, nat>, head: nat, tail: nat, n: nat, idx: nat)
  {
    && o != [] && idx == LastOr(o) && idx < |ns0|
    && Detached(ns, o[..|o| - 1], [], IDX_NULL, head, tail, n, idx)
    && m == m0 - {ns0[idx].key} && MapAgrees(ns, o[..|o| - 1], m)
    && SamePayload(ns0, ns) && FreeLinked(ns, [idx])
  }

  /**
   * The eviction path of `insert` on a full cache: the tail's predecessor (if
   * any) becomes the last node and the tail's slot is detached with both links
   * cleared, ready to be handed out again.
   */
  lemma TailEvicted<K, V>(ns: seq<ValNode<K, V>>, ns1: seq<ValNode<K, V>>, ns2: seq<ValNode<K, V>>, o: seq<nat>,
                        m: map<K, nat>, head: nat, tail: nat, tail2: nat, n: nat)
    requires Lists(ns, o, [], IDX_NULL, head, tail, n) && MapAgrees(ns, o, m)
    requires tail < |ns| && (ns[tail].prev == IDX_NULL || ns[tail].prev < |ns|)
    requires ns1 == if ns[tail].prev != IDX_NULL then ns[ns[tail].prev := ns[ns[tail].prev].(next := IDX_NULL)] else ns
    requires ns2 == ns1[tail := ns1[tail].(prev := IDX_NULL, next := IDX_NULL)]
    requires tail2 == if ns[tail].prev != IDX_NULL then ns[tail].prev else tail
    ensures Evicted(ns, ns2, o, m, m - {ns[tail].key}, head, tail2, n, tail)
  {
    var o1 := o[..|o| - 1];
    TailEvictedEnds(ns, o, head, tail, tail2, n);
    PopBackPartition(o, n);
    TailEvictedPayload(ns, ns1, ns2, tail);
    MapPopBack(ns, o, m);
    MapAgreesFrame(ns, ns2, o1, m - {ns[tail].key});
    TailEvictedLinks(ns, ns1, ns2, o, tail, n);
  }

  /** The tail is the last slot of the full list; its predecessor, if any, becomes the last. */
  lemma TailEvictedEnds<K, V>(ns: seq<ValNode<K, V>>, o: seq<nat>, head: nat, tail: nat, tail2: nat, n: nat)
    requires Lists(ns, o, [], IDX_NULL, head, tail, n)
    requires tail < |ns| && tail2 == if ns[tail].prev != IDX_NULL then ns[tail].prev else tail
    ensures o != [] && tail == o[|o| - 1]
    ensures n >= 2 ==> head == HeadOr(o[..|o| - 1]) && tail2 == LastOr(o[..|o| - 1])
    ensures n < 2 ==> head == tail2 && (head == IDX_NULL || head == tail)
  {
    assert n >= 2 ==> LinkedAt(ns, o, |o| - 1);
  }

  /** Relinking keeps the rest of the list linked, and the tail's slot alone is the free list. */
  lemma TailEvictedLinks<K, V>(ns: seq<ValNode<K, V>>, ns1: seq<ValNode<K, V>>, ns2: seq<ValNode<K, V>>, o: seq<nat>,
                               tail: nat, n: nat)
    requires |ns| == n && n < IDX_NULL && InBounds(o, n) && Distinct(o) && |o| == n
    requires n >= 2 ==> Linked(ns, o)
    requires o != [] && tail == o[|o| - 1]
    requires tail < |ns| && (ns[tail].prev == IDX_NULL || ns[tail].prev < |ns|)
    requires ns1 == if ns[tail].prev != IDX_NULL then ns[ns[tail].prev := ns[ns[tail].prev].(next := IDX_NULL)] else ns
    requires ns2 == ns1[tail := ns1[tail].(prev := IDX_NULL, next := IDX_NULL)]
    ensures n >= 2 ==> Linked(ns2, o[..|o| - 1])
    ensures FreeLinked(ns2, [tail])
  {
    if n >= 2 {
      assert LinkedAt(ns, o, |o| - 1);
      DistinctAt(o, |o| - 2, |o| - 1);
      LinkedPopBack(ns, ns2, o);
    }
    assert FreeAt(ns2, [tail], 0);
  }

  /** Relinking the tail and its predecessor leaves every key and value where it was. */
  lemma TailEvictedPayload<K, V>(ns: seq<ValNode<K, V>>, ns1: seq<ValNode<K, V>>, ns2: seq<ValNode<K, V>>, tail: nat)
    requires tail < |ns| && (ns[tail].prev == IDX_NULL || ns[tail].prev < |ns|)
    requires ns1 == if ns[tail].prev != IDX_NULL then ns[ns[tail].prev := ns[ns[tail].prev].(next := IDX_NULL)] else ns
    requires ns2 == ns1[tail := ns1[tail].(prev := IDX_NULL, next := IDX_NULL)]
    ensures SamePayload(ns, ns2)
  {
  }

  /** The map agreement only looks at keys, so relinking keeps it. */
  lemma MapAgreesFrame<K, V>(ns: seq<ValNode<K, V>>, ns2: seq<ValNode<K, V>>, o: seq<nat>, m: map<K, nat>)
    requires SamePayload(ns, ns2) && MapAgrees(ns, o, m)
    ensures MapAgrees(ns2, o, m)
  {
  }

  /** The neighbours of an inner position p > 0 of the recency list, as its links name them. */
  lemma UnlinkEnds<K, V>(ns: seq<ValNode<K, V>>, o: seq<nat>, f: seq<nat>, firstFree: nat,
                         head: nat, tail: nat, n: nat, p: nat)
    requires Lists(ns, o, f, firstFree, head, tail, n) && 0 < p < |o|
    ensures n >= 2 && o[p] < n && ns[o[p]].prev == o[p - 1] < n && ns[o[p]].next == NextOf(o, p)
    ensures NextOf(o, p) != IDX_NULL ==> NextOf(o, p) < n
    ensures o[p] == tail <==> p + 1 == |o|
  {
    assert LinkedAt(ns, o, p) && LinkedAt(ns, o, p - 1);
    DistinctAt(o, p, |o| - 1);
    if p + 1 < |o| {
      assert LinkedAt(ns, o, p + 1);
    }
  }

  /**
   * Unlinking position p > 0: its predecessor skips to its successor and back,
   * the tail moves back when p was last, and the slot is left between the lists.
   */
  lemma Unlinked<K, V>(ns0: seq<ValNode<K, V>>, ns1: seq<ValNode<K, V>>, ns2: seq<ValNode<K, V>>,
                       o: seq<nat>, f: seq<nat>, firstFree: nat, head: nat, tail0: nat, tail: nat, n: nat, p: nat)
    requires Lists(ns0, o, f, firstFree, head, tail0, n) && 0 < p < |o|
    requires tail == if o[p] == tail0 then o[p - 1] else tail0
    requires ns1 == ns0[o[p - 1] := ns0[o[p - 1]].(next := NextOf(o, p))]
    requires ns2 == if p + 1 < |o| then ns1[o[p + 1] := ns1[o[p + 1]].(prev := o[p - 1])] else ns1
    ensures Detached(ns2, o[..p] + o[p + 1..], f, firstFree, head, tail, n, o[p])
    ensures forall i :: i in o <==> i == o[p] || i in o[..p] + o[p + 1..]
    ensures SamePayload(ns0, ns2)
  {
    UnlinkEnds(ns0, o, f, firstFree, head, tail0, n, p);
    if p + 1 < |o| {
      DistinctAt(o, p - 1, p + 1);
    }
    var o1 := o[..p] + o[p + 1..];
    LinkedRemoveAt(ns0, ns2, o, p);
    RemoveAtPartition(o, f, n, p);
    FreeLinkedFrame(ns0, ns2, f);
    assert p + 1 == |o| ==> LastOr(o1) == o[p - 1];
    assert p + 1 < |o| ==> LastOr(o1) == LastOr(o);
  }

  // ---------------------------------------------------------------------------
  // The cache object
  // ---------------------------------------------------------------------------

  class LRUCache<K(==,0), V(0)> {
    const N: nat
    const nodes: array<ValNode<K, V>>
    var slotOf: map<K, nat>
    var size: nat
    var firstFree: nat
    var head: nat
    var tail: nat

    /** The occupied slots from head to tail. */
    ghost var Order: seq<nat>
    /** The free slots from `firstFree` on. */
    ghost var Free: seq<nat>

    ghost predicate Valid()
      reads this, nodes
    {
      Lists(nodes[..], Order, Free, firstFree, head, tail, N) &&
      size == |Order| && MapAgrees(nodes[..], Order, slotOf)
    }

    /** The cached entries, most recently used first. */
    ghost function Contents(): seq<(K, V)>
      reads this, nodes
      requires Valid()
    {
      Entries(nodes[..], Order)
    }

    /** Pops the first free slot, or answers IDX_NULL when there is none. */
    method GetFreeIdx() returns (idx: nat)
      requires nodes.Length == N < IDX_NULL && FreeLinked(nodes[..], Free) && InBounds(Free, N)
      requires firstFree == HeadOr(Free)
      modifies this`firstFree, this`Free
      ensures idx == HeadOr(old(Free))
      ensures Free == if old(Free) == [] then [] else old(Free)[1..]
      ensures FreeLinked(nodes[..], Free) && firstFree == HeadOr(Free)
      ensures nodes[..] == old(nodes[..])
    {
      if firstFree == IDX_NULL {
        return IDX_NULL;
      }
      idx := firstFree;
      FreeLinkedTail(nodes[..], Free);
      firstFree := nodes[firstFree].next;
      Free := Free[1..];
    }

    /** Empties both lists and threads every slot, in index order, onto the free list. */
    method ResetFreeList()
      requires nodes.Length == N
      modifies this`size, this`firstFree, this`head, this`tail, this`Order, this`Free, nodes
      ensures size == 0 && firstFree == 0 && head == IDX_NULL && tail == IDX_NULL
      ensures Order == [] && Free == seq(N, i => i)
      ensures forall i :: 0 <= i < N ==>
        nodes[i].prev == (if i == 0 then IDX_NULL else i - 1) &&
        nodes[i].next == (if i == N - 1 then IDX_NULL else i + 1)
      ensures forall i :: 0 <= i < N ==> nodes[i].key == old(nodes[i].key) && nodes[i].data == old(nodes[i].data)
    {
      size, firstFree := 0, 0;
      head, tail := IDX_NULL, IDX_NULL;
      var i := 0;
      while i < nodes.Length
        invariant 0 <= i <= N
        invariant size == 0 && firstFree == 0 && head == IDX_NULL && tail == IDX_NULL
        invariant forall j :: 0 <= j < i ==>
          nodes[j].prev == (if j == 0 then IDX_NULL else j - 1) &&
          nodes[j].next == (if j == N - 1 then IDX_NULL else j + 1)
        invariant forall j :: 0 <= j < N ==> nodes[j].key == old(nodes[j].key) && nodes[j].data == old(nodes[j].data)
      {
        nodes[i] := nodes[i].(prev := if i == 0 then IDX_NULL else i - 1,
                              next := if i == nodes.Length - 1 then IDX_NULL else i + 1);
        i := i + 1;
      }
      Order, Free := [], seq(N, i => i);
    }

    lemma ResetIsValid()
      requires nodes.Length == N && 0 < N < IDX_NULL && slotOf == map[]
      requires size == 0 && firstFree == 0 && head == IDX_NULL && tail == IDX_NULL
      requires Order == [] && Free == seq(N, i => i)
      requires forall i :: 0 <= i < N ==> nodes[i].next == (if i == N - 1 then IDX_NULL else i + 1)
      ensures Valid() && Contents() == []
    {
      forall j | 0 <= j < |Free| ensures FreeAt(nodes[..], Free, j) {
      }
    }

    constructor (n: nat)
      requires 0 < n < IDX_NULL
      ensures Valid() && Contents() == [] && N == n && fresh(nodes)
      ensures size == 0 && slotOf == map[] && head == IDX_NULL && tail == IDX_NULL
      ensures firstFree == 0 && Free == seq(n, i => i)
      ensures forall i :: 0 <= i < n ==>
        nodes[i].prev == (if i == 0 then IDX_NULL else i - 1) &&
        nodes[i].next == (if i == n - 1 then IDX_NULL else i + 1)
    {
      N := n;
      nodes := new ValNode<K, V>[n];
      slotOf := map[];
      new;
      ResetFreeList();
      ResetIsValid();
    }

    method Clear()
      requires Valid()
      modifies this, nodes
      ensures Valid() && Contents() == []
      ensures size == 0 && slotOf == map[] && head == IDX_NULL && tail == IDX_NULL
      ensures firstFree == 0 && Free == seq(N, i => i)
      ensures forall i :: 0 <= i < N ==>
        nodes[i].prev == (if i == 0 then IDX_NULL else i - 1) &&
        nodes[i].next == (if i == N - 1 then IDX_NULL else i + 1)
    {
      ResetFreeList();
      slotOf := map[];
      ResetIsValid();
    }

    /** The number of cached entries, never more than the capacity. */
    method Size() returns (r: nat)
      requires Valid()
      ensures r == |Contents()| && r <= N
    {
      r := size;
    }

    /** A plain map lookup: leaves the recency order alone. */
    method Contains(k: K) returns (b: bool)
      requires Valid()
      ensures b <==> k in KeysOf(Contents())
    {
      EntriesKeys(nodes[..], Order, slotOf);
      b := k in slotOf;
    }

    method Insert(k: K, v: V)
      requires Valid()
      modifies this, nodes
      ensures Valid()
      ensures Contents() == AfterInsert(old(Contents()), N, k, v)
      ensures old(k in slotOf) ==> slotOf == old(slotOf) && nodes[slotOf[k]].data == v
    {
      if k in slotOf {
        InsertCached(k, v);
      } else {
        InsertNew(k, v);
      }
    }

    /** `get_copy`: on a hit the key is inserted again with its own value, so it becomes the most recently used. */
    method GetCopy(k: K) returns (r: Option<V>)
      requires Valid()
      modifies this, nodes
      ensures Valid()
      ensures r.None? <==> k !in KeysOf(old(Contents()))
      ensures r.None? ==> Contents() == old(Contents())
      ensures r.Some? ==> r.value == Lookup(old(Contents()), k) && Contents() == AfterInsert(old(Contents()), N, k, r.value)
    {
      EntriesKeys(nodes[..], Order, slotOf);
      if k !in slotOf {
        return None;
      }
      var idx := slotOf[k];
      EntriesLookup(nodes[..], Order, slotOf, k);
      Insert(k, nodes[idx].data);
      r := Some(nodes[idx].data);
    }

    /**
     * `get_ptr`: the same recency effect as `GetCopy`; the pointer it returns is
     * modelled by the index of the slot that holds the value.
     */
    method GetPtr(k: K) returns (r: Option<nat>)
      requires Valid()
      modifies this, nodes
      ensures Valid()
      ensures r.None? <==> k !in KeysOf(old(Contents()))
      ensures r.None? ==> Contents() == old(Contents())
      ensures r.Some? ==> r.value < N && nodes[r.value].key == k && nodes[r.value].data == Lookup(old(Contents()), k)
      ensures r.Some? ==> Contents() == AfterInsert(old(Contents()), N, k, nodes[r.value].data)
    {
      EntriesKeys(nodes[..], Order, slotOf);
      if k !in slotOf {
        return None;
      }
      var idx := slotOf[k];
      EntriesLookup(nodes[..], Order, slotOf, k);
      Insert(k, nodes[idx].data);
      r := Some(idx);
    }

    /** `insert` of a cached key: overwrite its value and move its node to the head. */
    method InsertCached(k: K, v: V)
      requires Valid() && k in slotOf
      modifies this, nodes
      ensures Valid()
      ensures Contents() == AfterInsert(old(Contents()), N, k, v)
      ensures slotOf == old(slotOf) && nodes[slotOf[k]].data == v
    {
      ghost var ns0 := nodes[..];
      ghost var o0 := Order;
      var idx := slotOf[k];
      ghost var p := IndexOf(o0, idx);
      nodes[idx] := nodes[idx].(data := v);
      SameLinksKeepLists(ns0, nodes[..], o0, Free, firstFree, head, tail, N);
      MoveToHead(idx, p);
      CachedInsertEntries(ns0, nodes[..], o0, Order, slotOf, p, N, k, v);
    }

    /** Moves the node at position p of the recency list to the head; nothing to do when it is the head already. */
    method MoveToHead(idx: nat, ghost p: nat)
      requires Lists(nodes[..], Order, Free, firstFree, head, tail, N) && p < |Order| && Order[p] == idx
      modifies this`head, this`tail, this`Order, nodes
      ensures Lists(nodes[..], Order, Free, firstFree, head, tail, N)
      ensures Order == [idx] + old(Order)[..p] + old(Order)[p + 1..]
      ensures SamePayload(old(nodes[..]), nodes[..])
    {
      if idx == head {
        DistinctAt(Order, 0, p);
        assert Order == [idx] + Order[..0] + Order[1..];
        return;
      }
      Unlink(idx, p);
      PushHead(idx);
    }

    /** Takes the node at position p > 0 off the recency list (the unlinking half of the cached path). */
    method Unlink(idx: nat, ghost p: nat)
      requires Lists(nodes[..], Order, Free, firstFree, head, tail, N) && 0 < p < |Order| && Order[p] == idx
      modifies this`tail, this`Order, nodes
      ensures Detached(nodes[..], Order, Free, firstFree, head, tail, N, idx)
      ensures Order == old(Order)[..p] + old(Order)[p + 1..]
      ensures forall i :: i in old(Order) <==> i == idx || i in Order
      ensures SamePayload(old(nodes[..]), nodes[..])
    {
      ghost var ns0 := nodes[..];
      ghost var o0 := Order;
      ghost var tail0 := tail;
      UnlinkEnds(ns0, o0, Free, firstFree, head, tail, N, p);
      if idx == tail {
        tail := nodes[idx].prev;
      }
      var pv := nodes[idx].prev;
      var nx := nodes[idx].next;
      if pv != IDX_NULL {
        nodes[pv] := nodes[pv].(next := nx);
      }
      ghost var ns1 := nodes[..];
      if nx != IDX_NULL {
        nodes[nx] := nodes[nx].(prev := pv);
      }
      Order := o0[..p] + o0[p + 1..];
      Unlinked(ns0, ns1, nodes[..], o0, Free, firstFree, head, tail0, tail, N, p);
    }

    /** Links the detached slot idx in as the new head. */
    method PushHead(idx: nat)
      requires Detached(nodes[..], Order, Free, firstFree, head, tail, N, idx)
      modifies this`head, this`tail, this`Order, nodes
      ensures Lists(nodes[..], Order, Free, firstFree, head, tail, N)
      ensures Order == [idx] + old(Order)
      ensures SamePayload(old(nodes[..]), nodes[..])
    {
      ghost var ns0 := nodes[..];
      ghost var o0 := Order;
      var oldHead := head;
      head := idx;
      if tail == IDX_NULL {
        tail := head;
      }
      nodes[idx] := nodes[idx].(prev := IDX_NULL, next := oldHead);
      if oldHead != IDX_NULL {
        nodes[oldHead] := nodes[oldHead].(prev := idx);
      }
      Order := [idx] + o0;
      PushPartition(o0, Free, N, idx);
      FreeLinkedFrame(ns0, nodes[..], Free);
      if N >= 2 {
        LinkedPushFront(ns0, nodes[..], o0, idx);
      }
    }

    /** `insert` of a new key: take a free slot, or recycle the tail's slot when there is none. */
    method InsertNew(k: K, v: V)
      requires Valid() && k !in slotOf
      modifies this, nodes
      ensures Valid()
      ensures Contents() == AfterInsert(old(Contents()), N, k, v)
    {
      ghost var ns0 := nodes[..];
      ghost var o0 := Order;
      ghost var m0 := slotOf;
      var idx := TakeSlot();
      TakenEntries(ns0, nodes[..], o0, Order, m0, slotOf, N, k);
      FillSlot(idx, k, v);
    }

    /** Stores (k, v) in the detached slot idx, links it in as the new head and maps k to it. */
    method FillSlot(idx: nat, k: K, v: V)
      requires Detached(nodes[..], Order, Free, firstFree, head, tail, N, idx)
      requires MapAgrees(nodes[..], Order, slotOf) && size == |Order| + 1 && k !in slotOf
      modifies this`slotOf, this`head, this`tail, this`Order, nodes
      ensures Valid()
      ensures Contents() == [(k, v)] + old(Entries(nodes[..], Order))
    {
      ghost var ns1 := nodes[..];
      ghost var o1 := Order;
      ghost var m1 := slotOf;
      slotOf := slotOf[k := idx];
      PlaceAtHead(idx, k, v);
      FilledEntries(ns1, nodes[..], o1, m1, idx, k, v);
    }

    /** Stores (k, v) in the detached slot idx and links it in as the new head. */
    method PlaceAtHead(idx: nat, k: K, v: V)
      requires Detached(nodes[..], Order, Free, firstFree, head, tail, N, idx)
      modifies this`head, this`tail, this`Order, nodes
      ensures Lists(nodes[..], Order, Free, firstFree, head, tail, N)
      ensures Order == [idx] + old(Order)
      ensures SamePayload(old(nodes[..])[idx := old(nodes[idx]).(key := k, data := v)], nodes[..])
    {
      ghost var ns1 := nodes[..];
      nodes[idx] := nodes[idx].(key := k, data := v);
      SameLinksKeepDetached(ns1, nodes[..], Order, Free, firstFree, head, tail, N, idx);
      PushHead(idx);
    }

    /** A slot for a new key: the first free one, or else the least recently used one, evicted. */
    method TakeSlot() returns (idx: nat)
      requires Valid()
      modifies this`size, this`slotOf, this`tail, this`firstFree, this`Order, this`Free, nodes
      ensures Detached(nodes[..], Order, Free, firstFree, head, tail, N, idx)
      ensures MapAgrees(nodes[..], Order, slotOf) && size == |Order| + 1
      ensures SamePayload(old(nodes[..]), nodes[..])
      ensures if |old(Order)| < N then Order == old(Order) && slotOf == old(slotOf)
              else Order == old(Order)[..|old(Order)| - 1] && slotOf == old(slotOf) - {old(nodes[LastOr(Order)].key)}
    {
      ghost var f0 := Free;
      idx := GetFreeIdx();
      if idx == IDX_NULL {
        idx := RecycleTail();
      } else {
        PopFreePartition(Order, f0, N);
        size := size + 1;
      }
    }

    /** The cache is full: erase the least recently used key and hand its slot back through the free list. */
    method RecycleTail() returns (idx: nat)
      requires Valid() && Free == []
      modifies this`slotOf, this`tail, this`firstFree, this`Order, this`Free, nodes
      ensures Detached(nodes[..], Order, Free, firstFree, head, tail, N, idx)
      ensures idx == old(LastOr(Order)) && Order == old(Order[..|Order| - 1])
      ensures slotOf == old(slotOf) - {old(nodes[idx].key)}
      ensures MapAgrees(nodes[..], Order, slotOf)
      ensures SamePayload(old(nodes[..]), nodes[..])
    {
      var toDelete := EvictTail();
      firstFree := toDelete;
      Order := Order[..|Order| - 1];
      Free := [toDelete];
      idx := GetFreeIdx();
    }

    /**
     * The eviction half of `RecycleTail`: the tail's key leaves the map, its
     * predecessor becomes the tail and its own links point nowhere, so that it
     * alone forms the free list.
     */
    method EvictTail() returns (toDelete: nat)
      requires Valid() && Free == []
      modifies this`slotOf, this`tail, nodes
      ensures Evicted(old(nodes[..]), nodes[..], Order, old(slotOf), slotOf, head, tail, N, toDelete)
    {
      ghost var ns0 := nodes[..];
      ghost var m0 := slotOf;
      FullTail(ns0, Order, head, tail, N);
      toDelete := tail;
      slotOf := slotOf - {nodes[toDelete].key};
      ghost var tail0 := tail;
      if nodes[toDelete].prev != IDX_NULL {
        var newTail := nodes[toDelete].prev;
        nodes[newTail] := nodes[newTail].(next := IDX_NULL);
        tail := newTail;
      }
      ghost var ns1 := nodes[..];
      nodes[toDelete] := nodes[toDelete].(prev := IDX_NULL, next := firstFree);
      TailEvicted(ns0, ns1, nodes[..], Order, m0, head, tail0, tail, N);
    }
  }
}
