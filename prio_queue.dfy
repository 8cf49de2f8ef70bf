/**
 * The priority queue of aoclib/prio-queue.hpp: a multimap from priority to
 * element, kept in step with a map from element to its multimap entry so that
 * an element's priority can be changed without a search.
 *
 * The multimap is a sequence of (priority, element) entries in multimap order:
 * priorities never decrease, and an entry inserted at a priority already present
 * goes after the entries of that priority.  The element map stores the priority
 * of the element's entry; its entry is located by position when it is erased.
 */
module PrioQueues {
  import opened Wrappers

  ghost predicate Sorted<T>(q: seq<(int, T)>)
  {
    forall i, j :: 0 <= i < j < |q| ==> q[i].0 <= q[j].0
  }

  ghost predicate UniqueElems<T>(q: seq<(int, T)>)
  {
    forall i, j :: 0 <= i < j < |q| ==> q[i].1 != q[j].1
  }

  function ElemsOf<T>(q: seq<(int, T)>): set<T>
  {
    set i | 0 <= i < |q| :: q[i].1
  }

  /** Where the multimap's `insert` puts an entry of priority p: after every entry of priority <= p. */
  function UpperBound<T>(q: seq<(int, T)>, p: int): (i: nat)
    requires Sorted(q)
    ensures i <= |q|
    ensures forall j :: 0 <= j < i ==> q[j].0 <= p
    ensures forall j :: i <= j < |q| ==> q[j].0 > p
  {
    if q == [] || q[0].0 > p then 0 else 1 + UpperBound(q[1..], p)
  }

  function InsertAt<T>(q: seq<(int, T)>, i: nat, x: (int, T)): seq<(int, T)>
    requires i <= |q|
  {
    q[..i] + [x] + q[i..]
  }

  function RemoveAt<T>(q: seq<(int, T)>, i: nat): seq<(int, T)>
    requires i < |q|
  {
    q[..i] + q[i + 1..]
  }

  /** The multimap after inserting (p, e). */
  function Inserted<T>(q: seq<(int, T)>, p: int, e: T): seq<(int, T)>
    requires Sorted(q)
  {
    InsertAt(q, UpperBound(q, p), (p, e))
  }

  /**
   * `update_prio`'s effect on the multimap: the entry holding e is erased and e is
   * inserted again at the upper bound of priority p, after every entry of priority <= p.
   */
  ghost predicate ReInserted<T>(q: seq<(int, T)>, q': seq<(int, T)>, e: T, p: int)
  {
    exists i :: 0 <= i < |q| && q[i].1 == e && Sorted(RemoveAt(q, i)) && q' == Inserted(RemoveAt(q, i), p, e)
  }

  /** Entry k after inserting (p, e) at the upper bound: earlier entries stay, later ones shift by one. */
  lemma InsertedAt<T>(q: seq<(int, T)>, p: int, e: T, k: nat)
    requires Sorted(q) && k <= |q|
    ensures var i := UpperBound(q, p);
      Inserted(q, p, e)[k] == if k < i then q[k] else if k == i then (p, e) else q[k - 1]
  {
  }

  /** Inserting at the upper bound keeps the multimap ordered and adds exactly the one entry. */
  lemma InsertedSorted<T>(q: seq<(int, T)>, p: int, e: T)
    requires Sorted(q)
    ensures Sorted(Inserted(q, p, e))
    ensures |Inserted(q, p, e)| == |q| + 1 && multiset(Inserted(q, p, e)) == multiset(q) + multiset{(p, e)}
  {
    InsertedOrdered(q, p, e);
    var i := UpperBound(q, p);
    assert q == q[..i] + q[i..];
  }

  lemma InsertedOrdered<T>(q: seq<(int, T)>, p: int, e: T)
    requires Sorted(q)
    ensures Sorted(Inserted(q, p, e))
  {
    var r := Inserted(q, p, e);
    forall a, b | 0 <= a < b < |r| ensures r[a].0 <= r[b].0 {
      InsertedAt(q, p, e, a);
      InsertedAt(q, p, e, b);
    }
  }

  /** Inserting (p, e) adds e to the elements, and keeps them unique when e was absent. */
  lemma InsertedElems<T>(q: seq<(int, T)>, p: int, e: T)
    requires Sorted(q)
    ensures ElemsOf(Inserted(q, p, e)) == ElemsOf(q) + {e}
    ensures UniqueElems(q) && e !in ElemsOf(q) ==> UniqueElems(Inserted(q, p, e))
  {
    InsertedElemsCome(q, p, e);
    InsertedElemsStay(q, p, e);
    if UniqueElems(q) && e !in ElemsOf(q) {
      InsertedUnique(q, p, e);
    }
  }

  lemma InsertedElemsCome<T>(q: seq<(int, T)>, p: int, e: T)
    requires Sorted(q)
    ensures ElemsOf(Inserted(q, p, e)) <= ElemsOf(q) + {e}
  {
    var r := Inserted(q, p, e);
    forall x | x in ElemsOf(r) ensures x in ElemsOf(q) + {e} {
      var k :| 0 <= k < |r| && r[k].1 == x;
      InsertedAt(q, p, e, k);
    }
  }

  lemma InsertedElemsStay<T>(q: seq<(int, T)>, p: int, e: T)
    requires Sorted(q)
    ensures ElemsOf(q) + {e} <= ElemsOf(Inserted(q, p, e))
  {
    var i := UpperBound(q, p);
    var r := Inserted(q, p, e);
    forall x | x in ElemsOf(q) + {e} ensures x in ElemsOf(r) {
      if x == e {
        InsertedAt(q, p, e, i);
      } else {
        var k :| 0 <= k < |q| && q[k].1 == x;
        if k < i {
          InsertedAt(q, p, e, k);
        } else {
          InsertedAt(q, p, e, k + 1);
        }
      }
    }
  }

  lemma InsertedUnique<T>(q: seq<(int, T)>, p: int, e: T)
    requires Sorted(q) && UniqueElems(q) && e !in ElemsOf(q)
    ensures UniqueElems(Inserted(q, p, e))
  {
    var i := UpperBound(q, p);
    var r := Inserted(q, p, e);
    forall a, b | 0 <= a < b < |r| ensures r[a].1 != r[b].1 {
      InsertedAt(q, p, e, a);
      InsertedAt(q, p, e, b);
      if a < i {
        assert q[a].1 in ElemsOf(q);
      }
      if b > i {
        assert q[b - 1].1 in ElemsOf(q);
      }
    }
  }

  /** Erasing an entry keeps the multimap ordered and drops exactly its element. */
  lemma RemovedShape<T>(q: seq<(int, T)>, i: nat)
    requires Sorted(q) && UniqueElems(q) && i < |q|
    ensures var r := RemoveAt(q, i);
      && Sorted(r) && UniqueElems(r) && |r| == |q| - 1
      && ElemsOf(r) == ElemsOf(q) - {q[i].1}
      && forall k :: 0 <= k < |r| ==> r[k] == (if k < i then q[k] else q[k + 1])
  {
    RemovedAt(q, i);
    RemovedElems(q, i);
  }

  /** Entries before the erased one stay in place, later ones move down by one. */
  lemma RemovedAt<T>(q: seq<(int, T)>, i: nat)
    requires i < |q|
    ensures var r := RemoveAt(q, i);
      |r| == |q| - 1 && forall k :: 0 <= k < |r| ==> r[k] == (if k < i then q[k] else q[k + 1])
  {
    var r := RemoveAt(q, i);
    forall k | 0 <= k < |r| ensures r[k] == (if k < i then q[k] else q[k + 1]) {
    }
  }

  lemma RemovedElems<T>(q: seq<(int, T)>, i: nat)
    requires UniqueElems(q) && i < |q|
    ensures ElemsOf(RemoveAt(q, i)) == ElemsOf(q) - {q[i].1}
  {
    var r := RemoveAt(q, i);
    RemovedAt(q, i);
    forall x | x in ElemsOf(r) ensures x in ElemsOf(q) - {q[i].1} {
      var k :| 0 <= k < |r| && r[k].1 == x;
    }
    forall x | x in ElemsOf(q) - {q[i].1} ensures x in ElemsOf(r) {
      var k :| 0 <= k < |q| && q[k].1 == x;
      if k < i {
        assert r[k] == q[k];
      } else {
        assert r[k - 1] == q[k];
      }
    }
  }

  /** With unique elements there are as many elements as entries. */
  lemma {:induction false} ElemsCount<T>(q: seq<(int, T)>)
    requires UniqueElems(q)
    ensures |ElemsOf(q)| == |q|
  {
    if q != [] {
      var t := q[1..];
      ElemsCount(t);
      assert ElemsOf(q) == ElemsOf(t) + {q[0].1} by {
        forall x | x in ElemsOf(q) ensures x in ElemsOf(t) + {q[0].1} {
          var k :| 0 <= k < |q| && q[k].1 == x;
          if k > 0 {
            assert t[k - 1] == q[k];
          }
        }
        forall x | x in ElemsOf(t) ensures x in ElemsOf(q) {
          var k :| 0 <= k < |t| && t[k].1 == x;
          assert q[k + 1] == t[k];
        }
      }
      forall k | 0 <= k < |t| ensures t[k].1 != q[0].1 {
        assert t[k] == q[k + 1];
      }
    }
  }

  /** Removing a key and adding it back with a value is updating it. */
  lemma MapReplace<K, V>(m: map<K, V>, k: K, v: V)
    ensures (m - {k})[k := v] == m[k := v]
  {
    var a, b := (m - {k})[k := v], m[k := v];
    assert a.Keys == b.Keys;
    forall x | x in a.Keys ensures a[x] == b[x] {
    }
  }

  /** The multimap is ordered with unique elements, and the element map holds each element's priority. */
  ghost predicate Agree<T>(q: seq<(int, T)>, m: map<T, int>)
  {
    && Sorted(q) && UniqueElems(q)
    && m.Keys == ElemsOf(q)
    && forall i :: 0 <= i < |q| ==> q[i].1 in m && m[q[i].1] == q[i].0
  }

  /** `insert` of an absent element keeps the two containers in step. */
  lemma InsertAgree<T>(q: seq<(int, T)>, m: map<T, int>, p: int, e: T)
    requires Agree(q, m) && e !in m
    ensures Agree(Inserted(q, p, e), m[e := p])
  {
    InsertedSorted(q, p, e);
    InsertedElems(q, p, e);
    var r := Inserted(q, p, e);
    forall k | 0 <= k < |r| ensures r[k].1 in m[e := p] && m[e := p][r[k].1] == r[k].0 {
      InsertedAt(q, p, e, k);
    }
  }

  /** Erasing an element's entry and its map key keeps the two containers in step. */
  lemma RemoveAgree<T>(q: seq<(int, T)>, m: map<T, int>, i: nat)
    requires Agree(q, m) && i < |q|
    ensures Agree(RemoveAt(q, i), m - {q[i].1})
  {
    RemovedShape(q, i);
    var r := RemoveAt(q, i);
    forall k | 0 <= k < |r| ensures r[k].1 in m - {q[i].1} && (m - {q[i].1})[r[k].1] == r[k].0 {
      assert r[k].1 in ElemsOf(r);
    }
  }

  /** Erasing the first entry removes an element of least priority. */
  lemma EraseFirstAgree<T>(q: seq<(int, T)>, m: map<T, int>)
    requires Agree(q, m) && q != []
    ensures Agree(q[1..], m - {q[0].1})
    ensures forall e :: e in m - {q[0].1} ==> q[0].0 <= m[e]
  {
    RemoveAgree(q, m, 0);
    assert RemoveAt(q, 0) == q[1..];
    FirstIsLeast(q, m);
  }

  lemma FirstIsLeast<T>(q: seq<(int, T)>, m: map<T, int>)
    requires Agree(q, m) && q != []
    ensures forall e :: e in m ==> q[0].0 <= m[e]
  {
    forall e | e in m ensures q[0].0 <= m[e] {
      var k :| 0 <= k < |q| && q[k].1 == e;
    }
  }

  class PrioQueue<T(==)> {
    var prioToElem: seq<(int, T)>
    var elemToPrio: map<T, int>

    /** The multimap is ordered with unique elements, and the element map agrees with it. */
    ghost predicate Valid()
      reads this
    {
      Agree(prioToElem, elemToPrio)
    }

    constructor ()
      ensures prioToElem == [] && elemToPrio == map[] && Valid()
    {
      prioToElem := [];
      elemToPrio := map[];
    }

    /** `contains` is a lookup in the element map, which agrees with the multimap. */
    function Contains(elem: T): (r: bool)
      reads this
      requires Valid()
      ensures r <==> exists i :: 0 <= i < |prioToElem| && prioToElem[i].1 == elem
    {
      elem in elemToPrio
    }

    /** `size` counts the element map, which has one key per multimap entry. */
    function Size(): (r: nat)
      reads this
      requires Valid()
      ensures r == |prioToElem|
    {
      ElemsCount(prioToElem);
      |elemToPrio|
    }

    /** `empty` looks at the multimap; the element map is then empty too. */
    function Empty(): (r: bool)
      reads this
      requires Valid()
      ensures r <==> Size() == 0
      ensures r ==> elemToPrio == map[]
    {
      |prioToElem| == 0
    }

    /** The entry of a queued element, which the element map's iterator designates. */
    method Locate(elem: T) returns (i: nat)
      requires Valid() && elem in elemToPrio
      ensures i < |prioToElem| && prioToElem[i].1 == elem
    {
      assert elem in ElemsOf(prioToElem);
      ghost var at :| 0 <= at < |prioToElem| && prioToElem[at].1 == elem;
      i := 0;
      while prioToElem[i].1 != elem
        invariant i <= at
        invariant forall j :: 0 <= j < i ==> prioToElem[j].1 != elem
        decreases at - i
      {
        i := i + 1;
      }
    }

    /** `insert`: an element already queued is an invalid_argument; otherwise one entry is added. */
    method Insert(elem: T, priority: int) returns (out: Outcome)
      requires Valid()
      modifies this
      ensures Valid()
      ensures old(elem in elemToPrio) ==>
                out == Fail(InvalidArgument) && prioToElem == old(prioToElem) && elemToPrio == old(elemToPrio)
      ensures old(elem !in elemToPrio) ==>
                && out == Pass && elemToPrio == old(elemToPrio)[elem := priority]
                && prioToElem == Inserted(old(prioToElem), priority, elem)
      ensures out.Pass? ==> Size() == old(Size()) + 1 && Contains(elem)
    {
      if elem in elemToPrio {
        return Fail(InvalidArgument);
      }
      InsertAgree(prioToElem, elemToPrio, priority, elem);
      InsertedSorted(prioToElem, priority, elem);
      prioToElem := Inserted(prioToElem, priority, elem);
      elemToPrio := elemToPrio[elem := priority];
      out := Pass;
    }

    /**
     * `update_prio`: an element not queued is an out_of_range; otherwise its entry
     * is erased and the element inserted again at the new priority.
     */
    method UpdatePrio(elem: T, newPriority: int) returns (out: Outcome)
      requires Valid()
      modifies this
      ensures Valid()
      ensures old(elem !in elemToPrio) ==>
                out == Fail(OutOfRange) && prioToElem == old(prioToElem) && elemToPrio == old(elemToPrio)
      ensures old(elem in elemToPrio) ==>
                && out == Pass && elemToPrio == old(elemToPrio)[elem := newPriority]
                && ElemsOf(prioToElem) == old(ElemsOf(prioToElem))
      ensures old(elem in elemToPrio) ==> ReInserted(old(prioToElem), prioToElem, elem, newPriority)
      ensures out.Pass? ==> Size() == old(Size()) && Contains(elem)
    {
      if elem !in elemToPrio {
        return Fail(OutOfRange);
      }
      var i := Locate(elem);
      ghost var m0, q0 := elemToPrio, prioToElem;
      RemoveAgree(prioToElem, elemToPrio, i);
      RemovedShape(prioToElem, i);
      elemToPrio := elemToPrio - {elem};
      prioToElem := RemoveAt(prioToElem, i);
      MapReplace(m0, elem, newPriority);
      out := Insert(elem, newPriority);
      assert q0[i].1 == elem && Sorted(RemoveAt(q0, i)) && prioToElem == Inserted(RemoveAt(q0, i), newPriority, elem);
    }

    /** `insert_or_update`: never throws; afterwards the element is queued at the given priority. */
    method InsertOrUpdate(elem: T, priority: int)
      requires Valid()
      modifies this
      ensures Valid()
      ensures elemToPrio == old(elemToPrio)[elem := priority]
      ensures Contains(elem)
      ensures old(elem in elemToPrio) ==> ReInserted(old(prioToElem), prioToElem, elem, priority) && Size() == old(Size())
      ensures old(elem !in elemToPrio) ==> prioToElem == Inserted(old(prioToElem), priority, elem) && Size() == old(Size()) + 1
    {
      var out;
      if Contains(elem) {
        out := UpdatePrio(elem, priority);
      } else {
        out := Insert(elem, priority);
      }
    }

    /** Erases the first entry, the one `begin` designates, and its element. */
    method EraseBegin() returns (elem: T, priority: int)
      requires Valid() && prioToElem != []
      modifies this
      ensures Valid()
      ensures (priority, elem) == old(prioToElem[0])
      ensures prioToElem == old(prioToElem[1..]) && elemToPrio == old(elemToPrio) - {elem}
      ensures forall e :: e in elemToPrio ==> priority <= elemToPrio[e]
      ensures Size() == old(Size()) - 1 && !Contains(elem)
    {
      EraseFirstAgree(prioToElem, elemToPrio);
      elem, priority := prioToElem[0].1, prioToElem[0].0;
      prioToElem := prioToElem[1..];
      elemToPrio := elemToPrio - {elem};
    }

    /**
     * `extract_min`: an empty queue is an out_of_range; otherwise the first entry
     * leaves the queue, and its element, whose priority is the least, is returned.
     */
    method ExtractMin() returns (r: Result<T>)
      requires Valid()
      modifies this
      ensures Valid()
      ensures old(prioToElem) == [] <==> r == Err(OutOfRange)
      ensures r.Err? ==> prioToElem == old(prioToElem) && elemToPrio == old(elemToPrio)
      ensures r.Ok? ==> r.value == old(prioToElem[0].1) && prioToElem == old(prioToElem[1..])
      ensures r.Ok? ==> r.value in old(elemToPrio) && elemToPrio == old(elemToPrio) - {r.value}
      ensures r.Ok? ==> forall e :: e in elemToPrio ==> old(elemToPrio[r.value]) <= elemToPrio[e]
      ensures r.Ok? ==> Size() == old(Size()) - 1
    {
      if prioToElem == [] {
        return Err(OutOfRange);
      }
      var elem, priority := EraseBegin();
      r := Ok(elem);
    }

    /** `extract_min(prio)` as intended: also reports the extracted entry's priority, the least one. */
    method ExtractMinPrio() returns (r: Result<(T, int)>)
      requires Valid()
      modifies this
      ensures Valid()
      ensures old(prioToElem) == [] <==> r == Err(OutOfRange)
      ensures r.Err? ==> prioToElem == old(prioToElem) && elemToPrio == old(elemToPrio)
      ensures r.Ok? ==> r.value == (old(prioToElem[0].1), old(prioToElem[0].0)) && prioToElem == old(prioToElem[1..])
      ensures r.Ok? ==> r.value.0 in old(elemToPrio) && r.value.1 == old(elemToPrio[r.value.0])
      ensures r.Ok? ==> forall e :: e in elemToPrio ==> r.value.1 <= elemToPrio[e]
      ensures r.Ok? ==> Size() == old(Size()) - 1
    {
      if prioToElem == [] {
        return Err(OutOfRange);
      }
      var elem, priority := EraseBegin();
      r := Ok((elem, priority));
    }

    /**
     * `extract_min(prio)` as written: the priority is read through the `begin`
     * iterator after its entry was erased, so it has no defined value (None).
     */
    method ExtractMinPrioAsWritten() returns (r: Result<(T, Option<int>)>)
      requires Valid()
      modifies this
      ensures Valid()
      ensures old(prioToElem) == [] <==> r == Err(OutOfRange)
      ensures r.Ok? ==> r.value.0 == old(prioToElem[0].1) && prioToElem == old(prioToElem[1..])
      ensures r.Ok? ==> r.value.1 == None
    {
      if prioToElem == [] {
        return Err(OutOfRange);
      }
      var minElem := prioToElem[0];
      var elem, priority := EraseBegin();
      // the entry `minElem` designated is no longer in the multimap
      var prio: Option<int> := if minElem in prioToElem then Some(minElem.0) else None;
      r := Ok((elem, prio));
    }
  }
}
