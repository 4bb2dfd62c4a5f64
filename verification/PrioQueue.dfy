/** The priority queues of the kernel: what GlistInsert of lib/glist.c makes of a list, for the two
    comparison functions that its users install. */
module PrioQueue {
  import opened Utils

  /** An object in a queue, with the priority it was queued at and the moment it was queued. */
  datatype Queued<T> = Queued(item: T, prio: nat, stamp: nat)

  // ----- Comparison functions: the list is walked while the result is positive -----

  /** MsgListSort and NotifyListSort: equal priorities are passed, the oldest stays first. */
  function MsgListSort(current: nat, prio: nat): int {
    if current == prio then 1 else current - prio
  }

  /** ReadyListSort: compares with one less than the new priority, unless that is 0 or 1. */
  function ReadyListSort(current: nat, prio: nat): int {
    current - (if prio > 1 then prio - 1 else prio)
  }

  /** The comparison function installed in a list. */
  datatype Sort = MsgSort | ReadySort

  function Compare(sort: Sort, current: nat, prio: nat): int {
    match sort
    case MsgSort => MsgListSort(current, prio)
    case ReadySort => ReadyListSort(current, prio)
  }

  // ----- Insertion -----

  /** Where the walk stops: the first place whose object is not passed. */
  function InsertPos<T>(q: seq<Queued<T>>, prio: nat, sort: Sort): (i: nat)
    ensures i <= |q|
    ensures forall j :: 0 <= j < i ==> Compare(sort, q[j].prio, prio) > 0
    ensures i < |q| ==> Compare(sort, q[i].prio, prio) <= 0
  {
    if q == [] || Compare(sort, q[0].prio, prio) <= 0 then 0 else 1 + InsertPos(q[1..], prio, sort)
  }

  function Insert<T>(q: seq<Queued<T>>, x: Queued<T>, sort: Sort): (r: seq<Queued<T>>)
    ensures |r| == |q| + 1
  {
    InsertAt(q, InsertPos(q, x.prio, sort), x)
  }

  /** Higher priority or, among equals, older. */
  predicate Before<S, T>(a: Queued<S>, b: Queued<T>) {
    a.prio > b.prio || (a.prio == b.prio && a.stamp < b.stamp)
  }

  /** Highest priority first, among equals the oldest first. */
  ghost predicate Ordered<T>(q: seq<Queued<T>>) {
    forall i, j :: 0 <= i < j < |q| ==> Before(q[i], q[j])
  }

  /** Highest priority first. */
  ghost predicate Descending<T>(q: seq<Queued<T>>) {
    forall i, j :: 0 <= i < j < |q| ==> q[i].prio >= q[j].prio
  }

  /** Everything in the queue was queued before the given moment. */
  ghost predicate Older<T>(q: seq<Queued<T>>, clock: nat) {
    forall i :: 0 <= i < |q| ==> q[i].stamp < clock
  }

  /** Each item is in the queue at most once. */
  ghost predicate Unique<T>(q: seq<Queued<T>>) {
    forall i, j :: 0 <= i < j < |q| ==> q[i].item != q[j].item
  }

  predicate Holds<T(==)>(q: seq<Queued<T>>, item: T) {
    exists i :: 0 <= i < |q| && q[i].item == item
  }

  /** Message queues stay in order of priority and age. */
  lemma MsgInsertOrdered<T>(q: seq<Queued<T>>, x: Queued<T>)
    requires Ordered(q) && Older(q, x.stamp)
    ensures Ordered(Insert(q, x, MsgSort))
  {
    var i, r := InsertPos(q, x.prio, MsgSort), Insert(q, x, MsgSort);
    forall j, k | 0 <= j < k < |r|
      ensures Before(r[j], r[k])
    {
      if k < i {
        assert r[j] == q[j] && r[k] == q[k];
      } else if k == i {
        assert Compare(MsgSort, q[j].prio, x.prio) > 0;
      } else if j == i {
        assert r[k] == q[k - 1] && (k - 1 > i ==> Before(q[i], q[k - 1]));
      } else if j > i {
        assert r[j] == q[j - 1] && r[k] == q[k - 1];
      }
    }
  }

  /** The ready list stays in order of priority. */
  lemma ReadyInsertDescending<T>(q: seq<Queued<T>>, x: Queued<T>)
    requires Descending(q)
    ensures Descending(Insert(q, x, ReadySort))
  {
    var i := InsertPos(q, x.prio, ReadySort);
    assert i < |q| ==> q[i].prio <= x.prio;
    assert forall j :: 0 <= j < i ==> q[j].prio >= x.prio;
  }

  /** Priorities above 1 queue behind their equals, 0 and 1 before them. */
  lemma ReadyInsertAmongEquals<T>(q: seq<Queued<T>>, x: Queued<T>, j: nat)
    requires Descending(q) && j < |q| && q[j].prio == x.prio
    ensures j < InsertPos(q, x.prio, ReadySort) <==> x.prio > 1
  {
  }

  /** A task joined a queue in ReadyListSort's order: behind all of higher priority, and behind its equals if
      it is above 1. */
  ghost predicate Joins<T>(q: seq<Queued<T>>, q': seq<Queued<T>>, item: T, prio: nat) {
    exists i :: 0 <= i <= |q| && JoinsAt(q, q', item, prio, i)
  }

  ghost predicate JoinsAt<T>(q: seq<Queued<T>>, q': seq<Queued<T>>, item: T, prio: nat, i: nat) {
    && i <= |q| && q' == q[..i] + [Queued(item, prio, 0)] + q[i..]
    && forall j :: 0 <= j < |q| ==> (j < i <==> q[j].prio > prio || (q[j].prio == prio && prio > 1))
  }

  lemma ReadyJoins<T>(q: seq<Queued<T>>, item: T, prio: nat)
    requires Descending(q)
    ensures Joins(q, Insert(q, Queued(item, prio, 0), ReadySort), item, prio)
  {
    var i := InsertPos(q, prio, ReadySort);
    assert JoinsAt(q, Insert(q, Queued(item, prio, 0), ReadySort), item, prio, i);
  }

  /** Insertion adds the new item and keeps the others. */
  lemma InsertElements<T>(q: seq<Queued<T>>, x: Queued<T>, sort: Sort)
    ensures multiset(Insert(q, x, sort)) == multiset(q) + multiset{x}
    ensures forall e :: e in Insert(q, x, sort) <==> e in q || e == x
  {
    var i := InsertPos(q, x.prio, sort);
    assert q == q[..i] + q[i..];
  }

  lemma InsertHolds<T>(q: seq<Queued<T>>, x: Queued<T>, sort: Sort)
    ensures forall item: T :: Holds(Insert(q, x, sort), item) <==> Holds(q, item) || item == x.item
  {
    InsertElements(q, x, sort);
    forall item: T
      ensures Holds(Insert(q, x, sort), item) <==> Holds(q, item) || item == x.item
    {
      HoldsIn(Insert(q, x, sort), item);
      HoldsIn(q, item);
    }
  }

  lemma InsertUnique<T>(q: seq<Queued<T>>, x: Queued<T>, sort: Sort)
    requires Unique(q) && !Holds(q, x.item)
    ensures Unique(Insert(q, x, sort))
  {
  }

  // ----- Removal -----

  /** The queue once its first object was taken. */
  lemma RestKeeps<T>(q: seq<Queued<T>>)
    requires q != [] && Unique(q)
    ensures Unique(q[1..]) && Holds(q, q[0].item) && (Descending(q) ==> Descending(q[1..]))
    ensures forall w :: w in q[1..] <==> w in q && w.item != q[0].item
    ensures forall item: T :: Holds(q[1..], item) <==> Holds(q, item) && item != q[0].item
  {
    var r := q[1..];
    assert q[0].item == q[0].item;
    assert forall i :: 0 <= i < |r| ==> r[i] == q[i + 1];
    forall item: T
      ensures Holds(r, item) <==> Holds(q, item) && item != q[0].item
    {
      if Holds(r, item) {
        var i :| 0 <= i < |r| && r[i].item == item;
        assert q[i + 1].item == item;
      }
      if Holds(q, item) && item != q[0].item {
        var i :| 0 <= i < |q| && q[i].item == item;
        assert r[i - 1].item == item;
      }
    }
  }

  /** The queue without the object in it (GlistRemoveNode). */
  function RemoveItem<T(==)>(q: seq<Queued<T>>, item: T): (r: seq<Queued<T>>)
    ensures |r| <= |q|
  {
    if q == [] then [] else if q[0].item == item then q[1..] else [q[0]] + RemoveItem(q[1..], item)
  }

  lemma {:induction false} RemoveItemAt<T>(q: seq<Queued<T>>, i: nat)
    requires Unique(q) && i < |q|
    ensures RemoveItem(q, q[i].item) == q[..i] + q[i + 1..]
  {
    if i > 0 {
      var t := q[1..];
      RemoveItemAt(t, i - 1);
      assert [q[0]] + (t[..i - 1] + t[i..]) == q[..i] + q[i + 1..];
    }
  }

  lemma CutKeeps<T>(q: seq<Queued<T>>, i: nat)
    requires i < |q|
    ensures Unique(q) ==> Unique(Cut(q, i))
    ensures Descending(q) ==> Descending(Cut(q, i))
    ensures forall clock :: Older(q, clock) ==> Older(Cut(q, i), clock)
  {
  }

  lemma CutOrdered<T>(q: seq<Queued<T>>, i: nat)
    requires i < |q| && Ordered(q)
    ensures Ordered(Cut(q, i))
  {
  }

  lemma RemoveItemCut<T>(q: seq<Queued<T>>, item: T) returns (i: nat)
    requires Unique(q) && Holds(q, item)
    ensures i < |q| && q[i].item == item && RemoveItem(q, item) == Cut(q, i)
  {
    i :| 0 <= i < |q| && q[i].item == item;
    RemoveItemAt(q, i);
  }

  lemma RemoveItemKeeps<T>(q: seq<Queued<T>>, item: T)
    requires Unique(q) && Holds(q, item)
    ensures Unique(RemoveItem(q, item))
    ensures Ordered(q) ==> Ordered(RemoveItem(q, item))
    ensures Descending(q) ==> Descending(RemoveItem(q, item))
    ensures forall clock :: Older(q, clock) ==> Older(RemoveItem(q, item), clock)
  {
    var i := RemoveItemCut(q, item);
    CutKeeps(q, i);
    if Ordered(q) { CutOrdered(q, i); }
  }

  lemma {:induction false} RemoveItemHolds<T>(q: seq<Queued<T>>, item: T)
    requires Unique(q) && Holds(q, item)
    ensures forall e :: e in RemoveItem(q, item) <==> e in q && e.item != item
    ensures forall other: T :: Holds(RemoveItem(q, item), other) <==> Holds(q, other) && other != item
  {
    RemoveItemElements(q, item);
    var r := RemoveItem(q, item);
    forall other: T
      ensures Holds(r, other) <==> exists e :: e in r && e.item == other
      ensures Holds(q, other) <==> exists e :: e in q && e.item == other
    {
      HoldsIn(r, other);
      HoldsIn(q, other);
    }
  }

  lemma HoldsIn<T>(q: seq<Queued<T>>, item: T)
    ensures Holds(q, item) <==> exists e :: e in q && e.item == item
  {
    if Holds(q, item) {
      var i :| 0 <= i < |q| && q[i].item == item;
      assert q[i] in q;
    }
  }

  lemma {:induction false} RemoveItemElements<T>(q: seq<Queued<T>>, item: T)
    requires Unique(q) && Holds(q, item)
    ensures forall e :: e in RemoveItem(q, item) <==> e in q && e.item != item
  {
    if q[0].item != item {
      assert forall e :: e in q <==> e == q[0] || e in q[1..];
      var i :| 0 <= i < |q| && q[i].item == item;
      assert q[1..][i - 1].item == item;
      RemoveItemElements(q[1..], item);
    }
  }
}
