/** The kernel list of lib/glist.c: doubly linked nodes that the listed objects embed. */
module Glist {
  import opened Utils
  import opened PrioQueue

  class GlistNode {
    var next: GlistNode?
    var prev: GlistNode?
    var owner: Glist?
    /** The object that embeds the node: who it is, the priority or time that the list sorts it by, its age. */
    const item: nat
    var key: nat
    ghost var stamp: nat

    ghost function Entry(): Queued<nat>
      reads this
    {
      Queued(item, key, stamp)
    }
  }

  ghost function NodeAt(nodes: seq<GlistNode>, i: int): GlistNode? {
    if 0 <= i < |nodes| then nodes[i] else null
  }

  datatype GlistType = GList | GFifo

  class Glist {
    const glistType: GlistType
    const sort: Sort
    var first: GlistNode?
    var last: GlistNode?
    var count: nat
    ghost var nodes: seq<GlistNode>
    /** The list as a queue of its objects. */
    ghost var queue: seq<Queued<nat>>

    ghost predicate Valid()
      reads this, nodes
    {
      && count == |nodes| == |queue|
      && first == NodeAt(nodes, 0) && last == NodeAt(nodes, |nodes| - 1)
      && (forall i, j :: 0 <= i < j < |nodes| ==> nodes[i] != nodes[j])
      && forall i {:trigger Linked(i)} :: 0 <= i < |nodes| ==> Linked(i)
    }

    ghost predicate Linked(i: nat)
      requires i < |nodes| == |queue|
      reads this, nodes
    {
      var node := nodes[i];
      && node.owner == this && node.next == NodeAt(nodes, i + 1) && node.prev == NodeAt(nodes, i - 1)
      && queue[i] == node.Entry()
    }

    constructor (glistType: GlistType, sort: Sort)
      ensures Valid() && queue == [] && this.glistType == glistType && this.sort == sort
    {
      this.glistType, this.sort := glistType, sort;
      first, last, count, nodes, queue := null, null, 0, [], [];
    }

    /** A node that is in no list is not in this one. */
    lemma NotListed(node: GlistNode)
      requires Valid() && node.owner == null
      ensures node !in nodes
    {
      forall i | 0 <= i < |nodes|
        ensures nodes[i] != node
      {
        assert Linked(i);
      }
    }

    /** Link a node in at its place, or at the end of a queue. */
    method GlistInsertObject(node: GlistNode)
      requires Valid() && node.owner == null
      modifies this, nodes`next, nodes`prev, node`next, node`prev, node`owner
      ensures Valid() && node in nodes
      ensures queue == if glistType == GList then old(Insert(queue, node.Entry(), sort))
                       else old(queue) + [old(node.Entry())]
    {
      NotListed(node);
      node.owner := this;
      node.next := null;
      node.prev := null;
      if glistType == GList {
        GlistInsert(node);
      } else {
        GqueueInsert(node);
      }
    }

    method GlistInsert(node: GlistNode)
      requires Valid() && node !in nodes && node.owner == this
      modifies this, nodes`next, nodes`prev, node`next, node`prev
      ensures Valid() && node in nodes
      ensures queue == old(Insert(queue, node.Entry(), sort))
    {
      ghost var q := queue;
      var it := first;
      ghost var i := 0;
      while it != null && Compare(sort, it.key, node.key) > 0
        invariant 0 <= i <= |nodes| && it == NodeAt(nodes, i)
        invariant forall j :: 0 <= j < i ==> Compare(sort, q[j].prio, node.key) > 0
        decreases |nodes| - i
      {
        assert Linked(i);
        it := it.next;
        i := i + 1;
        assert i < |nodes| ==> Linked(i);
      }
      assert i < |nodes| ==> Linked(i);
      StopsAt(q, node.key, sort, i);
      if it == null {
        LinkLast(node);
      } else {
        LinkBefore(it, node, i);
      }
    }

    /** Insert new object at the end of the list. */
    method LinkLast(node: GlistNode)
      requires Valid() && node !in nodes && node.owner == this
      modifies this, nodes`next, nodes`prev, node`next, node`prev
      ensures Valid() && nodes == old(nodes) + [node] && queue == old(queue) + [old(node.Entry())]
    {
      assert nodes != [] ==> Linked(|nodes| - 1);
      node.next := null;
      node.prev := last;
      if last != null {
        last.next := node;
      } else {
        first := node;
      }
      last := node;
      count := count + 1;
      nodes, queue := nodes + [node], queue + [node.Entry()];
      forall j | 0 <= j < |nodes|
        ensures Linked(j)
      {
        assert j < |nodes| - 1 ==> old(Linked(j));
      }
    }

    /** Insert new object before the i-th. */
    method LinkBefore(it: GlistNode, node: GlistNode, ghost i: nat)
      requires Valid() && node !in nodes && node.owner == this && i < |nodes| && it == nodes[i]
      modifies this, nodes`next, nodes`prev, node`next, node`prev
      ensures Valid() && nodes == InsertAt(old(nodes), i, node) && queue == InsertAt(old(queue), i, old(node.Entry()))
    {
      ghost var s, q := nodes, queue;
      Splice(it, node, i);
      count := count + 1;
      nodes, queue := InsertAt(s, i, node), InsertAt(q, i, node.Entry());
      forall j | 0 <= j < |nodes|
        ensures Linked(j)
      {
        if j != i {
          ghost var k := if j < i then j else j - 1;
          assert nodes[j] == s[k] && old(Linked(k));
        }
      }
    }

    /** The links of a new node and its neighbours. */
    method Splice(it: GlistNode, node: GlistNode, ghost i: nat)
      requires Valid() && node !in nodes && i < |nodes| && it == nodes[i]
      modifies this`first, nodes`next, nodes`prev, node`next, node`prev
      ensures node.next == it && node.prev == NodeAt(nodes, i - 1) && first == if i == 0 then node else old(first)
      ensures forall k :: 0 <= k < |nodes| ==> nodes[k].next == if k == i - 1 then node else old(nodes[k].next)
      ensures forall k :: 0 <= k < |nodes| ==> nodes[k].prev == if k == i then node else old(nodes[k].prev)
    {
      assert Linked(i) && (i > 0 ==> Linked(i - 1));
      node.next := it;
      node.prev := it.prev;
      it.prev := node;
      if node.prev != null {
        node.prev.next := node;
      } else {
        first := node;
      }
    }

    method GqueueInsert(node: GlistNode)
      requires Valid() && node !in nodes && node.owner == this
      modifies this, nodes`next, nodes`prev, node`next, node`prev
      ensures Valid() && node in nodes
      ensures queue == old(queue) + [old(node.Entry())]
    {
      assert nodes != [] ==> Linked(|nodes| - 1);
      node.prev := last;
      node.next := null;
      if last != null {
        last.next := node;
      }
      last := node;
      if first == null {
        first := node;
      }
      count := count + 1;
      nodes, queue := nodes + [node], queue + [node.Entry()];
      forall j | 0 <= j < |nodes|
        ensures Linked(j)
      {
        assert j < |nodes| - 1 ==> old(Linked(j));
      }
    }

    /** Unlink a node of this list. */
    method GlistRemoveNode(node: GlistNode, ghost i: nat)
      requires Valid() && i < |nodes| && node == nodes[i]
      modifies this, nodes`next, nodes`prev
      ensures Valid() && nodes == Cut(old(nodes), i) && queue == Cut(old(queue), i)
    {
      ghost var s, q := nodes, queue;
      assert Linked(i) && (i > 0 ==> Linked(i - 1)) && (i + 1 < |nodes| ==> Linked(i + 1));
      if node.prev != null {
        node.prev.next := node.next;
      } else {
        first := node.next;
      }
      if node.next != null {
        node.next.prev := node.prev;
      } else {
        last := node.prev;
      }
      count := count - 1;
      nodes, queue := Cut(s, i), Cut(q, i);
      forall j | 0 <= j < |nodes|
        ensures Linked(j)
      {
        assert old(Linked(if j < i then j else j + 1));
      }
    }

    /** Remove the given node from its list; a node that is in no list is refused. */
    static method GlistRemoveSpecific(node: GlistNode, ghost i: nat) returns (ok: bool)
      requires node.owner != null ==> node.owner.Valid() && i < |node.owner.nodes| && node == node.owner.nodes[i]
      modifies node.owner, if node.owner == null then {} else set x | x in node.owner.nodes
      ensures ok == (old(node.owner) != null)
      ensures ok ==>
                var l := old(node.owner);
                && l.Valid() && node.owner == null && node.next == null && node.prev == null
                && l.nodes == Cut(old(l.nodes), i) && l.queue == Cut(old(l.queue), i)
                && node.Entry() == old(node.Entry())
    {
      if node.owner == null {
        return false;
      }
      var list := node.owner;
      list.GlistRemoveNode(node, i);
      node.owner := null;
      node.next := null;
      node.prev := null;
      ok := true;
    }

    /** Remove and return the head. */
    method GlistRemoveFirst() returns (node: GlistNode?)
      requires Valid()
      modifies this, nodes
      ensures Valid() && (node == null <==> old(nodes) == [])
      ensures node == null ==> nodes == []
      ensures node != null ==>
                && node == old(nodes[0]) && nodes == old(nodes)[1..] && node.owner == null
                && queue == old(queue)[1..] && node.Entry() == old(queue)[0]
    {
      if count == 0 {
        return null;
      }
      assert Linked(0);
      CutFirst(nodes);
      CutFirst(queue);
      node := first;
      GlistRemoveNode(node, 0);
      node.owner := null;
      node.next := null;
      node.prev := null;
    }
  }

  /** A walk that passed the first i objects stops there. */
  lemma {:induction false} StopsAt(q: seq<Queued<nat>>, prio: nat, sort: Sort, i: nat)
    requires i <= |q| && forall j :: 0 <= j < i ==> Compare(sort, q[j].prio, prio) > 0
    requires i < |q| ==> Compare(sort, q[i].prio, prio) <= 0
    ensures InsertPos(q, prio, sort) == i
  {
    if i > 0 {
      StopsAt(q[1..], prio, sort, i - 1);
    }
  }
}
