/** The list of sleeping tasks of kernel/sleep.c over lib/glist.c. The comparison function changes the times
    that it compares. */
module Sleep {
  import opened Utils
  import opened PrioQueue
  import opened Glist
  import opened SleepTimers

  /** The key of a task's node is its pendTime. */
  function AsTimer(e: Queued<nat>): Timer {
    Timer(e.item, e.prio, e.stamp)
  }

  function Timers(q: seq<Queued<nat>>): (s: seq<Timer>)
    ensures |s| == |q| && forall i :: 0 <= i < |q| ==> s[i] == AsTimer(q[i])
  {
    seq(|q|, i requires 0 <= i < |q| => AsTimer(q[i]))
  }

  /** The comparison function: takes the time up to the current task from the new one, or the new one's
      time from the current task. */
  method SleepStort(c: GlistNode, t: GlistNode) returns (r: int)
    requires c != t
    modifies c`key, t`key
    ensures r > 0 <==> old(t.key) >= c.key && c.key == old(c.key)
    ensures old(t.key) >= old(c.key) ==> r > 0 && t.key == old(t.key) - old(c.key) && c.key == old(c.key)
    ensures old(t.key) < old(c.key) ==> r <= 0 && c.key == old(c.key) - old(t.key) && t.key == old(t.key)
  {
    if t.key >= c.key {
      t.key := t.key - c.key;
      return 1;
    } else {
      c.key := c.key - t.key;
      return 0;
    }
  }

  class SleepHandler {
    const list: Glist

    ghost predicate Valid()
      reads list, list.nodes
    {
      list.Valid()
    }

    /** The list as differences of time. */
    ghost function Pending(): seq<Timer>
      reads list
    {
      Timers(list.queue)
    }

    /** The methods below insert with SleepStort; the sort of the list itself is not used. */
    constructor ()
      ensures Valid() && Pending() == [] && fresh(list)
    {
      list := new Glist(GList, MsgSort);
    }

    /** The comparison function applied to the i-th task. */
    method Compare(it: GlistNode, node: GlistNode, ghost i: nat) returns (stop: bool)
      requires Valid() && i < |list.nodes| && it == list.nodes[i] && node !in list.nodes
      modifies it`key, node`key, list`queue
      ensures Valid() && (stop <==> old(node.key) < old(Pending())[i].pendTime)
      ensures !stop ==> Pending() == old(Pending()) && node.key == old(node.key) - Pending()[i].pendTime
      ensures stop ==>
                && node.key == old(node.key)
                && var t := old(Pending())[i];
                   Pending() == old(Pending())[i := t.(pendTime := t.pendTime - node.key)]
    {
      assert list.Linked(i);
      var r := SleepStort(it, node);
      stop := r <= 0;
      list.queue := list.queue[i := it.Entry()];
      forall j | 0 <= j < |list.nodes|
        ensures list.Linked(j)
      {
        assert old(list.Linked(j));
      }
    }

    /** GlistInsertObject. */
    method GlistInsertObject(node: GlistNode)
      requires Valid() && node.owner == null
      modifies list, list.nodes`next, list.nodes`prev, list.nodes`key, node
      ensures Valid() && node in list.nodes && Pending() == old(InsertTimer(Pending(), AsTimer(node.Entry())))
    {
      list.NotListed(node);
      node.owner := list;
      node.next := null;
      node.prev := null;
      GlistInsert(node);
    }

    method GlistInsert(node: GlistNode)
      requires Valid() && node !in list.nodes && node.owner == list
      modifies list, list.nodes`next, list.nodes`prev, list.nodes`key, node`next, node`prev, node`key
      ensures Valid() && node in list.nodes && Pending() == old(InsertTimer(Pending(), AsTimer(node.Entry())))
    {
      hide InsertTimer;
      var it;
      ghost var i;
      it, i := Walk(node);
      TimersInsert(list.queue, i, node.Entry());
      if it == null {
        list.LinkLast(node);
      } else {
        list.LinkBefore(it, node, i);
      }
    }

    /** Find the place of a new task; the comparisons leave it the time from its predecessor on, and the
        task at its place the time from it on. */
    method Walk(node: GlistNode) returns (it: GlistNode?, ghost i: nat)
      requires Valid() && node !in list.nodes
      modifies list`queue, list.nodes`key, node`key
      ensures Valid() && i <= |list.nodes| && it == NodeAt(list.nodes, i)
      ensures old(InsertTimer(Pending(), AsTimer(node.Entry())))
                == Pending()[..i] + [AsTimer(node.Entry())] + Pending()[i..]
    {
      hide InsertTimer;
      ghost var s, t := Pending(), AsTimer(node.Entry());
      it := list.first;
      i := 0;
      assert s[..0] + InsertTimer(s[0..], t) == InsertTimer(s, t);
      while it != null
        invariant Valid() && i <= |list.nodes| && it == NodeAt(list.nodes, i) && Pending() == s
        invariant InsertTimer(s, t) == s[..i] + InsertTimer(s[i..], AsTimer(node.Entry()))
        decreases |list.nodes| - i
      {
        assert list.Linked(i);
        WalkOn(s, AsTimer(node.Entry()), i);
        WalkStop(s, AsTimer(node.Entry()), i);
        var stop := Compare(it, node, i);
        if stop { return; }
        assert list.Linked(i);
        it := it.next;
        i := i + 1;
      }
      WalkEnd(s, AsTimer(node.Entry()), i);
    }

    /** Another time for the i-th task. */
    method SetTime(node: GlistNode, time: nat, ghost i: nat)
      requires Valid() && i < |list.nodes| && node == list.nodes[i]
      modifies node`key, list`queue
      ensures Valid() && Pending() == old(Pending())[i := old(Pending())[i].(pendTime := time)]
    {
      assert list.Linked(i);
      node.key := time;
      list.queue := list.queue[i := node.Entry()];
      forall j | 0 <= j < |list.nodes|
        ensures list.Linked(j)
      {
        assert old(list.Linked(j));
      }
    }

    /** Put the running task to sleep; it blocks afterwards. */
    method SleepInsert(node: GlistNode, time: nat)
      requires Valid() && node.owner == null
      modifies list, list.nodes`next, list.nodes`prev, list.nodes`key, node
      ensures Valid() && Pending() == InsertTimer(old(Pending()), Timer(node.item, time, old(node.stamp)))
    {
      list.NotListed(node);
      node.key := time;
      GlistInsertObject(node);
    }

    /** Start the timeout of a task, which is waitTime. */
    method TimerSet(node: GlistNode, waitTime: nat)
      requires Valid() && node.owner == null
      modifies list, list.nodes`next, list.nodes`prev, list.nodes`key, node
      ensures Valid() && Pending() == InsertTimer(old(Pending()), Timer(node.item, waitTime, old(node.stamp)))
    {
      list.NotListed(node);
      node.key := waitTime;
      GlistInsertObject(node);
    }

    /** GlistRemoveSpecific of a listed task; tnext is the task behind it. */
    method GlistRemove(node: GlistNode, tnext: GlistNode?, ghost i: nat)
      requires Valid() && i < |list.nodes| && node == list.nodes[i] && tnext == NodeAt(list.nodes, i + 1)
      modifies list, list.nodes
      ensures Valid() && Pending() == Cut(old(Pending()), i) && node.key == old(Pending())[i].pendTime
      ensures tnext == null <==> i == |Pending()|
      ensures tnext != null ==> tnext == list.nodes[i] && tnext.key == Pending()[i].pendTime
    {
      assert list.Linked(i);
      TimersCut(list.queue, i);
      var ok := Glist.GlistRemoveSpecific(node, i);
      assert tnext != null ==> list.Linked(i);
    }

    /** A task that is not in the list is left alone. */
    method SleepRemove(node: GlistNode, ghost i: nat)
      requires Valid() && (node.owner != null ==> node.owner == list && i < |list.nodes| && node == list.nodes[i])
      modifies list, list.nodes
      ensures Valid() && Pending() == if old(node.owner) != null then RemoveTimer(old(Pending()), i) else old(Pending())
    {
      hide RemoveTimer, Timers;
      if node.owner == null { return; }
      assert list.Linked(i);
      RemovedAt(Pending(), i);
      var tnext := node.next;
      GlistRemove(node, tnext, i);
      if tnext != null {
        SetTime(tnext, tnext.key + node.key, i);
      }
    }

    /** A tick: woken are the tasks whose time has come, which are added to the scheduler or have their
        timeout handler called. */
    method SleepUpdate() returns (woken: seq<nat>)
      requires Valid()
      modifies list, list.nodes
      ensures var u := Ticked(old(Pending())); var n := Expired(u);
              && Valid() && Pending() == u[n..]
              && |woken| == n && forall i :: 0 <= i < n ==> woken[i] == u[i].task
    {
      var task := list.first;
      if task == null { return []; }
      assert list.Linked(0);
      SetTime(task, (task.key + WORD - 1) % WORD, 0);
      woken := WakeExpired();
    }

    /** The time left for the first task. */
    lemma FirstTime()
      requires Valid()
      ensures list.first == null <==> Pending() == []
      ensures list.first != null ==> AsTimer(list.first.Entry()) == Pending()[0]
    {
      assert list.first != null ==> list.Linked(0);
    }

    method WakeExpired() returns (woken: seq<nat>)
      requires Valid()
      modifies list, list.nodes
      ensures Valid() && Pending() == old(Pending())[Expired(old(Pending()))..]
      ensures |woken| == Expired(old(Pending())) && forall i :: 0 <= i < |woken| ==> woken[i] == old(Pending())[i].task
    {
      hide Expired;
      woken := [];
      ghost var u := Pending();
      ghost var k := 0;
      FirstTime();
      while list.first != null && list.first.key == 0
        invariant Valid() && k <= |u| && list.nodes == old(list.nodes)[k..] && Pending() == u[k..] && |woken| == k
        invariant (list.first == null <==> k == |u|) && (list.first != null ==> AsTimer(list.first.Entry()) == u[k])
        invariant forall i :: 0 <= i < k ==> u[i].pendTime == 0
        invariant forall i :: 0 <= i < k ==> woken[i] == u[i].task
        decreases |u| - k
      {
        woken := woken + [list.first.item];
        var task := list.GlistRemoveFirst();
        k := k + 1;
        FirstTime();
      }
      ExpiredAt(u, k);
    }
  }

  lemma TimersInsert(q: seq<Queued<nat>>, i: nat, e: Queued<nat>)
    requires i <= |q|
    ensures Timers(InsertAt(q, i, e)) == Timers(q)[..i] + [AsTimer(e)] + Timers(q)[i..]
    ensures i == |q| ==> q + [e] == InsertAt(q, i, e)
  {
  }

  lemma TimersCut(q: seq<Queued<nat>>, i: nat)
    requires i < |q|
    ensures Timers(Cut(q, i)) == Cut(Timers(q), i)
  {
  }

  lemma {:induction false} ExpiredAt(u: seq<Timer>, k: nat)
    requires k <= |u| && (forall i :: 0 <= i < k ==> u[i].pendTime == 0) && (k < |u| ==> u[k].pendTime > 0)
    ensures Expired(u) == k
  {
    if k > 0 { ExpiredAt(u[1..], k - 1); }
  }

  /** The walk of an insertion goes on. */
  lemma WalkOn(s: seq<Timer>, t: Timer, i: nat)
    requires i < |s|
    ensures t.pendTime >= s[i].pendTime ==>
              s[..i] + InsertTimer(s[i..], t) ==
                s[..i + 1] + InsertTimer(s[i + 1..], t.(pendTime := t.pendTime - s[i].pendTime))
  {
    var z := s[i..];
    assert z[0] == s[i] && z[1..] == s[i + 1..];
    assert s[..i] + [s[i]] == s[..i + 1];
  }

  /** The walk stops before timer i. */
  lemma WalkStop(s: seq<Timer>, t: Timer, i: nat)
    requires i < |s|
    ensures t.pendTime < s[i].pendTime ==>
              var r := s[i := s[i].(pendTime := s[i].pendTime - t.pendTime)];
              s[..i] + InsertTimer(s[i..], t) == r[..i] + [t] + r[i..]
  {
    var z := s[i..];
    assert z[0] == s[i] && z[1..] == s[i + 1..];
    if t.pendTime < s[i].pendTime {
      var r := s[i := s[i].(pendTime := s[i].pendTime - t.pendTime)];
      assert r[..i] == s[..i] && r[i..] == [r[i]] + s[i + 1..];
    }
  }

  /** The walk reaches the end. */
  lemma WalkEnd(s: seq<Timer>, t: Timer, i: nat)
    requires i == |s|
    ensures s[..i] + InsertTimer(s[i..], t) == s[..i] + [t] + s[i..]
  {
    assert s[i..] == [];
  }

  /** A list whose i-th timer, if any, waits time ticks longer. */
  function Later(s: seq<Timer>, i: nat, time: nat): (r: seq<Timer>)
    ensures |r| == |s|
    ensures forall j :: 0 <= j < |r| ==> r[j] == if j == i then s[j].(pendTime := s[j].pendTime + time) else s[j]
  {
    if i < |s| then s[i := s[i].(pendTime := s[i].pendTime + time)] else s
  }

  /** Removal by position. */
  lemma {:induction false} RemovedAt(s: seq<Timer>, i: nat)
    requires i < |s|
    ensures RemoveTimer(s, i) == Later(Cut(s, i), i, s[i].pendTime)
  {
    if i > 0 {
      RemovedAt(s[1..], i - 1);
      RemovedBehind(s, i);
    } else {
      RemovedFirst(s, i);
    }
  }

  lemma RemovedBehind(s: seq<Timer>, i: nat)
    requires 0 < i < |s| && RemoveTimer(s[1..], i - 1) == Later(Cut(s[1..], i - 1), i - 1, s[i].pendTime)
    ensures RemoveTimer(s, i) == Later(Cut(s, i), i, s[i].pendTime)
  {
    assert RemoveTimer(s, i) == [s[0]] + RemoveTimer(s[1..], i - 1);
    hide RemoveTimer;
  }

  lemma RemovedFirst(s: seq<Timer>, i: nat)
    requires i == 0 && s != []
    ensures RemoveTimer(s, i) == Later(Cut(s, i), i, s[i].pendTime)
  {
    hide RemoveTimer;
    RemovedHead(s, i);
    CutFirst(s);
    LaterHead(s);
  }

  lemma RemovedHead(s: seq<Timer>, i: nat)
    requires i == 0 && s != []
    ensures RemoveTimer(s, i) == if |s| == 1 then [] else [s[1].(pendTime := s[1].pendTime + s[0].pendTime)] + s[2..]
  {
  }

  lemma LaterHead(s: seq<Timer>)
    requires s != []
    ensures Later(s[1..], 0, s[0].pendTime)
         == if |s| == 1 then [] else [s[1].(pendTime := s[1].pendTime + s[0].pendTime)] + s[2..]
  {
  }
}
