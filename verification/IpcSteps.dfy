/** Every step keeps the invariant of the channel. */
module IpcSteps {
  import opened Utils
  import opened PrioQueue
  import opened IpcState

  lemma PopHolds(q: seq<Queued<nat>>)
    requires q != [] && Unique(q)
    ensures Unique(q[1..]) && forall x :: Holds(q[1..], x) <==> Holds(q, x) && x != q[0].item
  {
    RemoveItemKeeps(q, q[0].item);
    RemoveItemHolds(q, q[0].item);
  }

  lemma PopDistinct(q: seq<nat>)
    requires q != [] && Distinct(q)
    ensures q[0] in q && Distinct(q[1..]) && forall x :: x in q[1..] <==> x in q && x != q[0]
  {
    assert forall x :: x in q <==> x == q[0] || x in q[1..];
  }

  lemma InsertOlder<T>(q: seq<Queued<T>>, x: Queued<T>, clock: nat)
    requires Older(q, x.stamp) && x.stamp < clock
    ensures Older(Insert(q, x, MsgSort), clock)
  {
  }

  // ----- What a step may do to the services -----

  lemma ServicesSame(s: State, s': State)
    requires Matching(s)
    requires forall x, c :: Serves(s', x, c) <==> Serves(s, x, c)
    requires forall c :: Replying(s', c) <==> Replying(s, c)
    requires forall c :: Replying(s, c) && Replying(s', c) ==> s'.tasks[c].rcvid == s.tasks[c].rcvid
    requires forall x, c :: Serves(s, x, c) && Serves(s', x, c) ==> s'.tasks[x].received == s.tasks[x].received
    ensures Matching(s')
  {
    forall c | Replying(s', c)
      ensures exists x :: Serves(s', x, c)
    {
      var x :| Serves(s, x, c);
      assert Serves(s', x, c);
    }
  }

  lemma ServiceStarts(s: State, s': State, t: nat, c0: nat)
    requires Matching(s) && !Replying(s, c0) && !exists c :: Serves(s, t, c)
    requires forall x, c :: Serves(s', x, c) <==> Serves(s, x, c) || (x == t && c == c0)
    requires forall c :: Replying(s', c) <==> Replying(s, c) || c == c0
    requires forall c :: Replying(s, c) && Replying(s', c) ==> s'.tasks[c].rcvid == s.tasks[c].rcvid
    requires forall x, c :: Serves(s, x, c) && Serves(s', x, c) ==> s'.tasks[x].received == s.tasks[x].received
    requires t in s'.tasks && c0 in s'.tasks && s'.tasks[t].received == s'.tasks[c0].rcvid
    ensures Matching(s')
  {
    assert Serves(s', t, c0);
    forall c | Replying(s', c)
      ensures exists x :: Serves(s', x, c)
    {
      if c != c0 {
        var x :| Serves(s, x, c);
        assert Serves(s', x, c);
      }
    }
  }

  lemma ServiceEnds(s: State, s': State, t: nat, c0: nat)
    requires Matching(s) && Serves(s, t, c0)
    requires forall x, c :: Serves(s', x, c) <==> Serves(s, x, c) && x != t
    requires forall c :: Replying(s', c) <==> Replying(s, c) && c != c0
    requires forall c :: Replying(s', c) ==> s'.tasks[c].rcvid == s.tasks[c].rcvid
    requires forall x, c :: Serves(s', x, c) ==> s'.tasks[x].received == s.tasks[x].received
    ensures Matching(s')
  {
    forall c | Replying(s', c)
      ensures exists x :: Serves(s', x, c)
    {
      var x :| Serves(s, x, c);
      assert Serves(s', x, c);
    }
  }

  // ----- What a step may do to the message history -----

  lemma HistorySame(s: State, s': State)
    requires ExactlyOnce(s) && s'.past.sent == s.past.sent && s'.past.replied == s.past.replied && s'.clock >= s.clock
    requires forall x :: Pending(s', x) <==> Pending(s, x)
    requires forall x :: Pending(s, x) && Pending(s', x) ==> s'.tasks[x].stamp == s.tasks[x].stamp
    requires forall x :: Woken(s', x) ==>
               Woken(s, x) && s'.tasks[x].stamp == s.tasks[x].stamp && s'.tasks[x].ret == s.tasks[x].ret
    ensures ExactlyOnce(s')
  {
  }

  lemma HistorySent(s: State, s': State, t: nat)
    requires ExactlyOnce(s) && !Pending(s, t)
    requires s'.past.sent == s.past.sent[s.clock := t] && s'.past.replied == s.past.replied && s'.clock == s.clock + 1
    requires forall x :: Pending(s', x) <==> Pending(s, x) || x == t
    requires forall x :: Pending(s, x) && Pending(s', x) ==> s'.tasks[x].stamp == s.tasks[x].stamp
    requires t in s'.tasks && s'.tasks[t].stamp == s.clock
    requires forall x :: Woken(s', x) ==>
               Woken(s, x) && s'.tasks[x].stamp == s.tasks[x].stamp && s'.tasks[x].ret == s.tasks[x].ret
    ensures ExactlyOnce(s')
  {
  }

  lemma HistoryReplied(s: State, s': State, c: nat, status: int)
    requires ExactlyOnce(s) && Pending(s, c)
    requires s'.past.sent == s.past.sent && s'.past.replied == s.past.replied[s.tasks[c].stamp := status]
             && s'.clock == s.clock
    requires forall x :: Pending(s', x) <==> Pending(s, x) && x != c
    requires forall x :: Pending(s', x) ==> s'.tasks[x].stamp == s.tasks[x].stamp
    requires c in s'.tasks && s'.tasks[c].stamp == s.tasks[c].stamp && s'.tasks[c].ret == status
    requires forall x :: Woken(s', x) && x != c ==>
               Woken(s, x) && s'.tasks[x].stamp == s.tasks[x].stamp && s'.tasks[x].ret == s.tasks[x].ret
    ensures ExactlyOnce(s')
  {
  }

  // ----- MsgSend to a waiting receiver -----

  lemma SendDirectQueues(s: State, t: nat, id: nat)
    requires Queues(s) && Roles(s) && Free(s, t) && s.receive != []
    ensures s.receive[0] in s.tasks && s.receive[0] != t
    ensures Queues(SendDirect(s, t, id)) && Roles(SendDirect(s, t, id))
  {
    PopDistinct(s.receive);
    assert !Holds(s.send, t) && !Holds(s.response, t) && t !in s.receive;
    var w := Queued(t, s.tasks[t].active_prio, s.clock);
    InsertHolds(s.response, w, MsgSort);
    InsertUnique(s.response, w, MsgSort);
  }

  lemma SendDirectMatching(s: State, t: nat, id: nat)
    requires Queues(s) && Roles(s) && Matching(s) && Free(s, t) && s.receive != []
    requires s.receive[0] in s.tasks && s.receive[0] != t
    ensures Matching(SendDirect(s, t, id))
  {
    PopDistinct(s.receive);
    ServiceStarts(s, SendDirect(s, t, id), s.receive[0], t);
  }

  lemma SendDirectIds(s: State, t: nat, id: nat)
    requires Roles(s) && Queues(s) && Ids(s) && Free(s, t) && s.receive != [] && id !in s.messages && id < 0xFFFF
    requires s.receive[0] in s.tasks && s.receive[0] != t
    ensures Ids(SendDirect(s, t, id))
  {
    PopDistinct(s.receive);
    RcvidRoundTrip(s.chid, id);
  }

  lemma SendDirectOrder(s: State, t: nat, id: nat)
    requires NoIdleReceiver(s) && InOrder(s) && Free(s, t) && s.receive != [] && s.receive[0] in s.tasks
    ensures var s' := SendDirect(s, t, id); NoIdleReceiver(s') && InOrder(s')
  {
  }

  lemma SendDirectHistory(s: State, t: nat, id: nat)
    requires Roles(s) && Queues(s) && ExactlyOnce(s) && Free(s, t) && s.receive != []
    requires s.receive[0] in s.tasks && s.receive[0] != t
    ensures ExactlyOnce(SendDirect(s, t, id))
  {
    PopDistinct(s.receive);
    HistorySent(s, SendDirect(s, t, id), t);
  }

  // ----- MsgSend while nobody receives -----

  lemma SendQueuedQueues(s: State, t: nat, id: nat)
    requires Queues(s) && Roles(s) && Matching(s) && Free(s, t)
    ensures var s' := SendQueued(s, t, id); Queues(s') && Roles(s') && Matching(s')
  {
    assert !Holds(s.send, t) && !Holds(s.response, t) && t !in s.receive;
    var w := Queued(t, s.tasks[t].active_prio, s.clock);
    InsertHolds(s.send, w, MsgSort);
    InsertUnique(s.send, w, MsgSort);
    ServicesSame(s, SendQueued(s, t, id));
  }

  lemma SendQueuedOthers(s: State, t: nat, id: nat)
    requires Ids(s) && Free(s, t) && s.receive == [] && id !in s.messages && id < 0xFFFF && ExactlyOnce(s)
    ensures var s' := SendQueued(s, t, id); Ids(s') && NoIdleReceiver(s') && ExactlyOnce(s')
  {
    RcvidRoundTrip(s.chid, id);
    HistorySent(s, SendQueued(s, t, id), t);
  }

  lemma SendQueuedOrder(s: State, t: nat, id: nat)
    requires Queues(s) && InOrder(s) && Free(s, t)
    ensures InOrder(SendQueued(s, t, id))
  {
    var w := Queued(t, s.tasks[t].active_prio, s.clock);
    MsgInsertOrdered(s.send, w);
    InsertElements(s.send, w, MsgSort);
    InsertOlder(s.send, w, s.clock + 1);
    forall x | x in s.send
      ensures x.item != t
    {
      HoldsIn(s.send, x.item);
    }
  }

  // ----- The end of MsgSend -----

  lemma SendReturnIds(s: State, t: nat)
    requires Ids(s) && Legal(s, OpSendReturn(t))
    ensures Ids(SendReturn(s, t))
  {
  }

  lemma SendReturnOthers(s: State, t: nat)
    requires Queues(s) && Roles(s) && NoIdleReceiver(s) && InOrder(s) && Legal(s, OpSendReturn(t))
    ensures var s' := SendReturn(s, t); Queues(s') && Roles(s') && NoIdleReceiver(s') && InOrder(s')
  {
  }

  lemma SendReturnKeeps(s: State, t: nat)
    requires Inv(s) && Legal(s, OpSendReturn(t))
    ensures Inv(SendReturn(s, t))
  {
    SendReturnIds(s, t);
    SendReturnOthers(s, t);
    SendReturnPast(s, t);
  }

  lemma SendReturnPast(s: State, t: nat)
    requires Matching(s) && ExactlyOnce(s) && Legal(s, OpSendReturn(t))
    ensures Matching(SendReturn(s, t)) && ExactlyOnce(SendReturn(s, t))
  {
    ServicesSame(s, SendReturn(s, t));
    HistorySame(s, SendReturn(s, t));
  }

  // ----- MsgReceive of a message -----

  lemma ReceiveMessageQueues(s: State, t: nat)
    requires Queues(s) && Roles(s) && Free(s, t) && s.tasks[t].client.None? && s.send != []
    ensures s.send[0].item in s.tasks && s.send[0].item != t && !Replying(s, s.send[0].item)
    ensures Queues(ReceiveMessage(s, t)) && Roles(ReceiveMessage(s, t))
  {
    var w := s.send[0];
    assert !Holds(s.send, t) && !Holds(s.response, t) && t !in s.receive;
    assert Holds(s.send, w.item);
    PopHolds(s.send);
    InsertHolds(s.response, w, MsgSort);
    InsertUnique(s.response, w, MsgSort);
  }

  lemma ReceiveMessageMatching(s: State, t: nat)
    requires Matching(s) && Free(s, t) && s.tasks[t].client.None? && s.send != []
    requires s.send[0].item in s.tasks && s.send[0].item != t && !Replying(s, s.send[0].item)
    ensures Matching(ReceiveMessage(s, t))
  {
    ServiceStarts(s, ReceiveMessage(s, t), t, s.send[0].item);
  }

  lemma ReceiveMessageIds(s: State, t: nat)
    requires Ids(s) && NoIdleReceiver(s) && Free(s, t) && s.send != []
    requires s.send[0].item in s.tasks && s.send[0].item != t
    ensures var s' := ReceiveMessage(s, t); Ids(s') && NoIdleReceiver(s')
  {
  }

  lemma ReceiveMessageHistory(s: State, t: nat)
    requires Queues(s) && ExactlyOnce(s) && Free(s, t) && s.send != []
    requires s.send[0].item in s.tasks && s.send[0].item != t
    ensures ExactlyOnce(ReceiveMessage(s, t))
  {
    assert Holds(s.send, s.send[0].item);
    HistorySame(s, ReceiveMessage(s, t));
  }

  lemma ReceiveMessageOrder(s: State, t: nat)
    requires Queues(s) && InOrder(s) && Free(s, t) && s.send != []
    requires s.send[0].item in s.tasks && s.send[0].item != t
    ensures InOrder(ReceiveMessage(s, t))
  {
    PopHolds(s.send);
    forall w | w in s.send[1..]
      ensures w in s.send && w.item != s.send[0].item && w.item != t
    {
      HoldsIn(s.send[1..], w.item);
      HoldsIn(s.send, w.item);
    }
  }

  // ----- MsgReceive of a notification, or of nothing -----

  lemma ReceiveNotificationKeeps(s: State, t: nat)
    requires Inv(s) && Free(s, t) && s.notify != []
    ensures Inv(ReceiveNotification(s, t))
  {
    TakeKeepsNotified(s, ReceiveNotification(s, t));
    hide Queues, Roles, Matching, Ids, NoIdleReceiver, InOrder, ExactlyOnce, NoneLost, ReceiveNotification;
    ReceiveNotificationPlaces(s, t);
    ReceiveNotificationOrder(s, t);
    ReceiveNotificationPast(s, t);
  }

  lemma ReceiveNotificationPlaces(s: State, t: nat)
    requires Queues(s) && Roles(s) && Ids(s) && NoIdleReceiver(s) && Free(s, t) && s.notify != []
    ensures var s' := ReceiveNotification(s, t); Queues(s') && Roles(s') && Ids(s') && NoIdleReceiver(s')
  {
  }

  lemma ReceiveNotificationOrder(s: State, t: nat)
    requires Queues(s) && InOrder(s) && Free(s, t) && s.notify != []
    ensures InOrder(ReceiveNotification(s, t))
  {
    forall w | w in s.send
      ensures w.item != t
    {
      HoldsIn(s.send, w.item);
    }
  }

  lemma ReceiveNotificationPast(s: State, t: nat)
    requires Matching(s) && ExactlyOnce(s) && Free(s, t) && s.notify != []
    ensures Matching(ReceiveNotification(s, t)) && ExactlyOnce(ReceiveNotification(s, t))
  {
    ServicesSame(s, ReceiveNotification(s, t));
    HistorySame(s, ReceiveNotification(s, t));
  }

  lemma ReceiveWaitQueues(s: State, t: nat)
    requires Queues(s) && Roles(s) && Free(s, t) && s.tasks[t].client.None?
    ensures Queues(ReceiveWait(s, t)) && Roles(ReceiveWait(s, t))
  {
    assert t !in s.receive;
  }

  lemma ReceiveWaitKeeps(s: State, t: nat)
    requires Inv(s) && Free(s, t) && s.tasks[t].client.None? && s.send == [] && s.notify == []
    ensures Inv(ReceiveWait(s, t))
  {
    QuietKeeps(s, ReceiveWait(s, t));
    hide Queues, Roles, Matching, Ids, NoIdleReceiver, InOrder, ExactlyOnce, NoneLost, ReceiveWait;
    ReceiveWaitQueues(s, t);
    ReceiveWaitOrder(s, t);
    ReceiveWaitPast(s, t);
  }

  lemma ReceiveWaitOrder(s: State, t: nat)
    requires Ids(s) && InOrder(s) && Free(s, t) && s.send == [] && s.notify == []
    ensures var s' := ReceiveWait(s, t); Ids(s') && NoIdleReceiver(s') && InOrder(s')
  {
  }

  lemma ReceiveWaitPast(s: State, t: nat)
    requires Matching(s) && ExactlyOnce(s) && Free(s, t)
    ensures Matching(ReceiveWait(s, t)) && ExactlyOnce(ReceiveWait(s, t))
  {
    ServicesSame(s, ReceiveWait(s, t));
    HistorySame(s, ReceiveWait(s, t));
  }

  // ----- MsgRespond -----

  lemma RespondQueues(s: State, t: nat, status: int)
    requires Queues(s) && Roles(s) && Matching(s) && Free(s, t) && s.tasks[t].client.Some?
    ensures Replying(s, s.tasks[t].client.value) && Serves(s, t, s.tasks[t].client.value)
            && s.tasks[t].client.value != t
    ensures Queues(Respond(s, t, status)) && Roles(Respond(s, t, status))
  {
    var c := s.tasks[t].client.value;
    assert Serves(s, t, c);
    assert Holds(s.response, c);
    RemoveItemKeeps(s.response, c);
    RemoveItemHolds(s.response, c);
  }

  lemma RespondMatching(s: State, t: nat, c: nat, status: int)
    requires Matching(s) && Free(s, t) && Serves(s, t, c) && Replying(s, c) && c != t
    ensures Matching(Respond(s, t, status))
  {
    ServiceEnds(s, Respond(s, t, status), t, c);
  }

  lemma RespondOrder(s: State, t: nat, c: nat, status: int)
    requires Queues(s) && Ids(s) && NoIdleReceiver(s) && InOrder(s)
    requires Free(s, t) && Serves(s, t, c) && Replying(s, c) && c != t
    ensures var s' := Respond(s, t, status); Ids(s') && NoIdleReceiver(s') && InOrder(s')
  {
    forall w | w in s.send
      ensures w.item != t && w.item != c
    {
      HoldsIn(s.send, w.item);
    }
  }

  lemma RespondHistory(s: State, t: nat, c: nat, status: int)
    requires ExactlyOnce(s) && Free(s, t) && Serves(s, t, c) && Replying(s, c) && c != t
    ensures ExactlyOnce(Respond(s, t, status))
  {
    HistoryReplied(s, Respond(s, t, status), c, status);
  }

  // ----- MsgNotify -----

  lemma NotifyDirectKeeps(s: State, priority: nat, n: Notification)
    requires Inv(s) && s.receive != []
    ensures Inv(Notify(s, priority, n))
  {
    hide Queues, Roles, Matching, Ids, NoIdleReceiver, InOrder, ExactlyOnce, NoneLost, Notify;
    FirstReceiver(s);
    NotifyKeepsNotified(s, priority, n);
    NotifyDirectPlaces(s, priority, n);
    NotifyDirectOrder(s, priority, n);
    NotifyDirectPast(s, priority, n);
  }

  lemma NotifyDirectPlaces(s: State, priority: nat, n: Notification)
    requires Queues(s) && Roles(s) && s.receive != []
    ensures s.receive[0] in s.tasks && s.tasks[s.receive[0]].subState == IPC_RECEIVE && !s.tasks[s.receive[0]].sending
    ensures Queues(Notify(s, priority, n)) && Roles(Notify(s, priority, n))
  {
    PopDistinct(s.receive);
  }

  lemma NotifyDirectOrder(s: State, priority: nat, n: Notification)
    requires Ids(s) && NoIdleReceiver(s) && InOrder(s) && s.receive != [] && s.receive[0] in s.tasks
    ensures var s' := Notify(s, priority, n); Ids(s') && NoIdleReceiver(s') && InOrder(s')
  {
  }

  lemma NotifyDirectPast(s: State, priority: nat, n: Notification)
    requires Matching(s) && ExactlyOnce(s) && s.receive != [] && s.receive[0] in s.tasks
    requires s.tasks[s.receive[0]].subState == IPC_RECEIVE && !s.tasks[s.receive[0]].sending
    ensures Matching(Notify(s, priority, n)) && ExactlyOnce(Notify(s, priority, n))
  {
    ServicesSame(s, Notify(s, priority, n));
    HistorySame(s, Notify(s, priority, n));
  }

  /** A step that leaves notifications alone. */
  lemma QuietKeeps(s: State, s': State)
    requires NoneLost(s) && s'.notify == s.notify && s'.clock >= s.clock
    requires s'.past.notified == s.past.notified && s'.past.taken == s.past.taken
    ensures NoneLost(s')
  {
  }

  lemma FirstReceiver(s: State)
    requires Queues(s) && NoIdleReceiver(s) && s.receive != []
    ensures s.receive[0] in s.tasks && s.notify == []
  {
    PopDistinct(s.receive);
  }

  lemma NotifyQueuedKeeps(s: State, priority: nat, n: Notification)
    requires Inv(s) && s.receive == []
    ensures Inv(Notify(s, priority, n))
  {
    hide Queues, Roles, Matching, Ids, NoIdleReceiver, InOrder, ExactlyOnce, NoneLost, Notify;
    NotifyKeepsNotified(s, priority, n);
    NotifyQueuedOrder(s, priority, n);
    NotifyQueuedPast(s, priority, n);
  }

  lemma NotifyQueuedOrder(s: State, priority: nat, n: Notification)
    requires InOrder(s) && s.receive == []
    ensures InOrder(Notify(s, priority, n)) && NoIdleReceiver(Notify(s, priority, n))
  {
    var x := Queued(n, priority % 0x1_0000, s.clock);
    MsgInsertOrdered(s.notify, x);
    InsertOlder(s.notify, x, s.clock + 1);
  }

  lemma NotifyQueuedPast(s: State, priority: nat, n: Notification)
    requires Queues(s) && Roles(s) && Ids(s) && Matching(s) && ExactlyOnce(s) && s.receive == []
    ensures var s' := Notify(s, priority, n); Queues(s') && Roles(s') && Ids(s') && Matching(s') && ExactlyOnce(s')
  {
    hide Insert;
    var s' := Notify(s, priority, n);
    ServicesSame(s, s');
    HistorySame(s, s');
  }

  // ----- Notifications -----

  lemma TakeKeepsNotified(s: State, s': State)
    requires NoneLost(s) && InOrder(s) && s.notify != []
    requires s'.notify == s.notify[1..] && s'.past.notified == s.past.notified && s'.clock == s.clock
    requires s'.past.taken.Keys == s.past.taken.Keys + {s.notify[0].stamp}
    ensures NoneLost(s')
  {
    var q := s.notify;
    assert q[0] in q;
    forall w | w in q[1..]
      ensures w in q && w.stamp != q[0].stamp
    {
      var i :| 1 <= i < |q| && q[i] == w;
      assert Before(q[0], q[i]);
      assert s.past.notified[w.stamp] == w && s.past.notified[q[0].stamp] == q[0];
    }
    forall k | k in s.past.notified && k !in s'.past.taken
      ensures s.past.notified[k] in q[1..]
    {
      assert s.past.notified[k] in q && s.past.notified[k] != q[0];
    }
  }

  lemma NotifyKeepsNotified(s: State, priority: nat, n: Notification)
    requires NoneLost(s) && (s.receive != [] ==> s.receive[0] in s.tasks && s.notify == [])
    ensures NoneLost(Notify(s, priority, n))
  {
    var w := Queued(n, priority % 0x1_0000, s.clock);
    InsertElements(s.notify, w, MsgSort);
  }

  // ----- History is final -----

  lemma SamePast(p: Past)
    ensures PastStays(p, p)
  {
  }

  lemma SendPast(s: State, t: nat, id: nat)
    requires ExactlyOnce(s) && t in s.tasks && (s.receive != [] ==> s.receive[0] in s.tasks)
    ensures PastStays(s.past, Send(s, t, id).past)
  {
  }

  lemma ReceivePast(s: State, t: nat)
    requires NoneLost(s) && t in s.tasks && (s.send != [] ==> s.send[0].item in s.tasks)
    ensures PastStays(s.past, Receive(s, t).past)
  {
    assert s.notify != [] ==> s.notify[0] in s.notify;
  }

  lemma RespondPast(s: State, t: nat, status: int)
    requires ExactlyOnce(s) && Matching(s) && t in s.tasks && s.tasks[t].client.Some?
    ensures s.tasks[t].client.value in s.tasks && PastStays(s.past, Respond(s, t, status).past)
  {
    var c := s.tasks[t].client.value;
    assert Serves(s, t, c) && Pending(s, c);
  }

  lemma NotifyPast(s: State, priority: nat, n: Notification)
    requires NoneLost(s) && (s.receive != [] ==> s.receive[0] in s.tasks)
    ensures PastStays(s.past, Notify(s, priority, n).past)
  {
  }

  // ----- All steps -----

  lemma SendKeeps(s: State, t: nat, id: nat)
    requires Inv(s) && Legal(s, OpSend(t, id))
    ensures s.receive != [] ==> s.receive[0] in s.tasks
    ensures Inv(Send(s, t, id))
  {
    if s.receive != [] {
      SendDirectQueues(s, t, id);
      SendDirectMatching(s, t, id);
      SendDirectIds(s, t, id);
      SendDirectOrder(s, t, id);
      SendDirectHistory(s, t, id);
    } else {
      SendQueuedQueues(s, t, id);
      SendQueuedOthers(s, t, id);
      SendQueuedOrder(s, t, id);
    }
  }

  lemma ReceiveKeeps(s: State, t: nat)
    requires Inv(s) && Legal(s, OpReceive(t))
    ensures s.send != [] ==> s.send[0].item in s.tasks
    ensures Inv(Receive(s, t))
  {
    if s.send != [] {
      ReceiveMessageQueues(s, t);
    }
    if TakesMessage(s) {
      ReceiveMessageMatching(s, t);
      ReceiveMessageIds(s, t);
      ReceiveMessageHistory(s, t);
      ReceiveMessageOrder(s, t);
    } else if s.notify != [] {
      ReceiveNotificationKeeps(s, t);
    } else {
      ReceiveWaitKeeps(s, t);
    }
  }

  lemma RespondKeeps(s: State, t: nat, status: int)
    requires Inv(s) && Legal(s, OpRespond(t, status))
    ensures s.tasks[t].client.value in s.tasks
    ensures Inv(Respond(s, t, status))
  {
    RespondQueues(s, t, status);
    RespondMatching(s, t, s.tasks[t].client.value, status);
    RespondOrder(s, t, s.tasks[t].client.value, status);
    RespondHistory(s, t, s.tasks[t].client.value, status);
  }

  lemma NotifyKeeps(s: State, priority: nat, n: Notification)
    requires Inv(s)
    ensures s.receive != [] ==> s.receive[0] in s.tasks
    ensures Inv(Notify(s, priority, n))
  {
    if s.receive != [] {
      NotifyDirectKeeps(s, priority, n);
    } else {
      NotifyQueuedKeeps(s, priority, n);
    }
  }
}
