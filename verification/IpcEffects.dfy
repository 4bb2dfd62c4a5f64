/** What each call on a channel does, and what becomes of what was sent. */
module IpcEffects {
  import opened Utils
  import opened PrioQueue
  import opened IpcState
  import opened IpcSteps
  import opened IpcRuns

  // ----- Nothing is lost -----

  /** No notification is lost or delivered twice: whatever runs after a MsgNotify, it is either in the queue, with
      its priority and age, or was taken, by one receiver. */
  lemma NotifyIsKept(s: State, ops: seq<Op>)
    requires Inv(s) && LegalRun(s, ops) && ops != [] && ops[0].OpNotify?
    ensures var r, w := Run(s, ops), Queued(ops[0].notification, ops[0].priority % 0x1_0000, s.clock);
            && s.clock in r.past.notified && r.past.notified[s.clock] == w
            && (w in r.notify <==> s.clock !in r.past.taken)
  {
    StepKeeps(s, ops[0]);
    RunPastStays(Step(s, ops[0]), ops[1..]);
    RunKeeps(s, ops);
    assert NoneLost(Run(s, ops));
  }

  /** A message sent stays in the history, for which IpcRuns.Rendezvous tells where it is. */
  lemma SendIsKept(s: State, ops: seq<Op>)
    requires Inv(s) && LegalRun(s, ops) && ops != [] && ops[0].OpSend?
    ensures s.clock in Run(s, ops).past.sent && Run(s, ops).past.sent[s.clock] == ops[0].task
  {
    StepKeeps(s, ops[0]);
    RunPastStays(Step(s, ops[0]), ops[1..]);
  }

  /** Task t has just got notification w. */
  predicate Delivered(s: State, t: nat, w: Queued<Notification>) {
    && t in s.tasks && s.tasks[t].subState == NONE && s.tasks[t].ret == NOTIFY_RCVID
    && s.tasks[t].notification == Some(w.item) && s.tasks[t].active_prio == w.prio
  }

  /** Who takes a notification gets it in that step; it is the one just sent, or the first in the queue. */
  lemma TakenIsDelivered(s: State, op: Op, k: nat)
    requires Inv(s) && Legal(s, op) && k in Step(s, op).past.taken && k !in s.past.taken
    ensures var s' := Step(s, op); var t := s'.past.taken[k];
            && k in s'.past.notified && Delivered(s', t, s'.past.notified[k])
            && if op.OpNotify? then k == s.clock && s.receive != [] && t == s.receive[0]
               else op == OpReceive(t) && s.notify != [] && k == s.notify[0].stamp
  {
    hide Queues, Roles, Matching, Ids, NoIdleReceiver, InOrder, ExactlyOnce;
    assert s.notify != [] ==> s.notify[0] in s.notify;
  }

  // ----- The effects of the calls -----

  /** No task but a and b differs. */
  predicate OthersSame(s: State, s': State, a: nat, b: nat) {
    s'.tasks.Keys == s.tasks.Keys && forall x :: x in s.tasks && x != a && x != b ==> s'.tasks[x] == s.tasks[x]
  }

  /** q has one more entry, at its place. */
  ghost predicate Joined<T>(q: seq<Queued<T>>, q': seq<Queued<T>>, w: Queued<T>) {
    multiset(q') == multiset(q) + multiset{w} && (Ordered(q) && Older(q, w.stamp) ==> Ordered(q'))
  }

  lemma InsertJoins<T>(q: seq<Queued<T>>, w: Queued<T>)
    ensures Joined(q, Insert(q, w, MsgSort), w)
  {
    InsertElements(q, w, MsgSort);
    if Ordered(q) && Older(q, w.stamp) { MsgInsertOrdered(q, w); }
  }

  /** The first receiver r alone was woken. */
  ghost predicate FirstWoken(s: State, s': State) {
    && s.receive != [] && s'.receive == s.receive[1..] && s.receive[0] in s'.tasks
    && s'.tasks[s.receive[0]].subState == NONE
  }

  /** MsgNotify wakes the first receiver alone, with the notification and its priority, or queues it. */
  lemma NotifyEffect(s: State, priority: nat, n: Notification)
    requires Inv(s)
    ensures var s', w := Step(s, OpNotify(priority, n)), Queued(n, priority % 0x1_0000, s.clock);
            && s'.send == s.send && s'.response == s.response && s'.messages == s.messages
            && if s.receive != [] then
                 && FirstWoken(s, s') && OthersSame(s, s', s.receive[0], s.receive[0]) && s'.notify == s.notify
                 && Delivered(s', s.receive[0], w) && s'.tasks[s.receive[0]].client == s.tasks[s.receive[0]].client
               else s'.tasks == s.tasks && s'.receive == [] && Joined(s.notify, s'.notify, w)
  {
    hide Roles, Matching, Ids, InOrder, ExactlyOnce, NoneLost, Insert, Joined;
    InsertJoins(s.notify, Queued(n, priority % 0x1_0000, s.clock));
    if s.receive != [] { FirstReceiver(s); }
  }

  /** What MsgSend leaves of the sender. */
  predicate Sent(s: State, s': State, t: nat, id: nat, subState: SubState) {
    && t in s.tasks && t in s'.tasks
    && s'.tasks[t] == s.tasks[t].(sending := true, rcvid := RCVID(s.chid, id), stamp := s.clock, subState := subState,
                                  ret := 0)
    && s'.messages == s.messages[id := t] && s'.notify == s.notify
  }

  /** Task t was given the message of client c, whose priority it has now. */
  predicate Given(s: State, t: nat, c: nat) {
    && t in s.tasks && c in s.tasks && s.tasks[t].subState == NONE && Serves(s, t, c) && Replying(s, c)
    && s.tasks[t].ret == s.tasks[t].received == s.tasks[c].rcvid && s.tasks[t].active_prio == s.tasks[c].active_prio
  }

  /** MsgSend with a receiver waiting hands the message over to the first alone. */
  lemma SendDirectEffect(s: State, t: nat, id: nat)
    requires Inv(s) && Legal(s, OpSend(t, id)) && s.receive != []
    ensures var s', r := Step(s, OpSend(t, id)), s.receive[0];
            && Sent(s, s', t, id, IPC_REPLY) && FirstWoken(s, s') && r != t && OthersSame(s, s', r, t)
               && Given(s', r, t)
            && s'.send == s.send && Joined(s.response, s'.response, Queued(t, s.tasks[t].active_prio, s.clock))
  {
    SendDirectQueues(s, t, id);
    hide Queues, Roles, Matching, Ids, NoIdleReceiver, InOrder, ExactlyOnce, NoneLost, Insert, Joined;
    InsertJoins(s.response, Queued(t, s.tasks[t].active_prio, s.clock));
  }

  /** Otherwise it queues up. */
  lemma SendQueuedEffect(s: State, t: nat, id: nat)
    requires Inv(s) && Legal(s, OpSend(t, id)) && s.receive == []
    ensures var s' := Step(s, OpSend(t, id));
            && Sent(s, s', t, id, IPC_SEND) && OthersSame(s, s', t, t) && s'.receive == []
            && s'.response == s.response && Joined(s.send, s'.send, Queued(t, s.tasks[t].active_prio, s.clock))
  {
    hide Queues, Roles, Matching, Ids, NoIdleReceiver, InOrder, ExactlyOnce, NoneLost, Insert, Joined;
    InsertJoins(s.send, Queued(t, s.tasks[t].active_prio, s.clock));
  }

  /** MsgReceive of a message returns its rcvid and takes over its sender's priority. */
  lemma ReceiveMessageEffect(s: State, t: nat)
    requires Inv(s) && Legal(s, OpReceive(t)) && TakesMessage(s)
    ensures var s', c := Step(s, OpReceive(t)), s.send[0].item;
            && c in s.tasks && c != t && OthersSame(s, s', c, t) && Given(s', t, c)
            && s'.tasks[c] == s.tasks[c].(subState := IPC_REPLY) && s'.tasks[t].active_prio == s.send[0].prio
            && s'.send == s.send[1..] && s'.notify == s.notify && s'.receive == s.receive && s'.messages == s.messages
            && Joined(s.response, s'.response, s.send[0])
  {
    ReceiveMessageQueues(s, t);
    assert s.send[0] in s.send;
    assert s.tasks[s.send[0].item].active_prio == s.send[0].prio;
    hide InOrder, Queues, Roles, Matching, Ids, NoIdleReceiver, ExactlyOnce, NoneLost, Insert, Joined;
    InsertJoins(s.response, s.send[0]);
  }

  /** MsgReceive of a notification. */
  lemma ReceiveNotificationEffect(s: State, t: nat)
    requires Inv(s) && Legal(s, OpReceive(t)) && !TakesMessage(s) && s.notify != []
    ensures var s' := Step(s, OpReceive(t));
            && OthersSame(s, s', t, t) && Delivered(s', t, s.notify[0]) && s'.tasks[t].client.None?
            && s'.notify == s.notify[1..] && s'.send == s.send && s'.receive == s.receive
            && s'.response == s.response && s'.messages == s.messages
  {
    hide Queues, Roles, Matching, Ids, NoIdleReceiver, InOrder, ExactlyOnce, NoneLost;
  }

  /** MsgReceive with nothing pending waits, behind those that do. */
  lemma ReceiveWaitEffect(s: State, t: nat)
    requires Inv(s) && Legal(s, OpReceive(t)) && s.send == [] && s.notify == []
    ensures var s' := Step(s, OpReceive(t));
            && OthersSame(s, s', t, t) && t in s'.tasks
            && s'.tasks[t] == s.tasks[t].(subState := IPC_RECEIVE, ret := 0)
            && s'.tasks[t].client.None? && s'.receive == s.receive + [t]
            && s'.send == [] && s'.notify == [] && s'.response == s.response && s'.messages == s.messages
  {
    hide Queues, Roles, Matching, Ids, NoIdleReceiver, InOrder, ExactlyOnce, NoneLost;
  }

  /** The end of MsgSend gives the message id back, exactly unless the status is that of a dead channel. */
  lemma SendReturnEffect(s: State, t: nat)
    requires Inv(s) && Legal(s, OpSendReturn(t))
    ensures var s', id := Step(s, OpSendReturn(t)), MSGID(s.tasks[t].rcvid);
            && id in s.messages && s.messages[id] == t && OthersSame(s, s', t, t) && Free(s', t)
            && (id !in s'.messages <==> s.tasks[t].ret != IPC_CHANNEL_DEAD)
            && (forall i :: i in s.messages && i != id ==> i in s'.messages && s'.messages[i] == s.messages[i])
            && s'.send == s.send && s'.response == s.response && s'.receive == s.receive && s'.notify == s.notify
  {
    hide Queues, Roles, Matching, NoIdleReceiver, InOrder, ExactlyOnce, NoneLost;
  }
}
