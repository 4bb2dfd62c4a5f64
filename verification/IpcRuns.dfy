/** Runs of a channel: what holds in every reachable state and what the calls promise. */
module IpcRuns {
  import opened Utils
  import opened PrioQueue
  import opened IpcState
  import opened IpcSteps

  ghost function Step(s: State, op: Op): State
    requires Inv(s) && Legal(s, op)
  {
    match op
    case OpSend(t, id) => SendKeeps(s, t, id); Send(s, t, id)
    case OpSendReturn(t) => SendReturn(s, t)
    case OpReceive(t) => ReceiveKeeps(s, t); Receive(s, t)
    case OpRespond(t, status) => RespondKeeps(s, t, status); Respond(s, t, status)
    case OpNotify(priority, n) => NotifyKeeps(s, priority, n); Notify(s, priority, n)
  }

  /** Every legal call keeps the invariant. */
  lemma StepKeeps(s: State, op: Op)
    requires Inv(s) && Legal(s, op)
    ensures Inv(Step(s, op))
  {
    match op
    case OpSend(t, id) => SendKeeps(s, t, id);
    case OpSendReturn(t) => SendReturnKeeps(s, t);
    case OpReceive(t) => ReceiveKeeps(s, t);
    case OpRespond(t, status) => RespondKeeps(s, t, status);
    case OpNotify(priority, n) => NotifyKeeps(s, priority, n);
  }

  ghost predicate LegalRun(s: State, ops: seq<Op>)
    requires Inv(s)
    decreases |ops|
  {
    ops == [] || (Legal(s, ops[0]) && (StepKeeps(s, ops[0]); LegalRun(Step(s, ops[0]), ops[1..])))
  }

  ghost function Run(s: State, ops: seq<Op>): State
    requires Inv(s) && LegalRun(s, ops)
    decreases |ops|
  {
    if ops == [] then s else StepKeeps(s, ops[0]); Run(Step(s, ops[0]), ops[1..])
  }

  /** A new channel whose tasks are all running and serve nobody. */
  ghost predicate Initial(s: State) {
    && s.receive == [] && s.send == [] && s.response == [] && s.notify == []
    && s.messages == map[] && s.past == Past(map[], map[], map[], map[])
    && forall t :: t in s.tasks ==> s.tasks[t].subState == NONE && !s.tasks[t].sending && s.tasks[t].client.None?
  }

  lemma InitialInv(s: State)
    requires Initial(s)
    ensures Inv(s)
  {
    assert forall t, c :: !Serves(s, t, c);
  }

  lemma {:induction false} RunKeeps(s: State, ops: seq<Op>)
    requires Inv(s) && LegalRun(s, ops)
    ensures Inv(Run(s, ops))
    decreases |ops|
  {
    if ops != [] {
      StepKeeps(s, ops[0]);
      RunKeeps(Step(s, ops[0]), ops[1..]);
    }
  }

  lemma StepPastStays(s: State, op: Op)
    requires Inv(s) && Legal(s, op)
    ensures PastStays(s.past, Step(s, op).past)
  {
    hide Queues, Roles, Ids, NoIdleReceiver, InOrder, PastStays;
    match op
    case OpSend(t, id) => SendKeeps(s, t, id); SendPast(s, t, id);
    case OpSendReturn(t) => SamePast(s.past);
    case OpReceive(t) => ReceiveKeeps(s, t); ReceivePast(s, t);
    case OpRespond(t, status) => RespondPast(s, t, status);
    case OpNotify(priority, n) => NotifyKeeps(s, priority, n); NotifyPast(s, priority, n);
  }

  /** History is final: no message is sent or replied to, and no notification sent or taken, a second time. */
  lemma {:induction false} RunPastStays(s: State, ops: seq<Op>)
    requires Inv(s) && LegalRun(s, ops)
    ensures PastStays(s.past, Run(s, ops).past)
    decreases |ops|
  {
    if ops != [] {
      StepKeeps(s, ops[0]);
      StepPastStays(s, ops[0]);
      RunPastStays(Step(s, ops[0]), ops[1..]);
    }
  }

  /** Rendezvous is exactly once: after any run, each message sent so far is either answered, or waits
      in the send queue, or is held by exactly one server; and it is in the hands of its sender's
      server only. */
  lemma Rendezvous(s: State, ops: seq<Op>, k: nat)
    requires Inv(s) && LegalRun(s, ops) && k in Run(s, ops).past.sent
    ensures var r := Run(s, ops); var c := r.past.sent[k];
            && (k in r.past.replied ==> !(Pending(r, c) && r.tasks[c].stamp == k))
            && (k !in r.past.replied ==>
                  && c in r.tasks && r.tasks[c].stamp == k
                  && (Holds(r.send, c) <==> !Holds(r.response, c))
                  && (Holds(r.response, c) <==> exists t :: Serves(r, t, c))
                  && forall t, t' :: Serves(r, t, c) && Serves(r, t', c) ==> t == t')
  {
    RunKeeps(s, ops);
    var r := Run(s, ops);
    var c := r.past.sent[k];
    if exists t :: Serves(r, t, c) {
      var t :| Serves(r, t, c);
      assert Replying(r, c);
    }
    assert Replying(r, c) ==> exists t :: Serves(r, t, c);
  }

  /** Tasks inside MsgSend have different message ids. */
  lemma LiveIdsDiffer(s: State, t: nat, t': nat)
    requires Inv(s) && t in s.tasks && t' in s.tasks && s.tasks[t].sending && s.tasks[t'].sending && t != t'
    ensures s.tasks[t].rcvid != s.tasks[t'].rcvid
  {
  }

  /** MsgReceive takes what is first over both queues: the highest priority; a notification before a
      message of its priority; the oldest among equals. */
  lemma ReceiveTakesHighest(s: State, t: nat)
    requires Inv(s) && Legal(s, OpReceive(t)) && (s.send != [] || s.notify != [])
    ensures TakesMessage(s) ==>
              && (forall w :: w in s.send && w != s.send[0] ==> Before(s.send[0], w))
              && (forall n :: n in s.notify ==> s.send[0].prio > n.prio)
              && Serves(Step(s, OpReceive(t)), t, s.send[0].item)
    ensures !TakesMessage(s) ==>
              && s.notify != []
              && (forall n :: n in s.notify && n != s.notify[0] ==> Before(s.notify[0], n))
              && (forall w :: w in s.send ==> s.notify[0].prio >= w.prio)
              && Step(s, OpReceive(t)).tasks[t].notification == Some(s.notify[0].item)
  {
    hide Queues, Roles, Matching, Ids, NoIdleReceiver, InOrder, ExactlyOnce;
    FirstOfBoth(s);
    ReceiveKeeps(s, t);
  }

  lemma FirstOfBoth(s: State)
    requires InOrder(s) && (s.send != [] || s.notify != [])
    ensures TakesMessage(s) ==>
              && (forall w :: w in s.send && w != s.send[0] ==> Before(s.send[0], w))
              && (forall n :: n in s.notify ==> s.send[0].prio > n.prio)
    ensures !TakesMessage(s) ==>
              && s.notify != []
              && (forall n :: n in s.notify && n != s.notify[0] ==> Before(s.notify[0], n))
              && (forall w :: w in s.send ==> s.notify[0].prio >= w.prio)
  {
  }

  /** MsgRespond wakes exactly the client whose message the server received, with the status. */
  lemma RespondWakesItsClient(s: State, t: nat, status: int)
    requires Inv(s) && Legal(s, OpRespond(t, status))
    ensures var c, s' := s.tasks[t].client.value, Step(s, OpRespond(t, status));
            && Replying(s, c) && s.tasks[c].rcvid == s.tasks[t].received
            && Woken(s', c) && s'.tasks[c].ret == status
            && !Holds(s'.send, c) && !Holds(s'.response, c) && s'.tasks[t].client.None?
            && (forall x :: x in s.tasks && x != t && x != c ==> s'.tasks[x] == s.tasks[x])
            && s'.tasks[t].active_prio == s.tasks[t].real_prio && s'.tasks[t].subState == NONE
            && s'.send == s.send && s'.receive == s.receive && s'.notify == s.notify && s'.messages == s.messages
            && forall x :: Holds(s'.response, x) <==> Holds(s.response, x) && x != c
  {
    RespondKeeps(s, t, status);
    assert Serves(s, t, s.tasks[t].client.value);
    RemoveItemHolds(s.response, s.tasks[t].client.value);
    hide RemoveItem;
  }

  /** MsgSend returns the status of the reply to its message. */
  lemma SendReturnsStatus(s: State, t: nat)
    requires Inv(s) && Legal(s, OpSendReturn(t))
    ensures s.tasks[t].stamp in s.past.replied && s.tasks[t].ret == s.past.replied[s.tasks[t].stamp]
  {
    assert Woken(s, t);
  }

  /** The servers' discipline is needed, except for notifications: a server that takes a message, or waits
      for one, while its client waits for a reply leaves that client without it. */
  lemma ReceiveNeedsNoClient(s: State, t: nat)
    requires Inv(s) && Free(s, t)
    ensures s.send != [] ==> s.send[0].item in s.tasks
    ensures Inv(Receive(s, t)) <==> s.tasks[t].client.None? || (!TakesMessage(s) && s.notify != [])
  {
    if s.send != [] { assert Holds(s.send, s.send[0].item); }
    if s.tasks[t].client.None? {
      ReceiveKeeps(s, t);
    } else if TakesMessage(s) {
      MessageTakesClient(s, t);
    } else if s.notify != [] {
      ReceiveNotificationKeeps(s, t);
    } else {
      assert t in ReceiveWait(s, t).tasks && !Roles(ReceiveWait(s, t));
    }
  }

  lemma MessageTakesClient(s: State, t: nat)
    requires Inv(s) && Free(s, t) && TakesMessage(s) && s.tasks[t].client.Some? && s.send[0].item in s.tasks
    ensures !Matching(ReceiveMessage(s, t))
  {
    var c, s' := s.tasks[t].client.value, ReceiveMessage(s, t);
    assert Holds(s.send, s.send[0].item);
    assert Serves(s, t, c);
    assert Replying(s', c);
    assert forall x :: Serves(s', x, c) ==> Serves(s, x, c) && x != t;
  }

  /** A state that a server and its client reach: the next receive of the server waits, and then another
      sender would take the place of the client. */
  lemma ServerMayLoseClient(s: State)
    requires Initial(s) && 0 in s.tasks && 1 in s.tasks
    ensures Inv(s) && LegalRun(s, [OpReceive(0), OpSend(1, 0)])
    ensures var r := Run(s, [OpReceive(0), OpSend(1, 0)]);
            && Free(r, 0) && Serves(r, 0, 1) && r.send == [] && r.notify == []
            && !Inv(Receive(r, 0)) && Receive(r, 0).receive == [0]
            && forall t :: t in r.tasks && t > 1 ==> SendDirect(Receive(r, 0), t, 1).tasks[0].client == Some(t)
  {
    hide Inv;
    InitialInv(s);
    var a, b := OpReceive(0), OpSend(1, 0);
    StepKeeps(s, a);
    var s1 := Step(s, a);
    StepKeeps(s1, b);
    var r := Step(s1, b);
    TwoSteps(s, a, b);
    ReceiveNeedsNoClient(r, 0);
  }

  lemma TwoSteps(s: State, a: Op, b: Op)
    requires Inv(s) && Legal(s, a) && Inv(Step(s, a)) && Legal(Step(s, a), b) && Inv(Step(Step(s, a), b))
    ensures LegalRun(s, [a, b]) && Run(s, [a, b]) == Step(Step(s, a), b)
  {
    hide Inv, Legal, Step;
    var s1 := Step(s, a);
    assert [a, b][1..] == [b] && [b][1..] == [];
    assert LegalRun(Step(s1, b), []) && LegalRun(s1, [b]);
    assert Run(s1, [b]) == Step(s1, b);
  }
}
