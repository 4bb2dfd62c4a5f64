/** One IPC channel and its tasks: the state that the calls of kernel/ipc_2.c share, and the calls as
    atomic steps on it. */
module IpcState {
  import opened Utils
  import opened PrioQueue

  const INVALID_RCVID: int := -1
  const NOTIFY_RCVID: int := 0
  const IPC_CHANNEL_DEAD: int := -2

  /** What a task is doing: running or ready, or blocked in one of the three ways. */
  datatype SubState = NONE | IPC_SEND | IPC_REPLY | IPC_RECEIVE

  datatype Notification = Notification(kind: int, data: int, scoid: int)

  /** client is the sender that the task serves and received the rcvid that MsgReceive returned for
      it. sending says that the task is inside MsgSend, rcvid is its message id and stamp the moment
      it sent. ret is the value that a blocked call returns. */
  datatype Task = Task(subState: SubState, active_prio: nat, real_prio: nat, client: Option<nat>, received: int,
                       sending: bool, rcvid: int, stamp: nat, ret: int, notification: Option<Notification>)

  /** What happened so far. sent maps every message, by stamp, to its sender, and replied the messages that
      were answered to the status; notified maps every notification, by stamp, to its entry in the queue, and
      taken those that a receiver got to the receiver. */
  datatype Past = Past(sent: map<nat, nat>, replied: map<nat, int>,
                       notified: map<nat, Queued<Notification>>, taken: map<nat, nat>)

  /** What happened stays so. */
  ghost predicate PastStays(p: Past, p': Past) {
    && (forall k :: k in p.sent ==> k in p'.sent && p'.sent[k] == p.sent[k])
    && (forall k :: k in p.replied ==> k in p'.replied && p'.replied[k] == p.replied[k])
    && (forall k :: k in p.notified ==> k in p'.notified && p'.notified[k] == p.notified[k])
    && forall k :: k in p.taken ==> k in p'.taken && p'.taken[k] == p.taken[k]
  }

  /** The channel: its four queues and the table of message ids. clock counts the messages and
      notifications sent so far. */
  datatype State = State(chid: nat, tasks: map<nat, Task>, receive: seq<nat>, send: seq<Queued<nat>>,
                         response: seq<Queued<nat>>, notify: seq<Queued<Notification>>,
                         messages: map<nat, nat>, clock: nat, past: Past)

  // ----- Message ids -----

  function RCVID(chid: nat, id: nat): int {
    chid * 0x1_0000 + (id + 1)
  }

  function MSGID(rcvid: int): int {
    rcvid % 0x1_0000 - 1
  }

  /** Ids survive the round trip through an rcvid, which is neither of the reserved values. */
  lemma RcvidRoundTrip(chid: nat, id: nat)
    requires id < 0xFFFF
    ensures MSGID(RCVID(chid, id)) == id && RCVID(chid, id) > NOTIFY_RCVID && RCVID(chid, id) != INVALID_RCVID
    ensures RCVID(chid, id) / 0x1_0000 == chid
  {
  }

  // ----- Steps -----

  /** A task that is free to make a call. */
  predicate Free(s: State, t: nat) {
    t in s.tasks && s.tasks[t].subState == NONE && !s.tasks[t].sending
  }

  /** The caller as MsgSend leaves it; id is the slot that the message table gives. */
  function SendTask(s: State, t: nat, id: nat, subState: SubState): Task
    requires t in s.tasks
  {
    s.tasks[t].(sending := true, rcvid := RCVID(s.chid, id), stamp := s.clock, ret := 0, subState := subState)
  }

  /** MsgSend to a waiting receiver: the caller is reply blocked at once. */
  function SendDirect(s: State, t: nat, id: nat): State
    requires t in s.tasks && s.receive != [] && s.receive[0] in s.tasks
  {
    var r, prio, rcvid := s.receive[0], s.tasks[t].active_prio, RCVID(s.chid, id);
    var receiver := s.tasks[r].(subState := NONE, active_prio := prio, client := Some(t), received := rcvid,
                                ret := rcvid);
    s.(messages := s.messages[id := t], clock := s.clock + 1, past := s.past.(sent := s.past.sent[s.clock := t]),
       receive := s.receive[1..], response := Insert(s.response, Queued(t, prio, s.clock), MsgSort),
       tasks := s.tasks[t := SendTask(s, t, id, IPC_REPLY)][r := receiver])
  }

  /** MsgSend while nobody receives: the caller is send blocked. */
  function SendQueued(s: State, t: nat, id: nat): State
    requires t in s.tasks
  {
    s.(messages := s.messages[id := t], clock := s.clock + 1, past := s.past.(sent := s.past.sent[s.clock := t]),
       send := Insert(s.send, Queued(t, s.tasks[t].active_prio, s.clock), MsgSort),
       tasks := s.tasks[t := SendTask(s, t, id, IPC_SEND)])
  }

  /** MsgSend up to the point where the caller blocks. */
  function Send(s: State, t: nat, id: nat): State
    requires t in s.tasks && (s.receive != [] ==> s.receive[0] in s.tasks)
  {
    if s.receive != [] then SendDirect(s, t, id) else SendQueued(s, t, id)
  }

  /** The end of MsgSend, once the caller was woken: the message id is given back. */
  function SendReturn(s: State, t: nat): State
    requires t in s.tasks
  {
    var task := s.tasks[t];
    s.(messages := if task.ret != IPC_CHANNEL_DEAD then s.messages - {MSGID(task.rcvid)} else s.messages,
       tasks := s.tasks[t := task.(sending := false)])
  }

  /** MsgGet: whether the next message is taken; a notification of the same priority goes first. */
  predicate TakesMessage(s: State) {
    s.send != [] && (s.notify == [] || s.send[0].prio > s.notify[0].prio)
  }

  function ReceiveMessage(s: State, t: nat): State
    requires t in s.tasks && s.send != [] && s.send[0].item in s.tasks
  {
    var c := s.send[0].item;
    var client, task := s.tasks[c], s.tasks[t];
    s.(send := s.send[1..], response := Insert(s.response, s.send[0], MsgSort),
       tasks := s.tasks[c := client.(subState := IPC_REPLY)]
                       [t := task.(client := Some(c), received := client.rcvid, ret := client.rcvid,
                                   active_prio := client.active_prio)])
  }

  function ReceiveNotification(s: State, t: nat): State
    requires t in s.tasks && s.notify != []
  {
    var n := s.notify[0];
    s.(notify := s.notify[1..], past := s.past.(taken := s.past.taken[n.stamp := t]),
       tasks := s.tasks[t := s.tasks[t].(ret := NOTIFY_RCVID, notification := Some(n.item), active_prio := n.prio)])
  }

  function ReceiveWait(s: State, t: nat): State
    requires t in s.tasks
  {
    s.(receive := s.receive + [t], tasks := s.tasks[t := s.tasks[t].(subState := IPC_RECEIVE, ret := 0)])
  }

  function Receive(s: State, t: nat): State
    requires t in s.tasks && (s.send != [] ==> s.send[0].item in s.tasks)
  {
    if TakesMessage(s) then ReceiveMessage(s, t)
    else if s.notify != [] then ReceiveNotification(s, t)
    else ReceiveWait(s, t)
  }

  function Respond(s: State, t: nat, status: int): State
    requires t in s.tasks && s.tasks[t].client.Some? && s.tasks[t].client.value in s.tasks
  {
    var task := s.tasks[t];
    var c := task.client.value;
    var client := s.tasks[c].(subState := NONE, ret := status);
    s.(response := RemoveItem(s.response, c), past := s.past.(replied := s.past.replied[client.stamp := status]),
       tasks := s.tasks[c := client][t := task.(client := None, active_prio := task.real_prio)])
  }

  function Notify(s: State, priority: nat, n: Notification): State
    requires s.receive != [] ==> s.receive[0] in s.tasks
  {
    var prio := priority % 0x1_0000;
    var w := Queued(n, prio, s.clock);
    if s.receive != [] then
      var r := s.receive[0];
      s.(receive := s.receive[1..], clock := s.clock + 1,
         past := s.past.(notified := s.past.notified[s.clock := w], taken := s.past.taken[s.clock := r]),
         tasks := s.tasks[r := s.tasks[r].(subState := NONE, active_prio := prio, ret := NOTIFY_RCVID,
                                           notification := Some(n))])
    else
      s.(notify := Insert(s.notify, w, MsgSort), clock := s.clock + 1,
         past := s.past.(notified := s.past.notified[s.clock := w]))
  }

  // ----- Runs -----

  datatype Op =
    | OpSend(task: nat, id: nat)
    | OpSendReturn(task: nat)
    | OpReceive(task: nat)
    | OpRespond(task: nat, status: int)
    | OpNotify(priority: nat, notification: Notification)

  /** When a call may be made: the caller is free, receives only without a client and responds only
      with one, and the message table gives a slot that is not in use. */
  predicate Legal(s: State, op: Op) {
    match op
    case OpSend(t, id) => Free(s, t) && id !in s.messages && id < 0xFFFF
    case OpSendReturn(t) => t in s.tasks && s.tasks[t].subState == NONE && s.tasks[t].sending
    case OpReceive(t) => Free(s, t) && s.tasks[t].client.None?
    case OpRespond(t, status) => Free(s, t) && s.tasks[t].client.Some?
    case OpNotify(priority, n) => true
  }

  // ----- The invariant -----

  /** Each blocked task is in the queue of what it waits for, once, and in no other. */
  ghost predicate Queues(s: State) {
    && Unique(s.send) && Unique(s.response) && Distinct(s.receive)
    && (forall t :: Holds(s.send, t) <==> t in s.tasks && s.tasks[t].subState == IPC_SEND)
    && (forall t :: Holds(s.response, t) <==> t in s.tasks && s.tasks[t].subState == IPC_REPLY)
    && forall t :: t in s.receive <==> t in s.tasks && s.tasks[t].subState == IPC_RECEIVE
  }

  /** Blocked senders are inside MsgSend; a waiting receiver serves nobody. */
  ghost predicate Roles(s: State) {
    forall t :: t in s.tasks ==>
      && (s.tasks[t].subState in {IPC_SEND, IPC_REPLY} ==> s.tasks[t].sending)
      && (s.tasks[t].subState == IPC_RECEIVE ==> !s.tasks[t].sending && s.tasks[t].client.None?)
  }

  predicate Serves(s: State, t: nat, c: nat) {
    t in s.tasks && s.tasks[t].client == Some(c)
  }

  predicate Replying(s: State, c: nat) {
    c in s.tasks && s.tasks[c].subState == IPC_REPLY
  }

  /** Servers and reply-blocked clients are matched one to one, and a server holds its client's rcvid. */
  ghost predicate Matching(s: State) {
    && (forall t, c :: Serves(s, t, c) ==>
          Replying(s, c) && s.tasks[t].received == s.tasks[c].rcvid)
    && (forall t, t', c :: Serves(s, t, c) && Serves(s, t', c) ==> t == t')
    && forall c :: Replying(s, c) ==> exists t :: Serves(s, t, c)
  }

  /** The message table has a slot of its own for every task inside MsgSend. */
  ghost predicate Ids(s: State) {
    forall t :: t in s.tasks && s.tasks[t].sending ==>
      var id := MSGID(s.tasks[t].rcvid);
      0 <= id < 0xFFFF && s.tasks[t].rcvid == RCVID(s.chid, id) && id in s.messages && s.messages[id] == t
  }

  /** Nobody waits to receive while something is pending. */
  ghost predicate NoIdleReceiver(s: State) {
    s.receive != [] ==> s.send == [] && s.notify == []
  }

  /** Pending messages and notifications are in order of priority and age. */
  ghost predicate InOrder(s: State) {
    && Ordered(s.send) && Older(s.send, s.clock) && Ordered(s.notify) && Older(s.notify, s.clock)
    && forall w :: w in s.send ==>
         w.item in s.tasks && s.tasks[w.item].active_prio == w.prio && s.tasks[w.item].stamp == w.stamp
  }

  predicate Pending(s: State, t: nat) {
    t in s.tasks && s.tasks[t].subState in {IPC_SEND, IPC_REPLY}
  }

  /** A sender that was replied to and has not left MsgSend yet. */
  predicate Woken(s: State, t: nat) {
    t in s.tasks && s.tasks[t].subState == NONE && s.tasks[t].sending
  }

  /** Every message sent is either pending, with its sender, or was replied to, never both; a sender
      that was woken has the status of the reply to its own message. */
  ghost predicate ExactlyOnce(s: State) {
    && (forall k :: k in s.past.sent ==> k < s.clock)
    && (forall k :: k in s.past.replied ==> k in s.past.sent)
    && (forall k :: k in s.past.sent && k !in s.past.replied ==>
          Pending(s, s.past.sent[k]) && s.tasks[s.past.sent[k]].stamp == k)
    && (forall t :: Pending(s, t) ==>
          s.tasks[t].stamp in s.past.sent && s.past.sent[s.tasks[t].stamp] == t && s.tasks[t].stamp !in s.past.replied)
    && forall t :: Woken(s, t) ==>
         s.tasks[t].stamp in s.past.replied && s.past.replied[s.tasks[t].stamp] == s.tasks[t].ret
  }

  /** Every notification so far is in the queue, with its priority and age, or was taken, never both. */
  ghost predicate NoneLost(s: State) {
    && (forall k :: k in s.past.notified ==> k < s.clock && s.past.notified[k].stamp == k)
    && (forall k :: k in s.past.taken ==> k in s.past.notified)
    && (forall w :: w in s.notify ==>
          w.stamp in s.past.notified && s.past.notified[w.stamp] == w && w.stamp !in s.past.taken)
    && forall k :: k in s.past.notified && k !in s.past.taken ==> s.past.notified[k] in s.notify
  }

  ghost predicate Inv(s: State) {
    NoneLost(s) && Queues(s) && Roles(s) && Matching(s) && Ids(s) && NoIdleReceiver(s) && InOrder(s) && ExactlyOnce(s)
  }
}
