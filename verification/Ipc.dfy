/** The calls of kernel/ipc_2.c on one channel. Each call is one atomic step of IpcState; MsgSend is two,
    the second once the caller was woken. */
module Ipc {
  import opened Utils
  import opened PrioQueue
  import opened IpcState

  class Channel {
    const chid: nat
    var tasks: map<nat, Task>
    var receive: seq<nat>
    var send: seq<Queued<nat>>
    var response: seq<Queued<nat>>
    var notify: seq<Queued<Notification>>
    var messages: map<nat, nat>
    /** Counts what was sent, so that queued objects carry their age. */
    var clock: nat
    ghost var past: Past

    ghost function Abs(): State
      reads this
    {
      State(chid, tasks, receive, send, response, notify, messages, clock, past)
    }

    constructor (chid: nat, tasks: map<nat, Task>)
      ensures Abs() == State(chid, tasks, [], [], [], [], map[], 0, Past(map[], map[], map[], map[]))
    {
      this.chid, this.tasks := chid, tasks;
      receive, send, response, notify, messages := [], [], [], [], map[];
      clock, past := 0, Past(map[], map[], map[], map[]);
    }

    /** VectorInsert: some index that is not in use. */
    method VectorInsert(t: nat, id: nat)
      requires id !in messages
      modifies this`messages
      ensures messages == old(messages)[id := t]
    {
      messages := messages[id := t];
    }

    method MsgSend(t: nat, id: nat)
      requires Free(Abs(), t) && id !in messages && (receive != [] ==> receive[0] in tasks && receive[0] != t)
      modifies this
      ensures Abs() == Send(old(Abs()), t, id)
    {
      hide Insert, RCVID;
      VectorInsert(t, id);
      var rcvid := RCVID(chid, id);
      tasks := tasks[t := tasks[t].(sending := true, rcvid := rcvid, stamp := clock)];
      if receive != [] {
        HandOver(t, rcvid);
        assert tasks == SendDirect(old(Abs()), t, id).tasks;
      } else {
        // Add task to sender blocked list
        send := Insert(send, Queued(t, tasks[t].active_prio, clock), MsgSort);
        tasks := tasks[t := tasks[t].(subState := IPC_SEND, ret := 0)];
      }
      clock, past := clock + 1, past.(sent := past.sent[clock := t]);
    }

    /** The part of MsgSend that finds a waiting receiver. */
    method HandOver(t: nat, rcvid: int)
      requires t in tasks && receive != [] && receive[0] in tasks && receive[0] != t
      modifies this`tasks, this`receive, this`response
      ensures receive == old(receive)[1..]
      ensures response == Insert(old(response), Queued(t, old(tasks)[t].active_prio, clock), MsgSort)
      ensures var r := old(receive)[0];
              tasks == old(tasks)[t := old(tasks)[t].(subState := IPC_REPLY, ret := 0)]
                                 [r := old(tasks)[r].(active_prio := old(tasks)[t].active_prio, client := Some(t),
                                                      received := rcvid, ret := rcvid, subState := NONE)]
    {
      hide Insert;
      var receiver := receive[0];
      receive := receive[1..];
      // Go strait to reply blocked
      response := Insert(response, Queued(t, tasks[t].active_prio, clock), MsgSort);
      // Set up receiver task to attend sent message, unblock it and suspend/block sender
      tasks := tasks[receiver := tasks[receiver].(active_prio := tasks[t].active_prio, client := Some(t),
                                                  received := rcvid, ret := rcvid, subState := NONE)];
      tasks := tasks[t := tasks[t].(subState := IPC_REPLY, ret := 0)];
    }

    /** The rest of MsgSend, once the caller was woken. */
    method MsgSendReturn(t: nat) returns (ret: int)
      requires t in tasks
      modifies this
      ensures Abs() == SendReturn(old(Abs()), t) && ret == old(tasks)[t].ret
    {
      ret := tasks[t].ret;
      // If channel is still alive remove message from the channel vector
      if ret != IPC_CHANNEL_DEAD {
        messages := messages - {MSGID(tasks[t].rcvid)};
      }
      tasks := tasks[t := tasks[t].(sending := false)];
    }

    /** The next message or notification for a receiver; prio is the priority of a notification. */
    method MsgGet(t: nat) returns (rcvid: int, prio: nat)
      requires t in tasks && (forall w :: w in send ==> w.item in tasks)
      modifies this
      ensures TakesMessage(old(Abs())) ==>
                && Abs() == old(Abs()).(send := old(send)[1..],
                                        tasks := old(tasks)[t := old(tasks)[t].(client := Some(old(send)[0].item))])
                && rcvid == old(tasks)[old(send)[0].item].rcvid
      ensures !TakesMessage(old(Abs())) && old(notify) != [] ==>
                var task := old(tasks)[t].(notification := Some(old(notify)[0].item));
                && Abs() == old(Abs()).(notify := old(notify)[1..], tasks := old(tasks)[t := task],
                                        past := old(past).(taken := old(past).taken[old(notify)[0].stamp := t]))
                && rcvid == NOTIFY_RCVID && prio == old(notify)[0].prio
      ensures !TakesMessage(old(Abs())) && old(notify) == [] ==> Abs() == old(Abs()) && rcvid == INVALID_RCVID
    {
      prio := 0;
      if send != [] && (notify == [] || send[0].prio > notify[0].prio) {
        var sender := send[0].item;
        rcvid := tasks[sender].rcvid;
        tasks := tasks[t := tasks[t].(client := Some(sender))];
        send := send[1..];
        return;
      }
      if notify != [] && (send == [] || send[0].prio <= notify[0].prio) {
        tasks := tasks[t := tasks[t].(notification := Some(notify[0].item))];
        prio := notify[0].prio;
        past := past.(taken := past.taken[notify[0].stamp := t]);
        notify := notify[1..];
        return NOTIFY_RCVID, prio;
      }
      return INVALID_RCVID, prio;
    }

    method MsgReceive(t: nat)
      requires Free(Abs(), t)
      requires forall w :: w in send ==>
                 && w.item in tasks && w.item != t
                 && w.prio == tasks[w.item].active_prio && w.stamp == tasks[w.item].stamp
      requires forall w :: w in send ==> tasks[w.item].rcvid > NOTIFY_RCVID
      modifies this
      ensures Abs() == Receive(old(Abs()), t)
    {
      hide Insert;
      assert send != [] ==> send[0] in send;
      var rcvid, notifyPrio := MsgGet(t);
      if rcvid == INVALID_RCVID {
        receive := receive + [t];
        // Suspend receiver
        tasks := tasks[t := tasks[t].(subState := IPC_RECEIVE, ret := 0)];
      } else if rcvid != NOTIFY_RCVID {
        // Add sender task to reply blocked list
        var c := tasks[t].client.value;
        var prio := tasks[c].active_prio;
        tasks := tasks[c := tasks[c].(subState := IPC_REPLY)];
        response := Insert(response, Queued(c, prio, tasks[c].stamp), MsgSort);
        tasks := tasks[t := tasks[t].(active_prio := prio, received := rcvid, ret := rcvid)];
        assert tasks == ReceiveMessage(old(Abs()), t).tasks;
      } else {
        tasks := tasks[t := tasks[t].(active_prio := notifyPrio, ret := NOTIFY_RCVID)];
      }
    }

    /** False when the caller no longer has a client: the message id is given back. */
    method MsgRespond(t: nat, rcvid: int, status: int) returns (ok: bool)
      requires t in tasks && (tasks[t].client.Some? ==> tasks[t].client.value in tasks && tasks[t].client.value != t)
      modifies this
      ensures ok <==> old(tasks)[t].client.Some?
      ensures ok ==> Abs() == Respond(old(Abs()), t, status)
      ensures !ok ==>
                var task := old(tasks)[t].(active_prio := old(tasks)[t].real_prio);
                Abs() == old(Abs()).(messages := old(messages) - {MSGID(rcvid)}, tasks := old(tasks)[t := task])
    {
      var task := tasks[t];
      // Check if sender is still waiting for the reply
      if task.client == None {
        messages := messages - {MSGID(rcvid)};
        tasks := tasks[t := task.(active_prio := task.real_prio)];
        return false;
      }
      var sender := task.client.value;
      // Remove sender from reply blocked list
      response := RemoveItem(response, sender);
      // Detach server task from client task
      tasks := tasks[t := task.(client := None)];
      // Resume sender
      tasks := tasks[sender := tasks[sender].(ret := status)];
      tasks := tasks[sender := tasks[sender].(subState := NONE)];
      past := past.(replied := past.replied[tasks[sender].stamp := status]);
      tasks := tasks[t := tasks[t].(active_prio := tasks[t].real_prio)];
      assert tasks == Respond(old(Abs()), t, status).tasks;
      return true;
    }

    method MsgNotify(priority: nat, n: Notification)
      requires receive != [] ==> receive[0] in tasks
      modifies this
      ensures Abs() == Notify(old(Abs()), priority, n)
    {
      var prio := priority % 0x1_0000;
      if receive != [] {
        var receiver := receive[0];
        receive := receive[1..];
        past := past.(taken := past.taken[clock := receiver]);
        tasks := tasks[receiver := tasks[receiver].(active_prio := prio, notification := Some(n), ret := NOTIFY_RCVID)];
        tasks := tasks[receiver := tasks[receiver].(subState := NONE)];
      } else {
        notify := Insert(notify, Queued(n, prio, clock), MsgSort);
      }
      past := past.(notified := past.notified[clock := Queued(n, prio, clock)]);
      clock := clock + 1;
    }
  }
}
