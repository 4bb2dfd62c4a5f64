/** The mutexes of kernel/mutex.c and the tasks that use them, and the calls as steps. */
module MutexState {
  import opened Utils
  import opened PrioQueue

  const E_OK: int := 0
  const E_INVAL: int := 1
  const E_BUSY: int := 2
  const E_TIMED_OUT: int := 9
  const E_ERROR: int := 10

  /** waiting is the mutex whose queue the task is in; ret is what its blocked call will return. */
  datatype Task = Task(active_prio: nat, real_prio: nat, waiting: Option<nat>, ret: int)

  datatype Mutex = Mutex(lock: bool, owner: Option<nat>, lockQueue: seq<Queued<nat>>)

  datatype State = State(mutexes: map<nat, Mutex>, tasks: map<nat, Task>)

  function Max(a: nat, b: nat): nat {
    if a < b then b else a
  }

  function Top(q: seq<Queued<nat>>): nat {
    if q == [] then 0 else q[0].prio
  }

  // ----- Steps -----

  predicate Known(s: State, m: nat, t: nat) {
    && m in s.mutexes && t in s.tasks
    && (s.mutexes[m].lock ==> s.mutexes[m].owner.Some? && s.mutexes[m].owner.value in s.tasks)
  }

  /** MutexLock of a locked mutex: the task queues up and its owner inherits the task's priority. */
  function Wait(s: State, m: nat, t: nat): State
    requires Known(s, m, t) && s.mutexes[m].lock
  {
    var mx, task := s.mutexes[m], s.tasks[t];
    var o := mx.owner.value;
    State(s.mutexes[m := mx.(lockQueue := Insert(mx.lockQueue, Queued(t, task.active_prio, 0), ReadySort))],
          s.tasks[o := s.tasks[o].(active_prio := Max(s.tasks[o].active_prio, task.active_prio))]
                 [t := task.(waiting := Some(m), ret := E_OK)])
  }

  function Take(s: State, m: nat, t: nat): State
    requires Known(s, m, t)
  {
    s.(mutexes := s.mutexes[m := s.mutexes[m].(lock := true, owner := Some(t))])
  }

  function Lock(s: State, m: nat, t: nat): State
    requires Known(s, m, t)
  {
    if s.mutexes[m].owner == Some(t) then s
    else if s.mutexes[m].lock then Wait(s, m, t)
    else Take(s, m, t)
  }

  function Trylock(s: State, m: nat, t: nat): State
    requires Known(s, m, t)
  {
    if s.mutexes[m].lock then s else Take(s, m, t)
  }

  predicate Owns(s: State, m: nat, t: nat) {
    m in s.mutexes && s.mutexes[m].lock && s.mutexes[m].owner == Some(t)
  }

  /** MutexUnlock by the owner: the first waiter gets the mutex and is woken, and the task gives up what
      it inherited. */
  function Release(s: State, m: nat, t: nat): State
    requires Owns(s, m, t) && t in s.tasks
    requires s.mutexes[m].lockQueue != [] ==> s.mutexes[m].lockQueue[0].item in s.tasks
  {
    var mx, task := s.mutexes[m], s.tasks[t];
    var restored := if task.real_prio < task.active_prio then task.(active_prio := task.real_prio) else task;
    if mx.lockQueue != [] then
      var next := mx.lockQueue[0].item;
      State(s.mutexes[m := Mutex(true, Some(next), mx.lockQueue[1..])],
            s.tasks[t := restored][next := s.tasks[next].(waiting := None)])
    else
      State(s.mutexes[m := Mutex(false, None, [])], s.tasks[t := restored])
  }

  function Unlock(s: State, m: nat, t: nat): State
    requires Known(s, m, t) && (s.mutexes[m].lockQueue != [] ==> s.mutexes[m].lockQueue[0].item in s.tasks)
  {
    if Owns(s, m, t) then Release(s, m, t) else s
  }

  /** MutexResumeTimeout: the task leaves the queue. If it was the first, the owner falls back to its own
      priority or that of the next waiter. */
  function Timeout(s: State, m: nat, t: nat): State
    requires Known(s, m, t) && s.mutexes[m].lock && s.mutexes[m].lockQueue != []
  {
    var mx := s.mutexes[m];
    var o, q := mx.owner.value, RemoveItem(mx.lockQueue, t);
    var owner := s.tasks[o];
    var restore := mx.lockQueue[0].item == t && owner.active_prio != owner.real_prio;
    State(s.mutexes[m := mx.(lockQueue := q)],
          s.tasks[o := if restore then owner.(active_prio := Max(owner.real_prio, Top(q))) else owner]
                 [t := s.tasks[t].(waiting := None, ret := E_TIMED_OUT)])
  }

  datatype Op = OpLock(mutex: nat, task: nat) | OpTrylock(mutex: nat, task: nat) | OpUnlock(mutex: nat, task: nat)
              | OpTimeout(mutex: nat, task: nat)

  /** The task is not waiting, and owns no mutex but m, if that. */
  ghost predicate Free(s: State, m: nat, t: nat) {
    && m in s.mutexes && t in s.tasks && s.tasks[t].waiting.None?
    && forall n :: Owns(s, n, t) ==> n == m
  }

  /** Tasks hold at most one mutex, and only waiting ones time out. */
  ghost predicate Legal(s: State, op: Op) {
    match op
    case OpLock(m, t) => Free(s, m, t)
    case OpTrylock(m, t) => Free(s, m, t)
    case OpUnlock(m, t) => m in s.mutexes && t in s.tasks && s.tasks[t].waiting.None?
    case OpTimeout(m, t) => m in s.mutexes && t in s.tasks && s.tasks[t].waiting == Some(m)
  }

  // ----- The invariant -----

  /** The queue of mutex m holds the tasks that wait for it, highest priority first. */
  ghost predicate QueueOk(s: State, m: nat)
    requires m in s.mutexes
  {
    var q := s.mutexes[m].lockQueue;
    && Unique(q) && Descending(q)
    && (forall w :: w in q ==>
          w.item in s.tasks && s.tasks[w.item].waiting == Some(m) && s.tasks[w.item].active_prio == w.prio)
    && forall t :: t in s.tasks && s.tasks[t].waiting == Some(m) ==> Holds(q, t)
  }

  /** A locked mutex has an owner, which is not waiting and has the priority that it inherits, no less and
      no more; an unlocked one has neither an owner nor waiters. */
  ghost predicate OwnerOk(s: State, m: nat)
    requires m in s.mutexes
  {
    var mx := s.mutexes[m];
    && (mx.lock <==> mx.owner.Some?) && (!mx.lock ==> mx.lockQueue == [])
    && (mx.lock ==>
          mx.owner.value in s.tasks
          && var o := s.tasks[mx.owner.value];
             o.waiting.None? && o.active_prio == Max(o.real_prio, Top(mx.lockQueue)))
  }

  /** A task that owns nothing has its own priority. */
  ghost predicate Restored(s: State) {
    && (forall t :: t in s.tasks && (forall m :: !Owns(s, m, t)) ==> s.tasks[t].active_prio == s.tasks[t].real_prio)
    && (forall t :: t in s.tasks && s.tasks[t].waiting.Some? ==> s.tasks[t].waiting.value in s.mutexes)
    && forall m, n, t :: Owns(s, m, t) && Owns(s, n, t) ==> m == n
  }

  ghost predicate Inv(s: State) {
    (forall m :: m in s.mutexes ==> QueueOk(s, m) && OwnerOk(s, m)) && Restored(s)
  }
}
