/** What each mutex call does, and that a task owns a mutex from the call that got it to its unlock. */
module MutexEffects {
  import opened Utils
  import opened PrioQueue
  import opened MutexState
  import opened MutexRuns

  // ----- The effects of the calls -----

  predicate OtherMutexesSame(s: State, s': State, m: nat) {
    s'.mutexes.Keys == s.mutexes.Keys && forall n :: n in s.mutexes && n != m ==> s'.mutexes[n] == s.mutexes[n]
  }

  predicate OtherTasksSame(s: State, s': State, a: nat, b: nat) {
    s'.tasks.Keys == s.tasks.Keys && forall x :: x in s.tasks && x != a && x != b ==> s'.tasks[x] == s.tasks[x]
  }

  /** Task t became the owner of m, which nobody owned; nothing else changed. */
  ghost predicate Taken(s: State, s': State, m: nat, t: nat) {
    && (forall x :: !Owns(s, m, x)) && Owns(s', m, t)
    && s'.mutexes[m].lockQueue == [] && OtherMutexesSame(s, s', m) && s'.tasks == s.tasks
  }

  /** Task t waits for m behind those of higher priority; the owner is the same, and has at least the priority
      of t. */
  ghost predicate Waits(s: State, s': State, m: nat, o: nat, t: nat) {
    && Owns(s, m, o) && Owns(s', m, o) && OtherMutexesSame(s, s', m) && OtherTasksSame(s, s', o, t)
    && t in s.tasks && t in s'.tasks && s'.tasks[t] == s.tasks[t].(waiting := Some(m), ret := E_OK)
    && o in s.tasks && o in s'.tasks && s.tasks[t].active_prio <= s'.tasks[o].active_prio
    && s'.tasks[o].active_prio in {s.tasks[o].active_prio, s.tasks[t].active_prio}
    && s'.tasks[o] == s.tasks[o].(active_prio := s'.tasks[o].active_prio)
    && Joins(s.mutexes[m].lockQueue, s'.mutexes[m].lockQueue, t, s.tasks[t].active_prio)
  }

  /** MutexLock takes a mutex that nobody owns, and waits for one that another task owns. */
  lemma LockEffect(s: State, m: nat, t: nat)
    requires Inv(s) && Legal(s, OpLock(m, t))
    ensures var s' := Step(s, OpLock(m, t));
            if Owns(s, m, t) then s' == s
            else if s.mutexes[m].owner.Some? then Waits(s, s', m, s.mutexes[m].owner.value, t)
            else Taken(s, s', m, t)
  {
    hide Restored, Insert;
    KnownInv(s, m, t);
    assert QueueOk(s, m) && OwnerOk(s, m);
    if s.mutexes[m].owner.Some? && !Owns(s, m, t) {
      ReadyJoins(s.mutexes[m].lockQueue, t, s.tasks[t].active_prio);
    }
  }

  /** MutexTrylock takes a mutex that nobody owns, and leaves one that is owned. */
  lemma TrylockEffect(s: State, m: nat, t: nat)
    requires Inv(s) && Legal(s, OpTrylock(m, t))
    ensures var s' := Step(s, OpTrylock(m, t));
            if exists x :: Owns(s, m, x) then s' == s else Taken(s, s', m, t)
  {
    hide Restored;
    KnownInv(s, m, t);
    assert QueueOk(s, m) && OwnerOk(s, m);
    assert s.mutexes[m].lock ==> Owns(s, m, s.mutexes[m].owner.value);
  }

  /** The mutex has no owner and no waiters after the unlock. */
  ghost predicate Unlocked(s: State, s': State, m: nat, t: nat) {
    && (forall x :: !Owns(s', m, x)) && m in s'.mutexes && s'.mutexes[m].lockQueue == []
    && OtherTasksSame(s, s', t, t)
  }

  /** The mutex passed to the first waiter, which alone was woken. */
  predicate Passed(s: State, s': State, m: nat, t: nat, next: nat) {
    && Owns(s', m, next) && next != t && m in s.mutexes && s.mutexes[m].lockQueue != []
    && next == s.mutexes[m].lockQueue[0].item && s'.mutexes[m].lockQueue == s.mutexes[m].lockQueue[1..]
    && OtherTasksSame(s, s', t, next) && next in s.tasks && next in s'.tasks
    && s'.tasks[next] == s.tasks[next].(waiting := None)
  }

  /** MutexUnlock by the owner passes the mutex to the first waiter or to nobody, and gives the caller its own
      priority; by others it does nothing. */
  lemma UnlockEffect(s: State, m: nat, t: nat)
    requires Inv(s) && Legal(s, OpUnlock(m, t))
    ensures var s', q := Step(s, OpUnlock(m, t)), s.mutexes[m].lockQueue;
            && OtherMutexesSame(s, s', m)
            && if !Owns(s, m, t) then s' == s
               else
                 && !Owns(s', m, t) && t in s'.tasks
                 && s'.tasks[t] == s.tasks[t].(active_prio := s.tasks[t].real_prio)
                 && if q == [] then Unlocked(s, s', m, t) else Passed(s, s', m, t, q[0].item)
  {
    hide Inv, Passed, Unlocked;
    KnownInv(s, m, t);
    if Owns(s, m, t) { ReleaseEffect(s, m, t); }
  }

  lemma ReleaseEffect(s: State, m: nat, t: nat)
    requires Inv(s) && Owns(s, m, t) && t in s.tasks
    requires s.mutexes[m].lockQueue != [] ==> s.mutexes[m].lockQueue[0].item in s.tasks
    ensures var s', q := Release(s, m, t), s.mutexes[m].lockQueue;
            && OtherMutexesSame(s, s', m) && !Owns(s', m, t) && t in s'.tasks
            && s'.tasks[t] == s.tasks[t].(active_prio := s.tasks[t].real_prio)
            && if q == [] then Unlocked(s, s', m, t) else Passed(s, s', m, t, q[0].item)
  {
    hide Inv;
    ReleaseTasks(s, m, t);
    if s.mutexes[m].lockQueue != [] {
      FirstWaits(s, m);
    }
  }

  /** A timeout takes the task out of the queue, with E_TIMED_OUT, and leaves the owner in place. */
  lemma TimeoutEffect(s: State, m: nat, t: nat)
    requires Inv(s) && Legal(s, OpTimeout(m, t))
    ensures s.mutexes[m].owner.Some?
    ensures var s', o := Step(s, OpTimeout(m, t)), s.mutexes[m].owner.value;
            && OtherMutexesSame(s, s', m) && OtherTasksSame(s, s', o, t)
            && Owns(s, m, o) && Owns(s', m, o) && o != t && o in s.tasks && o in s'.tasks && t in s'.tasks
            && s'.tasks[t] == s.tasks[t].(waiting := None, ret := E_TIMED_OUT)
            && s'.tasks[o] == s.tasks[o].(active_prio := s'.tasks[o].active_prio)
            && exists i :: 0 <= i < |s.mutexes[m].lockQueue| && s.mutexes[m].lockQueue[i].item == t
                 && s'.mutexes[m].lockQueue == Cut(s.mutexes[m].lockQueue, i)
  {
    hide Restored, Cut, RemoveItem;
    WaiterKnown(s, m, t);
    assert QueueOk(s, m) && OwnerOk(s, m);
    var i := RemoveItemCut(s.mutexes[m].lockQueue, t);
  }

  // ----- Who owns a mutex -----

  /** A task becomes the owner by its own call, while nobody owns the mutex, or when the owner unlocks it and
      it waits. */
  lemma StepGains(s: State, op: Op, m: nat, t: nat)
    requires Inv(s) && Legal(s, op) && !Owns(s, m, t) && Owns(Step(s, op), m, t)
    ensures if op.OpUnlock? then op.mutex == m && Owns(s, m, op.task) && t in s.tasks && s.tasks[t].waiting == Some(m)
            else op in {OpLock(m, t), OpTrylock(m, t)} && forall x :: !Owns(s, m, x)
  {
    hide Step, Inv, Joins;
    StepOwner(s, op);
    if op.OpUnlock? && Owns(s, op.mutex, op.task) && s.mutexes[op.mutex].lockQueue != [] { FirstWaits(s, op.mutex); }
  }

  /** The effects of the calls on who owns what. */
  lemma StepOwner(s: State, op: Op)
    requires Inv(s) && Legal(s, op)
    ensures var s' := Step(s, op); var m, t := op.mutex, op.task;
            && OtherMutexesSame(s, s', m) && m in s.mutexes
            && if op.OpUnlock? && Owns(s, m, t) then
                 forall x :: Owns(s', m, x) <==> s.mutexes[m].lockQueue != [] && x == s.mutexes[m].lockQueue[0].item
               else if (op.OpLock? || op.OpTrylock?) && (forall x :: !Owns(s, m, x)) then
                 forall x :: Owns(s', m, x) <==> x == t
               else forall x :: Owns(s', m, x) <==> Owns(s, m, x)
  {
    hide Step, Inv, Joins, OtherTasksSame;
    match op
    case OpLock(m, t) => LockEffect(s, m, t);
    case OpTrylock(m, t) => TrylockEffect(s, m, t);
    case OpUnlock(m, t) => UnlockEffect(s, m, t);
    case OpTimeout(m, t) => TimeoutEffect(s, m, t);
  }

  /** Only its own unlock takes a mutex from its owner. */
  lemma StepOwns(s: State, op: Op, m: nat, t: nat)
    requires Inv(s) && Legal(s, op) && Owns(s, m, t) && op != OpUnlock(m, t)
    ensures Owns(Step(s, op), m, t)
  {
    hide Step, Inv;
    StepOwner(s, op);
    if op.mutex == m {
      assert Owns(s, m, op.task) ==> op.task == t;
    }
  }

  lemma {:induction false} RunOwns(s: State, ops: seq<Op>, m: nat, t: nat)
    requires Inv(s) && LegalRun(s, ops) && Owns(s, m, t) && OpUnlock(m, t) !in ops
    ensures Owns(Run(s, ops), m, t)
    decreases |ops|
  {
    if ops != [] {
      StepKeeps(s, ops[0]);
      StepOwns(s, ops[0], m, t);
      RunOwns(Step(s, ops[0]), ops[1..], m, t);
    }
  }

  /** From a call that gets a free mutex to its unlock the caller is the owner, and nobody else is, whatever
      all tasks call meanwhile. */
  lemma OwnerUntilUnlock(s: State, ops: seq<Op>, m: nat, t: nat)
    requires Inv(s) && LegalRun(s, ops) && ops != [] && ops[0] in {OpLock(m, t), OpTrylock(m, t)}
    requires (forall x :: !Owns(s, m, x)) && OpUnlock(m, t) !in ops
    ensures forall x :: Owns(Run(s, ops), m, x) <==> x == t
  {
    hide Step, Inv;
    StepKeeps(s, ops[0]);
    StepOwner(s, ops[0]);
    RunOwns(Step(s, ops[0]), ops[1..], m, t);
  }

  // ----- What a blocked call returns -----

  /** Task t is within a MutexLock of m that blocked: it waits, or was woken with what the call returns. */
  predicate Locking(s: State, m: nat, t: nat) {
    && t in s.tasks
    && match s.tasks[t].waiting
       case Some(n) => n == m && s.tasks[t].ret == E_OK
       case None => s.tasks[t].ret == if Owns(s, m, t) then E_OK else E_TIMED_OUT
  }

  lemma WaiterOwnsNot(s: State, m: nat, t: nat)
    requires Inv(s) && t in s.tasks && s.tasks[t].waiting.Some?
    ensures !Owns(s, m, t)
  {
    hide QueueOk;
    assert s.tasks[t].waiting.value in s.mutexes;
    WaiterKnown(s, s.tasks[t].waiting.value, t);
  }

  lemma UnlockLocking(s: State, n: nat, x: nat, m: nat, t: nat)
    requires Inv(s) && Legal(s, OpUnlock(n, x)) && Locking(s, m, t) && x != t
    ensures Locking(Step(s, OpUnlock(n, x)), m, t)
  {
    hide Inv, Step;
    UnlockEffect(s, n, x);
    StepOwner(s, OpUnlock(n, x));
    if s.tasks[t].waiting.Some? { WaiterOwnsNot(s, m, t); }
    if s.mutexes[n].lockQueue != [] { FirstWaits(s, n); }
  }

  lemma StepLocking(s: State, op: Op, m: nat, t: nat)
    requires Inv(s) && Legal(s, op) && Locking(s, m, t) && (op.task == t ==> op.OpTimeout?)
    ensures Locking(Step(s, op), m, t)
  {
    hide Inv, Step, Joins;
    StepOwner(s, op);
    if s.tasks[t].waiting.Some? { WaiterOwnsNot(s, m, t); }
    match op
    case OpLock(n, x) => LockEffect(s, n, x);
    case OpTrylock(n, x) => TrylockEffect(s, n, x);
    case OpUnlock(n, x) => UnlockLocking(s, n, x, m, t);
    case OpTimeout(n, x) => TimeoutEffect(s, n, x);
  }

  lemma {:induction false} RunLocking(s: State, ops: seq<Op>, m: nat, t: nat)
    requires Inv(s) && LegalRun(s, ops) && Locking(s, m, t)
    requires forall op :: op in ops && op.task == t ==> op.OpTimeout?
    ensures Locking(Run(s, ops), m, t)
    decreases |ops|
  {
    if ops != [] {
      StepKeeps(s, ops[0]);
      StepLocking(s, ops[0], m, t);
      RunLocking(Step(s, ops[0]), ops[1..], m, t);
    }
  }

  /** A MutexLock that blocked returns E_OK exactly if the task owns the mutex, and E_TIMED_OUT otherwise. */
  lemma LockReturns(s: State, ops: seq<Op>, m: nat, t: nat)
    requires Inv(s) && LegalRun(s, ops) && ops != [] && ops[0] == OpLock(m, t)
    requires (exists x :: x != t && Owns(s, m, x)) && forall op :: op in ops[1..] && op.task == t ==> op.OpTimeout?
    ensures var r := Run(s, ops);
            && t in r.tasks
            && if r.tasks[t].waiting.Some? then r.tasks[t].waiting == Some(m) && !Owns(r, m, t)
               else r.tasks[t].ret == if Owns(r, m, t) then E_OK else E_TIMED_OUT
  {
    hide Inv, Step;
    StepKeeps(s, ops[0]);
    LockEffect(s, m, t);
    RunLocking(Step(s, ops[0]), ops[1..], m, t);
    RunKeeps(s, ops);
    if Run(s, ops).tasks[t].waiting.Some? { WaiterOwnsNot(Run(s, ops), m, t); }
  }
}
