/** Every call keeps the mutexes' invariant; runs of calls. */
module MutexRuns {
  import opened Utils
  import opened PrioQueue
  import opened MutexState

  lemma KnownInv(s: State, m: nat, t: nat)
    requires Inv(s) && m in s.mutexes && t in s.tasks
    ensures Known(s, m, t) && (s.mutexes[m].lockQueue != [] ==> s.mutexes[m].lockQueue[0].item in s.tasks)
    ensures forall w :: w in s.mutexes[m].lockQueue ==> w.item in s.tasks
  {
    assert QueueOk(s, m) && OwnerOk(s, m);
  }

  // ----- Taking a free mutex -----

  lemma TakeKeeps(s: State, m: nat, t: nat)
    requires Inv(s) && Free(s, m, t) && !s.mutexes[m].lock
    ensures Known(s, m, t) && Inv(Take(s, m, t))
  {
    KnownInv(s, m, t);
    var s' := Take(s, m, t);
    assert forall n, x :: Owns(s', n, x) <==> Owns(s, n, x) || (n == m && x == t);
    assert forall n :: !Owns(s, n, t);
    forall n | n in s'.mutexes
      ensures QueueOk(s', n) && OwnerOk(s', n)
    {
      assert QueueOk(s, n) && OwnerOk(s, n);
    }
  }

  // ----- Waiting for a locked one -----

  /** A queue whose waiters stay the same. */
  lemma QueueFrame(s: State, s': State, n: nat)
    requires n in s.mutexes && n in s'.mutexes && QueueOk(s, n) && s'.mutexes[n].lockQueue == s.mutexes[n].lockQueue
    requires s'.tasks.Keys == s.tasks.Keys
    requires forall x :: x in s.tasks ==> (s'.tasks[x].waiting == Some(n) <==> s.tasks[x].waiting == Some(n))
    requires forall x :: x in s.tasks && s.tasks[x].waiting == Some(n) ==>
               s'.tasks[x].active_prio == s.tasks[x].active_prio
    ensures QueueOk(s', n)
  {
  }

  lemma WaitQueue(s: State, m: nat, t: nat, n: nat)
    requires Inv(s) && Free(s, m, t) && s.mutexes[m].lock && s.mutexes[m].owner != Some(t) && n in s.mutexes
    ensures Known(s, m, t) && QueueOk(Wait(s, m, t), n)
  {
    KnownInv(s, m, t);
    assert QueueOk(s, n) && OwnerOk(s, m);
    if n == m {
      WaitOwnQueue(s, m, t);
    } else {
      WaitOtherQueue(s, m, t, n);
    }
  }

  lemma WaitOtherQueue(s: State, m: nat, t: nat, n: nat)
    requires Known(s, m, t) && s.mutexes[m].lock && n in s.mutexes && n != m && QueueOk(s, n)
             && s.tasks[t].waiting.None?
    requires s.mutexes[m].owner != Some(t) && s.tasks[s.mutexes[m].owner.value].waiting.None?
    ensures QueueOk(Wait(s, m, t), n)
  {
    hide QueueOk, Insert;
    var s' := Wait(s, m, t);
    assert s'.mutexes[n] == s.mutexes[n];
    QueueFrame(s, s', n);
  }

  lemma WaitOwnQueue(s: State, m: nat, t: nat)
    requires Known(s, m, t) && s.mutexes[m].lock && QueueOk(s, m) && s.tasks[t].waiting.None?
    requires s.mutexes[m].owner != Some(t) && s.tasks[s.mutexes[m].owner.value].waiting.None?
    ensures QueueOk(Wait(s, m, t), m)
  {
    hide Insert;
    var q, x := s.mutexes[m].lockQueue, Queued(t, s.tasks[t].active_prio, 0);
    HoldsIn(q, t);
    ReadyInsertDescending(q, x);
    InsertElements(q, x, ReadySort);
    InsertHolds(q, x, ReadySort);
    InsertUnique(q, x, ReadySort);
    var s', o := Wait(s, m, t), s.mutexes[m].owner.value;
    forall w | w in s'.mutexes[m].lockQueue
      ensures w.item in s'.tasks && s'.tasks[w.item].waiting == Some(m) && s'.tasks[w.item].active_prio == w.prio
    {
      if w != x { assert w in q && w.item != t && w.item != o; }
    }
  }

  lemma TopOfInsert(q: seq<Queued<nat>>, x: Queued<nat>)
    requires Descending(q)
    ensures Top(Insert(q, x, ReadySort)) == Max(Top(q), x.prio)
  {
    var i := InsertPos(q, x.prio, ReadySort);
    assert i > 0 ==> Compare(ReadySort, q[0].prio, x.prio) > 0;
  }

  lemma WaitOwner(s: State, m: nat, t: nat, n: nat)
    requires Inv(s) && Free(s, m, t) && s.mutexes[m].lock && s.mutexes[m].owner != Some(t) && n in s.mutexes
    ensures Known(s, m, t) && OwnerOk(Wait(s, m, t), n)
  {
    KnownInv(s, m, t);
    assert QueueOk(s, m) && OwnerOk(s, n) && OwnerOk(s, m);
    TopOfInsert(s.mutexes[m].lockQueue, Queued(t, s.tasks[t].active_prio, 0));
    assert Owns(s, m, s.mutexes[m].owner.value);
    if n != m && s.mutexes[n].lock {
      assert Owns(s, n, s.mutexes[n].owner.value);
    }
  }

  lemma WaitRestored(s: State, m: nat, t: nat)
    requires Inv(s) && Free(s, m, t) && s.mutexes[m].lock && s.mutexes[m].owner != Some(t)
    ensures Known(s, m, t) && Restored(Wait(s, m, t))
  {
    hide Insert, QueueOk;
    KnownInv(s, m, t);
    var s' := Wait(s, m, t);
    assert forall n, x :: Owns(s', n, x) <==> Owns(s, n, x);
    assert Owns(s, m, s.mutexes[m].owner.value);
  }

  lemma WaitKeeps(s: State, m: nat, t: nat)
    requires Inv(s) && Free(s, m, t) && s.mutexes[m].lock && s.mutexes[m].owner != Some(t)
    ensures Known(s, m, t) && Inv(Wait(s, m, t))
  {
    hide QueueOk, OwnerOk, Restored;
    KnownInv(s, m, t);
    var s' := Wait(s, m, t);
    forall n | n in s'.mutexes
      ensures QueueOk(s', n) && OwnerOk(s', n)
    {
      WaitQueue(s, m, t, n);
      WaitOwner(s, m, t, n);
    }
    WaitRestored(s, m, t);
  }

  // ----- Unlocking -----

  lemma FirstWaits(s: State, m: nat)
    requires Inv(s) && m in s.mutexes && s.mutexes[m].lockQueue != []
    ensures var q := s.mutexes[m].lockQueue; var next := q[0].item;
            && next in s.tasks && s.tasks[next].waiting == Some(m)
            && s.tasks[next].active_prio == q[0].prio == s.tasks[next].real_prio
            && (forall n :: !Owns(s, n, next)) && Unique(q[1..]) && Descending(q[1..])
            && (forall w :: w in q[1..] ==> w in q && w.item != next)
            && (forall x :: Holds(q[1..], x) <==> Holds(q, x) && x != next)
            && Top(q[1..]) <= q[0].prio
  {
    assert QueueOk(s, m);
    var q := s.mutexes[m].lockQueue;
    RestKeeps(q);
    assert q[0] in q && (|q| > 1 ==> q[1] in q);
    forall n: nat
      ensures !Owns(s, n, q[0].item)
    {
      if n in s.mutexes { assert OwnerOk(s, n); }
    }
  }

  lemma ReleaseQueue(s: State, m: nat, t: nat, n: nat)
    requires Inv(s) && Owns(s, m, t) && t in s.tasks && n in s.mutexes
    requires s.mutexes[m].lockQueue != [] ==> s.mutexes[m].lockQueue[0].item in s.tasks
    ensures QueueOk(Release(s, m, t), n)
  {
    assert QueueOk(s, n) && OwnerOk(s, m);
    var q := s.mutexes[m].lockQueue;
    if q != [] { FirstWaits(s, m); }
    if n == m && q != [] {
      ReleaseOwnQueue(s, m, t);
    } else {
      ReleaseOtherQueue(s, m, t, n);
    }
  }

  lemma ReleaseOwnQueue(s: State, m: nat, t: nat)
    requires Owns(s, m, t) && t in s.tasks && QueueOk(s, m) && s.mutexes[m].lockQueue != []
    requires s.mutexes[m].lockQueue[0].item in s.tasks && s.tasks[t].waiting.None?
             && s.mutexes[m].lockQueue[0].item != t
    ensures QueueOk(Release(s, m, t), m)
  {
    var q := s.mutexes[m].lockQueue;
    RestKeeps(q);
    hide QueueOk, Holds, Unique, Descending;
    var s', next := Release(s, m, t), q[0].item;
    assert s'.mutexes[m].lockQueue == q[1..] && s'.tasks.Keys == s.tasks.Keys;
    assert s'.tasks[next].waiting.None? && s'.tasks[t].waiting.None?;
    assert forall x :: x in s.tasks && x != t && x != next ==> s'.tasks[x] == s.tasks[x];
    QueueShrinks(s, s', m, next, t, q[1..]);
  }

  lemma ReleaseOtherQueue(s: State, m: nat, t: nat, n: nat)
    requires Owns(s, m, t) && t in s.tasks && n in s.mutexes && QueueOk(s, n) && s.tasks[t].waiting.None?
    requires n == m ==> s.mutexes[m].lockQueue == []
    requires s.mutexes[m].lockQueue != [] ==>
               var next := s.mutexes[m].lockQueue[0].item; next in s.tasks && s.tasks[next].waiting == Some(m)
    ensures QueueOk(Release(s, m, t), n)
  {
    hide QueueOk;
    var s' := Release(s, m, t);
    assert s'.mutexes[n].lockQueue == s.mutexes[n].lockQueue;
    QueueFrame(s, s', n);
  }

  lemma ReleaseOwner(s: State, m: nat, t: nat, n: nat)
    requires Inv(s) && Owns(s, m, t) && t in s.tasks && n in s.mutexes
    requires s.mutexes[m].lockQueue != [] ==> s.mutexes[m].lockQueue[0].item in s.tasks
    ensures OwnerOk(Release(s, m, t), n)
  {
    assert OwnerOk(s, n) && OwnerOk(s, m);
    if s.mutexes[m].lockQueue != [] { FirstWaits(s, m); }
    if n != m && s.mutexes[n].lock {
      assert Owns(s, n, s.mutexes[n].owner.value);
    }
  }

  /** Who owns what after an unlock. */
  lemma ReleaseOwns(s: State, m: nat, t: nat)
    requires Owns(s, m, t) && t in s.tasks
    requires s.mutexes[m].lockQueue != [] ==> s.mutexes[m].lockQueue[0].item in s.tasks
    ensures var s', q := Release(s, m, t), s.mutexes[m].lockQueue;
            forall n, x :: Owns(s', n, x) <==> if n == m then q != [] && x == q[0].item else Owns(s, n, x)
  {
  }

  lemma ReleaseTasks(s: State, m: nat, t: nat)
    requires Inv(s) && Owns(s, m, t) && t in s.tasks
    requires s.mutexes[m].lockQueue != [] ==> s.mutexes[m].lockQueue[0].item in s.tasks
    ensures var s', q := Release(s, m, t), s.mutexes[m].lockQueue;
            && s'.tasks.Keys == s.tasks.Keys && s'.mutexes.Keys == s.mutexes.Keys
            && s'.tasks[t].active_prio == s'.tasks[t].real_prio && s'.tasks[t].waiting.None?
            && forall x :: x in s.tasks && x != t ==>
                 && s'.tasks[x].active_prio == s.tasks[x].active_prio && s'.tasks[x].real_prio == s.tasks[x].real_prio
                 && s'.tasks[x].waiting == if q != [] && x == q[0].item then None else s.tasks[x].waiting
  {
    hide QueueOk;
    assert OwnerOk(s, m);
    if s.mutexes[m].lockQueue != [] {
      FirstWaits(s, m);
    }
  }

  /** A mutex that passes from t to next, which owned none, or to nobody. */
  lemma OwnerPasses(s: State, s': State, m: nat, t: nat, next: Option<nat>)
    requires Restored(s) && Owns(s, m, t) && next != Some(t)
    requires forall n: nat, x: nat :: Owns(s', n, x) <==> if n == m then next == Some(x) else Owns(s, n, x)
    requires next.Some? ==> forall n :: !Owns(s, n, next.value)
    requires s'.tasks.Keys == s.tasks.Keys && s'.mutexes.Keys == s.mutexes.Keys
    requires forall x :: x in s.tasks && x != t ==>
               s'.tasks[x].active_prio == s.tasks[x].active_prio && s'.tasks[x].real_prio == s.tasks[x].real_prio
    requires t in s.tasks && s'.tasks[t].active_prio == s'.tasks[t].real_prio
    requires forall x :: x in s.tasks && s'.tasks[x].waiting.Some? ==> s'.tasks[x].waiting == s.tasks[x].waiting
    ensures Restored(s')
  {
    hide Owns;
    forall x | x in s'.tasks && x != t && forall n :: !Owns(s', n, x)
      ensures s.tasks[x].active_prio == s.tasks[x].real_prio
    {
      OwnsNothing(s, s', m, t, next, x);
    }
  }

  lemma OwnsNothing(s: State, s': State, m: nat, t: nat, next: Option<nat>, x: nat)
    requires Owns(s, m, t) && x != t && forall n :: !Owns(s', n, x)
    requires forall n: nat, x: nat :: Owns(s', n, x) <==> if n == m then next == Some(x) else Owns(s, n, x)
    ensures forall n :: !Owns(s, n, x)
  {
    forall n: nat
      ensures !Owns(s, n, x)
    {
      assert !Owns(s', n, x);
    }
  }

  lemma ReleaseRestored(s: State, m: nat, t: nat)
    requires Inv(s) && Owns(s, m, t) && t in s.tasks
    requires s.mutexes[m].lockQueue != [] ==> s.mutexes[m].lockQueue[0].item in s.tasks
    ensures Restored(Release(s, m, t))
  {
    var s', q := Release(s, m, t), s.mutexes[m].lockQueue;
    if q != [] { FirstWaits(s, m); }
    ReleaseOwns(s, m, t);
    ReleaseTasks(s, m, t);
    hide QueueOk, OwnerOk, Release, Unique, Descending, Restored;
    OwnerPasses(s, s', m, t, if q == [] then None else Some(q[0].item));
  }

  lemma ReleaseKeeps(s: State, m: nat, t: nat)
    requires Inv(s) && Owns(s, m, t) && t in s.tasks
    ensures (s.mutexes[m].lockQueue != [] ==> s.mutexes[m].lockQueue[0].item in s.tasks) && Inv(Release(s, m, t))
  {
    hide QueueOk, OwnerOk, Restored;
    KnownInv(s, m, t);
    var s' := Release(s, m, t);
    forall n | n in s'.mutexes
      ensures QueueOk(s', n) && OwnerOk(s', n)
    {
      ReleaseQueue(s, m, t, n);
      ReleaseOwner(s, m, t, n);
    }
    ReleaseRestored(s, m, t);
  }

  // ----- Timeouts -----

  lemma WaiterKnown(s: State, m: nat, t: nat)
    requires Inv(s) && m in s.mutexes && t in s.tasks && s.tasks[t].waiting == Some(m)
    ensures Known(s, m, t) && s.mutexes[m].lock && s.mutexes[m].lockQueue != [] && Holds(s.mutexes[m].lockQueue, t)
    ensures s.mutexes[m].owner != Some(t) && Owns(s, m, s.mutexes[m].owner.value)
    ensures forall n :: !Owns(s, n, t)
  {
    assert QueueOk(s, m) && OwnerOk(s, m);
    forall n: nat
      ensures !Owns(s, n, t)
    {
      if n in s.mutexes { assert OwnerOk(s, n); }
    }
  }

  lemma TimeoutQueue(s: State, m: nat, t: nat, n: nat)
    requires Inv(s) && m in s.mutexes && t in s.tasks && s.tasks[t].waiting == Some(m) && n in s.mutexes
    ensures Known(s, m, t) && s.mutexes[m].lock && s.mutexes[m].lockQueue != [] && QueueOk(Timeout(s, m, t), n)
  {
    WaiterKnown(s, m, t);
    assert QueueOk(s, n) && QueueOk(s, m) && OwnerOk(s, m);
    if n == m {
      TimeoutOwnQueue(s, m, t);
    } else {
      TimeoutOtherQueue(s, m, t, n);
    }
  }

  lemma TimeoutOtherQueue(s: State, m: nat, t: nat, n: nat)
    requires Known(s, m, t) && s.mutexes[m].lock && s.mutexes[m].lockQueue != [] && s.tasks[t].waiting == Some(m)
    requires n in s.mutexes && n != m && QueueOk(s, n) && s.tasks[s.mutexes[m].owner.value].waiting.None?
    ensures QueueOk(Timeout(s, m, t), n)
  {
    hide QueueOk, RemoveItem;
    var s' := Timeout(s, m, t);
    assert s'.mutexes[n] == s.mutexes[n];
    QueueFrame(s, s', n);
  }

  lemma TimeoutOwnQueue(s: State, m: nat, t: nat)
    requires Known(s, m, t) && s.mutexes[m].lock && QueueOk(s, m) && s.tasks[t].waiting == Some(m)
    requires s.mutexes[m].owner != Some(t) && s.tasks[s.mutexes[m].owner.value].waiting.None?
    ensures s.mutexes[m].lockQueue != [] && QueueOk(Timeout(s, m, t), m)
  {
    var q, o := s.mutexes[m].lockQueue, s.mutexes[m].owner.value;
    RemoveItemKeeps(q, t);
    RemoveItemHolds(q, t);
    hide RemoveItem, Holds, Unique, Descending;
    var s' := Timeout(s, m, t);
    assert s'.mutexes[m].lockQueue == RemoveItem(q, t) && s'.tasks[t].waiting.None?;
    assert forall x :: x in s.tasks && x != t && x != o ==> s'.tasks[x] == s.tasks[x];
    QueueShrinks(s, s', m, t, o, RemoveItem(q, t));
  }

  /** A queue that loses one waiter, while another task that is not waiting may change its priority. */
  lemma QueueShrinks(s: State, s': State, m: nat, t: nat, o: nat, r: seq<Queued<nat>>)
    requires m in s.mutexes && m in s'.mutexes && QueueOk(s, m) && t in s.tasks && o in s.tasks
    requires s'.tasks.Keys == s.tasks.Keys && s'.tasks[t].waiting.None? && s.tasks[o].waiting.None?
             && s'.tasks[o].waiting.None?
    requires forall x :: x in s.tasks && x != t && x != o ==> s'.tasks[x] == s.tasks[x]
    requires var q := s.mutexes[m].lockQueue;
             && s'.mutexes[m].lockQueue == r && Unique(r) && Descending(r)
             && (forall w :: w in r <==> w in q && w.item != t)
             && forall x :: Holds(r, x) <==> Holds(q, x) && x != t
    ensures QueueOk(s', m)
  {
    forall w | w in r
      ensures w.item in s'.tasks && s'.tasks[w.item].waiting == Some(m) && s'.tasks[w.item].active_prio == w.prio
    {
      assert w in s.mutexes[m].lockQueue && w.item != t && w.item != o;
    }
  }

  lemma TopOfRemove(q: seq<Queued<nat>>, t: nat)
    requires Unique(q) && Descending(q) && q != []
    ensures q[0].item != t ==> Top(RemoveItem(q, t)) == Top(q)
    ensures Top(RemoveItem(q, t)) <= Top(q)
  {
  }

  lemma TimeoutOwner(s: State, m: nat, t: nat, n: nat)
    requires Inv(s) && m in s.mutexes && t in s.tasks && s.tasks[t].waiting == Some(m) && n in s.mutexes
    ensures Known(s, m, t) && s.mutexes[m].lock && s.mutexes[m].lockQueue != [] && OwnerOk(Timeout(s, m, t), n)
  {
    WaiterKnown(s, m, t);
    assert QueueOk(s, m) && OwnerOk(s, n) && OwnerOk(s, m);
    TopOfRemove(s.mutexes[m].lockQueue, t);
    if n != m && s.mutexes[n].lock {
      assert Owns(s, n, s.mutexes[n].owner.value);
    }
  }

  lemma TimeoutKeeps(s: State, m: nat, t: nat)
    requires Inv(s) && m in s.mutexes && t in s.tasks && s.tasks[t].waiting == Some(m)
    ensures Known(s, m, t) && s.mutexes[m].lock && s.mutexes[m].lockQueue != [] && Inv(Timeout(s, m, t))
  {
    hide QueueOk, OwnerOk, RemoveItem;
    WaiterKnown(s, m, t);
    var s' := Timeout(s, m, t);
    assert forall n, x :: Owns(s', n, x) <==> Owns(s, n, x);
    forall n | n in s'.mutexes
      ensures QueueOk(s', n) && OwnerOk(s', n)
    {
      TimeoutQueue(s, m, t, n);
      TimeoutOwner(s, m, t, n);
    }
  }

  // ----- Runs -----

  ghost function Step(s: State, op: Op): State
    requires Inv(s) && Legal(s, op)
  {
    match op
    case OpLock(m, t) => KnownInv(s, m, t); Lock(s, m, t)
    case OpTrylock(m, t) => KnownInv(s, m, t); Trylock(s, m, t)
    case OpUnlock(m, t) => KnownInv(s, m, t); Unlock(s, m, t)
    case OpTimeout(m, t) => WaiterKnown(s, m, t); Timeout(s, m, t)
  }

  lemma StepKeeps(s: State, op: Op)
    requires Inv(s) && Legal(s, op)
    ensures Inv(Step(s, op))
  {
    hide Inv;
    match op
    case OpLock(m, t) =>
      KnownInv(s, m, t);
      if s.mutexes[m].owner != Some(t) {
        if s.mutexes[m].lock { WaitKeeps(s, m, t); } else { TakeKeeps(s, m, t); }
      }
    case OpTrylock(m, t) =>
      KnownInv(s, m, t);
      if !s.mutexes[m].lock { TakeKeeps(s, m, t); }
    case OpUnlock(m, t) =>
      KnownInv(s, m, t);
      if Owns(s, m, t) { ReleaseKeeps(s, m, t); }
    case OpTimeout(m, t) => TimeoutKeeps(s, m, t);
  }

  ghost predicate LegalRun(s: State, ops: seq<Op>)
    requires Inv(s)
    decreases |ops|
  {
    ops == [] || (Legal(s, ops[0]) && (StepKeeps(s, ops[0]); LegalRun(Step(s, ops[0]), ops[1..])))
  }

  ghost function Run(s: State, ops: seq<Op>): State
    requires Inv(s) && LegalRun(s, ops)
    decreases |ops|
  {
    if ops == [] then s else StepKeeps(s, ops[0]); Run(Step(s, ops[0]), ops[1..])
  }

  lemma {:induction false} RunKeeps(s: State, ops: seq<Op>)
    requires Inv(s) && LegalRun(s, ops)
    ensures Inv(Run(s, ops))
    decreases |ops|
  {
    if ops != [] {
      StepKeeps(s, ops[0]);
      RunKeeps(Step(s, ops[0]), ops[1..]);
    }
  }

  /** New mutexes, and tasks that wait for nothing and have their own priorities. */
  lemma InitialInv(s: State)
    requires forall m :: m in s.mutexes ==> s.mutexes[m] == Mutex(false, None, [])
    requires forall t :: t in s.tasks ==> s.tasks[t].waiting.None? && s.tasks[t].active_prio == s.tasks[t].real_prio
    ensures Inv(s)
  {
  }

  /** After any run a mutex is locked exactly if it has an owner, nobody waits for an unlocked one, and
      the owner's priority is the highest of its own and its waiters' - at least each waiter's, and its own
      again once nobody above it waits. */
  lemma OwnerInherits(s: State, ops: seq<Op>, m: nat)
    requires Inv(s) && LegalRun(s, ops) && m in Run(s, ops).mutexes
    ensures var r := Run(s, ops); var mx := r.mutexes[m];
            && (mx.lock <==> mx.owner.Some?)
            && (!mx.lock ==> forall t :: t in r.tasks ==> r.tasks[t].waiting != Some(m))
            && (mx.lock ==>
                  mx.owner.value in r.tasks
                  && var o := r.tasks[mx.owner.value];
                     && o.active_prio >= o.real_prio
                     && (forall t :: t in r.tasks && r.tasks[t].waiting == Some(m) ==>
                         r.tasks[t].active_prio <= o.active_prio)
                     && (o.active_prio > o.real_prio ==>
                           exists t :: t in r.tasks && r.tasks[t].waiting == Some(m)
                             && r.tasks[t].active_prio == o.active_prio))
  {
    RunKeeps(s, ops);
    var r := Run(s, ops);
    assert QueueOk(r, m) && OwnerOk(r, m);
    var q := r.mutexes[m].lockQueue;
    forall t | t in r.tasks && r.tasks[t].waiting == Some(m)
      ensures q != [] && r.tasks[t].active_prio <= q[0].prio
    {
      HoldsIn(q, t);
      var i :| 0 <= i < |q| && q[i].item == t;
      assert q[i] in q;
    }
    assert q != [] ==> q[0] in q;
  }

  /** MutexUnlock hands the mutex to a waiter of the highest priority, and wakes it alone. */
  lemma UnlockHandsOver(s: State, m: nat, t: nat)
    requires Inv(s) && Legal(s, OpUnlock(m, t)) && Owns(s, m, t)
    ensures var s' := Step(s, OpUnlock(m, t));
            if forall x :: x in s.tasks ==> s.tasks[x].waiting != Some(m) then !s'.mutexes[m].lock
            else
              && s'.mutexes[m].lock && s'.mutexes[m].owner.Some?
              && var o := s'.mutexes[m].owner.value;
                 && o in s.tasks && s.tasks[o].waiting == Some(m) && s'.tasks[o].waiting.None?
                 && (forall x :: x in s.tasks && s.tasks[x].waiting == Some(m) ==>
                     s.tasks[x].active_prio <= s.tasks[o].active_prio)
                 && forall x :: x in s.tasks && x != o ==> s'.tasks[x].waiting == s.tasks[x].waiting
    ensures Step(s, OpUnlock(m, t)).tasks[t].active_prio == s.tasks[t].real_prio
  {
    KnownInv(s, m, t);
    assert QueueOk(s, m) && OwnerOk(s, m);
    var q := s.mutexes[m].lockQueue;
    if q != [] { FirstWaits(s, m); }
    forall x | x in s.tasks && s.tasks[x].waiting == Some(m)
      ensures q != [] && s.tasks[x].active_prio <= q[0].prio
    {
      HoldsIn(q, x);
      var i :| 0 <= i < |q| && q[i].item == x;
      assert q[i] in q;
    }
  }
}
