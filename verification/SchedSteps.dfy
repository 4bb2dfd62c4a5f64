/** Every step of the scheduler keeps its invariant, and no dispatch finds an empty ready list. */
module SchedSteps {
  import opened Utils
  import opened PrioQueue
  import opened SchedState

  // ----- The cpu of least priority -----

  lemma {:induction false} LowestIs(cpus: seq<Cpu>, k: nat, lprio: nat, lcpu: nat)
    ensures var r := Lowest(cpus, k, lprio, lcpu);
            && r.0 <= lprio && (forall j :: k <= j < |cpus| ==> r.0 <= cpus[j].prio)
            && (r == (lprio, lcpu) || (k <= r.1 < |cpus| && r.0 == cpus[r.1].prio))
    decreases |cpus| - k
  {
    if k < |cpus| {
      if lprio > cpus[k].prio {
        LowestIs(cpus, k + 1, cpus[k].prio, k);
      } else {
        LowestIs(cpus, k + 1, lprio, lcpu);
      }
    }
  }

  /** After cpu c got another priority, SchedSortLowPriority finds a cpu of least priority. */
  lemma SortLowKeeps(s: State, c: nat, cpu: Cpu)
    requires LowKnown(s) && c < |s.cpus| && cpu.prio <= NO_PRIO
    ensures var cpus := s.cpus[c := cpu]; var low := SortLow(cpus, s.lprio, s.lcpu, c);
            low.1 < |cpus| && low.0 == cpus[low.1].prio && forall d :: 0 <= d < |cpus| ==> low.0 <= cpus[d].prio
  {
    var cpus := s.cpus[c := cpu];
    LowestIs(cpus, 0, if s.lcpu == c then NO_PRIO else s.lprio, s.lcpu);
    assert cpus[s.lcpu].prio == if s.lcpu == c then cpu.prio else s.lprio;
  }

  lemma DispatchLow(s: State, c: nat)
    requires LowKnown(s) && Ranked(s) && CanDispatch(s) && c < |s.cpus|
    ensures LowKnown(Dispatch(s, c))
  {
    hide SortLow, Ranked;
    var t := s.ready[0].item;
    assert s.tasks[t].active_prio <= NO_PRIO by { PrioBound(s, t); }
    SortLowKeeps(s, c, Cpu(s.tasks[t].active_prio, Some(t)));
  }

  lemma PrioBound(s: State, t: nat)
    requires Ranked(s) && t in s.tasks
    ensures s.tasks[t].active_prio <= NO_PRIO
  {
  }

  // ----- The ready list -----

  lemma HoldRanked(s: State, t: nat)
    requires Ranked(s) && t in s.tasks && !Holds(s.ready, t)
    ensures Ranked(Hold(s, t))
  {
    if s.tasks[t].state != DEAD {
      var x := Queued(t, s.tasks[t].active_prio, 0);
      ReadyInsertDescending(s.ready, x);
      InsertElements(s.ready, x, ReadySort);
      forall w | w in s.ready
        ensures w.item != t
      {
        HoldsIn(s.ready, t);
      }
    }
  }

  lemma RestRanked(s: State, c: nat)
    requires Ranked(s) && CanDispatch(s) && c < |s.cpus|
    ensures Ranked(Dispatch(s, c))
  {
    hide SortLow;
    var q := s.ready;
    assert forall w :: w in q[1..] ==> w in q;
    assert forall i, j :: 0 <= i < j < |q| - 1 ==> q[1..][i].prio == q[i + 1].prio && q[1..][j].prio == q[j + 1].prio;
  }

  lemma SetStateRanked(s: State, t: nat, state: TaskState)
    requires Ranked(s) && t in s.tasks
    ensures Ranked(SetState(s, t, state))
  {
  }

  // ----- Places -----

  /** Places once cpu c has let go of its task. */
  ghost predicate PlacedAway(s: State, c: nat) {
    && Unique(s.ready)
    && (forall t :: Holds(s.ready, t) <==> t in s.tasks && s.tasks[t].state == READY)
    && (forall d, t :: On(s, d, t) && d != c ==> t in s.tasks && s.tasks[t].state in {RUNNING, DEAD})
    && (forall d, e, t :: On(s, d, t) && On(s, e, t) && d != c && e != c ==> d == e)
    && forall t :: t in s.tasks && s.tasks[t].state == RUNNING ==> exists d :: d != c && On(s, d, t)
  }

  lemma AwayFrom(s: State, c: nat, t: nat, state: TaskState)
    requires Placed(s) && On(s, c, t) && state in {BLOCKED, DEAD}
    ensures PlacedAway(SetState(s, t, state), c)
  {
    var s' := SetState(s, t, state);
    assert forall d, x :: On(s', d, x) <==> On(s, d, x);
    forall x | x in s'.tasks && s'.tasks[x].state == RUNNING
      ensures exists d :: d != c && On(s', d, x)
    {
      var d :| On(s, d, x);
      assert On(s', d, x);
    }
  }

  lemma AwayDead(s: State, c: nat, t: nat)
    requires Placed(s) && On(s, c, t) && s.tasks[t].state == DEAD
    ensures PlacedAway(s, c)
  {
    assert SetState(s, t, DEAD) == s;
    AwayFrom(s, c, t, DEAD);
  }

  lemma AwayUnstarted(s: State, c: nat)
    requires Placed(s) && c < |s.cpus| && s.cpus[c].task.None?
    ensures PlacedAway(s, c)
  {
    forall t | t in s.tasks && s.tasks[t].state == RUNNING
      ensures exists d :: d != c && On(s, d, t)
    {
      var d :| On(s, d, t);
    }
  }

  /** SchedHoldTask of a task that has no place. */
  lemma HoldPlacedAway(s: State, c: nat, t: nat)
    requires PlacedAway(s, c) && t in s.tasks && s.tasks[t].state == BLOCKED
    ensures PlacedAway(Hold(s, t), c)
  {
    var s', x := Hold(s, t), Queued(t, s.tasks[t].active_prio, 0);
    InsertHolds(s.ready, x, ReadySort);
    InsertUnique(s.ready, x, ReadySort);
    assert forall d, y :: On(s', d, y) <==> On(s, d, y);
    forall y | y in s'.tasks && s'.tasks[y].state == RUNNING
      ensures exists d :: d != c && On(s', d, y)
    {
      var d :| d != c && On(s, d, y);
      assert On(s', d, y);
    }
  }

  lemma HoldPlaced(s: State, t: nat)
    requires Placed(s) && t in s.tasks && s.tasks[t].state in {BLOCKED, DEAD}
    ensures Placed(Hold(s, t))
  {
    if s.tasks[t].state == BLOCKED {
      var s', x := Hold(s, t), Queued(t, s.tasks[t].active_prio, 0);
      InsertHolds(s.ready, x, ReadySort);
      InsertUnique(s.ready, x, ReadySort);
      assert forall d, y :: On(s', d, y) <==> On(s, d, y);
    }
  }

  lemma DispatchPlaced(s: State, c: nat)
    requires PlacedAway(s, c) && c < |s.cpus| && s.ready != []
    ensures CanDispatch(s) && Placed(Dispatch(s, c))
  {
    hide SortLow;
    RestKeeps(s.ready);
    var t, s' := s.ready[0].item, Dispatch(s, c);
    assert s.tasks[t].state == READY;
    assert forall d, x :: On(s', d, x) <==> if d == c then x == t else On(s, d, x);
    forall x | x in s'.tasks && s'.tasks[x].state == RUNNING
      ensures exists d :: On(s', d, x)
    {
      if x == t {
        assert On(s', c, x);
      } else {
        var d :| d != c && On(s, d, x);
        assert On(s', d, x);
      }
    }
  }

  // ----- No dispatch finds an empty list -----

  /** The tasks on the first n cpus, but for cpu c. */
  ghost function TasksOn(cpus: seq<Cpu>, n: nat, c: nat): (r: set<nat>)
    requires n <= |cpus|
    ensures |r| <= n && (c < n ==> |r| < n)
  {
    if n == 0 then {}
    else
      var rest := TasksOn(cpus, n - 1, c);
      if n - 1 == c || cpus[n - 1].task.None? then rest else rest + {cpus[n - 1].task.value}
  }

  lemma {:induction false} TasksOnHas(cpus: seq<Cpu>, n: nat, c: nat, d: nat)
    requires d < n <= |cpus| && d != c && cpus[d].task.Some?
    ensures cpus[d].task.value in TasksOn(cpus, n, c)
  {
    if d < n - 1 { TasksOnHas(cpus, n - 1, c, d); }
  }

  lemma Subset(a: set<nat>, b: set<nat>)
    requires forall x :: x in a ==> x in b
    ensures |a| <= |b|
  {
    assert a + b == b && |a + b| == |a| + |b - a|;
  }

  /** With one idle task for each cpu, none of them blocked, a cpu that lets go of its task finds one. */
  lemma PendingTask(s: State, idle: set<nat>, c: nat)
    requires PlacedAway(s, c) && Idling(s, idle) && c < |s.cpus|
    ensures s.ready != []
  {
    if s.ready == [] {
      var others := TasksOn(s.cpus, |s.cpus|, c);
      forall t | t in idle
        ensures t in others
      {
        assert !Holds(s.ready, t);
        var d :| d != c && On(s, d, t);
        TasksOnHas(s.cpus, |s.cpus|, c, d);
      }
      Subset(idle, others);
    }
  }

  // ----- The operations -----

  lemma StoppedIdling(s: State, idle: set<nat>, t: nat, state: TaskState)
    requires Idling(s, idle) && t in s.tasks && (t !in idle || state in {READY, RUNNING})
    ensures Idling(SetState(s, t, state), idle)
  {
  }

  lemma DispatchIdling(s: State, idle: set<nat>, c: nat)
    requires Idling(s, idle) && CanDispatch(s) && c < |s.cpus|
    ensures Idling(Dispatch(s, c), idle)
  {
    hide SortLow;
  }

  lemma HoldIdling(s: State, idle: set<nat>, t: nat)
    requires Idling(s, idle) && t in s.tasks
    ensures Idling(Hold(s, t), idle)
  {
  }

  /** A cpu that let go of its task gets another. */
  lemma DispatchKeeps(s: State, idle: set<nat>, c: nat)
    requires PlacedAway(s, c) && Ranked(s) && LowKnown(s) && Idling(s, idle) && c < |s.cpus|
    ensures CanDispatch(s) && Inv(Dispatch(s, c), idle)
  {
    PendingTask(s, idle, c);
    DispatchPlaced(s, c);
    RestRanked(s, c);
    DispatchLow(s, c);
    DispatchIdling(s, idle, c);
  }

  /** A running task that is held or blocked is not the one dispatched. */
  lemma NotFirst(s: State, c: nat, t: nat)
    requires Placed(s) && On(s, c, t)
    ensures t in s.tasks && !Holds(s.ready, t) && (s.ready != [] ==> s.ready[0].item != t)
  {
    assert s.ready != [] ==> Holds(s.ready, s.ready[0].item);
  }

  lemma BlockKeeps(s: State, idle: set<nat>, c: nat)
    requires Inv(s, idle) && Runs(s, c) && s.cpus[c].task.value !in idle
    ensures var t := s.cpus[c].task.value; var away := Stopped(s, t, BLOCKED);
            && CanDispatch(away) && Inv(Dispatch(away, c), idle) && Stop(s, c, BLOCKED) == Dispatch(away, c)
  {
    hide SortLow, Placed, PlacedAway, Ranked, LowKnown, Idling;
    var t := s.cpus[c].task.value;
    OnRuns(s, c);
    NotFirst(s, c, t);
    var away := Stopped(s, t, BLOCKED);
    if s.tasks[t].state == DEAD {
      AwayDead(s, c, t);
    } else {
      AwayFrom(s, c, t, BLOCKED);
      SetStateRanked(s, t, BLOCKED);
      SetStateLow(s, t, BLOCKED);
      StoppedIdling(s, idle, t, BLOCKED);
    }
    DispatchKeeps(away, idle, c);
  }

  lemma OnRuns(s: State, c: nat)
    requires Placed(s) && Runs(s, c)
    ensures On(s, c, s.cpus[c].task.value) && s.tasks[s.cpus[c].task.value].state in {RUNNING, DEAD}
  {
    assert On(s, c, s.cpus[c].task.value);
  }

  lemma SetStateLow(s: State, t: nat, state: TaskState)
    requires LowKnown(s) && t in s.tasks
    ensures LowKnown(SetState(s, t, state))
  {
  }

  lemma HoldLow(s: State, t: nat)
    requires LowKnown(s) && t in s.tasks
    ensures LowKnown(Hold(s, t))
  {
  }

  /** Yielding is blocking and being added again. */
  lemma YieldIsBlockThenAdd(s: State, c: nat)
    requires Placed(s) && Runs(s, c) && s.ready != [] && s.ready[0].item in s.tasks
    ensures var t := s.cpus[c].task.value;
            s.tasks[t].state != DEAD ==> Stop(s, c, READY) == Hold(Dispatch(SetState(s, t, BLOCKED), c), t)
    ensures s.tasks[s.cpus[c].task.value].state == DEAD ==> Stop(s, c, READY) == Dispatch(s, c)
  {
    hide SortLow, Placed, Insert;
    var t := s.cpus[c].task.value;
    OnRuns(s, c);
    NotFirst(s, c, t);
    if s.tasks[t].state != DEAD {
      var a, b := Dispatch(SetState(s, t, READY), c), Dispatch(SetState(s, t, BLOCKED), c);
      assert a.tasks[t := a.tasks[t].(state := READY)] == b.tasks[t := b.tasks[t].(state := READY)];
    }
  }

  lemma YieldKeeps(s: State, idle: set<nat>, c: nat)
    requires Inv(s, idle) && Runs(s, c) && s.cpus[c].task.value !in idle
    ensures CanDispatch(s) && Inv(Stop(s, c, READY), idle)
  {
    hide SortLow, Placed, PlacedAway, Ranked, LowKnown, Idling, Insert;
    var t := s.cpus[c].task.value;
    OnRuns(s, c);
    NotFirst(s, c, t);
    BlockKeeps(s, idle, c);
    YieldIsBlockThenAdd(s, c);
    if s.tasks[t].state != DEAD {
      var s' := Dispatch(SetState(s, t, BLOCKED), c);
      assert s'.tasks[t].state == BLOCKED;
      AddKeeps(s', idle, t);
    }
  }

  /** SchedAddTask of a blocked task. */
  lemma AddKeeps(s: State, idle: set<nat>, t: nat)
    requires Inv(s, idle) && t in s.tasks && s.tasks[t].state in {BLOCKED, DEAD}
    ensures Inv(Hold(s, t), idle)
  {
    hide Ranked, LowKnown, Idling;
    assert !Holds(s.ready, t);
    HoldPlaced(s, t);
    HoldRanked(s, t);
    HoldLow(s, t);
    HoldIdling(s, idle, t);
  }

  lemma TerminateKeeps(s: State, idle: set<nat>, c: nat)
    requires Inv(s, idle) && Runs(s, c) && s.cpus[c].task.value !in idle
    ensures var away := SetState(s, s.cpus[c].task.value, DEAD); CanDispatch(away) && Inv(Dispatch(away, c), idle)
  {
    hide SortLow, Placed, PlacedAway, Ranked, LowKnown, Idling;
    var t := s.cpus[c].task.value;
    OnRuns(s, c);
    AwayFrom(s, c, t, DEAD);
    SetStateRanked(s, t, DEAD);
    SetStateLow(s, t, DEAD);
    StoppedIdling(s, idle, t, DEAD);
    DispatchKeeps(SetState(s, t, DEAD), idle, c);
  }

  lemma StartKeeps(s: State, idle: set<nat>, c: nat)
    requires Inv(s, idle) && c < |s.cpus| && s.cpus[c].task.None?
    ensures CanDispatch(s) && Inv(Dispatch(s, c), idle)
  {
    AwayUnstarted(s, c);
    DispatchKeeps(s, idle, c);
  }

  /** Putting the running task on the ready list is like adding it after it blocked. */
  lemma HeldAway(s: State, c: nat, t: nat)
    requires Placed(s) && Ranked(s) && On(s, c, t) && t in s.tasks && s.tasks[t].state != DEAD
    ensures PlacedAway(Hold(s, t), c) && Ranked(Hold(s, t))
  {
    hide Placed, PlacedAway, Insert;
    NotFirst(s, c, t);
    var b := SetState(s, t, BLOCKED);
    AwayFrom(s, c, t, BLOCKED);
    HoldPlacedAway(b, c, t);
    assert Hold(b, t).tasks == Hold(s, t).tasks;
    assert Hold(b, t) == Hold(s, t);
    HoldRanked(s, t);
  }

  lemma ScheduleKeeps(s: State, idle: set<nat>, c: nat)
    requires Inv(s, idle) && Runs(s, c)
    ensures CanDispatch(Held(s, c)) && Inv(Dispatch(Held(s, c), c), idle)
  {
    hide Placed, PlacedAway, Ranked, LowKnown, Idling, Insert, SortLow;
    var t := s.cpus[c].task.value;
    OnRuns(s, c);
    if s.tasks[t].state == DEAD {
      AwayDead(s, c, t);
    } else {
      HeldAway(s, c, t);
      HoldLow(s, t);
      HoldIdling(s, idle, t);
    }
    DispatchKeeps(Held(s, c), idle, c);
  }

  lemma KillKeeps(s: State, idle: set<nat>, c: nat)
    requires Inv(s, idle) && Runs(s, c) && s.cpus[c].task.value !in idle
    ensures Inv(SetState(s, s.cpus[c].task.value, DEAD), idle)
  {
    hide Ranked, LowKnown, Idling;
    var t := s.cpus[c].task.value;
    OnRuns(s, c);
    var s' := SetState(s, t, DEAD);
    assert forall d, x :: On(s', d, x) <==> On(s, d, x);
    SetStateRanked(s, t, DEAD);
    SetStateLow(s, t, DEAD);
    StoppedIdling(s, idle, t, DEAD);
  }

  lemma CreateKeeps(s: State, idle: set<nat>, t: nat, prio: nat)
    requires Inv(s, idle) && t !in s.tasks && prio <= NO_PRIO
    ensures Inv(s.(tasks := s.tasks[t := Task(BLOCKED, prio)]), idle)
  {
    var s' := s.(tasks := s.tasks[t := Task(BLOCKED, prio)]);
    assert forall d, x :: On(s', d, x) <==> On(s, d, x);
  }

  lemma SetPrioKeeps(s: State, idle: set<nat>, t: nat, prio: nat)
    requires Inv(s, idle) && t in s.tasks && s.tasks[t].state in {BLOCKED, RUNNING} && prio <= NO_PRIO
    ensures Inv(s.(tasks := s.tasks[t := s.tasks[t].(active_prio := prio)]), idle)
  {
    var s' := s.(tasks := s.tasks[t := s.tasks[t].(active_prio := prio)]);
    assert forall d, x :: On(s', d, x) <==> On(s, d, x);
    assert !Holds(s.ready, t);
    forall w | w in s.ready
      ensures w.item != t
    {
      HoldsIn(s.ready, t);
    }
  }
}
