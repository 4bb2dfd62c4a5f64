/** What each operation of the scheduler does to the tasks it is about, and that it does nothing else. */
module SchedEffects {
  import opened Utils
  import opened PrioQueue
  import opened SchedState
  import opened SchedSteps
  import opened SchedRuns

  // ----- What can become of a task -----

  /** No task but a and b differs. */
  predicate OthersSame(s: State, s': State, a: nat, b: nat) {
    s'.tasks.Keys == s.tasks.Keys && forall x :: x in s.tasks && x != a && x != b ==> s'.tasks[x] == s.tasks[x]
  }

  predicate CpusSame(s: State, s': State) {
    s'.cpus == s.cpus && s'.lprio == s.lprio && s'.lcpu == s.lcpu
  }

  /** Task t became ready. */
  ghost predicate Readied(s: State, s': State, t: nat) {
    t in s.tasks && t in s'.tasks && s'.tasks[t] == s.tasks[t].(state := READY)
  }

  /** Cpu c runs task n, at its priority, and every other cpu what it ran before. */
  predicate Given(s: State, s': State, c: nat, n: nat) {
    && c < |s.cpus| && |s'.cpus| == |s.cpus| && n in s.tasks && n in s'.tasks
    && s'.tasks[n] == s.tasks[n].(state := RUNNING) && s'.cpus[c] == Cpu(s.tasks[n].active_prio, Some(n))
    && forall d :: 0 <= d < |s.cpus| && d != c ==> s'.cpus[d] == s.cpus[d]
  }

  /** Task t is on no cpu and not in the ready list, in the given state. */
  ghost predicate Away(s: State, s': State, t: nat, state: TaskState) {
    && t in s.tasks && t in s'.tasks && s'.tasks[t] == s.tasks[t].(state := state)
    && !Holds(s'.ready, t) && forall d :: !On(s', d, t)
  }

  /** Cpu c runs the first ready task, which has left the list; t is the one it ran before. */
  ghost predicate FirstRuns(s: State, s': State, c: nat, t: nat) {
    && s.ready != [] && s.ready[0].item != t
    && Given(s, s', c, s.ready[0].item) && OthersSame(s, s', t, s.ready[0].item)
  }

  // ----- The effects of the operations -----

  /** SchedAddTask makes a task ready, in the list once, and triggers nothing else by itself; a dead one is
      left alone. */
  lemma AddEffect(s: State, idle: set<nat>, t: nat)
    requires Inv(s, idle) && Legal(s, idle, OpAdd(t))
    ensures var s' := Step(s, OpAdd(t));
            && OthersSame(s, s', t, t) && CpusSame(s, s') && !Holds(s.ready, t)
            && if s.tasks[t].state == DEAD then s'.tasks == s.tasks && s'.ready == s.ready
               else Readied(s, s', t) && Joins(s.ready, s'.ready, t, s.tasks[t].active_prio)
  {
    if s.tasks[t].state != DEAD { ReadyJoins(s.ready, t, s.tasks[t].active_prio); }
    hide Insert, Joins;
  }

  /** Dispatching once the task t of the cpu was put aside. */
  lemma DispatchEffect(s: State, c: nat)
    requires CanDispatch(s) && c < |s.cpus|
    ensures var s', n := Dispatch(s, c), s.ready[0].item;
            Given(s, s', c, n) && OthersSame(s, s', n, n) && s'.ready == s.ready[1..]
  {
    hide SortLow;
  }

  lemma StartEffect(s: State, idle: set<nat>, c: nat)
    requires Inv(s, idle) && Legal(s, idle, OpStart(c))
    ensures CanDispatch(s)
            && var s', n := Step(s, OpStart(c)), s.ready[0].item;
               Given(s, s', c, n) && OthersSame(s, s', n, n) && s'.ready == s.ready[1..]
  {
    hide Inv, SortLow;
    StartKeeps(s, idle, c);
    DispatchEffect(s, c);
  }

  /** A task that blocks is BLOCKED, unless it died, and has no place; the first ready task gets the cpu. */
  lemma BlockEffect(s: State, idle: set<nat>, c: nat)
    requires Inv(s, idle) && Legal(s, idle, OpBlock(c))
    ensures CanDispatch(Offering(s, OpBlock(c)))
            && var s', t := Step(s, OpBlock(c)), s.cpus[c].task.value;
               && FirstRuns(s, s', c, t) && s'.ready == s.ready[1..]
               && Away(s, s', t, if s.tasks[t].state == DEAD then DEAD else BLOCKED)
  {
    hide SortLow, Placed, Ranked, LowKnown, Idling;
    var t := s.cpus[c].task.value;
    OnRuns(s, c);
    NotFirst(s, c, t);
    BlockKeeps(s, idle, c);
    DispatchEffect(Stopped(s, t, BLOCKED), c);
    LeftCpu(s, Step(s, OpBlock(c)), c, t);
  }

  /** A task that was on one cpu, which runs another now, has no place. */
  lemma LeftCpu(s: State, s': State, c: nat, t: nat)
    requires Placed(s) && On(s, c, t) && |s'.cpus| == |s.cpus| && s'.cpus[c].task != Some(t)
    requires forall d :: 0 <= d < |s.cpus| && d != c ==> s'.cpus[d] == s.cpus[d]
    requires s.ready != [] && s'.ready == s.ready[1..]
    ensures !Holds(s'.ready, t) && forall d :: !On(s', d, t)
  {
    NotFirst(s, c, t);
    RestKeeps(s.ready);
    forall d: nat
      ensures !On(s', d, t)
    {
      if On(s', d, t) && d != c { assert On(s, d, t); }
    }
  }

  /** A task that terminates is dead and has no place; the first ready task gets the cpu. */
  lemma TerminateEffect(s: State, idle: set<nat>, c: nat)
    requires Inv(s, idle) && Legal(s, idle, OpTerminate(c))
    ensures CanDispatch(Offering(s, OpTerminate(c)))
            && var s', t := Step(s, OpTerminate(c)), s.cpus[c].task.value;
               FirstRuns(s, s', c, t) && s'.ready == s.ready[1..] && Away(s, s', t, DEAD)
  {
    hide SortLow, Placed, Ranked, LowKnown, Idling;
    var t := s.cpus[c].task.value;
    OnRuns(s, c);
    NotFirst(s, c, t);
    TerminateKeeps(s, idle, c);
    DispatchEffect(SetState(s, t, DEAD), c);
    LeftCpu(s, Step(s, OpTerminate(c)), c, t);
  }

  /** A yield takes effect exactly if a ready task has at least the priority of the cpu. The task is ready
      again, behind its equals, the first ready one gets the cpu; a task that died is not held. */
  lemma YieldEffect(s: State, idle: set<nat>, c: nat)
    requires Inv(s, idle) && Legal(s, idle, OpYield(c))
    ensures CanDispatch(s) && CanDispatch(Offering(s, OpYield(c)))
    ensures var s', t := Step(s, OpYield(c)), s.cpus[c].task.value;
            if exists w :: w in s.ready && w.prio >= s.cpus[c].prio then
              && FirstRuns(s, s', c, t)
              && if s.tasks[t].state == DEAD then Away(s, s', t, DEAD) && s'.ready == s.ready[1..]
                 else Readied(s, s', t) && Joins(s.ready[1..], s'.ready, t, s.tasks[t].active_prio)
            else s' == s
  {
    hide SortLow, Insert, Placed, Ranked, LowKnown, Idling, PendingPrio, Joins, FirstRuns, Away, Readied;
    YieldKeeps(s, idle, c);
    PendingOutranks(s, s.cpus[c].prio);
    assert s.ready[0] in s.ready;
    if Dispatches(s, OpYield(c)) { YieldDispatches(s, idle, c); }
  }

  lemma YieldDispatches(s: State, idle: set<nat>, c: nat)
    requires Inv(s, idle) && Legal(s, idle, OpYield(c)) && CanDispatch(s)
    ensures var s', t := Stop(s, c, READY), s.cpus[c].task.value;
            && FirstRuns(s, s', c, t)
            && if s.tasks[t].state == DEAD then Away(s, s', t, DEAD) && s'.ready == s.ready[1..]
               else Readied(s, s', t) && Joins(s.ready[1..], s'.ready, t, s.tasks[t].active_prio)
  {
    hide SortLow, Insert, LowKnown, Idling, Joins;
    var t := s.cpus[c].task.value;
    OnRuns(s, c);
    NotFirst(s, c, t);
    YieldIsBlockThenAdd(s, c);
    if s.tasks[t].state == DEAD {
      DispatchEffect(s, c);
      LeftCpu(s, Stop(s, c, READY), c, t);
    } else {
      var b := Dispatch(SetState(s, t, BLOCKED), c);
      DispatchEffect(SetState(s, t, BLOCKED), c);
      RestKeeps(s.ready);
      ReadyJoins(b.ready, t, b.tasks[t].active_prio);
    }
  }

  /** The priority is not 0, and above that of every ready task. */
  ghost predicate Outranks(s: State, prio: nat) {
    prio > 0 && forall w :: w in s.ready ==> w.prio < prio
  }

  lemma PendingOutranks(s: State, prio: nat)
    requires Ranked(s)
    ensures prio > PendingPrio(s) <==> Outranks(s, prio)
  {
    assert s.ready != [] ==> s.ready[0] in s.ready;
  }

  /** The scheduler interrupt leaves a living task on its cpu exactly if the cpu outranks all ready tasks, and
      its priority is not 0. */
  lemma ScheduleKeepsTask(s: State, idle: set<nat>, c: nat)
    requires Inv(s, idle) && Legal(s, idle, OpSchedule(c)) && s.tasks[s.cpus[c].task.value].state != DEAD
    ensures CanDispatch(Held(s, c))
    ensures if Outranks(s, s.cpus[c].prio) then Step(s, OpSchedule(c)) == s
            else Dispatches(s, OpSchedule(c)) && Step(s, OpSchedule(c)) == Dispatch(Held(s, c), c)
  {
    hide SortLow, Insert, Placed, Ranked, LowKnown, Idling, Outranks, PendingPrio;
    ScheduleKeeps(s, idle, c);
    PendingOutranks(s, s.cpus[c].prio);
  }

  /** Otherwise it joins the ready list, whose first task gets the cpu. */
  lemma ScheduleEffect(s: State, idle: set<nat>, c: nat, h: State)
    requires Inv(s, idle) && Legal(s, idle, OpSchedule(c)) && s.tasks[s.cpus[c].task.value].state != DEAD
    requires Dispatches(s, OpSchedule(c)) && h == Held(s, c)
    ensures CanDispatch(h) && Joins(s.ready, h.ready, s.cpus[c].task.value, s.tasks[s.cpus[c].task.value].active_prio)
    ensures var s', t, n := Step(s, OpSchedule(c)), s.cpus[c].task.value, h.ready[0].item;
            && Given(s, s', c, n) && OthersSame(s, s', t, n) && s'.ready == h.ready[1..]
            && (n != t ==> Readied(s, s', t))
  {
    hide SortLow, Insert, LowKnown, Idling, Placed, Joins;
    ScheduleKeeps(s, idle, c);
    ReadyJoins(s.ready, s.cpus[c].task.value, s.tasks[s.cpus[c].task.value].active_prio);
    DispatchEffect(h, c);
  }

  lemma JoinsFirst(q: seq<Queued<nat>>, h: seq<Queued<nat>>, t: nat, prio: nat)
    requires Joins(q, h, t, prio) && !Holds(q, t) && h != []
    ensures h[0].item != t <==> exists w :: w in q && (w.prio > prio || (w.prio == prio && prio > 1))
  {
    var i :| 0 <= i <= |q| && JoinsAt(q, h, t, prio, i);
    assert i > 0 ==> q[0] in q && h[0] == q[0];
  }

  /** Another task gets the cpu exactly if a ready one has a higher priority, or the same if that is above 1:
      tasks of priority 1 do not take turns. */
  lemma ScheduleTakesTurns(s: State, idle: set<nat>, c: nat)
    requires Inv(s, idle) && Legal(s, idle, OpSchedule(c)) && s.tasks[s.cpus[c].task.value].state != DEAD
    requires Dispatches(s, OpSchedule(c))
    ensures CanDispatch(Held(s, c))
    ensures var s', t := Step(s, OpSchedule(c)), s.cpus[c].task.value; var prio := s.tasks[t].active_prio;
            !On(s', c, t) <==> exists w :: w in s.ready && (w.prio > prio || (w.prio == prio && prio > 1))
  {
    hide SortLow, Insert, Placed, Ranked, LowKnown, Idling, Joins;
    var h, t := Held(s, c), s.cpus[c].task.value;
    ScheduleEffect(s, idle, c, h);
    OnRuns(s, c);
    NotFirst(s, c, t);
    JoinsFirst(s.ready, h.ready, t, s.tasks[t].active_prio);
  }

  /** A dead task leaves its cpu at the next scheduler interrupt. */
  lemma ScheduleDeadEffect(s: State, idle: set<nat>, c: nat)
    requires Inv(s, idle) && Legal(s, idle, OpSchedule(c)) && s.tasks[s.cpus[c].task.value].state == DEAD
    ensures Dispatches(s, OpSchedule(c)) && CanDispatch(s)
            && var s', t := Step(s, OpSchedule(c)), s.cpus[c].task.value;
               FirstRuns(s, s', c, t) && s'.ready == s.ready[1..] && Away(s, s', t, DEAD)
  {
    hide SortLow, Placed, Ranked, LowKnown, Idling;
    var t := s.cpus[c].task.value;
    OnRuns(s, c);
    NotFirst(s, c, t);
    ScheduleKeeps(s, idle, c);
    DispatchEffect(s, c);
    LeftCpu(s, Step(s, OpSchedule(c)), c, t);
  }

  /** A killed task keeps its cpu until that cpu's next interrupt, and is gone after it; nothing else changes
      at first. */
  lemma KillEffect(s: State, idle: set<nat>, c: nat)
    requires Inv(s, idle) && Legal(s, idle, OpKill(c))
    ensures var s1, t := Step(s, OpKill(c)), s.cpus[c].task.value;
            && OthersSame(s, s1, t, t) && CpusSame(s, s1) && s1.ready == s.ready && Inv(s1, idle)
            && Dispatches(s1, OpSchedule(c)) && CanDispatch(s1)
            && var s2 := Step(s1, OpSchedule(c));
               FirstRuns(s1, s2, c, t) && s2.ready == s.ready[1..] && Away(s, s2, t, DEAD)
  {
    hide SortLow, Placed, Ranked, LowKnown, Idling;
    StepKeeps(s, idle, OpKill(c));
    ScheduleDeadEffect(Step(s, OpKill(c)), idle, c);
  }

  /** A new task is blocked at its priority, and in no list; a priority changes alone. */
  lemma CreateEffect(s: State, idle: set<nat>, op: Op)
    requires Inv(s, idle) && Legal(s, idle, op) && (op.OpCreate? || op.OpSetPrio?)
    ensures var s', t := Step(s, op), op.task;
            && CpusSame(s, s') && s'.ready == s.ready && s'.tasks.Keys == s.tasks.Keys + {t}
            && (forall x :: x in s.tasks && x != t ==> s'.tasks[x] == s.tasks[x])
            && s'.tasks[t].active_prio == op.prio && !Holds(s'.ready, t)
            && s'.tasks[t].state == if t in s.tasks then s.tasks[t].state else BLOCKED
  {
    assert !Holds(s.ready, op.task);
  }

  // ----- The dead stay dead -----

  /** Task t is dead and has no place. */
  ghost predicate Gone(s: State, t: nat) {
    t in s.tasks && s.tasks[t].state == DEAD && !Holds(s.ready, t) && forall c :: !On(s, c, t)
  }

  lemma DispatchGone(s: State, c: nat, t: nat)
    requires CanDispatch(s) && c < |s.cpus| && Gone(s, t)
    ensures Gone(Dispatch(s, c), t)
  {
    hide SortLow;
    var s', q := Dispatch(s, c), s.ready;
    assert q[0].item != t;
    forall i | 0 <= i < |q| - 1
      ensures q[1..][i].item != t
    {
      assert q[i + 1].item != t;
    }
    forall d: nat
      ensures !On(s', d, t)
    {
      assert !On(s, d, t);
    }
  }

  lemma HoldGone(s: State, x: nat, t: nat)
    requires x in s.tasks && Gone(s, t)
    ensures Gone(Hold(s, x), t)
  {
    hide Insert;
    if s.tasks[x].state != DEAD { InsertHolds(s.ready, Queued(x, s.tasks[x].active_prio, 0), ReadySort); }
    assert forall c :: On(Hold(s, x), c, t) ==> On(s, c, t);
  }

  lemma ChangeGone(s: State, x: nat, task: Task, t: nat)
    requires Gone(s, t) && x != t
    ensures Gone(s.(tasks := s.tasks[x := task]), t)
  {
    var s' := s.(tasks := s.tasks[x := task]);
    forall c: nat
      ensures !On(s', c, t)
    {
      assert !On(s, c, t);
    }
  }

  lemma StoppedGone(s: State, x: nat, state: TaskState, t: nat)
    requires x in s.tasks && Gone(s, t) && x != t
    ensures Gone(SetState(s, x, state), t) && Gone(Stopped(s, x, state), t)
  {
    ChangeGone(s, x, s.tasks[x].(state := state), t);
  }

  lemma GoneMeans(s: State, t: nat)
    requires Gone(s, t)
    ensures t in s.tasks && s.tasks[t].state == DEAD && !Holds(s.ready, t)
    ensures forall c: nat :: c < |s.cpus| ==> s.cpus[c].task != Some(t)
  {
    forall c: nat | c < |s.cpus|
      ensures s.cpus[c].task != Some(t)
    {
      assert !On(s, c, t);
    }
  }

  lemma StopGone(s: State, c: nat, state: TaskState, t: nat)
    requires Runs(s, c) && CanDispatch(s) && CanDispatch(Stopped(s, s.cpus[c].task.value, state)) && Gone(s, t)
    ensures Gone(Stop(s, c, state), t)
  {
    hide SortLow, Hold, Gone;
    GoneMeans(s, t);
    var x := s.cpus[c].task.value;
    assert On(s, c, x);
    StoppedGone(s, x, state, t);
    var s' := Dispatch(Stopped(s, x, state), c);
    DispatchGone(Stopped(s, x, state), c, t);
    if s'.tasks[x].state == READY { HoldGone(s', x, t); }
  }

  lemma StepGone(s: State, idle: set<nat>, op: Op, t: nat)
    requires Inv(s, idle) && Legal(s, idle, op) && Gone(s, t)
    ensures (Dispatches(s, op) ==> CanDispatch(Offering(s, op))) && Gone(Step(s, op), t)
  {
    hide SortLow, Insert, Inv, Dispatch, Stop, Gone;
    StepKeeps(s, idle, op);
    GoneMeans(s, t);
    match op
    case OpCreate(x, prio) => ChangeGone(s, x, Task(BLOCKED, prio), t);
    case OpStart(c) => DispatchGone(s, c, t);
    case OpSchedule(c) =>
      HoldGone(s, s.cpus[c].task.value, t);
      if Dispatches(s, op) { DispatchGone(Held(s, c), c, t); }
    case OpBlock(c) => StopGone(s, c, BLOCKED, t);
    case OpYield(c) => if Dispatches(s, op) { StopGone(s, c, READY, t); }
    case OpTerminate(c) =>
      StoppedGone(s, s.cpus[c].task.value, DEAD, t);
      DispatchGone(SetState(s, s.cpus[c].task.value, DEAD), c, t);
    case OpKill(c) => StoppedGone(s, s.cpus[c].task.value, DEAD, t);
    case OpAdd(x) => HoldGone(s, x, t);
    case OpSetPrio(x, prio) => ChangeGone(s, x, s.tasks[x].(active_prio := prio), t);
  }

  /** A task that died and left its cpu never runs again, whatever is done, SchedAddTask included. */
  lemma {:induction false} RunGone(s: State, idle: set<nat>, ops: seq<Op>, t: nat)
    requires Inv(s, idle) && LegalRun(s, idle, ops) && Gone(s, t)
    ensures Gone(Run(s, idle, ops), t)
    decreases |ops|
  {
    if ops != [] {
      StepKeeps(s, idle, ops[0]);
      StepGone(s, idle, ops[0], t);
      RunGone(Step(s, ops[0]), idle, ops[1..], t);
    }
  }
}
