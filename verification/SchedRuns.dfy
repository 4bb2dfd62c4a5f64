/** Runs of the scheduler: what holds in every reachable state. */
module SchedRuns {
  import opened Utils
  import opened PrioQueue
  import opened SchedState
  import opened SchedSteps

  // ----- The initial state -----

  /** SchedulerInit: no cpu has started, no task exists. */
  function Blank(cpus: nat): State {
    State(seq(cpus, _ => Cpu(NO_PRIO, None)), NO_PRIO, 0, map[], [])
  }

  /** ProcManagerInit: the first n of the idle tasks were created and added; task n is the n-th. */
  function AddIdles(cpus: nat, n: nat): State {
    if n == 0 then Blank(cpus)
    else
      var s := AddIdles(cpus, n - 1);
      Hold(s.(tasks := s.tasks[n - 1 := Task(READY, 0)]), n - 1)
  }

  function Below(n: nat): (r: set<nat>)
    ensures |r| == n && forall t: nat :: t in r <==> t < n
  {
    if n == 0 then {} else Below(n - 1) + {n - 1}
  }

  /** The state after the first n idle tasks. */
  ghost predicate IdlesReady(s: State, cpus: nat, n: nat) {
    && Placed(s) && Ranked(s) && LowKnown(s) && |s.cpus| == cpus
    && (forall t: nat :: t in s.tasks <==> t < n) && (forall t :: t in s.tasks ==> s.tasks[t].state == READY)
  }

  lemma BlankReady(cpus: nat)
    requires cpus > 0
    ensures IdlesReady(Blank(cpus), cpus, 0)
  {
    assert forall c, t :: !On(Blank(cpus), c, t);
  }

  lemma {:induction false} AddIdlesReady(cpus: nat, n: nat)
    requires cpus > 0
    ensures IdlesReady(AddIdles(cpus, n), cpus, n)
  {
    hide Placed, Ranked, LowKnown, Hold, Insert, Blank;
    if n == 0 {
      BlankReady(cpus);
    } else {
      var s := AddIdles(cpus, n - 1);
      AddIdlesReady(cpus, n - 1);
      AddIdle(s, n - 1);
      assert AddIdles(cpus, n) == Hold(s.(tasks := s.tasks[n - 1 := Task(READY, 0)]), n - 1);
    }
  }

  /** The kernel starts with one idle task for each cpu in the ready list. */
  lemma InitialInv(cpus: nat)
    requires cpus > 0
    ensures Inv(AddIdles(cpus, cpus), Below(cpus))
  {
    hide AddIdles, Placed, Ranked, LowKnown;
    AddIdlesReady(cpus, cpus);
  }

  lemma AddIdle(s: State, t: nat)
    requires Placed(s) && Ranked(s) && LowKnown(s) && t !in s.tasks
    requires forall x :: x in s.tasks ==> s.tasks[x].state == READY
    ensures var s' := Hold(s.(tasks := s.tasks[t := Task(READY, 0)]), t);
            && Placed(s') && Ranked(s') && LowKnown(s') && |s'.cpus| == |s.cpus|
            && (forall x :: x in s'.tasks <==> x in s.tasks || x == t)
            && forall x :: x in s'.tasks ==> s'.tasks[x].state == READY
  {
    hide Insert;
    var b := s.(tasks := s.tasks[t := Task(BLOCKED, 0)]);
    CreateKeeps'(s, t);
    assert !Holds(b.ready, t);
    HoldPlaced(b, t);
    HoldRanked(b, t);
    HoldLow(b, t);
    assert Hold(b, t).tasks == Hold(s.(tasks := s.tasks[t := Task(READY, 0)]), t).tasks;
  }

  lemma CreateKeeps'(s: State, t: nat)
    requires Placed(s) && Ranked(s) && LowKnown(s) && t !in s.tasks
    ensures var b := s.(tasks := s.tasks[t := Task(BLOCKED, 0)]); Placed(b) && Ranked(b) && LowKnown(b)
  {
    var b := s.(tasks := s.tasks[t := Task(BLOCKED, 0)]);
    assert forall d, x :: On(b, d, x) <==> On(s, d, x);
  }

  // ----- Every run -----

  /** Every legal operation finds a task whenever it dispatches, and keeps the invariant. */
  lemma StepKeeps(s: State, idle: set<nat>, op: Op)
    requires Inv(s, idle) && Legal(s, idle, op)
    ensures Dispatches(s, op) ==> CanDispatch(Offering(s, op))
    ensures Inv(Step(s, op), idle)
  {
    hide SortLow, Insert, Placed, Ranked, LowKnown, Idling;
    match op
    case OpCreate(t, prio) => CreateKeeps(s, idle, t, prio);
    case OpStart(c) => StartKeeps(s, idle, c);
    case OpSchedule(c) => ScheduleKeeps(s, idle, c);
    case OpBlock(c) => BlockKeeps(s, idle, c);
    case OpYield(c) => YieldKeeps(s, idle, c);
    case OpTerminate(c) => TerminateKeeps(s, idle, c);
    case OpKill(c) => KillKeeps(s, idle, c);
    case OpAdd(t) => AddKeeps(s, idle, t);
    case OpSetPrio(t, prio) => SetPrioKeeps(s, idle, t, prio);
  }

  ghost predicate LegalRun(s: State, idle: set<nat>, ops: seq<Op>)
    requires Inv(s, idle)
    decreases |ops|
  {
    ops == [] || (Legal(s, idle, ops[0]) && (StepKeeps(s, idle, ops[0]); LegalRun(Step(s, ops[0]), idle, ops[1..])))
  }

  ghost function Run(s: State, idle: set<nat>, ops: seq<Op>): State
    requires Inv(s, idle) && LegalRun(s, idle, ops)
    decreases |ops|
  {
    if ops == [] then s else StepKeeps(s, idle, ops[0]); Run(Step(s, ops[0]), idle, ops[1..])
  }

  lemma {:induction false} RunKeeps(s: State, idle: set<nat>, ops: seq<Op>)
    requires Inv(s, idle) && LegalRun(s, idle, ops)
    ensures Inv(Run(s, idle, ops), idle)
    decreases |ops|
  {
    if ops != [] {
      StepKeeps(s, idle, ops[0]);
      RunKeeps(Step(s, ops[0]), idle, ops[1..]);
    }
  }

  /** After any run each living task is on exactly one cpu, or in the ready list exactly once, or blocked,
      and only one of these; and a cpu of least priority is known. */
  lemma OnePlace(s: State, idle: set<nat>, ops: seq<Op>, t: nat)
    requires Inv(s, idle) && LegalRun(s, idle, ops) && t in Run(s, idle, ops).tasks
    ensures var r := Run(s, idle, ops);
            match r.tasks[t].state
            case RUNNING => (exists c :: On(r, c, t)) && (forall c, d :: On(r, c, t) && On(r, d, t) ==> c == d)
              && !Holds(r.ready, t)
            case READY => Holds(r.ready, t) && Unique(r.ready) && forall c :: !On(r, c, t)
            case BLOCKED => !Holds(r.ready, t) && forall c :: !On(r, c, t)
            case DEAD => !Holds(r.ready, t)
    ensures LowKnown(Run(s, idle, ops))
  {
    RunKeeps(s, idle, ops);
  }

  // ----- Which task is dispatched -----

  /** A dispatch takes a task of the highest priority, and the cpu takes over that priority. */
  lemma DispatchTakesHighest(s: State, idle: set<nat>, op: Op)
    requires Inv(s, idle) && Legal(s, idle, op) && Dispatches(s, op)
    ensures CanDispatch(Offering(s, op))
    ensures op.OpStart? || op.OpSchedule? || op.OpBlock? || op.OpYield? || op.OpTerminate?
    ensures var b, s', c := Offering(s, op), Step(s, op), op.cpu;
            && c < |s.cpus| && s'.cpus[c].task.Some? && Holds(b.ready, s'.cpus[c].task.value)
            && (forall w :: w in b.ready ==> w.prio <= s'.cpus[c].prio)
            && forall d :: 0 <= d < |s.cpus| && d != c ==> s'.cpus[d] == s.cpus[d]
  {
    hide SortLow, Insert;
    StepKeeps(s, idle, op);
    var b := Offering(s, op);
    RankedBefore(s, idle, op);
    assert b.ready[0] in b.ready && Holds(b.ready, b.ready[0].item);
    if op.OpYield? {
      YieldIsBlockThenAdd(s, op.cpu);
    }
    if op.OpBlock? {
      BlockKeeps(s, idle, op.cpu);
    }
  }

  lemma RankedBefore(s: State, idle: set<nat>, op: Op)
    requires Inv(s, idle) && Legal(s, idle, op) && Dispatches(s, op)
    ensures Ranked(Offering(s, op))
  {
    hide SortLow, Insert, Placed, Ranked, LowKnown, Idling;
    if op.OpSchedule? {
      var t := s.cpus[op.cpu].task.value;
      OnRuns(s, op.cpu);
      NotFirst(s, op.cpu, t);
      HoldRanked(s, t);
    }
    if op.OpBlock? { SetStateRanked(s, s.cpus[op.cpu].task.value, BLOCKED); }
    if op.OpYield? { SetStateRanked(s, s.cpus[op.cpu].task.value, READY); }
    if op.OpTerminate? { SetStateRanked(s, s.cpus[op.cpu].task.value, DEAD); }
  }

  /** After Schedule on a cpu, no ready task outranks the cpu. */
  lemma ScheduleSettles(s: State, idle: set<nat>, c: nat)
    requires Inv(s, idle) && Legal(s, idle, OpSchedule(c))
    ensures (Dispatches(s, OpSchedule(c)) ==> CanDispatch(Offering(s, OpSchedule(c))))
            && var s' := Step(s, OpSchedule(c)); 
               c < |s'.cpus| && forall w :: w in s'.ready ==> w.prio <= s'.cpus[c].prio
  {
    hide SortLow, Insert;
    StepKeeps(s, idle, OpSchedule(c));
    if Dispatches(s, OpSchedule(c)) {
      DispatchTakesHighest(s, idle, OpSchedule(c));
      var h := Held(s, c);
      assert forall w :: w in h.ready[1..] ==> w in h.ready;
    }
  }

  /** SchedAddTask compares with lprio alone; that is the same as looking for a cpu of lower priority, and
      the one it triggers has the lowest. */
  lemma AddTriggersLowest(s: State, idle: set<nat>, t: nat)
    requires Inv(s, idle) && t in s.tasks
    ensures s.lcpu < |s.cpus|
    ensures s.tasks[t].active_prio > s.lprio <==>
              exists c :: 0 <= c < |s.cpus| && s.cpus[c].prio < s.tasks[t].active_prio
    ensures forall c :: 0 <= c < |s.cpus| ==> s.cpus[s.lcpu].prio <= s.cpus[c].prio
  {
    if s.tasks[t].active_prio > s.lprio {
      assert s.cpus[s.lcpu].prio < s.tasks[t].active_prio;
    }
  }

  /** Idle tasks must not yield: the dispatch of SchedYield finds an empty list exactly if the cpu has
      priority 0 and nothing is ready, and then its task is an idle one. */
  lemma YieldNeedsTask(s: State, idle: set<nat>, c: nat)
    requires Inv(s, idle) && Runs(s, c)
    ensures Dispatches(s, OpYield(c)) && s.ready == [] <==> s.cpus[c].prio == 0 && s.ready == []
    ensures Dispatches(s, OpYield(c)) && s.ready == [] ==> s.cpus[c].task.value in idle
  {
    if s.cpus[c].task.value !in idle {
      YieldKeeps(s, idle, c);
    }
  }

  lemma LoneIdle(one: nat)
    requires one == 1
    ensures AddIdles(one, one) == State([Cpu(NO_PRIO, None)], NO_PRIO, 0, map[0 := Task(READY, 0)], [Queued(0, 0, 0)])
  {
    var b := AddIdles(one, one - 1);
    assert b == Blank(one);
    assert b.cpus == [Cpu(NO_PRIO, None)];
  }

  /** And it can happen: one cpu with its idle task. */
  lemma IdleMayNotYield(one: nat)
    requires one == 1
    ensures var s := AddIdles(one, one);
            && CanDispatch(s)
            && var r := Step(s, OpStart(0));
               Inv(r, Below(one)) && Runs(r, 0) && Dispatches(r, OpYield(0)) && r.ready == []
  {
    hide AddIdles, Inv, SortLow;
    InitialInv(one);
    LoneIdle(one);
    StepKeeps(AddIdles(one, one), Below(one), OpStart(0));
  }
}
