/** The SMP scheduler of kernel/scheduler.c: its state and its operations as steps. */
module SchedState {
  import opened Utils
  import opened PrioQueue

  /** The priority of a cpu that has not started, above every task's. */
  const NO_PRIO: nat := 0xFFFF

  datatype TaskState = RUNNING | READY | BLOCKED | DEAD

  datatype Task = Task(state: TaskState, active_prio: nat)

  /** prio is the priority of the task at the time it was dispatched. */
  datatype Cpu = Cpu(prio: nat, task: Option<nat>)

  datatype State = State(cpus: seq<Cpu>, lprio: nat, lcpu: nat, tasks: map<nat, Task>, ready: seq<Queued<nat>>)

  // ----- The parts of the operations -----

  /** The loop of SchedSortLowPriority, from cpu k on. */
  function Lowest(cpus: seq<Cpu>, k: nat, lprio: nat, lcpu: nat): (nat, nat)
    decreases |cpus| - k
  {
    if k >= |cpus| then (lprio, lcpu)
    else if lprio > cpus[k].prio then Lowest(cpus, k + 1, cpus[k].prio, k)
    else Lowest(cpus, k + 1, lprio, lcpu)
  }

  /** SchedSortLowPriority on cpu c. */
  function SortLow(cpus: seq<Cpu>, lprio: nat, lcpu: nat, c: nat): (nat, nat) {
    Lowest(cpus, 0, if lcpu == c then NO_PRIO else lprio, lcpu)
  }

  function PendingPrio(s: State): nat {
    if s.ready == [] then 0 else s.ready[0].prio
  }

  /** SchedHoldTask. */
  function Hold(s: State, t: nat): State
    requires t in s.tasks
  {
    var task := s.tasks[t];
    if task.state == DEAD then s
    else s.(tasks := s.tasks[t := task.(state := READY)],
            ready := Insert(s.ready, Queued(t, task.active_prio, 0), ReadySort))
  }

  /** SchedGetNext2Run and all that puts the task on cpu c. */
  function Dispatch(s: State, c: nat): State
    requires s.ready != [] && s.ready[0].item in s.tasks && c < |s.cpus|
  {
    var t := s.ready[0].item;
    var cpus := s.cpus[c := Cpu(s.tasks[t].active_prio, Some(t))];
    var low := SortLow(cpus, s.lprio, s.lcpu, c);
    State(cpus, low.0, low.1, s.tasks[t := s.tasks[t].(state := RUNNING)], s.ready[1..])
  }

  function SetState(s: State, t: nat, state: TaskState): State
    requires t in s.tasks
  {
    s.(tasks := s.tasks[t := s.tasks[t].(state := state)])
  }

  /** The task that leaves its cpu: dead tasks stay dead. */
  function Stopped(s: State, t: nat, state: TaskState): State
    requires t in s.tasks
  {
    if s.tasks[t].state != DEAD then SetState(s, t, state) else s
  }

  /** The cpu runs a task that the state knows. */
  predicate Runs(s: State, c: nat) {
    c < |s.cpus| && s.cpus[c].task.Some? && s.cpus[c].task.value in s.tasks
  }

  predicate CanDispatch(s: State) {
    s.ready != [] && s.ready[0].item in s.tasks
  }

  // ----- The operations -----

  /** Schedule, the time slice or trigger interrupt, keeps a running task that outranks all ready ones. */
  predicate Keeps(s: State, c: nat)
    requires Runs(s, c)
  {
    s.tasks[s.cpus[c].task.value].state != DEAD && s.cpus[c].prio > PendingPrio(s)
  }

  function Held(s: State, c: nat): State
    requires Runs(s, c)
  {
    Hold(s, s.cpus[c].task.value)
  }

  /** SchedStopRunningTask. */
  function Stop(s: State, c: nat, state: TaskState): State
    requires Runs(s, c) && CanDispatch(s)
  {
    var t := s.cpus[c].task.value;
    var s' := Dispatch(Stopped(s, t, state), c);
    if s'.tasks[t].state == READY then Hold(s', t) else s'
  }

  // ----- Runs -----

  datatype Op =
    | OpCreate(task: nat, prio: nat)
    | OpStart(cpu: nat)
    | OpSchedule(cpu: nat)
    | OpBlock(cpu: nat)
    | OpYield(cpu: nat)
    | OpTerminate(cpu: nat)
    | OpKill(cpu: nat)
    | OpAdd(task: nat)
    | OpSetPrio(task: nat, prio: nat)

  /** Who may do what: idle tasks never block, yield, terminate or die; ready tasks keep their priority. */
  predicate Legal(s: State, idle: set<nat>, op: Op) {
    match op
    case OpCreate(t, prio) => t !in s.tasks && prio <= NO_PRIO
    case OpStart(c) => c < |s.cpus| && s.cpus[c].task.None?
    case OpSchedule(c) => Runs(s, c)
    case OpBlock(c) => Runs(s, c) && s.cpus[c].task.value !in idle
    case OpYield(c) => Runs(s, c) && s.cpus[c].task.value !in idle
    case OpTerminate(c) => Runs(s, c) && s.cpus[c].task.value !in idle
    case OpKill(c) => Runs(s, c) && s.cpus[c].task.value !in idle
    case OpAdd(t) => t in s.tasks && s.tasks[t].state in {BLOCKED, DEAD}
    case OpSetPrio(t, prio) => t in s.tasks && s.tasks[t].state in {BLOCKED, RUNNING} && prio <= NO_PRIO
  }

  /** The ready list that a legal operation takes a task from. */
  function Offering(s: State, op: Op): State {
    match op
    case OpSchedule(c) => if Runs(s, c) then Held(s, c) else s
    case OpBlock(c) => if Runs(s, c) then Stopped(s, s.cpus[c].task.value, BLOCKED) else s
    case OpYield(c) => if Runs(s, c) then Stopped(s, s.cpus[c].task.value, READY) else s
    case OpTerminate(c) => if Runs(s, c) then SetState(s, s.cpus[c].task.value, DEAD) else s
    case _ => s
  }

  /** Whether the operation puts another task on a cpu. */
  predicate Dispatches(s: State, op: Op) {
    match op
    case OpStart(c) => c < |s.cpus|
    case OpSchedule(c) => Runs(s, c) && !Keeps(s, c)
    case OpBlock(c) => Runs(s, c)
    case OpYield(c) => Runs(s, c) && s.cpus[c].prio <= PendingPrio(s)
    case OpTerminate(c) => Runs(s, c)
    case _ => false
  }

  function Step(s: State, op: Op): State
    requires Dispatches(s, op) ==> CanDispatch(Offering(s, op))
  {
    match op
    case OpCreate(t, prio) => s.(tasks := s.tasks[t := Task(BLOCKED, prio)])
    case OpStart(c) => if c < |s.cpus| then Dispatch(s, c) else s
    case OpSchedule(c) => if Dispatches(s, op) then Dispatch(Held(s, c), c) else s
    case OpBlock(c) => if Runs(s, c) then Stop(s, c, BLOCKED) else s
    case OpYield(c) => if Dispatches(s, op) then Stop(s, c, READY) else s
    case OpTerminate(c) => if Runs(s, c) then Dispatch(SetState(s, s.cpus[c].task.value, DEAD), c) else s
    case OpKill(c) => if Runs(s, c) then SetState(s, s.cpus[c].task.value, DEAD) else s
    case OpAdd(t) => if t in s.tasks then Hold(s, t) else s
    case OpSetPrio(t, prio) => if t in s.tasks then s.(tasks := s.tasks[t := s.tasks[t].(active_prio := prio)]) else s
  }

  // ----- The invariant -----

  predicate On(s: State, c: nat, t: nat) {
    c < |s.cpus| && s.cpus[c].task == Some(t)
  }

  /** Every task has one place: a running one is on one cpu, a ready one is in the list once, and no
      other is in either, but for dead tasks that their cpu has not let go of yet. */
  ghost predicate Placed(s: State) {
    && Unique(s.ready)
    && (forall t :: Holds(s.ready, t) <==> t in s.tasks && s.tasks[t].state == READY)
    && (forall c, t :: On(s, c, t) ==> t in s.tasks && s.tasks[t].state in {RUNNING, DEAD})
    && (forall c, d, t :: On(s, c, t) && On(s, d, t) ==> c == d)
    && forall t :: t in s.tasks && s.tasks[t].state == RUNNING ==> exists c :: On(s, c, t)
  }

  /** The ready list is sorted by the tasks' priorities. */
  ghost predicate Ranked(s: State) {
    && Descending(s.ready)
    && (forall w :: w in s.ready ==> w.item in s.tasks && s.tasks[w.item].active_prio == w.prio)
    && forall t :: t in s.tasks ==> s.tasks[t].active_prio <= NO_PRIO
  }

  /** lcpu is a cpu of least priority, and lprio is that priority. */
  ghost predicate LowKnown(s: State) {
    && s.lcpu < |s.cpus| && s.lprio == s.cpus[s.lcpu].prio
    && forall c :: 0 <= c < |s.cpus| ==> s.lprio <= s.cpus[c].prio <= NO_PRIO
  }

  /** There is an idle task for each cpu, and it is ready or running. */
  ghost predicate Idling(s: State, idle: set<nat>) {
    |idle| == |s.cpus| && forall t :: t in idle ==> t in s.tasks && s.tasks[t].state in {READY, RUNNING}
  }

  ghost predicate Inv(s: State, idle: set<nat>) {
    Placed(s) && Ranked(s) && LowKnown(s) && Idling(s, idle)
  }
}
