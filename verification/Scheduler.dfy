/** The scheduler of kernel/scheduler.c. Each operation runs under the scheduler lock and is a step of
    SchedState; context switches are the moment that a cpu's task changes. */
module Scheduler {
  import opened Utils
  import opened PrioQueue
  import opened SchedState

  class Scheduler {
    const CPUS: array<Cpu>
    var lprio: nat
    var lcpu: nat
    var tasks: map<nat, Task>
    /** The ready list, as GlistInsert and GlistRemoveFirst make it. */
    var ready: seq<Queued<nat>>

    ghost function Abs(): State
      reads this, CPUS
    {
      State(CPUS[..], lprio, lcpu, tasks, ready)
    }

    /** SchedulerInit. */
    constructor (cpus: nat)
      ensures Abs() == State(seq(cpus, _ => Cpu(NO_PRIO, None)), NO_PRIO, 0, map[], []) && fresh(CPUS)
    {
      CPUS := new Cpu[cpus](_ => Cpu(NO_PRIO, None));
      lprio, lcpu, tasks, ready := NO_PRIO, 0, map[], [];
    }

    method SchedSortLowPriority(running: nat)
      modifies this`lprio, this`lcpu
      ensures (lprio, lcpu) == SortLow(CPUS[..], old(lprio), old(lcpu), running)
    {
      if lcpu == running {
        lprio := NO_PRIO;
      }
      var cpu := 0;
      while cpu < CPUS.Length
        invariant cpu <= CPUS.Length
        invariant Lowest(CPUS[..], cpu, lprio, lcpu) == SortLow(CPUS[..], old(lprio), old(lcpu), running)
      {
        if lprio > CPUS[cpu].prio {
          lprio := CPUS[cpu].prio;
          lcpu := cpu;
        }
        cpu := cpu + 1;
      }
    }

    method SchedPendingPrio() returns (prio: nat)
      ensures prio == PendingPrio(Abs())
    {
      prio := if ready != [] then ready[0].prio else 0;
    }

    method SchedGetNext2Run() returns (task: nat)
      requires ready != []
      modifies this`ready
      ensures task == old(ready)[0].item && ready == old(ready)[1..]
    {
      task := ready[0].item;
      ready := ready[1..];
    }

    method SchedHoldTask(task: nat)
      requires task in tasks
      modifies this`tasks, this`ready
      ensures Abs() == Hold(old(Abs()), task)
    {
      if tasks[task].state == DEAD { return; }
      tasks := tasks[task := tasks[task].(state := READY)];
      ready := Insert(ready, Queued(task, tasks[task].active_prio, 0), ReadySort);
    }

    /** Put the next task on the cpu; the lines that SchedulerStart, Schedule, SchedTerminateRunningTask and
        SchedStopRunningTask share. */
    method Resume(cpu: nat)
      requires CanDispatch(Abs()) && cpu < CPUS.Length
      modifies this, CPUS
      ensures Abs() == Dispatch(old(Abs()), cpu)
    {
      var task := SchedGetNext2Run();
      tasks := tasks[task := tasks[task].(state := RUNNING)];
      CPUS[cpu] := Cpu(tasks[task].active_prio, Some(task));
      SchedSortLowPriority(cpu);
    }

    method SchedulerStart(cpu: nat)
      requires cpu < CPUS.Length && CanDispatch(Abs())
      modifies this, CPUS
      ensures Abs() == Step(old(Abs()), OpStart(cpu))
    {
      Resume(cpu);
    }

    /** The scheduler interrupt. */
    method Schedule(cpu: nat)
      requires Runs(Abs(), cpu) && (Dispatches(Abs(), OpSchedule(cpu)) ==> CanDispatch(Held(Abs(), cpu)))
      modifies this, CPUS
      ensures Abs() == Step(old(Abs()), OpSchedule(cpu))
    {
      hide Insert, SortLow;
      var task := CPUS[cpu].task.value;
      if tasks[task].state != DEAD {
        var pending := SchedPendingPrio();
        if CPUS[cpu].prio > pending {
          // Running task still has highest priority
          return;
        }
        // Put running task on ready list
        SchedHoldTask(task);
      }
      // Put new task running
      Resume(cpu);
    }

    /** The terminated task's state is set dead by the caller in the source. */
    method SchedTerminateRunningTask(cpu: nat)
      requires Runs(Abs(), cpu) && CanDispatch(Abs())
      modifies this, CPUS
      ensures Abs() == Step(old(Abs()), OpTerminate(cpu))
    {
      hide Insert, SortLow;
      var task := CPUS[cpu].task.value;
      tasks := tasks[task := tasks[task].(state := DEAD)];
      Resume(cpu);
    }

    method SchedStopRunningTask(cpu: nat, state: TaskState)
      requires Runs(Abs(), cpu) && CanDispatch(Abs())
      modifies this, CPUS
      ensures Abs() == Stop(old(Abs()), cpu, state)
    {
      hide Insert, SortLow;
      var task := CPUS[cpu].task.value;
      if tasks[task].state != DEAD {
        tasks := tasks[task := tasks[task].(state := state)];
      }
      // Resume a new task
      Resume(cpu);
      // Before we unlock the scheduler do we have to put stopped task in ready queue
      if tasks[task].state == READY {
        SchedHoldTask(task);
      }
    }

    /** trigger is the cpu that is interrupted to schedule, if any. */
    method SchedAddTask(task: nat) returns (trigger: Option<nat>)
      requires task in tasks
      modifies this`tasks, this`ready
      ensures Abs() == Step(old(Abs()), OpAdd(task))
      ensures trigger == if tasks[task].active_prio > lprio then Some(lcpu) else None
    {
      // By default insert task in ready list
      SchedHoldTask(task);
      // We always check priority against the lowest priority running task
      trigger := if tasks[task].active_prio > lprio then Some(lcpu) else None;
    }

    method SchedYield(cpu: nat)
      requires Runs(Abs(), cpu) && (Dispatches(Abs(), OpYield(cpu)) ==> CanDispatch(Abs()))
      modifies this, CPUS
      ensures Abs() == Step(old(Abs()), OpYield(cpu))
    {
      hide Insert, SortLow;
      var pending := SchedPendingPrio();
      if CPUS[cpu].prio <= pending {
        SchedStopRunningTask(cpu, READY);
      }
    }
  }
}
