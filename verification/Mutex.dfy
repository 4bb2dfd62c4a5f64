/** The calls of kernel/mutex.c. Each is one atomic step of MutexState, under the mutex's spinlock; a blocked
    call returns what its waker left. */
module Mutex {
  import opened Utils
  import opened PrioQueue
  import opened MutexState

  class Mutexes {
    var mutexes: map<nat, MutexState.Mutex>
    var tasks: map<nat, Task>

    ghost function Abs(): State
      reads this
    {
      State(mutexes, tasks)
    }

    constructor (tasks: map<nat, Task>)
      ensures Abs() == State(map[], tasks)
    {
      mutexes, this.tasks := map[], tasks;
    }

    method MutexCreate(m: nat)
      requires m !in mutexes
      modifies this`mutexes
      ensures mutexes == old(mutexes)[m := Mutex(false, None, [])]
    {
      mutexes := mutexes[m := Mutex(false, None, [])];
    }

    /** blocks: the caller is queued up and its call returns once it was woken. */
    method MutexLock(m: nat, task: nat) returns (ret: int, blocks: bool)
      requires Known(Abs(), m, task)
      modifies this
      ensures Abs() == Lock(old(Abs()), m, task)
      ensures ret == if old(mutexes)[m].owner == Some(task) then E_INVAL else E_OK
      ensures blocks <==> old(mutexes)[m].lock && old(mutexes)[m].owner != Some(task)
      ensures ret == E_OK && !blocks <==> !Owns(old(Abs()), m, task) && Owns(Abs(), m, task)
      ensures blocks ==> tasks[task].waiting == Some(m) && mutexes[m].owner == old(mutexes)[m].owner
    {
      hide Insert;
      var mx := mutexes[m];
      if mx.owner == Some(task) {
        return E_INVAL, false;
      }
      if mx.lock {
        mutexes := mutexes[m := mx.(lockQueue := Insert(mx.lockQueue, Queued(task, tasks[task].active_prio, 0),
                                                        ReadySort))];
        var owner := mx.owner.value;
        if tasks[owner].active_prio < tasks[task].active_prio {
          // Solve priority inversion
          tasks := tasks[owner := tasks[owner].(active_prio := tasks[task].active_prio)];
        }
        tasks := tasks[task := tasks[task].(waiting := Some(m), ret := E_OK)];
        assert tasks == Wait(old(Abs()), m, task).tasks;
        return E_OK, true;
      }
      mutexes := mutexes[m := mx.(lock := true, owner := Some(task))];
      return E_OK, false;
    }

    method MutexUnlock(m: nat, task: nat) returns (ret: int)
      requires Known(Abs(), m, task) && (mutexes[m].lockQueue != [] ==> mutexes[m].lockQueue[0].item in tasks)
      requires mutexes[m].lockQueue != [] ==> mutexes[m].lockQueue[0].item != task
      modifies this
      ensures Abs() == Unlock(old(Abs()), m, task)
      ensures ret == if Owns(old(Abs()), m, task) then E_OK else E_ERROR
      ensures !Owns(Abs(), m, task)
    {
      var mx := mutexes[m];
      if !mx.lock || mx.owner != Some(task) {
        return E_ERROR;
      }
      if mx.lockQueue != [] {
        var nextTask := mx.lockQueue[0].item;
        mutexes := mutexes[m := mx.(owner := Some(nextTask), lockQueue := mx.lockQueue[1..])];
        tasks := tasks[nextTask := tasks[nextTask].(waiting := None)];
      } else {
        mutexes := mutexes[m := mx.(lock := false, owner := None)];
      }
      if tasks[task].real_prio < tasks[task].active_prio {
        tasks := tasks[task := tasks[task].(active_prio := tasks[task].real_prio)];
      }
      assert tasks == Release(old(Abs()), m, task).tasks;
      return E_OK;
    }

    method MutexTrylock(m: nat, task: nat) returns (ret: int)
      requires Known(Abs(), m, task)
      modifies this`mutexes
      ensures Abs() == Trylock(old(Abs()), m, task)
      ensures ret == if old(mutexes)[m].lock then E_BUSY else E_OK
      ensures ret == E_OK <==> !Owns(old(Abs()), m, task) && Owns(Abs(), m, task)
    {
      if !mutexes[m].lock {
        mutexes := mutexes[m := mutexes[m].(lock := true, owner := Some(task))];
        return E_OK;
      }
      return E_BUSY;
    }

    /** The timer of a waiting task ran out. */
    method MutexResumeTimeout(m: nat, task: nat)
      requires Known(Abs(), m, task) && mutexes[m].lock && mutexes[m].lockQueue != [] && mutexes[m].owner != Some(task)
      requires Unique(mutexes[m].lockQueue) && Descending(mutexes[m].lockQueue)
      modifies this
      ensures Abs() == Timeout(old(Abs()), m, task)
      ensures tasks[task].waiting.None? && tasks[task].ret == E_TIMED_OUT && mutexes[m].owner == old(mutexes)[m].owner
    {
      hide RemoveItem;
      var restoreprio := false;
      var mx := mutexes[m];
      var owner := mx.owner.value;
      if task == mx.lockQueue[0].item && tasks[owner].active_prio != tasks[owner].real_prio {
        tasks := tasks[owner := tasks[owner].(active_prio := tasks[owner].real_prio)];
        restoreprio := true;
      }
      var queue := RemoveItem(mx.lockQueue, task);
      mutexes := mutexes[m := mx.(lockQueue := queue)];
      if restoreprio && queue != [] && queue[0].prio > tasks[owner].real_prio {
        tasks := tasks[owner := tasks[owner].(active_prio := queue[0].prio)];
      }
      tasks := tasks[task := tasks[task].(waiting := None, ret := E_TIMED_OUT)];
      assert tasks == Timeout(old(Abs()), m, task).tasks;
    }
  }
}
