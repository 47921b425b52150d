/** The thread pool's memory (src/runtime/async.c). Each method is one step of Async: a
    locked section, or one access of a worker to its slot. */
module AsyncEngine {
  import opened Wrappers
  import opened Async

  class SkyAsyncEngine {
    const tasks: array<Slot>
    var taskHead: nat
    var taskTail: nat
    var taskCount: nat
    var nextId: nat
    var running: bool
    /** The history, and where each worker is. */
    ghost var workers: seq<Phase>
    ghost var submitted: seq<Job>
    ghost var taken: nat
    ghost var log: seq<Deed>

    ghost function State(): State
      reads this, tasks
    {
      Async.State(tasks[..], taskHead, taskTail, taskCount, nextId, running, workers, submitted, taken, log)
    }

    ghost predicate Valid()
      reads this, tasks
    {
      tasks.Length == MAX_TASKS && |workers| == POOL && Counted(State())
    }

    /** Worker `w` works on slot `i`. */
    ghost predicate At(w: nat, i: nat)
      reads this
    {
      w < |workers| && i < MAX_TASKS && !workers[w].Idle? && i == IndexOf(workers[w].k)
    }

    /** sky_async_init */
    constructor ()
      ensures Valid() && State() == Init() && fresh(tasks)
    {
      tasks := new Slot[MAX_TASKS](i => UNUSED);
      taskHead, taskTail, taskCount, nextId, running := 0, 0, 0, 1, true;
      workers, submitted, taken, log := [Idle, Idle, Idle, Idle], [], 0, [];
      new;
      assert tasks[..] == Init().slots;
    }

    /** sky_async_submit; 0 means that nothing was queued. */
    method Submit(job: Job) returns (id: nat)
      requires Valid()
      modifies this, tasks
      ensures Valid() && (State(), id) == AfterSubmit(old(State()), job)
    {
      hide IdOf;
      if !running || taskCount >= MAX_TASKS {
        return 0;
      }
      WrapNext(|submitted|);
      IdNext(|submitted|);
      id := nextId;
      tasks[IndexOf(taskHead)] := Slot(nextId, Pending, job, NULL, true);
      nextId := (nextId + 1) % WORD;
      taskHead := (taskHead + 1) % WORD;
      taskCount := taskCount + 1;
      submitted := submitted + [job];
    }

    /** The locked section of an idle worker: the slot of the oldest task. */
    method Take(ghost w: nat) returns (i: nat)
      requires Valid() && w < POOL && workers[w].Idle? && running && taskCount > 0
      modifies this, tasks
      ensures Valid() && State() == Next(old(State()), Async.Take(w)) && At(w, i)
    {
      WrapNext(taken);
      WrapIndex(taken);
      i := IndexOf(taskTail);
      taskTail := (taskTail + 1) % WORD;
      taskCount := taskCount - 1;
      tasks[i] := tasks[i].(status := Running);
      workers := workers[w := Taken(taken)];
      taken := taken + 1;
    }

    /** `if (task->func)` */
    method Begin(ghost w: nat, i: nat) returns (hasFunc: bool)
      requires Valid() && At(w, i) && workers[w].Taken?
      modifies this, tasks
      ensures Valid() && State() == Next(old(State()), Async.Begin(w))
      ensures hasFunc == tasks[i].job.func.Some?
    {
      hasFunc := tasks[i].job.func.Some?;
      if hasFunc {
        assert tasks[..] == tasks[..][i := tasks[i]];
        workers := workers[w := Chosen(workers[w].k)];
      } else {
        tasks[i] := tasks[i].(status := Failed);
        workers := workers[w := Idle];
      }
    }

    /** `task->func(task->arg)`: what is called with what; `result` is what it returns. */
    method Call(ghost w: nat, i: nat, ghost result: nat) returns (func: nat, arg: nat)
      requires Valid() && At(w, i) && workers[w].Chosen? && tasks[i].job.func.Some?
      modifies this
      ensures Valid() && State() == Next(old(State()), Async.Call(w, result))
      ensures func == tasks[i].job.func.value && arg == tasks[i].job.arg
    {
      func, arg := tasks[i].job.func.value, tasks[i].job.arg;
      log := log + [Ran(workers[w].k, func, arg, result)];
      workers := workers[w := Called(workers[w].k, result)];
    }

    /** `task->result = ...` */
    method Store(ghost w: nat, i: nat, result: nat)
      requires Valid() && At(w, i) && workers[w].Called? && result == workers[w].result
      modifies this, tasks
      ensures Valid() && State() == Next(old(State()), Async.Store(w))
    {
      tasks[i] := tasks[i].(result := result);
      workers := workers[w := Stored(workers[w].k, result)];
    }

    /** `task->state = SKY_TASK_COMPLETED` */
    method Finish(ghost w: nat, i: nat)
      requires Valid() && At(w, i) && workers[w].Stored?
      modifies this, tasks
      ensures Valid() && State() == Next(old(State()), Async.Finish(w))
    {
      tasks[i] := tasks[i].(status := Completed);
      workers := workers[w := Finished(workers[w].k, workers[w].result)];
    }

    /** `task->on_complete(task->result, task->user_data)` */
    method Notify(ghost w: nat, i: nat) returns (callback: Option<nat>, result: nat, userData: nat)
      requires Valid() && At(w, i) && workers[w].Finished?
      modifies this
      ensures Valid() && State() == Next(old(State()), Async.Notify(w))
      ensures callback == tasks[i].job.onComplete && result == tasks[i].result && userData == tasks[i].job.userData
    {
      callback, result, userData := tasks[i].job.onComplete, tasks[i].result, tasks[i].job.userData;
      if callback.Some? {
        log := log + [CalledBack(workers[w].k, callback.value, result, userData)];
      }
      workers := workers[w := Idle];
    }

    /** The search that `sky_async_status` and `sky_async_wait` share. */
    method FindTask(id: nat) returns (found: Option<nat>)
      requires Valid()
      ensures found == Find(tasks[..], id, 0)
    {
      for i := 0 to MAX_TASKS
        invariant Find(tasks[..], id, 0) == Find(tasks[..], id, i)
      {
        if tasks[i].active && tasks[i].id == id {
          return Some(i);
        }
      }
      return None;
    }

    /** sky_async_status */
    method Status(id: nat) returns (status: Status)
      requires Valid()
      ensures status == StatusOf(State(), id)
    {
      var found := FindTask(id);
      status := if found.Some? then tasks[found.value].status else Failed;
    }

    /** One pass of the loop in sky_async_wait; without a result the caller sleeps and tries again. */
    method WaitOnce(id: nat) returns (result: Option<nat>)
      requires Valid()
      modifies tasks
      ensures Valid() && (State(), result) == AfterCollect(old(State()), id)
    {
      hide Find;
      var found := FindTask(id);
      if found.Some? {
        var i := found.value;
        if tasks[i].status == Completed || tasks[i].status == Failed {
          result := Some(tasks[i].result);
          tasks[i] := tasks[i].(active := false);
          return;
        }
      }
      return None;
    }

    /** sky_async_destroy, up to the joining of the threads. */
    method Destroy()
      requires Valid()
      modifies this`running
      ensures Valid() && State() == Next(old(State()), Stop)
    {
      running := false;
    }
  }
}
