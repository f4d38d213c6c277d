/**
 * The registry of in-flight tasks kept by AsyncTaskThreadPool
 * (library/src/main/java/com/lb/async_task_ex/AsyncTaskThreadPool.kt). The executor behind it is
 * not modelled: submitting a task is its ExecuteOnExecutor event.
 */
module TaskPools {
  import opened Wrappers
  import opened AsyncTasks

  /** The finish listener that executeAsyncTask installs on each task it runs. */
  class FinishListener {
    const pool: AsyncTaskThreadPool
    const task: AsyncTaskEx

    constructor (pool: AsyncTaskThreadPool, task: AsyncTaskEx)
      ensures this.pool == pool && this.task == task
    {
      this.pool := pool;
      this.task := task;
    }
  }

  class AsyncTaskThreadPool {
    var tasks: set<AsyncTaskEx>

    constructor ()
      ensures tasks == {}
    {
      tasks := {};
    }

    /** tasksCount: the number of registered tasks, 0 exactly when none is registered. */
    function TasksCount(): (n: nat)
      reads this
      ensures n == 0 <==> tasks == {}
      ensures forall t | t in tasks :: n >= 1
    {
      |tasks|
    }

    /**
     * executeAsyncTask: installs a listener that removes the task again when it finishes,
     * registers the task (a set: registering twice does not grow it), and only then submits
     * it, so the task is already registered when executeOnExecutor runs. If executeOnExecutor
     * throws, the listener and the registration stay in place. The installed listener is
     * returned so that the model's caller can run its body when the task finishes.
     */
    method ExecuteAsyncTask(task: AsyncTaskEx) returns (listener: FinishListener, err: Option<ExecuteError>)
      modifies this, task
      ensures fresh(listener) && listener.pool == this && listener.task == task
      ensures tasks == old(tasks) + {task}
      ensures TasksCount() == if task in old(tasks) then old(TasksCount()) else old(TasksCount()) + 1
      ensures task.listeners == old(task.listeners) + {listener}
      ensures err.None? <==> old(task.status) == Pending
      ensures err.None? ==> task.status == Running && task.submitted
      ensures err.Some? ==> task.status == old(task.status) && task.submitted == old(task.submitted)
      ensures task.cancelled == old(task.cancelled) && task.outbox == old(task.outbox)
      ensures task.taskInvoked == old(task.taskInvoked) && task.future == old(task.future)
      ensures task.workerReturned == old(task.workerReturned) && task.claimed == old(task.claimed)
      ensures task.callbacks == if err.None? then old(task.callbacks) + [PreExecute] else old(task.callbacks)
      ensures old(task.Valid()) ==> task.Valid()
    {
      var l := new FinishListener(this, task);
      listener := l;
      task.AddOnFinishedListener(l);
      tasks := tasks + {task};
      assert task !in old(tasks) ==> |tasks| == |old(tasks)| + 1;
      assert task in old(tasks) ==> tasks == old(tasks);
      err := task.ExecuteOnExecutor();
    }

    /**
     * The body of the listener installed by executeAsyncTask, run when its task finishes:
     * remove the task from the registry (nothing changes if it is already gone, as after
     * cancelAllTasks) and unregister the listener itself.
     */
    method OnFinished(listener: FinishListener)
      requires listener.pool == this
      modifies this, listener.task
      ensures tasks == old(tasks) - {listener.task}
      ensures listener.task !in old(tasks) ==> tasks == old(tasks)
      ensures listener.task.listeners == old(listener.task.listeners) - {listener}
      ensures listener.task.status == old(listener.task.status)
      ensures listener.task.cancelled == old(listener.task.cancelled)
      ensures listener.task.taskInvoked == old(listener.task.taskInvoked)
      ensures listener.task.future == old(listener.task.future)
      ensures listener.task.submitted == old(listener.task.submitted)
      ensures listener.task.claimed == old(listener.task.claimed)
      ensures listener.task.workerReturned == old(listener.task.workerReturned)
      ensures listener.task.outbox == old(listener.task.outbox)
      ensures listener.task.callbacks == old(listener.task.callbacks)
      ensures old(listener.task.Valid()) ==> listener.task.Valid()
    {
      tasks := tasks - {listener.task};
      listener.task.RemoveOnFinishedListener(listener);
    }

    /** cancelAllTasks: cancel every registered task, then clear the registry. */
    method CancelAllTasks(alsoInterrupt: bool)
      modifies this, tasks
      ensures tasks == {} && TasksCount() == 0
      ensures forall t | t in old(tasks) :: CancelApplied(t)
    {
      CancelEach(tasks, alsoInterrupt);
      tasks := {};
    }
  }

  /* Scenarios: a pool, its registry and the listener it installs, driven event by event. */

  /**
   * A task run through the pool is registered while it runs; when the handler delivers its
   * result, onPostExecute runs, then the pool's listener, which empties the registry again.
   */
  method RunThroughPool(v: Value) returns (countWhileRunning: nat, countAfter: nat,
                                           callbacks: seq<Callback>, listenersAfter: set<object>)
    ensures countWhileRunning == 1 && countAfter == 0
    ensures |callbacks| == 3 && callbacks[..2] == [PreExecute, PostExecute(Some(v))]
    ensures callbacks[2].ListenerNotified? && callbacks[2].listener !in listenersAfter
    ensures listenersAfter == {}
  {
    var pool := new AsyncTaskThreadPool();
    var t := new AsyncTaskEx();
    var l;
    var err;
    l, err := pool.ExecuteAsyncTask(t);
    countWhileRunning := pool.TasksCount();
    var ran := t.WorkerStart();
    t.WorkerReturn(Returned(Some(v)));
    var r := t.Finish();
    assert NotifiesEachOnce(t.callbacks[2..], {l});
    assert ListenerNotified(l) in t.callbacks[2..];
    callbacks := t.callbacks;
    pool.OnFinished(l);
    countAfter := pool.TasksCount();
    listenersAfter := t.listeners;
  }

  /**
   * cancelAllTasks empties the registry at once; a task it cancelled before its worker started
   * still delivers onCancelled(null) later, and its listener then finds nothing to remove.
   */
  method FinishAfterCancelAll() returns (countAfterCancel: nat, countAfterFinish: nat, callbacks: seq<Callback>)
    ensures countAfterCancel == 0 && countAfterFinish == 0
    ensures |callbacks| == 3 && callbacks[..2] == [PreExecute, CancelledWith(None)]
  {
    var pool := new AsyncTaskThreadPool();
    var t := new AsyncTaskEx();
    var l;
    var err;
    l, err := pool.ExecuteAsyncTask(t);
    pool.CancelAllTasks(true);
    countAfterCancel := pool.TasksCount();
    assert t.outbox == [None];
    var r := t.Finish();
    callbacks := t.callbacks;
    pool.OnFinished(l);
    countAfterFinish := pool.TasksCount();
  }

  /** A listener added and then removed before the task finishes is not notified. */
  method RemovedListenerIsNotNotified(v: Value) returns (callbacks: seq<Callback>)
    ensures callbacks == [PreExecute, PostExecute(Some(v))]
  {
    var pool := new AsyncTaskThreadPool();
    var t := new AsyncTaskEx();
    var l := new FinishListener(pool, t);
    t.AddOnFinishedListener(l);
    var err := t.ExecuteOnExecutor();
    t.RemoveOnFinishedListener(l);
    var ran := t.WorkerStart();
    t.WorkerReturn(Returned(Some(v)));
    var r := t.Finish();
    callbacks := t.callbacks;
  }
}
