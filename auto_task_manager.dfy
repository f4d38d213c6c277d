/**
 * AutoTaskManager (library/src/main/java/com/lb/async_task_ex/AutoTaskManager.kt): binds at most
 * one task to each view and cancels the previous occupant when a view is rebound. The lifecycle
 * observer that calls cancelAllTasks on destruction is framework wiring and is not modelled.
 */
module AutoTasks {
  import opened Wrappers
  import opened AsyncTasks
  import opened TaskPools

  /** The key tasks are bound to: a view, compared by identity. */
  type View = object

  class AutoTaskManager {
    const threadPool: AsyncTaskThreadPool?
    const cancelUsingInterruption: bool
    var tasks: map<View, AsyncTaskEx>

    constructor (threadPool: AsyncTaskThreadPool?, cancelUsingInterruption: bool)
      ensures this.threadPool == threadPool && this.cancelUsingInterruption == cancelUsingInterruption
      ensures tasks == map[]
    {
      this.threadPool := threadPool;
      this.cancelUsingInterruption := cancelUsingInterruption;
      tasks := map[];
    }

    /**
     * cancelAllTasks: first the pool's own cancelAllTasks (when there is a pool), then cancel
     * every bound task, then forget every binding.
     */
    method CancelAllTasks()
      modifies this, threadPool, if threadPool == null then {} else threadPool.tasks, tasks.Values
      ensures tasks == map[]
      ensures threadPool != null ==> threadPool.tasks == {}
      ensures threadPool != null ==> forall t | t in old(threadPool.tasks) :: CancelApplied(t)
      ensures forall t | t in old(tasks.Values) :: CancelApplied(t)
    {
      if threadPool != null {
        threadPool.CancelAllTasks(cancelUsingInterruption);
      }
      label poolCancelled:
      CancelEach(tasks.Values, cancelUsingInterruption);
      // A task both registered in the pool and bound to a view has now been cancelled twice.
      forall t | t in old(tasks.Values) ensures CancelApplied(t) {
        if threadPool != null && t in old(threadPool.tasks) {
          CancelTwiceIsOnce(old(t.Fields()), old@poolCancelled(t.Fields()), t.Fields());
        }
      }
      if threadPool != null {
        forall t | t in old(threadPool.tasks) ensures CancelApplied(t) {
          if t in old(tasks.Values) {
            CancelTwiceIsOnce(old(t.Fields()), old@poolCancelled(t.Fields()), t.Fields());
          }
        }
      }
      tasks := map[];
    }

    /**
     * cancelTaskOfView: cancel the task bound to `view`, if any, but keep the binding; an
     * unbound view changes nothing.
     */
    method CancelTaskOfView(view: View)
      modifies tasks.Values
      ensures tasks == old(tasks)
      ensures view in tasks ==> CancelApplied(tasks[view])
      ensures forall t | t in tasks.Values && (view !in tasks || t != tasks[view]) :: unchanged(t)
    {
      if view in tasks {
        var _ := tasks[view].Cancel(cancelUsingInterruption);
      }
    }

    /**
     * addTaskAndCancelPreviousTask: cancel the task bound to `view`, if any, bind `task` there
     * instead, and hand `task` back without starting it. Other views keep their bindings.
     */
    method AddTaskAndCancelPreviousTask(view: View, task: AsyncTaskEx) returns (r: AsyncTaskEx)
      modifies this, tasks.Values
      ensures r == task
      ensures tasks == old(tasks)[view := task]
      ensures forall v | v in old(tasks) && v != view :: v in tasks && tasks[v] == old(tasks)[v]
      ensures view in old(tasks) ==> CancelApplied(old(tasks)[view])
      ensures forall t | t in old(tasks.Values) :: old(t.Valid()) ==> t.Valid()
      ensures task.status == old(task.status) && task.submitted == old(task.submitted)
      ensures forall t | t in old(tasks.Values) && (view !in old(tasks) || t != old(tasks)[view]) :: unchanged(t)
    {
      if view in tasks {
        var _ := tasks[view].Cancel(cancelUsingInterruption);
      }
      tasks := tasks[view := task];
      r := task;
    }
  }

  /**
   * Rebinding a view whose task is running cancels that task before the new one is started,
   * and the view is then bound to the new task only.
   */
  method RebindRunningView(view: View) returns (oldCancelled: bool, oldOutbox: seq<Option<Value>>,
                                                newStatus: Status, bound: bool)
    ensures oldCancelled && oldOutbox == [] && newStatus == Pending && bound
  {
    var manager := new AutoTaskManager(null, false);
    var first := new AsyncTaskEx();
    var r := manager.AddTaskAndCancelPreviousTask(view, first);
    var err := first.ExecuteOnExecutor();
    var ran := first.WorkerStart();
    var second := new AsyncTaskEx();
    r := manager.AddTaskAndCancelPreviousTask(view, second);
    oldCancelled := first.cancelled;
    oldOutbox := first.outbox;
    newStatus := second.status;
    bound := view in manager.tasks && manager.tasks[view] == second;
  }

  /**
   * A task that runs through the manager's pool and is bound to a view is cancelled by both
   * halves of cancelAllTasks, yet it posts the single null result of one cancel; the pool's
   * registry and the bindings end empty.
   */
  method CancelAllCancelsSharedTaskOnce(view: View)
    returns (cancelled: bool, outbox: seq<Option<Value>>, poolCount: nat, bound: bool)
    ensures cancelled && outbox == [None] && poolCount == 0 && !bound
  {
    var pool := new AsyncTaskThreadPool();
    var manager := new AutoTaskManager(pool, true);
    var t := new AsyncTaskEx();
    var r := manager.AddTaskAndCancelPreviousTask(view, t);
    var l, err := pool.ExecuteAsyncTask(t);
    manager.CancelAllTasks();
    cancelled := t.cancelled;
    outbox := t.outbox;
    poolCount := pool.TasksCount();
    bound := view in manager.tasks;
  }
}
