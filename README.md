# AsyncTaskEx, modelled in Dafny

AsyncTaskEx is an Android library. It runs background tasks on a thread pool that prefers starting a
new thread over queueing work, and it delivers each task's result to the main thread. This project
models its sequential core:

- **The task lifecycle** (`AsyncTasks.AsyncTaskEx`). A task has a status (PENDING, RUNNING,
  FINISHED), a `cancelled` flag, a `taskInvoked` flag, a listener set and the state of the
  FutureTask that wraps its worker. Threads become explicit events: the owner submits the task,
  anyone cancels it, the worker starts, the worker returns or throws, and the main-thread handler
  delivers a posted result. The handler's messages for the task are the `outbox` sequence. The
  callbacks the task makes (onPreExecute, onCancelled, onPostExecute, each listener's onFinished)
  are appended to a `callbacks` log. The invariant `Valid()` states that at most one result
  message is ever posted: the worker posts only after setting `taskInvoked`, and `done()` posts
  only while `taskInvoked` is still false. It holds when the worker's start is one step
  (`WorkerStart`). In the code the start is two steps, `WorkerClaim` and `WorkerCall`. A cancel
  between them breaks the invariant: two messages are posted, and finish runs twice (see
  Findings).
- **The pool's task registry** (`TaskPools.AsyncTaskThreadPool`). A set of in-flight tasks.
  Submitting a task installs a finish listener that removes the task again. `cancelAllTasks`
  cancels every registered task and clears the set.
- **The per-view binder** (`AutoTasks.AutoTaskManager`). A map from view to task. Rebinding a view
  cancels its previous task. Cancelling one view keeps the binding. Cancelling everything also
  cancels the pool's registry and clears the map.
- **The scaling queue's admission rule** (`ScalingQueues.ScalingQueue.Offer`). The queue refuses
  work when `activeCount + size >= poolSize`, which makes the pool start a thread instead. The
  executor is a stub holding its two counts.
- **Bitmap downsampling arithmetic** (`BitmapSampling`). The rounded size ratio is split into
  the largest power of two not above it (`inSampleSize`) and a density ratio for the rest.

Each stateful operation is a method on a class, proved against a specification. The pure
arithmetic of the downsampling is also a function (`Prepare`), and the in-place method is proved
equal to it. Short scenario methods drive the events in a fixed order and state the callbacks that
result. Examples: a cancel before the worker starts, a cancel racing with completion, and a task
run through the pool.

Two behaviours of the code worth noting:

- `cancelTaskOfView` keeps the view's binding; it does not remove it.
- After `cancelAllTasks`, a cancelled task still delivers `onCancelled` and notifies its
  listeners later.

## Model

| member | source | states |
|---|---|---|
| `AsyncTasks.AsyncTaskEx.constructor` | library/src/main/java/com/lb/async_task_ex/AsyncTaskEx.kt:33-43 | A new task is PENDING, not cancelled, not invoked, has no listeners and a fresh future, and satisfies the lifecycle invariant |
| `AsyncTasks.AsyncTaskEx.ExecuteOnExecutor` | library/src/main/java/com/lb/async_task_ex/AsyncTaskEx.kt:266-278 | Fails with "already running" exactly when RUNNING and "already executed" exactly when FINISHED, changing nothing; from PENDING it sets RUNNING, calls onPreExecute and hands the future over; status never moves back |
| `AsyncTasks.AsyncTaskEx.PostResult` | library/src/main/java/com/lb/async_task_ex/AsyncTaskEx.kt:87-91 | Appends one result message to the handler queue and changes nothing else |
| `AsyncTasks.AsyncTaskEx.PostResultIfNotInvoked` | library/src/main/java/com/lb/async_task_ex/AsyncTaskEx.kt:81-85 | Posts the result if and only if the worker has not set taskInvoked |
| `AsyncTasks.AsyncTaskEx.Done` | library/src/main/java/com/lb/async_task_ex/AsyncTaskEx.kt:66-78 | A normally completed future passes its value and a cancelled one passes null to postResultIfNotInvoked; a failed one posts nothing |
| `AsyncTasks.AsyncTaskEx.Cancel` | library/src/main/java/com/lb/async_task_ex/AsyncTaskEx.kt:190-193 | Always leaves the task cancelled; returns true exactly when the future had not completed, cancels it then, and posts null exactly when the worker had not started |
| `AsyncTasks.AsyncTaskEx.WorkerStart` | library/src/main/java/com/lb/async_task_ex/AsyncTaskEx.kt:59-62 | Corrected start: the worker runs only while the future is neither completed nor cancelled nor already claimed, and it sets taskInvoked in the same step; the invariant (at most one message) is kept |
| `AsyncTasks.AsyncTaskEx.WorkerClaim` | library/src/main/java/com/lb/async_task_ex/AsyncTaskEx.kt:59-61 | FutureTask.run claims the future exactly when it is still pending and unclaimed, and changes nothing else of the task; the invariant is kept |
| `AsyncTasks.AsyncTaskEx.WorkerCall` | library/src/main/java/com/lb/async_task_ex/AsyncTaskEx.kt:60-61 | call() sets taskInvoked whatever happened to the future since the claim; the invariant survives only if the future is still pending |
| `AsyncTasks.AsyncTaskEx.WorkerReturn` | library/src/main/java/com/lb/async_task_ex/AsyncTaskEx.kt:60-69 | A returned result, null included, is posted by the worker itself and completes a still-pending future with it; a throw posts nothing and fails the future; done() then posts nothing more, so at most one message exists |
| `AsyncTasks.AsyncTaskEx.Finish` | library/src/main/java/com/lb/async_task_ex/AsyncTaskEx.kt:281-289 | Delivers the oldest message; calls onCancelled if and only if the task is cancelled and onPostExecute otherwise, then notifies the listeners present at that moment, and only then sets FINISHED |
| `AsyncTasks.AsyncTaskEx.NotifyListeners` | library/src/main/java/com/lb/async_task_ex/AsyncTaskEx.kt:286-287 | Appends one notification per listener of the set, naming each listener and nothing else |
| `AsyncTasks.NotifiesEachOnceHasNoRepeats` | library/src/main/java/com/lb/async_task_ex/AsyncTaskEx.kt:286-287 | Such a notification log names exactly the listener set and no listener twice |
| `AsyncTasks.AsyncTaskEx.AddOnFinishedListener` | library/src/main/java/com/lb/async_task_ex/AsyncTaskEx.kt:291-293 | Adds the listener to the set (set semantics) and changes nothing else |
| `AsyncTasks.AsyncTaskEx.RemoveOnFinishedListener` | library/src/main/java/com/lb/async_task_ex/AsyncTaskEx.kt:295-297 | Removes the listener from the set and changes nothing else |
| `AsyncTasks.CancelTwiceIsOnce` | library/src/main/java/com/lb/async_task_ex/AsyncTaskEx.kt:190-193 | A second cancel changes nothing, so two cancels in a row have the effect of one |
| `AsyncTasks.CancelEach` | library/src/main/java/com/lb/async_task_ex/AsyncTaskThreadPool.kt:52-53 | Every task of the collection ends up with exactly the effect of one cancel |
| `AsyncTasks.CancelBeforeWorkerStarts` | library/src/main/java/com/lb/async_task_ex/AsyncTaskEx.kt:74-75 | Cancelled after submission but before the worker runs: the worker never runs, and the single posted result is null and reaches onCancelled |
| `AsyncTasks.CancelWhileRunning` | library/src/main/java/com/lb/async_task_ex/AsyncTaskEx.kt:60-63 | Cancelled while doInBackground runs: cancel succeeds, the worker's value is posted once and reaches onCancelled, never onPostExecute |
| `AsyncTasks.CancelAfterCompletion` | library/src/main/java/com/lb/async_task_ex/AsyncTaskEx.kt:281-285 | Cancelled after doInBackground returned: cancel returns false, yet only onCancelled runs, once |
| `AsyncTasks.CancelBetweenClaimAndCallPosts` | library/src/main/java/com/lb/async_task_ex/AsyncTaskEx.kt:59-85 | A cancel between the worker's claim and its setting taskInvoked succeeds and posts null, and the worker then posts its value as well: two messages |
| `AsyncTasks.CancelBetweenClaimAndCall` | library/src/main/java/com/lb/async_task_ex/AsyncTaskEx.kt:281-289 | Both messages of that race are delivered: onCancelled(null), the listener, onCancelled(v), and the listener again |
| `AsyncTasks.NullResultReachesPostExecute` | library/src/main/java/com/lb/async_task_ex/AsyncTaskEx.kt:60-63 | A doInBackground that returns null has null posted by the worker and a normally completed future, and finish calls onPostExecute(null) and sets FINISHED |
| `AsyncTasks.ExecuteTwice` | library/src/main/java/com/lb/async_task_ex/AsyncTaskEx.kt:267-270 | A task executes once: a second execute while running and an execute after finishing both fail |
| `TaskPools.AsyncTaskThreadPool.constructor` | library/src/main/java/com/lb/async_task_ex/AsyncTaskThreadPool.kt:17 | A new pool has an empty registry |
| `TaskPools.AsyncTaskThreadPool.TasksCount` | library/src/main/java/com/lb/async_task_ex/AsyncTaskThreadPool.kt:18-19 | The number of tasks in the registry set: 0 exactly when the registry is empty, and at least 1 while any task is registered |
| `TaskPools.AsyncTaskThreadPool.ExecuteAsyncTask` | library/src/main/java/com/lb/async_task_ex/AsyncTaskThreadPool.kt:40-49 | Installs a fresh finish listener for the task, registers the task before executing it (a second registration does not grow the set), and passes on executeOnExecutor's failure |
| `TaskPools.AsyncTaskThreadPool.OnFinished` | library/src/main/java/com/lb/async_task_ex/AsyncTaskThreadPool.kt:41-46 | The installed listener removes its task from the registry, or changes nothing if it is already gone, and unregisters itself |
| `TaskPools.AsyncTaskThreadPool.CancelAllTasks` | library/src/main/java/com/lb/async_task_ex/AsyncTaskThreadPool.kt:51-55 | Every previously registered task has been cancelled, and the registry is empty with tasksCount 0 |
| `TaskPools.RunThroughPool` | library/src/main/java/com/lb/async_task_ex/AsyncTaskThreadPool.kt:40-49 | A task run through the pool is counted while running; when it finishes, onPostExecute runs, then the pool's listener, which leaves the registry empty and unregisters itself |
| `TaskPools.FinishAfterCancelAll` | library/src/main/java/com/lb/async_task_ex/AsyncTaskThreadPool.kt:51-55 | After cancelAllTasks the count is 0; the cancelled task later delivers onCancelled(null), and its listener finds the registry already empty |
| `TaskPools.RemovedListenerIsNotNotified` | library/src/main/java/com/lb/async_task_ex/AsyncTaskEx.kt:291-297 | A listener added and removed before the task finishes is never notified |
| `AutoTasks.AutoTaskManager.constructor` | library/src/main/java/com/lb/async_task_ex/AutoTaskManager.kt:11-13 | A new manager keeps its pool and interruption setting and has no bindings |
| `AutoTasks.AutoTaskManager.CancelAllTasks` | library/src/main/java/com/lb/async_task_ex/AutoTaskManager.kt:23-29 | Every task of the pool's registry, when there is a pool, and every bound task gets exactly the effect of one cancel, even a task in both; the registry and the map end empty |
| `AutoTasks.AutoTaskManager.CancelTaskOfView` | library/src/main/java/com/lb/async_task_ex/AutoTaskManager.kt:31-35 | Cancels the task bound to the view and keeps the map as it was; every other task, and everything for an unbound view, is unchanged |
| `AutoTasks.AutoTaskManager.AddTaskAndCancelPreviousTask` | library/src/main/java/com/lb/async_task_ex/AutoTaskManager.kt:37-44 | Cancels the view's previous task, binds the view to the given task, keeps every other view's binding, and returns that task without starting it |
| `AutoTasks.CancelAllCancelsSharedTaskOnce` | library/src/main/java/com/lb/async_task_ex/AutoTaskManager.kt:23-29 | A task run through the manager's pool and bound to a view is cancelled and posts a single null result; registry and bindings end empty |
| `AutoTasks.RebindRunningView` | library/src/main/java/com/lb/async_task_ex/AutoTaskManager.kt:38-43 | Rebinding a view whose task is running cancels that task before the new one starts, and the view is then bound to the new task |
| `ScalingQueues.ScalingQueue.constructor` | app/library/src/main/java/com/lb/async_task_ex/ScalingQueue.kt:13-15 | The default queue is empty, has capacity Integer.MAX_VALUE and no executor |
| `ScalingQueues.ScalingQueue.WithCapacity` | app/library/src/main/java/com/lb/async_task_ex/ScalingQueue.kt:20-22 | The bounded queue is empty, has the given capacity and no executor |
| `ScalingQueues.ScalingQueue.SetThreadPoolExecutor` | app/library/src/main/java/com/lb/async_task_ex/ScalingQueue.kt:27-29 | Every later offer reads the counts of this executor |
| `ScalingQueues.ScalingQueue.Offer` | app/library/src/main/java/com/lb/async_task_ex/ScalingQueue.kt:39-42 | Fails without an executor; accepts exactly when activeCount + size < poolSize and the queue is not full, appending at the tail; otherwise leaves the queue unchanged; after acceptance activeCount + size <= poolSize and size <= capacity |
| `BitmapSampling.RoundedRatioIsNearest` | app/src/main/java/com/lb/asynctaskex/Utils.kt:134 | The result is the nearest integer to actual / requested, halves rounded up |
| `BitmapSampling.SampleSize` | app/src/main/java/com/lb/asynctaskex/Utils.kt:131-138 | The height is the preferred axis exactly when the image is wider than tall and a height of at least 1 was requested |
| `BitmapSampling.SampleSizeIsNearestRatio` | app/src/main/java/com/lb/asynctaskex/Utils.kt:131-138 | The ratio is the nearest integer, halves rounded up, to height / reqHeight when the height is preferred, else to width / reqWidth when a width was requested, and 1 otherwise |
| `BitmapSampling.LargestPowerOfTwoAtMost` | app/src/main/java/com/lb/asynctaskex/Utils.kt:140-141 | The result is a power of two, at most max(1, bound), and doubling it exceeds the bound |
| `BitmapSampling.PowerOfTwoBetweenIsLargest` | app/src/main/java/com/lb/asynctaskex/Utils.kt:140-141 | Any power of two with those two bounds is that same power, so the doubling loop's exit state is determined |
| `BitmapSampling.Prepare` | app/src/main/java/com/lb/asynctaskex/Utils.kt:116-150 | outWidth and outHeight are never written and inJustDecodeBounds always ends false; with no requested size only inTargetDensity = 1 changes besides |
| `BitmapSampling.FitsMeansNoScaling` | app/src/main/java/com/lb/asynctaskex/Utils.kt:121-130 | An image that already fits gets inSampleSize, inDensity and inTargetDensity all 1 |
| `BitmapSampling.DownsamplingChoosesPowerOfTwo` | app/src/main/java/com/lb/asynctaskex/Utils.kt:131-150 | When shrinking, inSampleSize is the largest power of two not above the ratio and at least 1; a shortfall is stored as inTargetDensity = inSampleSize over inDensity = ratio; a ratio of 1 stores requested over actual size on the preferred axis |
| `BitmapSampling.PrepareBitmapOptionsForSampling` | app/src/main/java/com/lb/asynctaskex/Utils.kt:116-151 | Writing the option fields in place, with the doubling loop, leaves exactly the options Prepare describes |
| `BitmapSampling.AsWrittenDoublingNeverEnds` | app/src/main/java/com/lb/asynctaskex/Utils.kt:140-141 | With 32-bit Int arithmetic and a ratio of at least 2^30, the loop never exits: it passes 2^30, wraps to -2^31, then to 0, and stays at 0 |

## Left out

- Threads, FutureTask's internals, Handler and Looper posting, thread priority and interruption are not modelled. Each is replaced by the events described above. The handler's message queue is the `outbox` sequence. `mayInterruptIfRunning` only changes how the worker's doInBackground ends, and `WorkerReturn`'s argument covers both ways.
- `AsyncTasks.AsyncTaskEx.WorkerReturn` treats two steps as one: the worker's postResult and FutureTask's completion of the future. In AsyncTaskEx.kt, a cancel between the two still finds the future pending and returns true; here it returns false. The messages posted are the same either way.
- `get()` and `get(timeout)` are left out. They block, waiting on FutureTask.
- `Done` leaves out the RuntimeException that done() rethrows when doInBackground failed, and the log line on interruption. A failure is modelled as "nothing posted".
- The bodies of onPreExecute, onPostExecute, onCancelled and the listeners' onFinished are user code. The model logs each call in `callbacks` instead of running it.
- Listener dispatch: `Finish` logs each listener's notification. The body of the pool's listener is `TaskPools.AsyncTaskThreadPool.OnFinished`, which the model's caller runs after `Finish`. So the registry changes after FINISHED is set, not during the loop. Notification runs over the listener set as it stands when finish starts. The ConcurrentModificationException that the listener's self-removal can raise inside the loop is not modelled.
- `TaskPools.AsyncTaskThreadPool.ExecuteAsyncTask` returns the listener it installs, so that a caller can run its body. In AsyncTaskThreadPool.kt it returns nothing.
- The result type of doInBackground is `int`, with null as `None` (`Outcome.Returned(None)`). The task never looks inside a result.
- The process-wide default executor, `execute()` and `execute(Runnable)` on it, the `coresCount` probe of /sys/devices/system/cpu, the thread factories and the pool construction are left out. They configure JDK classes or do I/O.
- ScalingThreadPoolExecutor is reduced to the two counts that `Offer` reads (`ScalingQueues.PoolCounts`). Its own behaviour and the JDK's choice between growing and queueing are not visible. ForceQueuePolicy's blocking `put` is left out.
- `ScalingQueues.ScalingQueue.Offer` does not model 32-bit wrap-around of `activeCount + size`. Only `offer` of LinkedBlockingQueue is modelled, not its other operations.
- `ScalingQueues.ScalingQueue.WithCapacity` has the precondition `capacity > 0`. It stands for the IllegalArgumentException that LinkedBlockingQueue throws for a smaller capacity.
- AutoTaskManager's lifecycle observer, which calls cancelAllTasks when the activity is destroyed, is not modelled. It is framework wiring. Views are compared by identity.
- `BitmapSampling.RoundedRatioIsNearest`: `RoundedRatio` rounds exactly on rationals (floor of x + 1/2). It leaves out Float precision, and the clamping that roundToInt does on huge values.
- Utils.kt is modelled only for prepareBitmapOptionsForSampling. The icon and bitmap loading, dp conversion and icon-size lookup are Android I/O. MainActivity.kt is UI.

## Findings

| source | as written | input that shows it | evidently intended | confidence | as-written member | corrected member |
|---|---|---|---|---|---|---|
| app/src/main/java/com/lb/asynctaskex/Utils.kt:140-141 | inSampleSize is doubled while `inSampleSize * 2 <= sampleSize`, and the product is computed in 32-bit Int arithmetic | outWidth = 2147483647, outHeight = 1073741824, reqWidth = reqHeight = 1, so the rounded ratio is 2^30; the loop reaches 2^30, wraps to -2^31, then 0, and loops forever | stop at the largest power of two not above the ratio, here 2^30 (for example by testing `inSampleSize <= sampleSize / 2`) | high; not executed | `BitmapSampling.AsWrittenDoublingNeverEnds` | `BitmapSampling.LargestPowerOfTwoAtMost` |
| library/src/main/java/com/lb/async_task_ex/AsyncTaskEx.kt:61 | call() sets taskInvoked only after FutureTask.run has seen the future pending; done() (lines 74-75, 81-85) posts null while taskInvoked is false, and the worker posts its value at line 63 | a cancel between FutureTask.run's state check and line 61: cancel returns true and posts null, the worker then posts v, and finish runs twice, calling onCancelled twice and notifying each listener still registered twice | at most one result message per task, so that onCancelled or onPostExecute and each listener run once | medium; not executed | `AsyncTasks.CancelBetweenClaimAndCall` | `AsyncTasks.AsyncTaskEx.WorkerStart` |
