/**
 * The lifecycle of one AsyncTaskEx (library/src/main/java/com/lb/async_task_ex/AsyncTaskEx.kt).
 *
 * Threads are replaced by explicit events that the environment fires one at a time:
 *   ExecuteOnExecutor  the owner submits the task (main thread)
 *   Cancel             anyone cancels it
 *   WorkerStart        the executor runs the FutureTask and the worker's call() begins
 *   WorkerClaim        as written, the first half of WorkerStart: FutureTask.run claims the future
 *   WorkerCall         as written, the second half: call() sets taskInvoked
 *   WorkerReturn       doInBackground returns a result, possibly null, or throws
 *   Finish             the main-thread handler delivers the oldest posted result message
 * The handler's message queue for this task is the `outbox` sequence, and the user-visible
 * callbacks (onPreExecute, onCancelled, onPostExecute, each listener's onFinished) are
 * appended to the `callbacks` log in the order the task makes them.
 */
module AsyncTasks {
  import opened Wrappers

  /** The result type of doInBackground; the task never looks inside it. */
  type Value = int

  datatype Status = Pending | Running | Finished

  /** Position of a status in the only order the task moves through. */
  function Rank(s: Status): nat {
    match s
    case Pending => 0
    case Running => 1
    case Finished => 2
  }

  /** The state of the FutureTask that wraps the worker. */
  datatype FutureState =
    | New                      // not completed; the worker may or may not be running
    | Completed(value: Option<Value>)  // call() returned normally, possibly null
    | Failed                   // call() threw
    | Cancelled                // future.cancel succeeded

  /** How doInBackground ends: it returns a result, which may be null (None), or it throws. */
  datatype Outcome = Returned(result: Option<Value>) | Threw

  /** Why executeOnExecutor throws IllegalStateException. */
  datatype ExecuteError = AlreadyRunning | AlreadyExecuted

  /** A callback the task makes on the main thread. */
  datatype Callback =
    | PreExecute
    | CancelledWith(result: Option<Value>)
    | PostExecute(result: Option<Value>)
    | ListenerNotified(listener: object)

  /**
   * `notes` notifies every listener of `ls` exactly once and does nothing else: it has one
   * entry per listener, each entry names a listener of `ls`, and each listener appears.
   */
  ghost predicate NotifiesEachOnce(notes: seq<Callback>, ls: set<object>) {
    && |notes| == |ls|
    && (forall i | 0 <= i < |notes| :: notes[i].ListenerNotified? && notes[i].listener in ls)
    && (forall l | l in ls :: ListenerNotified(l) in notes)
  }

  /** The task's fields at one moment, as a value. */
  datatype TaskFields = TaskFields(
    status: Status, cancelled: bool, taskInvoked: bool, listeners: set<object>,
    future: FutureState, submitted: bool, claimed: bool, workerReturned: bool,
    outbox: seq<Option<Value>>, callbacks: seq<Callback>)

  /**
   * Everything one cancel does, from fields `a` to fields `b`: the flag is set; a future that
   * had not completed is cancelled, and if the worker never started the null result is posted;
   * nothing else moves.
   */
  predicate CancelEffect(a: TaskFields, b: TaskFields) {
    b == a.(cancelled := true,
            future := if a.future == New then Cancelled else a.future,
            outbox := if a.future == New && !a.taskInvoked then a.outbox + [None] else a.outbox)
  }

  /** Cancelling twice is cancelling once: the second cancel finds nothing left to change. */
  lemma CancelTwiceIsOnce(a: TaskFields, b: TaskFields, c: TaskFields)
    requires CancelEffect(a, b) && CancelEffect(b, c)
    ensures CancelEffect(a, c)
    ensures c == b
  {
  }

  class AsyncTaskEx {
    var status: Status
    var cancelled: bool
    var taskInvoked: bool
    var listeners: set<object>
    var future: FutureState
    /** The future has been handed to the executor. */
    var submitted: bool
    /** FutureTask.run has seen the future New and claimed it for a worker thread. */
    var claimed: bool
    /** The worker's call() has returned or thrown. */
    var workerReturned: bool
    /** Result messages posted to the main-thread handler and not yet delivered. */
    var outbox: seq<Option<Value>>
    /** Callbacks made so far, oldest first. */
    var callbacks: seq<Callback>

    /** Number of result messages ever posted for this task. */
    ghost var posted: nat
    /** The worker's own postResult has run. */
    ghost var workerPosted: bool

    /**
     * The task's invariant. Its heart is `posted <= 1`: a message is posted either by the worker
     * (only after it has set taskInvoked) or by done() (only while taskInvoked is still false),
     * and once done() has posted the future is cancelled, so the worker can never start. A
     * worker that claimed the future before that cancel breaks it (WorkerCall).
     */
    ghost predicate Valid()
      reads this
    {
      && posted <= 1
      && (status != Finished ==> |outbox| == posted)
      && (status == Finished ==> outbox == [] && posted == 1)
      && (status == Pending ==> !submitted)
      && (status == Running ==> submitted)
      && (taskInvoked ==> submitted)
      && (taskInvoked ==> claimed)
      && (claimed ==> submitted)
      && (workerReturned ==> taskInvoked)
      && (workerPosted ==> workerReturned)
      && (!taskInvoked ==>
            && (future == New || future == Cancelled)
            && posted == (if future == Cancelled then 1 else 0)
            && (outbox != [] ==> outbox[0] == None))
      && (taskInvoked ==> posted == (if workerPosted then 1 else 0))
      && (future == Cancelled ==> cancelled)
      && (!workerReturned ==> future == New || future == Cancelled)
    }

    function Fields(): TaskFields
      reads this
    {
      TaskFields(status, cancelled, taskInvoked, listeners, future, submitted, claimed,
                 workerReturned, outbox, callbacks)
    }

    constructor ()
      ensures Valid()
      ensures status == Pending && !cancelled && !taskInvoked && listeners == {}
      ensures future == New && !submitted && !claimed && !workerReturned && outbox == [] && callbacks == []
    {
      status := Pending;
      cancelled := false;
      taskInvoked := false;
      listeners := {};
      future := New;
      submitted := false;
      claimed := false;
      workerReturned := false;
      outbox := [];
      callbacks := [];
      posted := 0;
      workerPosted := false;
    }

    /**
     * executeOnExecutor: throws IllegalStateException unless the task is PENDING; otherwise
     * sets RUNNING, calls onPreExecute and only then hands the future to the executor.
     */
    method ExecuteOnExecutor() returns (err: Option<ExecuteError>)
      modifies this
      ensures claimed == old(claimed)
      ensures old(Valid()) ==> Valid()
      ensures old(status) == Running <==> err == Some(AlreadyRunning)
      ensures old(status) == Finished <==> err == Some(AlreadyExecuted)
      ensures old(status) == Pending ==>
                status == Running && submitted && callbacks == old(callbacks) + [PreExecute]
      ensures err.Some? ==> status == old(status) && submitted == old(submitted) && callbacks == old(callbacks)
      ensures Rank(old(status)) <= Rank(status)
      ensures cancelled == old(cancelled) && taskInvoked == old(taskInvoked) && listeners == old(listeners)
      ensures future == old(future) && workerReturned == old(workerReturned) && outbox == old(outbox)
    {
      if status != Pending {
        match status
        case Running =>
          return Some(AlreadyRunning);
        case Finished =>
          return Some(AlreadyExecuted);
      }
      status := Running;
      callbacks := callbacks + [PreExecute];
      submitted := true;
      err := None;
    }

    /** postResult: queue a result message for the main-thread handler. */
    method PostResult(result: Option<Value>)
      modifies this
      ensures claimed == old(claimed)
      ensures outbox == old(outbox) + [result] && posted == old(posted) + 1
      ensures status == old(status) && cancelled == old(cancelled) && taskInvoked == old(taskInvoked)
      ensures listeners == old(listeners) && future == old(future) && submitted == old(submitted)
      ensures workerReturned == old(workerReturned) && callbacks == old(callbacks)
      ensures workerPosted == old(workerPosted)
    {
      outbox := outbox + [result];
      posted := posted + 1;
    }

    /** postResultIfNotInvoked: post only if the worker never set taskInvoked. */
    method PostResultIfNotInvoked(result: Option<Value>)
      modifies this
      ensures claimed == old(claimed)
      ensures outbox == if taskInvoked then old(outbox) else old(outbox) + [result]
      ensures posted == if taskInvoked then old(posted) else old(posted) + 1
      ensures status == old(status) && cancelled == old(cancelled) && taskInvoked == old(taskInvoked)
      ensures listeners == old(listeners) && future == old(future) && submitted == old(submitted)
      ensures workerReturned == old(workerReturned) && callbacks == old(callbacks)
      ensures workerPosted == old(workerPosted)
    {
      if !taskInvoked {
        PostResult(result);
      }
    }

    /**
     * FutureTask.done(), run once when the future leaves the New state: a normal result or a
     * cancellation is passed to postResultIfNotInvoked (a cancelled future reads as null); a
     * failure is rethrown on the worker thread and posts nothing.
     */
    method Done()
      requires future != New
      modifies this
      ensures claimed == old(claimed)
      ensures outbox == match future
        case Completed(v) => if taskInvoked then old(outbox) else old(outbox) + [v]
        case Cancelled => if taskInvoked then old(outbox) else old(outbox) + [None]
        case _ => old(outbox)
      ensures posted == if future.Failed? || taskInvoked then old(posted) else old(posted) + 1
      ensures status == old(status) && cancelled == old(cancelled) && taskInvoked == old(taskInvoked)
      ensures listeners == old(listeners) && future == old(future) && submitted == old(submitted)
      ensures workerReturned == old(workerReturned) && callbacks == old(callbacks)
      ensures workerPosted == old(workerPosted)
    {
      match future
      case Completed(v) =>
        PostResultIfNotInvoked(v);
      case Cancelled =>
        PostResultIfNotInvoked(None);
      case Failed =>
    }

    /**
     * cancel: always sets the cancelled flag, then cancels the future, which succeeds (and runs
     * done()) only while the future has not completed. mayInterruptIfRunning only affects how
     * the worker's doInBackground ends, which WorkerReturn's argument already covers.
     */
    method Cancel(mayInterruptIfRunning: bool) returns (r: bool)
      modifies this
      ensures claimed == old(claimed)
      ensures old(Valid()) ==> Valid()
      ensures cancelled
      ensures r <==> old(future) == New
      ensures future == if r then Cancelled else old(future)
      ensures outbox == if r && !taskInvoked then old(outbox) + [None] else old(outbox)
      ensures status == old(status) && taskInvoked == old(taskInvoked) && listeners == old(listeners)
      ensures submitted == old(submitted) && workerReturned == old(workerReturned)
      ensures callbacks == old(callbacks)
      ensures CancelApplied(this)
    {
      cancelled := true;
      if future == New {
        future := Cancelled;
        Done();
        r := true;
      } else {
        r := false;
      }
    }

    /**
     * The executor runs the future: FutureTask.run goes ahead only while the future is still
     * New and no runner has claimed it, and the worker's call() begins by setting taskInvoked.
     * This event does both at once, so no cancel can land between them; it is the corrected
     * form of the two events WorkerClaim and WorkerCall below, and it keeps Valid().
     */
    method WorkerStart() returns (ran: bool)
      requires submitted
      modifies this
      ensures old(Valid()) ==> Valid()
      ensures ran <==> old(future) == New && !old(claimed)
      ensures claimed == (old(claimed) || ran) && taskInvoked == (old(taskInvoked) || ran)
      ensures status == old(status) && cancelled == old(cancelled) && listeners == old(listeners)
      ensures future == old(future) && submitted == old(submitted) && workerReturned == old(workerReturned)
      ensures outbox == old(outbox) && callbacks == old(callbacks)
    {
      ran := future == New && !claimed;
      if ran {
        claimed := true;
        taskInvoked := true;
      }
    }

    /**
     * As written, the start of the worker is two steps. First FutureTask.run checks that the
     * future is still New and claims it; nothing of the task itself changes yet.
     */
    method WorkerClaim() returns (claimedNow: bool)
      requires submitted
      modifies this
      ensures old(Valid()) ==> Valid()
      ensures claimedNow <==> old(future) == New && !old(claimed)
      ensures claimed == (old(claimed) || claimedNow)
      ensures status == old(status) && cancelled == old(cancelled) && taskInvoked == old(taskInvoked)
      ensures listeners == old(listeners) && future == old(future) && submitted == old(submitted)
      ensures workerReturned == old(workerReturned) && outbox == old(outbox) && callbacks == old(callbacks)
    {
      claimedNow := future == New && !claimed;
      if claimedNow {
        claimed := true;
      }
    }

    /**
     * Then the claimed worker's call() sets taskInvoked, whatever happened to the future in
     * between. A cancel between the two steps has already posted null through done(), and the
     * worker goes on to post its own result as well: see CancelBetweenClaimAndCall.
     */
    method WorkerCall()
      requires claimed && !taskInvoked
      modifies this
      ensures old(Valid()) && old(future) == New ==> Valid()
      ensures taskInvoked
      ensures claimed == old(claimed)
      ensures status == old(status) && cancelled == old(cancelled) && listeners == old(listeners)
      ensures future == old(future) && submitted == old(submitted) && workerReturned == old(workerReturned)
      ensures outbox == old(outbox) && callbacks == old(callbacks)
    {
      taskInvoked := true;
    }

    /**
     * doInBackground ends: when it returns, the worker posts the result itself (null too) and
     * the future completes normally; when it throws, nothing is posted and the future fails.
     * Either way the future only completes (and runs done()) if it was not cancelled meanwhile.
     */
    method WorkerReturn(outcome: Outcome)
      requires taskInvoked && !workerReturned
      modifies this
      ensures claimed == old(claimed)
      ensures old(Valid()) ==> Valid()
      ensures workerReturned
      ensures outbox == if outcome.Returned? then old(outbox) + [outcome.result] else old(outbox)
      ensures future == if old(future) != New then old(future)
                        else if outcome.Returned? then Completed(outcome.result) else Failed
      ensures status == old(status) && cancelled == old(cancelled) && taskInvoked == old(taskInvoked)
      ensures listeners == old(listeners) && submitted == old(submitted) && callbacks == old(callbacks)
    {
      workerReturned := true;
      if outcome.Returned? {
        PostResult(outcome.result);
        workerPosted := true;
      }
      if future == New {
        future := if outcome.Returned? then Completed(outcome.result) else Failed;
        Done();
      }
    }

    /**
     * The handler delivers the oldest posted message: finish calls onCancelled if the task is
     * cancelled and onPostExecute otherwise, then notifies the listeners registered at that
     * moment, and only then sets FINISHED.
     */
    method Finish() returns (result: Option<Value>)
      requires outbox != []
      modifies this
      ensures claimed == old(claimed)
      ensures old(Valid()) ==> Valid()
      ensures result == old(outbox[0]) && outbox == old(outbox[1..])
      ensures status == Finished
      ensures |callbacks| > |old(callbacks)|
      ensures callbacks[..|old(callbacks)| + 1] ==
                old(callbacks) + [if old(cancelled) then CancelledWith(result) else PostExecute(result)]
      ensures NotifiesEachOnce(callbacks[|old(callbacks)| + 1..], old(listeners))
      ensures cancelled == old(cancelled) && taskInvoked == old(taskInvoked) && listeners == old(listeners)
      ensures future == old(future) && submitted == old(submitted) && workerReturned == old(workerReturned)
    {
      result := outbox[0];
      outbox := outbox[1..];
      if cancelled {
        callbacks := callbacks + [CancelledWith(result)];
      } else {
        callbacks := callbacks + [PostExecute(result)];
      }
      NotifyListeners();
      status := Finished;
    }

    /** The loop of finish over the listener set: each listener's onFinished, once each. */
    method NotifyListeners()
      modifies this`callbacks
      ensures |callbacks| >= |old(callbacks)| && callbacks[..|old(callbacks)|] == old(callbacks)
      ensures NotifiesEachOnce(callbacks[|old(callbacks)|..], listeners)
    {
      ghost var notified: set<object> := {};
      var pending := listeners;
      while pending != {}
        invariant pending <= listeners && notified == listeners - pending
        invariant |callbacks| >= |old(callbacks)| && callbacks[..|old(callbacks)|] == old(callbacks)
        invariant NotifiesEachOnce(callbacks[|old(callbacks)|..], notified)
        decreases pending
      {
        var l :| l in pending;
        ghost var before := callbacks[|old(callbacks)|..];
        callbacks := callbacks + [ListenerNotified(l)];
        assert callbacks[|old(callbacks)|..] == before + [ListenerNotified(l)];
        pending := pending - {l};
        notified := notified + {l};
      }
    }

    method AddOnFinishedListener(listener: object)
      modifies this
      ensures claimed == old(claimed)
      ensures listeners == old(listeners) + {listener}
      ensures old(Valid()) ==> Valid()
      ensures status == old(status) && cancelled == old(cancelled) && taskInvoked == old(taskInvoked)
      ensures future == old(future) && submitted == old(submitted) && workerReturned == old(workerReturned)
      ensures outbox == old(outbox) && callbacks == old(callbacks)
    {
      listeners := listeners + {listener};
    }

    method RemoveOnFinishedListener(listener: object)
      modifies this
      ensures claimed == old(claimed)
      ensures listeners == old(listeners) - {listener}
      ensures old(Valid()) ==> Valid()
      ensures status == old(status) && cancelled == old(cancelled) && taskInvoked == old(taskInvoked)
      ensures future == old(future) && submitted == old(submitted) && workerReturned == old(workerReturned)
      ensures outbox == old(outbox) && callbacks == old(callbacks)
    {
      listeners := listeners - {listener};
    }
  }

  /** One cancel of `t` took place between the old state and this one, and kept Valid(). */
  twostate predicate CancelApplied(t: AsyncTaskEx)
    reads t
  {
    && CancelEffect(old(t.Fields()), t.Fields())
    && (old(t.Valid()) ==> t.Valid())
  }

  /** Cancel every task of `ts`, one at a time, as the for-loops over a task collection do. */
  method CancelEach(ts: set<AsyncTaskEx>, mayInterruptIfRunning: bool)
    modifies ts
    ensures forall t | t in ts :: CancelApplied(t)
  {
    var pending := ts;
    while pending != {}
      invariant pending <= ts
      invariant forall t | t in ts - pending :: CancelApplied(t)
      invariant forall t | t in pending :: unchanged(t)
      decreases pending
    {
      var t :| t in pending;
      var _ := t.Cancel(mayInterruptIfRunning);
      pending := pending - {t};
    }
  }

  /** The listeners that a callback log notifies. */
  function NotifiedListeners(cs: seq<Callback>): set<object> {
    if cs == [] then {}
    else (if cs[0].ListenerNotified? then {cs[0].listener} else {}) + NotifiedListeners(cs[1..])
  }

  lemma {:induction false} NotifiedListenersMember(cs: seq<Callback>, l: object)
    ensures l in NotifiedListeners(cs) <==> ListenerNotified(l) in cs
  {
    if cs != [] {
      NotifiedListenersMember(cs[1..], l);
      assert ListenerNotified(l) in cs <==> cs[0] == ListenerNotified(l) || ListenerNotified(l) in cs[1..];
    }
  }

  /** A log names at most as many listeners as it has entries, and fewer if one repeats. */
  lemma {:induction false} NotifiedListenersBound(cs: seq<Callback>)
    ensures |NotifiedListeners(cs)| <= |cs|
    ensures (exists i, j | 0 <= i < j < |cs| :: cs[i] == cs[j]) ==> |NotifiedListeners(cs)| < |cs|
  {
    if cs != [] {
      NotifiedListenersBound(cs[1..]);
      if exists i, j | 0 <= i < j < |cs| :: cs[i] == cs[j] {
        var i, j :| 0 <= i < j < |cs| && cs[i] == cs[j];
        if i == 0 {
          assert cs[1..][j - 1] == cs[0];
          if cs[0].ListenerNotified? {
            NotifiedListenersMember(cs[1..], cs[0].listener);
          }
        } else {
          assert cs[1..][i - 1] == cs[1..][j - 1];
        }
      }
    }
  }

  /**
   * What NotifyListeners promises means "every listener exactly once": no entry of the
   * notification log repeats another, and the log names exactly the listener set.
   */
  lemma NotifiesEachOnceHasNoRepeats(notes: seq<Callback>, ls: set<object>)
    requires NotifiesEachOnce(notes, ls)
    ensures NotifiedListeners(notes) == ls
    ensures forall i, j | 0 <= i < j < |notes| :: notes[i] != notes[j]
  {
    forall l | l in NotifiedListeners(notes) ensures l in ls {
      NotifiedListenersMember(notes, l);
      var i :| 0 <= i < |notes| && notes[i] == ListenerNotified(l);
    }
    forall l | l in ls ensures l in NotifiedListeners(notes) {
      NotifiedListenersMember(notes, l);
    }
    NotifiedListenersBound(notes);
  }

  /** With a single listener, notifying each once is exactly one notification of it. */
  lemma NotifiesOnlyListener(notes: seq<Callback>, l: object)
    requires NotifiesEachOnce(notes, {l})
    ensures notes == [ListenerNotified(l)]
  {
    assert |{l}| == 1;
  }

  /* Scenarios: sequences of events a caller can fire, with the callbacks they produce. */

  /**
   * Cancelled after submission but before the worker starts: the worker never runs, the one
   * posted result is null, and it reaches onCancelled.
   */
  method CancelBeforeWorkerStarts() returns (workerRan: bool, callbacks: seq<Callback>)
    ensures !workerRan
    ensures callbacks == [PreExecute, CancelledWith(None)]
  {
    var t := new AsyncTaskEx();
    var err := t.ExecuteOnExecutor();
    var cancelledFuture := t.Cancel(true);
    workerRan := t.WorkerStart();
    assert t.outbox == [None];
    var r := t.Finish();
    callbacks := t.callbacks;
  }

  /**
   * Cancelled while doInBackground runs: cancel succeeds but posts nothing, the worker posts
   * its value when it returns, and that value reaches onCancelled, not onPostExecute.
   */
  method CancelWhileRunning(v: Value) returns (cancelResult: bool, callbacks: seq<Callback>)
    ensures cancelResult
    ensures callbacks == [PreExecute, CancelledWith(Some(v))]
  {
    var t := new AsyncTaskEx();
    var err := t.ExecuteOnExecutor();
    var ran := t.WorkerStart();
    cancelResult := t.Cancel(false);
    assert t.outbox == [];
    t.WorkerReturn(Returned(Some(v)));
    assert t.outbox == [Some(v)];
    var r := t.Finish();
    callbacks := t.callbacks;
  }

  /**
   * Cancelled after doInBackground returned but before the result is delivered: cancel
   * returns false, yet only onCancelled runs, once.
   */
  method CancelAfterCompletion(v: Value) returns (cancelResult: bool, callbacks: seq<Callback>)
    ensures !cancelResult
    ensures callbacks == [PreExecute, CancelledWith(Some(v))]
  {
    var t := new AsyncTaskEx();
    var err := t.ExecuteOnExecutor();
    var ran := t.WorkerStart();
    t.WorkerReturn(Returned(Some(v)));
    cancelResult := t.Cancel(false);
    assert t.outbox == [Some(v)];
    var r := t.Finish();
    callbacks := t.callbacks;
  }

  /**
   * As written, a cancel can land after FutureTask.run has claimed the New future and before
   * call() sets taskInvoked: cancel succeeds and done() posts null, and the worker, once it
   * returns, posts its own value as well.
   */
  method CancelBetweenClaimAndCallPosts(v: Value, l: object) returns (t: AsyncTaskEx, cancelResult: bool)
    ensures fresh(t) && cancelResult
    ensures t.outbox == [None, Some(v)] && t.callbacks == [PreExecute]
    ensures t.cancelled && t.listeners == {l}
  {
    t := new AsyncTaskEx();
    t.AddOnFinishedListener(l);
    var err := t.ExecuteOnExecutor();
    var claimedNow := t.WorkerClaim();
    cancelResult := t.Cancel(true);
    t.WorkerCall();
    t.WorkerReturn(Returned(Some(v)));
  }

  /**
   * The two messages of that race are both delivered: the handler runs finish twice, so
   * onCancelled runs twice and every listener is notified twice. The merged WorkerStart event
   * rules this out.
   */
  method CancelBetweenClaimAndCall(v: Value, l: object)
    returns (cancelResult: bool, results: seq<Option<Value>>, callbacks: seq<Callback>)
    ensures cancelResult
    ensures results == [None, Some(v)]
    ensures callbacks == [PreExecute, CancelledWith(None), ListenerNotified(l),
                          CancelledWith(Some(v)), ListenerNotified(l)]
  {
    var t;
    t, cancelResult := CancelBetweenClaimAndCallPosts(v, l);
    var first := t.Finish();
    NotifiesOnlyListener(t.callbacks[2..], l);
    assert t.callbacks == t.callbacks[..2] + t.callbacks[2..];
    var second := t.Finish();
    NotifiesOnlyListener(t.callbacks[4..], l);
    assert t.callbacks == t.callbacks[..4] + t.callbacks[4..];
    results := [first, second];
    callbacks := t.callbacks;
  }

  /**
   * doInBackground may return null: the worker posts null itself, the future completes
   * normally with null, and finish calls onPostExecute(null), not onCancelled, and then sets
   * FINISHED.
   */
  method NullResultReachesPostExecute() returns (posted: seq<Option<Value>>, future: FutureState,
                                                 status: Status, callbacks: seq<Callback>)
    ensures posted == [None] && future == Completed(None) && status == Finished
    ensures callbacks == [PreExecute, PostExecute(None)]
  {
    var t := new AsyncTaskEx();
    var err := t.ExecuteOnExecutor();
    var ran := t.WorkerStart();
    t.WorkerReturn(Returned(None));
    posted := t.outbox;
    future := t.future;
    var r := t.Finish();
    status := t.status;
    callbacks := t.callbacks;
  }

  /** A task runs once: executing it again while running, or after it finished, fails. */
  method ExecuteTwice(v: Value) returns (first: Option<ExecuteError>, second: Option<ExecuteError>,
                                         afterFinish: Option<ExecuteError>, callbacks: seq<Callback>)
    ensures first == None && second == Some(AlreadyRunning) && afterFinish == Some(AlreadyExecuted)
    ensures callbacks == [PreExecute, PostExecute(Some(v))]
  {
    var t := new AsyncTaskEx();
    first := t.ExecuteOnExecutor();
    second := t.ExecuteOnExecutor();
    var ran := t.WorkerStart();
    t.WorkerReturn(Returned(Some(v)));
    var r := t.Finish();
    afterFinish := t.ExecuteOnExecutor();
    callbacks := t.callbacks;
  }
}
