/** The class UnityTask of UnityTools/Threading/UnityTask.cs: the task created
    without a worker thread, its settling operations, `Then`, `Notify` and the
    getter `Result`. Every method is proved to do what the matching function of
    TaskModel says, so the lemmas there hold of the class.

    A callback is called on the calling thread when the task has no dispatcher;
    such calls are appended to `fired`. With a dispatcher, each call is queued on
    it instead, one action per callback in the same order, and nothing runs on
    the calling thread. The wait handle that `Result` blocks on is left out:
    `Result` is read only once the task has finished. */
module UnityTasks {
  import opened Common
  import opened TaskModel
  import opened UnityDispatcherModel

  class UnityTask {
    /** `_dispatcher`, or null. */
    const dispatcher: UnityDispatcher?<Invocation>
    var finished: bool
    var succeeded: bool
    var result: Value
    var exception: Option<Exn>
    var successCallbacks: seq<CallbackId>
    var failureCallbacks: seq<CallbackId>
    var progressCallbacks: seq<CallbackId>
    var endCallbacks: seq<CallbackId>
    /** The callbacks this task has called on the calling thread, in order. */
    var fired: seq<Invocation>

    function State(): TaskState
      reads this
    {
      TaskState(finished, succeeded, result, exception,
                successCallbacks, failureCallbacks, progressCallbacks, endCallbacks)
    }

    predicate Valid()
      reads this
    {
      Consistent(State())
    }

    /** `UnityTask(dispatcher)`: a pending task with no callbacks. */
    constructor (dispatcher: UnityDispatcher?<Invocation>)
      ensures this.dispatcher == dispatcher && State() == Pending && fired == [] && Valid()
    {
      this.dispatcher := dispatcher;
      finished, succeeded, result, exception := false, false, Null, None;
      successCallbacks, failureCallbacks, progressCallbacks, endCallbacks := [], [], [], [];
      fired := [];
    }

    /** Between the two states, the calls `d` were made in order: on this
        thread if there is no dispatcher, otherwise by queuing them on the
        dispatcher and changing nothing else of it. */
    twostate predicate Delivered(d: seq<Invocation>)
      reads this, dispatcher
    {
      if dispatcher == null then fired == old(fired) + d
      else
        && fired == old(fired)
        && dispatcher.actions == old(dispatcher.actions) + d
        && dispatcher.waitHandles == old(dispatcher.waitHandles)
        && dispatcher.trace == old(dispatcher.trace)
        && dispatcher.instance == old(dispatcher.instance)
        && dispatcher.unityThreadId == old(dispatcher.unityThreadId)
    }

    /** The loop the source writes out for each kind of callback: call each one
        with `p`, or, if `CanDispatch`, queue the call on the dispatcher. */
    method Deliver(callbacks: seq<CallbackId>, p: Payload)
      modifies this`fired, dispatcher
      ensures Delivered(Calls(callbacks, p))
    {
      for i := 0 to |callbacks|
        invariant Delivered(Calls(callbacks[..i], p))
      {
        var call := Invoke(callbacks[i], p);
        if dispatcher != null {
          dispatcher.Dispatch(call);
        } else {
          fired := fired + [call];
        }
        assert Calls(callbacks[..i + 1], p) == Calls(callbacks[..i], p) + [call];
      }
      assert callbacks[..|callbacks|] == callbacks;
    }

    /** `FireEndCallbacks()`: call every end callback, in order. */
    method FireEndCallbacks()
      modifies this`fired, dispatcher
      ensures Delivered(Calls(endCallbacks, End))
    {
      Deliver(endCallbacks, End);
    }

    /** The getter `Result` on a finished task: the value it was resolved with,
        or the exception it was rejected with, which the getter rethrows. */
    function Result(): (r: Settlement)
      reads this
      requires Valid() && finished
      ensures Settled(State()) == Some(r)
    {
      if succeeded then Fulfilled(result) else Rejected(exception.value)
    }

    /** `Resolve(value)`. */
    method Resolve(value: Value) returns (outcome: Outcome)
      requires Valid()
      modifies this, dispatcher
      ensures Valid()
      ensures var st := TaskModel.Resolve(old(State()), value);
              State() == st.next && outcome == st.outcome && Delivered(st.delivered)
      ensures !old(finished) ==> Result() == Fulfilled(value)
      ensures old(finished) ==> outcome == Threw(InvalidOperation) && Result() == old(Result())
    {
      if finished {
        return Threw(InvalidOperation);
      }
      finished := true;
      result := value;
      succeeded := true;
      ghost var calls := Calls(successCallbacks, Fulfilment(value)) + Calls(endCallbacks, End);
      Deliver(successCallbacks, Fulfilment(value));
      assert dispatcher == null ==> fired == old(fired) + Calls(successCallbacks, Fulfilment(value));
      assert dispatcher != null ==> dispatcher.actions == old(dispatcher.actions) + Calls(successCallbacks, Fulfilment(value));
      FireEndCallbacks();
      assert dispatcher == null ==> fired == old(fired) + calls;
      assert dispatcher != null ==> dispatcher.actions == old(dispatcher.actions) + calls;
      outcome := Done;
    }

    /** `Reject(error)`. */
    method Reject(error: Exn) returns (outcome: Outcome)
      requires Valid()
      modifies this, dispatcher
      ensures Valid()
      ensures var st := TaskModel.Reject(old(State()), error);
              State() == st.next && outcome == st.outcome && Delivered(st.delivered)
      ensures !old(finished) ==> Result() == Rejected(error) && result == Null
      ensures old(finished) ==> outcome == Threw(InvalidOperation) && Result() == old(Result())
    {
      if finished {
        return Threw(InvalidOperation);
      }
      finished := true;
      result := Null;
      exception := Some(error);
      succeeded := false;
      ghost var calls := Calls(failureCallbacks, Failure(error)) + Calls(endCallbacks, End);
      Deliver(failureCallbacks, Failure(error));
      assert dispatcher == null ==> fired == old(fired) + Calls(failureCallbacks, Failure(error));
      assert dispatcher != null ==> dispatcher.actions == old(dispatcher.actions) + Calls(failureCallbacks, Failure(error));
      FireEndCallbacks();
      assert dispatcher == null ==> fired == old(fired) + calls;
      assert dispatcher != null ==> dispatcher.actions == old(dispatcher.actions) + calls;
      outcome := Done;
    }

    /** The first block of `Then`: a success callback runs now, with the
        stored value, if the task has succeeded, and is stored otherwise. */
    method AttachSuccess(onFulfilled: Option<CallbackId>)
      modifies this`successCallbacks, this`fired, dispatcher
      ensures successCallbacks == old(successCallbacks) + (if finished && succeeded then [] else Listed(onFulfilled))
      ensures Delivered(if onFulfilled.Some? && finished && succeeded
                        then [Invoke(onFulfilled.value, Fulfilment(result))] else [])
    {
      if onFulfilled.Some? {
        if finished && succeeded {
          Deliver([onFulfilled.value], Fulfilment(result));
        } else {
          successCallbacks := successCallbacks + [onFulfilled.value];
        }
      }
    }

    /** The second block of `Then`: a failure callback runs now, with the
        stored exception, if the task has failed, and is stored otherwise. */
    method AttachFailure(onFailure: Option<CallbackId>)
      requires Valid()
      modifies this`failureCallbacks, this`fired, dispatcher
      ensures failureCallbacks == old(failureCallbacks) + (if finished && !succeeded then [] else Listed(onFailure))
      ensures Delivered(if onFailure.Some? && finished && !succeeded
                        then [Invoke(onFailure.value, Failure(exception.value))] else [])
    {
      if onFailure.Some? {
        if finished && !succeeded {
          Deliver([onFailure.value], Failure(exception.value));
        } else {
          failureCallbacks := failureCallbacks + [onFailure.value];
        }
      }
    }

    /** The two blocks of `Then` that deal with an outcome, in order: what
        `TaskModel.Then` says of the success and failure callbacks. */
    method AttachOutcome(onFulfilled: Option<CallbackId>, onFailure: Option<CallbackId>)
      requires Valid()
      modifies this`successCallbacks, this`failureCallbacks, this`fired, dispatcher
      ensures var st := TaskModel.Then(old(State()), onFulfilled, onFailure, None, None);
              && successCallbacks == st.next.onSuccess && failureCallbacks == st.next.onFailure
              && Delivered(st.delivered)
    {
      ghost var now := if onFulfilled.Some? && finished && succeeded
                       then [Invoke(onFulfilled.value, Fulfilment(result))] else [];
      ghost var later := if onFailure.Some? && finished && !succeeded
                         then [Invoke(onFailure.value, Failure(exception.value))] else [];
      AttachSuccess(onFulfilled);
      AttachFailure(onFailure);
      assert dispatcher == null ==> fired == old(fired) + now + later;
      assert dispatcher != null ==> dispatcher.actions == old(dispatcher.actions) + now + later;
    }

    /** `Then(onFulfilled, onFailure, onProgress, onEnd)`, an absent callback
        being null. Returns the task itself, for chaining. */
    method Then(onFulfilled: Option<CallbackId>, onFailure: Option<CallbackId>,
                onProgress: Option<CallbackId>, onEnd: Option<CallbackId>) returns (task: UnityTask)
      requires Valid()
      modifies this`successCallbacks, this`failureCallbacks, this`progressCallbacks, this`endCallbacks
      modifies this`fired, dispatcher
      ensures task == this && Valid()
      ensures var st := TaskModel.Then(old(State()), onFulfilled, onFailure, onProgress, onEnd);
              State() == st.next && Delivered(st.delivered)
    {
      AttachOutcome(onFulfilled, onFailure);
      if onProgress.Some? {
        progressCallbacks := progressCallbacks + [onProgress.value];
      }
      if onEnd.Some? {
        endCallbacks := endCallbacks + [onEnd.value];
      }
      task := this;
    }

    /** `Notify(progress)`: call every progress callback with `progress`,
        whether or not the task has finished. */
    method Notify(progress: real)
      requires Valid()
      modifies this`fired, dispatcher
      ensures State() == old(State())
      ensures Delivered(TaskModel.Notify(old(State()), progress).delivered)
    {
      Deliver(progressCallbacks, Progress(progress));
    }
  }
}
