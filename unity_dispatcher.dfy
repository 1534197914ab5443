/** The dispatcher of UnityProject/Assets/UnityTools/Threading/UnityDispatcher.cs,
    the one a task can be given. Its queue, wait handles, instance and recorded
    thread id are static fields in the source, shared by every component of the
    type; here they are the fields of one object that stands for that static
    state. The lock around the lists is left out: each method below is one
    atomic step. */
module UnityDispatcherModel {
  import opened Common
  import opened ActionQueue

  class UnityDispatcher<A> {
    /** `_actions`: actions waiting for the next pump, in enqueue order. */
    var actions: seq<A>
    /** `_waitHandles`: one handle per blocked `DispatchWait` caller. */
    var waitHandles: seq<WaitHandle>
    /** `_instance`. */
    var instance: Component?
    /** `_unityThreadId`: the thread the queue is pumped on. */
    var unityThreadId: ThreadId
    /** What running actions has done so far, in order. */
    var trace: seq<Effect<A>>

    /** The static state before any component has woken up. */
    constructor ()
      ensures actions == [] && waitHandles == [] && instance == null
      ensures unityThreadId == 0 && trace == []
    {
      actions, waitHandles, instance, unityThreadId, trace := [], [], null, 0, [];
    }

    /** The getter `Instance`: throws until a component has woken up. */
    function Instance(): (r: Result<Component>)
      reads this
      ensures r.Err? <==> instance == null
      ensures r.Err? ==> r.fault == InvalidOperation
      ensures r.Ok? ==> r.value == instance
    {
      if instance == null then Err(InvalidOperation) else Ok(instance as Component)
    }

    /** `Dispatch(action)`: queue the action for the next pump. */
    method Dispatch(action: A)
      modifies this
      ensures actions == old(actions) + [action]
      ensures waitHandles == old(waitHandles) && trace == old(trace)
      ensures instance == old(instance) && unityThreadId == old(unityThreadId)
    {
      actions := actions + [action];
    }

    /** `DispatchWait(action)` called on thread `currentThread`. On the pump's
        own thread the action runs at once (waiting would never end); on any
        other thread it is queued together with a new unset handle, which the
        caller then waits on. */
    method DispatchWait(action: A, currentThread: ThreadId, throws: A -> bool) returns (w: WaitResult)
      modifies this
      ensures instance == old(instance) && unityThreadId == old(unityThreadId)
      ensures currentThread == unityThreadId ==>
                && w == RanInline(throws(action))
                && trace == old(trace) + [Ran(action)]
                && actions == old(actions) && waitHandles == old(waitHandles)
      ensures currentThread != unityThreadId ==>
                && w.Blocked? && fresh(w.handle) && !w.handle.signalled
                && actions == old(actions) + [action]
                && waitHandles == old(waitHandles) + [w.handle]
                && trace == old(trace)
    {
      if currentThread == unityThreadId {
        trace := trace + [Ran(action)];
        w := RanInline(throws(action));
      } else {
        actions := actions + [action];
        var handle := new WaitHandle();
        waitHandles := waitHandles + [handle];
        w := Blocked(handle);
      }
    }

    /** `PumpActionQueue()`: take the queue and the handles, leaving both empty
        (whatever is queued from now on waits for the next pump; an action
        here cannot itself dispatch); run the taken
        actions in order, logging the exception of any that throws and going
        on; then set every taken handle. */
    method PumpActionQueue(throws: A -> bool)
      modifies this, waitHandles
      ensures actions == [] && waitHandles == []
      ensures trace == old(trace) + PumpEffects(old(actions), old(waitHandles), throws)
      ensures forall h :: h in old(waitHandles) ==> h.signalled
      ensures instance == old(instance) && unityThreadId == old(unityThreadId)
    {
      var batch, handles := actions, waitHandles;
      actions, waitHandles := [], [];

      for i := 0 to |batch|
        invariant trace == old(trace) + RunEffects(batch[..i], throws)
        invariant actions == [] && waitHandles == []
        invariant instance == old(instance) && unityThreadId == old(unityThreadId)
      {
        var action := batch[i];
        assert batch[..i + 1][..i] == batch[..i];
        trace := trace + [Ran(action)];
        if throws(action) {
          trace := trace + [LoggedException(action)];
        }
      }
      assert batch[..|batch|] == batch;

      for j := 0 to |handles|
        invariant trace == old(trace) + RunEffects(batch, throws) + ReleaseEffects(handles[..j])
        invariant forall k :: 0 <= k < j ==> handles[k].signalled
        invariant actions == [] && waitHandles == []
        invariant instance == old(instance) && unityThreadId == old(unityThreadId)
      {
        handles[j].signalled := true;
        assert ReleaseEffects<A>(handles[..j + 1]) == ReleaseEffects<A>(handles[..j]) + [Released(handles[j])];
        trace := trace + [Released(handles[j])];
      }
      assert handles[..|handles|] == handles;
    }

    /** `Awake()` of component `component`, run on thread `currentThread`:
        record the thread and register the component unless one already is. */
    method Awake(component: Component, currentThread: ThreadId)
      modifies this
      ensures unityThreadId == currentThread
      ensures instance == if old(instance) == null then component else old(instance)
      ensures actions == old(actions) && waitHandles == old(waitHandles) && trace == old(trace)
    {
      unityThreadId := currentThread;
      if instance == null {
        instance := component;
      }
    }
  }
}
