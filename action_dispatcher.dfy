/** The older dispatcher of UnityTools/Threading/UnityDispatcher.cs, class
    `ActionDispatcher`. Every member of it is static; here its static fields are
    the fields of one object that stands for them. The queue discipline is that
    of UnityDispatcher (unity_dispatcher.dfy); the pump is called `Update` and a
    component is created on demand by `Instantiate`. The lock around the lists
    is left out: each method below is one atomic step. */
module ActionDispatcherModel {
  import opened ActionQueue

  class ActionDispatcher<A> {
    /** `_actions`: actions waiting for the next pump, in enqueue order. */
    var actions: seq<A>
    /** `_waitHandles`: one handle per blocked `DispatchWait` caller. */
    var waitHandles: seq<WaitHandle>
    /** `_instance`. */
    var instance: Component?
    /** `_unityThreadId`: the thread the queue is pumped on. */
    var unityThreadId: ThreadId
    /** What running actions has done so far, in order. */
    var trace: seq<Effect<A>>

    /** The static state before any component has woken up. */
    constructor ()
      ensures actions == [] && waitHandles == [] && instance == null
      ensures unityThreadId == 0 && trace == []
    {
      actions, waitHandles, instance, unityThreadId, trace := [], [], null, 0, [];
    }

    /** `Dispatch(action)`: queue the action for the next pump. */
    method Dispatch(action: A)
      modifies this
      ensures actions == old(actions) + [action]
      ensures waitHandles == old(waitHandles) && trace == old(trace)
      ensures instance == old(instance) && unityThreadId == old(unityThreadId)
    {
      actions := actions + [action];
    }

    /** `DispatchWait(action)` called on thread `currentThread`. On the pump's
        own thread the action runs at once (waiting would never end); on any
        other thread it is queued together with a new unset handle, which the
        caller then waits on. */
    method DispatchWait(action: A, currentThread: ThreadId, throws: A -> bool) returns (w: WaitResult)
      modifies this
      ensures instance == old(instance) && unityThreadId == old(unityThreadId)
      ensures currentThread == unityThreadId ==>
                && w == RanInline(throws(action))
                && trace == old(trace) + [Ran(action)]
                && actions == old(actions) && waitHandles == old(waitHandles)
      ensures currentThread != unityThreadId ==>
                && w.Blocked? && fresh(w.handle) && !w.handle.signalled
                && actions == old(actions) + [action]
                && waitHandles == old(waitHandles) + [w.handle]
                && trace == old(trace)
    {
      if currentThread == unityThreadId {
        trace := trace + [Ran(action)];
        w := RanInline(throws(action));
      } else {
        actions := actions + [action];
        var handle := new WaitHandle();
        waitHandles := waitHandles + [handle];
        w := Blocked(handle);
      }
    }

    /** `Update()`, run by the engine once per frame: take the queue and the handles, leaving both empty
        (whatever is queued from now on waits for the next pump; an action
        here cannot itself dispatch); run the taken
        actions in order, logging the exception of any that throws and going
        on; then set every taken handle. */
    method Update(throws: A -> bool)
      modifies this, waitHandles
      ensures actions == [] && waitHandles == []
      ensures trace == old(trace) + PumpEffects(old(actions), old(waitHandles), throws)
      ensures forall h :: h in old(waitHandles) ==> h.signalled
      ensures instance == old(instance) && unityThreadId == old(unityThreadId)
    {
      var batch, handles := actions, waitHandles;
      actions, waitHandles := [], [];

      for i := 0 to |batch|
        invariant trace == old(trace) + RunEffects(batch[..i], throws)
        invariant actions == [] && waitHandles == []
        invariant instance == old(instance) && unityThreadId == old(unityThreadId)
      {
        var action := batch[i];
        assert batch[..i + 1][..i] == batch[..i];
        trace := trace + [Ran(action)];
        if throws(action) {
          trace := trace + [LoggedException(action)];
        }
      }
      assert batch[..|batch|] == batch;

      for j := 0 to |handles|
        invariant trace == old(trace) + RunEffects(batch, throws) + ReleaseEffects(handles[..j])
        invariant forall k :: 0 <= k < j ==> handles[k].signalled
        invariant actions == [] && waitHandles == []
        invariant instance == old(instance) && unityThreadId == old(unityThreadId)
      {
        handles[j].signalled := true;
        assert ReleaseEffects<A>(handles[..j + 1]) == ReleaseEffects<A>(handles[..j]) + [Released(handles[j])];
        trace := trace + [Released(handles[j])];
      }
      assert handles[..|handles|] == handles;
    }

    /** `Instantiate()`, called on thread `currentThread`: unless a component
        is registered, create one on a new game object. Adding the component
        makes the engine run its `Awake` at once, on the same thread, which
        records that thread and registers the component. */
    method Instantiate(currentThread: ThreadId)
      modifies this
      ensures old(instance) == null ==> fresh(instance) && unityThreadId == currentThread
      ensures old(instance) != null ==> instance == old(instance) && unityThreadId == old(unityThreadId)
      ensures actions == old(actions) && waitHandles == old(waitHandles) && trace == old(trace)
    {
      if instance == null {
        var component := new Component();
        Awake(component, currentThread);
        instance := component;
      }
    }

    /** `Awake()` of component `component`, run on thread `currentThread`:
        record the thread and register the component unless one already is. */
    method Awake(component: Component, currentThread: ThreadId)
      modifies this
      ensures unityThreadId == currentThread
      ensures instance == if old(instance) == null then component else old(instance)
      ensures actions == old(actions) && waitHandles == old(waitHandles) && trace == old(trace)
    {
      unityThreadId := currentThread;
      if instance == null {
        instance := component;
      }
    }
  }
}
