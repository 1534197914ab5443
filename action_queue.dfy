/** What the two action dispatchers have in common: the wait handles a blocked
    producer waits on, the engine components that register as the dispatcher,
    and what one pump of the queue does, as a function of the batch it took.

    Running an action is observable only through the effects it leaves in a
    trace: the action ran, its exception was logged (Debug.LogException), or a
    wait handle was released. Whether an action throws is decided by the world
    outside the model and is passed in as `throws`. */
module ActionQueue {

  /** An `EventWaitHandle` created unset (manual reset); `signalled` is whether
      `Set()` has been called, which is what releases the thread waiting on it. */
  class WaitHandle {
    var signalled: bool

    constructor ()
      ensures !signalled
    {
      signalled := false;
    }
  }

  /** An engine component (a MonoBehaviour instance) of the dispatcher type. */
  class Component {
    constructor () {}
  }

  type ThreadId = int

  /** How a `DispatchWait` call ends: the action ran at once on the calling
      thread (and threw to the caller, or not), or the caller is blocked on a new
      handle until a pump sets it. */
  datatype WaitResult = RanInline(threw: bool) | Blocked(handle: WaitHandle)

  datatype Effect<A> =
    | Ran(action: A)
    | LoggedException(action: A)
    | Released(handle: WaitHandle)

  /** Running `batch` in order, each action inside its own try/catch: every
      action runs, and one that throws has its exception logged right after it
      and does not stop the rest. */
  function RunEffects<A>(batch: seq<A>, throws: A -> bool): (r: seq<Effect<A>>)
    ensures forall e :: e in r ==> !e.Released?
    decreases |batch|
  {
    if batch == [] then []
    else
      var last := batch[|batch| - 1];
      RunEffects(batch[..|batch| - 1], throws) + [Ran(last)] +
      (if throws(last) then [LoggedException(last)] else [])
  }

  /** Setting every handle of `handles`, in order. */
  function ReleaseEffects<A>(handles: seq<WaitHandle>): seq<Effect<A>> {
    seq(|handles|, i requires 0 <= i < |handles| => Released(handles[i]))
  }

  /** One pump: the actions of the batch, then the handles of the batch. */
  function PumpEffects<A>(batch: seq<A>, handles: seq<WaitHandle>, throws: A -> bool): seq<Effect<A>> {
    RunEffects(batch, throws) + ReleaseEffects(handles)
  }

  /** The actions a trace shows as run, in order. */
  function RanActions<A>(t: seq<Effect<A>>): seq<A> {
    if t == [] then []
    else RanActions(t[..|t| - 1]) + (if t[|t| - 1].Ran? then [t[|t| - 1].action] else [])
  }

  /** The actions whose exception a trace shows as logged, in order. */
  function LoggedActions<A>(t: seq<Effect<A>>): seq<A> {
    if t == [] then []
    else LoggedActions(t[..|t| - 1]) + (if t[|t| - 1].LoggedException? then [t[|t| - 1].action] else [])
  }

  /** The actions of `batch` that throw, in order. */
  function Throwing<A>(batch: seq<A>, throws: A -> bool): seq<A> {
    if batch == [] then []
    else Throwing(batch[..|batch| - 1], throws) + (if throws(batch[|batch| - 1]) then [batch[|batch| - 1]] else [])
  }

  lemma {:induction false} RanActionsAppend<A>(t: seq<Effect<A>>, u: seq<Effect<A>>)
    ensures RanActions(t + u) == RanActions(t) + RanActions(u)
    ensures LoggedActions(t + u) == LoggedActions(t) + LoggedActions(u)
    decreases |u|
  {
    if u == [] {
      assert t + u == t;
    } else {
      assert (t + u)[..|t + u| - 1] == t + u[..|u| - 1];
      assert (t + u)[|t + u| - 1] == u[|u| - 1];
      RanActionsAppend(t, u[..|u| - 1]);
    }
  }

  /** The effects of running one action, seen through RanActions and
      LoggedActions. */
  lemma OneActionEffects<A>(last: A, threw: bool)
    ensures var tail: seq<Effect<A>> := [Ran(last)] + (if threw then [LoggedException(last)] else []);
            && RanActions(tail) == [last]
            && LoggedActions(tail) == (if threw then [last] else [])
  {
    var one: seq<Effect<A>> := [Ran(last)];
    assert one[..0] == [];
    assert RanActions(one) == [last] && LoggedActions(one) == [];
    var tail: seq<Effect<A>> := one + (if threw then [LoggedException(last)] else []);
    if threw {
      assert tail[..1] == one;
    } else {
      assert tail == one;
    }
  }

  /** One action that throws stops nothing: the trace of running a batch shows
      every action of the batch run, in enqueue order, and the exceptions of
      exactly the throwing ones logged, in the same order. */
  lemma {:induction false} RunEffectsRunsEverything<A>(batch: seq<A>, throws: A -> bool)
    ensures RanActions(RunEffects(batch, throws)) == batch
    ensures LoggedActions(RunEffects(batch, throws)) == Throwing(batch, throws)
    decreases |batch|
  {
    if batch != [] {
      var last := batch[|batch| - 1];
      var front := batch[..|batch| - 1];
      var tail := [Ran(last)] + (if throws(last) then [LoggedException(last)] else []);
      RunEffectsRunsEverything(front, throws);
      assert RunEffects(batch, throws) == RunEffects(front, throws) + tail;
      RanActionsAppend(RunEffects(front, throws), tail);
      OneActionEffects(last, throws(last));
      assert front + [last] == batch;
    }
  }

  /** In one pump every handle of the batch is released, and none before every
      action of the batch has run. */
  lemma ReleasedAfterEveryAction<A>(batch: seq<A>, handles: seq<WaitHandle>, throws: A -> bool)
    ensures var t := PumpEffects(batch, handles, throws);
            && (forall h :: h in handles ==> Released(h) in t)
            && (forall i, j :: 0 <= i < j < |t| && t[j].Ran? ==> !t[i].Released?)
  {
    var t := PumpEffects(batch, handles, throws);
    var runs := RunEffects(batch, throws);
    forall i, j | 0 <= i < j < |t| && t[j].Ran?
      ensures !t[i].Released?
    {
      assert j < |runs|;
      assert t[i] == runs[i];
      assert runs[i] in runs;
    }
    forall h | h in handles
      ensures Released(h) in t
    {
      var k :| 0 <= k < |handles| && handles[k] == h;
      assert t[|runs| + k] == Released(h);
    }
  }
}
