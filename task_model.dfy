/** The task (promise) of UnityTools/Threading/UnityTask.cs as a pure state
    machine. A state holds the four fields the class keeps (`_finished`,
    `_succeeded`, `_result`, `_exception`) and its four ordered callback lists.
    Callbacks are identifiers; calling one is an `Invocation` of that identifier
    with a payload. Every operation yields the next state, whether it threw, and
    the invocations it made, in order. The class in unity_task.dfy is proved to
    follow these functions; the lemmas at the end are about any sequence of
    operations. */
module TaskModel {
  import opened Common

  type CallbackId = nat

  /** The `object` a task resolves with: null, some opaque object, or the
      `object[]` the combinators resolve with. */
  datatype Value = Null | Object(id: nat) | Array(items: seq<Value>)

  /** The `Exception` a task is rejected with. */
  datatype Exn = Exn(id: nat)

  /** What a callback is called with. Progress is a `float` in the source; it is
      only passed along, never computed with. */
  datatype Payload = Fulfilment(value: Value) | Failure(error: Exn) | Progress(amount: real) | End

  datatype Invocation = Invoke(callback: CallbackId, payload: Payload)

  /** How a finished task ended. */
  datatype Settlement = Fulfilled(value: Value) | Rejected(error: Exn)

  datatype TaskState = TaskState(
    finished: bool,
    succeeded: bool,
    result: Value,
    exception: Option<Exn>,
    onSuccess: seq<CallbackId>,
    onFailure: seq<CallbackId>,
    onProgress: seq<CallbackId>,
    onEnd: seq<CallbackId>)

  /** The effect of one operation on a task. */
  datatype Step = Step(next: TaskState, outcome: Outcome, delivered: seq<Invocation>)

  /** A task as the constructor leaves it. */
  const Pending: TaskState := TaskState(false, false, Null, None, [], [], [], [])

  /** The relation between the four state fields that every operation keeps. */
  predicate Consistent(s: TaskState) {
    && (!s.finished ==> !s.succeeded && s.result == Null && s.exception == None)
    && (s.finished && s.succeeded ==> s.exception == None)
    && (s.finished && !s.succeeded ==> s.result == Null && s.exception.Some?)
  }

  /** How the task ended, if it has. */
  function Settled(s: TaskState): Option<Settlement>
    requires Consistent(s)
  {
    if !s.finished then None
    else if s.succeeded then Some(Fulfilled(s.result))
    else Some(Rejected(s.exception.value))
  }

  /** The payload a callback of the matching kind receives for a settlement. */
  function SettlementPayload(st: Settlement): Payload {
    match st
    case Fulfilled(v) => Fulfilment(v)
    case Rejected(e) => Failure(e)
  }

  /** Calling each callback of `callbacks`, in order, with `p`. */
  function Calls(callbacks: seq<CallbackId>, p: Payload): seq<Invocation> {
    seq(|callbacks|, i requires 0 <= i < |callbacks| => Invoke(callbacks[i], p))
  }

  /** The callback lists are those of `s`. */
  predicate SameCallbacks(s: TaskState, t: TaskState) {
    t.onSuccess == s.onSuccess && t.onFailure == s.onFailure &&
    t.onProgress == s.onProgress && t.onEnd == s.onEnd
  }

  function Listed(c: Option<CallbackId>): seq<CallbackId> {
    if c.Some? then [c.value] else []
  }

  /** `Resolve(value)`: UnityTools/Threading/UnityTask.cs:194-220 and
      FireEndCallbacks at 380-394. */
  function Resolve(s: TaskState, v: Value): (st: Step)
    requires Consistent(s)
    ensures Consistent(st.next) && SameCallbacks(s, st.next)
    ensures s.finished ==> st == Step(s, Threw(InvalidOperation), [])
    ensures !s.finished ==> st.outcome == Done && Settled(st.next) == Some(Fulfilled(v))
    ensures !s.finished ==>
              && |st.delivered| == |s.onSuccess| + |s.onEnd|
              && (forall i :: 0 <= i < |s.onSuccess| ==> st.delivered[i] == Invoke(s.onSuccess[i], Fulfilment(v)))
              && (forall i :: 0 <= i < |s.onEnd| ==> st.delivered[|s.onSuccess| + i] == Invoke(s.onEnd[i], End))
    ensures forall inv :: inv in st.delivered ==> !inv.payload.Failure?
  {
    if s.finished then Step(s, Threw(InvalidOperation), [])
    else
      Step(s.(finished := true, succeeded := true, result := v), Done,
           Calls(s.onSuccess, Fulfilment(v)) + Calls(s.onEnd, End))
  }

  /** `Reject(error)`: UnityTools/Threading/UnityTask.cs:160-188. */
  function Reject(s: TaskState, e: Exn): (st: Step)
    requires Consistent(s)
    ensures Consistent(st.next) && SameCallbacks(s, st.next)
    ensures s.finished ==> st == Step(s, Threw(InvalidOperation), [])
    ensures !s.finished ==> st.outcome == Done && Settled(st.next) == Some(Rejected(e)) && st.next.result == Null
    ensures !s.finished ==>
              && |st.delivered| == |s.onFailure| + |s.onEnd|
              && (forall i :: 0 <= i < |s.onFailure| ==> st.delivered[i] == Invoke(s.onFailure[i], Failure(e)))
              && (forall i :: 0 <= i < |s.onEnd| ==> st.delivered[|s.onFailure| + i] == Invoke(s.onEnd[i], End))
    ensures forall inv :: inv in st.delivered ==> !inv.payload.Fulfilment?
  {
    if s.finished then Step(s, Threw(InvalidOperation), [])
    else
      Step(s.(finished := true, succeeded := false, result := Null, exception := Some(e)), Done,
           Calls(s.onFailure, Failure(e)) + Calls(s.onEnd, End))
  }

  /** `Then(onFulfilled, onFailure, onProgress, onEnd)`, an absent callback being
      null: UnityTools/Threading/UnityTask.cs:230-281. */
  function Then(s: TaskState, onFulfilled: Option<CallbackId>, onFailure: Option<CallbackId>,
                onProgress: Option<CallbackId>, onEnd: Option<CallbackId>): (st: Step)
    requires Consistent(s)
    ensures Consistent(st.next) && st.outcome == Done && Settled(st.next) == Settled(s)
    // a callback for an outcome that has already happened runs now, with the stored outcome ...
    ensures st.delivered ==
              (if onFulfilled.Some? && s.finished && s.succeeded
               then [Invoke(onFulfilled.value, Fulfilment(s.result))] else []) +
              (if onFailure.Some? && s.finished && !s.succeeded
               then [Invoke(onFailure.value, Failure(s.exception.value))] else [])
    // ... and is otherwise stored
    ensures st.next.onSuccess == s.onSuccess + (if s.finished && s.succeeded then [] else Listed(onFulfilled))
    ensures st.next.onFailure == s.onFailure + (if s.finished && !s.succeeded then [] else Listed(onFailure))
    // progress and end callbacks are stored whatever the state
    ensures st.next.onProgress == s.onProgress + Listed(onProgress)
    ensures st.next.onEnd == s.onEnd + Listed(onEnd)
  {
    var fulfilNow := onFulfilled.Some? && s.finished && s.succeeded;
    var failNow := onFailure.Some? && s.finished && !s.succeeded;
    Step(s.(onSuccess := if fulfilNow then s.onSuccess else s.onSuccess + Listed(onFulfilled),
            onFailure := if failNow then s.onFailure else s.onFailure + Listed(onFailure),
            onProgress := s.onProgress + Listed(onProgress),
            onEnd := s.onEnd + Listed(onEnd)),
         Done,
         (if fulfilNow then [Invoke(onFulfilled.value, Fulfilment(s.result))] else []) +
         (if failNow then [Invoke(onFailure.value, Failure(s.exception.value))] else []))
  }

  /** `Notify(progress)`: UnityTools/Threading/UnityTask.cs:141-154. There is no
      check of `_finished`, so a settled task notifies as well. */
  function Notify(s: TaskState, p: real): (st: Step)
    requires Consistent(s)
    ensures st.next == s && st.outcome == Done
    ensures |st.delivered| == |s.onProgress|
    ensures forall i :: 0 <= i < |s.onProgress| ==> st.delivered[i] == Invoke(s.onProgress[i], Progress(p))
  {
    Step(s, Done, Calls(s.onProgress, Progress(p)))
  }

  // ---------------------------------------------------------------------------
  // Any sequence of operations on one task

  datatype Op =
    | ResolveOp(value: Value)
    | RejectOp(error: Exn)
    | ThenOp(onFulfilled: Option<CallbackId>, onFailure: Option<CallbackId>,
             onProgress: Option<CallbackId>, onEnd: Option<CallbackId>)
    | NotifyOp(progress: real)

  function Apply(s: TaskState, op: Op): (st: Step)
    requires Consistent(s)
    ensures Consistent(st.next)
  {
    match op
    case ResolveOp(v) => Resolve(s, v)
    case RejectOp(e) => Reject(s, e)
    case ThenOp(f, r, p, e) => Then(s, f, r, p, e)
    case NotifyOp(p) => Notify(s, p)
  }

  /** The final state, every invocation in order, and how many operations threw. */
  datatype Run = Run(final: TaskState, delivered: seq<Invocation>, faults: nat)

  function RunOps(s: TaskState, ops: seq<Op>): (r: Run)
    requires Consistent(s)
    ensures Consistent(r.final)
    decreases |ops|
  {
    if ops == [] then Run(s, [], 0)
    else
      var st := Apply(s, ops[0]);
      var rest := RunOps(st.next, ops[1..]);
      Run(rest.final, st.delivered + rest.delivered, (if st.outcome.Threw? then 1 else 0) + rest.faults)
  }

  predicate IsSettle(op: Op) {
    op.ResolveOp? || op.RejectOp?
  }

  function SettlementOf(op: Op): Settlement
    requires IsSettle(op)
  {
    if op.ResolveOp? then Fulfilled(op.value) else Rejected(op.error)
  }

  /** The first `Resolve` or `Reject` in `ops`, if any. */
  function FirstSettlement(ops: seq<Op>): Option<Settlement> {
    if ops == [] then None
    else if IsSettle(ops[0]) then Some(SettlementOf(ops[0]))
    else FirstSettlement(ops[1..])
  }

  function CountSettles(ops: seq<Op>): nat {
    if ops == [] then 0 else (if IsSettle(ops[0]) then 1 else 0) + CountSettles(ops[1..])
  }

  /** Once a task has finished, nothing changes how it ended: every later
      `Resolve` or `Reject` throws, and every callback that runs afterwards is
      either a progress callback or one that receives the stored outcome. In
      particular no end callback ever runs again, including one attached once
      `Resolve` or `Reject` has returned. */
  lemma {:induction false} SettledTaskIsFinal(s: TaskState, ops: seq<Op>)
    requires Consistent(s) && s.finished
    ensures var r := RunOps(s, ops);
            && Settled(r.final) == Settled(s)
            && r.faults == CountSettles(ops)
            && forall inv :: inv in r.delivered ==>
                 inv.payload.Progress? || inv.payload == SettlementPayload(Settled(s).value)
    decreases |ops|
  {
    if ops != [] {
      var st := Apply(s, ops[0]);
      SettledTaskIsFinal(st.next, ops[1..]);
    }
  }

  /** The outcome every consumer sees is that of the first settlement: the task
      ends as the first `Resolve` or `Reject` says, and every success or failure
      callback that ever runs, attached before or after, receives that outcome. */
  lemma {:induction false} FirstSettlementWins(s: TaskState, ops: seq<Op>)
    requires Consistent(s) && !s.finished
    ensures var r := RunOps(s, ops);
            && Settled(r.final) == FirstSettlement(ops)
            && forall inv :: inv in r.delivered && (inv.payload.Fulfilment? || inv.payload.Failure?) ==>
                 FirstSettlement(ops).Some? && inv.payload == SettlementPayload(FirstSettlement(ops).value)
    decreases |ops|
  {
    if ops != [] {
      var st := Apply(s, ops[0]);
      if IsSettle(ops[0]) {
        SettledTaskIsFinal(st.next, ops[1..]);
      } else {
        FirstSettlementWins(st.next, ops[1..]);
      }
    }
  }

  lemma CallsAppend(a: seq<CallbackId>, b: seq<CallbackId>, p: Payload)
    ensures Calls(a + b, p) == Calls(a, p) + Calls(b, p)
  {
  }

  /** Two operations in a row. */
  lemma RunTwo(s: TaskState, a: Op, b: Op)
    requires Consistent(s)
    ensures var first := Apply(s, a);
            var second := Apply(first.next, b);
            && RunOps(s, [a, b]).final == second.next
            && RunOps(s, [a, b]).delivered == first.delivered + second.delivered
  {
    var first := Apply(s, a);
    var second := Apply(first.next, b);
    assert [a, b][1..] == [b] && [b][1..] == [];
    assert RunOps(second.next, []) == Run(second.next, [], 0);
  }

  /** The calls made when a success callback is attached just before the task
      is resolved: it runs after the earlier success callbacks, before the end
      callbacks. */
  lemma AttachThenResolve(s: TaskState, c: CallbackId, v: Value)
    requires Consistent(s) && !s.finished
    ensures var r := RunOps(s, [ThenOp(Some(c), None, None, None), ResolveOp(v)]);
            && r.delivered == Calls(s.onSuccess, Fulfilment(v)) + [Invoke(c, Fulfilment(v))] + Calls(s.onEnd, End)
            && Settled(r.final) == Some(Fulfilled(v))
  {
    var t := Then(s, Some(c), None, None, None);
    assert t.delivered == [] && t.next.onSuccess == s.onSuccess + [c] && t.next.onEnd == s.onEnd;
    var u := Resolve(t.next, v);
    assert u.delivered == Calls(s.onSuccess + [c], Fulfilment(v)) + Calls(s.onEnd, End);
    RunTwo(s, ThenOp(Some(c), None, None, None), ResolveOp(v));
    assert RunOps(s, [ThenOp(Some(c), None, None, None), ResolveOp(v)]).delivered == u.delivered;
    CallsAppend(s.onSuccess, [c], Fulfilment(v));
    assert Calls([c], Fulfilment(v)) == [Invoke(c, Fulfilment(v))];
  }

  /** The calls made when a success callback is attached just after the task
      is resolved: it runs last, after the end callbacks. */
  lemma ResolveThenAttach(s: TaskState, c: CallbackId, v: Value)
    requires Consistent(s) && !s.finished
    ensures var r := RunOps(s, [ResolveOp(v), ThenOp(Some(c), None, None, None)]);
            && r.delivered == Calls(s.onSuccess, Fulfilment(v)) + Calls(s.onEnd, End) + [Invoke(c, Fulfilment(v))]
            && Settled(r.final) == Some(Fulfilled(v))
  {
    var t := Resolve(s, v);
    assert t.next.finished && t.next.succeeded && t.next.result == v;
    RunTwo(s, ResolveOp(v), ThenOp(Some(c), None, None, None));
  }

  /** The same for a failure callback attached just before `Reject`. */
  lemma AttachThenReject(s: TaskState, c: CallbackId, e: Exn)
    requires Consistent(s) && !s.finished
    ensures var r := RunOps(s, [ThenOp(None, Some(c), None, None), RejectOp(e)]);
            && r.delivered == Calls(s.onFailure, Failure(e)) + [Invoke(c, Failure(e))] + Calls(s.onEnd, End)
            && Settled(r.final) == Some(Rejected(e))
  {
    var t := Then(s, None, Some(c), None, None);
    assert t.delivered == [] && t.next.onFailure == s.onFailure + [c] && t.next.onEnd == s.onEnd;
    var u := Reject(t.next, e);
    assert u.delivered == Calls(s.onFailure + [c], Failure(e)) + Calls(s.onEnd, End);
    RunTwo(s, ThenOp(None, Some(c), None, None), RejectOp(e));
    assert RunOps(s, [ThenOp(None, Some(c), None, None), RejectOp(e)]).delivered == u.delivered;
    CallsAppend(s.onFailure, [c], Failure(e));
    assert Calls([c], Failure(e)) == [Invoke(c, Failure(e))];
  }

  /** The same for a failure callback attached just after `Reject`. */
  lemma RejectThenAttach(s: TaskState, c: CallbackId, e: Exn)
    requires Consistent(s) && !s.finished
    ensures var r := RunOps(s, [RejectOp(e), ThenOp(None, Some(c), None, None)]);
            && r.delivered == Calls(s.onFailure, Failure(e)) + Calls(s.onEnd, End) + [Invoke(c, Failure(e))]
            && Settled(r.final) == Some(Rejected(e))
  {
    var t := Reject(s, e);
    assert t.next.finished && !t.next.succeeded && t.next.exception == Some(e);
    RunTwo(s, RejectOp(e), ThenOp(None, Some(c), None, None));
  }

  /** `x` occurs once in `a + [x] + b` when it occurs in neither part, and moving
      it to the end changes no count. */
  lemma MovedToEnd<T>(a: seq<T>, x: T, b: seq<T>)
    requires x !in a && x !in b
    ensures multiset(a + [x] + b) == multiset(a + b + [x])
    ensures multiset(a + [x] + b)[x] == 1
  {
    assert multiset(a)[x] == 0 && multiset(b)[x] == 0;
  }

  /** Attaching a success callback before or after a task is resolved makes the
      same calls: the callback runs once with the resolved value either way, and
      only the moment differs. */
  lemma AttachBeforeOrAfterResolve(s: TaskState, c: CallbackId, v: Value)
    requires Consistent(s) && !s.finished && c !in s.onSuccess
    ensures var before := RunOps(s, [ThenOp(Some(c), None, None, None), ResolveOp(v)]);
            var after := RunOps(s, [ResolveOp(v), ThenOp(Some(c), None, None, None)]);
            && Settled(before.final) == Settled(after.final) == Some(Fulfilled(v))
            && multiset(before.delivered) == multiset(after.delivered)
            && multiset(before.delivered)[Invoke(c, Fulfilment(v))] == 1
  {
    AttachThenResolve(s, c, v);
    ResolveThenAttach(s, c, v);
    MovedToEnd(Calls(s.onSuccess, Fulfilment(v)), Invoke(c, Fulfilment(v)), Calls(s.onEnd, End));
  }

  /** Attaching a failure callback before or after a task is rejected makes the
      same calls. */
  lemma AttachBeforeOrAfterReject(s: TaskState, c: CallbackId, e: Exn)
    requires Consistent(s) && !s.finished && c !in s.onFailure
    ensures var before := RunOps(s, [ThenOp(None, Some(c), None, None), RejectOp(e)]);
            var after := RunOps(s, [RejectOp(e), ThenOp(None, Some(c), None, None)]);
            && Settled(before.final) == Settled(after.final) == Some(Rejected(e))
            && multiset(before.delivered) == multiset(after.delivered)
            && multiset(before.delivered)[Invoke(c, Failure(e))] == 1
  {
    AttachThenReject(s, c, e);
    RejectThenAttach(s, c, e);
    MovedToEnd(Calls(s.onFailure, Failure(e)), Invoke(c, Failure(e)), Calls(s.onEnd, End));
  }
}
