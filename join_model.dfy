/** The two combinators of UnityTools/Threading/UnityTask.cs, `All` (lines
    288-324) and `AllSequential` (lines 332-374), as pure state machines over
    the state their closures share.

    The closures each combinator attaches to its input tasks are its handlers.
    An input task that settles calls one of them, for its own index; that call
    is a `JoinEvent`. Each input task settles at most once, so each index is
    reported at most once (`Distinct`). The combined task is a TaskModel state
    that the handlers resolve or reject; a handler that settles it a second
    time meets the InvalidOperationException of `Resolve`/`Reject`, which is
    counted as a fault of the run. */
module JoinModel {
  import opened Common
  import opened TaskModel

  /** An input task reporting to the combinator: its `onFulfilled` or its
      `onFailure` handler was called. */
  datatype JoinEvent = InputFulfilled(index: nat, value: Value) | InputFailed(index: nat, error: Exn)

  /** One handler call: the next shared state, whether the handler threw, and
      the callbacks of the combined task it called. */
  datatype JoinStep<S> = JoinStep(next: S, outcome: Outcome, delivered: seq<Invocation>)

  /** A fresh `object[n]`. */
  function Nulls(n: nat): (r: seq<Value>)
    ensures |r| == n && forall i :: 0 <= i < n ==> r[i] == Null
  {
    seq(n, _ => Null)
  }

  /** Every event comes from one of the `n` handlers. */
  predicate Indexed(n: nat, evs: seq<JoinEvent>) {
    forall k :: 0 <= k < |evs| ==> evs[k].index < n
  }

  /** No index is reported twice. */
  predicate Distinct(evs: seq<JoinEvent>) {
    forall j, k :: 0 <= j < k < |evs| ==> evs[j].index != evs[k].index
  }

  /** Input `i` has not reported in `evs`. */
  predicate Unreported(evs: seq<JoinEvent>, i: nat) {
    forall k :: 0 <= k < |evs| ==> evs[k].index != i
  }

  predicate NoFailure(evs: seq<JoinEvent>) {
    forall k :: 0 <= k < |evs| ==> evs[k].InputFulfilled?
  }

  /** The number of failure reports in `evs`. */
  function Failures(evs: seq<JoinEvent>): nat {
    if evs == [] then 0
    else Failures(evs[..|evs| - 1]) + (if evs[|evs| - 1].InputFailed? then 1 else 0)
  }

  /** The indices reported in `evs`. */
  function Indices(evs: seq<JoinEvent>): set<nat> {
    if evs == [] then {} else Indices(evs[..|evs| - 1]) + {evs[|evs| - 1].index}
  }

  function Below(n: nat): (r: set<nat>)
    ensures forall i: nat :: i in r <==> i < n
  {
    if n == 0 then {} else Below(n - 1) + {n - 1}
  }

  lemma {:induction false} BelowSize(n: nat)
    ensures |Below(n)| == n
  {
    if n > 0 {
      BelowSize(n - 1);
      assert n - 1 !in Below(n - 1);
    }
  }

  /** The indices of `evs` are the inputs that have reported. */
  lemma {:induction false} IndicesReported(evs: seq<JoinEvent>)
    ensures forall i :: i in Indices(evs) <==> !Unreported(evs, i)
  {
    if evs != [] {
      var front := evs[..|evs| - 1];
      IndicesReported(front);
      assert !Unreported(evs, evs[|evs| - 1].index);
      forall i ensures i in Indices(evs) <==> !Unreported(evs, i) {
        if !Unreported(front, i) {
          var k :| 0 <= k < |front| && front[k].index == i;
          assert evs[k].index == i;
        }
      }
    }
  }

  lemma {:induction false} IndicesSize(evs: seq<JoinEvent>)
    requires Distinct(evs)
    ensures |Indices(evs)| == |evs|
  {
    if evs != [] {
      var front := evs[..|evs| - 1];
      assert Distinct(front);
      IndicesSize(front);
      IndicesReported(front);
      assert Unreported(front, evs[|evs| - 1].index);
    }
  }

  /** Distinct reports from `n` handlers are at most `n`. */
  lemma DistinctBound(n: nat, evs: seq<JoinEvent>)
    requires Indexed(n, evs) && Distinct(evs)
    ensures |evs| <= n
  {
    IndicesSize(evs);
    IndicesReported(evs);
    BelowSize(n);
    forall i | i in Indices(evs) ensures i in Below(n) {
      var k :| 0 <= k < |evs| && evs[k].index == i;
    }
    SubsetSize(Indices(evs), Below(n));
  }

  lemma {:induction false} SubsetSize(a: set<nat>, b: set<nat>)
    requires a <= b
    ensures |a| <= |b|
    decreases |a|
  {
    if a != {} {
      var x :| x in a;
      SubsetSize(a - {x}, b - {x});
    }
  }

  // ---------------------------------------------------------------------------
  // All

  /** The locals the closures of `All` share, and the combined task. */
  datatype AllState = AllState(
    activeTaskCount: int,
    taskResults: seq<Value>,
    tasksSucceeding: bool,
    combined: TaskState)

  /** `All(tasks)` before any input reports, for `n` input tasks. */
  function AllStart(n: nat): AllState {
    AllState(n, Nulls(n), true, Pending)
  }

  /** The `onFulfilled` handler of input `i` (lines 301-314). */
  function AllOnFulfilled(s: AllState, i: nat, v: Value): (st: JoinStep<AllState>)
    requires Consistent(s.combined) && i < |s.taskResults|
    ensures Consistent(st.next.combined) && |st.next.taskResults| == |s.taskResults|
  {
    if !s.tasksSucceeding then JoinStep(s, Done, [])
    else
      var results := s.taskResults[i := v];
      var active := s.activeTaskCount - 1;
      if active == 0 then
        var r := TaskModel.Resolve(s.combined, Array(results));
        JoinStep(AllState(active, results, true, r.next), r.outcome, r.delivered)
      else
        JoinStep(AllState(active, results, true, s.combined), Done, [])
  }

  /** The `onFailure` handler of any input (lines 315-319). */
  function AllOnFailure(s: AllState, e: Exn): (st: JoinStep<AllState>)
    requires Consistent(s.combined)
    ensures Consistent(st.next.combined) && st.next.taskResults == s.taskResults
  {
    var r := TaskModel.Reject(s.combined, e);
    JoinStep(s.(tasksSucceeding := false, combined := r.next), r.outcome, r.delivered)
  }

  function AllHandle(s: AllState, ev: JoinEvent): (st: JoinStep<AllState>)
    requires Consistent(s.combined) && ev.index < |s.taskResults|
    ensures Consistent(st.next.combined) && |st.next.taskResults| == |s.taskResults|
  {
    match ev
    case InputFulfilled(i, v) => AllOnFulfilled(s, i, v)
    case InputFailed(_, e) => AllOnFailure(s, e)
  }

  /** The final shared state after a run of reports, and how many handlers threw. */
  datatype JoinRun<S> = JoinRun(state: S, faults: nat)

  function RunAll(n: nat, evs: seq<JoinEvent>): (r: JoinRun<AllState>)
    requires Indexed(n, evs)
    ensures |r.state.taskResults| == n && Consistent(r.state.combined)
    decreases |evs|
  {
    if evs == [] then JoinRun(AllStart(n), 0)
    else
      var prev := RunAll(n, evs[..|evs| - 1]);
      var st := AllHandle(prev.state, evs[|evs| - 1]);
      JoinRun(st.next, prev.faults + (if st.outcome.Threw? then 1 else 0))
  }

  /** While every input that has reported succeeded: each result sits at its
      input's index whatever the order of the reports, the count of inputs
      still pending is exact, and the combined task is resolved with the
      results exactly when every input has reported, and there is at least
      one. With no input at all it never settles. No handler throws. */
  lemma {:induction false} AllWhileSucceeding(n: nat, evs: seq<JoinEvent>)
    requires Indexed(n, evs) && Distinct(evs) && NoFailure(evs)
    ensures var s := RunAll(n, evs).state;
            && s.tasksSucceeding
            && s.activeTaskCount == n - |evs|
            && (forall k :: 0 <= k < |evs| ==> s.taskResults[evs[k].index] == evs[k].value)
            && (forall i :: 0 <= i < n && Unreported(evs, i) ==> s.taskResults[i] == Null)
            && Settled(s.combined) == (if 0 < n == |evs| then Some(Fulfilled(Array(s.taskResults))) else None)
            && RunAll(n, evs).faults == 0
    decreases |evs|
  {
    if evs != [] {
      var m := |evs| - 1;
      var front := evs[..m];
      var last := evs[m];
      assert Indexed(n, front) && Distinct(front) && NoFailure(front);
      AllWhileSucceeding(n, front);
      DistinctBound(n, evs);
      var s := RunAll(n, evs).state;
      var p := RunAll(n, front).state;
      assert Unreported(front, last.index);
      assert s.taskResults == p.taskResults[last.index := last.value];
      forall i | 0 <= i < n && Unreported(evs, i) ensures s.taskResults[i] == Null {
        assert Unreported(front, i);
      }
      forall k | 0 <= k < |evs| ensures s.taskResults[evs[k].index] == evs[k].value {
        if k < m {
          assert front[k] == evs[k];
        }
      }
    }
  }

  /** Once an input has failed: the combined task is rejected with the error of
      the FIRST failure, later successes are ignored, and every later failure
      makes its handler throw, since it rejects a finished task. */
  lemma {:induction false} AllAfterFailure(n: nat, evs: seq<JoinEvent>, f: nat)
    requires Indexed(n, evs) && Distinct(evs)
    requires f < |evs| && evs[f].InputFailed? && NoFailure(evs[..f])
    ensures var s := RunAll(n, evs).state;
            && !s.tasksSucceeding
            && Settled(s.combined) == Some(Rejected(evs[f].error))
            && RunAll(n, evs).faults == Failures(evs[f + 1..])
    decreases |evs|
  {
    var m := |evs| - 1;
    var front := evs[..m];
    assert Indexed(n, front) && Distinct(front);
    if m == f {
      assert NoFailure(front) && evs[f + 1..] == [];
      AllWhileSucceeding(n, front);
      DistinctBound(n, evs);
    } else {
      assert front[..f] == evs[..f];
      AllAfterFailure(n, front, f);
      assert evs[f + 1..][..|evs[f + 1..]| - 1] == front[f + 1..];
    }
  }

  /** The combined result does not depend on the order in which the inputs
      report: the same successful reports in any order give the same
      combined settlement. */
  lemma AllIndependentOfOrder(n: nat, evs1: seq<JoinEvent>, evs2: seq<JoinEvent>)
    requires Indexed(n, evs1) && Distinct(evs1) && NoFailure(evs1)
    requires Indexed(n, evs2) && Distinct(evs2) && NoFailure(evs2)
    requires multiset(evs1) == multiset(evs2)
    ensures RunAll(n, evs1).state.taskResults == RunAll(n, evs2).state.taskResults
    ensures Settled(RunAll(n, evs1).state.combined) == Settled(RunAll(n, evs2).state.combined)
  {
    AllWhileSucceeding(n, evs1);
    AllWhileSucceeding(n, evs2);
    var r1 := RunAll(n, evs1).state.taskResults;
    var r2 := RunAll(n, evs2).state.taskResults;
    assert |evs1| == |multiset(evs1)| == |multiset(evs2)| == |evs2|;
    forall i | 0 <= i < n ensures r1[i] == r2[i] {
      if !Unreported(evs1, i) {
        var k :| 0 <= k < |evs1| && evs1[k].index == i;
        assert evs1[k] in multiset(evs2);
        var j :| 0 <= j < |evs2| && evs2[j] == evs1[k];
      } else {
        forall j | 0 <= j < |evs2| ensures evs2[j].index != i {
          assert evs2[j] in multiset(evs1);
          var k :| 0 <= k < |evs1| && evs1[k] == evs2[j];
        }
      }
    }
  }

  // ---------------------------------------------------------------------------
  // AllSequential

  /** The locals the closures of `AllSequential` share: the results, the
      factories called so far (each call starts one input task), and the
      combined task. `sequentialActions.Count` is `|taskResults|`. */
  datatype SeqState = SeqState(taskResults: seq<Value>, started: seq<nat>, combined: TaskState)

  /** `AllSequential(tasks)` for `n` factories: it calls `sequentialActions[0]`,
      which starts the first input; with no factory that index is out of range. */
  function SeqStart(n: nat): (r: Result<SeqState>)
    ensures n == 0 <==> r == Err(ArgumentOutOfRange)
    ensures n > 0 ==> r.Ok? && r.value.started == [0] && r.value.combined == Pending
  {
    if n == 0 then Err(ArgumentOutOfRange)
    else Ok(SeqState(Nulls(n), [0], Pending))
  }

  /** The `onFulfilled` handler of input `i` (lines 349-362): store the result,
      then resolve the combined task if `i` is the last input, or start input
      `i + 1` otherwise. */
  function SeqOnFulfilled(s: SeqState, i: nat, v: Value): (st: JoinStep<SeqState>)
    requires Consistent(s.combined) && i < |s.taskResults|
    ensures Consistent(st.next.combined) && |st.next.taskResults| == |s.taskResults|
  {
    var results := s.taskResults[i := v];
    if i == |s.taskResults| - 1 then
      var r := TaskModel.Resolve(s.combined, Array(results));
      JoinStep(s.(taskResults := results, combined := r.next), r.outcome, r.delivered)
    else
      JoinStep(s.(taskResults := results, started := s.started + [i + 1]), Done, [])
  }

  /** The `onFailure` handler of any input (lines 363-366). */
  function SeqOnFailure(s: SeqState, e: Exn): (st: JoinStep<SeqState>)
    requires Consistent(s.combined)
    ensures Consistent(st.next.combined) && st.next.taskResults == s.taskResults
  {
    var r := TaskModel.Reject(s.combined, e);
    JoinStep(s.(combined := r.next), r.outcome, r.delivered)
  }

  function SeqHandle(s: SeqState, ev: JoinEvent): (st: JoinStep<SeqState>)
    requires Consistent(s.combined) && ev.index < |s.taskResults|
    ensures Consistent(st.next.combined) && |st.next.taskResults| == |s.taskResults|
  {
    match ev
    case InputFulfilled(i, v) => SeqOnFulfilled(s, i, v)
    case InputFailed(_, e) => SeqOnFailure(s, e)
  }

  function RunSeq(n: nat, evs: seq<JoinEvent>): (r: JoinRun<SeqState>)
    requires n > 0 && Indexed(n, evs)
    ensures |r.state.taskResults| == n && Consistent(r.state.combined)
    decreases |evs|
  {
    if evs == [] then JoinRun(SeqStart(n).value, 0)
    else
      var prev := RunSeq(n, evs[..|evs| - 1]);
      var st := SeqHandle(prev.state, evs[|evs| - 1]);
      JoinRun(st.next, prev.faults + (if st.outcome.Threw? then 1 else 0))
  }

  /** A run that can happen: only a started input reports, and only once. */
  predicate Admissible(n: nat, evs: seq<JoinEvent>)
    requires n > 0 && Indexed(n, evs)
  {
    forall k :: 0 <= k < |evs| ==>
      assert Indexed(n, evs[..k]);
      evs[k].index in RunSeq(n, evs[..k]).state.started && Unreported(evs[..k], evs[k].index)
  }

  function Min(a: nat, b: nat): nat {
    if a < b then a else b
  }

  /** What a sequential run looks like after the reports `evs`. */
  predicate SeqShape(n: nat, evs: seq<JoinEvent>, r: JoinRun<SeqState>)
    requires |r.state.taskResults| == n && Consistent(r.state.combined)
  {
    var s := r.state;
    && |evs| <= n
    && (forall k :: 0 <= k < |evs| ==> evs[k].index == k)
    && (forall k :: 0 <= k < |evs| - 1 ==> evs[k].InputFulfilled?)
    && (forall k :: 0 <= k < |evs| && evs[k].InputFulfilled? ==> s.taskResults[k] == evs[k].value)
    && (forall i :: |evs| <= i < n ==> s.taskResults[i] == Null)
    && r.faults == 0
    && if evs != [] && evs[|evs| - 1].InputFailed? then
         && s.started == Range(|evs|)
         && Settled(s.combined) == Some(Rejected(evs[|evs| - 1].error))
       else
         && s.started == Range(Min(|evs| + 1, n))
         && Settled(s.combined) == (if |evs| == n then Some(Fulfilled(Array(s.taskResults))) else None)
  }

  /** After a run of the right shape, the only input that can report is the
      one started last, and only if the run has not ended. */
  lemma NextReporter(n: nat, front: seq<JoinEvent>, ev: JoinEvent)
    requires n > 0 && Indexed(n, front)
    requires SeqShape(n, front, RunSeq(n, front))
    requires ev.index in RunSeq(n, front).state.started && Unreported(front, ev.index)
    ensures ev.index == |front| < n && NoFailure(front)
  {
    var p := RunSeq(n, front).state;
    var j :| 0 <= j < |p.started| && p.started[j] == ev.index;
    UnreportedBeyond(front, ev.index);
  }

  lemma Reported(evs: seq<JoinEvent>, k: nat)
    requires k < |evs|
    ensures !Unreported(evs, evs[k].index)
  {
  }

  /** When input k made the k-th report, an input that has not reported comes
      after all of them. */
  lemma UnreportedBeyond(front: seq<JoinEvent>, i: nat)
    requires forall k :: 0 <= k < |front| ==> front[k].index == k
    requires Unreported(front, i)
    ensures |front| <= i
  {
    if i < |front| {
      Reported(front, i);
      assert false;
    }
  }

  /** One more report keeps the shape: the report comes from the input
      started last, and the handler it reaches moves the run on. */
  lemma SeqExtend(n: nat, front: seq<JoinEvent>, ev: JoinEvent)
    requires n > 0 && Indexed(n, front) && ev.index < n
    requires SeqShape(n, front, RunSeq(n, front))
    requires ev.index in RunSeq(n, front).state.started && Unreported(front, ev.index)
    ensures SeqShape(n, front + [ev], RunSeq(n, front + [ev]))
  {
    var evs := front + [ev];
    var m := |front|;
    assert evs[..m] == front && evs[m] == ev && Indexed(n, evs);
    NextReporter(n, front, ev);
    var prev := RunSeq(n, front);
    var st := SeqHandle(prev.state, ev);
    assert RunSeq(n, evs) == JoinRun(st.next, prev.faults + (if st.outcome.Threw? then 1 else 0));
    if ev.InputFulfilled? {
      ShapeAfterFulfilled(n, front, prev, ev);
    } else {
      ShapeAfterFailed(n, front, prev, ev);
    }
  }

  lemma ShapeAfterFulfilled(n: nat, front: seq<JoinEvent>, prev: JoinRun<SeqState>, ev: JoinEvent)
    requires |prev.state.taskResults| == n && Consistent(prev.state.combined)
    requires SeqShape(n, front, prev) && NoFailure(front)
    requires ev.InputFulfilled? && ev.index == |front| < n
    ensures var st := SeqHandle(prev.state, ev);
            SeqShape(n, front + [ev], JoinRun(st.next, prev.faults + (if st.outcome.Threw? then 1 else 0)))
  {
    var m := |front|;
    var evs := front + [ev];
    var p := prev.state;
    assert front == [] || front[m - 1].InputFulfilled?;
    assert Settled(p.combined) == None;
    assert p.started == Range(m + 1);
    var st := SeqHandle(p, ev);
    assert st.next.taskResults == p.taskResults[m := ev.value];
    forall k | 0 <= k < |evs| ensures evs[k] == if k < m then front[k] else ev {}
    if m < n - 1 {
      assert st.next.started == p.started + [m + 1];
      assert Range(m + 2) == Range(m + 1) + [m + 1];
    }
  }

  lemma ShapeAfterFailed(n: nat, front: seq<JoinEvent>, prev: JoinRun<SeqState>, ev: JoinEvent)
    requires |prev.state.taskResults| == n && Consistent(prev.state.combined)
    requires SeqShape(n, front, prev) && NoFailure(front)
    requires ev.InputFailed? && ev.index == |front| < n
    ensures var st := SeqHandle(prev.state, ev);
            SeqShape(n, front + [ev], JoinRun(st.next, prev.faults + (if st.outcome.Threw? then 1 else 0)))
  {
    var m := |front|;
    var evs := front + [ev];
    var p := prev.state;
    assert front == [] || front[m - 1].InputFulfilled?;
    assert Settled(p.combined) == None;
    assert p.started == Range(m + 1);
    var st := SeqHandle(p, ev);
    assert st.next.taskResults == p.taskResults && st.next.started == p.started;
    forall k | 0 <= k < |evs| ensures evs[k] == if k < m then front[k] else ev {}
  }

  /** The facts about the last report of an admissible run that SeqExtend
      needs, and that its prefix is admissible too. */
  lemma AdmissiblePrefix(n: nat, evs: seq<JoinEvent>)
    requires n > 0 && Indexed(n, evs) && Admissible(n, evs) && evs != []
    ensures var front := evs[..|evs| - 1];
            && Indexed(n, front) && Admissible(n, front)
            && evs == front + [evs[|evs| - 1]]
            && evs[|evs| - 1].index < n
            && evs[|evs| - 1].index in RunSeq(n, front).state.started
            && Unreported(front, evs[|evs| - 1].index)
  {
    var m := |evs| - 1;
    var front := evs[..m];
    assert Indexed(n, front);
    forall k | 0 <= k < |front| ensures front[..k] == evs[..k] && front[k] == evs[k] {}
    assert Admissible(n, front);
    assert evs[m].index in RunSeq(n, evs[..m]).state.started && Unreported(evs[..m], evs[m].index);
  }

  /** The inputs run strictly one after another, in order: the k-th report
      comes from input k, input k + 1 starts only once input k has succeeded,
      and a failure ends the run. The combined task is resolved with every
      result, in input order, once the last input succeeds, or rejected with
      the failure's error; no handler throws. */
  lemma {:induction false} SequentialRun(n: nat, evs: seq<JoinEvent>)
    requires n > 0 && Indexed(n, evs) && Admissible(n, evs)
    ensures SeqShape(n, evs, RunSeq(n, evs))
    decreases |evs|
  {
    if evs == [] {
      assert Range(1) == [0];
    } else {
      var m := |evs| - 1;
      var front := evs[..m];
      AdmissiblePrefix(n, evs);
      SequentialRun(n, front);
      SeqExtend(n, front, evs[m]);
    }
  }
}
