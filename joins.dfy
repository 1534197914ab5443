/** The combinators `All` and `AllSequential` of UnityTools/Threading/UnityTask.cs
    as objects: the locals their closures capture and update in place
    (`activeTaskCount`, `taskResults`, `tasksSucceeding`, and the factory calls
    made so far) are the fields, the handlers are the methods, and the
    combined task is a UnityTask. Both public overloads pass a null dispatcher,
    so the combined task calls its callbacks on the calling thread.

    Each handler is proved to do what the matching step of JoinModel says; the
    lemmas there describe whole runs. */
module Joins {
  import opened Common
  import opened TaskModel
  import opened JoinModel
  import opened UnityTasks

  class JoinAll {
    /** `combinedTask`, which `All` returns. */
    const combined: UnityTask
    const taskResults: array<Value>
    var activeTaskCount: int
    var tasksSucceeding: bool

    predicate Valid()
      reads this, combined
    {
      combined.Valid() && combined.dispatcher == null
    }

    function Model(): AllState
      reads this, taskResults, combined
    {
      AllState(activeTaskCount, taskResults[..], tasksSucceeding, combined.State())
    }

    /** `All(tasks)` for `n` tasks, before any of them reports. */
    constructor All(n: nat)
      ensures Valid() && Model() == AllStart(n)
      ensures fresh(combined) && fresh(taskResults) && combined.fired == []
    {
      combined := new UnityTask(null);
      taskResults := new Value[n](_ => Null);
      activeTaskCount := n;
      tasksSucceeding := true;
    }

    /** The `onFulfilled` handler attached to input `i`. */
    method OnFulfilled(i: nat, result: Value) returns (outcome: Outcome)
      requires Valid() && i < taskResults.Length
      modifies this, taskResults, combined
      ensures Valid()
      ensures var st := AllOnFulfilled(old(Model()), i, result);
              Model() == st.next && outcome == st.outcome && combined.fired == old(combined.fired) + st.delivered
    {
      if !tasksSucceeding {
        return Done;
      }
      taskResults[i] := result;
      activeTaskCount := activeTaskCount - 1;
      if activeTaskCount == 0 {
        outcome := combined.Resolve(Array(taskResults[..]));
      } else {
        outcome := Done;
      }
    }

    /** The `onFailure` handler attached to every input. */
    method OnFailure(error: Exn) returns (outcome: Outcome)
      requires Valid()
      modifies this, combined
      ensures Valid()
      ensures var st := AllOnFailure(old(Model()), error);
              Model() == st.next && outcome == st.outcome && combined.fired == old(combined.fired) + st.delivered
    {
      tasksSucceeding := false;
      outcome := combined.Reject(error);
    }
  }

  class JoinSequential {
    /** `combinedTask`, which `AllSequential` returns. */
    const combined: UnityTask
    const taskResults: array<Value>
    /** The factories called so far, in order: `sequentialActions[i]` calls
        `tasks[i]()`, which starts input i. */
    var started: seq<nat>

    predicate Valid()
      reads this, combined
    {
      combined.Valid() && combined.dispatcher == null
    }

    function Model(): SeqState
      reads this, taskResults, combined
    {
      SeqState(taskResults[..], started, combined.State())
    }

    constructor (n: nat)
      ensures Valid() && started == [] && taskResults[..] == Nulls(n) && combined.State() == Pending
      ensures fresh(combined) && fresh(taskResults) && combined.fired == []
    {
      combined := new UnityTask(null);
      taskResults := new Value[n](_ => Null);
      started := [];
    }

    /** `AllSequential(tasks)` for `n` factories: start the first input. With
        no factory, `sequentialActions[0]` is out of range. */
    static method AllSequential(n: nat) returns (r: Result<JoinSequential>)
      ensures SeqStart(n).Err? ==> r == Err(SeqStart(n).fault)
      ensures SeqStart(n).Ok? ==> r.Ok? && fresh(r.value) && fresh(r.value.taskResults) && fresh(r.value.combined)
      ensures SeqStart(n).Ok? ==> r.value.Valid() && r.value.Model() == SeqStart(n).value && r.value.combined.fired == []
    {
      var join := new JoinSequential(n);
      if n == 0 {
        return Err(ArgumentOutOfRange);
      }
      join.Start(0);
      return Ok(join);
    }

    /** `sequentialActions[i]()`: call the factory of input `i`, then attach
        the handlers to the task it returns. */
    method Start(i: nat)
      modifies this`started
      ensures started == old(started) + [i]
    {
      started := started + [i];
    }

    /** The `onFulfilled` handler attached to input `i`. */
    method OnFulfilled(i: nat, result: Value) returns (outcome: Outcome)
      requires Valid() && i < taskResults.Length
      modifies this, taskResults, combined
      ensures Valid()
      ensures var st := SeqOnFulfilled(old(Model()), i, result);
              Model() == st.next && outcome == st.outcome && combined.fired == old(combined.fired) + st.delivered
    {
      taskResults[i] := result;
      if i == taskResults.Length - 1 {
        outcome := combined.Resolve(Array(taskResults[..]));
      } else {
        Start(i + 1);
        outcome := Done;
      }
    }

    /** The `onFailure` handler attached to every input. */
    method OnFailure(error: Exn) returns (outcome: Outcome)
      requires Valid()
      modifies combined
      ensures Valid()
      ensures var st := SeqOnFailure(old(Model()), error);
              Model() == st.next && outcome == st.outcome && combined.fired == old(combined.fired) + st.delivered
    {
      outcome := combined.Reject(error);
    }
  }
}
