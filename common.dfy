/** Values shared by every part of the model: optional values, the exceptions the
    library raises for programming errors, and the result of an operation that
    either returns normally or throws one of them. */
module Common {

  /** A reference that may be null. */
  datatype Option<T> = None | Some(value: T)

  /** The exceptions the modelled code raises itself. A task's own failure value
      is not one of these: it is data (see TaskModel.Exn). */
  datatype Fault =
    | InvalidOperation     // InvalidOperationException: settling twice, Instance before Awake
    | ArgumentOutOfRange   // indexing an empty List<T>
    | NullReference        // use of a field that is still (or again) null
    | BodyNotForm          // Send(string) while the body is not form data
    | JsonBodyAlreadySet   // Send(JsonData) while a body is set
    | BodyAlreadySet       // Send(UnityAgentDataType) while a body is set

  /** A call that returns nothing: it either completes or throws. */
  datatype Outcome = Done | Threw(fault: Fault)

  /** A call that returns a value or throws. */
  datatype Result<T> = Ok(value: T) | Err(fault: Fault)

  /** The indices 0, 1, ..., n - 1 in order. */
  function Range(n: nat): (r: seq<nat>)
    ensures |r| == n && forall i :: 0 <= i < n ==> r[i] == i
  {
    seq(n, i requires 0 <= i => i)
  }
}
