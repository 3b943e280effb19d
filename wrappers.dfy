/** Failure-compatible wrappers for the nullable references and the exceptions
    of the modelled C# code. */
module Wrappers {

  /** A C# reference or nullable value: None stands for null. */
  datatype Option<+T> = None | Some(value: T) {
    predicate IsFailure() { None? }

    function PropagateFailure<U>(): Option<U>
      requires None?
    {
      None
    }

    function Extract(): T
      requires Some?
    {
      value
    }

    /** The C# `x ?? d` operator. */
    function GetOr(default: T): T {
      match this
      case Some(v) => v
      case None => default
    }
  }

  /** The .NET exceptions the modelled code can raise. */
  datatype Exception =
    | NullReference           // a member access on null
    | ArgumentNull            // a null dictionary key
    | ArgumentOutOfRange      // Substring past the end of a string
    | DuplicateKey            // Dictionary.Add of a key already present
    | InvalidCast             // an explicit cast to the wrong runtime type
    | NotImplemented          // the explicit `throw new NotImplementedException()`
    | InvalidOperation        // `First()` of an empty sequence, Add to a completed queue
    | EnsureFailed(param: string)  // an `Ensure.That(x, param)` argument check
    | FetchFailed             // a failed page request to the directory service

  /** The outcome of a C# call that returns a value or throws. */
  datatype Result<+T> = Ok(value: T) | Throws(error: Exception) {
    predicate IsFailure() { Throws? }

    function PropagateFailure<U>(): Result<U>
      requires Throws?
    {
      Throws(error)
    }

    function Extract(): T
      requires Ok?
    {
      value
    }
  }

  /** The outcome of a C# call that returns nothing or throws. */
  datatype Outcome = Pass | Fail(error: Exception) {
    predicate IsFailure() { Fail? }

    function PropagateFailure(): Outcome
      requires Fail?
    {
      this
    }
  }
}
