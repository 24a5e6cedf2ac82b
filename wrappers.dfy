/**
 * Optional values, results and the .NET exceptions the modelled code throws.
 * A thrown exception is modelled as a `Failure` (or `Fail`) carrying the
 * exception's kind, instead of as a precondition that forbids the input.
 */
module Wrappers {

  /** A nullable value: `None` stands for C#'s `null` / `HasValue == false`. */
  datatype Option<+T> = None | Some(value: T) {
    function GetOr(default: T): T {
      match this
      case Some(v) => v
      case None => default
    }
  }

  /** The exceptions raised by the modelled code, by kind. */
  datatype Exception =
    | InvalidOperation(message: string)
    | Argument(message: string)
    | ArgumentNull(paramName: string)
    | ArgumentOutOfRange(paramName: string)
    | IndexOutOfRange
    | Overflow
    | NotImplemented

  /** A value, or the exception that was thrown instead of returning it. */
  datatype Result<+T> = Success(value: T) | Failure(error: Exception) {
    predicate IsFailure() { Failure? }
    function PropagateFailure<U>(): Result<U>
      requires Failure?
    {
      Failure(error)
    }
    function Extract(): T
      requires Success?
    {
      value
    }
  }

  /** The outcome of an operation that returns nothing: it completed, or it threw. */
  datatype Outcome = Pass | Fail(error: Exception)
}
