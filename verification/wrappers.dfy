/** Option, Result and Outcome, with the Python exceptions the modelled code can raise. */
module Wrappers {

  datatype Option<+T> = None | Some(value: T) {
    function GetOr(default: T): T {
      match this
      case Some(v) => v
      case None => default
    }
  }

  /** The exceptions raised by the modelled code, named as in Python / Django. */
  datatype PyError =
    | IndexError      // list index out of range
    | AttributeError  // `.get` or `.split` on a value that has no such method
    | TypeError       // iterating None or a number, comparing incomparable values
    | StopIteration   // `next` on an exhausted iterator
    | DoesNotExist    // a Django `objects.get` that finds no row

  datatype Result<+T> = Success(value: T) | Failure(error: PyError) {
    predicate IsFailure() { Failure? }

    function PropagateFailure<U>(): Result<U>
      requires Failure?
    {
      Failure(error)
    }

    function Extract(): T
      requires Success?
    {
      value
    }
  }

  /** The result of a call made only for its effect: it returned, or it raised. */
  datatype Outcome = Pass | Fail(error: PyError)
}
