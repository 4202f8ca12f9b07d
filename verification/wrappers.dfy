/** Failure-compatible Option and Result types used throughout the model. */
module Wrappers {

  /** An optional value; `None` stands for Java's `null`. */
  datatype Option<+T> = None | Some(value: T)

  /** The outcome of a call that may throw: `Failure` carries the exception. */
  datatype Result<+R, +E> = Success(value: R) | Failure(error: E) {

    predicate IsFailure() {
      Failure?
    }

    function PropagateFailure<U>(): Result<U, E>
      requires Failure?
    {
      Failure(error)
    }

    function Extract(): R
      requires Success?
    {
      value
    }
  }
}

/** The exceptions a formatting call can end with. */
module Errors {

  datatype Error =
    /** A primary-key update met the ABEND policy. */
    | PkUpdateAbend(table: string)
    /** The operation type is none of insert, delete, primary-key update or update. */
    | UnknownOperation(table: string)
    /** A column value could not be converted to its column's type (NumberFormatException). */
    | CoercionFailed(column: string, raw: string)
}
