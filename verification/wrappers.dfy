/** Failure-compatible result types for the exceptions the modelled Java code throws. */
module Wrappers {

  datatype Option<+T> = None | Some(value: T)

  /** The Java exception classes that the lowering engine can raise. */
  datatype Error =
    | IllegalArgument(message: string)   // java.lang.IllegalArgumentException
    | NullPointer                        // dereferencing a null field
    | ClassCast                          // a failing downcast
    | Fatal(message: string)             // java.lang.Error

  /** Either the value a call returns or the exception it throws. */
  datatype Result<+T> = Success(value: T) | Failure(error: Error) {

    predicate IsFailure() {
      Failure?
    }

    function PropagateFailure<U>(): Result<U>
      requires Failure?
    {
      Failure(error)
    }

    function Extract(): T
      requires Success?
    {
      value
    }
  }
}
