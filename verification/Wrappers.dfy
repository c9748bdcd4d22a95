/** Outcomes of operations that the source ends with `None` or with an exception. */
module Wrappers {
  datatype Option<+T> = None | Some(value: T) {
    predicate IsFailure() {
      None?
    }

    function PropagateFailure<U>(): Option<U>
      requires None?
    {
      None
    }

    function Extract(): T
      requires Some?
    {
      value
    }
  }

  /** A parser either reads a value off the front of a text or is stuck. */
  datatype Parsed<+T> = Parsed(value: T, rest: string) | Stuck {
    predicate IsFailure() {
      Stuck?
    }

    function PropagateFailure<U>(): Parsed<U>
      requires Stuck?
    {
      Stuck
    }

    function Extract(): (T, string)
      requires Parsed?
    {
      (value, rest)
    }
  }

  datatype Result<+T, +E> = Success(value: T) | Failure(error: E)
}
