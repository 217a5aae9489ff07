/**
 * Failure-carrying return types.  Every Python exception the core raises is
 * modelled as the `Err` of a `Result` (or the `Fail` of an `Outcome` when the
 * operation returns nothing), so that error paths are part of each contract.
 */
module Wrappers {

  datatype Option<+T> = None | Some(value: T)

  datatype Result<+T, +E> = Ok(value: T) | Err(error: E) {
    predicate IsFailure() { Err? }

    function PropagateFailure<U>(): Result<U, E>
      requires Err?
    {
      Err(error)
    }

    function Extract(): T
      requires Ok?
    {
      value
    }
  }

  datatype Outcome<+E> = Pass | Fail(error: E)
}
