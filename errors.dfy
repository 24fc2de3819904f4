/** Failure-carrying results and the error conditions of the report generator. */
module Errors {

  datatype Option<+T> = None | Some(value: T)

  datatype Result<+T> = Success(value: T) | Failure(error: Error) {
    predicate IsFailure() { Failure? }
    function PropagateFailure<U>(): Result<U>
      requires Failure?
    {
      Failure(error)
    }
    function Extract(): T
      requires Success?
    {
      value
    }
  }

  /** The exceptions the Python code can raise (or the exit it takes). */
  datatype Error =
    | MultipleUids      // get_uid: zero or several distinct uids; the process exits with status 1
    | WrongFieldCount   // ValueError: a split result unpacked into the wrong number of names
    | InvalidDate       // ValueError from datetime.strptime
    | EmptyDateList     // ValueError from max() of an empty sequence
    | DateOutOfRange    // OverflowError from subtracting a day from 01-01-0001
    | ZeroDivision      // ZeroDivisionError in an accuracy ratio
    | MissingKey        // KeyError: a date looked up in a dict that does not hold it
}
