/** Option and Result, used wherever the C++ code returns std::optional or throws. */
module Wrappers {

  datatype Option<+T> = None | Some(value: T)

  /** The exception classes the library and the puzzles throw. */
  datatype Error =
    | OutOfRange        // std::out_of_range, and std::string::at past the end
    | InvalidArgument   // std::invalid_argument
    | RuntimeError      // std::runtime_error and thrown string literals
    | BadOptionalAccess // std::optional::value() on an empty optional

  datatype Result<+T> = Ok(value: T) | Err(error: Error) {
    predicate IsFailure() { Err? }

    function PropagateFailure<U>(): Result<U>
      requires Err?
    {
      Err(error)
    }

    function Extract(): T
      requires Ok?
    {
      value
    }
  }

  /** A call that returns nothing but may throw. */
  datatype Outcome = Pass | Fail(error: Error) {
    predicate IsFailure() { Fail? }

    function PropagateFailure(): Outcome
      requires Fail?
    {
      this
    }
  }
}
