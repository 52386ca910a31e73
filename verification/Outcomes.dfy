/** Results of code that may stop at a failed assertion. */
module Outcomes {

  datatype Outcome<+T> = Ok(value: T) | AssertFailed
  {
    predicate IsFailure() {
      AssertFailed?
    }

    function PropagateFailure<U>(): Outcome<U>
      requires AssertFailed?
    {
      AssertFailed
    }

    function Extract(): T
      requires Ok?
    {
      value
    }
  }

  datatype Option<+T> = None | Some(value: T)
}
