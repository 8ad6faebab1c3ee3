/** A value that may be absent, and a computation that may throw. */
module Wrappers {
  datatype Option<+T> = None | Some(value: T)

  datatype Attempt<+T> = Made(value: T) | Threw {

    predicate IsFailure() {
      Threw?
    }

    function PropagateFailure<U>(): (o: Attempt<U>)
      requires Threw?
      ensures o.Threw?
    {
      Threw
    }

    function Extract(): T
      requires Made?
    {
      value
    }
  }
}
