// Stock result types shared by every component.

module Wrappers {

  datatype Option<+T> = None | Some(value: T)

  // A value, or the stable error code the service answers with.
  datatype Result<+T> = Success(value: T) | Failure(error: string) {
    predicate IsFailure() {
      Failure?
    }

    function PropagateFailure<U>(): Result<U>
      requires Failure?
    {
      Failure(error)
    }

    function Extract(): T
      requires Success?
    {
      value
    }
  }
}
