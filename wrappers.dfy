module Wrappers {

  datatype Option<+T> = None | Some(value: T)

  datatype Result<+T> = Success(value: T) | Failure(reason: string)
  {
    /** The same failure, at another result type. */
    function PropagateFailure<U>(): (r: Result<U>)
      requires Failure?
      ensures r.Failure? && r.reason == reason
    {
      Failure(reason)
    }
  }
}
