/** Failure-compatible wrappers: `Option` stands for Kotlin's nullable values
    and `Result` for a call that either returns or throws an exception whose
    message is the `error` string. */
module Results {

  datatype Option<+T> = None | Some(value: T) {
    /** Kotlin's `?:`: the value, or `default` when absent. */
    function GetOr(default: T): T {
      match this
      case Some(v) => v
      case None => default
    }
  }

  datatype Result<+R> = Success(value: R) | Failure(error: string) {
    predicate IsFailure() {
      Failure?
    }

    function PropagateFailure<U>(): Result<U>
      requires Failure?
    {
      Failure(error)
    }

    function Extract(): R
      requires Success?
    {
      value
    }
  }
}
