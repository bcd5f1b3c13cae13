/** Failure-carrying values shared by every module of the model. */
module Results {

  /** A value that may be missing, such as a regular-expression match. */
  datatype Option<+T> = None | Some(value: T)

  /** Either a computed value or the reason the computation stopped. */
  datatype Result<+T, +E> = Ok(value: T) | Err(error: E) {

    /** Replaces the failure reason, keeping a success untouched. */
    function MapError<E2>(wrap: E -> E2): Result<T, E2>
    {
      match this
      case Ok(v) => Ok(v)
      case Err(e) => Err(wrap(e))
    }
  }
}
