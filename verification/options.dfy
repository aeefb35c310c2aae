/** An optional value: the model's stand-in for a JavaScript value that may be
    `undefined` (or `null`) where the source guards it with `?.` or a
    truthiness test. */
module Options {

  datatype Option<+T> = None | Some(value: T) {

    /** The value, or `default` when absent. */
    function GetOr(default: T): T {
      match this
      case Some(v) => v
      case None => default
    }
  }

  /** Success or failure of an operation that throws in the source. */
  datatype Result<+R, +E> = Success(value: R) | Failure(error: E)
}
