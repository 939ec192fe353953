/** Absence and failure, as the pipeline uses them: `None` stands for a
    pandas NaN/NaT/NA cell, `Failure` for an exception that ends the run. */
module Wrappers {

  datatype Option<+T> = None | Some(value: T) {
    function GetOr(default: T): T {
      match this
      case Some(v) => v
      case None => default
    }
  }

  datatype Result<+T, +E> = Success(value: T) | Failure(error: E)
}
