/** Result types shared by the whole model. */
module Prelude {
  datatype Option<+T> = None | Some(value: T)

  /** A Python call either returns a value or raises. */
  datatype Result<+T, +E> = Success(value: T) | Failure(error: E)
}
