/** Small value types shared by every module of the model. */
module Basics {

  /** A value that may be absent (an unset document field, a lookup that found nothing). */
  datatype Option<+T> = None | Some(value: T)

  /** The outcome of an operation that either yields a value or fails with an error. */
  datatype Result<+T, +E> = Ok(value: T) | Err(error: E)

  /** Document identifiers. The store hands out fresh ones; the model uses naturals. */
  type Id = nat
}
