/** Plain Option and Result datatypes used across the model. */
module Wrappers {

  /** `None` stands for the source's `null`. */
  datatype Option<+T> = None | Some(value: T)

  /** `Failure` stands for an exception the source lets escape. */
  datatype Result<+T, +E> = Success(value: T) | Failure(error: E)
}
