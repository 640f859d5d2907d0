/** Optional values (standing for Java's null) and results (standing for a
    thrown exception or a normal return). */
module Wrappers {

  /** None stands for a Java null. */
  datatype Option<+T> = None | Some(value: T)

  /** Err stands for an IllegalArgumentException thrown instead of a normal return. */
  datatype Result<+T, +E> = Ok(value: T) | Err(error: E)
}
