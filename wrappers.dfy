/** Optional values and the success-or-error outcome of a node's `invoke`. */
module Wrappers {

  /** A nullable field (`Optional[...]` with default `None`). */
  datatype Option<+T> = None | Some(value: T)

  /** Either the node's output, or the exception its `invoke` raises. */
  datatype Result<+T, +E> = Success(value: T) | Failure(error: E)
}
