/** Optional values and results, used for the source's `undefined` fields and error paths. */
module Wrappers {

  /** `None` stands for an absent (`undefined`) value. */
  datatype Option<+T> = None | Some(value: T)

  /** The outcome of an operation that can fail. */
  datatype Result<+R, +E> = Success(value: R) | Failure(error: E)
}
