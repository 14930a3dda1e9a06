/** Optional values and fallible results, standing for Swift's `T?` and `Result<T, Error>`. */
module Wrappers {

  datatype Option<T> = None | Some(value: T)

  /** The outcome of a repository fetch as delivered to a view model's completion handler. */
  datatype Result<T> = Success(value: T) | Failure(error: string)
}
