/** Optional values and results with an error, standing for Python's `None` and raised exceptions. */
module Wrappers {

  datatype Option<+T> = None | Some(value: T)

  datatype Result<+R, +E> = Success(value: R) | Failure(error: E)

  /** Python truthiness of an optional list or string: `None` and the empty one are falsy. */
  predicate Falsy<T>(o: Option<seq<T>>)
  {
    o.None? || |o.value| == 0
  }
}
