/** Optional values and error-or-value results, used for the source's `None` returns and raised exceptions. */
module Wrappers {
  datatype Option<T> = None | Some(value: T)

  datatype Result<T, E> = Ok(value: T) | Err(error: E)
}

/** A call that either returns a value or lets an exception escape to its caller. */
module Calls {
  datatype Call<T> = Raised | Returned(value: T)
}
