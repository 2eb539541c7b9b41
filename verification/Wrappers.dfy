/** Optional values and results with an error, used where the sources return nil or an error. */
module Wrappers {
  datatype Option<+T> = None | Some(value: T)

  function OrElse<T>(x: Option<T>, y: T): T {
    match x case Some(v) => v case None => y
  }

  datatype Result<+T, +E> = Ok(value: T) | Err(error: E)
}
