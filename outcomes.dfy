/** Optional values and results with an error message: the model's stand-ins
    for Python's `None` and for a raised exception whose `str(e)` is kept. */
module Outcomes {

  datatype Option<T> = None | Some(value: T)

  datatype Result<T> = Ok(value: T) | Err(message: string)
}
