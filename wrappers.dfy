/** The source's absent results: a regex search that finds nothing, an index that does not exist,
    and the exception that aborts a run. */
module Wrappers {

  datatype Option<+T> = None | Some(value: T)

  datatype Result<+T, +E> = Ok(value: T) | Err(error: E)
}
