/** Optional values and results shared by the path pipeline. */
module Wrappers {

  /** An optional value; `None` stands for JavaScript's `undefined`/empty. */
  datatype Option<+T> = None | Some(value: T)

  /** The outcome of an operation that may throw in the script. */
  datatype Result<+T, +E> = Ok(value: T) | Err(error: E)
}
