/** Optional values and results, used wherever the Rust code returns `Option` or `Result`. */
module Wrappers {

  datatype Option<T> = None | Some(value: T)

  datatype Result<T, E> = Ok(value: T) | Err(error: E)
}
