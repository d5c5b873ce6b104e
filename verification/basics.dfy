/** Option and Result, the two failure-carrying types the editor's Rust code uses. */
module Basics {

  datatype Option<T> = None | Some(value: T)

  datatype Result<T, E> = Ok(value: T) | Err(error: E)
}
