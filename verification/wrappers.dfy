/** Option and Result, for the places where the predictor returns an error value
    or where an outside collaborator may fail. */
module Wrappers {

  datatype Option<T> = None | Some(value: T)

  datatype Result<T, E> = Ok(value: T) | Err(error: E)
}
