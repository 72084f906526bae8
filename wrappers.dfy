/** Failure-carrying values shared by every module of the model: a Go
    function returning `(*T, error)` becomes a `Result`, a Go `(T, bool)`
    lookup or a nil pointer becomes an `Option`. */
module Wrappers {

  datatype Option<+T> = None | Some(value: T)

  datatype Result<+T, +E> = Ok(value: T) | Err(error: E)
}
