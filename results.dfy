/** Option and Result values used for the JavaScript `undefined`/`null`
    cases and for operations that throw in the client. */
module Results {

  datatype Option<+T> = None | Some(value: T)

  datatype Result<+T, +E> = Ok(value: T) | Err(error: E)
}
