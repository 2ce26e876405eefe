/** Values that may be absent (SQL NULL, a JavaScript `null` or `undefined`) and outcomes that
    may be failures. */
module Optional {

  datatype Option<+T> = None | Some(value: T)

  datatype Result<+T, +E> = Ok(value: T) | Err(error: E)
}
