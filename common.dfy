/** Optional values and success/failure outcomes shared by every module. */
module Common {

  /** A value that may be absent: JavaScript `null`/`undefined`, Python `None`. */
  datatype Option<+T> = None | Some(value: T)

  /** The outcome of an operation that may fail: a resolved or rejected promise,
      or a Python call that returns or raises. */
  datatype Result<+T, +E> = Ok(value: T) | Err(error: E)
}
