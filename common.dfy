/** Failure-carrying wrappers shared by every service module: a missing row is `None`, a thrown
    exception is `Err`. */
module Common {

  datatype Option<+T> = None | Some(value: T)

  datatype Result<+T, +E> = Ok(value: T) | Err(error: E)
}
