/** Option and error-carrying results, standing for Go's nil pointers and (value, error) pairs. */
module Common {

  datatype Option<+T> = None | Some(value: T)

  /** A Go (value, error) pair: the value when error is nil, the error's text otherwise. */
  datatype Result<+T> = Ok(value: T) | Err(msg: string)
}
