/** The optional value used for Go's nil-able results (a nil error, a NULL column,
    an absent *time.Time), and the (value, error) pair of a Go call that may fail,
    with the error reduced to its message. */
module Wrappers {

  datatype Option<+T> = None | Some(value: T)

  datatype Result<+T> = Ok(value: T) | Err(error: string)

}
