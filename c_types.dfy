/** Machine integer widths and the error-carrying wrappers shared by the
    signal table and the event record. */
module CTypes {

  /** C `short`: the width of libevent's event mask handed to the callback. */
  newtype int16 = x: int | -0x8000 <= x < 0x8000

  /** C `int`: descriptors, signal numbers and the results of NUM2INT. */
  newtype int32 = x: int | -0x8000_0000 <= x < 0x8000_0000

  datatype Option<+T> = None | Some(value: T)

  datatype Result<+T, +E> = Success(value: T) | Failure(error: E)
}
