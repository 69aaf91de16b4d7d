/** Optional values and the failures the modelled code can raise. */
module Errors {

  /** A value that may be absent (Python's `None`). */
  datatype Option<+T> = None | Some(value: T)

  /** The exceptions the modelled code lets escape to its caller. */
  datatype Error =
    | KeyError(key: string)                  // a missing key in a settings dictionary
    | IndexError                             // indexing an empty row list or an empty row
    | AttributeError(attribute: string)      // an attribute looked up on `None`
    | ConnectionDoesNotExist(alias: string)  // an unknown database alias in the connection registry

  /** The outcome of a call that either returns a value or raises. */
  datatype Result<+T> = Ok(value: T) | Err(error: Error)
}
