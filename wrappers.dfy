/** Option and Result values used where the source returns None or raises. */
module Wrappers {
  datatype Option<T> = None | Some(value: T)

  /** The exceptions the modelled code raises, named after their Python messages. */
  datatype Error =
    | KeyMissing(key: string)
    | AttributeMissing(attr: string)
    | TypeMismatch(what: string)
    | ValueInvalid(what: string)

  datatype Result<T> = Ok(value: T) | Err(error: Error)
  {
    predicate IsOk() { Ok? }
  }
}
