/** Optional values, the exceptions raised by the modelled code, and a
    failure-compatible result type standing for "returns or raises". */
module Outcomes {

  datatype Option<+T> = None | Some(value: T)

  /** The Python exceptions the modelled code raises or lets through. */
  datatype Error =
    | ArchivistError(message: string)  // archivist.errors.ArchivistError
    | NotFound(message: string)        // archivist.errors.ArchivistNotFoundError
    | KeyError(key: string)            // a dictionary subscript on a missing key
    | AttributeError                   // raised bare by the client registry
    | RemoteError(message: string)     // any other failure of a call the model keeps abstract

  /** A call that either returns a value or raises an `Error`. */
  datatype Result<+T> = Ok(value: T) | Err(error: Error) {

    predicate IsFailure() {
      Err?
    }

    function PropagateFailure<U>(): Result<U>
      requires Err?
    {
      Err(error)
    }

    function Extract(): T
      requires Ok?
    {
      value
    }
  }
}
