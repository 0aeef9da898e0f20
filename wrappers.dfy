/** Failure-carrying values shared by every module of the photo-viewer model.
    A .NET exception thrown by the viewer becomes a `Failure` carrying the
    exception's kind; `null` becomes `None`. */
module Wrappers {

  datatype Option<+T> = None | Some(value: T)

  /** The .NET exception kinds that the modelled code throws or lets escape. */
  datatype Error =
    | FileNotFound
    | FileFormat
    | FileLoad
    | IOError
    | NullReference
    | ArgumentNull
    | ArgumentOutOfRange
    | Argument            // ArgumentException
    | DuplicateKey        // ArgumentException from Dictionary.Add
    | InvalidOperation    // more than one match in SingleOrDefault
    | KeyNotFound
    | ObjectDisposed
    | NotImplemented
    | NotSupported
    | DivideByZero
    | Format
    | Overflow
    | ShellFailure        // ShellException from the Windows property store

  datatype Result<+T> = Success(value: T) | Failure(error: Error)
}
