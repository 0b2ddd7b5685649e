/** Option, Result and Outcome: the model's stand-ins for C# null and for thrown exceptions. */
module Wrappers {

  /** A value that may be absent (a C# null reference). */
  datatype Option<+T> = None | Some(value: T)

  /** A computation that either returns a value or throws. */
  datatype Result<+T, +E> = Success(value: T) | Failure(error: E)

  /** A computation without a result value that either completes or throws. */
  datatype Outcome<+E> = Pass | Fail(error: E)
}

/** The .NET exceptions the modelled code throws or lets through. */
module Exceptions {

  datatype Error =
    | InvalidOperation     // InvalidOperationException
    | ArgumentNull         // ArgumentNullException
    | ArgumentOutOfRange   // ArgumentOutOfRangeException
    | Argument             // ArgumentException
    | NullReference        // NullReferenceException
    | IndexOutOfRange      // IndexOutOfRangeException
    | NotSupported         // NotSupportedException
    | InvalidCast          // InvalidCastException
    | LoadFailed(reason: string)  // whatever the atlas or skeleton parsers throw
}
