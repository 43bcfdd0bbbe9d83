/**
 Small failure-carrying datatypes shared by the model of the transformation
 handler, and the exceptions the handler can end with.
 */
module Base {

  /** A value that may be absent (Python's `None`). */
  datatype Option<+T> = None | Some(value: T)

  /** Either a value or the exception raised while computing it. */
  datatype Result<+T, +E> = Success(value: T) | Failure(error: E)

  /**
   The exceptions an invocation of the handler can end with. Each one is
   raised by the handler or by a collaborator and always propagates unchanged
   to the caller.
   */
  datatype Error =
    | ConfigError                             // EnvironmentError: no target bucket configured
    | KeyError(key: string)                   // a field of the notification record is missing
    | NoSuchKey(bucket: string, key: string)  // the source object does not exist
    | JsonDecodeError(message: string)        // the source text is not JSON
    | TypeError(typeName: string)             // len() of a value that has no length
    | AttributeError(typeName: string)        // .get on a value that is not a dict
    | ClientError(message: string)            // any other storage or decoding failure
}
