/** Failure-carrying values used in place of PHP exceptions and nullable returns. */
module Wrappers {

  datatype Option<T> = None | Some(value: T)

  /** The two exception classes the library throws. */
  datatype Error =
    | InvalidArgument(message: string)  // \InvalidArgumentException, raised by constructors
    | Runtime(message: string)          // \RuntimeException, raised by TextChunker::chunk

  datatype Result<T> = Ok(value: T) | Err(error: Error)
}
