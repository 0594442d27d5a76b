/** Failure-carrying datatypes shared by every module: Ruby's nil-able values
    and the exceptions the runner client, the worker loop and the code-lens
    listener raise or rescue. */
module Outcomes {

  datatype Option<+T> = None | Some(value: T)

  /** The Ruby exceptions the core raises, rescues or lets escape. */
  datatype Exception =
    | IncompleteMessageError                // RunnerClient::IncompleteMessageError
    | InitializationError(message: string)  // RunnerClient::InitializationError, carrying the worker's stderr
    | SpawnError                            // Errno::ENOENT from Open3.popen3
    | ParserError                           // JSON::ParserError
    | KeyError                              // Hash#fetch of a missing key
    | TypeError                             // T.must(nil), JSON.parse(nil), String + non-String, Array#[] with a Symbol
    | NoMethodError                         // a method sent to nil, to a boolean or to an object lacking it
    | IOError                               // reading or writing a closed stream
    | RangeError                            // IO#read of a length that does not fit a C long

  /** A Ruby computation either returns a value or raises. */
  datatype Result<+T> = Ok(value: T) | Raised(error: Exception)
}
