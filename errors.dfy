/** The exceptions of the storage card API, collapsed into two datatypes. */
module Errors {
  import opened Results

  /** Thrown at once by a prepare call or a memory image accessor. */
  datatype UsageError =
    | IllegalArgument       // IllegalArgumentException
    | UnsupportedOperation  // UnsupportedOperationException

  /**
   * Raised while processing prepared commands.  Every storage card exception
   * carries the address of the block involved, or none when not relevant.
   */
  datatype ProcessError =
    | ReaderIO(block: Option<int>)             // SCReaderCommunicationException
    | CardIO(block: Option<int>)               // CardIOException, including a failed verification read
    | InvalidCardResponse(block: Option<int>)  // SCInvalidCardResponseException
    | AuthenticationFailed(block: Option<int>) // SCAuthenticationFailedException
    | InconsistentData                         // InconsistentDataException: fewer responses than requests
}
