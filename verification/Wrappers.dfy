/** Result shapes shared by the whole model. */
module Wrappers {
  datatype Option<+T> = None | Some(value: T)

  /** The error codes a modelled operation can report. */
  datatype Error =
    | InvalidArgument | OutOfRange | NotFound | Duplicate | Conflict | LimitExceeded | OversizedInput
    | TruncatedInput | MalformedInput | VersionMismatch | IntegrityMismatch | StaleGeneration | StaleEpoch
    | StaleIncarnation | Unauthorized | UnknownPressure | Expired | NotReady | ShuttingDown | Cancelled
    | CycleDetected | Overflow | Internal

  datatype Result<+T> = Ok(value: T) | Err(error: Error)

  datatype Status = Success | Failed(error: Error)
}
