// Values shared by every module: optional values, outcomes, failures and bytes.

module Basics {

  datatype Option<+T> = None | Some(value: T)

  datatype Result<+T> = Ok(value: T) | Err(error: Error)

  // The category under which the store reports a failed operation.
  datatype Failure = Conflict | NotFound | Rejected | Unavailable

  datatype Error =
    | InvalidInput
    | InvalidPayload
    | IdentityConflict
    | IncompatibleProfile
    | IncompletePublication
    | StaleChannelPointer
    | ResourceNotFound
    | InvalidRepositoryResult
    | MissingObject
    | ArtifactDigestMismatch
    | StoreFailure(kind: Failure)

  function NatOf(n: int): nat { if n < 0 then 0 else n }

  type Byte = i: int | 0 <= i < 256

  type Bytes = seq<Byte>
}
