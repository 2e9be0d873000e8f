// Option, the error types of error.rs, and the result of an operation on the storage.
module Wrappers {

  datatype Option<+T> = None | Some(value: T)

  datatype Error =
    | Serialization
    | DuplicateKey
    | NeedsFirstRead
    | NeedsGarbageCollect
    | InvalidState
    | InconsistentFlash
    | AlreadyTaken
    | NodeInOtherList

  datatype LoadStoreError =
    | FlashWrite
    | FlashRead
    | WriteVerificationFailed
    | AppError(error: Error)

  datatype Result<+R> = Ok(value: R) | Err(error: LoadStoreError)
}
