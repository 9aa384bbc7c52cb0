/** Option and Result, the failure-carrying values used throughout the model. */
module Wrappers {

  datatype Option<+T> = None | Some(value: T)

  datatype Result<+R, +E> = Success(value: R) | Failure(error: E)
}

/** The part of an Express response the model keeps: status code and message text. */
module Http {

  datatype Reply = Reply(status: nat, message: string)

  predicate IsError(r: Reply) { r.status >= 400 }
}
