/** Optional values and the outcome of an operation that may be refused. */
module Wrappers {
  datatype Option<+T> = None | Some(value: T)

  /** Why a service refused a call. */
  datatype Refusal = BadRequest | Unauthorized | Forbidden | NotFound | Conflict | TooManyRequests

  datatype Result<+T> = Ok(value: T) | Err(refusal: Refusal)

  /** Who calls a service: the owner, a general manager, or somebody in another role. */
  datatype Caller = Owner | Manager(id: string) | OtherRole(id: string)
}
