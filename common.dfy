/** Identifiers, clock values and the shape of an HTTP answer, shared by every module of the model. */
module Common {

  /** A database identifier (a document's ObjectId). */
  type Id = nat

  /** Milliseconds since the epoch, as `Date.now()` returns them. */
  type Time = nat

  datatype Option<T> = None | Some(value: T)

  /** A request field that should hold an ObjectId, as the controllers see it after their two checks:
      absent (undefined, null or empty, all falsy), present but not a well-formed ObjectId, or a
      well-formed id. */
  datatype RawId = Absent | Malformed | Wellformed(id: Id)

  /** Why a request was refused: one case per distinct error message of the controllers. */
  datatype Reason =
    | AccountIdRequired
    | InvalidAccountId
    | InvalidActionId
    | ActionNotFound
    | FieldsRequired
    | InvalidClientId
    | ClientIdRequired
    | ClientNotFound
    | AiDisabled
    | ReplyGenerationFailed
    | ServerError

  /** An HTTP answer: a successful body, or an error status code with its reason. */
  datatype Response<T> = Ok(body: T) | Err(status: nat, reason: Reason)

  /** JavaScript's `s || fallback` on a string: the empty string is falsy. */
  function OrElse(s: string, fallback: string): string {
    if s != "" then s else fallback
  }

  function Min(a: int, b: int): int {
    if a <= b then a else b
  }
}
