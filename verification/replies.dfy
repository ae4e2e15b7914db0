/**
 * What a route handler answers: a success status with a value, or one of
 * the error codes the JSON body carries, each with its HTTP status.
 * Also the reading of string fields out of a JSON request body.
 */
module Replies {
  import opened Wrappers
  import opened Text
  import opened DocStore
  import Ids

  datatype Reason =
    | MissingToken | InvalidTokenFormat | InvalidToken | TokenExpired | AuthenticationError
    | InvalidRequest | MissingField | MissingParameter | InvalidField | InvalidUniqueId
    | InvalidDatetime | SameUniqueId | NoConnection | PatientNotFound | ConnectionNotFound
    | ReferenceNotFound | ConnectionExists | UniqueIdTaken | InternalError
    | InvalidUserType | InvalidLink | InvalidPayload | UserNotFound

  /** The HTTP status each error code is sent with. */
  function HttpStatus(r: Reason): int {
    match r
    case MissingToken | InvalidTokenFormat | InvalidToken | TokenExpired => 401
    case InvalidRequest | MissingField | MissingParameter | InvalidField | InvalidUniqueId
       | InvalidDatetime | SameUniqueId | InvalidUserType | InvalidLink | InvalidPayload => 400
    case NoConnection => 403
    case PatientNotFound | ConnectionNotFound | ReferenceNotFound | UserNotFound => 404
    case ConnectionExists | UniqueIdTaken => 409
    case AuthenticationError | InternalError => 500
  }

  /** A validation failure: answered before the store is consulted. */
  predicate IsBadRequest(r: Reason) {
    HttpStatus(r) == 400
  }

  datatype Reply<T> = Ok(status: int, value: T) | Err(reason: Reason)

  /** The outcome of a handler's request checks: the normalised input, or why it is refused. */
  datatype Checked<T> = Pass(value: T) | Fail(reason: Reason)

  /**
   * `data.get(key, '')` where the handler goes on to call string methods:
   * an absent key reads as the empty string, and a value that is not a
   * string makes the handler raise (None).
   */
  function TextField(body: Doc, key: string): (r: Option<string>)
    ensures key !in body ==> r == Some("")
    ensures key in body ==> (r.Some? <==> body[key].Str?)
    ensures key in body && body[key].Str? ==> r == Some(body[key].s)
  {
    if key !in body then Some("")
    else if body[key].Str? then Some(body[key].s)
    else None
  }

  /** `.strip().upper()`: how every handler normalises a patient's public identifier. */
  function NormalizeId(s: string): (r: string)
    ensures |r| <= |s|
  {
    Upper(Strip(s))
  }

  /**
   * The check every handler makes on a normalised identifier: empty is
   * `missing`, then anything but six letters A-Z is INVALID_UNIQUE_ID.
   */
  function UidCheck(uid: string, missing: Reason): (r: Checked<string>)
    ensures uid == "" ==> r == Fail(missing)
    ensures uid != "" && !Ids.ValidUniqueId(uid) ==> r == Fail(InvalidUniqueId)
    ensures r.Pass? <==> Ids.ValidUniqueId(uid)
    ensures r.Pass? ==> r.value == uid
    ensures r.Fail? ==> r.reason == missing || r.reason == InvalidUniqueId
  {
    if uid == "" then Fail(missing)
    else if !Ids.ValidUniqueId(uid) then Fail(InvalidUniqueId)
    else Pass(uid)
  }
}
