/**
 * The access decision of src/middleware/users.js: a caller may read a user's data
 * when they are a teacher or an admin, or when the target is themselves; a student
 * reaching for someone else is told they may only access their own data.
 */
module AuthorizeUser {
  import opened Wrappers
  import opened JsText

  /** The authenticated caller as the token middleware leaves it on the request. */
  datatype TokenUser = TokenUser(role: Option<string>, id: Option<Value>)

  /** The middleware either calls `next` or answers 403 with one message. */
  datatype Decision = Next | Forbidden(message: string)

  const OwnDataOnly := "Access denied: you can only access your own data."
  const AccessDenied := "Access denied."

  /**
   * `req.params.id || req.query.id`: the route parameter unless it is missing or
   * empty (both falsy), and then the query parameter whatever it is.
   */
  function TargetId(paramsId: Option<string>, queryId: Option<string>): (t: Option<Value>)
    ensures paramsId.Some? && paramsId.value != "" ==> t == Some(Str(paramsId.value))
    ensures paramsId.None? || paramsId.value == "" ==>
      (t.Some? <==> queryId.Some?) && (queryId.Some? ==> t == Some(Str(queryId.value)))
  {
    if paramsId.Some? && paramsId.value != "" then Some(Str(paramsId.value))
    else if queryId.Some? then Some(Str(queryId.value))
    else None
  }

  predicate IsStaff(role: Option<string>) {
    role == Some("teacher") || role == Some("admin")
  }

  /**
   * `authorizeUser`. Ids are compared with `===`: a missing id equals only a missing
   * id, and a numeric id never equals a textual one.
   */
  function Authorize(user: TokenUser, paramsId: Option<string>, queryId: Option<string>): (d: Decision)
    ensures var target := TargetId(paramsId, queryId);
      && (d == Next <==> IsStaff(user.role) || user.id == target)
      && (d == Forbidden(OwnDataOnly) <==> user.role == Some("student") && user.id != target)
      && (d == Forbidden(AccessDenied) <==>
            user.role != Some("student") && !IsStaff(user.role) && user.id != target)
  {
    var target := TargetId(paramsId, queryId);
    if user.role == Some("student") && user.id != target then Forbidden(OwnDataOnly)
    else if user.role == Some("teacher") || user.role == Some("admin") then Next
    else if user.id == target then Next
    else Forbidden(AccessDenied)
  }
}
