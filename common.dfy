/** Shapes shared by every module: optional values, the HTTP error a handler
    raises, and the result of an operation that may raise one. */
module Common {

  datatype Option<+T> = None | Some(value: T)

  /** An HTTPException: status code and detail message. An exception that no
      handler catches reaches the client as status 500. */
  datatype HttpError = HttpError(status: int, detail: string)

  datatype Result<+T> = Success(value: T) | Failure(error: HttpError)

  const BadRequest := 400
  const Unauthorized := 401
  const Forbidden := 403
  const NotFound := 404
  const Unprocessable := 422
  const InternalError := 500

  /** What an uncaught exception (a database error, a failed validation inside
      a handler, a failed `int(...)`) becomes. */
  const ServerError := HttpError(InternalError, "Internal Server Error")

  /** Python truthiness of an optional string: present and not empty. */
  predicate Truthy(s: Option<string>) {
    s.Some? && s.value != ""
  }

  /** Index of the first element satisfying `p`: what a query's `.first()`
      and a primary-key `session.get` return in a table kept in key order. */
  function FirstIndex<T>(s: seq<T>, p: T -> bool): (k: Option<nat>)
    ensures k.None? <==> forall i :: 0 <= i < |s| ==> !p(s[i])
    ensures k.Some? ==> k.value < |s| && p(s[k.value])
    ensures k.Some? ==> forall i :: 0 <= i < k.value ==> !p(s[i])
  {
    if s == [] then None
    else if p(s[0]) then Some(0)
    else match FirstIndex(s[1..], p)
      case None => None
      case Some(j) => Some(j + 1)
  }
}
