/**
 * The JWT guard: a request without headers is refused before the token
 * strategy runs, and the strategy's verdict is turned into the user of the
 * request or an error.
 */
module JwtAuthGuard {
  import opened Wrappers
  import opened Json
  import opened Errors

  const NOT_AUTHORIZED := "No estás autorizado para acceder a este recurso."

  /**
   * `canActivate`: falsy headers are a 401; otherwise the answer is the
   * strategy's, `delegate`.
   */
  function CanActivate(headers: Json, delegate: Result<bool, Exception>): (r: Result<bool, Exception>)
    ensures !Truthy(headers) ==> r == Err(UnauthorizedException(NOT_AUTHORIZED))
    ensures Truthy(headers) ==> r == delegate
  {
    if !Truthy(headers) then Err(UnauthorizedException(NOT_AUTHORIZED)) else delegate
  }

  /** Missing and null headers are both refused without consulting the strategy. */
  lemma MissingHeadersRefused(delegate: Result<bool, Exception>, other: Result<bool, Exception>)
    ensures CanActivate(JUndefined, delegate) == CanActivate(JNull, other) == Err(UnauthorizedException(NOT_AUTHORIZED))
  {
  }

  /**
   * `handleRequest(err, user)`: a thrown error (`err` is `None` when falsy)
   * is thrown again; no user is a 401; otherwise the request's user is the
   * one the strategy found.
   */
  function HandleRequest(err: Option<Exception>, user: Json): (r: Result<Json, Exception>)
    ensures err.Some? ==> r == Err(err.value)
    ensures err.None? && !Truthy(user) ==> r == Err(UnauthorizedException(NOT_AUTHORIZED))
    ensures err.None? && Truthy(user) ==> r == Ok(user)
  {
    if err.Some? || !Truthy(user) then
      Err(if err.Some? then err.value else UnauthorizedException(NOT_AUTHORIZED))
    else Ok(user)
  }

  /** A user is let through exactly when there is no error and the user is truthy, and it is the same user. */
  lemma HandleRequestPasses(err: Option<Exception>, user: Json)
    ensures HandleRequest(err, user).Ok? <==> err.None? && Truthy(user)
    ensures HandleRequest(err, user).Ok? ==> HandleRequest(err, user).value == user
  {
  }
}
