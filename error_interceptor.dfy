/**
 * The error interceptor: HTTP exceptions pass through as they are; any other
 * error is classified by its name and rethrown as an HTTP exception whose
 * body names the status, a message, an error type and the request path.
 */
module ErrorInterceptor {
  import opened Wrappers
  import opened Text
  import opened Errors

  const VALIDATION_ERROR := "SequelizeValidationError"
  const UNIQUE_CONSTRAINT_ERROR := "SequelizeUniqueConstraintError"
  const FOREIGN_KEY_ERROR := "SequelizeForeignKeyConstraintError"
  const DATABASE_ERROR := "SequelizeDatabaseError"
  const CONNECTION_ERROR := "SequelizeConnectionError"

  /** What the interceptor answers for one error: status, message and error type. */
  datatype Classification = Classification(statusCode: int, message: string, errorType: string)

  /** The answer for an error whose name is none of the known ones. */
  const FALLBACK := Classification(INTERNAL_SERVER_ERROR, "Error interno del servidor", "Internal Server Error")

  /** The chain of name tests, first match wins. */
  function Classify(name: string): (c: Classification)
    ensures c.statusCode in {BAD_REQUEST, CONFLICT, INTERNAL_SERVER_ERROR}
    ensures name == VALIDATION_ERROR ==> c == Classification(BAD_REQUEST, "Error de validación en los datos", "Validation Error")
    ensures name == UNIQUE_CONSTRAINT_ERROR ==> c == Classification(CONFLICT, "Ya existe un registro con estos datos", "Conflict Error")
    ensures name == FOREIGN_KEY_ERROR ==> c == Classification(BAD_REQUEST, "Error de referencia en los datos", "Foreign Key Error")
    ensures name == DATABASE_ERROR ==> c == Classification(INTERNAL_SERVER_ERROR, "Error en la base de datos", "Database Error")
    ensures name == CONNECTION_ERROR ==> c == Classification(INTERNAL_SERVER_ERROR, "Error de conexión con la base de datos", "Connection Error")
    ensures name !in {VALIDATION_ERROR, UNIQUE_CONSTRAINT_ERROR, FOREIGN_KEY_ERROR, DATABASE_ERROR, CONNECTION_ERROR} ==> c == FALLBACK
  {
    if name == VALIDATION_ERROR then
      Classification(BAD_REQUEST, "Error de validación en los datos", "Validation Error")
    else if name == UNIQUE_CONSTRAINT_ERROR then
      Classification(CONFLICT, "Ya existe un registro con estos datos", "Conflict Error")
    else if name == FOREIGN_KEY_ERROR then
      Classification(BAD_REQUEST, "Error de referencia en los datos", "Foreign Key Error")
    else if name == DATABASE_ERROR then
      Classification(INTERNAL_SERVER_ERROR, "Error en la base de datos", "Database Error")
    else if name == CONNECTION_ERROR then
      Classification(INTERNAL_SERVER_ERROR, "Error de conexión con la base de datos", "Connection Error")
    else FALLBACK
  }

  /** The logged line, `[method] path - Error status: message`. */
  function LogLine(verb: string, path: string, statusCode: int, message: string): (line: string)
    ensures StartsWith(line, "[" + verb + "] " + path + " - Error ")
    ensures IsInfix(IntToString(statusCode) + ": ", line)
    ensures |message| <= |line| && line[|line| - |message|..] == message
  {
    var head := "[" + verb + "] " + path + " - Error ";
    var line := head + (IntToString(statusCode) + ": ") + message;
    assert line[..|head|] == head;
    assert line[|line| - |message|..] == message;
    InfixOfConcat(head, IntToString(statusCode) + ": ", message);
    line
  }

  /** What the interceptor rethrows, and the line it logs (none for an HTTP exception). */
  datatype Outcome = Outcome(error: Exception, log: Option<string>)

  /** `catchError` of `intercept`, for a request with the given method and url. */
  function Intercept(e: Exception, verb: string, path: string): (r: Outcome)
    ensures e.HttpError? ==> r == Outcome(e, None)
    ensures e.JsError? ==> r.error.HttpError? && r.error.cls == Generic && r.log.Some?
    ensures e.JsError? ==> r.error.status == Classify(e.name).statusCode
    ensures e.JsError? ==>
      r.error.body == ErrorBody(Classify(e.name).statusCode, Classify(e.name).message, Classify(e.name).errorType, Some(path))
    ensures e.JsError? ==> r.log == Some(LogLine(verb, path, r.error.status, r.error.body.message))
  {
    match e
    case HttpError(_, _, _) => Outcome(e, None)
    case JsError(name, _) =>
      var c := Classify(name);
      Outcome(HttpError(Generic, c.statusCode, ErrorBody(c.statusCode, c.message, c.errorType, Some(path))),
        Some(LogLine(verb, path, c.statusCode, c.message)))
  }

  /**
   * Whatever is thrown, what leaves the interceptor is an HTTP exception; a
   * rebuilt one carries the request path and the same status in its body
   * as in the exception.
   */
  lemma InterceptAlwaysHttp(e: Exception, verb: string, path: string)
    ensures Intercept(e, verb, path).error.HttpError?
    ensures e.JsError? ==> Intercept(e, verb, path).error.body.path == Some(path)
    ensures e.JsError? ==> Intercept(e, verb, path).error.body.statusCode == Intercept(e, verb, path).error.status
  {
  }

  /** The original message of an error that is not an HTTP exception never reaches the client. */
  lemma OriginalMessageHidden(name: string, m1: string, m2: string, verb: string, path: string)
    ensures Intercept(JsError(name, m1), verb, path) == Intercept(JsError(name, m2), verb, path)
  {
  }

  /** Passing through the interceptor twice is the same as once. */
  lemma InterceptIdempotent(e: Exception, verb: string, path: string)
    ensures Intercept(Intercept(e, verb, path).error, verb, path).error == Intercept(e, verb, path).error
  {
  }

  /** A plain `Error` that no controller turned into an HTTP exception becomes a 500 with the generic message. */
  lemma PlainErrorIs500(m: string, verb: string, path: string)
    ensures Intercept(PlainError(m), verb, path).error.status == INTERNAL_SERVER_ERROR
    ensures Intercept(PlainError(m), verb, path).error.Message() == "Error interno del servidor"
  {
  }
}
