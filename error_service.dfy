/**
 * The web client's error messages: what `handleError` shows for a failed
 * request or any other thrown value.
 */
module ErrorService {
  import opened Wrappers
  import opened Json

  const NETWORK := "No se pudo conectar con el servidor. Verifique su conexión a internet."
  const EXPIRED := "Su sesión ha expirado. Por favor, inicie sesión nuevamente."
  const FORBIDDEN := "No tiene permisos para realizar esta acción."
  const INVALID_CREDENTIALS := "Credenciales inválidas. Por favor, verifique sus datos."
  const VALIDATION := "Los datos proporcionados no son válidos. Por favor, revise los campos."
  const NOT_FOUND := "El recurso solicitado no existe."
  const CONFLICT := "Ya existe un registro con estos datos."
  const SERVER := "Error interno del servidor. Por favor, intente más tarde."
  const UNKNOWN := "Ha ocurrido un error inesperado."

  /** A server response: its status and its decoded body. */
  datatype HttpResponse = HttpResponse(status: int, data: Json)

  /**
   * What was thrown: an Axios error (itself an `Error`), with or without a
   * response; another `Error`; or a value that is not an `Error`.
   */
  datatype Thrown =
    | AxiosError(response: Option<HttpResponse>, message: string)
    | PlainError(message: string)
    | NotAnError

  /** `error.response?.status`, `None` for `undefined`. */
  function Status(e: Thrown): Option<int> {
    if e.AxiosError? && e.response.Some? then Some(e.response.value.status) else None
  }

  predicate IsNetworkError(e: Thrown) {
    e.AxiosError? && e.response.None?
  }

  predicate IsAuthError(e: Thrown) {
    e.AxiosError? && (Status(e) == Some(401) || Status(e) == Some(403))
  }

  predicate IsValidationError(e: Thrown) {
    e.AxiosError? && Status(e) == Some(422)
  }

  predicate IsConflictError(e: Thrown) {
    e.AxiosError? && Status(e) == Some(409)
  }

  predicate IsNotFoundError(e: Thrown) {
    e.AxiosError? && Status(e) == Some(404)
  }

  predicate IsServerError(e: Thrown) {
    Status(e).Some? && Status(e).value >= 500
  }

  /** Which branch of `handleError` answers. */
  datatype Branch =
    | BodyMessage | Network | Expired | Forbidden | InvalidCredentials
    | Validation | NotFound | Conflict | Server | OwnMessage | Unknown

  /** The response body is truthy. */
  predicate HasBody(e: Thrown) {
    e.AxiosError? && e.response.Some? && Truthy(e.response.value.data)
  }

  /** The chain of tests, in source order. */
  function Classify(e: Thrown): (b: Branch)
    ensures b == BodyMessage <==> HasBody(e)
    ensures b == Unknown <==> e.NotAnError?
  {
    if e.AxiosError? && HasBody(e) then BodyMessage
    else if e.AxiosError? && IsNetworkError(e) then Network
    else if e.AxiosError? && IsAuthError(e) then
      (if Status(e) == Some(401) then Expired else if Status(e) == Some(403) then Forbidden else InvalidCredentials)
    else if e.AxiosError? && IsValidationError(e) then Validation
    else if e.AxiosError? && IsNotFoundError(e) then NotFound
    else if e.AxiosError? && IsConflictError(e) then Conflict
    else if e.AxiosError? && IsServerError(e) then Server
    else if !e.NotAnError? then OwnMessage
    else Unknown
  }

  /** `handleError`: the message shown. A body's `message` is what the body holds, whatever its type. */
  function HandleError(e: Thrown): (m: Json)
    ensures HasBody(e) ==> m == (if e.response.value.data.JObj? then Get(e.response.value.data.fields, "message") else JUndefined)
  {
    match Classify(e)
    case BodyMessage =>
      var data := e.response.value.data;
      if data.JObj? then Get(data.fields, "message") else JUndefined
    case Network => JStr(NETWORK)
    case Expired => JStr(EXPIRED)
    case Forbidden => JStr(FORBIDDEN)
    case InvalidCredentials => JStr(INVALID_CREDENTIALS)
    case Validation => JStr(VALIDATION)
    case NotFound => JStr(NOT_FOUND)
    case Conflict => JStr(CONFLICT)
    case Server => JStr(SERVER)
    case OwnMessage => JStr(e.message)
    case Unknown => JStr(UNKNOWN)
  }

  /** The invalid-credentials branch is dead: an auth error's status is 401 or 403. */
  lemma InvalidCredentialsUnreachable(e: Thrown)
    ensures Classify(e) != InvalidCredentials
  {
  }

  /** Without a body the status decides, with the order 401, 403, 422, 404, 409, then 500 and above. */
  lemma StatusMessages(status: int, data: Json, message: string)
    requires !Truthy(data)
    ensures var e := AxiosError(Some(HttpResponse(status, data)), message);
      && (status == 401 ==> HandleError(e) == JStr(EXPIRED))
      && (status == 403 ==> HandleError(e) == JStr(FORBIDDEN))
      && (status == 422 ==> HandleError(e) == JStr(VALIDATION))
      && (status == 404 ==> HandleError(e) == JStr(NOT_FOUND))
      && (status == 409 ==> HandleError(e) == JStr(CONFLICT))
      && (status >= 500 ==> HandleError(e) == JStr(SERVER))
      && (status !in {401, 403, 422, 404, 409} && status < 500 ==> HandleError(e) == JStr(message))
  {
  }

  /** A body wins over the status: a 500 with a body shows the server's message. */
  lemma BodyWinsOverStatus(status: int, m: string, message: string)
    ensures HandleError(AxiosError(Some(HttpResponse(status, JObj(map["message" := JStr(m)]))), message)) == JStr(m)
  {
  }

  /** No response is the network message; errors that are not Axios errors show their own message or the unknown one. */
  lemma OtherFailures(message: string)
    ensures HandleError(AxiosError(None, message)) == JStr(NETWORK)
    ensures HandleError(PlainError(message)) == JStr(message)
    ensures HandleError(NotAnError) == JStr(UNKNOWN)
  {
  }
}
