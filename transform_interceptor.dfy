/**
 * The transform interceptor: every successful response body is wrapped in
 * the `{ statusCode, message, data }` envelope, unless it is a CSV export
 * or the controller already built an envelope.
 */
module TransformInterceptor {
  import opened Wrappers
  import opened Json
  import opened Text

  const CSV_PATH := "/export/csv"
  const CSV_TYPE := "text/csv"
  const SUCCESS_MESSAGE := "Operación exitosa."

  /** The request fields the interceptor reads: its url and its `Accept` header. */
  datatype Request = Request(url: string, accept: Option<string>)

  /** A CSV export: the url mentions the export path or the client accepts only CSV. */
  predicate IsCsvRequest(req: Request) {
    IsInfix(CSV_PATH, req.url) || req.accept == Some(CSV_TYPE)
  }

  /** A truthy object with the three envelope keys. */
  predicate IsEnvelope(data: Json) {
    Truthy(data) && HasKey(data, "statusCode") && HasKey(data, "message") && HasKey(data, "data")
  }

  /** A truthy object with the keys of a page, `items` and `total`. */
  predicate IsPage(data: Json) {
    Truthy(data) && HasKey(data, "items") && HasKey(data, "total")
  }

  /**
   * The `map` of `intercept`, for a response whose status is `statusCode`.
   * The page branch builds the same envelope as the general one.
   */
  function Transform(req: Request, statusCode: int, data: Json): (r: Json)
    ensures IsCsvRequest(req) ==> r == data
    ensures !IsCsvRequest(req) && IsEnvelope(data) ==> r == data
    ensures !IsCsvRequest(req) && !IsEnvelope(data) ==> r == Envelope(statusCode, SUCCESS_MESSAGE, data)
  {
    if IsCsvRequest(req) then data
    else if IsEnvelope(data) then data
    else if IsPage(data) then Envelope(statusCode, SUCCESS_MESSAGE, data)
    else Envelope(statusCode, SUCCESS_MESSAGE, data)
  }

  /** Outside a CSV export, the result is always an envelope. */
  lemma TransformGivesEnvelope(req: Request, statusCode: int, data: Json)
    requires !IsCsvRequest(req)
    ensures IsEnvelope(Transform(req, statusCode, data))
  {
  }

  /** Transforming a transformed body again, whatever the status, changes nothing. */
  lemma TransformIdempotent(req: Request, statusCode: int, statusCode': int, data: Json)
    ensures Transform(req, statusCode', Transform(req, statusCode, data)) == Transform(req, statusCode, data)
  {
    if !IsCsvRequest(req) {
      TransformGivesEnvelope(req, statusCode, data);
    }
  }

  /** An envelope a controller built reaches the client unchanged, its own status and message included. */
  lemma ControllerEnvelopePassesThrough(req: Request, statusCode: int, code: int, message: string, data: Json)
    ensures Transform(req, statusCode, Envelope(code, message, data)) == Envelope(code, message, data)
  {
  }

  /** A page object is wrapped with the response's status, the page itself as `data`. */
  lemma PageWrapped(req: Request, statusCode: int, data: Json)
    requires !IsCsvRequest(req) && IsPage(data) && !HasKey(data, "statusCode")
    ensures Transform(req, statusCode, data) == Envelope(statusCode, SUCCESS_MESSAGE, data)
  {
  }

  /**
   * Values that are not objects, `null` and `undefined` among them, and
   * arrays, which lack the envelope keys, are wrapped as they are.
   */
  lemma NonObjectsWrapped(req: Request, statusCode: int, data: Json)
    requires !IsCsvRequest(req) && !data.JObj?
    ensures Transform(req, statusCode, data) == Envelope(statusCode, SUCCESS_MESSAGE, data)
    ensures Transform(req, statusCode, data).fields["data"] == data
  {
  }

  /** Any request to the export path is left alone, whatever its headers. */
  lemma ExportPathPassesThrough(prefix: string, suffix: string, accept: Option<string>, statusCode: int, data: Json)
    ensures Transform(Request(prefix + CSV_PATH + suffix, accept), statusCode, data) == data
  {
    InfixOfConcat(prefix, CSV_PATH, suffix);
  }
}
