/**
 * Thrown errors. NestJS HTTP exceptions carry their class (what `instanceof`
 * tests), their status and their response body; any other thrown `Error`
 * carries its `name` and `message` (Sequelize errors among them).
 */
module Errors {
  import opened Wrappers

  /** The HttpException subclass a value was constructed with (`Generic` is `new HttpException(body, status)`). */
  datatype HttpClass = BadRequest | Unauthorized | NotFound | InternalServerError | Generic

  /** The body of an HTTP error response; `path` is present only on bodies the error interceptor builds (its timestamp is not modelled). */
  datatype ErrorBody = ErrorBody(statusCode: int, message: string, error: string, path: Option<string>)

  datatype Exception =
    | HttpError(cls: HttpClass, status: int, body: ErrorBody)
    | JsError(name: string, message: string)
  {
    /** `error.message`: for an HTTP exception, the body's message. */
    function Message(): string {
      match this
      case HttpError(_, _, body) => body.message
      case JsError(_, m) => m
    }
  }

  const BAD_REQUEST := 400
  const UNAUTHORIZED := 401
  const NOT_FOUND := 404
  const CONFLICT := 409
  const INTERNAL_SERVER_ERROR := 500

  function NotFoundException(message: string): (e: Exception)
    ensures e.HttpError? && e.cls == NotFound && e.status == NOT_FOUND && e.Message() == message
  {
    HttpError(NotFound, NOT_FOUND, ErrorBody(NOT_FOUND, message, "Not Found", None))
  }

  function BadRequestException(message: string): (e: Exception)
    ensures e.HttpError? && e.cls == BadRequest && e.status == BAD_REQUEST && e.Message() == message
  {
    HttpError(BadRequest, BAD_REQUEST, ErrorBody(BAD_REQUEST, message, "Bad Request", None))
  }

  function UnauthorizedException(message: string): (e: Exception)
    ensures e.HttpError? && e.cls == Unauthorized && e.status == UNAUTHORIZED && e.Message() == message
  {
    HttpError(Unauthorized, UNAUTHORIZED, ErrorBody(UNAUTHORIZED, message, "Unauthorized", None))
  }

  function InternalServerErrorException(message: string): (e: Exception)
    ensures e.HttpError? && e.cls == InternalServerError && e.status == INTERNAL_SERVER_ERROR && e.Message() == message
  {
    HttpError(InternalServerError, INTERNAL_SERVER_ERROR,
      ErrorBody(INTERNAL_SERVER_ERROR, message, "Internal Server Error", None))
  }

  /** `new Error(message)`. */
  function PlainError(message: string): (e: Exception)
    ensures e.JsError? && e.name == "Error" && e.Message() == message
  {
    JsError("Error", message)
  }
}
