/**
 * The authentication controller: the login and registration bodies, and how
 * the service's outcomes become responses or 401 errors.
 */
module AuthController {
  import opened Wrappers
  import opened Json
  import opened Errors
  import opened UserEntity
  import opened UsersService
  import opened AuthService

  const OK := 200
  const LOGIN_MESSAGE := "Inicio de sesión exitoso."
  const INVALID_CREDENTIALS := "Credenciales inválidas"
  const REGISTERED_MESSAGE := "Usuario registrado exitosamente"
  const REGISTER_FAILED := "Error al registrar usuario. Por favor, intente nuevamente."
  const MIN_PASSWORD_LENGTH := 6

  /** `@IsNotEmpty() @IsEmail()` on the email and `@IsNotEmpty() @IsString() @MinLength(6)` on the password. */
  predicate LoginDtoValid(isEmail: string -> bool, d: LoginDto) {
    d.email != "" && isEmail(d.email) && d.password != "" && |d.password| >= MIN_PASSWORD_LENGTH
  }

  /** A password shorter than six characters never reaches the service. */
  lemma ShortPasswordRejected(isEmail: string -> bool, d: LoginDto)
    requires |d.password| < MIN_PASSWORD_LENGTH
    ensures !LoginDtoValid(isEmail, d)
  {
  }

  /** The catch of both endpoints: an UnauthorizedException is rethrown, anything else becomes one with `message`. */
  function RethrowOrUnauthorized(e: Exception, message: string): (r: Exception)
    ensures r.HttpError? && r.cls == Unauthorized
    ensures e.HttpError? && e.cls == Unauthorized ==> r == e
    ensures !(e.HttpError? && e.cls == Unauthorized) ==> r == UnauthorizedException(message)
  {
    if e.HttpError? && e.cls == Unauthorized then e
    else UnauthorizedException(message)
  }

  /** `login`: the token in a 200 envelope; `login` of the service runs only after a successful check. */
  function LoginResponse(validated: Result<Json, Exception>, sign: JwtPayload -> string): (r: Result<Json, Exception>)
    requires validated.Ok? ==> validated.value.JObj?
    ensures validated.Ok? ==> r == Ok(Envelope(OK, LOGIN_MESSAGE, Login(validated.value, sign)))
    ensures validated.Err? ==> r == Err(RethrowOrUnauthorized(validated.error, INVALID_CREDENTIALS))
  {
    match validated
    case Ok(user) => Ok(Envelope(OK, LOGIN_MESSAGE, Login(user, sign)))
    case Err(e) => Err(RethrowOrUnauthorized(e, INVALID_CREDENTIALS))
  }

  /** The login endpoint over the users table. */
  function LoginEndpoint(table: UserTable, dto: LoginDto, compare: Compare, sign: JwtPayload -> string): (r: Result<Json, Exception>)
    reads table
    requires table.Valid()
    ensures r.Err? ==> r.error.HttpError? && r.error.cls == Unauthorized
    ensures r.Ok? <==> dto.email in table.users && ValidatePassword(table.users[dto.email], dto.password, compare)
  {
    LoginResponse(ValidateUser(table, dto.email, dto.password, compare), sign)
  }

  /** When the check fails the signer is never consulted: any two give the same answer. */
  lemma FailedCheckSignsNothing(e: Exception, s1: JwtPayload -> string, s2: JwtPayload -> string)
    ensures LoginResponse(Err(e), s1) == LoginResponse(Err(e), s2)
  {
  }

  /** The service's own 401s reach the client with their messages: an unknown email and a wrong password are told apart. */
  lemma LoginFailureMessages(table: UserTable, dto: LoginDto, compare: Compare, sign: JwtPayload -> string)
    requires table.Valid()
    ensures dto.email !in table.users ==>
      LoginEndpoint(table, dto, compare, sign) == Err(UnauthorizedException(USER_NOT_FOUND))
    ensures dto.email in table.users && !ValidatePassword(table.users[dto.email], dto.password, compare) ==>
      LoginEndpoint(table, dto, compare, sign) == Err(UnauthorizedException(WRONG_PASSWORD))
  {
  }

  /**
   * `register`: the message with `user.id` and `user.email` of what the
   * service returned, or a 401.
   */
  function RegisterResponse(outcome: Result<map<string, Json>, Exception>): (r: Result<Json, Exception>)
    ensures outcome.Ok? ==> r.Ok? && r.value.JObj? && r.value.fields.Keys == {"message", "userId", "email"}
    ensures outcome.Ok? ==> r.value.fields["message"] == JStr(REGISTERED_MESSAGE)
    ensures outcome.Ok? ==> r.value.fields["userId"] == Get(outcome.value, "id")
    ensures outcome.Ok? ==> r.value.fields["email"] == Get(outcome.value, "email")
    ensures outcome.Err? ==> r == Err(RethrowOrUnauthorized(outcome.error, REGISTER_FAILED))
  {
    match outcome
    case Ok(user) =>
      Ok(JObj(map["message" := JStr(REGISTERED_MESSAGE), "userId" := Get(user, "id"), "email" := Get(user, "email")]))
    case Err(e) => Err(RethrowOrUnauthorized(e, REGISTER_FAILED))
  }

  /** The answer to a successful registration: the message, with `userId` and `email` undefined. */
  const REGISTERED_ANSWER := JObj(map["message" := JStr(REGISTERED_MESSAGE), "userId" := JUndefined, "email" := JUndefined])

  /**
   * The service hands back the spread of the instance, which has no `id` or
   * `email` key, so the answer carries neither the new id nor the email.
   */
  lemma RegisterAnswerLacksUser(u: User)
    ensures RegisterResponse(Ok(RegisterResult(u))) == Ok(REGISTERED_ANSWER)
  {
    SpreadLacksAttributes(u);
  }

  /**
   * The register endpoint over the users table. An email in use is a 401
   * with the service's message (not a 409), and the table is left as it was.
   */
  method RegisterEndpoint(table: UserTable, dto: LoginDto, hash: string -> string, now: nat, fault: Option<Exception>)
    returns (r: Result<Json, Exception>)
    requires table.Valid()
    modifies table
    ensures table.Valid()
    ensures dto.email in old(table.users) ==> r == Err(UnauthorizedException(EMAIL_IN_USE))
    ensures r.Err? ==> r.error.HttpError? && r.error.cls == Unauthorized && table.users == old(table.users)
    ensures dto.email !in old(table.users) && fault.Some? ==> r == Err(RethrowOrUnauthorized(fault.value, REGISTER_FAILED))
    ensures r.Ok? <==> dto.email !in old(table.users) && fault.None?
    ensures r.Ok? ==>
      && table.users == old(table.users)[dto.email := User(old(table.nextId), dto.email, Some(hash(dto.password)), now, now)]
      && r.value == REGISTERED_ANSWER
  {
    var outcome := Register(table, dto, hash, now, fault);
    r := RegisterResponse(outcome);
    if outcome.Ok? {
      RegisterAnswerLacksUser(User(old(table.nextId), dto.email, Some(hash(dto.password)), now, now));
    }
  }
}
