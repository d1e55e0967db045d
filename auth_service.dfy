/**
 * The authentication service: checking credentials against the users
 * table, issuing a token for a checked user, and registering a new user.
 * Signing a token is an opaque function of the JWT library.
 */
module AuthService {
  import opened Wrappers
  import opened Json
  import opened Errors
  import opened UserEntity
  import opened UsersService

  const USER_NOT_FOUND := "Usuario no encontrado"
  const WRONG_PASSWORD := "Contraseña incorrecta"
  const EMAIL_IN_USE := "El email ya está en uso."

  /** The credentials of a login or a registration. */
  datatype LoginDto = LoginDto(email: string, password: string)

  /** The claims of a token: `sub` is the user's id. */
  datatype JwtPayload = JwtPayload(email: Json, sub: Json)

  /** `const { passwordHash, ...result } = user.get({ plain: true })`. */
  function WithoutHash(u: User): (m: map<string, Json>)
    ensures "passwordHash" !in m
    ensures m.Keys == Plain(u).Keys - {"passwordHash"}
    ensures forall k :: k in m ==> m[k] == Plain(u)[k]
  {
    Plain(u) - {"passwordHash"}
  }

  /**
   * `validateUser`. The catch around the password check only ever sees the
   * wrong-password exception, since the check itself never throws, and
   * rethrows it as it is.
   */
  function ValidateUser(table: UserTable, email: string, pass: string, compare: Compare): (r: Result<Json, Exception>)
    reads table
    requires table.Valid()
    ensures email !in table.users ==> r == Err(UnauthorizedException(USER_NOT_FOUND))
    ensures email in table.users && !ValidatePassword(table.users[email], pass, compare) ==>
      r == Err(UnauthorizedException(WRONG_PASSWORD))
    ensures r.Ok? <==> email in table.users && ValidatePassword(table.users[email], pass, compare)
    ensures r.Ok? ==> r.value == JObj(WithoutHash(table.users[email]))
    ensures r.Ok? ==> !HasKey(r.value, "passwordHash")
    ensures r.Err? ==> r.error.HttpError? && r.error.cls == Unauthorized
  {
    match table.FindOneByEmail(email)
    case None => Err(UnauthorizedException(USER_NOT_FOUND))
    case Some(user) =>
      if ValidatePassword(user, pass, compare) then Ok(JObj(WithoutHash(user)))
      else Err(UnauthorizedException(WRONG_PASSWORD))
  }

  /** `user.email` and `user.id` of the object passed in. */
  function PayloadOf(user: Json): (p: JwtPayload)
    requires user.JObj?
    ensures p.email == Get(user.fields, "email") && p.sub == Get(user.fields, "id")
  {
    JwtPayload(Get(user.fields, "email"), Get(user.fields, "id"))
  }

  /** `login`: `{ access_token }`, the signature of exactly the user's email and id. */
  function Login(user: Json, sign: JwtPayload -> string): (r: Json)
    requires user.JObj?
    ensures r.JObj? && r.fields.Keys == {"access_token"}
    ensures r.fields["access_token"] == JStr(sign(PayloadOf(user)))
  {
    JObj(map["access_token" := JStr(sign(PayloadOf(user)))])
  }

  /** A token issued to a checked user carries that stored user's email and id. */
  lemma LoginTokenNamesUser(table: UserTable, email: string, pass: string, compare: Compare, sign: JwtPayload -> string)
    requires table.Valid()
    requires ValidateUser(table, email, pass, compare).Ok?
    ensures Login(ValidateUser(table, email, pass, compare).value, sign) ==
      JObj(map["access_token" := JStr(sign(JwtPayload(JStr(email), JNum(table.users[email].id))))])
  {
    var user := table.users[email];
    var checked := ValidateUser(table, email, pass, compare).value;
    assert checked.fields["email"] == Plain(user)["email"] == JStr(email);
    assert checked.fields["id"] == Plain(user)["id"] == JNum(user.id);
  }

  /**
   * `const { passwordHash, ...result } = user` on the created instance
   * itself, not on its plain values: the rest copies the instance's own
   * properties, among which `passwordHash` is not, so nothing is removed.
   */
  function RegisterResult(u: User): (m: map<string, Json>)
    ensures m == InstanceSpread(u)
    ensures "passwordHash" !in m && "id" !in m && "email" !in m
  {
    InstanceSpread(u) - {"passwordHash"}
  }

  /**
   * `register`: an email already present is refused before any insert;
   * otherwise the user is created with the clear password, which the table
   * stores hashed, and the spread of the created instance is returned.
   */
  method Register(table: UserTable, dto: LoginDto, hash: string -> string, now: nat, fault: Option<Exception>)
    returns (r: Result<map<string, Json>, Exception>)
    requires table.Valid()
    modifies table
    ensures table.Valid()
    ensures r.Ok? <==> dto.email !in old(table.users) && fault.None?
    ensures dto.email in old(table.users) ==> r == Err(UnauthorizedException(EMAIL_IN_USE))
    ensures dto.email !in old(table.users) && fault.Some? ==> r == Err(fault.value)
    ensures r.Err? ==> table.users == old(table.users) && table.nextId == old(table.nextId)
    ensures r.Ok? ==>
      var created := User(old(table.nextId), dto.email, Some(hash(dto.password)), now, now);
      && table.users == old(table.users)[dto.email := created]
      && r.value == RegisterResult(created)
  {
    var existing := table.FindOneByEmail(dto.email);
    if existing.Some? {
      return Err(UnauthorizedException(EMAIL_IN_USE));
    }
    var created := table.Create(dto.email, dto.password, hash, now, fault);
    match created
    case Ok(u) => r := Ok(RegisterResult(u));
    case Err(e) => r := Err(e);
  }
}
