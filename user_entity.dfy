/**
 * The user row: a unique email and a password hash, and the password check
 * against that hash. Hashing and comparing are opaque functions of the
 * bcrypt library; the comparison may throw.
 */
module UserEntity {
  import opened Wrappers
  import opened Json
  import opened Errors

  /**
   * A user instance. `passwordHash` is `None` on an instance that lacks it;
   * the column itself refuses null, so every stored row has one.
   */
  datatype User = User(id: int, email: string, passwordHash: Option<string>, createdAt: nat, updatedAt: nat)

  /** `bcrypt.compare(password, hash)`: its verdict, or the error it throws. */
  type Compare = (string, string) -> Result<bool, Exception>

  /** The row constraints: `email` and `passwordHash` are non-null (the email's uniqueness is the table's). */
  predicate RowValid(u: User) {
    u.passwordHash.Some?
  }

  /** `this.passwordHash` is truthy. */
  predicate HasHash(u: User) {
    u.passwordHash.Some? && u.passwordHash.value != ""
  }

  /**
   * `validatePassword`: false without a hash, otherwise the comparison's
   * verdict, and false when the comparison throws.
   */
  function ValidatePassword(u: User, password: string, compare: Compare): (ok: bool)
    ensures ok <==> HasHash(u) && compare(password, u.passwordHash.value) == Ok(true)
  {
    if !HasHash(u) then false
    else
      match compare(password, u.passwordHash.value)
      case Ok(verdict) => verdict
      case Err(_) => false
  }

  /** Without a hash the comparison is never consulted: any two comparisons give the same, false. */
  lemma NoHashNoCompare(u: User, password: string, c1: Compare, c2: Compare)
    requires !HasHash(u)
    ensures ValidatePassword(u, password, c1) == ValidatePassword(u, password, c2) == false
  {
  }

  /** A comparison that throws is a rejected password, not an error. */
  lemma CompareFailureRejects(u: User, password: string, compare: Compare)
    requires HasHash(u) && compare(password, u.passwordHash.value).Err?
    ensures !ValidatePassword(u, password, compare)
  {
  }

  /** `user.get({ plain: true })`: the row's attributes as a plain object. */
  function Plain(u: User): (m: map<string, Json>)
    ensures m.Keys == {"id", "email", "passwordHash", "createdAt", "updatedAt"}
    ensures m["id"] == JNum(u.id) && m["email"] == JStr(u.email)
  {
    map[
      "id" := JNum(u.id),
      "email" := JStr(u.email),
      "passwordHash" := (match u.passwordHash case Some(h) => JStr(h) case None => JNull),
      "createdAt" := JNum(u.createdAt),
      "updatedAt" := JNum(u.updatedAt)]
  }

  /** The own properties a saved model instance carries; the attribute getters live on the prototype. */
  const INSTANCE_OWN_KEYS: set<string> := {"dataValues", "_previousDataValues", "uniqno", "_changed", "_options", "isNewRecord"}

  /**
   * `{ ...instance }` on a saved instance: only its own properties, so the
   * values appear under `dataValues` and not as keys of their own. The
   * `_changed` set and the `_options` object are modelled as empty objects.
   */
  function InstanceSpread(u: User): (m: map<string, Json>)
    ensures m.Keys == INSTANCE_OWN_KEYS
    ensures m["dataValues"] == JObj(Plain(u)) && m["isNewRecord"] == JBool(false)
  {
    map[
      "dataValues" := JObj(Plain(u)),
      "_previousDataValues" := JObj(Plain(u)),
      "uniqno" := JNum(1),
      "_changed" := JObj(map[]),
      "_options" := JObj(map[]),
      "isNewRecord" := JBool(false)]
  }

  /** The spread has no `id`, `email` or `passwordHash` key: reading them gives `undefined`. */
  lemma SpreadLacksAttributes(u: User)
    ensures Get(InstanceSpread(u), "id") == JUndefined
    ensures Get(InstanceSpread(u), "email") == JUndefined
    ensures "passwordHash" !in InstanceSpread(u)
  {
  }
}
