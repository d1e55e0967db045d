/**
 * The users table: rows keyed by their unique email, inserted with a hashed
 * password and removed for good (the table is not paranoid).
 */
module UsersService {
  import opened Wrappers
  import opened Errors
  import opened UserEntity

  const UNIQUE_CONSTRAINT_ERROR := "SequelizeUniqueConstraintError"

  /** The table behind the `User` model; `nextId` is the next auto-increment value. */
  class UserTable {
    var users: map<string, User>
    var nextId: int

    /** Each row sits under its own email, satisfies the row rules, and ids are distinct and below `nextId`. */
    ghost predicate Valid()
      reads this
    {
      && nextId >= 1
      && (forall e :: e in users ==> users[e].email == e && RowValid(users[e]) && 1 <= users[e].id < nextId)
      && (forall e1, e2 :: e1 in users && e2 in users && e1 != e2 ==> users[e1].id != users[e2].id)
    }

    constructor ()
      ensures Valid() && users == map[] && nextId == 1
    {
      users := map[];
      nextId := 1;
    }

    /** `findOneByEmail`: the row with exactly that email, or null. */
    function FindOneByEmail(email: string): (u: Option<User>)
      reads this
      requires Valid()
      ensures u.Some? ==> u.value.email == email && u.value.passwordHash.Some?
      ensures u.None? <==> forall e :: e in users ==> users[e].email != email
      ensures u.Some? ==> u.value == users[email]
    {
      if email in users then Some(users[email]) else None
    }

    /**
     * `create`: inserts a row holding the hash of the password, never the
     * password itself. An email already present violates the unique index;
     * `fault` is any other failure of the insert.
     */
    method Create(email: string, password: string, hash: string -> string, now: nat, fault: Option<Exception>)
      returns (r: Result<User, Exception>)
      requires Valid()
      modifies this
      ensures Valid()
      ensures r.Ok? <==> email !in old(users) && fault.None?
      ensures email in old(users) ==> r == Err(JsError(UNIQUE_CONSTRAINT_ERROR, "Validation error"))
      ensures email !in old(users) && fault.Some? ==> r == Err(fault.value)
      ensures r.Err? ==> users == old(users) && nextId == old(nextId)
      ensures r.Ok? ==> r.value == User(old(nextId), email, Some(hash(password)), now, now)
      ensures r.Ok? ==> users == old(users)[email := r.value] && nextId == old(nextId) + 1
    {
      if email in users {
        return Err(JsError(UNIQUE_CONSTRAINT_ERROR, "Validation error"));
      }
      if fault.Some? {
        return Err(fault.value);
      }
      var u := User(nextId, email, Some(hash(password)), now, now);
      users := users[email := u];
      nextId := nextId + 1;
      r := Ok(u);
    }

    /**
     * `deleteByEmail`: removes every row with that email and tells whether
     * one was removed; `fault` is a failure of the delete, which changes nothing.
     */
    method DeleteByEmail(email: string, fault: Option<Exception>) returns (r: Result<bool, Exception>)
      requires Valid()
      modifies this
      ensures Valid()
      ensures fault.Some? ==> r == Err(fault.value) && users == old(users)
      ensures fault.None? ==> r.Ok? && users == old(users) - {email}
      ensures r.Ok? ==> (r.value <==> |users| < |old(users)|)
      ensures r.Ok? ==> forall e :: e in users ==> users[e].email != email
      ensures nextId == old(nextId)
    {
      if fault.Some? {
        return Err(fault.value);
      }
      var removed := email in users;
      users := users - {email};
      if removed {
        assert users.Keys + {email} == old(users).Keys;
      } else {
        assert users.Keys == old(users).Keys;
      }
      r := Ok(removed);
    }
  }
}
