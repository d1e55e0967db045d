/**
 * The users controller: deleting a user by email answers with a message
 * either way; a failure of the table propagates as it is.
 */
module UsersController {
  import opened Wrappers
  import opened Json
  import opened Errors
  import opened UsersService

  /** The message of a delete, chosen by whether a row was removed. */
  function DeleteMessage(email: string, deleted: bool): (m: string)
    ensures deleted ==> m == "Usuario " + email + " eliminado exitosamente"
    ensures !deleted ==> m == "Usuario " + email + " no encontrado"
  {
    "Usuario " + email + (if deleted then " eliminado exitosamente" else " no encontrado")
  }

  /** A missing user is a message too, never an error. */
  function DeleteUserResponse(email: string, outcome: Result<bool, Exception>): (r: Result<Json, Exception>)
    ensures outcome.Err? ==> r == Err(outcome.error)
    ensures outcome.Ok? ==> r == Ok(JObj(map["message" := JStr(DeleteMessage(email, outcome.value))]))
  {
    match outcome
    case Ok(deleted) => Ok(JObj(map["message" := JStr(DeleteMessage(email, deleted))]))
    case Err(e) => Err(e)
  }

  /** The two messages differ, so the answer tells a removal from a miss. */
  lemma DeleteMessagesDistinct(email: string)
    ensures DeleteMessage(email, true) != DeleteMessage(email, false)
  {
    var prefix := "Usuario " + email;
    assert DeleteMessage(email, true)[|prefix| + 1] == 'e';
    assert DeleteMessage(email, false)[|prefix| + 1] == 'n';
  }

  /** `deleteUser`: one delete with the given email, then the message. */
  method DeleteUser(table: UserTable, email: string, fault: Option<Exception>) returns (r: Result<Json, Exception>)
    requires table.Valid()
    modifies table
    ensures table.Valid()
    ensures fault.Some? ==> r == Err(fault.value) && table.users == old(table.users)
    ensures fault.None? ==> r == Ok(JObj(map["message" := JStr(DeleteMessage(email, email in old(table.users)))]))
    ensures fault.None? ==> table.users == old(table.users) - {email}
  {
    var deleted := table.DeleteByEmail(email, fault);
    r := DeleteUserResponse(email, deleted);
  }
}
