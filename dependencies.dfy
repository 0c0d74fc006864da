/** The request guards: resolve the caller from a bearer token, and admit
    administrators only. Both are pure decisions over the user table. */
module Dependencies {
  import opened Common
  import opened Models
  import opened Helpers

  /** The stored user a bearer token names. The token must decode, its payload
      must carry a "sub" claim, and a user with that username must exist;
      otherwise the caller is unauthorized. */
  function CurrentUser(users: map<Uuid, User>, token: string, decode: Decoder): (r: Result<User>)
    requires WellFormed(users)
    ensures r.Err? ==> r.error == Unauthorized
    ensures r.Ok? <==>
      decode(token).Some? && "sub" in decode(token).value &&
      exists k :: k in users && users[k].username == decode(token).value["sub"]
    ensures r.Ok? ==> r.value.id in users && users[r.value.id] == r.value
                      && r.value.username == decode(token).value["sub"]
  {
    match decode(token)
    case None => Err(Unauthorized)
    case Some(payload) =>
      if "sub" !in payload then Err(Unauthorized)
      else
        match FindByUsername(users, payload["sub"])
        case None => Err(Unauthorized)
        case Some(user) => Ok(user)
  }

  /** The caller unchanged when an administrator, forbidden otherwise. */
  function CurrentAdmin(caller: User): (r: Result<User>)
    ensures r.Ok? <==> caller.role == AdminRole
    ensures r.Ok? ==> r.value == caller
    ensures r.Err? ==> r.error == Forbidden
  {
    if caller.role != AdminRole then Err(Forbidden) else Ok(caller)
  }

  /** The gate on reading, updating and deleting one user: an administrator
      may address anyone, anyone else only their own id. */
  predicate AdminOrSelf(caller: User, userId: Uuid)
  {
    caller.role == AdminRole || caller.id == userId
  }
}
