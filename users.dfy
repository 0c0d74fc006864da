/** The user endpoints: the user table and the caller-guarded operations on it. */
module Users {
  import opened Common
  import opened Models
  import opened Helpers
  import opened Dependencies

  /** The rows a caller may list: every row for an administrator, otherwise
      the rows with the caller's own id. */
  function Visible(users: map<Uuid, User>, caller: User): (r: set<User>)
    ensures forall u :: u in r <==> u in users.Values && (caller.role == AdminRole || u.id == caller.id)
  {
    set u | u in users.Values && (caller.role == AdminRole || u.id == caller.id)
  }

  /** An administrator sees the whole table. */
  lemma AdminSeesAll(users: map<Uuid, User>, caller: User)
    requires caller.role == AdminRole
    ensures Visible(users, caller) == users.Values
  {
  }

  /** A stored caller who is not an administrator sees exactly their own row. */
  lemma NonAdminSeesSelf(users: map<Uuid, User>, caller: User)
    requires WellFormed(users)
    requires caller.role != AdminRole
    requires caller.id in users && users[caller.id] == caller
    ensures Visible(users, caller) == {caller}
  {
    forall u | u in Visible(users, caller) ensures u == caller {
      var k :| k in users && users[k] == u;
    }
  }

  /** A user's row after an update: the submitted name and email, the hash of
      the submitted password, and the submitted role only when the caller is
      an administrator. */
  function Updated(target: User, submitted: User, caller: User, hash: Hasher): (r: User)
    ensures r.id == target.id
    ensures r.username == submitted.username && r.email == submitted.email
    ensures r.password == hash(submitted.password)
    ensures caller.role == AdminRole ==> r.role == submitted.role
    ensures caller.role != AdminRole ==> r.role == target.role
  {
    var u := target.(username := submitted.username, email := submitted.email,
                     password := hash(submitted.password));
    if caller.role == AdminRole then u.(role := submitted.role) else u
  }

  /** The effect handed to the external authorization service by a role change. */
  datatype RoleGrant = RoleGrant(userId: Uuid, role: Role)

  /** A role change as the endpoint decides it once the caller is authenticated:
      the caller's role is never consulted. */
  function RoleChange(users: map<Uuid, User>, caller: User, userId: Uuid, role: Role): (r: Result<RoleGrant>)
    ensures r.Ok? <==> userId in users
    ensures r.Ok? ==> r.value == RoleGrant(userId, role)
    ensures r.Err? ==> r.error == NotFound
  {
    if userId !in users then Err(NotFound) else Ok(RoleGrant(userId, role))
  }

  /** A caller who is not an administrator obtains a grant of any role, the
      administrator role included, for any stored user. */
  lemma NonAdminGrantsAnyRole(users: map<Uuid, User>, caller: User, userId: Uuid)
    requires caller.role != AdminRole
    requires userId in users && userId != caller.id
    ensures RoleChange(users, caller, userId, AdminRole) == Ok(RoleGrant(userId, AdminRole))
  {
  }

  /** A role change guarded like the other administrative endpoint: forbidden
      for anyone but an administrator, then not found for an unknown id. */
  function AdminRoleChange(users: map<Uuid, User>, caller: User, userId: Uuid, role: Role)
    : (r: Result<RoleGrant>)
    ensures r.Ok? <==> caller.role == AdminRole && userId in users
    ensures r.Ok? ==> r.value == RoleGrant(userId, role)
    ensures caller.role != AdminRole ==> r == Err(Forbidden)
    ensures caller.role == AdminRole && userId !in users ==> r == Err(NotFound)
  {
    match CurrentAdmin(caller)
    case Err(e) => Err(e)
    case Ok(_) => RoleChange(users, caller, userId, role)
  }

  /** The guarded role change agrees with the endpoint for administrators and
      refuses everyone else. */
  lemma AdminRoleChangeRefinesRoleChange(users: map<Uuid, User>, caller: User, userId: Uuid, role: Role)
    ensures caller.role == AdminRole ==>
              AdminRoleChange(users, caller, userId, role) == RoleChange(users, caller, userId, role)
    ensures caller.role != AdminRole ==>
              AdminRoleChange(users, caller, userId, role).Err? && RoleChange(users, caller, userId, role).Ok? == (userId in users)
  {
  }

  class UserTable {
    var users: map<Uuid, User>

    ghost predicate Valid()
      reads this
    {
      WellFormed(users)
    }

    constructor()
      ensures Valid() && users == map[]
    {
      users := map[];
    }

    /** GET /users/: every row for an administrator, the caller's own row otherwise. */
    method GetUsers(token: string, decode: Decoder) returns (r: Result<set<User>>)
      requires Valid()
      ensures var g := CurrentUser(users, token, decode);
              && (g.Err? ==> r == Err(g.error))
              && (g.Ok? ==> r == Ok(Visible(users, g.value)))
    {
      var g := CurrentUser(users, token, decode);
      if g.Err? {
        return Err(g.error);
      }
      r := Ok(Visible(users, g.value));
    }

    /** POST /users/: administrators only; stores the submitted user with its
        password replaced by the hash. */
    method PostUser(token: string, decode: Decoder, user: User, hash: Hasher) returns (r: Result<User>)
      requires Valid()
      modifies this
      ensures Valid()
      ensures var g := CurrentUser(old(users), token, decode);
              var stored := user.(password := hash(user.password));
              && (g.Err? ==> r == Err(g.error) && users == old(users))
              && (g.Ok? && g.value.role != AdminRole ==> r == Err(Forbidden) && users == old(users))
              && (g.Ok? && g.value.role == AdminRole ==>
                    if user.id in old(users) || TakenByOther(old(users), user) then
                      r == Err(IntegrityError) && users == old(users)
                    else
                      r == Ok(stored) && users == old(users)[user.id := stored])
    {
      var g := CurrentUser(users, token, decode);
      if g.Err? {
        return Err(g.error);
      }
      var admin := CurrentAdmin(g.value);
      if admin.Err? {
        return Err(admin.error);
      }
      var stored := user.(password := hash(user.password));
      if user.id in users || TakenByOther(users, stored) {
        return Err(IntegrityError);
      }
      StorePreservesWellFormed(users, stored);
      users := users[user.id := stored];
      r := Ok(stored);
    }

    /** GET /users/me/: the caller. */
    method GetMe(token: string, decode: Decoder) returns (r: Result<User>)
      requires Valid()
      ensures r.Ok? <==> CurrentUser(users, token, decode).Ok?
      ensures r.Ok? ==> r.value.id in users && users[r.value.id] == r.value
                        && r.value.username == decode(token).value["sub"]
      ensures r.Err? ==> r.error == Unauthorized
    {
      r := CurrentUser(users, token, decode);
    }

    /** GET /users/{user_id}/: the row, when it exists and the caller passes
        the admin-or-self gate; not found otherwise. */
    method GetUser(userId: Uuid, token: string, decode: Decoder) returns (r: Result<User>)
      requires Valid()
      ensures var g := CurrentUser(users, token, decode);
              && (g.Err? ==> r == Err(g.error))
              && (g.Ok? ==> (r.Ok? <==> AdminOrSelf(g.value, userId) && userId in users))
              && (g.Ok? && r.Ok? ==> r.value == users[userId])
              && (g.Ok? && r.Err? ==> r.error == NotFound)
    {
      var g := CurrentUser(users, token, decode);
      if g.Err? {
        return Err(g.error);
      }
      var found: Option<User> := None;
      if AdminOrSelf(g.value, userId) && userId in users {
        found := Some(users[userId]);
      }
      if found.None? {
        return Err(NotFound);
      }
      r := Ok(found.value);
    }

    /** PUT /users/{user_id}/: overwrites name, email and password of a row the
        caller may address; the role changes only for an administrator. */
    method PutUser(userId: Uuid, submitted: User, token: string, decode: Decoder, hash: Hasher)
      returns (r: Result<User>)
      requires Valid()
      modifies this
      ensures Valid()
      ensures var g := CurrentUser(old(users), token, decode);
              && (g.Err? ==> r == Err(g.error) && users == old(users))
              && (g.Ok? && !(AdminOrSelf(g.value, userId) && userId in old(users)) ==>
                    r == Err(NotFound) && users == old(users))
              && (g.Ok? && AdminOrSelf(g.value, userId) && userId in old(users) ==>
                    var u := Updated(old(users)[userId], submitted, g.value, hash);
                    if TakenByOther(old(users), u) then
                      r == Err(IntegrityError) && users == old(users)
                    else
                      r == Ok(u) && users == old(users)[userId := u])
    {
      var g := CurrentUser(users, token, decode);
      if g.Err? {
        return Err(g.error);
      }
      var caller := g.value;
      if !(AdminOrSelf(caller, userId) && userId in users) {
        return Err(NotFound);
      }
      var user := users[userId];
      user := user.(username := submitted.username, email := submitted.email,
                    password := hash(submitted.password));
      if caller.role == AdminRole {
        user := user.(role := submitted.role);
      }
      if TakenByOther(users, user) {
        return Err(IntegrityError);
      }
      StorePreservesWellFormed(users, user);
      users := users[userId := user];
      r := Ok(user);
    }

    /** DELETE /users/{user_id}/: removes a row the caller may address. */
    method DeleteUser(userId: Uuid, token: string, decode: Decoder) returns (r: Result<()>)
      requires Valid()
      modifies this
      ensures Valid()
      ensures var g := CurrentUser(old(users), token, decode);
              && (g.Err? ==> r == Err(g.error) && users == old(users))
              && (g.Ok? && !(AdminOrSelf(g.value, userId) && userId in old(users)) ==>
                    r == Err(NotFound) && users == old(users))
              && (g.Ok? && AdminOrSelf(g.value, userId) && userId in old(users) ==>
                    r == Ok(()) && users == old(users) - {userId})
    {
      var g := CurrentUser(users, token, decode);
      if g.Err? {
        return Err(g.error);
      }
      if !(AdminOrSelf(g.value, userId) && userId in users) {
        return Err(NotFound);
      }
      RemovePreservesWellFormed(users, userId);
      users := users - {userId};
      r := Ok(());
    }

    /** PATCH /users/{user_id}/role/, as written: any authenticated caller;
        not found for an unknown id, otherwise the role grant for the external
        authorization service. The stored row is not touched. */
    method PatchUserRole(userId: Uuid, role: Role, token: string, decode: Decoder)
      returns (r: Result<RoleGrant>)
      requires Valid()
      ensures var g := CurrentUser(users, token, decode);
              && (g.Err? ==> r == Err(g.error))
              && (g.Ok? ==> (r.Ok? <==> userId in users))
              && (g.Ok? && r.Ok? ==> r.value == RoleGrant(userId, role))
              && (g.Ok? && r.Err? ==> r.error == NotFound)
    {
      var g := CurrentUser(users, token, decode);
      if g.Err? {
        return Err(g.error);
      }
      r := RoleChange(users, g.value, userId, role);
    }

    /** PATCH /users/{user_id}/role/ behind the administrator guard: only an
        administrator obtains a grant. The stored row is not touched. */
    method PatchUserRoleAdminOnly(userId: Uuid, role: Role, token: string, decode: Decoder)
      returns (r: Result<RoleGrant>)
      requires Valid()
      ensures var g := CurrentUser(users, token, decode);
              && (g.Err? ==> r == Err(g.error))
              && (g.Ok? && g.value.role != AdminRole ==> r == Err(Forbidden))
              && (g.Ok? && g.value.role == AdminRole ==> (r.Ok? <==> userId in users))
              && (g.Ok? && r.Ok? ==> r.value == RoleGrant(userId, role))
              && (g.Ok? && g.value.role == AdminRole && r.Err? ==> r.error == NotFound)
    {
      var g := CurrentUser(users, token, decode);
      if g.Err? {
        return Err(g.error);
      }
      r := AdminRoleChange(users, g.value, userId, role);
    }
  }
}
