/** The authentication endpoints: registration and login. */
module Auth {
  import opened Common
  import opened Models
  import opened Helpers
  import opened Dependencies
  import opened Users

  datatype RegisterUserRequest = RegisterUserRequest(username: string, email: string, password: string)

  datatype LoginForm = LoginForm(username: string, password: string)

  datatype TokenResponse = TokenResponse(accessToken: string, tokenType: string)

  /** The claims a login puts into the access token. */
  function Claims(user: User): (claims: Payload)
  {
    map["sub" := user.username, "role" := RoleValue(user.role)]
  }

  /** POST /auth/login/: a bearer token for the user with the submitted
      username, when the submitted password verifies against the stored hash;
      unauthorized otherwise. */
  function Login(users: map<Uuid, User>, form: LoginForm, verify: Verifier, encode: Encoder)
    : (r: Result<TokenResponse>)
    requires WellFormed(users)
    ensures r.Err? ==> r.error == Unauthorized
    ensures r.Ok? <==> exists k :: k in users && users[k].username == form.username
                                   && verify(form.password, users[k].password)
    ensures r.Ok? ==> exists k :: k in users && users[k].username == form.username
                                  && r.value == TokenResponse(encode(Claims(users[k])), "bearer")
  {
    match FindByUsername(users, form.username)
    case None => Err(Unauthorized)
    case Some(user) =>
      if !verify(form.password, user.password) then Err(Unauthorized)
      else Ok(TokenResponse(encode(Claims(user)), "bearer"))
  }

  /** The token a login issues carries the user's name as "sub" and role as
      "role", and, as long as it decodes to what was encoded, the request
      guard resolves it back to that same user. */
  lemma {:induction false} LoginThenCurrentUser(users: map<Uuid, User>, form: LoginForm,
                                                verify: Verifier, encode: Encoder, decode: Decoder)
    requires WellFormed(users)
    requires Login(users, form, verify, encode).Ok?
    requires forall p :: decode(encode(p)) == Some(p)
    ensures var token := Login(users, form, verify, encode).value.accessToken;
            var g := CurrentUser(users, token, decode);
            && g.Ok? && g.value.username == form.username
            && decode(token).value["role"] == RoleValue(g.value.role)
  {
    var token := Login(users, form, verify, encode).value.accessToken;
    var k :| k in users && users[k].username == form.username
             && token == encode(Claims(users[k]));
    assert decode(token) == Some(Claims(users[k]));
    var g := CurrentUser(users, token, decode);
    assert g.value.id == k;
  }

  /** POST /auth/register/: inserts a new user with the submitted name and
      email, the hash of the submitted password and the plain user role.
      A taken username is refused first, then a taken email. `newId` is the
      freshly generated primary key. */
  method Register(table: UserTable, request: RegisterUserRequest, newId: Uuid, hash: Hasher)
    returns (r: Result<User>)
    requires table.Valid()
    modifies table
    ensures table.Valid()
    ensures var nameTaken := exists k :: k in old(table.users) && old(table.users)[k].username == request.username;
            var emailTaken := exists k :: k in old(table.users) && old(table.users)[k].email == request.email;
            var user := User(newId, request.username, request.email, hash(request.password), UserRole);
            && (nameTaken ==> r == Err(BadRequest("username already exists")) && table.users == old(table.users))
            && (!nameTaken && emailTaken ==>
                  r == Err(BadRequest("email already exists")) && table.users == old(table.users))
            && (!nameTaken && !emailTaken && newId in old(table.users) ==>
                  r == Err(IntegrityError) && table.users == old(table.users))
            && (!nameTaken && !emailTaken && newId !in old(table.users) ==>
                  r == Ok(user) && table.users == old(table.users)[newId := user])
  {
    if FindByUsername(table.users, request.username).Some? {
      return Err(BadRequest("username already exists"));
    }
    if FindByEmail(table.users, request.email).Some? {
      return Err(BadRequest("email already exists"));
    }
    var user := User(newId, request.username, request.email, hash(request.password), UserRole);
    if newId in table.users {
      return Err(IntegrityError);
    }
    StorePreservesWellFormed(table.users, user);
    table.users := table.users[newId := user];
    r := Ok(user);
  }

  /** With a password check that accepts a password against its own hash, a
      freshly registered user can log in with the submitted credentials, and
      the token names them with the plain user role. */
  lemma RegisteredUserCanLogIn(users: map<Uuid, User>, request: RegisterUserRequest, newId: Uuid,
                               hash: Hasher, verify: Verifier, encode: Encoder)
    requires WellFormed(users)
    requires forall k :: k in users ==> users[k].username != request.username && users[k].email != request.email
    requires newId !in users
    requires forall p :: verify(p, hash(p))
    ensures var user := User(newId, request.username, request.email, hash(request.password), UserRole);
            WellFormed(users[newId := user])
    ensures var user := User(newId, request.username, request.email, hash(request.password), UserRole);
            var r := Login(users[newId := user], LoginForm(request.username, request.password), verify, encode);
            r == Ok(TokenResponse(encode(map["sub" := request.username, "role" := "user"]), "bearer"))
  {
    var user := User(newId, request.username, request.email, hash(request.password), UserRole);
    StorePreservesWellFormed(users, user);
    var m := users[newId := user];
    assert m[newId].username == request.username && verify(request.password, m[newId].password);
  }
}
