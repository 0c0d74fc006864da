/** Lookups over the user table and the shapes of the foreign helpers
    (password hashing and JSON web tokens). */
module Helpers {
  import opened Common
  import opened Models

  /** A one-way password hash (bcrypt in the service). */
  type Hasher = string -> string
  /** Whether a plain password matches a stored hash. */
  type Verifier = (string, string) -> bool
  /** The claims carried by an access token. */
  type Payload = map<string, string>
  /** Signs a payload into a token. */
  type Encoder = Payload -> string
  /** Decodes and validates a token; None when it is malformed, badly signed or expired. */
  type Decoder = string -> Option<Payload>

  /** The user whose username is `name`, if any. */
  function FindByUsername(users: map<Uuid, User>, name: string): (r: Option<User>)
    requires WellFormed(users)
    ensures r.Some? <==> exists k :: k in users && users[k].username == name
    ensures r.Some? ==> r.value.id in users && users[r.value.id] == r.value && r.value.username == name
  {
    if exists k :: k in users && users[k].username == name then
      var k :| k in users && users[k].username == name;
      Some(users[k])
    else
      None
  }

  /** The user whose email is `email`, if any. */
  function FindByEmail(users: map<Uuid, User>, email: string): (r: Option<User>)
    requires WellFormed(users)
    ensures r.Some? <==> exists k :: k in users && users[k].email == email
    ensures r.Some? ==> r.value.id in users && users[r.value.id] == r.value && r.value.email == email
  {
    if exists k :: k in users && users[k].email == email then
      var k :| k in users && users[k].email == email;
      Some(users[k])
    else
      None
  }
}
