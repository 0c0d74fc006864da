/** The persisted records: users, documents and their chunks. */
module Models {

  /** A 128-bit UUID, the primary key of every table. */
  newtype Uuid = x: int | 0 <= x < 0x1_0000_0000_0000_0000_0000_0000_0000_0000

  /** A user's role; stored (and put into tokens) as "admin" or "user". */
  datatype Role = AdminRole | UserRole

  function RoleValue(r: Role): (value: string)
  {
    match r
    case AdminRole => "admin"
    case UserRole => "user"
  }

  /** A row of the user table; `password` holds the stored hash. */
  datatype User = User(id: Uuid, username: string, email: string, password: string, role: Role)

  /** A row of the document table. */
  datatype Document = Document(id: Uuid, text: string)

  /** An embedding vector, handled only by the embedding service and the
      database's distance operator. */
  type Embedding = seq<real>

  /** A row of the chunk table; `documentId` is a foreign key into the document table. */
  datatype Chunk = Chunk(documentId: Uuid, chunkText: string, embedding: Embedding)

  /** The constraints the database enforces on the user table: each row is
      stored under its own primary key, and usernames and emails are unique. */
  ghost predicate WellFormed(users: map<Uuid, User>)
  {
    && (forall k :: k in users ==> users[k].id == k)
    && (forall k1, k2 :: k1 in users && k2 in users && users[k1].username == users[k2].username ==> k1 == k2)
    && (forall k1, k2 :: k1 in users && k2 in users && users[k1].email == users[k2].email ==> k1 == k2)
  }

  /** Whether storing `u` would violate a constraint against a row other than
      its own: its username or email is taken by another user. */
  predicate TakenByOther(users: map<Uuid, User>, u: User)
  {
    exists k :: k in users && k != u.id && (users[k].username == u.username || users[k].email == u.email)
  }

  /** Storing a row whose name and email are free keeps the table well formed;
      this covers both inserting a new row and overwriting the row with the same id. */
  lemma StorePreservesWellFormed(users: map<Uuid, User>, u: User)
    requires WellFormed(users)
    requires !TakenByOther(users, u)
    ensures WellFormed(users[u.id := u])
    ensures users[u.id := u].Keys == users.Keys + {u.id}
  {
  }

  /** Deleting a row keeps the table well formed. */
  lemma RemovePreservesWellFormed(users: map<Uuid, User>, id: Uuid)
    requires WellFormed(users)
    ensures WellFormed(users - {id})
  {
  }
}
