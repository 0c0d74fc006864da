# fastapi-rag, modelled in Dafny

A FastAPI service with two halves, modelled here with the external services made into parameters:

- **Retrieval pipeline** (`app/routers/rag.py`). An upload stores a document. It then stores one chunk per piece of the document's text, each with the document's id and the piece's embedding. A query embeds the question and takes the three stored chunks nearest to it, across all documents. It joins their texts with newlines into a context block, sends a fixed two-message prompt to a chat service, and returns the answer with the chunk texts.
- **User table and its access rules** (`app/routers/users.py`, `app/routers/auth.py`, `app/dependencies.py`). Every user endpoint first resolves the caller from a bearer token. Administrators see and manage every user. When listing, reading, updating or deleting, other users reach only their own row. The role-change endpoint (`PATCH /users/{id}/role/`) is the exception: it checks only that the caller is logged in (see "## Findings"). Only administrators may change the role stored in the table. Registration refuses taken usernames and emails and always grants the plain user role.

Modules, one per source file or component:

| module | file | models |
|---|---|---|
| `Common` | `common.dfy` | `Option`, `Result` and the error kinds (not-found, unauthorized, forbidden, bad-request, plus the database, embedding and chat failures) |
| `Models` | `models.dfy` | the records of `app/models.py` and the constraints the database puts on the user table |
| `Helpers` | `helpers.dfy` | the user lookups by username and email; the shapes of hashing and token encode/decode |
| `Strings` | `strings.dfy` | joining lines with `"\n"`, and splitting on `"\n"` as its inverse |
| `Ranking` | `ranking.dfy` | nearest-first selection: an insertion sort by a distance key, then the first k |
| `Dependencies` | `dependencies.dfy` | the guards `get_current_user` and `get_current_admin`, and the admin-or-self gate |
| `Users` | `users.dfy` | class `UserTable` (a `map<Uuid, User>`) with the endpoints of `users.py` |
| `Auth` | `auth.dfy` | registration (a method of the module that takes a `UserTable` and changes it) and login |
| `Rag` | `rag.dfy` | class `DocumentStore` (a document map and a chunk sequence) with upload and query |

How the model is built:

- **Ties go to stored order.** Among chunks at equal distance the database may return any order. The model breaks such ties by stored (insertion) order, one of the orders the database may return; see "## Left out".
- **Collaborators are parameters.** The password hash and check, token encoding and decoding, `chunk_text`, `create_embedding`, the database's `<=>` distance and the chat completion are all function-typed parameters. A failing service call is `None`.
- **Guards run first.** Each user endpoint takes the bearer token and the decoder and runs `CurrentUser` before anything else, as FastAPI's dependencies do. Its contract covers the guard's failure as well as the endpoint's own cases.
- **Database constraints are modelled.** The primary keys and the unique indexes on username and email (`app/models.py:32-37`) are part of the model. An insert or update that would violate them fails with `IntegrityError` and changes nothing. This keeps `WellFormed` true, so a lookup by username has at most one answer.
- **As the code behaves.** In three places a stricter design would act differently. The model follows the code each time:
  - A failure while embedding chunks leaves the already committed document stored, with none of its chunks. It is not a full rollback.
  - A query over an empty store answers from an empty context instead of failing.
  - No chunking algorithm or word limit exists in the code, so none is modelled.

## Model

| member | source | states |
|---|---|---|
| `Models.StorePreservesWellFormed` | app/models.py:32-37 | storing a row whose username and email are not held by another row keeps ids, usernames and emails unique |
| `Models.RemovePreservesWellFormed` | app/models.py:32-37 | deleting a row keeps the table's constraints |
| `Helpers.FindByUsername` | app/helpers.py:16-17 | finds a user exactly when some stored row has that username, and returns that stored row |
| `Helpers.FindByEmail` | app/routers/auth.py:59 | finds a user exactly when some stored row has that email, and returns that stored row |
| `Dependencies.CurrentUser` | app/dependencies.py:19-40 | succeeds exactly when the token decodes, its payload has `sub`, and a stored user has that username; returns that stored user; every failure is unauthorized; a function of the table, so it never changes it |
| `Dependencies.AdminOrSelf` | app/routers/users.py:51 | definition: the admin-or-self gate used at users.py:51, 70 and 99, true when the caller is an admin or their id is the addressed id |
| `Dependencies.CurrentAdmin` | app/dependencies.py:43-46 | returns the caller unchanged exactly when their role is admin, forbidden otherwise; reads no table |
| `Users.Visible` | app/routers/users.py:19-24 | a row is listed exactly when it is stored and the caller is an admin or the row has the caller's id |
| `Users.AdminSeesAll` | app/routers/users.py:21-24 | an administrator lists the whole table |
| `Users.NonAdminSeesSelf` | app/routers/users.py:21-24 | a stored non-admin caller lists exactly their own row |
| `Users.Updated` | app/routers/users.py:78-84 | the updated row keeps its id, takes the submitted username and email and the hash of the submitted password, and takes the submitted role only when the caller is an admin |
| `Users.UserTable.GetUsers` | app/routers/users.py:15-24 | guard failure is passed on; otherwise the result holds exactly the stored rows the caller may see |
| `Users.UserTable.PostUser` | app/routers/users.py:27-36 | unauthenticated or non-admin callers change nothing; an admin's submitted user is stored with its password replaced by the hash, unless its id, username or email is taken |
| `Users.UserTable.GetMe` | app/routers/users.py:39-41 | returns the stored user the token names, unauthorized otherwise |
| `Users.UserTable.GetUser` | app/routers/users.py:44-59 | returns the row exactly when the id is stored and the caller passes the admin-or-self gate; not-found otherwise |
| `Users.UserTable.PutUser` | app/routers/users.py:62-89 | outside the gate or for an unknown id: not-found, nothing changes; otherwise only the target row changes, to the updated row, unless its new username or email is held by another row |
| `Users.UserTable.DeleteUser` | app/routers/users.py:92-109 | outside the gate or for an unknown id: not-found, nothing changes; otherwise exactly the target id is removed |
| `Users.UserTable.PatchUserRole` | app/routers/users.py:116-131 | as written: any authenticated caller; not-found for an unknown id, otherwise a role grant for the external service; the table is never written |
| `Users.RoleChange` | app/routers/users.py:123-131 | as written: once the caller is authenticated, a grant exactly when the id is stored, whatever the caller's role; not-found otherwise |
| `Users.NonAdminGrantsAnyRole` | app/routers/users.py:116-131 | a non-admin caller obtains an admin-role grant for another stored user |
| `Users.AdminRoleChange` | app/routers/users.py:27 | corrected: a grant exactly when the caller is an admin and the id is stored; forbidden for non-admins, not-found for an unknown id |
| `Users.AdminRoleChangeRefinesRoleChange` | app/routers/users.py:116-131 | the corrected role change agrees with the endpoint for admins and refuses every non-admin |
| `Users.UserTable.PatchUserRoleAdminOnly` | app/routers/users.py:116-131 | corrected endpoint: guard failure passed on, forbidden for non-admins, then not-found or the grant; the table is never written |
| `Auth.Claims` | app/routers/auth.py:42 | definition: the token payload, `sub` = the username and `role` = the role's stored value |
| `Auth.Login` | app/routers/auth.py:30-45 | a bearer token exactly when a stored user has the username and the password verifies against their hash; the token encodes `sub` = username and `role` = that user's role; unauthorized otherwise |
| `Auth.LoginThenCurrentUser` | app/routers/auth.py:41-45 | when decoding inverts encoding, the guard resolves a token issued by login back to the user who logged in, with the role claim matching their stored role |
| `Auth.Register` | app/routers/auth.py:48-76 | a taken username is refused first, then a taken email, both as bad-request with nothing changed; otherwise exactly one row is added, with the submitted username and email, the hashed password and the user role; the table's uniqueness is kept |
| `Auth.RegisteredUserCanLogIn` | app/routers/auth.py:65-74 | after a registration, logging in with the submitted credentials yields a token with `sub` = the username and `role` = "user" |
| `Strings.Join` | app/routers/rag.py:50 | `"\n".join`: empty for no lines; otherwise as long as all lines together plus one separator per consecutive pair |
| `Strings.JoinSplit` | app/routers/rag.py:50 | joining the pieces of any split gives back the string |
| `Strings.SplitJoin` | app/routers/rag.py:50 | splitting the join of a non-empty list of newline-free lines gives back the list |
| `Strings.JoinContains` | app/routers/rag.py:50 | every line occurs in the join |
| `Ranking.Insert` | app/routers/rag.py:47 | inserting adds exactly the one element, as a multiset |
| `Ranking.InsertSorted` | app/routers/rag.py:47 | inserting into a sequence sorted by the key keeps it sorted |
| `Ranking.SortBy` | app/routers/rag.py:47 | the result is sorted by the key and is a permutation of the input |
| `Ranking.SortByEqualKeys` | app/routers/rag.py:47 | the all-equal case only: when every key is equal, sorting leaves stored order as it is |
| `Ranking.Nearest` | app/routers/rag.py:47 | returns min(k, N) elements in ascending key order, all drawn from the input, all of them when N <= k, and nothing left out has a smaller key than anything taken |
| `Rag.NewChunks` | app/routers/rag.py:29-34 | definition: one chunk row per piece, in order, with the document's id, the piece as text and the piece's embedding; as many rows as pieces |
| `Rag.Prompt` | app/routers/rag.py:52-63 | definition: the chat request to `gpt-4o-mini` with the fixed system instruction, then the user message `"Context:\n" + context + "\n\nQuestion: " + question` |
| `Rag.Texts` | app/routers/rag.py:67 | the context list is the retrieved chunks' texts, in retrieval order |
| `Rag.UploadedDocumentChunks` | app/routers/rag.py:28-34 | a new document has no chunks before its upload; after a successful upload its chunks are exactly `NewChunks`: one per piece, in order, with the piece as text and the piece's embedding |
| `Rag.Retrieve` | app/routers/rag.py:45-48 | at most 3 chunks, from all stored chunks regardless of document, in ascending distance to the query embedding, all of them when 3 or fewer are stored, and no chunk left out is nearer than one returned |
| `Rag.PromptHoldsRetrievedTexts` | app/routers/rag.py:50-63 | every retrieved text occurs in the user message sent to the chat service |
| `Rag.ContextBlockDeterminesTexts` | app/routers/rag.py:50 | when no retrieved text holds a newline, the prompt's context block splits back into exactly the returned context list |
| `Rag.EmptyStoreQuery` | app/routers/rag.py:47-50 | with nothing stored, nothing is retrieved and the user message is `"Context:\n\n\nQuestion: "` + question |
| `Rag.DocumentStore.Upload` | app/routers/rag.py:22-40 | a taken document id changes nothing; otherwise the document is stored whatever follows; a new document has no chunks before the upload; if every piece embeds, the chunk rows grow by exactly one chunk per piece, in order, the document's chunks are then exactly those, and the response carries the document's id; if any embedding fails, no chunk is added |
| `Rag.DocumentStore.Query` | app/routers/rag.py:43-67 | a failed question embedding fails the query; otherwise the chat service gets the fixed system instruction and `"Context:\n" + join + "\n\nQuestion: " + question`; its answer comes back with the retrieved texts, and a failed chat call fails the query |

## Findings

| source | as written | input that shows it | evidently intended | confidence | as-written member | corrected member |
|---|---|---|---|---|---|---|
| app/routers/users.py:116-131 | the role-change endpoint depends only on `get_current_user`, so any logged-in user can obtain a role grant for any stored user | a caller with the user role, a token that names them, and another stored user's id with role admin: the result is a grant of the admin role | the administrator guard that `post_user` uses (users.py:27), so that only administrators change roles | medium, not executed | `Users.NonAdminGrantsAnyRole` | `Users.UserTable.PatchUserRoleAdminOnly` |

## Left out

- The OpenAI embedding and chat clients are parameters. The Oso authorization service is not modelled: `add_oso_role` at app/routers/auth.py:75 is left out. `PatchUserRole` returns the grant it would hand to Oso. `add_oso_role` is imported but not defined in app/oso.py, and neither is `delete_oso_user`.
- `get_user_by_email` is imported at app/routers/auth.py:12 but not defined in app/helpers.py. `FindByEmail` models it by analogy with `get_user_by_username`.
- `chunk_text` and `create_embedding` are imported at app/routers/rag.py:9 but neither is defined in app/helpers.py. Both are uninterpreted parameters; no chunking algorithm or word bound is assumed.
- pgvector's cosine distance `<=>` is an abstract real-valued key. The 384-dimension `Vector` column is not modelled: embeddings are opaque, and a vector of the wrong length is not rejected.
- The database's order among chunks at equal distance is unspecified. The model breaks ties by stored (insertion) order, which is one of the orders the database may return. `Ranking.SortByEqualKeys` proves this only for the case where every key is equal; general stability of `Ranking.SortBy` is not stated. `Rag.Retrieve` and `Rag.DocumentStore.Query` compute with that order, so their results fix a tie order that the source does not promise. The properties stated in `Rag.Retrieve`'s contract (count, drawn from the store, ascending distance, nothing left out nearer) hold for every order the database may return.
- bcrypt hashing is a deterministic parameter. Real bcrypt salts each hash, so two hashes of one password differ.
- JWT signing is a parameter, and the `exp` claim is not modelled: no clock. Expiry is part of what the decoder may refuse.
- The chunk table's own `id` primary key is not modelled. Nothing in the core reads it.
- Fresh UUIDs (`uuid4`) are inputs: `newId` for registration, and the id inside the submitted body for `post_user` and upload.
- Sessions, engine setup, table creation, router mounting and HTTP status codes are not modelled. Errors are kinds, not status codes.
- The root `main.py` (an older, unmounted sqlite service) and the admin-creation scripts are not part of this model.
- Uncommitted session state is not modelled. A failed chunk loop is modelled only by its outcome: no chunk row is added.
