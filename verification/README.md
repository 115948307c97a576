# Posts-board backend: request handlers over an abstract store

This project models the request-handling core of a small web backend. The backend
offers user registration and login, plus a board of location-tagged community posts.
It has four handlers:

- `register` (POST /auth/register)
- `login` (POST /auth/login)
- `getAllPosts` (GET /posts)
- `createPost` (POST /posts)

Each handler checks its parsed request, shapes one row, runs one SQL statement and maps
the outcome to an HTTP status and body.

The relational database is replaced by the class `Handlers.Backend`. It holds a
sequence of `users` rows, a sequence of `posts` rows, and one auto-increment counter
per table, as MySQL keeps them. SQL statements become sequence operations:

- `INSERT` appends a row under the table's next id.
- The login `SELECT ... WHERE email = ? AND password = ?` takes the first row in store
  order that matches both fields exactly (`Rows.FindUser`).
- The listing `SELECT` projects eight columns of every row (`Rows.ListedPost`).

Store failures are a parameter of each handler:

- `WriteFault` for the two inserts. It can strike before the row is written, or after
  the committed insert, while the generated key is fetched or the statement or the connection
  is closed.
  In the second case the row stays stored and the answer is 500.
- `Option<string>` for login.
- `ReadFault(atRow, message)` for the listing. The cursor fails when asked for row
  `atRow`, and no partial list is ever returned.

The server clock is passed in as `now`, already rendered as its ISO-8601 text.

The model reproduces what the code stores and what it echoes back, including where the
two differ:

- Register stores `""` for a missing phone, but its 201 answer echoes the null.
- Create-post stores status `"active"` and `""` for a missing description or contact,
  but its 201 answer echoes the client's own status, username and nulls.
- Listing leaves `userId`, `status` and `username` null, whatever was stored.

Modules:

- `Entities` (entities.dfy) holds the records and the response.
- `Validation` (validation.dfy) holds the null/blank checks and the `""` default.
- `Rows` (rows.dfy) holds the row shaping, the echoes, the projections, the lookup and
  their lemmas.
- `Handlers` (handlers.dfy) holds the store class, the handlers and two client
  scenarios.

## Model

| member | source | states |
|---|---|---|
| `Validation.AcceptedPostHasContent` | src/main/java/Main.java:208-213 | a post passes the create check if and only if it has a user id, latitude and longitude, and a title and a type that each contain a non-whitespace character |
| `Validation.BlankExamples` | src/main/java/Main.java:208-209 | `isBlank` holds of "", of tabs and newlines and of U+3000; it does not hold of a non-breaking space U+00A0 or of ordinary text |
| `Validation.ExamplePostChecks` | src/main/java/Main.java:208-213 | a typical lost-pet post ("Lost Dog", "lost_pet", coordinates, user 1) is accepted, and the same post without a latitude is refused |
| `Rows.FindUser` | src/main/java/Main.java:138-147 | the lookup returns the index of a row whose email and password both equal the request's, with no matching row before it; it returns none exactly when no row matches |
| `Rows.FindUserAppend` | src/main/java/Main.java:138-147 | after a row is appended, login finds the same earlier row as before; the new row is found only when no earlier row matched |
| `Rows.RegisteredPhoneEcho` | src/main/java/Main.java:103-121 | the stored user row holds the request's username, email and password verbatim, the phone defaulted to `""`, rating 0.0, count 0 and `now`; the user login later returns for it equals register's answer, except that the phone is the stored `""` default; the two agree if and only if a phone was sent |
| `Rows.RegisterThenLoginFinds` | src/main/java/Main.java:98-160 | after register's insert, login with the same email and password finds a row carrying that email; it finds the new row, with its stored phone, exactly when no earlier row had the same credentials |
| `Rows.CreatedPostEcho` | src/main/java/Main.java:215-239 | create's answer keeps every field the client sent, with only id and createdAt overwritten; the stored row has the sent userId, type, title, lat and lng, status "active", createdAt `now`, and `""` for a missing description or contact |
| `Rows.ListedAfterCreated` | src/main/java/Main.java:175-239 | listing a created post's row gives create's answer with userId, status and username null and the defaulted description and contact |
| `Handlers.Backend.IdsUnique` | src/main/java/Main.java:112-115 | under the store invariant no two rows of one table share a generated id |
| `Handlers.Backend.Register` | src/main/java/Main.java:90-128 | a missing email, password or username gives 400 "Missing required fields" with nothing stored; otherwise one user row is appended under the next id, unless the store fails first, in which case nothing is stored and the answer is 500 "Registration failed: …"; without a failure the answer is 201 with the echoed user; a failure after the insert gives 500 with the row kept; the posts table and the id invariant are preserved |
| `Handlers.Backend.Login` | src/main/java/Main.java:130-168 | a missing email or password gives 400; a store failure gives 500 "Login Failed: …"; otherwise 200 if and only if some row matches both fields exactly, answering with the first matching row's user, and 401 "Invalid email or password" otherwise; the store is never changed |
| `Handlers.Backend.GetAllPosts` | src/main/java/Main.java:174-200 | without a failure, 200 with one post per stored row in store order, each the eight-column projection of its row; a failure at any row gives 500 "DB error: …" and no list |
| `Handlers.Backend.CreatePost` | src/main/java/Main.java:205-246 | a missing body, a null or blank title or type, or a null lat, lng or userId gives 400 with nothing stored; otherwise one post row is appended under the next id, unless the store fails first; without a failure the answer is 201 with the body echoed, carrying the new id and `now`; a store failure gives 500 "DB error: …"; users and the id invariant are preserved |
| `Handlers.RegisterThenLogin` | src/main/java/Main.java:90-168 | on an empty store, register answers 201 and a following login answers 200 with the same user (id 1), except that login's phone is the stored `""` where register echoed a null |
| `Handlers.CreateTwiceThenList` | src/main/java/Main.java:174-246 | on an empty store, two accepted posts get ids 1 and 2; the listing that follows holds exactly those ids in creation order, with userId, status and username null; listing again with no write in between gives the identical answer |

## Left out

- Server start-up, route registration, CORS, the `/health` endpoint and the fixed connection settings are configuration, not logic.
- JDBC connections, prepared statements, result sets and stack traces are replaced by the abstract store and the fault parameters.
- JSON (de)serialisation, including ignoring unknown fields, is left out. The handlers take the parsed records, with `Option` for every nullable field.
- A malformed body makes `ctx.bodyAsClass` throw at the handler's first statement, before any check or store access. A JSON `null` body makes register and login fail with a null dereference at their first check. Neither is modelled. Create-post does check `input == null`, and that check is modelled.
- The clock and the ISO-8601 rendering of instants are left out. `now` is a parameter holding the rendered text.
- The store is assumed to give back a timestamp and the coordinates exactly as written. A column that truncates fractional seconds would make the listed `createdAt` differ from create's answer, and a FLOAT or DECIMAL column would round the listed `lat` and `lng`; the table schema is not part of this model, so `Rows.ListedAfterCreated` assumes exact storage.
- `lat`, `lng` and `rating` are Java `Double`s. They are modelled as `real`, because they are only stored and copied. NaN and infinities, which JSON cannot carry, are left out.
- `Validation.IsWhitespace` covers `Character.isWhitespace` on Unicode scalar values only. Java strings may hold unpaired surrogates, which Dafny strings cannot.
- `Rows.Matches`: SQL `=` is modelled as exact string equality. A case- or accent-insensitive column collation is not modelled, because the schema is not part of this model.
- Ids are unbounded integers. Overflow of the 64-bit key is not modelled.
- A store that returns no generated key (`keys.next()` false) is not modelled, because the abstract store always yields one. In the code, register would then answer with no body, and create-post would echo the client's own id.
- An auto-increment value consumed by an insert that fails before writing is not modelled. The counter advances only when a row is stored.
- Concurrency across requests is left out. Each handler is one sequential call on the store.
