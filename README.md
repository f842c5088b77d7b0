# Credential flow of the anki-card-generator backend, in Dafny

This project models the account handlers of the backend
(`backend/src/handlers/users.rs`), then proves properties of that model.
Those handlers are:

- `register_user`, which validates a registration form, checks that the
  e-mail address and the username are free, hashes the password with
  Argon2i and inserts the new `User` document;
- `login`, which finds a user by username or e-mail, verifies the password,
  writes `failed_login_attempts` back and answers with a signed session
  token;
- `generate_jwt`, which builds the RFC 7519 claim set (`sub`, section 4.1.2;
  `iss`, 4.1.1; `iat`, 4.1.6; `exp`, 4.1.4; plus a private `id`) for the
  token.

Modules, leaves first:

- `Validation` (`validation.dfy`): the e-mail and username patterns, written
  as hand-rolled predicates. It also holds the UTF-8 byte length that
  `String::len` measures.
- `Users` (`users.dfy`): the `User` document, `i32` with wrap-around,
  and the twelve-byte ObjectId with its hex form. It also says what
  `find_one`, `insert_one` and `update_one` do to a list of documents kept
  in insertion order.
- `Argon`: the verify result `Ok(true)` / `Ok(false)` / `Err`. The hasher is
  a pair of function values; this module never opens them.
- `Session`: the claims, the two clock readings and the `as u64` cast.
- `Handlers`: `RegisterOutcome` and `LoginOutcome`. Each is a function from
  the stored documents and the request to the response and the documents
  afterwards. The module also holds the lemmas about them.
- `Collection`: class `UserCollection`, whose field `users` the store
  methods change in place. Its `RegisterUser` and `Login` follow the
  handlers statement by statement. They are proved to produce exactly what
  `RegisterOutcome` and `LoginOutcome` say, and to keep the invariant
  `Consistent`.

Inputs that the source gets from the outside world are parameters here:

- the database's failures, one flag per round trip;
- the `_id` the driver generates;
- the two `Utc::now()` readings;
- the `SALT` and `JWT_SECRET` environment variables (`Config`);
- Argon2 (`Argon2`);
- the token signature (`sign`).

The two `unwrap`s of `login` that the request can reach, on the found
document's `_id` (users.rs:152) and on the counter update (users.rs:157),
give the response `Panicked`, and the store is left as it was. The other
`unwrap`s are on parameters taken to succeed, or on a `requires`
(see "## Left out").

## Behaviour of the code worth knowing

- **Wrong password.** The counter test is `password_matches.is_ok()`. So a
  wrong password (`Ok(false)`) resets `failed_login_attempts` to 0, just as
  a right one does. Only a verification error (`Err`) adds one. The counter
  therefore never grows across wrong passwords, and no response depends on
  it. See `LoginCounterWrite`, `WrongPasswordResetsCounter`, `NoLockout`
  and `ExampleLogins`.
- **Verification error.** When `verify_encoded` returns `Err`, for example
  on a malformed stored hash, the response is INTERNAL_SERVER_ERROR and not
  BAD_REQUEST.
- **Status codes.** A duplicate e-mail or username and an unknown login
  identifier are all BAD_REQUEST. There is no separate "conflict" or
  "invalid credentials" status.
- **Expiry.** `iat` and `exp` come from two separate `Utc::now()` readings.
  So `exp - iat` is 180 days plus the time between the readings. It is
  longer than 180 days when the clock moves on between them, and shorter
  when the wall clock steps back (`ExpiryWindow`).

## Model

| member | source | states |
|---|---|---|
| `Validation.MatchesEmail` | backend/src/handlers/users.rs:70-72 | every string the e-mail check accepts splits as local part `@` first label `.` tail over the regex's character classes |
| `Validation.EmailMatcherIsPattern` | backend/src/handlers/users.rs:70-72 | the hand-rolled matcher accepts a string exactly when it splits as local part `@` first label `.` tail over the three character classes of the anchored regex (both directions) |
| `Validation.MatchesUsername` | backend/src/handlers/users.rs:71-73 | a username accepted by `^[a-zA-Z0-9_]+$` has as many UTF-8 bytes as characters, and never matches the e-mail pattern |
| `Validation.ValidRegistration` | backend/src/handlers/users.rs:72-75 | a form that passes has an e-mail of the regex's shape, a username of at least 3 characters and a password of at least 2 characters (8 bytes) |
| `Validation.ValidRegistrationMeaning` | backend/src/handlers/users.rs:70-78 | a form passes iff the e-mail matches the pattern, the username has at least 3 characters from `[A-Za-z0-9_]`, and the password has at least 8 UTF-8 bytes |
| `Validation.Utf8Length` | backend/src/handlers/users.rs:74-75 | `String::len` is between the number of characters and four times it |
| `Validation.AsciiUtf8Length` | backend/src/handlers/users.rs:74 | for an ASCII string, such as any string matching the username pattern, the byte length is the character count |
| `Validation.PasswordLengthIsBytes` | backend/src/handlers/users.rs:75 | eight characters always suffice; two four-byte characters also make 8 bytes and pass |
| `Validation.ExampleRegistrationPasses` | backend/src/handlers/users.rs:70-78 | `alice` / `alice@x.com` / `password123` passes |
| `Validation.ShortFieldsRejected` | backend/src/handlers/users.rs:74-75 | a 2-character username or a 7-byte password is refused |
| `Validation.RepeatedDotAccepted` | backend/src/handlers/users.rs:70 | dots may repeat after the first domain dot (`[a-zA-Z0-9-.]+`) |
| `Validation.EmptyLabelRejected` | backend/src/handlers/users.rs:70 | the first label of the domain may not be empty (`[a-zA-Z0-9-]+`) |
| `Validation.MissingPartsRejected` | backend/src/handlers/users.rs:70 | an address without a domain dot, or with an empty local part, is refused |
| `Validation.SecondAtRejected` | backend/src/handlers/users.rs:70 | a second `@` in the domain is refused |
| `Users.WrappingIncrement` | backend/src/handlers/users.rs:147 | `+ 1` on the `i32` counter is congruent to x + 1 modulo 2^32 and equals x + 1 below `i32::MAX` |
| `Users.ToHex` | backend/src/handlers/users.rs:174 | `to_hex` gives two lower-case hex digits per byte |
| `Users.FromHexToHex` | backend/src/handlers/users.rs:174 | decoding the hex form gives back the bytes |
| `Users.ObjectIdHex` | backend/src/handlers/users.rs:174 | the `id` claim has 24 characters, and two ObjectIds have the same hex iff they are equal |
| `Users.FirstIndex` | backend/src/handlers/users.rs:80-96 | `find_one` returns the first document in stored order that matches the filter, and nothing iff no document matches |
| `Users.InsertDoc` | backend/src/handlers/users.rs:107-111 | `insert_one` appends the document under its `_id`; it fails iff that `_id` is already stored |
| `Users.SetAttempts` | backend/src/handlers/users.rs:150-157 | `update_one` by `_id` changes only the counter, only of a document carrying that id, and changes nothing when no document has it |
| `Users.SetAttemptsAt` | backend/src/handlers/users.rs:152-153 | with unique `_id`s the update sets the counter of exactly the document holding the id |
| `Users.FirstIndexIgnoresCounter` | backend/src/handlers/users.rs:122-137 | changing a stored counter changes no lookup result |
| `Session.AsU64` | backend/src/handlers/users.rs:172-173 | `timestamp() as u64` is the identity on non-negative readings and adds 2^64 to negative `i64` readings |
| `Session.SessionClaims` | backend/src/handlers/users.rs:169-175 | `sub` is the user's username, `iss` is `AnkiCC`, `id` is the 24-digit hex of the user's id, `iat` is the first reading and `exp` the second reading plus 180 × 86400 s (when in range) |
| `Session.ExpiryWindow` | backend/src/handlers/users.rs:172-173 | for any two in-range readings, `exp - iat` is 180 days plus the gap between them: exactly 180 days iff the readings agree, and shorter iff the clock stepped back |
| `Session.GenerateJwt` | backend/src/handlers/users.rs:166-184 | the token is the signature, with the secret, of claims whose `sub` is the username, `iss` is `AnkiCC`, `id` is the hex of the user's id, `iat` is the first clock reading and `exp` the second reading plus 180 days (each when in the `u64` range) |
| `Session.ClaimsIdentifyUser` | backend/src/handlers/users.rs:169-175 | two users get the same claims at the same clock iff they have the same username and id; password and counter play no part |
| `Handlers.NewUser` | backend/src/handlers/users.rs:59-105 | the document to insert has no `_id`, is not an admin, has 0 failed attempts, the form's username and e-mail, and a stored hash that verifies against the submitted password when the hasher is sound |
| `Handlers.RegisterOutcome` | backend/src/handlers/users.rs:51-112 | an invalid form is BAD_REQUEST whatever the database would answer; then e-mail lookup error → 500, e-mail taken → 400, username lookup error → 500, username taken → 400, insert error → 500; `"Registered"` iff all pass; then exactly one document is appended (no id before insert, `is_admin` false, counter 0, username and e-mail as submitted, password = hash(password, SALT)); otherwise the store is unchanged |
| `Handlers.NextFailedAttempts` | backend/src/handlers/users.rs:144-148 | the counter written is 0 iff verification returned a verdict (right or wrong password), or the old value was −1; after an error it is the old value + 1 modulo 2^32 |
| `Handlers.LoginOutcome` | backend/src/handlers/users.rs:114-164 | lookup error → 500 with the store unchanged; no user with that username or e-mail → 400 with the store unchanged; at most counters change; a panic changes nothing |
| `Handlers.LoginResponse` | backend/src/handlers/users.rs:150-163 | for the found user: no id or a failed update panics; otherwise `Ok(true)` → the token `sign(SessionClaims(user), JWT_SECRET)`, `Ok(false)` → 400, `Err` → 500 |
| `Handlers.LoginCounterWrite` | backend/src/handlers/users.rs:144-157 | with unique ids, only the found user's counter is written: 0 after `Ok(true)` and after `Ok(false)`, old value + 1 only after `Err` |
| `Handlers.WrongPasswordResetsCounter` | backend/src/handlers/users.rs:144-148 | a wrong password gives BAD_REQUEST and sets a counter c ≥ 0 to 0, never to c + 1 |
| `Handlers.NoLockout` | backend/src/handlers/users.rs:139-163 | the login response is the same whatever value any stored counter has |
| `Handlers.RegisterPreservesConsistent` | backend/src/handlers/users.rs:80-111 | one registration at a time keeps ids, usernames and e-mails unique and every stored identity valid |
| `Handlers.LoginPreservesConsistent` | backend/src/handlers/users.rs:150-157 | a login keeps that invariant |
| `Handlers.IdentifierSelectsUser` | backend/src/handlers/users.rs:122-137 | in a consistent store, a user's username or e-mail makes the `$or` lookup find exactly that user |
| `Handlers.LoginSubjectIsStoredUsername` | backend/src/handlers/users.rs:160-170 | logging in by e-mail with the right password gives the token of that user, whose `sub` is the stored username |
| `Handlers.RegisterThenLogin` | backend/src/handlers/users.rs:51-164 | if Argon2 verifies a password against its own hash: after a successful registration, logging in by username or e-mail with that password returns the token for the new document, and leaves the store unchanged |
| `Handlers.DuplicateRegistrationRejected` | backend/src/handlers/users.rs:80-96 | once registered, the same e-mail or username is refused with BAD_REQUEST and one document stays |
| `Handlers.ExampleRegistration` | backend/src/handlers/users.rs:51-112 | alice registered into an empty collection gives `"Registered"` and the one expected document |
| `Handlers.ExampleLogins` | backend/src/handlers/users.rs:114-175 | alice with the right password gets a token with `sub` alice; a wrong password by e-mail gets BAD_REQUEST and the counter stays 0 |
| `Handlers.ExampleDuplicateUsername` | backend/src/handlers/users.rs:89-96 | alice with another e-mail address is refused |
| `Collection.UserCollection.FindOne` | backend/src/handlers/users.rs:122-137 | a failed round trip is an error; otherwise the first matching document, or none |
| `Collection.UserCollection.InsertOne` | backend/src/handlers/users.rs:107-111 | a failed round trip or a taken `_id` changes nothing; otherwise the document is appended under its assigned `_id` |
| `Collection.UserCollection.UpdateOne` | backend/src/handlers/users.rs:150-157 | a failed round trip changes nothing; otherwise the new documents are `SetAttempts` of the old |
| `Collection.UserCollection.RegisterUser` | backend/src/handlers/users.rs:51-112 | the response and the new documents are those of `RegisterOutcome` on the old documents; `Consistent` is kept |
| `Collection.UserCollection.Login` | backend/src/handlers/users.rs:114-164 | the response and the new documents are those of `LoginOutcome` on the old documents; `Consistent` is kept |

## Left out

- Argon2 itself (RFC 9106) and the fixed `ARGON_CONFIG` (users.rs:7-16) are
  foreign code. `hash_encoded` and `verify_encoded` are the two function
  values of an `Argon2`. "A password verifies against its own hash" is the
  hypothesis `Sound`, used only by `RegisterThenLogin`, `ExampleLogins` and
  the third `ensures` of `Handlers.NewUser`.
  Nothing is proved about hashes never equalling a plaintext: the stored
  field is shown to be `hash(password, SALT)`, and the rest is up to Argon2.
- A failing `hash_encoded` (the `unwrap` at users.rs:103, for example when
  `SALT` is shorter than 8 bytes) is not modelled. Hashing is total here.
- JWT encoding and HS256 signing (RFC 7518 section 3.2; users.rs:177-184)
  are the opaque `sign(claims, secret)`. `encode` is taken never to fail.
- `backend/src/main.rs` (server start, CORS, routes) and
  `frontend/src/ambient.d.ts` (type declarations) are not part of this
  model.
- The environment-variable reads (users.rs:55-57, 100, 118-120, 167) are the
  `Config` parameter and the database handle. The `println!` at users.rs:68
  is output; it prints the whole form, plaintext password included.
- MongoDB and async are not modelled. Each round trip either fails with no
  effect or does its work. A round trip whose write reaches the server but
  whose reply is lost is not modelled.
- `find_one` returns the first match in insertion order. MongoDB leaves the
  order unspecified without a sort.
- The `_id` the driver generates is a parameter, and its uniqueness is not
  assumed: a collision is the insert error that the unique `_id` index gives.
- There is no unique index on `username` or `email`: the source does not
  create one.
- The check-then-insert race between concurrent registrations
  (users.rs:80-107) is a concurrency issue. `Consistent` is a sequential
  invariant only.
- Lost counter updates between concurrent logins of the same account are
  not modelled either.
- WrappingIncrement: the `i32` overflow at users.rs:147 is modelled as the
  wrap-around of a release build. A debug build panics instead, and that is
  not modelled.
- Panics (users.rs:152, 157) are the response `Panicked`, with the store
  unchanged. What axum then does with the connection is not modelled.
- `Session.GenerateJwt` requires an id where the source unwraps it
  (users.rs:174); its only caller has already unwrapped the same id at
  users.rs:152.
- `chrono`'s panic for dates outside its range (about 262,000 years from the
  epoch) is not modelled.
