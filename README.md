# DHLL login gateway — a Dafny model

The backend of this DHL-styled login page is one Express server (`Backend/server.js`). This
model covers the part of it that decides things:

- the **origin gate**, the `corsOptions.origin` callback over the fixed list `allowedOrigins`;
- the **`User` collection**: documents with `email`, `password` and the `createdAt`/`updatedAt`
  stamps, a unique index on `email`, and `required` on both fields;
- the **`POST /login` handler**: validate the body, `findOne` by email, then create an account for
  an unseen email, accept a matching password, or reject a mismatching one with 401;
- the **`GET /users` handler**: every account with the password removed, newest first.

Layout, one module per file:

| file | module | what it holds |
|---|---|---|
| `wrappers.dfy` | `Wrappers` | `Option`, and JavaScript truthiness of an optional string |
| `cors.dfy` | `Cors` | the allow-list, `Includes` (the `Array.prototype.includes` scan), `Decide` |
| `users.dfy` | `UserModel` | `UserDoc`, `Collection`, the collection invariant `Wellformed`, `Find`, `Insert` |
| `login.dfy` | `Login` | the reply type, `Step` (one `/login` call on a collection value) and its properties |
| `listing.dfy` | `Listing` | redaction, the newest-first sort, `List` (one `/users` call), ordering lemmas |
| `store.dfy` | `Store` | class `UserStore`: the collection held in fields, `FindOne`, `Create`, `Login` run in place |
| `server.dfy` | `Server` | the two routes behind the gate, and lemmas over several calls |

Modelling choices:

- The Mongo collection becomes an in-memory sequence of documents in insertion order, plus a
  counter `clock`. The counter supplies each new document's id and both its stamps, so creation
  order is strictly increasing. Email uniqueness is therefore an invariant (`EmailsUnique`, inside
  `Wellformed`) that `Insert` and `UserStore.Create` keep, as the unique index does. It is not
  given for free by a map.
- JavaScript's `!x` is true for an absent value and also for `""`. So `Decide` lets an empty
  `Origin` through, and `/login` answers 400 for an empty email or password as well as a missing one.
- Storage failures are inputs. For `/login` they are `Faults(findFails, createFails)`; for `/users`
  they are the `storeFails` flag. A failure gives the handler's 500 reply and leaves the store as
  it was. If `create` refuses a document (missing field, duplicate key), that also lands in the
  handler's catch and gives 500. `Login.Step` models this path although it cannot arise in a
  sequential run.
- `Login.Step` is the collection-value form of the handler. `Store.UserStore.Login` runs the same
  steps on the object: a scan for `findOne`, then `Create`. Its postcondition ties the reply and
  the new state to `Step` on the old state, so every lemma about `Step` also applies to the method.
- `Backend/server.js` does not do several things a hardened gateway would do. It has no pattern
  (suffix) origin rules, no atomic insert-if-absent with a re-read on conflict, and no password
  hashing. With `timestamps: true` mongoose would refresh `updatedAt` on an update, but neither
  handler ever updates a document, so in the model `updatedAt` always equals `createdAt`. The
  model follows the code: exact-match origins only, check-then-insert, and plaintext comparison
  with `!==`.

## Model

| member | source | states |
|---|---|---|
| `Cors.Includes` | Backend/server.js:29 | the `includes` scan finds an origin exactly when it is, case-sensitively and character for character, an element of the list |
| `Cors.Decide` | Backend/server.js:28-35 | a falsy origin is allowed whatever the list holds; a present origin is allowed iff it is in the list; every denial carries "Not allowed by CORS"; the decision is a pure function, so it reads and writes no store |
| `Cors.DeployedGate` | Backend/server.js:18-22 | the three configured origins pass; another port, a trailing slash, upper case or a sub-domain is denied |
| `UserModel.Wellformed` | Backend/server.js:60-66 | the collection invariant (unique emails, ids and stamps increasing in creation order and below the counter, schema-valid documents); under it no email has more than one account |
| `UserModel.Find` | Backend/server.js:83 | `findOne` returns the first document carrying the email, and returns nothing exactly when no document carries it |
| `UserModel.UniqueCount` | Backend/server.js:62 | under the unique index an email names exactly one document if `findOne` finds it, otherwise none |
| `UserModel.Insert` | Backend/server.js:60-66 | `create` refuses exactly when a required field is empty or the email is already stored, with `MissingField` for an empty field and `DuplicateKey` otherwise; otherwise it appends one document with that email and password under an id above every stored id, and keeps the collection invariant |
| `Login.Step` | Backend/server.js:75-104 | one `/login` call: the status is 200, 400, 401 or 500; `success` holds iff the status is 200, and a `user` is present iff `success`; a failed call leaves the collection unchanged; the invariant is kept and stored documents stay a prefix; the collection changes only on a successful first login for an unseen email |
| `Login.MissingFieldsRejected` | Backend/server.js:78-81 | missing or empty email or password gives 400, `success = false`, "Email and password required", and the collection is unchanged |
| `Login.StepOnlyAppends` | Backend/server.js:83-93 | every login keeps the invariant (one account per email, ordered stamps, schema-valid records); stored documents are never changed or removed, so no password is overwritten; at most one document is added |
| `Login.UnseenEmailCreates` | Backend/server.js:83-99 | for an unseen email exactly one document is appended, with that email and password and a fresh id, and the reply is 200 with `user = {id, email}` of the new document, when the store does not fail |
| `Login.MatchingPasswordAccepted` | Backend/server.js:83-99 | a stored email with its stored password gives 200 naming that account, and the collection is unchanged, when the lookup does not fail |
| `Login.MismatchingPasswordRejected` | Backend/server.js:89-92 | a stored email with another non-empty password gives 401 "Invalid password", and the collection is unchanged, when the lookup does not fail |
| `Login.StoreFailureIsServerError` | Backend/server.js:83-102 | with both fields given, a `findOne` that throws, or a `create` that throws for an unseen email, gives 500, `success = false`, "Server error", and the collection is unchanged |
| `Login.ExactlyOneAfterSuccess` | Backend/server.js:83-99 | after any successful login, both fields were given and the collection holds exactly one account for the email; that account has the supplied password and is the one named in the reply |
| `Login.RepeatLoginStable` | Backend/server.js:83-99 | after a successful login, repeating it with the same credentials gives the same reply and changes nothing, when the second lookup does not fail |
| `Login.SuccessCharacterised` | Backend/server.js:75-104 | a login succeeds iff both fields are given, the lookup worked, and either the stored password matches or the email is unseen and the create worked |
| `Listing.InsertByDate` | Backend/server.js:109 | placing one record into a newest-first sequence keeps it newest first and adds exactly that record |
| `Listing.SortNewestFirst` | Backend/server.js:109 | `sort({ createdAt: -1 })` yields a permutation of its input with `createdAt` non-increasing |
| `Listing.List` | Backend/server.js:107-115 | the reply is the 500 "Error fetching users" body iff the store fails; when the store works it is a list, a newest-first permutation of the redacted documents; the record type has no password field |
| `Listing.OneRecordPerAccount` | Backend/server.js:109 | the listing has one record per stored account, each with that account's id, email and stamps, and no other records |
| `Listing.SortReversesCreationOrder` | Backend/server.js:109 | records created in strictly increasing order are listed in exactly the reverse order |
| `Listing.ListingIsReverseCreation` | Backend/server.js:109 | on a well-formed collection the listing is its redacted documents, last created first |
| `Store.UserStore.constructor` | Backend/server.js:68 | a new store is empty and meets the invariant |
| `Store.UserStore.FindOne` | Backend/server.js:83 | the in-order scan returns what `Find` specifies: the first document with the email, or nothing when none has it |
| `Store.UserStore.Create` | Backend/server.js:87 | keeps the invariant; it appends the document that `Insert` produces, or on a refusal leaves the store unchanged |
| `Store.UserStore.Login` | Backend/server.js:75-104 | the handler run in place keeps the invariant; its reply and the new store are those of `Step` on the old store |
| `Server.PostLogin` | Backend/server.js:28-41 | a denied origin is refused with "Not allowed by CORS" and the store is left unchanged; an allowed one gets the `/login` reply and store change of `Step` |
| `Server.GetUsers` | Backend/server.js:107-115 | a request is refused with "Not allowed by CORS" iff its origin is denied; an allowed one gets the listing of the current store |
| `Server.SignupAppends` | Backend/server.js:83-88 | a first login appends one account for that email, keeps the invariant, and leaves every other unseen email unseen, with no store failure |
| `Server.SignupListedFirst` | Backend/server.js:109 | a first login puts the new account at the head of the listing, before everything listed earlier, with no store failure |
| `Server.CreatedInOrderListedNewestFirst` | Backend/server.js:109 | first logins for A, then B, then C are listed C, B, A, ahead of the accounts already there, with no store failure |

Definitions without contracts of their own, and the rows that prove things about them:

- `Wrappers.Truthy` (Backend/server.js:29, 78), JavaScript's `!v` on an optional string: used by
  `Cors.Decide`, `Login.MissingFieldsRejected` and `Login.Step`.
- `UserModel.EmailsUnique` and `UserModel.SchemaValid` (Backend/server.js:62-65), the unique index
  and the `required`/`timestamps` constraints: parts of `UserModel.Wellformed`, kept by
  `UserModel.Insert` and `Login.StepOnlyAppends`, used by `UserModel.UniqueCount` and
  `Login.ExactlyOneAfterSuccess`.
- `Listing.Redact` and `Listing.Project` (Backend/server.js:109), `select("-password")`: used by
  `Listing.List`, `Listing.OneRecordPerAccount` and `Listing.ListingIsReverseCreation`.
- `Login.Success` (Backend/server.js:95-99), the 200 body `{success: true, message: "Login
  successful", user: {id, email}}`: used by `Login.UnseenEmailCreates`,
  `Login.MatchingPasswordAccepted` and `Login.ExactlyOneAfterSuccess`.
- `UserModel.NextDoc` (Backend/server.js:65, 87), the document `create` stamps with the next id
  and equal `createdAt`/`updatedAt`: used by `UserModel.Insert` and `Store.UserStore.Create`.

## Left out

- Express wiring, JSON body parsing, and the `cors` package's header generation and preflight
  handling (Backend/server.js:36-42, 47) are library behaviour and are not modelled. Only the
  allow/deny callback is. A denial is modelled as a `CorsRejected` reply; how Express renders the
  error is not modelled.
- The MongoDB connection and mongoose internals (Backend/server.js:52-55) are not modelled, and
  neither is the generation of ObjectIds and `Date` stamps. Ids and stamps come from the store's
  counter. Two creations within one millisecond, which in Mongo could share a `createdAt`, do not
  arise in the model.
- The race between `findOne` and `create` in concurrent first logins is not modelled, because the
  model is sequential. In the source, the loser of that race gets a duplicate-key error and the 500
  catch. The model keeps this path (`Insert` refuses, `Step` gives 500), but no sequential run
  reaches it.
- Listed records are `{id, email, createdAt, updatedAt}`. Each document mongoose returns also
  carries the version key `__v`, and its `_id` is an ObjectId rather than a number; neither detail
  is modelled.
- Request body fields are `Option<string>`. JSON values of other types (numbers, objects, arrays)
  in `email` or `password`, and mongoose's casting of them, are not modelled.
- A reply carries only the status and the JSON fields `success`, `message` and `user`. HTTP
  headers are not modelled.
- Logging, static frontend serving and `listen` (Backend/server.js:32, 88, 101, 112, 120-134) are
  I/O and are left out.
- Frontend/src/App.js is not part of this model. It is browser UI state, `fetch` calls, alerts and
  a redirect; its required-field check mirrors the server's.
