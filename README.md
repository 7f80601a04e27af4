# Account, password-reset and product routes of the Node-React backend

This project models the Express/MySQL backend in `Backend/server.js`. It has
two tables:

- `usertable`: id, name, phoneNumber, address, business, email, bcrypt
  password hash, role, `reset_token`, `reset_token_expires`.
- `products`: id, name, description, price, image file name, userId.

Every route becomes an operation on those tables:

- The routes that write a table (`/signup`, `/forgot-password`,
  `/reset-password/:token`, `PUT /api/user/:id`, `POST /api/products`,
  `DELETE /api/products/:id`) are methods of the class `Server.Backend`.
  The class holds both tables and their auto-increment counters.
- The routes that only read (`/login`, `GET /api/user/:id`,
  `GET /api/products`) are functions over the table contents.

Each operation returns the HTTP status and the JSON body the handler sends.

Layout:

- `sql.dfy` (`Sql`): the SQL the handlers issue (first row of a SELECT,
  `affectedRows`, UPDATE ... WHERE, SELECT/DELETE ... WHERE). A table is the
  sequence of its rows in primary-key order.
- `credentials.dfy` (`Credentials`): bcrypt and the 64-hex-character reset
  token. bcrypt's key is the first 72 bytes of the password's UTF-8
  encoding, so two passwords that agree on those bytes are interchangeable.
- `schema.dfy` (`Schema`): the two row types, the constants (one-hour reset
  window, upload and reset URLs) and the table invariants.
- `routes.dfy` (`Routes`): replies, the read-only routes, and the table
  rewrite behind each mutating route.
- `server.dfy` (`Server`): the `Backend` class. Its invariant `Valid()` says:
  - ids ascend and stay below the counter;
  - emails are unique;
  - the two reset columns are both NULL or both set;
  - product ids ascend.
- `reset_lifecycle.dfy`, `accounts.dfy`, `products.dfy`: lemmas relating
  several operations.
- `scenario.dfy`: a client of `Backend` that walks one account and one product
  through the routes.

Inputs the program draws from its environment become parameters:

- `now`: one integer clock in milliseconds, standing for both `Date.now()`
  and the database's `NOW()`.
- `salt`: the salt of each `bcrypt.hash`.
- `token`: the reset token from `crypto.randomBytes`.
- `image`: the stored upload's file name, absent when no file was sent.

Three behaviours of the code are kept as written, though a reader might expect otherwise:

- A duplicate email at signup gets the generic 500 "Error inserting user"
  reply. There is no distinct duplicate-email outcome.
- forgot-password updates every row with the email.
- reset-password takes the email of the first row whose token is valid, then
  updates every row with that email, not that row by id.

## Model

| member | source | states |
|---|---|---|
| Sql.FirstIndex | Backend/server.js:84-88 | the row a handler reads as `data[0]`: none exactly when no row matches, otherwise a matching row with no matching row before it |
| Sql.CountWhere | Backend/server.js:121 | `affectedRows` of an UPDATE: zero exactly when no row matches the WHERE clause |
| Sql.UpdateWhere | Backend/server.js:117 | UPDATE ... WHERE: same number of rows, each matching row rewritten, every other row kept in place |
| Sql.WhereMembers | Backend/server.js:203-206 | SELECT ... WHERE: every row returned is a table row that matches, and every matching row is returned |
| Sql.WhereCountsMatches | Backend/server.js:203-206 | SELECT ... WHERE returns exactly as many rows as the WHERE clause matches, one per matching row |
| Sql.WhereDropsOne | Backend/server.js:238 | a DELETE that matches exactly the row at position k leaves the table with that row cut out and the rest in order |
| Credentials.BcryptKey | Backend/server.js:51 | the bytes bcrypt keys on are a prefix of the password's UTF-8 encoding, at most 72 bytes long, and the whole encoding unless it is cut at exactly 72 bytes |
| Credentials.BcryptKeyDeterminedByContract | Backend/server.js:51 | any byte string that is a prefix of the encoding, at most 72 bytes long, and either the whole encoding or exactly 72 bytes, is the bcrypt key |
| Credentials.Hash | Backend/server.js:51 | a digest made from a password with a salt keeps that salt and is accepted by `Compare` for that password |
| Credentials.CompareAcceptsSameKey | Backend/server.js:89 | `bcrypt.compare` accepts a digest exactly for the passwords whose bcrypt key equals the key of the password it was computed from |
| Credentials.SuffixPastKeyIgnored | Backend/server.js:51-89 | once a password's encoding reaches 72 bytes, whatever follows is ignored: the digest of one continuation accepts any other |
| Credentials.KeysDifferAtAsciiChar | Backend/server.js:51-89 | two passwords that first differ in an ASCII character within the first 72 bytes have different keys, so neither digest accepts the other |
| Credentials.SaltsSeparateDigests | Backend/server.js:51 | hashing the same password under two different salts gives two different stored digests |
| Routes.Login | Backend/server.js:74-107 | 200 exactly when the first row with the email has a digest bcrypt accepts; the reply then carries that row's id, name, role, phoneNumber, address, business and email; every failure is the one reply 401 "Invalid credentials" |
| Routes.GetProfile | Backend/server.js:248-261 | 404 "User not found" exactly when no row has the id; otherwise 200 with id, name, phoneNumber, address and business of the first row with that id |
| Routes.ListProducts | Backend/server.js:196-217 | 400 "Missing userId" exactly when userId is absent or empty; otherwise 200 with exactly the products of that user, as many items as the user has products, each with `image_url` equal to the uploads prefix followed by its image name |
| Routes.IssueToken | Backend/server.js:116-118 | every row with the email gets the token and the expiry, overwriting any earlier token, and keeps its profile and password; every other row is unchanged |
| Routes.ValidTokenIndex | Backend/server.js:138-146 | none exactly when no row has the token with an expiry strictly later than `now`; otherwise the first such row |
| Routes.ResetCredentials | Backend/server.js:149-151 | every row with the email gets the new digest and NULL reset columns and keeps its profile; every other row is unchanged |
| Routes.ApplyProfile | Backend/server.js:268-272 | the row with the id gets the four new profile columns and keeps id, email, role, password and reset columns; every other row is unchanged |
| Routes.RemoveProduct | Backend/server.js:238 | no remaining product has the id, and every product with another id remains |
| Server.Backend.Signup | Backend/server.js:50-71 | a new email gives 201 and appends a row with the next id, the bcrypt digest (never the plaintext) and NULL reset columns; an existing email gives 500 and leaves both tables unchanged; either way the auto-increment counter moves on by one, as InnoDB uses up the id of a rejected insert; the invariant is kept |
| Server.Backend.ForgotPassword | Backend/server.js:111-131 | the users table becomes `IssueToken` with expiry `now + 3600000`; 404 "Email not found" when no row has the email, otherwise 200 with the reset link; products unchanged; the invariant is kept |
| Server.Backend.ResetPassword | Backend/server.js:134-163 | no valid token row gives 400 "Invalid or expired token" and no change; otherwise 200 and `ResetCredentials` applied to the email of the first valid token row with the new digest; the invariant is kept |
| Server.Backend.UpdateProfile | Backend/server.js:264-284 | the users table becomes `ApplyProfile`; 404 "User not found" when no row has the id, otherwise 200; the invariant is kept |
| Server.Backend.AddProduct | Backend/server.js:166-192 | without an uploaded file the handler throws (500) and nothing changes; otherwise one product with the next id is appended and the 201 reply echoes it with its `image_url` |
| Server.Backend.DeleteProduct | Backend/server.js:221-245 | an unknown id gives 404 and no change; otherwise 200, and exactly the one row with that id is removed, the others kept in order |
| ResetLifecycle.UnknownEmailChangesNothing | Backend/server.js:116-122 | forgot-password for an email no row has leaves the table unchanged |
| ResetLifecycle.IssuedTokenOwned | Backend/server.js:117 | after forgot-password, a fresh token is held only by rows with that email |
| ResetLifecycle.IssuedTokenValidUntilExpiry | Backend/server.js:114-144 | a token issued at T is accepted at `now` exactly when `now < T + 3600000`, and on a row with the email it was issued for |
| ResetLifecycle.SecondResetRefused | Backend/server.js:139-150 | after a successful reset, the same token is refused at every later time (single use) |
| ResetLifecycle.NewerTokenInvalidatesOlder | Backend/server.js:117 | a newer forgot-password for the same email makes the older token invalid at every time |
| ResetLifecycle.RewritesKeepResetFieldsPaired | Backend/server.js:117-150 | forgot-password, reset-password, profile update and the signup row each keep the reset columns both NULL or both set |
| ResetLifecycle.ForgotThenReset | Backend/server.js:111-163 | the whole lifecycle: the issued token is accepted before expiry; after the reset it is refused; the new password logs in and the old one, whose bcrypt key differs, gets 401 |
| ResetLifecycle.ResetThenLogin | Backend/server.js:147-150 | after the rows of an email get a hash of the new password, login with that password succeeds and with any password whose bcrypt key differs fails |
| Accounts.LoginFailureIsUniform | Backend/server.js:84-93 | an unknown email and a wrong password both give the reply 401 "Invalid credentials" |
| Accounts.LoginWithUniqueEmail | Backend/server.js:88-106 | with unique emails, login succeeds exactly when bcrypt accepts the password against that user's digest, and returns that user's public columns |
| Accounts.SignupThenLogin | Backend/server.js:50-106 | signup with a new email followed by login with the same password gives 200 with the new row's public columns; a password whose bcrypt key differs gives 401 |
| Accounts.LoginIgnoresBytesPastKey | Backend/server.js:51-106 | after signing up with 72 `a`s and `1`, login with 72 `a`s and `2` succeeds |
| Accounts.ProfileUpdateKeepsCredentials | Backend/server.js:268-272 | a profile update never changes the status of any login |
| Accounts.ProfileReadAfterUpdate | Backend/server.js:250-272 | reading a profile after updating it returns the new name, phoneNumber, address and business |
| Products.AddedProductListed | Backend/server.js:171-206 | a product just added appears in its owner's listing |
| Products.DeletedProductUnlisted | Backend/server.js:199-243 | after a delete, no listed product has that id, and every other product of the owner is still listed |
| Products.AddThenDeleteRestores | Backend/server.js:171-238 | deleting the product just added, whose id no other product has, restores the table |

## Left out

- Express setup is not modelled: the app, CORS, JSON parsing, static serving of `/uploads`, the root route and the listener. It is HTTP plumbing.
- The upload directory, multer's disk storage and its `Date.now()`/`Math.random()` file names are not modelled. The stored file name is an input.
- Deleting the image file with `fs.unlink` is not modelled. It is file I/O and its errors are ignored.
- The MySQL connection and every "database error" 500 reply are not modelled. The statements are assumed to succeed, except the unique key on `email`. That key lives in the database schema, which is not part of this model.
- Server.Backend.Signup: an insert rejected for any reason other than a duplicate email is not modelled.
- The JavaScript clock and the database clock are one `now` value here. MySQL's DATETIME resolution is not modelled.
- bcrypt's cost factor, salt generation and constant-time comparison are not modelled. The digest is a value that remembers the password's 72-byte key and the salt. So the model captures "accepts exactly the passwords with the same key" and "different salts give different digests", but not one-wayness. The key is taken to be exactly the first 72 bytes; how the native bcrypt library treats a NUL byte inside a password is not modelled.
- Token generation with `crypto.randomBytes` is not modelled. The token is a parameter, and lemmas that need it to be new say so (`TokenFresh`).
- Concurrency is not modelled. The handlers' callbacks run one at a time here, so the race between the SELECT and the UPDATE of reset-password is outside the model.
- String comparison is exact. MySQL's default collations compare case- and accent-insensitively, and the PAD SPACE collations (the MySQL 5.7 default, MariaDB) also ignore trailing spaces; none of that is modelled.
- URL and form parameters have fixed types here. Type coercion between them and integer columns is not modelled, and neither is a missing body field becoming NULL.
- The order of rows without ORDER BY is taken to be primary-key order.
- Routes.ListProducts: states which products are listed and how many items there are, but not that they appear in table order. For a table holding two identical rows it also leaves open how often each is listed; ids are unique in every state `Server.Backend.Valid()` admits, so no reachable table has such rows.
- Routes.RemoveProduct: states which rows remain, but not their order. Server.Backend.DeleteProduct states the exact resulting table.
