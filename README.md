# Contacts and credentials server core, modelled in Dafny

This project models the server core of a small contacts application (Python,
FastAPI with SQLAlchemy). It covers four parts:

- **The contact relationship store and state machine.** A `contacts` row joins an
  initiating user (`current_user_id`) to a `friend_id`. Its status is one of
  PENDING, REQUESTED, ACCEPTED, REJECTED, BLOCKED or REMOVED. It also has a
  nullable acceptance date and a last-updated time.
  - A request inserts a REQUESTED row after four ordered guards.
  - Remove, block, accept, reject and unblock rewrite one row in place. The gate
    lets a row move only when it is *live* (REQUESTED or ACCEPTED) and the caller
    is one of its two users.
- **Token issuing and verification.** Access and refresh tokens are JSON Web
  Tokens (RFC 7519) signed with HS256 (section 3.2 of RFC 7518). The model
  says which key and token type each check requires, and which status code and
  message each failure produces.
- **The account service and the `users` table.** Signup validation and the
  email-or-username uniqueness check, login lookup (username AND email), the
  password check, and issuing and rotating the token pair.
- **The request gate.** An exact-match allow-list of public paths. Every other
  request must verify. Exceptions become JSON error responses, and the database
  session opened for the request is closed on every exit.

Modules (one per file):

- `Wrappers`: Option, Result, Outcome and the exception type `Error` (an
  HTTPException with status and detail, or any other exception).
- `Seqs`: the `.first()` and `.all()` query shapes over a table held as a sequence.
- `Contacts`: the row, the status enum, the live predicate, the column defaults
  and the acceptance-date effect table.
- `ContactDao`: the queries as functions over the rows; the table as a class.
- `ContactService`: the guards, step functions, the one-live-row-per-pair
  invariant and the service class.
- `Users`: the user row, the password digest, the getters and the table class.
- `Database`: the per-request session.
- `Jwt`: tokens, decoding, verification, and the request state written by verification.
- `UserServices`: signup, login and refresh.
- `Middleware`: the gate.

Design choices:

- **Values and classes.** Operations that only read are functions over the rows.
  Operations that change a table are class methods with `modifies` clauses. Each
  such method's postcondition either states the new rows directly (an insert
  appends one row) or ties them to a step function of the old rows
  (`AddContactStep`, `TransitionStep`, `UpdateStatusStep`). The lemmas are
  stated about those step functions.
- **Time** is an integer `now` parameter, in seconds.
- **Randomness.** The bcrypt salt is a parameter.
- **Signing keys** are a `Keys` parameter, since they come from the environment.
- **Query order.** `.first()` returns the first matching row in table order. The
  SQL has no ORDER BY, so this is one admissible order.

Behaviour of the source that the model keeps:

- A transition is possible only from a live row. The guard in front of every
  transition excludes REMOVED, REJECTED, PENDING and BLOCKED rows. So REJECTED,
  BLOCKED and REMOVED are terminal, and unblocking a BLOCKED row always fails.
- Signature failure and expiry are not told apart. Both give the same 401
  "Could not validate credentials.". This holds for refresh tokens too: the
  `InvalidTokenError` clause comes first, so "Refresh token expired" is never
  produced.
- A verified token naming a user who does not exist is not rejected. The request
  state just records no user.
- `get_contacts` does not restrict its rows to the caller. Its join condition
  holds for every row, and the legacy query API removes the duplicate rows the
  join produces. So the listing is every row in the given status, each annotated
  with its other party.
- The initiator of a contact request is the form's `current_user_id`, not the
  verified identity.

## Model

| member | source | states |
|---|---|---|
| `Contacts.IsLive` | server/actions/dal/contactDAO.py:17-21 | a status counts as live exactly when it is REQUESTED or ACCEPTED (the four excluded statuses never do) |
| `Contacts.NewRow` | server/models/contact.py:10-23 | a new row keeps the given id and both user ids; status defaults to PENDING when none is given; the acceptance date starts null; last-updated is the time the caller supplies (`create_contact` passes the insertion time) |
| `Contacts.Transitioned` | server/actions/dal/contactDAO.py:75-83 | a status change sets status and last-updated and keeps id and users; ACCEPTED stamps the acceptance date, BLOCKED/REMOVED clear it, REJECTED/PENDING/REQUESTED keep it |
| `ContactDao.ContactExistsForDistinctUsers` | server/actions/dal/contactDAO.py:174-189 | for two different users the duplicate query holds iff a live row joins them in either direction |
| `ContactDao.GetAllContacts` | server/actions/dal/contactDAO.py:95-98 | returns exactly the rows the user initiated, whatever their status, each as often as the table holds it |
| `ContactDao.GetRequestsSent` | server/actions/dal/contactDAO.py:134-141 | returns exactly the REQUESTED rows the user initiated, each as often as the table holds it |
| `ContactDao.GetContactRequestsToMe` | server/actions/dal/contactDAO.py:161-170 | returns exactly the REQUESTED rows whose friend is the user, each as often as the table holds it |
| `ContactDao.WithStatus` | server/actions/dal/contactDAO.py:103-119 | the status listing's rows are exactly the table's rows in that status, each as often as the table holds it (no caller filter, no repeats from the join) |
| `ContactDao.SearchContact` | server/actions/dal/contactDAO.py:145-157 | a non-zero id finds the row with that id, or nothing when there is none; otherwise a non-empty username raises an internal error; otherwise nothing is found |
| `ContactDao.SelectForUpdate` | server/actions/dal/contactDAO.py:48-69 | by id it selects only a row with that id in which the user takes part, and selects none iff there is no such row; by form it selects a row with exactly that initiator and friend |
| `ContactDao.UpdateStatusStep` | server/actions/dal/contactDAO.py:72-87 | with no selected row it raises "Contact not found." and changes nothing; otherwise only the selected row changes, to its transitioned form, which is returned |
| `ContactDao.ContactTable.CreateContact` | server/actions/dal/contactDAO.py:25-38 | appends exactly one REQUESTED row for the form's users with a fresh id, no acceptance date and last-updated `now`; the existing rows are unchanged |
| `ContactDao.ContactTable.UpdateContactStatus` | server/actions/dal/contactDAO.py:46-87 | the in-place update of the selected row gives exactly the rows and result of `UpdateStatusStep` |
| `ContactDao.ContactTable.GetContacts` | server/actions/dal/contactDAO.py:120-131 | one entry per element of `WithStatus` (each row in the status once per occurrence in the table), in its order; each has that status; its other user is the friend when the caller initiated the row, the initiator otherwise |
| `ContactService.HasEmptyFields` | server/actions/services/contactService.py:98-100 | fails with 400 "Fill required fields to add contact." iff either id is falsy (0) |
| `ContactService.IsSelfContact` | server/actions/services/contactService.py:103-105 | fails with 400 "Can not add yourself as a contact." iff the two ids are equal |
| `ContactService.CheckContactExists` | server/actions/services/contactService.py:92-95 | fails with 400 "User is already in your contact list." iff the duplicate query holds |
| `ContactService.DoesUserExist` | server/actions/services/contactService.py:83-85 | fails with 400 "User does not exists." iff no user has the friend's id |
| `ContactService.CheckContactExistsById` | server/actions/services/contactService.py:88-90 | fails with 400 "Contact does not exist." iff no live row with that id has the user as a party |
| `ContactService.AddContactStep` | server/actions/services/contactService.py:16-22 | guards in order (empty fields, self-contact, live contact either way, unknown friend), each error stated under the earlier guards passing; failure changes nothing; success appends exactly one REQUESTED row |
| `ContactService.TransitionStep` | server/actions/services/contactService.py:25-47 | a transition succeeds iff a live row with that id has the caller as a party; failure is 400 "Contact does not exist." with no change; success rewrites only that row |
| `ContactService.AddContactPreservesLiveUnique` | server/actions/services/contactService.py:16-22 | a contact request never creates a second live row for an unordered pair of users |
| `ContactService.SelectedRowIsLive` | server/actions/dal/contactDAO.py:191-205 | with distinct ids, the row the gate admits is the row the update selects, and it is live |
| `ContactService.TransitionPreservesLiveUnique` | server/actions/services/contactService.py:25-47 | no transition creates a second live row for a pair, and ids stay distinct |
| `ContactService.TransitionOnlyFromLive` | server/actions/services/contactService.py:45-47 | when the row with that id is PENDING, REJECTED, BLOCKED or REMOVED, every transition on it fails with "Contact does not exist." for every caller; so unblocking a BLOCKED row always fails |
| `ContactService.TransitionOfLastRow` | server/actions/dal/contactDAO.py:59-87 | transitioning a freshly inserted live row by its id rewrites exactly that row |
| `ContactService.RequestBlocksRepeatInBothDirections` | server/actions/services/contactService.py:16-22 | after A requests B, a new request A to B or B to A fails with "User is already in your contact list." |
| `ContactService.RequestAcceptRemoveRequestAgain` | server/actions/services/contactService.py:16-37 | A requests B (REQUESTED row, initiator A); B accepts (date stamped); A removes (date cleared); A requests B again and gets a new row with a new id |
| `ContactService.SearchContact` | server/actions/services/contactService.py:69-80 | no criteria, or all three fields absent, is 400 "No search criteria present."; a found row has the requested non-zero id; with a non-zero id it succeeds iff a row has that id, else 400 "Contact does not exist."; without a non-zero id, a non-empty username raises the internal error and any other criterion is 400 "Contact does not exist." |
| `ContactService.ContactService.AddContact` | server/actions/services/contactService.py:16-22 | runs the four guards then the insert; the result and rows are those of `AddContactStep`; one live row per pair is kept |
| `ContactService.ContactService.RemoveContact` | server/actions/services/contactService.py:25-27 | gate then update to REMOVED, as `TransitionStep` states; invariant kept |
| `ContactService.ContactService.BlockContact` | server/actions/services/contactService.py:30-32 | gate then update to BLOCKED, as `TransitionStep` states; invariant kept |
| `ContactService.ContactService.AcceptContact` | server/actions/services/contactService.py:35-37 | gate then update to ACCEPTED, as `TransitionStep` states; invariant kept |
| `ContactService.ContactService.RejectContact` | server/actions/services/contactService.py:40-42 | gate then update to REJECTED, as `TransitionStep` states; invariant kept |
| `ContactService.ContactService.UnblockContact` | server/actions/services/contactService.py:45-47 | gate then update to PENDING, as `TransitionStep` states; invariant kept |
| `Users.SetPassword` | server/models/user.py:21-24 | the stored digest is made with the drawn salt, accepts the plaintext it was made from and rejects every other |
| `Users.GetAllUsers` | server/actions/dal/usersDAO.py:27-28 | returns every stored user and nothing else |
| `Users.GetUserByData` | server/actions/dal/usersDAO.py:32-40 | returns a stored user whose email or username equals the payload's, and nothing iff no user matches either |
| `Users.GetUserByUsernameAndEmail` | server/actions/dal/usersDAO.py:44-46 | returns a stored user matching both username and email, and nothing iff none does |
| `Users.GetUser` | server/actions/dal/usersDAO.py:62-64 | the login lookup: a user matching both username and email, and nothing iff none does |
| `Users.GetUserByUsername` | server/actions/dal/usersDAO.py:50-52 | matches on username only; nothing iff no user has it |
| `Users.GetUserById` | server/actions/dal/usersDAO.py:56-58 | matches on id only; nothing iff no user has it |
| `Users.GetUserByIdFindsStoredUser` | server/actions/dal/usersDAO.py:56-58 | with distinct ids, looking a stored user up by their id returns exactly that user |
| `Users.UserTable.CreateUser` | server/actions/dal/usersDAO.py:16-23 | appends exactly one user with the given name, email and username, a fresh id and the password's digest |
| `Jwt.Decode` | server/actions/util/jwtHelper.py:32 | decoding succeeds iff the token was signed with that key and `exp` lies after now, and then yields the token's claims; a correctly signed expired token is an expiry error |
| `Jwt.CreateAccessToken` | server/actions/util/jwtHelper.py:82-90 | signed with the secret key; carries the payload's user id and type "access"; expires after the given lifetime, or after 15 minutes when it is missing or zero |
| `Jwt.CreateRefreshToken` | server/actions/util/jwtHelper.py:94-99 | signed with the refresh key; carries the payload's user id, type "refresh" and an expiry seven days on |
| `Jwt.VerifyRefreshToken` | server/actions/util/jwtHelper.py:59-78 | succeeds iff signed with the refresh key, unexpired and of type "refresh", returning the claims; a wrong type is 403; a bad signature or expiry is the generic 401; never "Refresh token expired" |
| `Jwt.VerifyTokenOutcome` | server/actions/util/jwtHelper.py:25-51 | succeeds iff the cookie is present, signed with the secret key, unexpired, of type "access" and names a user id; records that token, type and id; 403 "Invalid token type" exactly for a good unexpired token of another type; every other failure is 401 |
| `Jwt.AccessTokenRoundTrip` | server/actions/util/jwtHelper.py:32-49 | an access token for user u, presented before expiry, verifies and records u |
| `Jwt.RefreshTokenNeverAuthenticates` | server/actions/util/jwtHelper.py:32-34 | a refresh token never passes access verification: 401 with distinct keys, 403 with equal keys before expiry |
| `Jwt.AccessTokenNeverRefreshes` | server/actions/util/jwtHelper.py:70-72 | an access token never passes refresh verification |
| `Jwt.JwtHelper.VerifyToken` | server/actions/util/jwtHelper.py:25-51 | on success writes the token data and the user looked up by its id into the request state; on failure reports the error and leaves the state unchanged |
| `UserServices.ValidateUserCreateData` | server/actions/services/userServices.py:169-170 | fails with 400 "All fields are required. Please try again." iff username, email, password or name is empty |
| `UserServices.ValidateUserLoginData` | server/actions/services/userServices.py:182-183 | fails with 400 iff username, email or password is empty |
| `UserServices.SignupCheck` | server/actions/services/userServices.py:37-41 | validation errors come first; then 400 "Email and(or) username already registered."; passes iff all fields are filled and no user shares the email or the username |
| `UserServices.SignupPreservesAccountsUnique` | server/actions/services/userServices.py:37-44 | a signup that passes its checks keeps every email and every username unique |
| `UserServices.LoginUser` | server/actions/services/userServices.py:67-87 | validation 400 first; no user with that username and email is 404 "User does not exist. Please try again."; wrong password is 404; a valid payload whose user exists with the right password succeeds; success returns that user, a 60-minute access token and a 7-day refresh token both naming the user's id |
| `UserServices.HandleRefreshToken` | server/actions/services/userServices.py:105-122 | a missing or empty token is 401 "Refresh token missing"; verification errors pass through; a falsy user id is 401 "Invalid refresh token"; success issues a new pair for the same id and returns that id |
| `UserServices.LoginTokensAreUsable` | server/actions/services/userServices.py:80-87 | within the hour a login's access token verifies as that user; within the week its refresh token rotates for the same user |
| `UserServices.RefreshRotation` | server/actions/services/userServices.py:116-122 | after a refresh the new access token verifies as the same user within the hour, and the new refresh token rotates again within the week |
| `UserServices.UserServices.AddUser` | server/actions/services/userServices.py:35-44 | when the checks fail, returns their error and leaves the table unchanged; otherwise inserts exactly one user with the given fields and the password's digest; emails and usernames stay unique |
| `Middleware.TrailingSlashIsNotExcluded` | server/routers/middleware/auth.py:12-16 | the allow-list is exact: a public path with a trailing slash is not public |
| `Middleware.ErrorResponse` | server/routers/middleware/auth.py:23-26 | an HTTPException keeps its status and detail; any other exception is 500 "Error: " followed by its message |
| `Middleware.Relay` | server/routers/middleware/auth.py:20-26 | a handler's response passes through unchanged; its exception is converted, so no exception leaves the gate |
| `Middleware.JwtMiddleware.Dispatch` | server/routers/middleware/auth.py:10-29 | an allow-listed path goes to the handler with no verification and no session; any other path opens a session that is closed on every exit, reaches the handler only after verification succeeds, and turns every error into a JSON response |

## Left out

- HMAC-SHA256 signing and JWT encoding are foreign library code. A token is
  abstract: the key it was signed with plus its claims, or arbitrary text.
- bcrypt is foreign code. It is idealised as a digest that records its salt and
  accepts exactly the password that produced it.
- Users.SetPassword: "rejects every other password" belongs to the idealisation.
  Real bcrypt uses only the first 72 bytes of a password, so two passwords that
  share those bytes are accepted by the same digest.
- Wall-clock time is an integer parameter. The model has no calendar or timezone
  arithmetic. The two `now` readings inside one update are taken to be equal.
- Database mechanics are not modelled: commit, rollback, eager loading,
  deferred columns and join execution. The rollback paths on a database error
  raise without changing the table, and database errors themselves are not
  modelled.
- Foreign-key integrity of `current_user_id` and `friend_id` is not modelled.
  The database enforces it.
- The `is_logged_in` column is not modelled. Only `email` is a unique column
  in the database. Username uniqueness (`AccountsUnique`) is kept by the signup
  check alone.
- The import-time `datetime.now()` default of the contact's last-updated column
  is not modelled. `NewRow` takes the last-updated value its caller supplies,
  and the one insert path supplies the insertion time.
- The username branch of contact search refers to columns the contact table
  lacks. It is modelled only as raising an internal error.
- A search by `user_id` alone finds nothing, which is modelled. No lookup by
  user id is modelled.
- `verify_refresh_token`'s `refresh_token is None` branch uses `self` inside a
  static method. It is not modelled: the refresh service rejects a missing
  token before calling it.
- The check-then-act race between the duplicate check and the insert across
  concurrent requests is not modelled. The model is sequential.
- The service's listing pass-throughs are not separate members. These are
  `get_all_contacts`, `get_contact_requests_to_me`, `get_requests_sent`,
  `get_blocked_contacts` (BLOCKED) and `get_my_contacts` (ACCEPTED). Each
  returns the data-access result unchanged.
- `update_contact_status` by id always receives a user from the service. A
  missing user is not modelled.
- The routers, cookie handling, the duplicate `userDAO.py`, dependency wiring,
  application setup and the client are not part of this model. Nor is schema
  validation beyond record shapes, such as e-mail syntax.
- The `WWW-Authenticate` header on 401 responses is not modelled.
- `Jwt.CreateAccessToken`: the payload is only the user id. Other keys a
  caller's dictionary might carry are not modelled. Value semantics make the
  copy-not-mutate behaviour automatic.
- `Jwt.JwtHelper.VerifyToken`: exceptions raised while building the token data
  or looking up the user are not modelled. One example is a non-integer user id
  claim.
