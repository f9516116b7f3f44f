# auth-basic: a Dafny model of the register / login / logout flow

The system is a small Flask application with one user table
(username, password digest) and a cookie session that remembers who is
logged in. This project models its decision core:

- `PyStr` (pystr.dfy): Python's `str.strip()` as the handlers apply it to
  the submitted username, over Python's whitespace characters.
- `Auth` (auth.dfy): the state (a store mapping each username to its
  digest, and the session's optional identity). It also holds the five
  handlers as functions: `Register`, `Login` and `Logout` map the state
  before a request to the state after it and the response; `Dashboard` and
  `Home` only read the session and give a response, and `Handle` wraps
  them into the same shape. It also holds the properties of the flow. The password-hashing library is a
  parameter `HashScheme` with a `hash(salt, password)` and a
  `check(digest, password)` function. The one thing assumed of it, and only
  by the members that need it, is `Sound`: `check(hash(s, p), p)` for every
  salt and password.
- `Server` (server.dfy): the handlers as they run. An `App` object holds
  the store and the session and updates them in place. A `User` object is
  the row that `register` builds and whose digest `set_password` fills in,
  and the row that a lookup by username returns. Each handler method is proved to
  produce exactly the state and response that the `Auth` function gives.

Responses are values: the index page with an optional error, the dashboard
page for a username, or a redirect to `/` or `/dashboard`. The error strings
are the ones the handlers render (`Auth.Error.Message`).

The password is never stripped: a password of six spaces passes
`register`'s checks (app.py:66, 69, 75). Only the username is stripped
(app.py:44, 65).

## Model

| member | source | states |
|---|---|---|
| `PyStr.Strip` | app.py:65 | the stripped username has no whitespace at either end and is no longer than the input |
| `PyStr.StripIsTrimmedSlice` | app.py:65 | the stripped username is one contiguous run of the input with only whitespace before and after it |
| `PyStr.StripKeepsStripped` | app.py:44 | a username with no whitespace at either end is read back unchanged |
| `PyStr.StripIdempotent` | app.py:44 | stripping a stored (already stripped) username again gives the same name |
| `PyStr.StripEmptyIffAllSpace` | app.py:65 | the stripped username is empty exactly when the submitted one is empty or all whitespace |
| `Auth.FormGet` | app.py:44-45 | a submitted field is read as sent, and a missing field reads as the empty string |
| `Auth.MessagesAreFixedStrings` | app.py:49-92 | each error renders its own fixed string, the six strings the handlers show, and no two errors share one |
| `Auth.ValidateRegistration` | app.py:69-81 | the checks pass exactly when the username has at least 3 characters, the password at least 6 and the username is not taken; a stripped name that passes is well formed |
| `Auth.Register` | app.py:64-92 | every failure (validation, duplicate, failed transaction) leaves store and session unchanged; success adds the record for the stripped username holding the salted digest of the password, for a name that was not taken, and sets the session to it; the store and session invariants are kept and no existing record changes |
| `Auth.Login` | app.py:42-59 | the store never changes; login succeeds exactly when both fields are non-empty, the stripped username is stored and the library accepts the password for its digest; success sets the session to that name and redirects to the dashboard; failure changes nothing and shows "Please enter both username and password" when a field is empty, "Invalid username or password" otherwise |
| `Auth.Logout` | app.py:105-108 | the session identity is removed, the store is unchanged, the response redirects to `/` |
| `Auth.Dashboard` | app.py:96-100 | the dashboard is rendered exactly when a session identity exists, and for that name; otherwise the response redirects to `/` |
| `Auth.Home` | app.py:33-37 | `/` redirects to the dashboard exactly when a session identity exists, otherwise renders the index page with no error |
| `Auth.RegisterErrorPrecedence` | app.py:69-92 | the order of the register errors: missing field, then short username, then short password, then taken username, then failed transaction; success exactly when none applies |
| `Auth.BlankUsernameRejected` | app.py:44-70 | a missing or all-whitespace username field gets "Please enter both username and password" from both register and login, with no change |
| `Auth.RegisterAddsOneRecord` | app.py:84-89 | a successful registration adds exactly one key (the stripped username), grows the store by one and keeps every earlier record's digest |
| `Auth.LoginFailuresIndistinguishable` | app.py:51-59 | an unknown username and a wrong password get the same response ("Invalid username or password") and leave the state unchanged |
| `Auth.LogoutIdempotent` | app.py:107 | logging out twice gives the same state and response as logging out once |
| `Auth.DashboardOnlyForStoredUsers` | app.py:96-100 | in a valid state the dashboard is rendered only for a stored, well-formed username |
| `Auth.NoRedirectLoop` | app.py:33-100 | `/` and `/dashboard` never redirect to each other for the same session |
| `Auth.Handle` | app.py:33-108 | every handler keeps the store invariant (stored names are stripped and at least 3 long), keeps the session naming a stored user, and never removes or rewrites a record |
| `Auth.RunPreservesValid` | app.py:20 | after any sequence of requests the store and session invariants still hold |
| `Auth.RunKeepsRecords` | app.py:83-92 | after any sequence of requests every earlier record is still stored with the same digest |
| `Auth.RegisterThenLogin` | app.py:51-56 | after a successful registration with (u, p), whatever requests follow, logging in with the same stripped username and p succeeds and sets the session to u (assuming `Sound`) |
| `Auth.SecondRegistrationRefused` | app.py:78-81 | registering a taken name again, however much later, never succeeds, changes nothing, reports "Username taken" when the password is long enough, and the first digest is kept |
| `Auth.AliceWalkThrough` | app.py:42-108 | on concrete inputs: "ab" is too short, "short" is too short, "alice" registers, a second "alice" is taken, logging in after logging out succeeds, and the dashboard redirects home after logout |
| `Server.User.constructor` | app.py:84 | a new row has the given username and no digest yet |
| `Server.User.FromRow` | app.py:51 | a row read back from the table carries the stored digest |
| `Server.User.SetPassword` | app.py:23-25 | the row's digest becomes the salted hash of the password |
| `Server.User.CheckPassword` | app.py:27-29 | the check asks the library about the stored digest; under `Sound`, a digest made from this password with any salt passes |
| `Server.App.constructor` | app.py:113-115 | on the first start, when `create_all` makes a new table, the table is empty, nobody is logged in, and the invariants hold |
| `Server.App.FindUser` | app.py:51 | a row is returned exactly when the username is stored, and it carries that username and its stored digest |
| `Server.App.Register` | app.py:64-92 | the in-place handler keeps the invariants and produces exactly the store, session and response of `Auth.Register` |
| `Server.App.Login` | app.py:42-59 | the in-place handler keeps the invariants and produces exactly the store, session and response of `Auth.Login` |
| `Server.App.Logout` | app.py:105-108 | the in-place handler keeps the invariants and produces exactly the store, session and response of `Auth.Logout` |
| `Server.RegisterLogoutLogin` | app.py:42-108 | on any valid app, a client that registers a free name (stripped, at least 3 long) with a password at least 6 long, logs out and logs back in with the same form: when the registration commits, sees the dashboard for the stripped name, exactly that record was added and the session names it (assuming `Sound`); when its transaction fails, nothing was stored, nobody is logged in and the dashboard redirects to `/` |

## Left out

- Flask routing, `render_template`, `redirect` and `url_for`: a response is a value naming the page or the route, not HTTP.
- The session cookie: its signing, the secret key and its lifetime. The model has one client whose session is an optional username; many clients with their own sessions are not modelled. The model's session is written only by the handlers. A forged cookie (the signing key is fixed in the source, app.py:6) or a cookie that outlives a reset of `users.db` can name a user that is not stored, and the dashboard (app.py:98-99) renders for it; `Auth.Valid`'s session part and `Auth.DashboardOnlyForStoredUsers` hold only for cookies this server issued against this table.
- SQLAlchemy and SQLite: the `id` column and queries. The table is persisted in `users.db` and `db.create_all` keeps existing rows, so a restart reopens the stored table; the model starts from an empty table, which is the first start only. The table is a map from username to digest, so a username appears at most once by construction. The model serves requests one at a time, although Flask's development server (`app.run`, app.py:116) serves them on threads. When two registrations of one name interleave between the lookup (app.py:79) and the commit (app.py:87), the unique constraint (app.py:20) makes the losing commit raise; the loser gets "Registration failed, please try again" and nothing changes, which is `Auth.Register` on the earlier state with `failure` true.
- The 25-character username column and the 60-character digest column: the handlers never check them, so the model does not bound them.
- bcrypt: its algorithm, the random salt (a parameter here), the 72-byte password limit, and the digest format. Hashing is the `HashScheme` parameter, and only `Sound` is assumed of it.
- Every exception inside the registration transaction is one boolean `failure` input: bcrypt refusing a password, or `add` or `commit` failing. What was raised and when is not distinguished, because all of them lead to the same rollback and the same message. The username lookups (app.py:51, 79) are outside any `try`: a database error there ends the request with a server error and writes nothing, while the model's lookup never fails.
- `app.run`, debug mode and the process itself.
- Auth.Login: the library's `check` is assumed to be total and never to raise. The check runs only for a stored username (app.py:54), outside any `try`, so a password the library refuses (for instance, one over its length limit, depending on its version) would give a known username an error page and an unknown one "Invalid username or password". The model, and `Auth.LoginFailuresIndistinguishable` with it, does not capture that difference.
- Python strings that hold lone surrogates: characters here are Unicode scalar values.
