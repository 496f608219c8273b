# Authentication and authorisation of the TA log system, in Dafny

This project models the decision logic that guards the TA system's course logs:

- the FastAPI backend's local `login`, `save_user_to_db`, the OAuth 2.0 authorization-code
  callback `oauth_callback`, the `get_current_user` token check, and the two log routes
  `list_course_logs` and `get_course_log`;
- the Vue frontend's route table and its `router.beforeEach` navigation guard;
- the frontend's `authStore`, which keeps a `token` field beside the `jwtToken` entry of
  `localStorage`.

Module layout (one file each):

| file | module | what it holds |
|---|---|---|
| `wrappers.dfy` | `Wrappers` | `Option`, `HttpError`, `Result` (a return value or a raised `HTTPException`), and truthiness of an optional string |
| `strings.dfy` | `Strings` | Python's `sub in s`, defined recursively and characterised by position |
| `config.dfy` | `Config` | the settings record and its defaults |
| `sessions.dfy` | `Sessions` | JWT claims, what `jwt.decode` makes of a presented token, `get_current_user` |
| `users.dfy` | `Users` | the `users` table, `save_user_to_db` as a method of a table class, `login` |
| `oauth.dfy` | `OAuth` | the code exchange and profile fetch, then provisioning and the redirect |
| `logs.dfy` | `Logs` | listing and reading course logs under the substring ownership rule |
| `router.dfy` | `Router` | the route table and the guard |
| `auth_store.dfy` | `AuthStore` | `localStorage` and the token store as classes |

Two things are kept abstract, and each is passed in as a value. The first is password hashing
and verification (bcrypt through passlib): a `hash: string -> string` and a
`verify: (string, string) -> bool`. The second is JWT encoding (PyJWT, HS256, section 3.2 of
RFC 7518): an `Encoder` from claims to token text. A token presented to the backend is a
`PresentedToken`. Its flag `authentic` says whether its signature verifies under the server key.
Its `claims` hold the payload with `sub` and `exp` (sections 4.1.2 and 4.1.4 of RFC 7519). The
clock is an integer input `now`, in whole seconds (`int(time.time())`). The OAuth provider is
two function inputs: its answer to the token request, and its answer to a profile request
carrying a given access token. The log directory `app/static/logs` is a map from course to the
files in that course's directory, each mapped to the text `read()` returns for it: the file opened
in text mode with universal newlines, so `\r\n` and `\r` already read as `\n`, not its raw bytes. The database is a map from
username to a row shaped like the `User` model.

What the code does, and so what the model does:

- Failed logins do not all get the same message. A non-local account gets 401 "Local login not
  allowed", and an unknown user or a wrong password gets 401 "Invalid username or password".
- The OAuth flow sends and checks no CSRF `state` parameter. Tokens carry only `sub` and `exp`:
  no admin role, `iat`, `iss` or `jti`. No access decision looks at an admin flag.
- Listings are not sorted, and file names are not checked for path traversal.
- `save_user_to_db` is a lookup followed by an insert, not a race-safe upsert.

## Model

| member | source | states |
|---|---|---|
| `Strings.ContainsIff` | backend/app/routers/api.py:187 | Python's `sub in s` holds exactly when `sub` occurs at some index of `s` |
| `Strings.ContainsInfix` | backend/app/routers/api.py:187 | any string of the form `a + sub + b` contains `sub` |
| `Strings.NotContainsWithoutFirst` | backend/app/routers/api.py:187 | a non-empty `sub` is not in a string lacking its first character |
| `Strings.Contains` | backend/app/routers/api.py:187 | Python's `sub in s`: only a string at least as long as `sub` contains it, and the empty string is in every string |
| `Sessions.Decode` | backend/app/routers/api.py:163 | `jwt.decode` checks the signature first, then expiry (expired when `exp <= now`), and otherwise returns the payload unchanged |
| `Sessions.IssueClaims` | backend/app/routers/api.py:96-99 | the payload issued at `now` names the subject and is expired exactly from `now + ACCESS_TOKEN_EXPIRE_SECONDS` on |
| `Sessions.Expired` | backend/app/routers/api.py:168 | a payload without `exp` never expires; one with `exp` is expired exactly when the clock has reached `exp` |
| `Sessions.GetCurrentUser` | backend/app/routers/api.py:161-171 | returns the payload exactly when the token is authentic, unexpired and has a `sub`; otherwise 401 with "Token decode error", "Token expired" or "Invalid token payload", in that order of precedence |
| `Sessions.IssuedTokenLifetime` | backend/app/routers/api.py:96-99 | a token issued at `t` is accepted with its subject before `t + ACCESS_TOKEN_EXPIRE_SECONDS` and refused as "Token expired" from then on |
| `Users.Saved` | backend/app/routers/api.py:42-62 | first write wins: an existing username leaves the table unchanged; a new one adds exactly one row `(username, hash, email, local)` with `admin` unset; every other row is unchanged |
| `Users.SavedWellKeyed` | backend/app/models.py:9 | saving keeps every row stored under its own primary key |
| `Users.SavedAll` | backend/app/routers/api.py:42-62 | after any history of saves no row has been removed, and the usernames added are exactly those of the saves |
| `Users.SavedIdempotent` | backend/app/routers/api.py:46-52 | a second save of the same username, with any password, email or flag, changes nothing |
| `Users.LaterSavesKeepRow` | backend/app/routers/api.py:46-52 | once a username has a row, no later sequence of saves changes that row |
| `Users.UserTable.Lookup` | backend/app/routers/api.py:33-40 | returns the row with that username, or nothing if there is none; under the primary-key invariant the row found carries that username |
| `Users.UserTable.constructor` | backend/app/models.py:9 | the table starts from rows that each sit under their own primary key |
| `Users.UserTable.SaveUser` | backend/app/routers/api.py:42-62 | keeps the primary-key invariant; the table afterwards is `Saved` of the table before, with the password's hash |
| `Users.Login` | backend/app/routers/api.py:74-105 | unknown user gives 401 "Invalid username or password"; non-local gives 401 "Local login not allowed" before the password is checked; a failed password check gives 401 "Invalid username or password"; success exactly when the user exists, is local and the password verifies, and then the response is `bearer` with a token for `{sub: username, exp: now + ACCESS_TOKEN_EXPIRE_SECONDS}` |
| `Users.NonLocalNeverLogsIn` | backend/app/routers/api.py:84-94 | a non-local account is refused with "Local login not allowed" whatever the password and whatever the verifier says |
| `Users.LoginTokenAccepted` | backend/app/routers/api.py:96-105 | the access token a successful login returns is accepted by `get_current_user` with the submitted username as subject until its lifetime elapses, and refused as "Token expired" from then on, given that PyJWT decodes what it encoded |
| `OAuth.TokenRequestFor` | backend/app/routers/api.py:122-128 | the token request carries `grant_type=authorization_code`, the code, the client id, the client secret and the registered redirect URI (section 4.1.3 of RFC 6749) |
| `OAuth.Exchange` | backend/app/routers/api.py:129-148 | a token endpoint status other than 200 is returned as that status; then a missing or empty access token gives 400; then a profile status other than 200 gives 400; then a missing or empty username or email gives 400; otherwise the profile fetched with that very access token |
| `OAuth.Callback` | backend/app/routers/api.py:150-159 | on any exchange failure the table is unchanged; on success the user is saved as non-local with the hash of `""`, and the redirect is `FRONTEND_URL + FRONTEND_REDIRECT_PATH + "?token="` followed by a token whose subject is the provider's username |
| `OAuth.ProvisionedUserNeverLogsIn` | backend/app/routers/api.py:150 | a username first created by the callback is refused by `login` with "Local login not allowed", after any later saves, for any password |
| `OAuth.FrontendRedirect` | backend/app/routers/api.py:158 | the redirect is `FRONTEND_URL + FRONTEND_REDIRECT_PATH + "?token="` followed by the token, which can be read back unchanged from the rest of the address |
| `OAuth.RedirectTokenAccepted` | backend/app/routers/api.py:152-158 | the token in a successful callback's redirect is accepted by `get_current_user` with the provider's username as subject until its lifetime elapses, and refused as "Token expired" afterwards, given that PyJWT decodes what it encoded |
| `Config.Defaults` | backend/app/config.py:3-14 | with only the variables that have no default given, the frontend URL is `https://ta.userwei.com`, the redirect path `/login`, the OAuth redirect URI `https://ta.userwei.com/api/oauth/callback` and the token lifetime 36000 seconds |
| `OAuth.DefaultRedirect` | backend/app/routers/api.py:158 | with the default settings the callback redirects to `https://ta.userwei.com/login?token=<token>` |
| `Logs.ListCourseLogs` | backend/app/routers/api.py:173-182 | 404 "Course logs not found" exactly when the course directory is absent; an existing directory is always listed, with exactly the directory's non-hidden names that contain the caller's `sub` |
| `Logs.Hidden` | backend/app/routers/api.py:180 | a dot file, which the glob's leading `*` does not match, is one whose name starts with `.` |
| `Logs.Matches` | backend/app/routers/api.py:179-180 | a name the glob `*<sub>*` returns is not a dot file and has `sub` at some index |
| `Logs.GetCourseLog` | backend/app/routers/api.py:184-194 | 403 "Not allowed" for any file name not containing `sub`, checked before the 404 "File not found" existence check; success exactly when the name contains `sub` and the file exists, echoing the name unchanged with the file's content |
| `Logs.ListedFilesAreReadable` | backend/app/routers/api.py:179-191 | for a `sub` without `*`, `?` or `[`, every name a caller is listed can be read by that caller |
| `Logs.HiddenFileReadableNotListed` | backend/app/routers/api.py:179-191 | a dot file containing the caller's `sub` is readable but not listed |
| `Logs.ListsOnlyMatching` | backend/app/routers/api.py:179-182 | a directory with one matching and one non-matching name lists only the matching one |
| `Logs.OwnFileOnly` | backend/app/routers/api.py:179-182 | in a course holding `hw1_alice.txt` and `hw1_bob.txt`, `alice` is listed only `hw1_alice.txt` |
| `Logs.ListCourseLogsRequest` | backend/app/routers/api.py:174 | the list route answers a refused token with `get_current_user`'s 401, before any 404; an accepted token reaches the listing with its own subject |
| `Logs.GetCourseLogRequest` | backend/app/routers/api.py:185 | the read route answers a refused token with `get_current_user`'s 401, before any 403 or 404; an accepted token reaches the read with its own subject |
| `Logs.IssuedTokenReadsOwnLog` | backend/app/routers/api.py:184-194 | a token issued to `sub` reads any existing file whose name contains `sub` until it expires, and gets "Token expired" afterwards |
| `Router.ByName` | frontend/src/router/index.js:6-23 | a named route is resolved to a record of the table with that name, or to nothing when no record has it |
| `Router.BeforeEach` | frontend/src/router/index.js:30-45 | a `requiresAuth` target without a token redirects to Login; with a token it proceeds; Login with a token redirects to Home; every other navigation proceeds |
| `Router.NoRedirectLoop` | frontend/src/router/index.js:30-45 | the target of any redirect is a route of the table, and the guard lets navigation to it proceed with the same storage |
| `Router.ProtectedRoutes` | frontend/src/router/index.js:6-23 | the log viewer is the only route of the table that requires authentication |
| `Router.RouteTable` | frontend/src/router/index.js:6-23 | the table has three routes with distinct names and paths, and Home, Login and LogViewer each resolve to their own record, only LogViewer requiring authentication |
| `AuthStore.InitialToken` | frontend/src/store/auth.js:4 | the initial token is the stored `jwtToken` value when that is truthy, and `null` otherwise |
| `AuthStore.LocalStorage.constructor` | frontend/src/store/auth.js:4 | the storage holds whatever entries the page finds |
| `AuthStore.LocalStorage.GetItem` | frontend/src/store/auth.js:4 | `getItem` returns the stored string, or `null` for a missing key |
| `AuthStore.LocalStorage.SetItem` | frontend/src/store/auth.js:8 | `setItem` stores the value under the key and changes no other entry |
| `AuthStore.LocalStorage.RemoveItem` | frontend/src/store/auth.js:10 | `removeItem` deletes the key and changes no other entry |
| `AuthStore.StoredAfter` | frontend/src/store/auth.js:7-10 | after `setToken(v)` storage holds `v` under `jwtToken` if `v` is truthy and lacks the key otherwise; every other entry is unchanged |
| `AuthStore.Store.constructor` | frontend/src/store/auth.js:4 | the store starts with the token read from storage, in step with the storage |
| `AuthStore.Store.SetToken` | frontend/src/store/auth.js:5-12 | the field becomes the argument exactly, falsy or not; storage holds the argument under `jwtToken` if it is truthy, or loses that key otherwise; nothing else in storage changes |
| `AuthStore.InitiallySynced` | frontend/src/store/auth.js:4 | the initial field agrees with the storage on whether there is a token and on its value |
| `AuthStore.SetTokenSyncs` | frontend/src/store/auth.js:5-12 | after `setToken(v)`, for any `v` including `""`, the field and the storage agree |
| `AuthStore.TruthyRoundTrip` | frontend/src/store/auth.js:4-8 | after `setToken(v)` with a truthy `v`, re-initialising from storage yields `v` |
| `AuthStore.FalsyClears` | frontend/src/store/auth.js:4-10 | after `setToken(v)` with a falsy `v` the key is gone and re-initialising yields `null`, even for `""` |
| `AuthStore.SetTokenIdempotent` | frontend/src/store/auth.js:5-12 | `setToken(v)` twice leaves the storage as once |
| `AuthStore.GuardAfterSetToken` | frontend/src/router/index.js:31-43 | after `setToken(v)` the log viewer opens exactly when `v` is truthy, and Login redirects to Home exactly when `v` is truthy |

## Left out

- Database I/O (`get_db_connection`, the cursors, `get_courses_from_db`, `backend/app/database.py`): the table is a map value. Username keys are compared as exact strings; MySQL's collation, which may compare case-insensitively, is not modelled.
- Concurrency: the lookup and the insert of `save_user_to_db` are separate statements, and two concurrent saves of one username are not modelled. No race-safety is claimed.
- bcrypt: `hash` and `verify` are uninterpreted parameters, and no cryptographic property is assumed. The random salt is folded into the one `hash` call a save makes. passlib raising on a malformed stored hash is not modelled.
- PyJWT: encoding is an uninterpreted function, and signature validity is the `authentic` flag of a presented token. That decoding a token text the server encoded gives back its payload as authentic (`Sessions.DecodesEncoded`) is an assumption about the library, taken as a hypothesis by `Users.LoginTokenAccepted` and `OAuth.RedirectTokenAccepted`, not proved. Claims other than `sub` and `exp` are not modelled, and neither are non-integer `exp` values or non-string `sub` values.
- Clock: `time.time()` is an integer input. PyJWT compares `exp` with the fractional time; for an integer `exp` that comparison agrees with the one on whole seconds.
- httpx: the provider's answers are inputs. Network failures, timeouts, non-JSON bodies and JSON bodies that are not an object (`[]`, `"x"`, `42`, `null`, on which `.get` raises `AttributeError`), all of which end in a 500 even after a 200, are not modelled, and neither is `verify=False`.
- JSON members of the provider's answers are optional strings. A falsy non-string value (`0`, `false`, `[]`, `{}`) for `access_token`, `username` or `email` is refused exactly as the model's `None` is, with the same 400. A truthy non-string value (a number for `access_token` or `username`, say) passes the source's checks and is used as it is; that case is not modelled.
- `oauth_login` (backend/app/routers/api.py:107-117) only concatenates configuration values. It sends no `state` parameter (section 10.12 of RFC 6749), so the model claims no CSRF protection.
- `get_courses` (backend/app/routers/api.py:196-201) is a database wrapper that gives 404 when the table is empty.
- Filesystem: a course is a map from its file names to the text `read()` gives for each (universal newlines, UTF-8), not to raw bytes. The course is looked up as a plain key, so `..` and other path segments are not resolved. Unreadable files, directories inside a course directory and decoding errors are not modelled.
- `Logs.ListedFilesAreReadable`: holds only for a `sub` without glob metacharacters. With `sub = "a?c"`, glob lists a file `abc`, but `"a?c" in "abc"` is false, so reading it gives 403 "Not allowed"; `*` and `[...]` do the same. The model's literal glob cannot express this.
- `Logs.ListCourseLogs`: the `glob` is modelled as "not a dot file and contains `sub`". Glob metacharacters (`*`, `?`, `[`) and path separators in `sub` or in the course name are taken literally. The result is a set, because the directory order glob returns is not modelled.
- The HTTP status of the success responses (a 307 redirect, 200 for the JSON bodies) and the transport of the token in the `Authorization` header are not modelled.
- Wiring and settings: `backend/app/main.py` (FastAPI, session middleware) is not modelled. `backend/app/config.py` is a settings record with its defaults, without the MySQL fields and without `AUTHORIZE_URL`, which only `oauth_login` uses. `TOKEN_URL` and `PROFILE_URL` are not fields either: the provider behind them is the two endpoint inputs of `OAuth.Exchange`.
- `AuthStore.Store.SetToken`: the argument is `null`, `undefined` or a string (`JsValue`), because the callers pass those: the 401 handler in `frontend/src/main.js:12` passes `null`, and the login views, which are not part of this model, pass the token string. Other JavaScript values are not modelled. `setItem` would store `String(v)`, so a truthy non-string such as `42` would come back from storage as `"42"`, and `AuthStore.TruthyRoundTrip` would fail for it. Falsy non-strings (`0`, `false`, `NaN`) cannot be expressed as a `JsValue`.
- Frontend: vue-router's path matching, which is case-insensitive and tolerates a trailing slash, is not modelled. A guard target is a matched record or an unmatched location. The axios interceptor in `frontend/src/main.js`, with its alert and page change, is not modelled. `localStorage` write failures, such as a full quota, are not modelled.
