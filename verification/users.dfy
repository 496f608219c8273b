/** The `users` table, `save_user_to_db` and the local `login` endpoint. */
module Users {
  import opened Wrappers
  import opened Config
  import opened Sessions

  /** A row of the `users` table. `admin` is `None` for the rows `save_user_to_db` inserts:
      its INSERT does not name the column. */
  datatype User = User(username: string, password: string, email: Option<string>, local: bool, admin: Option<bool>)

  /** The table, keyed by its primary key `username` (compared as exact strings). */
  type Table = map<string, User>

  /** Every row is stored under its own username. */
  ghost predicate WellKeyed(rows: Table) {
    forall u :: u in rows ==> rows[u].username == u
  }

  /** The table after `save_user_to_db(username, password, email, local)` when the password hashes
      to `hashed`: first write wins. */
  function Saved(rows: Table, username: string, hashed: string, email: string, local: bool): (r: Table)
    ensures username in rows ==> r == rows
    ensures username !in rows ==> r.Keys == rows.Keys + {username} && |r| == |rows| + 1
    ensures username in r && r[username] == (if username in rows then rows[username]
                                               else User(username, hashed, Some(email), local, None))
    ensures forall u :: u in rows ==> u in r && r[u] == rows[u]
    ensures forall u :: u in r && u != username ==> u in rows
  {
    if username in rows then rows
    else rows[username := User(username, hashed, Some(email), local, None)]
  }

  /** One call of `save_user_to_db`, with the hash its password got. */
  datatype SaveRequest = SaveRequest(username: string, hashed: string, email: string, local: bool)

  /** The table after a history of `save_user_to_db` calls, the only writer of the table: no row
      is ever removed, and the usernames added are exactly those of the requests. */
  function SavedAll(rows: Table, reqs: seq<SaveRequest>): (r: Table)
    ensures r.Keys == rows.Keys + set i | 0 <= i < |reqs| :: reqs[i].username
    decreases |reqs|
  {
    if reqs == [] then rows
    else
      UsernamesOfTail(reqs);
      SavedAll(Saved(rows, reqs[0].username, reqs[0].hashed, reqs[0].email, reqs[0].local), reqs[1..])
  }

  /** The usernames of a non-empty history are its first one and those of the rest. */
  lemma UsernamesOfTail(reqs: seq<SaveRequest>)
    requires reqs != []
    ensures (set i | 0 <= i < |reqs| :: reqs[i].username)
         == {reqs[0].username} + set i | 0 <= i < |reqs[1..]| :: reqs[1..][i].username
  {
    var tail := reqs[1..];
    forall i | 0 <= i < |tail|
      ensures tail[i].username in set j | 0 <= j < |reqs| :: reqs[j].username
    {
      assert tail[i] == reqs[i + 1];
    }
    forall j | 1 <= j < |reqs|
      ensures reqs[j].username in set i | 0 <= i < |tail| :: tail[i].username
    {
      assert reqs[j] == tail[j - 1];
    }
  }

  /** Saving keeps every row stored under its own username. */
  lemma SavedWellKeyed(rows: Table, username: string, hashed: string, email: string, local: bool)
    requires WellKeyed(rows)
    ensures WellKeyed(Saved(rows, username, hashed, email, local))
  {
  }

  /** Repeating a save changes nothing more. */
  lemma SavedIdempotent(rows: Table, username: string, hashed: string, email: string, local: bool,
                        hashed': string, email': string, local': bool)
    ensures var once := Saved(rows, username, hashed, email, local);
            Saved(once, username, hashed', email', local') == once
  {
  }

  /** Once a username has a row, no later history of saves changes that row. */
  lemma {:induction false} LaterSavesKeepRow(rows: Table, reqs: seq<SaveRequest>, u: string)
    requires u in rows
    ensures u in SavedAll(rows, reqs) && SavedAll(rows, reqs)[u] == rows[u]
    decreases |reqs|
  {
    if reqs != [] {
      var next := Saved(rows, reqs[0].username, reqs[0].hashed, reqs[0].email, reqs[0].local);
      LaterSavesKeepRow(next, reqs[1..], u);
    }
  }

  /** The users table as the backend's handlers see it through their database connections. */
  class UserTable {
    var rows: Table

    /** The primary key: every row is stored under its own username. */
    ghost predicate Valid()
      reads this
    {
      WellKeyed(rows)
    }

    constructor (initial: Table)
      requires WellKeyed(initial)
      ensures Valid() && rows == initial
    {
      rows := initial;
    }

    /** `get_user_from_db`: the row with this username, if any. */
    function Lookup(username: string): (u: Option<User>)
      reads this
      ensures u.Some? <==> username in rows
      ensures u.Some? ==> u.value == rows[username]
      ensures Valid() && u.Some? ==> u.value.username == username
    {
      if username in rows then Some(rows[username]) else None
    }

    /** `save_user_to_db`: look the username up, and insert a row only if there was none.
        The lookup and the insert are two statements, not one atomic step. */
    method SaveUser(username: string, password: string, email: string, local: bool, hash: string -> string)
      requires Valid()
      modifies this
      ensures Valid()
      ensures rows == Saved(old(rows), username, hash(password), email, local)
    {
      var existing := Lookup(username);
      if existing.Some? {
        return;
      }
      var hashed := hash(password);
      rows := rows[username := User(username, hashed, Some(email), local, None)];
    }
  }

  /** The body of a successful `POST /login`. */
  datatype LoginResponse = LoginResponse(accessToken: string, tokenType: string)

  /** `login`: unknown username, then non-local account, then password, each refused with 401;
      otherwise a bearer token for the submitted username. `verify` is passlib's bcrypt check of a
      plain password against a stored hash; `now` is `int(time.time())`. */
  function Login(rows: Table, username: string, password: string, verify: (string, string) -> bool,
                 now: int, cfg: Settings, encode: Encoder): (r: Result<LoginResponse>)
    ensures username !in rows ==> r == Err(HttpError(Unauthorized, "Invalid username or password"))
    ensures username in rows && !rows[username].local ==>
              r == Err(HttpError(Unauthorized, "Local login not allowed"))
    ensures username in rows && rows[username].local && !verify(password, rows[username].password) ==>
              r == Err(HttpError(Unauthorized, "Invalid username or password"))
    ensures r.Ok? <==> username in rows && rows[username].local && verify(password, rows[username].password)
    ensures r.Ok? ==> r.value == LoginResponse(encode(IssueClaims(username, now, cfg)), "bearer")
    ensures r.Err? ==> r.error.status == Unauthorized
  {
    if username !in rows then
      Err(HttpError(Unauthorized, "Invalid username or password"))
    else if !rows[username].local then
      Err(HttpError(Unauthorized, "Local login not allowed"))
    else if !verify(password, rows[username].password) then
      Err(HttpError(Unauthorized, "Invalid username or password"))
    else
      var payload := IssueClaims(username, now, cfg);
      Ok(LoginResponse(encode(payload), "bearer"))
  }

  /** A non-local account never logs in with a password, whatever the password and whatever
      `verify` would answer: the password is not even looked at. */
  lemma NonLocalNeverLogsIn(rows: Table, username: string, password: string, verify: (string, string) -> bool,
                            verify': (string, string) -> bool, now: int, cfg: Settings, encode: Encoder)
    requires username in rows && !rows[username].local
    ensures Login(rows, username, password, verify, now, cfg, encode)
         == Login(rows, username, "", verify', now, cfg, encode)
         == Err(HttpError(Unauthorized, "Local login not allowed"))
  {
  }

  /** The access token a successful login returns is accepted by `get_current_user`, with the
      submitted username as its subject, until the configured lifetime has elapsed, and is refused
      as expired from then on; `present` is what `jwt.decode` sees in a token's text. */
  lemma LoginTokenAccepted(rows: Table, username: string, password: string,
                           verify: (string, string) -> bool, issuedAt: int, now: int,
                           cfg: Settings, encode: Encoder, present: Decoder)
    requires DecodesEncoded(present, encode)
    requires Login(rows, username, password, verify, issuedAt, cfg, encode).Ok?
    ensures var token := Login(rows, username, password, verify, issuedAt, cfg, encode).value.accessToken;
            var r := GetCurrentUser(present(token), now);
            if now < issuedAt + cfg.accessTokenExpireSeconds
            then r.Ok? && r.value.sub == Some(username)
            else r == Err(HttpError(Unauthorized, "Token expired"))
  {
    var c := IssueClaims(username, issuedAt, cfg);
    assert present(encode(c)) == PresentedToken(true, c);
    IssuedTokenLifetime(username, issuedAt, cfg, now);
  }
}
