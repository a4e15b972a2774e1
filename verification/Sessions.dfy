/** Refresh sessions and password resets of the identity service. Each function below is one service call:
    handlers never await inside one. Digests are injective, so a row keeps the token itself. */
module Sessions {
  import opened Wrappers
  import opened Instants

  type UserId = nat
  type SessionId = nat
  type Token = nat
  type Family = nat
  type Password = nat

  datatype Session = Session(id: SessionId, user: UserId, token: Token, family: Family, expiresAt: Instant,
                             revoked: bool, rotatedFrom: Option<SessionId>)

  datatype Reset = Reset(id: nat, user: UserId, token: Token, expiresAt: Instant, used: bool)

  datatype User = User(active: bool, password: Password, mustChange: bool, lastLogin: Option<Instant>)

  datatype Identity = Identity(users: map<UserId, User>, sessions: seq<Session>, resets: seq<Reset>)

  datatype AuthError = InvalidCredentials | InvalidSession | InvalidReset

  /** What the generators draw: identifiers and tokens that were never drawn before. */
  datatype Fresh = Fresh(id: SessionId, token: Token, family: Family)

  // ---------------------------------------------------------------- the session table

  /** The row sets that one table update touches. */
  datatype Which =
    | ById(id: SessionId)
    | ByFamily(family: Family)
    | ByUser(user: UserId, except: Option<SessionId>)
    | ExpiredAt(now: Instant)

  predicate Selects(w: Which, s: Session) {
    match w
    case ById(id) => s.id == id
    case ByFamily(family) => s.family == family
    case ByUser(user, except) => s.user == user && except != Some(s.id)
    case ExpiredAt(now) => !s.revoked && s.expiresAt <= now
  }

  function RevokeRow(s: Session, w: Which): Session {
    if Selects(w, s) then s.(revoked := true) else s
  }

  function Revoke(rows: seq<Session>, w: Which): seq<Session> {
    seq(|rows|, i requires 0 <= i < |rows| => RevokeRow(rows[i], w))
  }

  /** The first row with this token. */
  function Find(rows: seq<Session>, token: Token): (r: Option<nat>)
    ensures r.Some? ==> r.value < |rows| && rows[r.value].token == token
    ensures r.None? ==> forall i :: 0 <= i < |rows| ==> rows[i].token != token
    ensures r.Some? ==> forall i :: 0 <= i < r.value ==> rows[i].token != token
  {
    if rows == [] then None
    else
      var earlier := Find(rows[..|rows| - 1], token);
      if earlier.Some? then earlier
      else if rows[|rows| - 1].token == token then Some(|rows| - 1)
      else None
  }

  // ---------------------------------------------------------------- the reset table

  datatype WhichReset = ResetId(id: nat) | ResetsOf(user: UserId) | ResetsExpiredAt(now: Instant)

  predicate SelectsReset(w: WhichReset, r: Reset) {
    match w
    case ResetId(id) => r.id == id
    case ResetsOf(user) => r.user == user
    case ResetsExpiredAt(now) => !r.used && r.expiresAt <= now
  }

  function UseRow(r: Reset, w: WhichReset): Reset {
    if SelectsReset(w, r) then r.(used := true) else r
  }

  function Use(rows: seq<Reset>, w: WhichReset): seq<Reset> {
    seq(|rows|, i requires 0 <= i < |rows| => UseRow(rows[i], w))
  }

  function FindReset(rows: seq<Reset>, token: Token): (r: Option<nat>)
    ensures r.Some? ==> r.value < |rows| && rows[r.value].token == token
    ensures r.None? ==> forall i :: 0 <= i < |rows| ==> rows[i].token != token
    ensures r.Some? ==> forall i :: 0 <= i < r.value ==> rows[i].token != token
  {
    if rows == [] then None
    else
      var earlier := FindReset(rows[..|rows| - 1], token);
      if earlier.Some? then earlier
      else if rows[|rows| - 1].token == token then Some(|rows| - 1)
      else None
  }

  // ---------------------------------------------------------------- the service calls

  predicate Active(s: Identity, user: UserId) {
    user in s.users && s.users[user].active
  }

  /** `_issue_tokens`. */
  function Issue(s: Identity, user: UserId, f: Fresh, family: Family, rotatedFrom: Option<SessionId>, expires: Instant): Identity {
    s.(sessions := s.sessions + [Session(f.id, user, f.token, family, expires, false, rotatedFrom)])
  }

  /** `login`; `found` is the account the e-mail address belongs to. */
  function Login(s: Identity, found: Option<UserId>, password: Password, f: Fresh, now: Instant, expires: Instant)
    : (Identity, Result<Token, AuthError>)
  {
    if found.None? || !Active(s, found.value) || s.users[found.value].password != password
    then (s, Err(InvalidCredentials))
    else
      var u := found.value;
      (Issue(s.(users := s.users[u := s.users[u].(lastLogin := Some(now))]), u, f, f.family, None, expires), Ok(f.token))
  }

  /** `refresh`; the clock is read once by the cleanup and once more by the expiry test. */
  function Refresh(s: Identity, token: Token, f: Fresh, now: Instant, later: Instant, expires: Instant)
    : (Identity, Result<Token, AuthError>)
  {
    var c := s.(sessions := Revoke(s.sessions, ExpiredAt(now)));
    match Find(c.sessions, token)
    case None => (c, Err(InvalidSession))
    case Some(i) =>
      var row := c.sessions[i];
      if row.revoked then (c.(sessions := Revoke(c.sessions, ByFamily(row.family))), Err(InvalidSession))
      else if row.expiresAt <= later then (c.(sessions := Revoke(c.sessions, ById(row.id))), Err(InvalidSession))
      else if !Active(c, row.user) then (c.(sessions := Revoke(c.sessions, ByFamily(row.family))), Err(InvalidSession))
      else
        (Issue(c.(sessions := Revoke(c.sessions, ById(row.id))), row.user, f, row.family, Some(row.id), expires), Ok(f.token))
  }

  /** `logout`. */
  function Logout(s: Identity, token: Option<Token>): Identity {
    if token.None? then s
    else
      match Find(s.sessions, token.value)
      case None => s
      case Some(i) => s.(sessions := Revoke(s.sessions, ById(s.sessions[i].id)))
  }

  /** The session that survives a change of password: the presented one, if it is still live. */
  function Current(s: Identity, token: Option<Token>): Option<SessionId> {
    if token.None? then None
    else
      match Find(s.sessions, token.value)
      case None => None
      case Some(i) => if s.sessions[i].revoked then None else Some(s.sessions[i].id)
  }

  function SetPassword(s: Identity, user: UserId, password: Password): Identity
    requires user in s.users
  {
    s.(users := s.users[user := s.users[user].(password := password, mustChange := false)])
  }

  /** `change_password`. */
  function ChangePassword(s: Identity, user: UserId, current: Password, password: Password, token: Option<Token>)
    : (Identity, Option<AuthError>)
  {
    if !Active(s, user) || s.users[user].password != current then (s, Some(InvalidCredentials))
    else (SetPassword(s, user, password).(sessions := Revoke(s.sessions, ByUser(user, Current(s, token)))), None)
  }

  /** `_create_reset_token`. */
  function CreateReset(s: Identity, user: UserId, f: Fresh, now: Instant, expires: Instant): Identity {
    s.(resets := Use(Use(s.resets, ResetsExpiredAt(now)), ResetsOf(user)) + [Reset(f.id, user, f.token, expires, false)])
  }

  /** `reset_password`. */
  function ResetPassword(s: Identity, token: Token, password: Password, now: Instant, later: Instant)
    : (Identity, Option<AuthError>)
  {
    var c := s.(resets := Use(s.resets, ResetsExpiredAt(now)));
    match FindReset(c.resets, token)
    case None => (c, Some(InvalidReset))
    case Some(i) =>
      var row := c.resets[i];
      if row.used then (c, Some(InvalidReset))
      else if row.expiresAt <= later || !Active(c, row.user)
      then (c.(resets := Use(c.resets, ResetId(row.id))), Some(InvalidReset))
      else
        (SetPassword(c, row.user, password).(resets := Use(Use(c.resets, ResetId(row.id)), ResetsOf(row.user)),
                                             sessions := Revoke(c.sessions, ByUser(row.user, None))), None)
  }

  /** `revoke_all_for_user`. */
  function RevokeAll(s: Identity, user: UserId): Identity {
    s.(sessions := Revoke(s.sessions, ByUser(user, None)))
  }

  function SetActive(s: Identity, user: UserId, active: bool): Identity {
    if user in s.users then s.(users := s.users[user := s.users[user].(active := active)]) else s
  }
}
