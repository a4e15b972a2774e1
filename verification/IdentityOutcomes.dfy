/** What each call of the identity service achieves, and that the calls work together: a login can be refreshed, a
    requested reset can be used, and a reset password is the one that logs in. */
module IdentityOutcomes {
  import opened Wrappers
  import opened Instants
  import opened Sessions
  import opened SessionRuns

  /** A login succeeds exactly for the right password of an active account; it then adds one live session in a family
      of its own and notes the time. A refused login changes nothing. */
  lemma LoginOutcome(s: Identity, found: Option<UserId>, password: Password, f: Fresh, now: Instant, expires: Instant)
    ensures var (t, r) := Login(s, found, password, f, now, expires);
      && (r.Ok? <==> found.Some? && found.value in s.users && s.users[found.value].active
                     && s.users[found.value].password == password)
      && (r.Err? ==> t == s && r.error == InvalidCredentials)
      && (r.Ok? ==>
            && r.value == f.token && t.resets == s.resets
            && t.users == s.users[found.value := s.users[found.value].(lastLogin := Some(now))]
            && t.sessions == s.sessions + [Session(f.id, found.value, f.token, f.family, expires, false, None)])
  {
  }

  /** The token of a login can be refreshed until it expires. */
  lemma LoginCanBeRefreshed(s: Identity, found: Option<UserId>, password: Password, f: Fresh, now: Instant, expires: Instant,
                            g: Fresh, at: Instant, later: Instant, expires': Instant)
    requires ChainsOk(s.sessions) && NewSession(s.sessions, f) && Login(s, found, password, f, now, expires).1.Ok?
    requires NewSession(Login(s, found, password, f, now, expires).0.sessions, g)
    ensures Refresh(Login(s, found, password, f, now, expires).0, f.token, g, at, later, expires').1.Ok? <==>
      at < expires && later < expires
  {
    var t := Login(s, found, password, f, now, expires).0;
    LoginKeepsChains(s, found, password, f, now, expires);
    RefreshOutcome(t, f.token, g, at, later, expires');
    var i := |s.sessions|;
    assert t.sessions[i].token == f.token;
    forall j | 0 <= j < i ensures t.sessions[j].token != f.token {
      assert t.sessions[j] == s.sessions[j];
    }
    if at < expires && later < expires {
      assert Usable(t, i, f.token, at, later);
    }
  }

  /** What a refused refresh revokes: whatever has expired; with a token that was spent before, or whose user is not
      active, its whole family; with one that expires during the call, that session alone. */
  lemma RefusedRefresh(s: Identity, i: nat, f: Fresh, now: Instant, later: Instant, expires: Instant, j: nat)
    requires ChainsOk(s.sessions) && i < |s.sessions| && j < |s.sessions|
    requires Refresh(s, s.sessions[i].token, f, now, later, expires).1.Err?
    ensures var (t, r) := Refresh(s, s.sessions[i].token, f, now, later, expires);
      && r.error == InvalidSession && t.users == s.users && t.resets == s.resets && |t.sessions| == |s.sessions|
      && t.sessions[j] == s.sessions[j].(revoked := t.sessions[j].revoked)
      && (t.sessions[j].revoked <==>
            || s.sessions[j].revoked || s.sessions[j].expiresAt <= now
            || (if !Spent(s.sessions, i, now) && s.sessions[i].expiresAt <= later then j == i
                else s.sessions[j].family == s.sessions[i].family))
  {
    var c := Revoke(s.sessions, ExpiredAt(now));
    RevokingKeepsChains(s.sessions, ExpiredAt(now));
    TokenFindsItsRow(c, i);
  }

  /** Revoking everything ends the user's sessions and nobody else's. */
  lemma RevokeAllOutcome(s: Identity, user: UserId, j: nat)
    requires j < |s.sessions|
    ensures var t := RevokeAll(s, user);
      && t.users == s.users && t.resets == s.resets && |t.sessions| == |s.sessions|
      && t.sessions[j] == s.sessions[j].(revoked := s.sessions[j].revoked || s.sessions[j].user == user)
  {
  }

  // ---------------------------------------------------------------- password resets

  /** Row `i` is a reset that may still be used. */
  predicate UsableReset(s: Identity, i: int, token: Token, now: Instant, later: Instant) {
    && 0 <= i < |s.resets| && s.resets[i].token == token && !s.resets[i].used
    && now < s.resets[i].expiresAt && later < s.resets[i].expiresAt && Active(s, s.resets[i].user)
  }

  /** A reset is accepted exactly for an unused, unexpired token of an active user. It then sets that user's password,
      ends exactly that user's sessions and uses up that user's tokens; otherwise no password or session changes. */
  lemma ResetOutcome(s: Identity, token: Token, password: Password, now: Instant, later: Instant)
    requires ResetsOk(s.resets)
    ensures var (t, e) := ResetPassword(s, token, password, now, later);
      && (e.None? <==> exists i :: UsableReset(s, i, token, now, later))
      && (e.Some? ==> e.value == InvalidReset && t.users == s.users && t.sessions == s.sessions)
      && forall i | e.None? && UsableReset(s, i, token, now, later) ::
           var user := s.resets[i].user;
           && t.users == s.users[user := s.users[user].(password := password, mustChange := false)]
           && EndedFor(s.sessions, t.sessions, user) && UsedFor(s.resets, t.resets, user, now)
  {
    var c := Use(s.resets, ResetsExpiredAt(now));
    forall i | UsableReset(s, i, token, now, later) ensures FindReset(c, token) == Some(i) && c[i] == s.resets[i] {
      UsingKeepsResets(s.resets, ResetsExpiredAt(now));
      TokenFindsItsReset(c, i);
    }
    if FindReset(c, token).Some? {
      var i := FindReset(c, token).value;
      assert !c[i].used ==> c[i] == s.resets[i] && now < s.resets[i].expiresAt;
      assert !c[i].used && later < c[i].expiresAt && Active(s, c[i].user) ==> UsableReset(s, i, token, now, later);
    }
  }

  lemma TokenFindsItsReset(rows: seq<Reset>, i: nat)
    requires ResetsOk(rows) && i < |rows|
    ensures FindReset(rows, rows[i].token) == Some(i)
  {
  }

  /** Exactly this user's sessions have been ended. */
  ghost predicate EndedFor(before: seq<Session>, after: seq<Session>, user: UserId) {
    && |after| == |before|
    && forall j :: 0 <= j < |before| ==> after[j] == before[j].(revoked := before[j].revoked || before[j].user == user)
  }

  /** Exactly this user's tokens and the expired ones have been used up. */
  ghost predicate UsedFor(before: seq<Reset>, after: seq<Reset>, user: UserId, now: Instant) {
    && |after| == |before|
    && forall j :: 0 <= j < |before| ==>
         after[j] == before[j].(used := before[j].used || before[j].expiresAt <= now || before[j].user == user)
  }

  /** A requested reset can be used until it expires, for as long as the account is active. */
  lemma RequestedResetWorks(s: Identity, user: UserId, f: Fresh, now: Instant, expires: Instant,
                            password: Password, at: Instant, later: Instant)
    requires ResetsOk(s.resets) && NewReset(s.resets, f)
    ensures ResetPassword(CreateReset(s, user, f, now, expires), f.token, password, at, later).1.None? <==>
      Active(s, user) && at < expires && later < expires
  {
    var t := CreateReset(s, user, f, now, expires);
    UsingKeepsResets(s.resets, ResetsExpiredAt(now));
    CreatingKeepsResets(Use(s.resets, ResetsExpiredAt(now)), user, Reset(f.id, user, f.token, expires, false));
    ResetOutcome(t, f.token, password, at, later);
    var i := |s.resets|;
    assert t.resets[i] == Reset(f.id, user, f.token, expires, false);
    forall j | 0 <= j < i ensures t.resets[j].token != f.token {
      assert t.resets[j].token == s.resets[j].token;
    }
    if Active(s, user) && at < expires && later < expires {
      assert UsableReset(t, i, f.token, at, later);
    }
  }

  /** After a reset the new password logs the user in, and no other does. */
  lemma ResetPasswordLogsIn(s: Identity, token: Token, password: Password, now: Instant, later: Instant, i: nat,
                            other: Password, f: Fresh, at: Instant, expires: Instant)
    requires ResetsOk(s.resets) && UsableReset(s, i, token, now, later)
    ensures var t := ResetPassword(s, token, password, now, later).0;
      Login(t, Some(s.resets[i].user), other, f, at, expires).1.Ok? <==> other == password
  {
    ResetOutcome(s, token, password, now, later);
    assert ResetPassword(s, token, password, now, later).1.None?;
  }
}
