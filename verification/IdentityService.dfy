/** The identity tables as mutable objects and the service that updates them step by step. Every method is
    proved against its function in `Sessions`. */
module IdentityService {
  import opened Wrappers
  import opened Instants
  import opened Sessions

  class SessionTable {
    var rows: seq<Session>

    constructor ()
      ensures rows == []
    {
      rows := [];
    }

    method CreateSession(row: Session)
      modifies this
      ensures rows == old(rows) + [row]
    {
      rows := rows + [row];
    }

    method GetByToken(token: Token) returns (r: Option<nat>)
      ensures r == Find(rows, token)
    {
      for i := 0 to |rows|
        invariant forall j :: 0 <= j < i ==> rows[j].token != token
      {
        if rows[i].token == token {
          return Some(i);
        }
      }
      return None;
    }

    /** A table update by query: `revoke_session`, `revoke_family`. */
    method Update(w: Which)
      modifies this
      ensures rows == Revoke(old(rows), w)
    {
      for i := 0 to |rows|
        invariant |rows| == |old(rows)|
        invariant forall j :: 0 <= j < |rows| ==> rows[j] == if j < i then RevokeRow(old(rows)[j], w) else old(rows)[j]
      {
        if Selects(w, rows[i]) {
          rows := rows[i := rows[i].(revoked := true)];
        }
      }
    }

    method RevokeUserSessions(user: UserId, except: Option<SessionId>)
      modifies this
      ensures rows == Revoke(old(rows), ByUser(user, except))
    {
      for i := 0 to |rows|
        invariant |rows| == |old(rows)|
        invariant forall j :: 0 <= j < |rows| ==>
          rows[j] == if j < i then RevokeRow(old(rows)[j], ByUser(user, except)) else old(rows)[j]
      {
        if rows[i].user != user {
          continue;
        }
        if except.Some? && rows[i].id == except.value {
          continue;
        }
        rows := rows[i := rows[i].(revoked := true)];
      }
    }

    /** First collect the expired rows, then update them all. */
    method CleanupExpired(now: Instant)
      modifies this
      ensures rows == Revoke(old(rows), ExpiredAt(now))
    {
      var expired := {};
      for i := 0 to |rows|
        invariant rows == old(rows)
        invariant forall j :: j in expired <==> 0 <= j < i && Selects(ExpiredAt(now), rows[j])
      {
        if !rows[i].revoked && rows[i].expiresAt <= now {
          expired := expired + {i};
        }
      }
      for i := 0 to |rows|
        invariant |rows| == |old(rows)|
        invariant forall j :: j in expired <==> 0 <= j < |rows| && Selects(ExpiredAt(now), old(rows)[j])
        invariant forall j :: 0 <= j < |rows| ==>
          rows[j] == if j < i then RevokeRow(old(rows)[j], ExpiredAt(now)) else old(rows)[j]
      {
        if i in expired {
          rows := rows[i := rows[i].(revoked := true)];
        }
      }
    }
  }

  class ResetTable {
    var rows: seq<Reset>

    constructor ()
      ensures rows == []
    {
      rows := [];
    }

    method CreateReset(row: Reset)
      modifies this
      ensures rows == old(rows) + [row]
    {
      rows := rows + [row];
    }

    method GetByToken(token: Token) returns (r: Option<nat>)
      ensures r == FindReset(rows, token)
    {
      for i := 0 to |rows|
        invariant forall j :: 0 <= j < i ==> rows[j].token != token
      {
        if rows[i].token == token {
          return Some(i);
        }
      }
      return None;
    }

    /** `mark_used`, `cleanup_expired`; tells whether a row was there to update. */
    method Update(w: WhichReset) returns (hit: bool)
      modifies this
      ensures rows == Use(old(rows), w)
      ensures hit <==> exists i :: 0 <= i < |old(rows)| && SelectsReset(w, old(rows)[i])
    {
      hit := false;
      for i := 0 to |rows|
        invariant |rows| == |old(rows)|
        invariant forall j :: 0 <= j < |rows| ==> rows[j] == if j < i then UseRow(old(rows)[j], w) else old(rows)[j]
        invariant hit <==> exists j :: 0 <= j < i && SelectsReset(w, old(rows)[j])
      {
        if SelectsReset(w, rows[i]) {
          rows := rows[i := rows[i].(used := true)];
          hit := true;
        }
      }
    }

    method InvalidateUserTokens(user: UserId)
      modifies this
      ensures rows == Use(old(rows), ResetsOf(user))
    {
      for i := 0 to |rows|
        invariant |rows| == |old(rows)|
        invariant forall j :: 0 <= j < |rows| ==> rows[j] == if j < i then UseRow(old(rows)[j], ResetsOf(user)) else old(rows)[j]
      {
        if rows[i].user != user || rows[i].used {
          continue;
        }
        rows := rows[i := rows[i].(used := true)];
      }
    }
  }

  class AuthService {
    var users: map<UserId, User>
    const sessions: SessionTable
    const resets: ResetTable

    constructor (users: map<UserId, User>, sessions: SessionTable, resets: ResetTable)
      ensures this.users == users && this.sessions == sessions && this.resets == resets
    {
      this.users, this.sessions, this.resets := users, sessions, resets;
    }

    function Model(): Identity
      reads this, sessions, resets
    {
      Identity(users, sessions.rows, resets.rows)
    }

    method IssueTokens(user: UserId, f: Fresh, family: Family, rotatedFrom: Option<SessionId>, expires: Instant)
      returns (token: Token)
      modifies sessions
      ensures Model() == Issue(old(Model()), user, f, family, rotatedFrom, expires) && token == f.token
    {
      sessions.CreateSession(Session(f.id, user, f.token, family, expires, false, rotatedFrom));
      return f.token;
    }

    method Login(found: Option<UserId>, password: Password, f: Fresh, now: Instant, expires: Instant)
      returns (r: Result<Token, AuthError>)
      modifies this, sessions
      ensures (Model(), r) == Sessions.Login(old(Model()), found, password, f, now, expires)
    {
      if found.None? || found.value !in users || !users[found.value].active {
        return Err(InvalidCredentials);
      }
      var user := found.value;
      if users[user].password != password {
        return Err(InvalidCredentials);
      }
      users := users[user := users[user].(lastLogin := Some(now))];
      var token := IssueTokens(user, f, f.family, None, expires);
      return Ok(token);
    }

    method Refresh(token: Token, f: Fresh, now: Instant, later: Instant, expires: Instant)
      returns (r: Result<Token, AuthError>)
      modifies sessions
      ensures (Model(), r) == Sessions.Refresh(old(Model()), token, f, now, later, expires)
    {
      sessions.CleanupExpired(now);
      var found := sessions.GetByToken(token);
      if found.None? {
        return Err(InvalidSession);
      }
      var row := sessions.rows[found.value];
      if row.revoked {
        sessions.Update(ByFamily(row.family));
        return Err(InvalidSession);
      }
      if row.expiresAt <= later {
        sessions.Update(ById(row.id));
        return Err(InvalidSession);
      }
      if row.user !in users || !users[row.user].active {
        sessions.Update(ByFamily(row.family));
        return Err(InvalidSession);
      }
      sessions.Update(ById(row.id));
      var issued := IssueTokens(row.user, f, row.family, Some(row.id), expires);
      return Ok(issued);
    }

    method Logout(token: Option<Token>)
      modifies sessions
      ensures Model() == Sessions.Logout(old(Model()), token)
    {
      if token.None? {
        return;
      }
      var found := sessions.GetByToken(token.value);
      if found.Some? {
        sessions.Update(ById(sessions.rows[found.value].id));
      }
    }

    method ChangePassword(user: UserId, current: Password, password: Password, token: Option<Token>)
      returns (e: Option<AuthError>)
      modifies this, sessions
      ensures (Model(), e) == Sessions.ChangePassword(old(Model()), user, current, password, token)
    {
      if user !in users || !users[user].active {
        return Some(InvalidCredentials);
      }
      if users[user].password != current {
        return Some(InvalidCredentials);
      }
      var keep: Option<SessionId> := None;
      if token.Some? {
        var found := sessions.GetByToken(token.value);
        if found.Some? && !sessions.rows[found.value].revoked {
          keep := Some(sessions.rows[found.value].id);
        }
      }
      users := users[user := users[user].(password := password, mustChange := false)];
      sessions.RevokeUserSessions(user, keep);
      return None;
    }

    method CreateResetToken(user: UserId, f: Fresh, now: Instant, expires: Instant)
      modifies resets
      ensures Model() == Sessions.CreateReset(old(Model()), user, f, now, expires)
    {
      var _ := resets.Update(ResetsExpiredAt(now));
      resets.InvalidateUserTokens(user);
      resets.CreateReset(Reset(f.id, user, f.token, expires, false));
    }

    method ResetPassword(token: Token, password: Password, now: Instant, later: Instant) returns (e: Option<AuthError>)
      modifies this, sessions, resets
      ensures (Model(), e) == Sessions.ResetPassword(old(Model()), token, password, now, later)
    {
      var _ := resets.Update(ResetsExpiredAt(now));
      var found := resets.GetByToken(token);
      if found.None? {
        return Some(InvalidReset);
      }
      var row := resets.rows[found.value];
      if row.used {
        return Some(InvalidReset);
      }
      if row.expiresAt <= later || row.user !in users || !users[row.user].active {
        var _ := resets.Update(ResetId(row.id));
        return Some(InvalidReset);
      }
      users := users[row.user := users[row.user].(password := password, mustChange := false)];
      assert SelectsReset(ResetId(row.id), resets.rows[found.value]);
      var marked := resets.Update(ResetId(row.id));
      if !marked {
        return Some(InvalidReset);
      }
      resets.InvalidateUserTokens(row.user);
      sessions.RevokeUserSessions(row.user, None);
      return None;
    }

    method RevokeAllForUser(user: UserId)
      modifies sessions
      ensures Model() == Sessions.RevokeAll(old(Model()), user)
    {
      sessions.RevokeUserSessions(user, None);
    }
  }
}
