/** Any sequence of service calls: families are chains, reuse kills them, resets work once. */
module SessionRuns {
  import opened Wrappers
  import opened Instants
  import opened Sessions

  datatype Event =
    | SignIn(found: Option<UserId>, password: Password, f: Fresh, now: Instant, expires: Instant)
    | Rotate(token: Token, f: Fresh, now: Instant, later: Instant, expires: Instant)
    | SignOut(presented: Option<Token>)
    | Change(user: UserId, current: Password, password: Password, presented: Option<Token>)
    | AskReset(user: UserId, f: Fresh, now: Instant, expires: Instant)
    | DoReset(token: Token, password: Password, now: Instant, later: Instant)
    | RevokeEverything(user: UserId)
    | Suspend(user: UserId, active: bool)
    | AddUser(user: UserId, account: User)

  const EMPTY := Identity(map[], [], [])

  ghost predicate NewSession(rows: seq<Session>, f: Fresh) {
    forall i :: 0 <= i < |rows| ==> rows[i].id != f.id && rows[i].token != f.token && rows[i].family != f.family
  }

  ghost predicate NewReset(rows: seq<Reset>, f: Fresh) {
    forall i :: 0 <= i < |rows| ==> rows[i].id != f.id && rows[i].token != f.token
  }

  /** All that is asked of the environment: generators never repeat themselves. */
  ghost predicate Enabled(s: Identity, e: Event) {
    match e
    case SignIn(_, _, f, _, _) => NewSession(s.sessions, f)
    case Rotate(_, f, _, _, _) => NewSession(s.sessions, f)
    case AskReset(_, f, _, _) => NewReset(s.resets, f)
    case _ => true
  }

  function Step(s: Identity, e: Event): Identity {
    match e
    case SignIn(found, password, f, now, expires) => Login(s, found, password, f, now, expires).0
    case Rotate(token, f, now, later, expires) => Refresh(s, token, f, now, later, expires).0
    case SignOut(token) => Logout(s, token)
    case Change(user, current, password, token) => ChangePassword(s, user, current, password, token).0
    case AskReset(user, f, now, expires) => CreateReset(s, user, f, now, expires)
    case DoReset(token, password, now, later) => ResetPassword(s, token, password, now, later).0
    case RevokeEverything(user) => RevokeAll(s, user)
    case Suspend(user, active) => SetActive(s, user, active)
    case AddUser(user, account) => s.(users := s.users[user := account])
  }

  ghost function After(history: seq<Event>): Option<Identity> {
    if history == [] then Some(EMPTY)
    else
      match After(history[..|history| - 1])
      case None => None
      case Some(s) => if Enabled(s, history[|history| - 1]) then Some(Step(s, history[|history| - 1])) else None
  }

  // ---------------------------------------------------------------- chains

  /** The latest member of a family among the first `n` rows. */
  function Last(rows: seq<Session>, family: Family, n: nat): (r: Option<nat>)
    requires n <= |rows|
    ensures r.Some? ==> r.value < n && rows[r.value].family == family
    ensures r.Some? ==> forall i :: r.value < i < n ==> rows[i].family != family
    ensures r.None? ==> forall i :: 0 <= i < n ==> rows[i].family != family
  {
    if n == 0 then None else if rows[n - 1].family == family then Some(n - 1) else Last(rows, family, n - 1)
  }

  /** Each member was rotated from the family member just before it, and the first from nobody. */
  ghost predicate Linked(rows: seq<Session>, i: nat)
    requires i < |rows|
  {
    match Last(rows, rows[i].family, i)
    case None => rows[i].rotatedFrom == None
    case Some(j) => rows[i].rotatedFrom == Some(rows[j].id) && rows[i].user == rows[j].user && rows[j].revoked
  }

  ghost predicate Distinct(rows: seq<Session>) {
    forall i, j :: 0 <= i < j < |rows| ==> rows[i].id != rows[j].id && rows[i].token != rows[j].token
  }

  /** Every member but the last of its family is revoked. */
  ghost predicate OnlyLastLives(rows: seq<Session>) {
    forall i, j :: 0 <= i < j < |rows| && rows[i].family == rows[j].family ==> rows[i].revoked && rows[i].user == rows[j].user
  }

  ghost predicate ChainsOk(rows: seq<Session>) {
    && Distinct(rows) && OnlyLastLives(rows)
    && forall i :: 0 <= i < |rows| ==> Linked(rows, i)
  }

  ghost predicate ResetsOk(rows: seq<Reset>) {
    && (forall i, j :: 0 <= i < j < |rows| ==> rows[i].id != rows[j].id && rows[i].token != rows[j].token)
    && (forall i, j :: 0 <= i < j < |rows| && rows[i].user == rows[j].user ==> rows[i].used)
  }

  /** Rows only ever change by becoming revoked. */
  ghost predicate Aged(rows: seq<Session>, later: seq<Session>) {
    && |rows| <= |later|
    && forall i :: 0 <= i < |rows| ==>
         later[i] == rows[i].(revoked := later[i].revoked) && (rows[i].revoked ==> later[i].revoked)
  }

  lemma {:induction false} AgingKeepsLast(rows: seq<Session>, later: seq<Session>, family: Family, n: nat)
    requires Aged(rows, later) && n <= |rows|
    ensures Last(later, family, n) == Last(rows, family, n)
  {
  }

  lemma AgingKeepsLink(rows: seq<Session>, later: seq<Session>, i: nat)
    requires Aged(rows, later) && i < |rows| && Linked(rows, i)
    ensures Linked(later, i)
  {
  }

  lemma RevokingKeepsChains(rows: seq<Session>, w: Which)
    requires ChainsOk(rows)
    ensures ChainsOk(Revoke(rows, w)) && Aged(rows, Revoke(rows, w))
  {
    var later := Revoke(rows, w);
    forall i | 0 <= i < |later| ensures Linked(later, i) {
      AgingKeepsLink(rows, later, i);
    }
  }

  /** A new row that continues its family's last, revoked member, or founds a family. */
  lemma AppendKeepsChains(rows: seq<Session>, row: Session)
    requires ChainsOk(rows) && forall i :: 0 <= i < |rows| ==> rows[i].id != row.id && rows[i].token != row.token
    requires match Last(rows, row.family, |rows|)
      case None => row.rotatedFrom == None
      case Some(j) => row.rotatedFrom == Some(rows[j].id) && row.user == rows[j].user && rows[j].revoked
    ensures ChainsOk(rows + [row]) && Aged(rows, rows + [row])
  {
    var later := rows + [row];
    NewLink(rows, row);
    forall i | 0 <= i < |rows| ensures Linked(later, i) {
      AgingKeepsLink(rows, later, i);
    }
    FamilyBefore(rows, row);
  }

  lemma NewLink(rows: seq<Session>, row: Session)
    requires match Last(rows, row.family, |rows|)
      case None => row.rotatedFrom == None
      case Some(j) => row.rotatedFrom == Some(rows[j].id) && row.user == rows[j].user && rows[j].revoked
    ensures Linked(rows + [row], |rows|)
  {
    AgingKeepsLast(rows, rows + [row], row.family, |rows|);
  }

  lemma FamilyBefore(rows: seq<Session>, row: Session)
    requires OnlyLastLives(rows)
    requires match Last(rows, row.family, |rows|)
      case None => true
      case Some(j) => row.user == rows[j].user && rows[j].revoked
    ensures OnlyLastLives(rows + [row])
  {
  }

  lemma LoginKeepsChains(s: Identity, found: Option<UserId>, password: Password, f: Fresh, now: Instant, expires: Instant)
    requires ChainsOk(s.sessions) && NewSession(s.sessions, f)
    ensures ChainsOk(Login(s, found, password, f, now, expires).0.sessions)
    ensures Aged(s.sessions, Login(s, found, password, f, now, expires).0.sessions)
  {
    if Login(s, found, password, f, now, expires).1.Ok? {
      AppendKeepsChains(s.sessions, Session(f.id, found.value, f.token, f.family, expires, false, None));
    }
  }

  lemma LiveIsLast(rows: seq<Session>, i: nat)
    requires OnlyLastLives(rows) && i < |rows| && !rows[i].revoked
    ensures Last(rows, rows[i].family, |rows|) == Some(i)
  {
  }

  lemma AgedTwice(a: seq<Session>, b: seq<Session>, c: seq<Session>)
    requires Aged(a, b) && Aged(b, c)
    ensures Aged(a, c)
  {
  }

  /** Rotating a live session: it is its family's last, it dies, and the new one continues it. */
  lemma RotationKeepsChains(rows: seq<Session>, i: nat, f: Fresh, expires: Instant)
    requires ChainsOk(rows) && i < |rows| && !rows[i].revoked && NewSession(rows, f)
    ensures var r := Revoke(rows, ById(rows[i].id));
      var row := Session(f.id, rows[i].user, f.token, rows[i].family, expires, false, Some(rows[i].id));
      ChainsOk(r + [row]) && Aged(rows, r + [row])
  {
    var r := Revoke(rows, ById(rows[i].id));
    var row := Session(f.id, rows[i].user, f.token, rows[i].family, expires, false, Some(rows[i].id));
    LiveIsLast(rows, i);
    RevokingKeepsChains(rows, ById(rows[i].id));
    AgingKeepsLast(rows, r, rows[i].family, |rows|);
    AppendKeepsChains(r, row);
    AgedTwice(rows, r, r + [row]);
  }

  lemma RefreshKeepsChains(s: Identity, token: Token, f: Fresh, now: Instant, later: Instant, expires: Instant)
    requires ChainsOk(s.sessions) && NewSession(s.sessions, f)
    ensures ChainsOk(Refresh(s, token, f, now, later, expires).0.sessions)
    ensures Aged(s.sessions, Refresh(s, token, f, now, later, expires).0.sessions)
  {
    var c := Revoke(s.sessions, ExpiredAt(now));
    RevokingKeepsChains(s.sessions, ExpiredAt(now));
    var found := Find(c, token);
    if found.Some? {
      var row := c[found.value];
      RevokingKeepsChains(c, ByFamily(row.family));
      RevokingKeepsChains(c, ById(row.id));
      AgedTwice(s.sessions, c, Revoke(c, ByFamily(row.family)));
      AgedTwice(s.sessions, c, Revoke(c, ById(row.id)));
      if !row.revoked {
        RotationKeepsChains(c, found.value, f, expires);
        AgedTwice(s.sessions, c, Revoke(c, ById(row.id)) + [Session(f.id, row.user, f.token, row.family, expires, false, Some(row.id))]);
      }
    }
  }

  lemma NothingAges(rows: seq<Session>)
    ensures Aged(rows, rows)
  {
  }

  lemma StepKeepsChains(s: Identity, e: Event)
    requires ChainsOk(s.sessions) && Enabled(s, e)
    ensures ChainsOk(Step(s, e).sessions) && Aged(s.sessions, Step(s, e).sessions)
  {
    NothingAges(s.sessions);
    match e
    case SignIn(found, password, f, now, expires) => LoginKeepsChains(s, found, password, f, now, expires);
    case Rotate(token, f, now, later, expires) => RefreshKeepsChains(s, token, f, now, later, expires);
    case SignOut(token) =>
      if token.Some? && Find(s.sessions, token.value).Some? {
        RevokingKeepsChains(s.sessions, ById(s.sessions[Find(s.sessions, token.value).value].id));
      }
    case Change(user, current, password, token) => RevokingKeepsChains(s.sessions, ByUser(user, Current(s, token)));
    case DoReset(token, password, now, later) => ResetKeepsChains(s, token, password, now, later);
    case RevokeEverything(user) => RevokingKeepsChains(s.sessions, ByUser(user, None));
    case _ =>
  }

  lemma ResetKeepsChains(s: Identity, token: Token, password: Password, now: Instant, later: Instant)
    requires ChainsOk(s.sessions)
    ensures ChainsOk(ResetPassword(s, token, password, now, later).0.sessions)
    ensures Aged(s.sessions, ResetPassword(s, token, password, now, later).0.sessions)
  {
    NothingAges(s.sessions);
    var c := Use(s.resets, ResetsExpiredAt(now));
    if FindReset(c, token).Some? {
      RevokingKeepsChains(s.sessions, ByUser(c[FindReset(c, token).value].user, None));
    }
  }

  lemma {:induction false} ReachableChains(history: seq<Event>)
    requires After(history).Some?
    ensures ChainsOk(After(history).value.sessions)
    decreases |history|
  {
    if history != [] {
      ReachableChains(history[..|history| - 1]);
      StepKeepsChains(After(history[..|history| - 1]).value, history[|history| - 1]);
    }
  }

  /** In every reachable state a family is one chain under `rotatedFrom` with one user, at most one live
      session and that the last, and no session was rotated twice. */
  lemma FamiliesAreChains(history: seq<Event>, i: nat, j: nat)
    requires After(history).Some? && i < j < |After(history).value.sessions|
    ensures var rows := After(history).value.sessions;
      && Linked(rows, i) && Linked(rows, j)
      && (rows[i].family == rows[j].family ==> rows[i].revoked && rows[i].user == rows[j].user)
      && (rows[i].rotatedFrom.Some? ==> rows[i].rotatedFrom != rows[j].rotatedFrom)
  {
    ReachableChains(history);
    var rows := After(history).value.sessions;
    if rows[i].rotatedFrom.Some? && rows[i].rotatedFrom == rows[j].rotatedFrom {
      RotatedOnce(rows, i, j);
    }
  }

  lemma RotatedOnce(rows: seq<Session>, i: nat, j: nat)
    requires ChainsOk(rows) && i < j < |rows| && rows[i].rotatedFrom.Some?
    ensures rows[i].rotatedFrom != rows[j].rotatedFrom
  {
    assert Linked(rows, i) && Linked(rows, j);
    var a := Last(rows, rows[i].family, i);
    var b := Last(rows, rows[j].family, j);
    assert a.Some? && rows[a.value].family == rows[i].family;
    assert b.Some? ==> rows[b.value].family == rows[j].family && (b.value == a.value <==> rows[b.value].id == rows[a.value].id);
  }

  // ---------------------------------------------------------------- what the calls achieve

  /** Row `i` is a session that may still be rotated. */
  predicate Usable(s: Identity, i: int, token: Token, now: Instant, later: Instant) {
    && 0 <= i < |s.sessions| && s.sessions[i].token == token && !s.sessions[i].revoked
    && now < s.sessions[i].expiresAt && later < s.sessions[i].expiresAt && Active(s, s.sessions[i].user)
  }

  /** A refresh succeeds exactly for a live, unexpired session of an active user; it then retires that session
      and adds the one live successor. A failed refresh adds nothing. */
  lemma RefreshOutcome(s: Identity, token: Token, f: Fresh, now: Instant, later: Instant, expires: Instant)
    requires ChainsOk(s.sessions) && NewSession(s.sessions, f)
    ensures var (t, r) := Refresh(s, token, f, now, later, expires);
      && (r.Ok? <==> exists i :: Usable(s, i, token, now, later))
      && (r.Err? ==> |t.sessions| == |s.sessions|)
      && forall i | r.Ok? && Usable(s, i, token, now, later) ::
           && |t.sessions| == |s.sessions| + 1 && t.sessions[i].revoked && r.value == f.token
           && t.sessions[|s.sessions|] ==
                Session(f.id, s.sessions[i].user, f.token, s.sessions[i].family, expires, false, Some(s.sessions[i].id))
  {
    var c := Revoke(s.sessions, ExpiredAt(now));
    forall i | Usable(s, i, token, now, later) ensures Find(c, token) == Some(i) && c[i] == s.sessions[i] {
      RevokingKeepsChains(s.sessions, ExpiredAt(now));
      TokenFindsItsRow(c, i);
    }
    if Find(c, token).Some? {
      var i := Find(c, token).value;
      assert !c[i].revoked ==> c[i] == s.sessions[i] && now < s.sessions[i].expiresAt;
      assert !c[i].revoked && later < c[i].expiresAt && Active(s, c[i].user) ==> Usable(s, i, token, now, later);
    }
  }

  /** Logging out ends the presented session and touches no other. */
  lemma LogoutEndsTheSession(s: Identity, i: nat)
    requires ChainsOk(s.sessions) && i < |s.sessions|
    ensures Logout(s, Some(s.sessions[i].token)) == s.(sessions := s.sessions[i := s.sessions[i].(revoked := true)])
  {
  }

  /** A change of password needs the current one and leaves the user no live session but the presented one. */
  lemma ChangeKeepsOnlyTheCurrentSession(s: Identity, user: UserId, current: Password, password: Password,
                                         presented: Option<Token>, i: nat)
    requires ChainsOk(s.sessions) && i < |s.sessions|
    ensures var (t, e) := ChangePassword(s, user, current, password, presented);
      && (e.None? <==> Active(s, user) && s.users[user].password == current)
      && (e.Some? ==> t == s)
      && (e.None? ==> user in t.users && t.users[user].password == password && !t.users[user].mustChange)
      && (e.None? ==> (t.sessions[i].revoked <==>
            s.sessions[i].revoked || (s.sessions[i].user == user && presented != Some(s.sessions[i].token))))
  {
  }

  // ---------------------------------------------------------------- reuse

  /** The family exists and has no live session. */
  ghost predicate Dead(rows: seq<Session>, family: Family) {
    && (exists i :: 0 <= i < |rows| && rows[i].family == family)
    && (forall i :: 0 <= i < |rows| && rows[i].family == family ==> rows[i].revoked)
  }

  /** The token was rotated away, logged out, revoked or has expired by `now`. */
  predicate Spent(rows: seq<Session>, i: nat, now: Instant)
    requires i < |rows|
  {
    rows[i].revoked || rows[i].expiresAt <= now
  }

  lemma TokenFindsItsRow(rows: seq<Session>, i: nat)
    requires Distinct(rows) && i < |rows|
    ensures Find(rows, rows[i].token) == Some(i)
  {
  }

  /** Presenting a spent token fails and leaves its family without a live session. */
  lemma ReuseKillsTheFamily(s: Identity, i: nat, f: Fresh, now: Instant, later: Instant, expires: Instant)
    requires ChainsOk(s.sessions) && i < |s.sessions| && Spent(s.sessions, i, now)
    ensures var (t, r) := Refresh(s, s.sessions[i].token, f, now, later, expires);
      r == Err(InvalidSession) && Dead(t.sessions, s.sessions[i].family)
  {
    var c := Revoke(s.sessions, ExpiredAt(now));
    RevokingKeepsChains(s.sessions, ExpiredAt(now));
    TokenFindsItsRow(c, i);
    assert c[i].revoked && c[i].family == s.sessions[i].family;
    assert Revoke(c, ByFamily(c[i].family))[i].family == c[i].family;
  }

  /** New rows join a family only by rotating its live session. */
  ghost predicate JoinsLive(rows: seq<Session>, later: seq<Session>) {
    forall k :: |rows| <= k < |later| ==>
      forall i :: 0 <= i < |rows| && rows[i].family == later[k].family ==>
        exists j :: 0 <= j < |rows| && rows[j].family == later[k].family && !rows[j].revoked
  }

  lemma StepJoinsLive(s: Identity, e: Event)
    requires Enabled(s, e)
    ensures JoinsLive(s.sessions, Step(s, e).sessions)
  {
  }

  lemma DeadStaysDead(s: Identity, e: Event, family: Family)
    requires ChainsOk(s.sessions) && Enabled(s, e) && Dead(s.sessions, family)
    ensures Dead(Step(s, e).sessions, family)
  {
    StepKeepsChains(s, e);
    StepJoinsLive(s, e);
    var rows, later := s.sessions, Step(s, e).sessions;
    var i :| 0 <= i < |rows| && rows[i].family == family;
    assert later[i].family == family;
    forall k | 0 <= k < |later| && later[k].family == family ensures later[k].revoked {
      assert k < |rows| ==> rows[k].family == family && rows[k].revoked;
    }
  }

  lemma {:induction false} PrefixHappened(history: seq<Event>, n: nat)
    requires After(history).Some? && n <= |history|
    ensures After(history[..n]).Some?
    decreases |history|
  {
    if n == |history| {
      assert history[..n] == history;
    } else {
      assert history[..n] == history[..|history| - 1][..n];
      PrefixHappened(history[..|history| - 1], n);
    }
  }

  lemma {:induction false} DeadForever(history: seq<Event>, n: nat, s: Identity, family: Family)
    requires After(history).Some? && n <= |history|
    requires After(history[..n]) == Some(s) && Dead(s.sessions, family)
    ensures Dead(After(history).value.sessions, family)
    decreases |history|
  {
    if n == |history| {
      assert history[..n] == history;
    } else {
      var before := history[..|history| - 1];
      assert history[..n] == before[..n];
      DeadForever(before, n, s, family);
      ReachableChains(before);
      DeadStaysDead(After(before).value, history[|history| - 1], family);
    }
  }

  /** Reuse detection over whole histories: once a spent token of session `i` has been presented, its family
      has no live session in any later state, whatever happens in between. */
  lemma ReuseIsFinal(history: seq<Event>, n: nat, s: Identity, i: nat)
    requires After(history).Some? && n < |history| && history[n].Rotate?
    requires After(history[..n]) == Some(s) && i < |s.sessions|
    requires s.sessions[i].token == history[n].token && Spent(s.sessions, i, history[n].now)
    ensures Dead(After(history).value.sessions, s.sessions[i].family)
  {
    PrefixHappened(history, n + 1);
    ReachableChains(history[..n]);
    var e := history[n];
    ReuseKillsTheFamily(s, i, e.f, e.now, e.later, e.expires);
    assert history[..n + 1][..n] == history[..n];
    DeadForever(history, n + 1, Step(s, e), s.sessions[i].family);
  }

  // ---------------------------------------------------------------- password resets

  lemma UsingKeepsResets(rows: seq<Reset>, w: WhichReset)
    requires ResetsOk(rows)
    ensures ResetsOk(Use(rows, w))
  {
  }

  lemma CreatingKeepsResets(rows: seq<Reset>, user: UserId, row: Reset)
    requires ResetsOk(rows) && row.user == user
    requires forall i :: 0 <= i < |rows| ==> rows[i].id != row.id && rows[i].token != row.token
    ensures ResetsOk(Use(rows, ResetsOf(user)) + [row])
  {
  }

  lemma StepKeepsResets(s: Identity, e: Event)
    requires ResetsOk(s.resets) && Enabled(s, e)
    ensures ResetsOk(Step(s, e).resets)
  {
    match e
    case AskReset(user, f, now, expires) =>
      UsingKeepsResets(s.resets, ResetsExpiredAt(now));
      CreatingKeepsResets(Use(s.resets, ResetsExpiredAt(now)), user, Reset(f.id, user, f.token, expires, false));
    case DoReset(token, password, now, later) =>
      var c := Use(s.resets, ResetsExpiredAt(now));
      UsingKeepsResets(s.resets, ResetsExpiredAt(now));
      if FindReset(c, token).Some? {
        var row := c[FindReset(c, token).value];
        UsingKeepsResets(c, ResetId(row.id));
        UsingKeepsResets(Use(c, ResetId(row.id)), ResetsOf(row.user));
      }
    case _ =>
  }

  /** In every reachable state a user has at most one usable reset token, the newest. */
  lemma {:induction false} OnlyNewestResetIsUsable(history: seq<Event>)
    requires After(history).Some?
    ensures ResetsOk(After(history).value.resets)
    decreases |history|
  {
    if history != [] {
      OnlyNewestResetIsUsable(history[..|history| - 1]);
      StepKeepsResets(After(history[..|history| - 1]).value, history[|history| - 1]);
    }
  }

  /** A successful reset spends every reset token of the user and revokes every session of the user. */
  lemma ResetRevokesEverything(s: Identity, token: Token, password: Password, now: Instant, later: Instant)
    requires ResetsOk(s.resets) && ResetPassword(s, token, password, now, later).1.None?
    ensures var t := ResetPassword(s, token, password, now, later).0;
      exists i ::
        && 0 <= i < |s.resets| && s.resets[i].token == token && !s.resets[i].used && now < s.resets[i].expiresAt
        && var user := s.resets[i].user;
           && Active(s, user) && t.users == s.users[user := s.users[user].(password := password, mustChange := false)]
           && (forall j :: 0 <= j < |t.resets| && t.resets[j].user == user ==> t.resets[j].used)
           && (forall j :: 0 <= j < |t.sessions| && t.sessions[j].user == user ==> t.sessions[j].revoked)
  {
  }

  ghost predicate UsedUp(rows: seq<Reset>, token: Token) {
    exists i :: 0 <= i < |rows| && rows[i].token == token && rows[i].used
  }

  lemma UsingKeepsUsedUp(rows: seq<Reset>, w: WhichReset, token: Token)
    requires UsedUp(rows, token)
    ensures UsedUp(Use(rows, w), token)
  {
    var i :| 0 <= i < |rows| && rows[i].token == token && rows[i].used;
    assert Use(rows, w)[i].token == token && Use(rows, w)[i].used;
  }

  lemma StepKeepsUsedUp(s: Identity, e: Event, token: Token)
    requires UsedUp(s.resets, token)
    ensures UsedUp(Step(s, e).resets, token)
  {
    match e
    case AskReset(user, f, now, expires) =>
      var c := Use(s.resets, ResetsExpiredAt(now));
      UsingKeepsUsedUp(s.resets, ResetsExpiredAt(now), token);
      UsingKeepsUsedUp(c, ResetsOf(user), token);
      var d := Use(c, ResetsOf(user));
      var i :| 0 <= i < |d| && d[i].token == token && d[i].used;
      assert Step(s, e).resets[i] == d[i];
    case DoReset(other, password, now, later) =>
      var c := Use(s.resets, ResetsExpiredAt(now));
      UsingKeepsUsedUp(s.resets, ResetsExpiredAt(now), token);
      if FindReset(c, other).Some? {
        var row := c[FindReset(c, other).value];
        UsingKeepsUsedUp(c, ResetId(row.id), token);
        UsingKeepsUsedUp(Use(c, ResetId(row.id)), ResetsOf(row.user), token);
      }
    case _ =>
  }

  lemma UsedUpFails(s: Identity, token: Token, password: Password, now: Instant, later: Instant)
    requires ResetsOk(s.resets) && UsedUp(s.resets, token)
    ensures ResetPassword(s, token, password, now, later).1 == Some(InvalidReset)
    ensures ResetPassword(s, token, password, now, later).0 == s.(resets := Use(s.resets, ResetsExpiredAt(now)))
  {
  }

  lemma AttemptUsesUp(s: Identity, token: Token, password: Password, now: Instant, later: Instant)
    requires FindReset(s.resets, token).Some?
    ensures UsedUp(ResetPassword(s, token, password, now, later).0.resets, token)
  {
    var c := Use(s.resets, ResetsExpiredAt(now));
    var k := FindReset(s.resets, token).value;
    assert c[k].token == token;
    var i := FindReset(c, token).value;
    var t := ResetPassword(s, token, password, now, later).0.resets;
    assert t[i].token == token && t[i].used;
  }

  lemma {:induction false} UsedUpForever(history: seq<Event>, n: nat, s: Identity, token: Token)
    requires After(history).Some? && n <= |history|
    requires After(history[..n]) == Some(s) && UsedUp(s.resets, token)
    ensures UsedUp(After(history).value.resets, token)
    decreases |history|
  {
    if n == |history| {
      assert history[..n] == history;
    } else {
      var before := history[..|history| - 1];
      assert history[..n] == before[..n];
      UsedUpForever(before, n, s, token);
      StepKeepsUsedUp(After(before).value, history[|history| - 1], token);
    }
  }

  /** Reset tokens work at most once: after any attempt with an existing token, successful or not, every later
      attempt with it is refused and changes nobody's password or sessions. */
  lemma ResetWorksOnce(history: seq<Event>, n: nat, s: Identity, password: Password, now: Instant, later: Instant)
    requires After(history).Some? && n < |history| && history[n].DoReset?
    requires After(history[..n]) == Some(s) && FindReset(s.resets, history[n].token).Some?
    ensures var t := After(history).value;
      && ResetPassword(t, history[n].token, password, now, later).1 == Some(InvalidReset)
      && ResetPassword(t, history[n].token, password, now, later).0.users == t.users
      && ResetPassword(t, history[n].token, password, now, later).0.sessions == t.sessions
  {
    PrefixHappened(history, n + 1);
    var e := history[n];
    AttemptUsesUp(s, e.token, e.password, e.now, e.later);
    assert history[..n + 1][..n] == history[..n];
    UsedUpForever(history, n + 1, Step(s, e), e.token);
    OnlyNewestResetIsUsable(history);
    UsedUpFails(After(history).value, e.token, password, now, later);
  }
}
