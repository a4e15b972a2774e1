/** What the attempt rows and the leases of the queue say over whole histories. */
module QueueHistory {
  import opened Wrappers
  import opened Instants
  import opened ReportingQueue
  import opened QueueRuns
  import Progress = QueueProgress

  // ---------------------------------------------------------------- the invariant

  /** The status a run has after an attempt of this number with this outcome. */
  predicate Leads(cfg: Config, outcome: RetryOutcome, attempt: nat, status: Status) {
    match outcome
    case SucceededOutcome => status == Succeeded
    case FailedOutcome => status == Failed
    case Exhausted => status == Failed && cfg.maxAttempts <= attempt
    case Retried => status == Retryable && attempt < cfg.maxAttempts
    case LeaseLost => status == if attempt < cfg.maxAttempts then Retryable else Failed
  }

  ghost predicate Recorded(q: Queue, id: RunId, a: nat) {
    (id, a) in q.attempts
  }

  /** The last attempt on record says how the run stands, all earlier ones were to be retried. */
  ghost predicate OutcomesOk(cfg: Config, q: Queue, id: RunId, r: Run) {
    forall a: nat | Recorded(q, id, a) ::
      if a == r.attempt then Leads(cfg, q.attempts[(id, a)].outcome, a, r.status)
      else Leads(cfg, q.attempts[(id, a)].outcome, a, Retryable)
  }

  /** The earliest instant at which the attempt may start. */
  ghost predicate Waited(cfg: Config, q: Queue, id: RunId, a: nat, start: Instant) {
    a > 1 && Recorded(q, id, a - 1) ==> q.attempts[(id, a - 1)].endedAt + Backoff(cfg, a - 1) <= start
  }

  ghost predicate TimesOk(cfg: Config, q: Queue, id: RunId, r: Run) {
    && r.requestedAt <= q.clock
    && (forall a: nat | Recorded(q, id, a) ::
          var row := q.attempts[(id, a)];
          r.requestedAt <= row.startedAt <= row.endedAt <= q.clock && Waited(cfg, q, id, a, row.startedAt))
    && (r.status == Running && r.startedAt.Some? ==>
          r.requestedAt <= r.startedAt.value <= q.clock && Waited(cfg, q, id, r.attempt, r.startedAt.value))
    && (r.status == Retryable && Recorded(q, id, r.attempt) ==>
          r.nextAttemptAt == Some(q.attempts[(id, r.attempt)].endedAt + Backoff(cfg, r.attempt)))
  }

  ghost predicate Told(cfg: Config, q: Queue) {
    && Inv(cfg, q)
    && forall id | id in q.runs :: OutcomesOk(cfg, q, id, q.runs[id]) && TimesOk(cfg, q, id, q.runs[id])
  }

  // ---------------------------------------------------------------- every step keeps it

  lemma LaterClock(cfg: Config, q: Queue, now: Instant)
    requires Told(cfg, q) && q.clock <= now
    ensures Told(cfg, q.(clock := now))
  {
    var s := q.(clock := now);
    forall id | id in s.runs ensures OutcomesOk(cfg, s, id, s.runs[id]) && TimesOk(cfg, s, id, s.runs[id]) {
      SameRecord(cfg, q, s, id, q.runs[id]);
    }
  }

  lemma SameRecord(cfg: Config, q: Queue, s: Queue, id: RunId, r: Run)
    requires q.clock <= s.clock && forall a: nat ::
      (Recorded(q, id, a) <==> Recorded(s, id, a)) && (Recorded(s, id, a) ==> s.attempts[(id, a)] == q.attempts[(id, a)])
    requires OutcomesOk(cfg, q, id, r) && TimesOk(cfg, q, id, r)
    ensures OutcomesOk(cfg, s, id, r) && TimesOk(cfg, s, id, r)
  {
    forall a: nat | Recorded(s, id, a)
      ensures var row := s.attempts[(id, a)];
        r.requestedAt <= row.startedAt <= row.endedAt <= s.clock && Waited(cfg, s, id, a, row.startedAt)
    {
      assert Recorded(q, id, a);
      assert a > 1 ==> (Recorded(q, id, a - 1) <==> Recorded(s, id, a - 1));
    }
    if r.attempt > 1 {
      assert Recorded(q, id, r.attempt - 1) <==> Recorded(s, id, r.attempt - 1);
    }
    assert Recorded(q, id, r.attempt) <==> Recorded(s, id, r.attempt);
  }

  /** A lease or a stage is written. */
  lemma TouchTells(cfg: Config, q: Queue, id: RunId, r: Run, now: Instant)
    requires Told(cfg, q) && id in q.runs && q.clock <= now
    requires r == q.runs[id].(lease := r.lease, stage := r.stage)
    requires Inv(cfg, q.(runs := q.runs[id := r], clock := now))
    ensures Told(cfg, q.(runs := q.runs[id := r], clock := now))
  {
    var s := q.(runs := q.runs[id := r], clock := now);
    forall j | j in s.runs ensures OutcomesOk(cfg, s, j, s.runs[j]) && TimesOk(cfg, s, j, s.runs[j]) {
      SameRecord(cfg, q, s, j, q.runs[j]);
      if j == id {
        Touched(cfg, s, id, q.runs[id], r);
      }
    }
  }

  lemma Touched(cfg: Config, s: Queue, id: RunId, r: Run, t: Run)
    requires OutcomesOk(cfg, s, id, r) && TimesOk(cfg, s, id, r) && t == r.(lease := t.lease, stage := t.stage)
    ensures OutcomesOk(cfg, s, id, t) && TimesOk(cfg, s, id, t)
  {
  }

  /** A new request. */
  lemma RequestTells(cfg: Config, q: Queue, id: RunId, week: Option<int>, now: Instant)
    requires Told(cfg, q) && id !in q.runs && q.clock <= now
    ensures Told(cfg, Enqueue(q, id, week, now))
  {
    var s := Enqueue(q, id, week, now);
    EnqueueKeepsInv(cfg, q, id, week, now);
    forall j | j in s.runs ensures OutcomesOk(cfg, s, j, s.runs[j]) && TimesOk(cfg, s, j, s.runs[j]) {
      if j != id {
        SameRecord(cfg, q, s, j, q.runs[j]);
      } else {
        assert forall a: nat :: !Recorded(s, id, a);
      }
    }
  }

  /** What leaving `running` writes: the attempt with the run's own start and this end. */
  ghost predicate Leaves(cfg: Config, q: Queue, id: RunId, r: Run, row: Attempt, now: Instant) {
    && id in q.runs && q.runs[id].status == Running && q.runs[id].startedAt.Some?
    && r.status != Running && r.attempt == q.runs[id].attempt && r.requestedAt == q.runs[id].requestedAt
    && row.startedAt == q.runs[id].startedAt.value && row.endedAt == now
    && Leads(cfg, row.outcome, r.attempt, r.status)
    && (r.status == Retryable ==> r.nextAttemptAt == Some(now + Backoff(cfg, r.attempt)))
  }

  lemma LeavingTells(cfg: Config, q: Queue, id: RunId, r: Run, row: Attempt, now: Instant)
    requires Told(cfg, q) && q.clock <= now && Leaves(cfg, q, id, r, row, now)
    requires Inv(cfg, q.(runs := q.runs[id := r], attempts := q.attempts[(id, r.attempt) := row], clock := now))
    ensures Told(cfg, q.(runs := q.runs[id := r], attempts := q.attempts[(id, r.attempt) := row], clock := now))
  {
    var s := q.(runs := q.runs[id := r], attempts := q.attempts[(id, r.attempt) := row], clock := now);
    forall j | j in s.runs ensures OutcomesOk(cfg, s, j, s.runs[j]) && TimesOk(cfg, s, j, s.runs[j]) {
      if j != id {
        SameRecord(cfg, q, s, j, q.runs[j]);
      } else {
        assert !Recorded(q, id, r.attempt);
        OneMoreAttempt(cfg, q, s, id, q.runs[id], r, row, now);
      }
    }
  }

  lemma OneMoreAttempt(cfg: Config, q: Queue, s: Queue, id: RunId, p: Run, r: Run, row: Attempt, now: Instant)
    requires OutcomesOk(cfg, q, id, p) && TimesOk(cfg, q, id, p) && q.clock <= now == s.clock
    requires id in q.runs && q.runs[id] == p && Leaves(cfg, q, id, r, row, now) && !Recorded(q, id, r.attempt)
    requires s.attempts == q.attempts[(id, r.attempt) := row]
    requires forall a: nat | Recorded(q, id, a) :: a < r.attempt
    ensures OutcomesOk(cfg, s, id, r) && TimesOk(cfg, s, id, r)
  {
    forall a: nat | Recorded(s, id, a)
      ensures var t := s.attempts[(id, a)];
        r.requestedAt <= t.startedAt <= t.endedAt <= s.clock && Waited(cfg, s, id, a, t.startedAt)
    {
      if a != r.attempt {
        assert Recorded(q, id, a);
      }
    }
    forall a: nat | Recorded(s, id, a)
      ensures if a == r.attempt then Leads(cfg, s.attempts[(id, a)].outcome, a, r.status)
              else Leads(cfg, s.attempts[(id, a)].outcome, a, Retryable)
    {
      if a != r.attempt {
        assert Recorded(q, id, a);
      }
    }
  }

  /** A row is taken: the next attempt starts now, which is not too early. */
  lemma DrawTells(cfg: Config, q: Queue, id: RunId, token: Token, now: Instant)
    requires Told(cfg, q) && q.clock <= now && id in q.runs && Eligible(q.runs[id], now) && !AnyRunning(q)
    requires forall c | c in q.issued :: c.token != token
    ensures var r := Claimed(q.runs[id], cfg, token, now);
      Told(cfg, SetRun(q, id, r).(issued := q.issued + {Claim(id, token, r.attempt, r.week)}, clock := now))
  {
    DrawKeepsInv(cfg, q, id, token, now);
    var p, r := q.runs[id], Claimed(q.runs[id], cfg, token, now);
    var s := SetRun(q, id, r).(issued := q.issued + {Claim(id, token, r.attempt, r.week)}, clock := now);
    forall j | j in s.runs ensures OutcomesOk(cfg, s, j, s.runs[j]) && TimesOk(cfg, s, j, s.runs[j]) {
      SameRecord(cfg, q, s, j, q.runs[j]);
      if j == id {
        assert RowOk(cfg, p, q.clock);
        assert p.status == Retryable ==> Recorded(q, id, p.attempt);
        NextAttempt(cfg, s, id, p, r, now);
      }
    }
  }

  lemma NextAttempt(cfg: Config, s: Queue, id: RunId, p: Run, r: Run, now: Instant)
    requires OutcomesOk(cfg, s, id, p) && TimesOk(cfg, s, id, p) && s.clock == now
    requires p.status == Requested ==> p.attempt == 0
    requires p.status == Requested || (p.status == Retryable && p.nextAttemptAt.Some? && p.nextAttemptAt.value <= now)
    requires r.status == Running && r.attempt == p.attempt + 1 && r.requestedAt == p.requestedAt && r.startedAt == Some(now)
    requires forall a: nat | Recorded(s, id, a) :: a <= p.attempt
    ensures OutcomesOk(cfg, s, id, r) && TimesOk(cfg, s, id, r)
  {
    assert Waited(cfg, s, id, r.attempt, now);
  }

  lemma ClaimTells(cfg: Config, q: Queue, picked: Option<RunId>, token: Token, now: Instant)
    requires Told(cfg, q) && q.clock <= now && Picks(q, picked, now)
    requires forall c | c in q.issued :: c.token != token
    ensures Told(cfg, ClaimNext(q, cfg, picked, token, now).0)
  {
    ClaimKeepsInv(cfg, q, picked, token, now);
    if picked.None? || AnyRunning(q) {
      LaterClock(cfg, q, now);
    } else {
      var id := picked.value;
      var r := Claimed(q.runs[id], cfg, token, now);
      DrawTells(cfg, q, id, token, now);
      if WeekFrozen(q, r.week) {
        var mid := SetRun(q, id, r).(issued := q.issued + {Claim(id, token, r.attempt, r.week)}, clock := now);
        var failed := Leave(r, Failed, Some(now), None, Some(ValidateFailed));
        var row := Attempt(Orchestration, now, now, Some(ValidateFailed), FailedOutcome);
        FrozenIsALeave(cfg, q, picked, token, now, mid, failed, row);
        LeavingTells(cfg, mid, id, failed, row, now);
      }
    }
  }

  lemma FrozenIsALeave(cfg: Config, q: Queue, picked: Option<RunId>, token: Token, now: Instant, mid: Queue, failed: Run, row: Attempt)
    requires Inv(cfg, q) && Picks(q, picked, now) && picked.Some? && !AnyRunning(q)
    requires WeekFrozen(q, Claimed(q.runs[picked.value], cfg, token, now).week)
    requires var r := Claimed(q.runs[picked.value], cfg, token, now);
      && mid == SetRun(q, picked.value, r).(issued := q.issued + {Claim(picked.value, token, r.attempt, r.week)}, clock := now)
      && failed == Leave(r, Failed, Some(now), None, Some(ValidateFailed))
    requires row == Attempt(Orchestration, now, now, Some(ValidateFailed), FailedOutcome)
    ensures ClaimNext(q, cfg, picked, token, now).0 ==
      mid.(runs := mid.runs[picked.value := failed], attempts := mid.attempts[(picked.value, failed.attempt) := row], clock := now)
  {
    assert (picked.value, failed.attempt) !in q.attempts;
  }

  lemma OwnerLeaves(cfg: Config, q: Queue, e: Event)
    requires Told(cfg, q) && Enabled(q, e) && (e.Succeed? || e.Fail? || e.Release?)
    ensures Told(cfg, Step(q, cfg, e))
  {
    if !Owns(q, e.c) {
      LaterClock(cfg, q, e.now);
      return;
    }
    StepKeepsInv(cfg, q, e);
    var r, row := OwnerWrites(cfg, q, e);
    LeavingTells(cfg, q, e.c.run, r, row, e.now);
  }

  lemma OwnerWrites(cfg: Config, q: Queue, e: Event) returns (r: Run, row: Attempt)
    requires Inv(cfg, q) && Enabled(q, e) && (e.Succeed? || e.Fail? || e.Release?) && Owns(q, e.c)
    ensures Leaves(cfg, q, e.c.run, r, row, e.now)
    ensures Step(q, cfg, e) ==
      q.(runs := q.runs[e.c.run := r], attempts := q.attempts[(e.c.run, r.attempt) := row], clock := e.now)
  {
    OwnedClaim(cfg, q, e.c);
    assert RowOk(cfg, q.runs[e.c.run], q.clock);
    var s := Step(q, cfg, e);
    r, row := s.runs[e.c.run], s.attempts[(e.c.run, e.c.attempt)];
  }

  lemma SweepTells(cfg: Config, q: Queue, rows: seq<RunId>, now: Instant)
    requires Told(cfg, q) && q.clock <= now && Lists(q, rows, now)
    ensures Told(cfg, Recover(q, cfg, rows, now).(clock := now))
  {
    SweepIsShort(cfg, q, rows, now);
    if rows == [] {
      LaterClock(cfg, q, now);
    } else {
      assert rows[0] in rows;
      RecoverTells(cfg, q, rows[0], now);
    }
  }

  lemma RecoverTells(cfg: Config, q: Queue, id: RunId, now: Instant)
    requires Told(cfg, q) && q.clock <= now && id in q.runs && q.runs[id].status == Running
    ensures Told(cfg, RecoverOne(q, cfg, id, now).(clock := now))
  {
    RecoverOneKeepsInv(cfg, q, id, now);
    assert RowOk(cfg, q.runs[id], q.clock);
    var s := RecoverOne(q, cfg, id, now);
    LeavingTells(cfg, q, id, s.runs[id], s.attempts[(id, q.runs[id].attempt)], now);
  }

  lemma StepTells(cfg: Config, q: Queue, e: Event)
    requires Told(cfg, q) && Enabled(q, e)
    ensures Told(cfg, Step(q, cfg, e))
  {
    match e
    case EnqueueRun(id, week, now) => RequestTells(cfg, q, id, week, now);
    case Tick(picked, token, now) => ClaimTells(cfg, q, picked, token, now);
    case Sweep(rows, now) => SweepTells(cfg, q, rows, now);
    case ResetLedger(now) => ResetTells(cfg, q, now);
    case Beat(c, now) => OwnerTouches(cfg, q, e);
    case Advance(c, stage, now) => OwnerTouches(cfg, q, e);
    case _ => OwnerLeaves(cfg, q, e);
  }

  lemma OwnerTouches(cfg: Config, q: Queue, e: Event)
    requires Told(cfg, q) && Enabled(q, e) && (e.Beat? || e.Advance?)
    ensures Told(cfg, Step(q, cfg, e))
  {
    if Owns(q, e.c) {
      StepKeepsInv(cfg, q, e);
      TouchTells(cfg, q, e.c.run, Step(q, cfg, e).runs[e.c.run], e.now);
    } else {
      LaterClock(cfg, q, e.now);
    }
  }

  lemma ResetTells(cfg: Config, q: Queue, now: Instant)
    requires Told(cfg, q) && q.clock <= now
    ensures Told(cfg, q.(lastReset := Some(now), clock := now))
  {
    LaterClock(cfg, q, now);
    var s := q.(lastReset := Some(now), clock := now);
    forall id | id in s.runs ensures OutcomesOk(cfg, s, id, s.runs[id]) && TimesOk(cfg, s, id, s.runs[id]) {
      SameRecord(cfg, q, s, id, q.runs[id]);
    }
  }

  lemma {:induction false} ReachableTold(cfg: Config, history: seq<Event>)
    requires After(cfg, history).Some?
    ensures Told(cfg, After(cfg, history).value)
    decreases |history|
  {
    if history != [] {
      var before := history[..|history| - 1];
      ReachableTold(cfg, before);
      StepTells(cfg, After(cfg, before).value, history[|history| - 1]);
    }
  }

  // ---------------------------------------------------------------- how a run stands

  /** How a status and the outcome of the latest attempt, if any, go together. */
  predicate Tells(cfg: Config, r: Run, ended: Option<RetryOutcome>) {
    && (r.status == Succeeded <==> ended == Some(SucceededOutcome))
    && (r.status == Failed <==>
          ended == Some(FailedOutcome) || ended == Some(Exhausted) || (ended == Some(LeaseLost) && cfg.maxAttempts <= r.attempt))
    && (r.status == Retryable <==> ended == Some(Retried) || (ended == Some(LeaseLost) && r.attempt < cfg.maxAttempts))
  }

  ghost function Latest(q: Queue, id: RunId): Option<RetryOutcome>
    requires id in q.runs
  {
    var key := (id, q.runs[id].attempt);
    if key in q.attempts then Some(q.attempts[key].outcome) else None
  }

  lemma LeadingTells(cfg: Config, r: Run, ended: Option<RetryOutcome>)
    requires ended.Some? ==> Leads(cfg, ended.value, r.attempt, r.status)
    requires ended.None? ==> r.status == Running || r.status == Requested
    ensures Tells(cfg, r, ended)
  {
  }

  lemma LatestTells(cfg: Config, q: Queue, id: RunId)
    requires Told(cfg, q) && id in q.runs
    ensures Tells(cfg, q.runs[id], Latest(q, id))
  {
    var r := q.runs[id];
    assert RowOk(cfg, r, q.clock) && OutcomesOk(cfg, q, id, r);
    assert Recorded(q, id, r.attempt) <==> r.status != Running && r.attempt >= 1;
    LeadingTells(cfg, r, Latest(q, id));
  }

  /** The attempt was to be retried. */
  ghost predicate WasRetried(cfg: Config, q: Queue, id: RunId, a: nat) {
    && Recorded(q, id, a) && a < cfg.maxAttempts
    && (q.attempts[(id, a)].outcome == Retried || q.attempts[(id, a)].outcome == LeaseLost)
  }

  lemma EarlierWasRetried(cfg: Config, q: Queue, id: RunId, a: nat)
    requires Told(cfg, q) && id in q.runs && 1 <= a < q.runs[id].attempt
    ensures WasRetried(cfg, q, id, a)
  {
    assert Recorded(q, id, a) && OutcomesOk(cfg, q, id, q.runs[id]);
  }

  /** In every reachable state the status of a run is what its latest attempt came to: succeeded exactly when that
      attempt is recorded as a success, failed exactly when as a failure, as exhausted, or as a lease lost at the
      limit, to be retried exactly when as retried or as a lease lost below it. Earlier attempts were all retried. */
  lemma StatusIsTheLastOutcome(cfg: Config, history: seq<Event>, q: Queue, id: RunId)
    requires After(cfg, history) == Some(q) && id in q.runs
    ensures Tells(cfg, q.runs[id], Latest(q, id))
    ensures forall a: nat | 1 <= a < q.runs[id].attempt :: WasRetried(cfg, q, id, a)
  {
    ReachableTold(cfg, history);
    LatestTells(cfg, q, id);
    forall a: nat | 1 <= a < q.runs[id].attempt ensures WasRetried(cfg, q, id, a) {
      EarlierWasRetried(cfg, q, id, a);
    }
  }

  /** Once the owner has reported a success, the run is succeeded and finished at that instant in every later state. */
  lemma {:induction false} SuccessIsFinal(cfg: Config, history: seq<Event>, n: nat, s: Queue, c: Claim)
    requires After(cfg, history).Some? && n < |history| && After(cfg, history[..n]) == Some(s)
    requires history[n].Succeed? && history[n].c == c && Owns(s, c)
    ensures var q := After(cfg, history).value;
      c.run in q.runs && q.runs[c.run].status == Succeeded && q.runs[c.run].finishedAt == Some(history[n].now)
    decreases |history|
  {
    var before, last := history[..|history| - 1], history[|history| - 1];
    if n == |history| - 1 {
      assert history[..n] == before;
    } else {
      assert before[..n] == history[..n] && before[n] == history[n];
      SuccessIsFinal(cfg, before, n, s, c);
      ReachableInv(cfg, before);
      Progress.EveryMoveDescends(cfg, After(cfg, before).value, last, c.run);
    }
  }

  /** Likewise a failure reported by the owner, with its error. */
  lemma {:induction false} FailureIsFinal(cfg: Config, history: seq<Event>, n: nat, s: Queue, c: Claim)
    requires After(cfg, history).Some? && n < |history| && After(cfg, history[..n]) == Some(s)
    requires history[n].Fail? && history[n].c == c && Owns(s, c)
    ensures var q := After(cfg, history).value;
      && c.run in q.runs && q.runs[c.run].status == Failed
      && q.runs[c.run].finishedAt == Some(history[n].now) && q.runs[c.run].error == Some(history[n].error)
    decreases |history|
  {
    var before, last := history[..|history| - 1], history[|history| - 1];
    if n == |history| - 1 {
      assert history[..n] == before;
    } else {
      assert before[..n] == history[..n] && before[n] == history[n];
      FailureIsFinal(cfg, before, n, s, c);
      ReachableInv(cfg, before);
      Progress.EveryMoveDescends(cfg, After(cfg, before).value, last, c.run);
    }
  }

  /** The attempt's place in the run: after the request, ended by now, the next one no earlier than its delay after
      it, and the run due exactly that delay after it while it is the last. */
  ghost predicate InTurn(cfg: Config, q: Queue, id: RunId, a: nat)
    requires id in q.runs && (id, a) in q.attempts
  {
    var r, row := q.runs[id], q.attempts[(id, a)];
    && r.requestedAt <= row.startedAt <= row.endedAt <= q.clock
    && ((id, a + 1) in q.attempts ==> row.endedAt + Backoff(cfg, a) <= q.attempts[(id, a + 1)].startedAt)
    && (r.status == Running && r.attempt == a + 1 ==> r.startedAt.Some? && row.endedAt + Backoff(cfg, a) <= r.startedAt.value)
    && (r.status == Retryable && r.attempt == a ==> r.nextAttemptAt == Some(row.endedAt + Backoff(cfg, a)))
  }

  lemma TimesAreInTurn(cfg: Config, q: Queue, id: RunId, a: nat)
    requires id in q.runs && (id, a) in q.attempts && TimesOk(cfg, q, id, q.runs[id])
    requires a >= 1 && (q.runs[id].status == Running ==> q.runs[id].startedAt.Some?)
    ensures InTurn(cfg, q, id, a)
  {
    assert Recorded(q, id, a);
    if (id, a + 1) in q.attempts {
      assert Recorded(q, id, a + 1);
      assert Waited(cfg, q, id, a + 1, q.attempts[(id, a + 1)].startedAt);
    }
  }

  /** The attempts of a run follow one another: each starts after the request and ends later, and none starts before
      the delay after the one before it is over. A run to be retried is due exactly that delay after its last
      attempt ended. */
  lemma AttemptsTakeTurns(cfg: Config, history: seq<Event>, q: Queue, id: RunId, a: nat)
    requires After(cfg, history) == Some(q) && id in q.runs && (id, a) in q.attempts
    ensures InTurn(cfg, q, id, a)
  {
    ReachableTold(cfg, history);
    RunningHasStarted(cfg, q, id, a);
    TimesAreInTurn(cfg, q, id, a);
  }

  lemma RunningHasStarted(cfg: Config, q: Queue, id: RunId, a: nat)
    requires Inv(cfg, q) && id in q.runs && (id, a) in q.attempts
    ensures a >= 1 && (q.runs[id].status == Running ==> q.runs[id].startedAt.Some?)
  {
    assert RowOk(cfg, q.runs[id], q.clock);
  }

  /** What was asked for stays on the row: in every state after a request the run has its week and its instant. */
  lemma {:induction false} RequestStays(cfg: Config, history: seq<Event>, n: nat)
    requires After(cfg, history).Some? && n < |history| && history[n].EnqueueRun?
    ensures var q := After(cfg, history).value; var e := history[n];
      e.id in q.runs && q.runs[e.id].week == e.week && q.runs[e.id].requestedAt == e.now
    decreases |history|
  {
    var before, last := history[..|history| - 1], history[|history| - 1];
    if n < |history| - 1 {
      assert before[n] == history[n];
      RequestStays(cfg, before, n);
      ReachableInv(cfg, before);
      StepMovesRows(cfg, After(cfg, before).value, last, history[n].id);
    }
  }

  /** What a sweep writes to a run whose lease has run out: back with the backoff of its attempt, or failed at the
      limit, and an attempt row that ends now at the stage it had reached. */
  lemma SweepWrites(cfg: Config, q: Queue, rows: seq<RunId>, now: Instant, id: RunId)
    requires Inv(cfg, q) && Lists(q, rows, now) && id in q.runs && q.runs[id].status == Running
    ensures var r := q.runs[id]; var s := Recover(q, cfg, rows, now);
      if r.lease.Some? && r.lease.value < now then
        && s.runs == q.runs[id := if r.attempt < cfg.maxAttempts
             then r.(status := Retryable, finishedAt := None, nextAttemptAt := Some(now + Backoff(cfg, r.attempt)),
                     token := None, lease := None, error := Some(StaleAbandoned))
             else r.(status := Failed, finishedAt := Some(now), nextAttemptAt := None,
                     token := None, lease := None, error := Some(MaxAttemptsExceeded))]
        && s.attempts == q.attempts[(id, r.attempt) :=
             Attempt(r.stage.GetOr(Orchestration), r.startedAt.GetOr(now), now, Some(StaleAbandoned), LeaseLost)]
      else s == q
  {
    SweepIsShort(cfg, q, rows, now);
    assert id in rows <==> Stale(q.runs[id], now);
    if rows != [] {
      assert rows[0] in rows;
      assert rows[0] == id;
      assert (id, q.runs[id].attempt) !in q.attempts;
    }
  }

  // ---------------------------------------------------------------- leases

  function LeaseTime(cfg: Config): nat {
    cfg.leaseSeconds * SECOND
  }

  /** The event gives the claim a lease: it is drawn, or its owner renews it. */
  ghost predicate Grants(cfg: Config, s: Queue, e: Event, c: Claim)
    requires Enabled(s, e)
  {
    || (e.Tick? && ClaimNext(s, cfg, e.picked, e.token, e.now).1 == Some(c))
    || (e.Beat? && e.c == c && Owns(s, c))
  }

  /** The worker itself gives the claim up. */
  predicate GivesUp(e: Event, c: Claim) {
    (e.Succeed? || e.Fail? || e.Release?) && e.c == c
  }

  ghost predicate Leased(q: Queue, c: Claim, until: Instant) {
    c in q.issued && Owns(q, c) && q.runs[c.run].lease == Some(until)
  }

  lemma GrantLeases(cfg: Config, s: Queue, e: Event, c: Claim)
    requires Inv(cfg, s) && Enabled(s, e) && Grants(cfg, s, e, c)
    ensures Leased(Step(s, cfg, e), c, e.now + LeaseTime(cfg))
  {
  }

  /** An event of another claim leaves the owner's row alone. */
  lemma OthersLeaveTheRow(cfg: Config, q: Queue, e: Event, c: Claim, until: Instant)
    requires Inv(cfg, q) && Enabled(q, e) && Leased(q, c, until)
    requires (e.Beat? || e.Advance? || e.Succeed? || e.Fail? || e.Release?) && e.c != c
    ensures Leased(Step(q, cfg, e), c, until)
  {
    OneOwner(cfg, q, c, e.c);
  }

  lemma OneOwner(cfg: Config, q: Queue, c: Claim, d: Claim)
    requires Inv(cfg, q) && c in q.issued && d in q.issued
    ensures Owns(q, c) && Owns(q, d) ==> c == d
  {
  }

  lemma SweepAndLease(cfg: Config, q: Queue, rows: seq<RunId>, now: Instant, c: Claim, until: Instant)
    requires Inv(cfg, q) && Enabled(q, Sweep(rows, now)) && Leased(q, c, until)
    ensures now <= until ==> Leased(Step(q, cfg, Sweep(rows, now)), c, until)
    ensures until < now ==> !Owns(Step(q, cfg, Sweep(rows, now)), c)
  {
    SweepIsShort(cfg, q, rows, now);
    if rows != [] {
      assert rows[0] in rows;
    }
    if until < now {
      assert c.run in rows;
    }
  }

  lemma StepKeepsLease(cfg: Config, q: Queue, e: Event, c: Claim, until: Instant)
    requires Inv(cfg, q) && Enabled(q, e) && Leased(q, c, until) && !GivesUp(e, c)
    requires e.Sweep? ==> e.now <= until
    ensures if e.Beat? && e.c == c then Leased(Step(q, cfg, e), c, e.now + LeaseTime(cfg)) else Leased(Step(q, cfg, e), c, until)
  {
    match e
    case EnqueueRun(_, _, _) =>
    case Tick(_, _, _) => assert AnyRunning(q);
    case Sweep(rows, now) => SweepAndLease(cfg, q, rows, now, c, until);
    case ResetLedger(_) =>
    case _ =>
      if e.c != c {
        OthersLeaveTheRow(cfg, q, e, c, until);
      }
  }

  /** A claim that was drawn or renewed at `now` is still its row's owner in every later state up to the end of that
      lease, whatever anybody else does, unless its own worker has given it up. */
  lemma {:induction false} LeaseProtects(cfg: Config, history: seq<Event>, n: nat, s: Queue, c: Claim) returns (until: Instant)
    requires After(cfg, history).Some? && GrantedAt(cfg, history, n, s, c)
    requires forall i :: n < i < |history| ==> history[i].now <= history[n].now + LeaseTime(cfg) && !GivesUp(history[i], c)
    ensures Owns(After(cfg, history).value, c)
    ensures Leased(After(cfg, history).value, c, until) && history[n].now + LeaseTime(cfg) <= until
    decreases |history|
  {
    if n == |history| - 1 {
      GrantedLast(cfg, history, n, s, c);
      until := history[n].now + LeaseTime(cfg);
    } else {
      var before, last := history[..|history| - 1], history[|history| - 1];
      ReachableInv(cfg, before);
      GrantedEarlier(cfg, history, n, s, c);
      until := LeaseProtects(cfg, before, n, s, c);
      StepKeepsLease(cfg, After(cfg, before).value, last, c, until);
      ClockSince(cfg, before, n);
      until := if last.Beat? && last.c == c then last.now + LeaseTime(cfg) else until;
    }
  }

  /** The clock of a later state is not behind an event of its history. */
  lemma {:induction false} ClockSince(cfg: Config, history: seq<Event>, n: nat)
    requires After(cfg, history).Some? && n < |history|
    ensures history[n].now <= After(cfg, history).value.clock
    decreases |history|
  {
    var before, last := history[..|history| - 1], history[|history| - 1];
    ReachableInv(cfg, before);
    ClockIsLast(cfg, After(cfg, before).value, last);
    if n < |history| - 1 {
      assert before[n] == history[n];
      ClockSince(cfg, before, n);
    }
  }

  lemma ClockIsLast(cfg: Config, q: Queue, e: Event)
    requires Inv(cfg, q) && Enabled(q, e)
    ensures q.clock <= Step(q, cfg, e).clock == e.now
  {
    if e.Sweep? {
      SweepIsShort(cfg, q, e.stale, e.now);
    }
  }

  /** Step `n` granted the claim a lease in state `s`. */
  ghost predicate GrantedAt(cfg: Config, history: seq<Event>, n: nat, s: Queue, c: Claim) {
    n < |history| && After(cfg, history[..n]) == Some(s) && Enabled(s, history[n]) && Grants(cfg, s, history[n], c)
  }

  lemma GrantedEarlier(cfg: Config, history: seq<Event>, n: nat, s: Queue, c: Claim)
    requires GrantedAt(cfg, history, n, s, c) && n < |history| - 1
    ensures GrantedAt(cfg, history[..|history| - 1], n, s, c) && history[..|history| - 1][n] == history[n]
  {
    assert history[..|history| - 1][..n] == history[..n];
  }

  lemma GrantedLast(cfg: Config, history: seq<Event>, n: nat, s: Queue, c: Claim)
    requires After(cfg, history).Some? && GrantedAt(cfg, history, n, s, c) && n == |history| - 1
    ensures Leased(After(cfg, history).value, c, history[n].now + LeaseTime(cfg))
  {
    ReachableInv(cfg, history[..n]);
    GrantLeases(cfg, s, history[n], c);
  }

  predicate RenewedAfter(history: seq<Event>, n: nat, c: Claim) {
    exists i :: n < i < |history| && history[i].Beat? && history[i].c == c
  }

  /** Without a renewal the lease is the granted one for as long as the claim owns its row. */
  lemma {:induction false} LeaseIsTheGranted(cfg: Config, history: seq<Event>, n: nat, s: Queue, c: Claim)
    requires After(cfg, history).Some? && GrantedAt(cfg, history, n, s, c) && !RenewedAfter(history, n, c)
    ensures var q := After(cfg, history).value; c in q.issued && (Owns(q, c) ==> Leased(q, c, history[n].now + LeaseTime(cfg)))
    decreases |history|
  {
    if n == |history| - 1 {
      GrantedLast(cfg, history, n, s, c);
    } else {
      var before, last := history[..|history| - 1], history[|history| - 1];
      ReachableInv(cfg, before);
      GrantedEarlier(cfg, history, n, s, c);
      NotRenewedEarlier(history, n, c);
      LeaseIsTheGranted(cfg, before, n, s, c);
      var q := After(cfg, before).value;
      assert After(cfg, history).value == Step(q, cfg, last);
      LeaseOrLoss(cfg, q, last, c, history[n].now + LeaseTime(cfg));
    }
  }

  lemma NotRenewedEarlier(history: seq<Event>, n: nat, c: Claim)
    requires n < |history| - 1 && !RenewedAfter(history, n, c)
    ensures !RenewedAfter(history[..|history| - 1], n, c)
    ensures !(history[|history| - 1].Beat? && history[|history| - 1].c == c)
  {
  }

  lemma LeaseOrLoss(cfg: Config, q: Queue, e: Event, c: Claim, until: Instant)
    requires Inv(cfg, q) && Enabled(q, e) && c in q.issued && (Owns(q, c) ==> Leased(q, c, until))
    requires !(e.Beat? && e.c == c)
    ensures c in Step(q, cfg, e).issued && (Owns(Step(q, cfg, e), c) ==> Leased(Step(q, cfg, e), c, until))
  {
    if !Owns(q, c) {
      Progress.DeadClaimStaysDead(cfg, q, e, c);
    } else if e.Sweep? && until < e.now {
      Progress.IssuedGrows(cfg, q, e);
      SweepAndLease(cfg, q, e.stale, e.now, c, until);
    } else if GivesUp(e, c) {
      Progress.IssuedGrows(cfg, q, e);
      assert !Owns(Step(q, cfg, e), c);
    } else {
      StepKeepsLease(cfg, q, e, c, until);
    }
  }

  /** A sweep after the end of the lease takes the row away from a claim that was not renewed. */
  lemma ExpiredLeaseIsSwept(cfg: Config, history: seq<Event>, n: nat, s: Queue, c: Claim, stale: seq<RunId>, now: Instant)
    requires After(cfg, history).Some? && GrantedAt(cfg, history, n, s, c) && !RenewedAfter(history, n, c)
    requires Enabled(After(cfg, history).value, Sweep(stale, now)) && history[n].now + LeaseTime(cfg) < now
    ensures !Owns(Step(After(cfg, history).value, cfg, Sweep(stale, now)), c)
  {
    ReachableInv(cfg, history);
    LeaseIsTheGranted(cfg, history, n, s, c);
    var q := After(cfg, history).value;
    if Owns(q, c) {
      SweepAndLease(cfg, q, stale, now, c, history[n].now + LeaseTime(cfg));
    } else {
      Progress.DeadClaimStaysDead(cfg, q, Sweep(stale, now), c);
    }
  }

  // ---------------------------------------------------------------- taking runs

  /** The run waits for a worker, and the delay after its last attempt is over. */
  ghost predicate Due(cfg: Config, q: Queue, id: RunId, now: Instant) {
    && id in q.runs
    && (|| q.runs[id].status == Requested
        || (&& q.runs[id].status == Retryable && Recorded(q, id, q.runs[id].attempt)
            && q.attempts[(id, q.runs[id].attempt)].endedAt + Backoff(cfg, q.runs[id].attempt) <= now))
  }

  /** Some instant of the week lies before the last ledger reset. */
  ghost predicate ResetWithin(q: Queue, week: Option<int>) {
    week.Some? && q.lastReset.Some? && exists t: Instant :: WeekOf(HourOf(t)) == week.value && t < q.lastReset.value
  }

  lemma FrozenMeansReset(q: Queue, week: Option<int>)
    ensures WeekFrozen(q, week) <==> ResetWithin(q, week)
  {
    if WeekFrozen(q, week) {
      var t := WeekStart(week.value) * HOUR;
      assert HourOf(t) == WeekStart(week.value) && WeekOf(HourOf(t)) == week.value;
    }
    if ResetWithin(q, week) {
      var t :| WeekOf(HourOf(t)) == week.value && t < q.lastReset.value;
      WeekBounds(HourOf(t), week.value);
    }
  }

  lemma EligibleIsDue(cfg: Config, q: Queue, id: RunId, now: Instant)
    requires Told(cfg, q) && id in q.runs
    ensures Eligible(q.runs[id], now) <==> Due(cfg, q, id, now)
  {
    var r := q.runs[id];
    assert RowOk(cfg, r, q.clock) && TimesOk(cfg, q, id, r);
    if r.status == Retryable {
      assert Recorded(q, id, r.attempt);
    }
  }

  /** No run is due, or one is under way. */
  ghost predicate NothingToTake(cfg: Config, q: Queue, now: Instant) {
    (exists id :: id in q.runs && q.runs[id].status == Running) || (forall id | id in q.runs :: !Due(cfg, q, id, now))
  }

  /** The run is due, and none that is due was requested earlier. */
  ghost predicate OldestDue(cfg: Config, q: Queue, id: RunId, now: Instant) {
    Due(cfg, q, id, now) && forall j | j in q.runs && Due(cfg, q, j, now) :: q.runs[id].requestedAt <= q.runs[j].requestedAt
  }

  /** The run's next attempt runs from now on under the new token with a full lease, or has failed at once because its
      week was reset. */
  ghost predicate TakenBy(cfg: Config, q: Queue, id: RunId, token: Token, now: Instant, s: Queue, c: Option<Claim>)
    requires id in q.runs
  {
    && s.runs.Keys == q.runs.Keys && s.runs[id].attempt == q.runs[id].attempt + 1
    && if ResetWithin(q, q.runs[id].week)
       then c.None? && s.runs[id].status == Failed && s.runs[id].error == Some(ValidateFailed) && s.runs[id].finishedAt == Some(now)
       else
         && c == Some(Claim(id, token, q.runs[id].attempt + 1, q.runs[id].week))
         && Leased(s, c.value, now + LeaseTime(cfg)) && s.runs[id].startedAt == Some(now)
  }

  lemma TakesTheRow(cfg: Config, q: Queue, id: RunId, token: Token, now: Instant)
    requires id in q.runs && !AnyRunning(q)
    ensures TakenBy(cfg, q, id, token, now, ClaimNext(q, cfg, Some(id), token, now).0, ClaimNext(q, cfg, Some(id), token, now).1)
  {
    FrozenMeansReset(q, q.runs[id].week);
  }

  /** What a claim transaction does in any reachable state: nothing while there is nothing to take, and otherwise it
      takes a due run that was requested no later than any other. */
  lemma ClaimOutcome(cfg: Config, history: seq<Event>, q: Queue, picked: Option<RunId>, token: Token, now: Instant)
    requires After(cfg, history) == Some(q) && Enabled(q, Tick(picked, token, now))
    ensures var (s, c) := ClaimNext(q, cfg, picked, token, now);
      if NothingToTake(cfg, q, now) then s == q.(clock := now) && c.None?
      else picked.Some? && OldestDue(cfg, q, picked.value, now) && TakenBy(cfg, q, picked.value, token, now, s, c)
  {
    ReachableTold(cfg, history);
    PicksTheOldestDue(cfg, q, picked, now);
    if !NothingToTake(cfg, q, now) {
      TakesTheRow(cfg, q, picked.value, token, now);
    }
  }

  lemma PicksTheOldestDue(cfg: Config, q: Queue, picked: Option<RunId>, now: Instant)
    requires Told(cfg, q) && Picks(q, picked, now)
    ensures match picked
      case None => forall id | id in q.runs :: !Due(cfg, q, id, now)
      case Some(id) => OldestDue(cfg, q, id, now)
  {
    forall id | id in q.runs ensures Eligible(q.runs[id], now) <==> Due(cfg, q, id, now) {
      EligibleIsDue(cfg, q, id, now);
    }
  }
}
