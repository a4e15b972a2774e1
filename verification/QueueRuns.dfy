/** Whole runs of the queue: any interleaving of workers, sweeps and resets under one clock. */
module QueueRuns {
  import opened Wrappers
  import opened Instants
  import opened ReportingQueue

  datatype Event =
    | EnqueueRun(id: RunId, week: Option<int>, now: Instant)
    | Tick(picked: Option<RunId>, token: Token, now: Instant)
    | Beat(c: Claim, now: Instant)
    | Advance(c: Claim, stage: Stage, now: Instant)
    | Succeed(c: Claim, now: Instant)
    | Fail(c: Claim, error: ErrorCode, at: Option<Stage>, now: Instant)
    | Release(c: Claim, error: ErrorCode, at: Option<Stage>, now: Instant)
    | Sweep(stale: seq<RunId>, now: Instant)
    | ResetLedger(now: Instant)

  /** `claim_next` takes an oldest eligible row, and takes none only when there is none. */
  ghost predicate Picks(q: Queue, picked: Option<RunId>, now: Instant) {
    match picked
    case None => forall id | id in q.runs :: !Eligible(q.runs[id], now)
    case Some(id) =>
      && id in q.runs && Eligible(q.runs[id], now)
      && forall j | j in q.runs && Eligible(q.runs[j], now) :: q.runs[id].requestedAt <= q.runs[j].requestedAt
  }

  ghost predicate Lists(q: Queue, rows: seq<RunId>, now: Instant) {
    && (forall i, j :: 0 <= i < j < |rows| ==> rows[i] != rows[j])
    && (forall id :: id in rows <==> id in q.runs && Stale(q.runs[id], now))
  }

  /** What the environment grants: a clock that does not go back, fresh identifiers, and workers that use
      only claims they were given (alive or dead). */
  ghost predicate Enabled(q: Queue, e: Event) {
    && q.clock <= e.now
    && match e
       case EnqueueRun(id, _, _) => id !in q.runs
       case Tick(picked, token, now) => Picks(q, picked, now) && forall c | c in q.issued :: c.token != token
       case Sweep(rows, now) => Lists(q, rows, now)
       case ResetLedger(_) => true
       case _ => e.c in q.issued
  }

  ghost function Step(q: Queue, cfg: Config, e: Event): Queue
    requires Enabled(q, e)
  {
    match e
    case EnqueueRun(id, week, now) => Enqueue(q, id, week, now)
    case Tick(picked, token, now) => ClaimNext(q, cfg, picked, token, now).0
    case Beat(c, now) => Heartbeat(q, cfg, c, now).0
    case Advance(c, stage, now) => RecordStage(q, c, stage, now).0
    case Succeed(c, now) => FinalizeSuccess(q, c, now).0
    case Fail(c, error, at, now) => FinalizeFailure(q, c, error, at, now).0
    case Release(c, error, at, now) => ReleaseRetryable(q, cfg, c, error, at, now).0
    case Sweep(rows, now) => Recover(q, cfg, rows, now).(clock := now)
    case ResetLedger(now) => q.(lastReset := Some(now), clock := now)
  }

  /** The queue after a history of events, when each of them could happen. */
  ghost function After(cfg: Config, history: seq<Event>): Option<Queue> {
    if history == [] then Some(EMPTY)
    else
      match After(cfg, history[..|history| - 1])
      case None => None
      case Some(q) =>
        if Enabled(q, history[|history| - 1]) then Some(Step(q, cfg, history[|history| - 1])) else None
  }

  // ---------------------------------------------------------------- the invariant

  /** Attempts that have ended, and so have a row in the history. */
  function Ended(r: Run): int {
    if r.status == Running then r.attempt - 1 else r.attempt
  }

  ghost predicate RowOk(cfg: Config, r: Run, clock: Instant) {
    && (r.status == Running <==> r.token.Some?)
    && (r.status == Running <==> r.lease.Some?)
    && (r.status == Retryable <==> r.nextAttemptAt.Some?)
    && (Terminal(r) <==> r.finishedAt.Some?)
    && (r.status == Requested <==> r.attempt == 0)
    && (r.attempt > 0 ==> r.startedAt.Some? && r.startedAt.value <= clock)
    && (r.status == Retryable ==> r.attempt < cfg.maxAttempts)
    && (r.attempt <= Max(1, cfg.maxAttempts))
  }

  ghost predicate HistoryExact(q: Queue) {
    forall id, a :: (id, a) in q.attempts <==> id in q.runs && 1 <= a <= Ended(q.runs[id])
  }

  ghost predicate OneRunning(q: Queue) {
    forall i, j | i in q.runs && j in q.runs && q.runs[i].status == Running && q.runs[j].status == Running :: i == j
  }

  /** The token on a row is the one drawn for its current attempt, and no two claims share a token. */
  ghost predicate ClaimsOk(q: Queue) {
    && (forall c, d | c in q.issued && d in q.issued && c.token == d.token :: c == d)
    && (forall id | id in q.runs && q.runs[id].token.Some? ::
          Claim(id, q.runs[id].token.value, q.runs[id].attempt, q.runs[id].week) in q.issued)
  }

  ghost predicate Inv(cfg: Config, q: Queue) {
    && (forall id | id in q.runs :: RowOk(cfg, q.runs[id], q.clock))
    && HistoryExact(q) && OneRunning(q) && ClaimsOk(q)
  }

  /** A claim that owns its row carries that row's attempt number. */
  lemma OwnedClaim(cfg: Config, q: Queue, c: Claim)
    requires Inv(cfg, q) && c in q.issued && Owns(q, c)
    ensures c.attempt == q.runs[c.run].attempt && c.week == q.runs[c.run].week && q.runs[c.run].attempt >= 1
    ensures (c.run, c.attempt) !in q.attempts
  {
  }

  /** Moving the running row `id` out of `running`, with its attempt written down, keeps the invariant. */
  lemma LeavingKeepsInv(cfg: Config, q: Queue, id: RunId, r: Run, row: Attempt, now: Instant)
    requires Inv(cfg, q) && id in q.runs && q.runs[id].status == Running && q.clock <= now
    requires r.status != Running && r.attempt == q.runs[id].attempt && r.token.None? && RowOk(cfg, r, now)
    requires r.startedAt == q.runs[id].startedAt
    ensures Inv(cfg, q.(runs := q.runs[id := r], attempts := q.attempts[(id, r.attempt) := row], clock := now))
  {
  }

  /** A row that stays as it is in all that the invariant speaks of, the lease's date excepted. */
  lemma TouchingKeepsInv(cfg: Config, q: Queue, id: RunId, r: Run, now: Instant)
    requires Inv(cfg, q) && id in q.runs && q.clock <= now
    requires r == q.runs[id].(lease := r.lease, stage := r.stage) && (r.lease.Some? <==> q.runs[id].lease.Some?)
    ensures Inv(cfg, q.(runs := q.runs[id := r], clock := now))
  {
  }

  lemma EnqueueKeepsInv(cfg: Config, q: Queue, id: RunId, week: Option<int>, now: Instant)
    requires Inv(cfg, q) && id !in q.runs && q.clock <= now
    ensures Inv(cfg, Enqueue(q, id, week, now))
  {
  }

  lemma DrawKeepsInv(cfg: Config, q: Queue, id: RunId, token: Token, now: Instant)
    requires Inv(cfg, q) && q.clock <= now
    requires id in q.runs && Eligible(q.runs[id], now) && !AnyRunning(q)
    requires forall c | c in q.issued :: c.token != token
    ensures var r := Claimed(q.runs[id], cfg, token, now);
      Inv(cfg, q.(runs := q.runs[id := r], issued := q.issued + {Claim(id, token, r.attempt, r.week)}, clock := now))
  {
  }

  lemma ClaimKeepsInv(cfg: Config, q: Queue, picked: Option<RunId>, token: Token, now: Instant)
    requires Inv(cfg, q) && q.clock <= now && Picks(q, picked, now)
    requires forall c | c in q.issued :: c.token != token
    ensures Inv(cfg, ClaimNext(q, cfg, picked, token, now).0)
  {
    if picked.Some? && !AnyRunning(q) {
      var id := picked.value;
      DrawKeepsInv(cfg, q, id, token, now);
      var r := Claimed(q.runs[id], cfg, token, now);
      var drawn := q.(runs := q.runs[id := r], issued := q.issued + {Claim(id, token, r.attempt, r.week)}, clock := now);
      if WeekFrozen(q, r.week) {
        assert Claim(id, token, r.attempt, r.week) in drawn.issued && Owns(drawn, Claim(id, token, r.attempt, r.week));
        OwnedClaim(cfg, drawn, Claim(id, token, r.attempt, r.week));
        var failed := Leave(r, Failed, Some(now), None, Some(ValidateFailed));
        assert drawn.runs[id := failed] == q.runs[id := failed];
        LeavingKeepsInv(cfg, drawn, id, failed,
                        Attempt(Orchestration, now, now, Some(ValidateFailed), FailedOutcome), now);
      }
    }
  }

  lemma RetryRowOk(cfg: Config, r: Run, error: ErrorCode, clock: Instant, now: Instant)
    requires RowOk(cfg, r, clock) && r.status == Running && clock <= now
    ensures RowOk(cfg, Retry(r, cfg, r.attempt, error, now), now)
  {
  }

  lemma RecoverOneKeepsInv(cfg: Config, q: Queue, id: RunId, now: Instant)
    requires Inv(cfg, q) && id in q.runs && q.runs[id].status == Running && q.clock <= now
    ensures (id, q.runs[id].attempt) !in q.attempts
    ensures Inv(cfg, RecoverOne(q, cfg, id, now).(clock := now))
  {
    var r := q.runs[id];
    var c := Claim(id, r.token.value, r.attempt, r.week);
    OwnedClaim(cfg, q, c);
    RetryRowOk(cfg, r, StaleAbandoned, q.clock, now);
    LeavingKeepsInv(cfg, q, id, Retry(r, cfg, r.attempt, StaleAbandoned, now),
                    Attempt(r.stage.GetOr(Orchestration), r.startedAt.GetOr(now), now, Some(StaleAbandoned), LeaseLost), now);
  }

  /** At most one row can be stale, so the sweep's loop runs at most once. */
  lemma SweepIsShort(cfg: Config, q: Queue, rows: seq<RunId>, now: Instant)
    requires Inv(cfg, q) && Lists(q, rows, now)
    ensures |rows| <= 1
    ensures Recover(q, cfg, rows, now) == if rows == [] then q else RecoverOne(q, cfg, rows[0], now)
  {
    forall i | 0 <= i < |rows| ensures rows[i] in q.runs && q.runs[rows[i]].status == Running {
      assert rows[i] in rows;
    }
    if |rows| > 1 {
      FirstTwoDiffer(rows);
    } else if |rows| == 1 {
      assert rows[..0] == [];
      assert Recover(q, cfg, [], now) == q;
    }
  }

  lemma FirstTwoDiffer(rows: seq<RunId>)
    requires |rows| > 1 && forall i, j :: 0 <= i < j < |rows| ==> rows[i] != rows[j]
    ensures rows[0] != rows[1]
  {
  }

  lemma StepKeepsInv(cfg: Config, q: Queue, e: Event)
    requires Inv(cfg, q) && Enabled(q, e)
    ensures Inv(cfg, Step(q, cfg, e))
  {
    match e
    case EnqueueRun(id, week, now) => EnqueueKeepsInv(cfg, q, id, week, now);
    case Tick(picked, token, now) => ClaimKeepsInv(cfg, q, picked, token, now);
    case Sweep(rows, now) =>
      SweepIsShort(cfg, q, rows, now);
      if rows != [] {
        assert rows[0] in rows;
        RecoverOneKeepsInv(cfg, q, rows[0], now);
      }
    case ResetLedger(_) =>
    case _ => if Owns(q, e.c) { WorkerKeepsInv(cfg, q, e); }
  }

  lemma WorkerKeepsInv(cfg: Config, q: Queue, e: Event)
    requires Inv(cfg, q) && Enabled(q, e)
    requires e.Beat? || e.Advance? || e.Succeed? || e.Fail? || e.Release?
    requires Owns(q, e.c)
    ensures Inv(cfg, Step(q, cfg, e))
  {
    var r := q.runs[e.c.run];
    match e
    case Beat(c, now) => TouchingKeepsInv(cfg, q, c.run, r.(lease := Some(now + cfg.leaseSeconds * SECOND)), now);
    case Advance(c, stage, now) => TouchingKeepsInv(cfg, q, c.run, r.(stage := Some(stage)), now);
    case Succeed(c, now) => SuccessKeepsInv(cfg, q, c, now);
    case Fail(c, error, at, now) => FailureKeepsInv(cfg, q, c, error, at, now);
    case Release(c, error, at, now) => ReleaseKeepsInv(cfg, q, c, error, at, now);
  }

  lemma SuccessKeepsInv(cfg: Config, q: Queue, c: Claim, now: Instant)
    requires Inv(cfg, q) && c in q.issued && Owns(q, c) && q.clock <= now
    ensures Inv(cfg, FinalizeSuccess(q, c, now).0)
  {
    var r := q.runs[c.run];
    OwnedClaim(cfg, q, c);
    LeavingKeepsInv(cfg, q, c.run, Leave(r, Succeeded, Some(now), r.nextAttemptAt, None),
                    Attempt(r.stage.GetOr(Orchestration), r.startedAt.GetOr(now), now, None, SucceededOutcome), now);
  }

  lemma FailureKeepsInv(cfg: Config, q: Queue, c: Claim, error: ErrorCode, at: Option<Stage>, now: Instant)
    requires Inv(cfg, q) && c in q.issued && Owns(q, c) && q.clock <= now
    ensures Inv(cfg, FinalizeFailure(q, c, error, at, now).0)
  {
    var r := q.runs[c.run];
    OwnedClaim(cfg, q, c);
    var row := Attempt(at.GetOr(r.stage.GetOr(Orchestration)), r.startedAt.GetOr(now), now,
                       if error == MaxAttemptsExceeded then None else Some(error), FailedOutcome);
    LeavingKeepsInv(cfg, q, c.run, Leave(r, Failed, Some(now), r.nextAttemptAt, Some(error)), row, now);
  }

  lemma ReleaseKeepsInv(cfg: Config, q: Queue, c: Claim, error: ErrorCode, at: Option<Stage>, now: Instant)
    requires Inv(cfg, q) && c in q.issued && Owns(q, c) && q.clock <= now
    ensures Inv(cfg, ReleaseRetryable(q, cfg, c, error, at, now).0)
  {
    var r := q.runs[c.run];
    OwnedClaim(cfg, q, c);
    var row := Attempt(at.GetOr(r.stage.GetOr(Orchestration)), r.startedAt.GetOr(now), now,
                       if error == MaxAttemptsExceeded then None else Some(error),
                       if c.attempt >= cfg.maxAttempts then Exhausted else Retried);
    RetryRowOk(cfg, r, error, q.clock, now);
    LeavingKeepsInv(cfg, q, c.run, Retry(r, cfg, c.attempt, error, now), row, now);
  }

  /** Every reachable queue satisfies the invariant: fields tied to the status, at most one running row,
      attempts 1..n recorded exactly. */
  lemma {:induction false} ReachableInv(cfg: Config, history: seq<Event>)
    requires After(cfg, history).Some?
    ensures Inv(cfg, After(cfg, history).value)
    decreases |history|
  {
    if history != [] {
      var before := history[..|history| - 1];
      ReachableInv(cfg, before);
      StepKeepsInv(cfg, After(cfg, before).value, history[|history| - 1]);
    }
  }

  // ---------------------------------------------------------------- what a step does to one row

  predicate Renewed(r: Run, s: Run) {
    && s == r.(lease := s.lease, stage := s.stage) && (s.lease.Some? <==> r.lease.Some?)
    && (r.status != Running ==> s == r)
  }

  predicate Taken(cfg: Config, r: Run, s: Run, now: Instant) {
    && Eligible(r, now)
    && (|| (s.token.Some? && s == Claimed(r, cfg, s.token.value, now))
        || s == Leave(Claimed(r, cfg, 0, now), Failed, Some(now), None, Some(ValidateFailed)))
  }

  predicate Closed(r: Run, s: Run, now: Instant) {
    r.status == Running && Terminal(s) && s == Leave(r, s.status, Some(now), r.nextAttemptAt, s.error)
  }

  predicate PutBack(cfg: Config, r: Run, s: Run, now: Instant) {
    && r.status == Running
    && if r.attempt >= cfg.maxAttempts then s == Leave(r, Failed, Some(now), None, Some(MaxAttemptsExceeded))
       else s == Leave(r, Retryable, None, Some(now + Backoff(cfg, r.attempt)), s.error)
  }

  /** The four ways a row changes. */
  predicate RowMove(cfg: Config, r: Run, s: Run, now: Instant) {
    Renewed(r, s) || Taken(cfg, r, s, now) || Closed(r, s, now) || PutBack(cfg, r, s, now)
  }

  /** The rows and claims of `s` after a worker's step on `q`, as far as row `id` is concerned. */
  ghost predicate MovesOnly(cfg: Config, q: Queue, s: Queue, id: RunId, now: Instant) {
    && id in q.runs && s.runs.Keys == q.runs.Keys && s.issued == q.issued
    && RowMove(cfg, q.runs[id], s.runs[id], now) && s.runs[id].token in {q.runs[id].token, None}
  }

  lemma TouchMovesOneRow(cfg: Config, q: Queue, c: Claim, r: Run, now: Instant, id: RunId)
    requires id in q.runs && Owns(q, c) && Renewed(q.runs[c.run], r) && r.token == q.runs[c.run].token
    ensures MovesOnly(cfg, q, SetRun(q, c.run, r).(clock := now), id, now)
  {
  }

  lemma LeaveMovesOneRow(cfg: Config, q: Queue, c: Claim, r: Run, row: Attempt, now: Instant, id: RunId)
    requires id in q.runs && Owns(q, c) && r.token.None?
    requires Closed(q.runs[c.run], r, now) || PutBack(cfg, q.runs[c.run], r, now)
    ensures MovesOnly(cfg, q, q.(runs := q.runs[c.run := r], attempts := q.attempts[(c.run, c.attempt) := row], clock := now), id, now)
    ensures MovesOnly(cfg, q, SetRun(q, c.run, r).(clock := now), id, now)
  {
  }

  lemma OwnerMovesOneRow(cfg: Config, q: Queue, e: Event, id: RunId)
    requires Inv(cfg, q) && Enabled(q, e) && id in q.runs
    requires (e.Beat? || e.Advance? || e.Succeed? || e.Fail? || e.Release?) && Owns(q, e.c)
    ensures MovesOnly(cfg, q, Step(q, cfg, e), id, e.now)
  {
    var r := q.runs[e.c.run];
    OwnedClaim(cfg, q, e.c);
    match e
    case Beat(c, now) => TouchMovesOneRow(cfg, q, c, r.(lease := Some(now + cfg.leaseSeconds * SECOND)), now, id);
    case Advance(c, stage, now) => TouchMovesOneRow(cfg, q, c, r.(stage := Some(stage)), now, id);
    case _ => LeaverMovesOneRow(cfg, q, e, id);
  }

  lemma LeaverMovesOneRow(cfg: Config, q: Queue, e: Event, id: RunId)
    requires Inv(cfg, q) && Enabled(q, e) && id in q.runs
    requires (e.Succeed? || e.Fail? || e.Release?) && Owns(q, e.c)
    ensures MovesOnly(cfg, q, Step(q, cfg, e), id, e.now)
  {
    OwnedClaim(cfg, q, e.c);
    var s := Step(q, cfg, e);
    LeaveMovesOneRow(cfg, q, e.c, s.runs[e.c.run], s.attempts[(e.c.run, e.c.attempt)], e.now, id);
  }

  lemma WorkerMovesOneRow(cfg: Config, q: Queue, e: Event, id: RunId)
    requires Inv(cfg, q) && Enabled(q, e) && id in q.runs
    requires e.Beat? || e.Advance? || e.Succeed? || e.Fail? || e.Release?
    ensures MovesOnly(cfg, q, Step(q, cfg, e), id, e.now)
  {
    if Owns(q, e.c) {
      OwnerMovesOneRow(cfg, q, e, id);
    } else {
      assert Step(q, cfg, e) == q.(clock := e.now);
    }
  }

  lemma SweepMovesOneRow(cfg: Config, q: Queue, rows: seq<RunId>, now: Instant, id: RunId)
    requires Inv(cfg, q) && Lists(q, rows, now) && id in q.runs
    ensures Recover(q, cfg, rows, now).runs.Keys == q.runs.Keys && Recover(q, cfg, rows, now).issued == q.issued
    ensures RowMove(cfg, q.runs[id], Recover(q, cfg, rows, now).runs[id], now)
    ensures Recover(q, cfg, rows, now).runs[id].token in {q.runs[id].token, None}
  {
    SweepIsShort(cfg, q, rows, now);
    forall i | 0 <= i < |rows| ensures rows[i] in q.runs && q.runs[rows[i]].status == Running {
      assert rows[i] in rows;
    }
  }

  lemma TickMovesOneRow(cfg: Config, q: Queue, picked: Option<RunId>, token: Token, now: Instant, id: RunId)
    requires Picks(q, picked, now) && id in q.runs
    ensures var s := ClaimNext(q, cfg, picked, token, now).0;
      && id in s.runs && RowMove(cfg, q.runs[id], s.runs[id], now) && q.issued <= s.issued
      && s.runs[id].token in {q.runs[id].token, None, Some(token)}
  {
  }

  /** No row disappears, and a row changes in one of the four ways; a new token is the drawn one. */
  lemma StepMovesRows(cfg: Config, q: Queue, e: Event, id: RunId)
    requires Inv(cfg, q) && Enabled(q, e) && id in q.runs
    ensures id in Step(q, cfg, e).runs && RowMove(cfg, q.runs[id], Step(q, cfg, e).runs[id], e.now)
    ensures Step(q, cfg, e).runs[id].token in {q.runs[id].token, None, if e.Tick? then Some(e.token) else None}
    ensures q.issued <= Step(q, cfg, e).issued
  {
    match e
    case EnqueueRun(_, _, _) =>
    case ResetLedger(_) =>
    case Tick(picked, token, now) => TickMovesOneRow(cfg, q, picked, token, now, id);
    case Sweep(rows, now) => SweepMovesOneRow(cfg, q, rows, now, id);
    case _ => WorkerMovesOneRow(cfg, q, e, id);
  }

  lemma OnlyEnqueueAdds(cfg: Config, q: Queue, e: Event, id: RunId)
    requires Inv(cfg, q) && Enabled(q, e) && id !in q.runs && id in Step(q, cfg, e).runs
    ensures e.EnqueueRun? && e.id == id && Step(q, cfg, e).runs[id].status == Requested
    ensures Step(q, cfg, e).runs[id].attempt == 0
  {
    match e
    case EnqueueRun(_, _, _) =>
    case ResetLedger(_) =>
    case Tick(picked, token, now) =>
    case Sweep(rows, now) =>
      forall i | 0 <= i < |rows| ensures rows[i] in q.runs { assert rows[i] in rows; }
      SweepIsShort(cfg, q, rows, now);
    case _ =>
  }
}
