/** The reporting queue: one row per requested run, moved by compare-and-swap on a claim token.
    Every function below is one committed transaction of the queue. */
module ReportingQueue {
  import opened Wrappers
  import opened Instants

  type RunId = nat
  type Token = nat

  datatype Status = Requested | Running | Retryable | Succeeded | Failed

  datatype ErrorCode =
    | ExtractFailed | ValidateFailed | LoadFailed | DbUnavailable | LockUnavailable
    | StaleAbandoned | MaxAttemptsExceeded | OrchestrationFailed | InternalFailed

  datatype Stage = Extract | Transform | Load | Orchestration

  datatype RetryOutcome = Retried | Exhausted | FailedOutcome | LeaseLost | SucceededOutcome

  datatype Run = Run(
    requestedAt: Instant,
    week: Option<int>,
    status: Status,
    attempt: nat,
    startedAt: Option<Instant>,
    finishedAt: Option<Instant>,
    token: Option<Token>,
    lease: Option<Instant>,
    nextAttemptAt: Option<Instant>,
    stage: Option<Stage>,
    error: Option<ErrorCode>)

  datatype Attempt = Attempt(stage: Stage, startedAt: Instant, endedAt: Instant,
                             error: Option<ErrorCode>, outcome: RetryOutcome)

  /** What `claim_next` hands to a worker, who may go on using it long after losing it. */
  datatype Claim = Claim(run: RunId, token: Token, attempt: nat, week: Option<int>)

  datatype Config = Config(maxAttempts: int, backoffSeconds: nat, leaseSeconds: nat)

  /** The tables, plus every claim ever drawn and the latest clock reading. */
  datatype Queue = Queue(
    runs: map<RunId, Run>,
    attempts: map<(RunId, nat), Attempt>,
    issued: set<Claim>,
    lastReset: Option<Instant>,
    clock: Instant)

  const EMPTY := Queue(map[], map[], {}, None, 0)
  const SECOND: int := 1_000_000

  function Power2(n: nat): (p: nat)
    ensures p >= 1
  {
    if n == 0 then 1 else 2 * Power2(n - 1)
  }

  /** Delay after a failed attempt. */
  function Backoff(cfg: Config, attempt: nat): nat {
    cfg.backoffSeconds * SECOND * Power2(if attempt == 0 then 0 else attempt - 1)
  }

  predicate Terminal(r: Run) {
    r.status == Succeeded || r.status == Failed
  }

  predicate Eligible(r: Run, now: Instant) {
    r.status == Requested || (r.status == Retryable && r.nextAttemptAt.Some? && r.nextAttemptAt.value <= now)
  }

  predicate Owns(q: Queue, c: Claim) {
    && c.run in q.runs
    && q.runs[c.run].token == Some(c.token)
    && q.runs[c.run].status == Running
  }

  /** `_record_attempt`: one row per (run, attempt); a second insert is dropped. */
  function RecordAttempt(q: Queue, run: RunId, attempt: nat, stage: Option<Stage>, now: Instant,
                         error: Option<ErrorCode>, outcome: RetryOutcome): Queue
  {
    if run !in q.runs || (run, attempt) in q.attempts then q
    else
      var r := q.runs[run];
      var row := Attempt(stage.GetOr(r.stage.GetOr(Orchestration)), r.startedAt.GetOr(now), now,
                         if error == Some(MaxAttemptsExceeded) then None else error, outcome);
      q.(attempts := q.attempts[(run, attempt) := row])
  }

  function SetRun(q: Queue, id: RunId, r: Run): Queue {
    q.(runs := q.runs[id := r])
  }

  /** Leaving `running` always clears the token and the lease. */
  function Leave(r: Run, status: Status, finishedAt: Option<Instant>, nextAttemptAt: Option<Instant>,
                 error: Option<ErrorCode>): Run
  {
    r.(status := status, finishedAt := finishedAt, nextAttemptAt := nextAttemptAt,
       token := None, lease := None, error := error)
  }

  // ---------------------------------------------------------------- the transitions

  function Enqueue(q: Queue, id: RunId, week: Option<int>, now: Instant): Queue {
    SetRun(q, id, Run(now, week, Requested, 0, None, None, None, None, None, None, None)).(clock := now)
  }

  /** A requested week is frozen once a ledger reset falls after its Monday. */
  predicate WeekFrozen(q: Queue, week: Option<int>) {
    week.Some? && q.lastReset.Some? && WeekStart(week.value) * HOUR < q.lastReset.value
  }

  predicate AnyRunning(q: Queue) {
    exists id :: id in q.runs && q.runs[id].status == Running
  }

  function Claimed(r: Run, cfg: Config, token: Token, now: Instant): Run {
    r.(status := Running, startedAt := Some(now), finishedAt := None, attempt := r.attempt + 1,
       token := Some(token), lease := Some(now + cfg.leaseSeconds * SECOND), nextAttemptAt := None, error := None)
  }

  /** `claim_next` with `id` the selected row and `token` the fresh token. The unique index on running
      rows makes the whole transaction a no-op while another row runs. */
  function ClaimNext(q: Queue, cfg: Config, id: Option<RunId>, token: Token, now: Instant): (res: (Queue, Option<Claim>))
    requires id.Some? ==> id.value in q.runs
  {
    var ticked := q.(clock := now);
    if id.None? || AnyRunning(q) then (ticked, None)
    else
      var r := Claimed(q.runs[id.value], cfg, token, now);
      var c := Claim(id.value, token, r.attempt, r.week);
      var drawn := ticked.(issued := q.issued + {c});
      if WeekFrozen(q, r.week) then
        var failed := Leave(r, Failed, Some(now), None, Some(ValidateFailed));
        (RecordAttempt(SetRun(drawn, id.value, failed), id.value, r.attempt, Some(Orchestration), now,
                       Some(ValidateFailed), FailedOutcome), None)
      else (SetRun(drawn, id.value, r), Some(c))
  }

  function Heartbeat(q: Queue, cfg: Config, c: Claim, now: Instant): (Queue, bool) {
    var ticked := q.(clock := now);
    if Owns(q, c)
    then (SetRun(ticked, c.run, q.runs[c.run].(lease := Some(now + cfg.leaseSeconds * SECOND))), true)
    else (ticked, false)
  }

  function RecordStage(q: Queue, c: Claim, stage: Stage, now: Instant): (Queue, bool) {
    var ticked := q.(clock := now);
    if Owns(q, c) then (SetRun(ticked, c.run, q.runs[c.run].(stage := Some(stage))), true) else (ticked, false)
  }

  function FinalizeSuccess(q: Queue, c: Claim, now: Instant): (Queue, bool) {
    var ticked := q.(clock := now);
    if !Owns(q, c) then (ticked, false)
    else
      var done := SetRun(ticked, c.run, Leave(q.runs[c.run], Succeeded, Some(now), q.runs[c.run].nextAttemptAt, None));
      (RecordAttempt(done, c.run, c.attempt, None, now, None, SucceededOutcome), true)
  }

  function FinalizeFailure(q: Queue, c: Claim, error: ErrorCode, stage: Option<Stage>, now: Instant): (Queue, bool) {
    var ticked := q.(clock := now);
    if !Owns(q, c) then (ticked, false)
    else
      var done := SetRun(ticked, c.run, Leave(q.runs[c.run], Failed, Some(now), q.runs[c.run].nextAttemptAt, Some(error)));
      (RecordAttempt(done, c.run, c.attempt, stage, now, Some(error), FailedOutcome), true)
  }

  /** Where a run goes after a retryable failure of `attempt`. */
  function Retry(r: Run, cfg: Config, attempt: nat, error: ErrorCode, now: Instant): Run {
    if attempt >= cfg.maxAttempts
    then Leave(r, Failed, Some(now), None, Some(MaxAttemptsExceeded))
    else Leave(r, Retryable, None, Some(now + Backoff(cfg, attempt)), Some(error))
  }

  function ReleaseRetryable(q: Queue, cfg: Config, c: Claim, error: ErrorCode, stage: Option<Stage>, now: Instant)
    : (Queue, bool)
  {
    var ticked := q.(clock := now);
    if !Owns(q, c) then (ticked, false)
    else
      var released := SetRun(ticked, c.run, Retry(q.runs[c.run], cfg, c.attempt, error, now));
      (RecordAttempt(released, c.run, c.attempt, stage, now, Some(error),
                     if c.attempt >= cfg.maxAttempts then Exhausted else Retried), true)
  }

  predicate Stale(r: Run, now: Instant) {
    r.status == Running && r.lease.Some? && r.lease.value < now
  }

  /** One iteration of the stale-lease sweep. */
  function RecoverOne(q: Queue, cfg: Config, id: RunId, now: Instant): Queue
    requires id in q.runs
  {
    var r := q.runs[id];
    RecordAttempt(SetRun(q, id, Retry(r, cfg, r.attempt, StaleAbandoned, now)), id, r.attempt, r.stage, now,
                  Some(StaleAbandoned), LeaseLost)
  }

  /** The sweep over `rows`, in order. */
  function Recover(q: Queue, cfg: Config, rows: seq<RunId>, now: Instant): Queue
    requires forall id | id in rows :: id in q.runs
  {
    if rows == [] then q
    else
      var rest := Recover(q, cfg, rows[..|rows| - 1], now);
      if rows[|rows| - 1] in rest.runs then RecoverOne(rest, cfg, rows[|rows| - 1], now) else rest
  }
}
