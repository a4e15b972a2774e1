/** The queue's tables as one mutable object, and the runner's final transition. Each method is the
    transaction of the same name, proved against its function in `ReportingQueue`. */
module QueueStore {
  import opened Wrappers
  import opened Instants
  import Q = ReportingQueue
  import Runs = QueueRuns

  /** How one execution of a claim ended. */
  datatype ClaimOutcome =
    | Succeeded
    | Failed(error: Q.ErrorCode, stage: Option<Q.Stage>)
    | Retryable(error: Q.ErrorCode, stage: Option<Q.Stage>)
    | LeaseLost

  class Store {
    var runs: map<Q.RunId, Q.Run>
    var attempts: map<(Q.RunId, nat), Q.Attempt>
    var lastReset: Option<Instant>
    ghost var issued: set<Q.Claim>
    ghost var clock: Instant

    ghost function Model(): Q.Queue
      reads this
    {
      Q.Queue(runs, attempts, issued, lastReset, clock)
    }

    constructor ()
      ensures Model() == Q.EMPTY
    {
      runs, attempts, lastReset, issued, clock := map[], map[], None, {}, 0;
    }

    method RecordAttempt(run: Q.RunId, attempt: nat, stage: Option<Q.Stage>, now: Instant,
                         error: Option<Q.ErrorCode>, outcome: Q.RetryOutcome)
      modifies this`attempts
      ensures Model() == Q.RecordAttempt(old(Model()), run, attempt, stage, now, error, outcome)
    {
      if run in runs && (run, attempt) !in attempts {
        var r := runs[run];
        var originating := if error == Some(Q.MaxAttemptsExceeded) then None else error;
        attempts := attempts[(run, attempt) :=
          Q.Attempt(stage.GetOr(r.stage.GetOr(Q.Orchestration)), r.startedAt.GetOr(now), now, originating, outcome)];
      }
    }

    /** The error an attempt row keeps: never the summary code for a run out of attempts. */
    function Originating(error: Q.ErrorCode): Option<Q.ErrorCode> {
      if error == Q.MaxAttemptsExceeded then None else Some(error)
    }

    /** The claim's attempt is on record: this row, unless one was there already. */
    predicate Noted(before: map<(Q.RunId, nat), Q.Attempt>, c: Q.Claim, row: Q.Attempt)
      reads this
    {
      attempts == if (c.run, c.attempt) in before then before else before[(c.run, c.attempt) := row]
    }

    /** Oldest row that is requested, or retryable and due. */
    method SelectEligible(now: Instant) returns (picked: Option<Q.RunId>)
      ensures Runs.Picks(Model(), picked, now)
    {
      picked := None;
      var rest := runs.Keys;
      while rest != {}
        invariant rest <= runs.Keys
        invariant picked.None? ==> forall id | id in runs.Keys - rest :: !Q.Eligible(runs[id], now)
        invariant picked.Some? ==>
          && picked.value in runs && Q.Eligible(runs[picked.value], now)
          && forall id | id in runs.Keys - rest && Q.Eligible(runs[id], now) ::
               runs[picked.value].requestedAt <= runs[id].requestedAt
        decreases |rest|
      {
        var id :| id in rest;
        rest := rest - {id};
        if Q.Eligible(runs[id], now) && (picked.None? || runs[id].requestedAt < runs[picked.value].requestedAt) {
          picked := Some(id);
        }
      }
    }

    method ClaimNext(cfg: Q.Config, token: Q.Token, now: Instant) returns (c: Option<Q.Claim>, ghost picked: Option<Q.RunId>)
      modifies this
      ensures Runs.Picks(old(Model()), picked, now)
      ensures (Model(), c) == Q.ClaimNext(old(Model()), cfg, picked, token, now)
    {
      clock := now;
      var row := SelectEligible(now);
      picked := row;
      if row.None? || exists id | id in runs :: runs[id].status == Q.Running {
        return None, picked;
      }
      var id := row.value;
      var r := Q.Claimed(runs[id], cfg, token, now);
      issued := issued + {Q.Claim(id, token, r.attempt, r.week)};
      if r.week.Some? && lastReset.Some? && WeekStart(r.week.value) * HOUR < lastReset.value {
        runs := runs[id := Q.Leave(r, Q.Failed, Some(now), None, Some(Q.ValidateFailed))];
        RecordAttempt(id, r.attempt, Some(Q.Orchestration), now, Some(Q.ValidateFailed), Q.FailedOutcome);
        return None, picked;
      }
      runs := runs[id := r];
      return Some(Q.Claim(id, token, r.attempt, r.week)), picked;
    }

    /** The compare half of every compare-and-swap. */
    predicate Owned(c: Q.Claim)
      reads this
    {
      c.run in runs && runs[c.run].token == Some(c.token) && runs[c.run].status == Q.Running
    }

    method Heartbeat(cfg: Q.Config, c: Q.Claim, now: Instant) returns (kept: bool)
      modifies this
      ensures (Model(), kept) == Q.Heartbeat(old(Model()), cfg, c, now)
      ensures kept == old(Owned(c))
      ensures kept ==> runs == old(runs)[c.run := old(runs)[c.run].(lease := Some(now + cfg.leaseSeconds * 1_000_000))]
    {
      clock := now;
      kept := Owned(c);
      if kept {
        runs := runs[c.run := runs[c.run].(lease := Some(now + cfg.leaseSeconds * Q.SECOND))];
      }
    }

    method RecordStage(c: Q.Claim, stage: Q.Stage, now: Instant) returns (kept: bool)
      modifies this
      ensures (Model(), kept) == Q.RecordStage(old(Model()), c, stage, now)
      ensures kept == old(Owned(c))
      ensures kept ==> runs == old(runs)[c.run := old(runs)[c.run].(stage := Some(stage))]
    {
      clock := now;
      kept := Owned(c);
      if kept {
        runs := runs[c.run := runs[c.run].(stage := Some(stage))];
      }
    }

    method FinalizeSuccess(c: Q.Claim, now: Instant) returns (moved: bool)
      modifies this
      ensures (Model(), moved) == Q.FinalizeSuccess(old(Model()), c, now)
      ensures moved == old(Owned(c))
      ensures moved ==> runs == old(runs)[c.run := old(runs)[c.run].(
        status := Q.Succeeded, finishedAt := Some(now), token := None, lease := None, error := None)]
      ensures moved ==> Noted(old(attempts), c, Q.Attempt(old(runs)[c.run].stage.GetOr(Q.Orchestration),
        old(runs)[c.run].startedAt.GetOr(now), now, None, Q.SucceededOutcome))
    {
      clock := now;
      moved := Owned(c);
      if moved {
        var r := runs[c.run];
        runs := runs[c.run := Q.Leave(r, Q.Succeeded, Some(now), r.nextAttemptAt, None)];
        RecordAttempt(c.run, c.attempt, None, now, None, Q.SucceededOutcome);
      }
    }

    method FinalizeFailure(c: Q.Claim, error: Q.ErrorCode, stage: Option<Q.Stage>, now: Instant) returns (moved: bool)
      modifies this
      ensures (Model(), moved) == Q.FinalizeFailure(old(Model()), c, error, stage, now)
      ensures moved == old(Owned(c))
      ensures moved ==> runs == old(runs)[c.run := old(runs)[c.run].(
        status := Q.Failed, finishedAt := Some(now), token := None, lease := None, error := Some(error))]
      ensures moved ==> Noted(old(attempts), c, Q.Attempt(stage.GetOr(old(runs)[c.run].stage.GetOr(Q.Orchestration)),
        old(runs)[c.run].startedAt.GetOr(now), now, Originating(error), Q.FailedOutcome))
    {
      clock := now;
      moved := Owned(c);
      if moved {
        var r := runs[c.run];
        runs := runs[c.run := Q.Leave(r, Q.Failed, Some(now), r.nextAttemptAt, Some(error))];
        RecordAttempt(c.run, c.attempt, stage, now, Some(error), Q.FailedOutcome);
      }
    }

    method ReleaseRetryable(cfg: Q.Config, c: Q.Claim, error: Q.ErrorCode, stage: Option<Q.Stage>, now: Instant)
      returns (moved: bool)
      modifies this
      ensures (Model(), moved) == Q.ReleaseRetryable(old(Model()), cfg, c, error, stage, now)
      ensures moved == old(Owned(c))
      ensures moved && c.attempt < cfg.maxAttempts ==> runs == old(runs)[c.run := old(runs)[c.run].(
        status := Q.Retryable, finishedAt := None, nextAttemptAt := Some(now + Q.Backoff(cfg, c.attempt)),
        token := None, lease := None, error := Some(error))]
      ensures moved && cfg.maxAttempts <= c.attempt ==> runs == old(runs)[c.run := old(runs)[c.run].(
        status := Q.Failed, finishedAt := Some(now), nextAttemptAt := None,
        token := None, lease := None, error := Some(Q.MaxAttemptsExceeded))]
      ensures moved ==> Noted(old(attempts), c, Q.Attempt(stage.GetOr(old(runs)[c.run].stage.GetOr(Q.Orchestration)),
        old(runs)[c.run].startedAt.GetOr(now), now, Originating(error),
        if c.attempt < cfg.maxAttempts then Q.Retried else Q.Exhausted))
    {
      clock := now;
      moved := Owned(c);
      if moved {
        runs := runs[c.run := Q.Retry(runs[c.run], cfg, c.attempt, error, now)];
        var exhausted := c.attempt >= cfg.maxAttempts;
        RecordAttempt(c.run, c.attempt, stage, now, Some(error), if exhausted then Q.Exhausted else Q.Retried);
      }
    }

    /** Rows whose lease has run out, each once. */
    method SelectStale(now: Instant) returns (rows: seq<Q.RunId>)
      ensures Runs.Lists(Model(), rows, now)
    {
      rows := [];
      var rest := runs.Keys;
      while rest != {}
        invariant rest <= runs.Keys
        invariant forall id :: id in rows <==> id in runs.Keys - rest && Q.Stale(runs[id], now)
        invariant forall i, j :: 0 <= i < j < |rows| ==> rows[i] != rows[j]
        decreases |rest|
      {
        var id :| id in rest;
        rest := rest - {id};
        if Q.Stale(runs[id], now) {
          assert id !in rows;
          rows := rows + [id];
        }
      }
    }

    method RecoverStaleRuns(cfg: Q.Config, now: Instant) returns (recovered: nat, ghost stale: seq<Q.RunId>)
      modifies this
      ensures Runs.Lists(old(Model()), stale, now) && recovered == |stale|
      ensures Model() == Q.Recover(old(Model()), cfg, stale, now).(clock := now)
    {
      var rows := SelectStale(now);
      stale, recovered := rows, 0;
      while recovered < |rows|
        invariant recovered <= |rows|
        invariant Runs.Lists(old(Model()), rows, now)
        invariant forall id | id in rows :: id in old(Model()).runs
        invariant runs.Keys == old(runs.Keys)
        invariant Model() == Q.Recover(old(Model()), cfg, rows[..recovered], now)
      {
        var id := rows[recovered];
        assert id in rows;
        assert rows[..recovered + 1][..recovered] == rows[..recovered];
        var r := runs[id];
        runs := runs[id := Q.Retry(r, cfg, r.attempt, Q.StaleAbandoned, now)];
        RecordAttempt(id, r.attempt, r.stage, now, Some(Q.StaleAbandoned), Q.LeaseLost);
        recovered := recovered + 1;
      }
      assert rows[..|rows|] == rows;
      clock := now;
    }

    /** The runner's last step: one token compare-and-swap for the outcome, reported as a lost lease
        when it did not apply. */
    method FinalizeClaim(cfg: Q.Config, c: Q.Claim, outcome: ClaimOutcome, now: Instant) returns (result: ClaimOutcome)
      modifies this
      ensures result == if old(Owned(c)) then outcome else LeaseLost
      ensures result.Succeeded? ==> c.run in runs && runs[c.run].status == Q.Succeeded && runs[c.run].finishedAt == Some(now)
      ensures result.Failed? ==> c.run in runs && runs[c.run].status == Q.Failed && runs[c.run].error == Some(result.error)
      ensures result.Retryable? ==> c.run in runs && runs[c.run].status == if c.attempt < cfg.maxAttempts then Q.Retryable else Q.Failed
      ensures Model() == match outcome
        case LeaseLost => old(Model())
        case Succeeded => Q.FinalizeSuccess(old(Model()), c, now).0
        case Failed(error, stage) => Q.FinalizeFailure(old(Model()), c, error, stage, now).0
        case Retryable(error, stage) => Q.ReleaseRetryable(old(Model()), cfg, c, error, stage, now).0
    {
      var transitioned := false;
      match outcome {
        case LeaseLost => return LeaseLost;
        case Succeeded => transitioned := FinalizeSuccess(c, now);
        case Failed(error, stage) => transitioned := FinalizeFailure(c, error, stage, now);
        case Retryable(error, stage) => transitioned := ReleaseRetryable(cfg, c, error, stage, now);
      }
      return if transitioned then outcome else LeaseLost;
    }
  }
}
