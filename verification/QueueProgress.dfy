/** What the queue guarantees over time: dead claims stay dead, and every run comes to an end. */
module QueueProgress {
  import opened Wrappers
  import opened Instants
  import opened ReportingQueue
  import opened QueueRuns

  lemma {:induction false} PrefixHappened(cfg: Config, history: seq<Event>, n: nat)
    requires After(cfg, history).Some? && n <= |history|
    ensures After(cfg, history[..n]).Some?
    decreases |history|
  {
    if n == |history| {
      assert history[..n] == history;
    } else {
      var before := history[..|history| - 1];
      assert history[..n] == before[..n];
      PrefixHappened(cfg, before, n);
    }
  }

  // ---------------------------------------------------------------- fencing

  predicate IsWorkerEvent(e: Event, c: Claim) {
    (e.Beat? || e.Advance? || e.Succeed? || e.Fail? || e.Release?) && e.c == c
  }

  lemma DeadClaimStaysDead(cfg: Config, q: Queue, e: Event, c: Claim)
    requires Inv(cfg, q) && Enabled(q, e) && c in q.issued && !Owns(q, c)
    ensures c in Step(q, cfg, e).issued && !Owns(Step(q, cfg, e), c)
    ensures IsWorkerEvent(e, c) ==> Step(q, cfg, e) == q.(clock := e.now)
  {
    StepKeepsInv(cfg, q, e);
    if c.run in q.runs {
      assert RowOk(cfg, q.runs[c.run], q.clock);
      StepMovesRows(cfg, q, e, c.run);
    } else if c.run in Step(q, cfg, e).runs {
      OnlyEnqueueAdds(cfg, q, e, c.run);
    }
    IssuedGrows(cfg, q, e);
  }

  lemma IssuedGrows(cfg: Config, q: Queue, e: Event)
    requires Inv(cfg, q) && Enabled(q, e)
    ensures q.issued <= Step(q, cfg, e).issued
  {
    if e.Sweep? {
      SweepIsShort(cfg, q, e.stale, e.now);
    }
  }

  /** Once a claim's token is off its row, then in every later state it is still off, and every heartbeat,
      stage record, release or finalization with it changes nothing but the clock. */
  lemma {:induction false} Fenced(cfg: Config, history: seq<Event>, n: nat, s: Queue, c: Claim)
    requires After(cfg, history).Some? && n <= |history|
    requires After(cfg, history[..n]) == Some(s) && c in s.issued && !Owns(s, c)
    ensures var q := After(cfg, history).value;
      && c in q.issued && !Owns(q, c)
      && forall e :: IsWorkerEvent(e, c) && Enabled(q, e) ==> Step(q, cfg, e) == q.(clock := e.now)
    decreases |history|
  {
    ReachableInv(cfg, history);
    if n == |history| {
      assert history[..n] == history;
    } else {
      var before := history[..|history| - 1];
      assert history[..n] == before[..n];
      Fenced(cfg, before, n, s, c);
      ReachableInv(cfg, before);
      DeadClaimStaysDead(cfg, After(cfg, before).value, history[|history| - 1], c);
    }
    var q := After(cfg, history).value;
    forall e | IsWorkerEvent(e, c) && Enabled(q, e) ensures Step(q, cfg, e) == q.(clock := e.now) {
      DeadClaimStaysDead(cfg, q, e, c);
    }
  }

  // ---------------------------------------------------------------- termination

  /** Claims one run may consume. */
  function Limit(cfg: Config): nat {
    Max(1, cfg.maxAttempts)
  }

  function Rank(cfg: Config, r: Run): int {
    match r.status
    case Requested => 2 * Limit(cfg) + 1
    case Running => 2 * (Limit(cfg) - r.attempt) + 2
    case Retryable => 2 * (Limit(cfg) - r.attempt) + 1
    case _ => 0
  }

  /** A row only ever moves down in rank: claiming, releasing, finalizing and recovering all descend,
      everything else leaves status and attempt alone, and terminal rows never change again. */
  lemma EveryMoveDescends(cfg: Config, q: Queue, e: Event, id: RunId)
    requires Inv(cfg, q) && Enabled(q, e) && id in q.runs
    ensures var r := q.runs[id]; var s := Step(q, cfg, e).runs;
      && id in s && 0 <= Rank(cfg, s[id]) <= Rank(cfg, r)
      && (s[id].status != r.status ==> Rank(cfg, s[id]) < Rank(cfg, r))
      && (s[id].status == r.status ==> s[id].attempt == r.attempt)
      && (Terminal(r) ==> s[id] == r)
      && (s[id].attempt == r.attempt || s[id].attempt == r.attempt + 1)
  {
    assert RowOk(cfg, q.runs[id], q.clock);
    StepMovesRows(cfg, q, e, id);
    StepKeepsInv(cfg, q, e);
    assert RowOk(cfg, Step(q, cfg, e).runs[id], Step(q, cfg, e).clock);
  }

  /** How often a run changed status over a history, and how often it was claimed. */
  ghost function Moves(cfg: Config, history: seq<Event>, id: RunId): (moves: nat)
  {
    if history == [] || After(cfg, history).None? then 0
    else
      PrefixHappened(cfg, history, |history| - 1);
      var p, q := After(cfg, history[..|history| - 1]).value, After(cfg, history).value;
      Moves(cfg, history[..|history| - 1], id) +
      if id in p.runs && id in q.runs && p.runs[id].status != q.runs[id].status then 1 else 0
  }

  ghost function Claims(cfg: Config, history: seq<Event>, id: RunId): (claims: nat)
  {
    if history == [] || After(cfg, history).None? then 0
    else
      PrefixHappened(cfg, history, |history| - 1);
      var p, q := After(cfg, history[..|history| - 1]).value, After(cfg, history).value;
      Claims(cfg, history[..|history| - 1], id) +
      if id in p.runs && id in q.runs && q.runs[id].attempt > p.runs[id].attempt then 1 else 0
  }

  /** Microseconds of backoff that a history imposed on a run. */
  ghost function Waited(cfg: Config, history: seq<Event>, id: RunId): (waited: int)
  {
    if history == [] || After(cfg, history).None? then 0
    else
      PrefixHappened(cfg, history, |history| - 1);
      var p, q := After(cfg, history[..|history| - 1]).value, After(cfg, history).value;
      Waited(cfg, history[..|history| - 1], id) +
      if id in p.runs && id in q.runs && p.runs[id].status == Running && q.runs[id].nextAttemptAt.Some?
         && q.runs[id].status == Retryable
      then q.runs[id].nextAttemptAt.value - history[|history| - 1].now else 0
  }

  lemma {:induction false} AbsentRunsHaveNoPast(cfg: Config, history: seq<Event>, id: RunId)
    requires After(cfg, history).Some? && id !in After(cfg, history).value.runs
    ensures Moves(cfg, history, id) == 0 && Claims(cfg, history, id) == 0 && Waited(cfg, history, id) == 0
    decreases |history|
  {
    if history != [] {
      var before := history[..|history| - 1];
      PrefixHappened(cfg, history, |history| - 1);
      ReachableInv(cfg, before);
      var q := After(cfg, before).value;
      if id in q.runs {
        EveryMoveDescends(cfg, q, history[|history| - 1], id);
      }
      AbsentRunsHaveNoPast(cfg, before, id);
    }
  }

  /** Every run ends: over any history a run is claimed exactly `attempt` times, never more than the limit,
      and its moves use up its rank. Once out of claims and not running, it is terminal. */
  lemma {:induction false} EveryRunEnds(cfg: Config, history: seq<Event>, id: RunId)
    requires After(cfg, history).Some? && id in After(cfg, history).value.runs
    ensures var r := After(cfg, history).value.runs[id];
      && Claims(cfg, history, id) == r.attempt <= Limit(cfg)
      && Moves(cfg, history, id) + Rank(cfg, r) <= 2 * Limit(cfg) + 1
      && (r.attempt == Limit(cfg) && r.status != Running ==> Terminal(r))
    decreases |history|
  {
    ReachableInv(cfg, history);
    var q := After(cfg, history).value;
    assert RowOk(cfg, q.runs[id], q.clock);
    var before := history[..|history| - 1];
    PrefixHappened(cfg, history, |history| - 1);
    ReachableInv(cfg, before);
    var p := After(cfg, before).value;
    var e := history[|history| - 1];
    if id in p.runs {
      EveryRunEnds(cfg, before, id);
      EveryMoveDescends(cfg, p, e, id);
    } else {
      AbsentRunsHaveNoPast(cfg, before, id);
      OnlyEnqueueAdds(cfg, p, e, id);
    }
  }

  // ---------------------------------------------------------------- backoff

  /** Attempts whose failure has been followed by a delay. */
  function Delayed(r: Run): nat {
    if r.status == Retryable then r.attempt else if r.attempt == 0 then 0 else r.attempt - 1
  }

  predicate DelayMoves(cfg: Config, r: Run, s: Run, now: Instant) {
    if r.status == Running && s.status == Retryable
    then s.nextAttemptAt == Some(now + Backoff(cfg, r.attempt)) && Delayed(s) == Delayed(r) + 1 == r.attempt
    else Delayed(s) == Delayed(r)
  }

  lemma DelayOfMove(cfg: Config, r: Run, s: Run, now: Instant, clock: Instant)
    requires RowOk(cfg, r, clock) && RowMove(cfg, r, s, now)
    ensures DelayMoves(cfg, r, s, now)
  {
  }

  lemma DelayOfStep(cfg: Config, q: Queue, e: Event, id: RunId)
    requires Inv(cfg, q) && Enabled(q, e) && id in q.runs
    ensures id in Step(q, cfg, e).runs && DelayMoves(cfg, q.runs[id], Step(q, cfg, e).runs[id], e.now)
  {
    assert RowOk(cfg, q.runs[id], q.clock);
    StepMovesRows(cfg, q, e, id);
    DelayOfMove(cfg, q.runs[id], Step(q, cfg, e).runs[id], e.now, q.clock);
  }

  /** What one step adds to the waiting of a run, given the run before and after. */
  function WaitOfStep(r: Run, s: Run, now: Instant): int {
    if r.status == Running && s.status == Retryable && s.nextAttemptAt.Some? then s.nextAttemptAt.value - now else 0
  }

  lemma WaitedStep(cfg: Config, history: seq<Event>, id: RunId, p: Queue, q: Queue)
    requires history != [] && After(cfg, history[..|history| - 1]) == Some(p) && After(cfg, history) == Some(q)
    requires id in p.runs && id in q.runs
    ensures Waited(cfg, history, id) ==
      Waited(cfg, history[..|history| - 1], id) + WaitOfStep(p.runs[id], q.runs[id], history[|history| - 1].now)
  {
  }

  lemma SeriesOfStep(cfg: Config, r: Run, s: Run, now: Instant)
    requires DelayMoves(cfg, r, s, now)
    ensures Series(cfg, Delayed(r)) + WaitOfStep(r, s, now) == Series(cfg, Delayed(s))
  {
    SeriesStep(cfg, Delayed(r));
  }

  /** The first `n` delays of a run together. */
  function Series(cfg: Config, n: nat): int {
    cfg.backoffSeconds * SECOND * (Power2(n) - 1)
  }

  lemma SeriesStep(cfg: Config, n: nat)
    ensures Series(cfg, n) + Backoff(cfg, n + 1) == Series(cfg, n + 1)
  {
  }

  lemma SeriesGrows(cfg: Config, m: nat, n: nat)
    requires m <= n
    ensures Series(cfg, m) <= Series(cfg, n)
  {
    Power2Grows(m, n);
    ScaleUp(cfg.backoffSeconds * SECOND, Power2(m) - 1, Power2(n) - 1);
  }

  lemma {:induction false} Power2Grows(m: nat, n: nat)
    requires m <= n
    ensures Power2(m) <= Power2(n)
  {
    if m < n { Power2Grows(m, n - 1); }
  }

  /** The delays of one run are the geometric series of its failed attempts. */
  lemma {:induction false} BackoffIsGeometric(cfg: Config, history: seq<Event>, id: RunId)
    requires After(cfg, history).Some? && id in After(cfg, history).value.runs
    ensures Waited(cfg, history, id) == Series(cfg, Delayed(After(cfg, history).value.runs[id]))
    decreases |history|
  {
    var before := history[..|history| - 1];
    PrefixHappened(cfg, history, |history| - 1);
    ReachableInv(cfg, before);
    var p, q := After(cfg, before).value, After(cfg, history).value;
    if id in p.runs {
      BackoffIsGeometric(cfg, before, id);
      BackoffStep(cfg, history, id, p, q);
    } else {
      FirstSeen(cfg, history, id, p, q);
    }
  }

  lemma BackoffStep(cfg: Config, history: seq<Event>, id: RunId, p: Queue, q: Queue)
    requires history != [] && After(cfg, history[..|history| - 1]) == Some(p) && After(cfg, history) == Some(q)
    requires Inv(cfg, p) && id in p.runs
    requires Waited(cfg, history[..|history| - 1], id) == Series(cfg, Delayed(p.runs[id]))
    ensures id in q.runs && Waited(cfg, history, id) == Series(cfg, Delayed(q.runs[id]))
  {
    var e := history[|history| - 1];
    DelayOfStep(cfg, p, e, id);
    WaitedStep(cfg, history, id, p, q);
    SeriesOfStep(cfg, p.runs[id], q.runs[id], e.now);
  }

  lemma FirstSeen(cfg: Config, history: seq<Event>, id: RunId, p: Queue, q: Queue)
    requires history != [] && After(cfg, history[..|history| - 1]) == Some(p) && After(cfg, history) == Some(q)
    requires Inv(cfg, p) && id !in p.runs && id in q.runs
    ensures Waited(cfg, history, id) == Series(cfg, Delayed(q.runs[id]))
  {
    AbsentRunsHaveNoPast(cfg, history[..|history| - 1], id);
    OnlyEnqueueAdds(cfg, p, history[|history| - 1], id);
  }

  lemma DelaysAreFewer(cfg: Config, r: Run, clock: Instant)
    requires RowOk(cfg, r, clock)
    ensures Delayed(r) <= Limit(cfg) - 1
  {
  }

  /** Altogether a run waits at most base * (2^(max - 1) - 1) seconds. */
  lemma TotalBackoffIsBounded(cfg: Config, history: seq<Event>, id: RunId)
    requires After(cfg, history).Some? && id in After(cfg, history).value.runs
    ensures Waited(cfg, history, id) <= Series(cfg, Limit(cfg) - 1)
  {
    ReachableInv(cfg, history);
    var q := After(cfg, history).value;
    assert RowOk(cfg, q.runs[id], q.clock);
    DelaysAreFewer(cfg, q.runs[id], q.clock);
    BackoffIsGeometric(cfg, history, id);
    SeriesGrows(cfg, Delayed(q.runs[id]), Limit(cfg) - 1);
  }

  lemma ScaleUp(k: nat, a: int, b: int)
    requires a <= b
    ensures k * a <= k * b
  {
  }
}
