/** What workers report over whole histories: a stage failure never fails a run outright, and names the stage that the
    worker had reached. */
module WorkerReports {
  import opened Wrappers
  import opened Instants
  import Q = ReportingQueue
  import Runs = QueueRuns
  import Progress = QueueProgress
  import P = Publication
  import opened ExecutorRuns

  // ---------------------------------------------------------------- outright failures

  /** Whatever has failed outright was a week that a reset had frozen. */
  ghost predicate OnlyFrozenFail(q: Q.Queue) {
    forall id, a | (id, a) in q.attempts && q.attempts[(id, a)].outcome == Q.FailedOutcome ::
      q.attempts[(id, a)].error == Some(Q.ValidateFailed) && q.attempts[(id, a)].stage == Q.Orchestration
  }

  lemma QueueEventFails(cfg: Q.Config, q: Q.Queue, e: Runs.Event)
    requires Runs.Inv(cfg, q) && Runs.Enabled(q, e) && !e.Fail? && OnlyFrozenFail(q)
    ensures OnlyFrozenFail(Runs.Step(q, cfg, e))
  {
    match e
    case Sweep(rows, now) => SweepFails(cfg, q, rows, now);
    case Tick(picked, token, now) => TickFails(cfg, q, picked, token, now);
    case _ =>
  }

  lemma SweepFails(cfg: Q.Config, q: Q.Queue, rows: seq<Q.RunId>, now: Instant)
    requires Runs.Inv(cfg, q) && Runs.Enabled(q, Runs.Sweep(rows, now)) && OnlyFrozenFail(q)
    ensures OnlyFrozenFail(Runs.Step(q, cfg, Runs.Sweep(rows, now)))
  {
    forall i | 0 <= i < |rows| ensures rows[i] in q.runs { assert rows[i] in rows; }
    Runs.SweepIsShort(cfg, q, rows, now);
  }

  lemma TickFails(cfg: Q.Config, q: Q.Queue, picked: Option<Q.RunId>, token: Q.Token, now: Instant)
    requires Runs.Inv(cfg, q) && Runs.Enabled(q, Runs.Tick(picked, token, now)) && OnlyFrozenFail(q)
    ensures OnlyFrozenFail(Runs.Step(q, cfg, Runs.Tick(picked, token, now)))
  {
  }

  lemma StepFails(cfg: Q.Config, s: System, e: Event)
    requires Inv(cfg, s) && Enabled(s, e) && OnlyFrozenFail(s.world.queue)
    ensures OnlyFrozenFail(Step(cfg, s, e).world.queue)
  {
    match e
    case Environment(q) => QueueEventFails(cfg, s.world.queue, q);
    case LoadStep(c, load, _) => LoadTakesEffect(cfg, s, c, load);
    case WorkStep(c, work, now) => WorkFails(cfg, s, c, work, now);
  }

  lemma WorkFails(cfg: Q.Config, s: System, c: Q.Claim, work: Work, now: Instant)
    requires Inv(cfg, s) && Enabled(s, WorkStep(c, work, now)) && OnlyFrozenFail(s.world.queue)
    ensures OnlyFrozenFail(Worked(cfg, s, c, work, now).world.queue)
  {
    match work
    case Begin(stage, _) => QueueEventFails(cfg, s.world.queue, Runs.Advance(c, stage, now));
    case Conclude => QueueEventFails(cfg, s.world.queue, Runs.Succeed(c, now));
    case Report => QueueEventFails(cfg, s.world.queue, Runs.Release(c, s.phases[c].error, Some(s.phases[c].stage), now));
    case _ =>
  }

  /** In every history of workers an attempt is recorded as failed only when the claim found its week frozen: the
      failure of a stage puts the run back, or exhausts it. */
  lemma {:induction false} StageFailuresAreRetried(cfg: Q.Config, history: seq<Event>)
    requires After(cfg, history).Some?
    ensures OnlyFrozenFail(After(cfg, history).value.world.queue)
    decreases |history|
  {
    if history != [] {
      var before := history[..|history| - 1];
      StageFailuresAreRetried(cfg, before);
      ReachableInv(cfg, before);
      StepFails(cfg, After(cfg, before).value, history[|history| - 1]);
    }
  }

  // ---------------------------------------------------------------- the stage on the row

  /** The stage that a worker's phase stands for. */
  predicate StageIs(p: Phase, stage: Option<Q.Stage>) {
    match p
    case Extracting => stage == Some(Q.Extract)
    case Transforming => stage == Some(Q.Transform)
    case Loading => stage == Some(Q.Load)
    case Loaded => stage == Some(Q.Load)
    case Broken(_, broken) => broken == Q.Orchestration || stage == Some(broken)
    case _ => true
  }

  ghost predicate StageOk(s: System, c: Q.Claim) {
    && (c in s.phases ==> c in s.world.queue.issued)
    && (c in s.phases && Q.Owns(s.world.queue, c) ==> StageIs(s.phases[c], s.world.queue.runs[c.run].stage))
  }

  lemma StageStays(cfg: Q.Config, q: Q.Queue, e: Runs.Event, c: Q.Claim)
    requires Runs.Inv(cfg, q) && Runs.Enabled(q, e) && c in q.issued && Q.Owns(Runs.Step(q, cfg, e), c)
    requires !(e.Advance? && e.c == c)
    ensures Q.Owns(q, c) && Runs.Step(q, cfg, e).runs[c.run].stage == q.runs[c.run].stage
  {
    if !Q.Owns(q, c) {
      Progress.DeadClaimStaysDead(cfg, q, e, c);
    }
    match e
    case Tick(_, _, _) => assert Q.AnyRunning(q);
    case Sweep(rows, now) =>
      forall i | 0 <= i < |rows| ensures rows[i] in q.runs { assert rows[i] in rows; }
      Runs.SweepIsShort(cfg, q, rows, now);
    case EnqueueRun(_, _, _) =>
    case ResetLedger(_) =>
    case _ => OneOwner(cfg, q, c, e.c);
  }

  lemma OneOwner(cfg: Q.Config, q: Q.Queue, c: Q.Claim, d: Q.Claim)
    requires Runs.Inv(cfg, q) && c in q.issued && d in q.issued
    ensures Q.Owns(q, c) && Q.Owns(q, d) ==> c == d
  {
  }

  /** A queue event that is no stage record of the claim leaves the claim's stage as it was. */
  lemma QueueEventKeepsStage(cfg: Q.Config, s: System, e: Runs.Event, c: Q.Claim)
    requires Inv(cfg, s) && Runs.Enabled(s.world.queue, e) && StageOk(s, c) && !(e.Advance? && e.c == c)
    ensures StageOk(s.(world := P.Step(cfg, s.world, P.OfQueue(e))), c)
  {
    Progress.IssuedGrows(cfg, s.world.queue, e);
    if c in s.phases && Q.Owns(Runs.Step(s.world.queue, cfg, e), c) {
      StageStays(cfg, s.world.queue, e, c);
    }
  }

  lemma OthersKeepStage(cfg: Q.Config, s: System, d: Q.Claim, work: Work, now: Instant, c: Q.Claim)
    requires Inv(cfg, s) && Enabled(s, WorkStep(d, work, now)) && StageOk(s, c) && c != d
    ensures StageOk(Worked(cfg, s, d, work, now), c)
  {
    match work
    case Begin(stage, _) => QueueEventKeepsStage(cfg, s, Runs.Advance(d, stage, now), c);
    case Conclude => QueueEventKeepsStage(cfg, s, Runs.Succeed(d, now), c);
    case Report => QueueEventKeepsStage(cfg, s, Runs.Release(d, s.phases[d].error, Some(s.phases[d].stage), now), c);
    case _ =>
  }

  lemma OwnKeepsStage(cfg: Q.Config, s: System, c: Q.Claim, work: Work, now: Instant)
    requires Inv(cfg, s) && Enabled(s, WorkStep(c, work, now)) && StageOk(s, c)
    ensures StageOk(Worked(cfg, s, c, work, now), c)
  {
    match work
    case Conclude => QueueEventKeepsStage(cfg, s, Runs.Succeed(c, now), c);
    case Report => QueueEventKeepsStage(cfg, s, Runs.Release(c, s.phases[c].error, Some(s.phases[c].stage), now), c);
    case _ =>
  }

  lemma LoadKeepsStage(cfg: Q.Config, s: System, d: Q.Claim, load: P.Event, heard: bool, c: Q.Claim)
    requires Inv(cfg, s) && Enabled(s, LoadStep(d, load, heard)) && StageOk(s, c)
    ensures StageOk(LoadedBy(cfg, s, d, load, heard), c)
  {
    LoadKeepsQueue(cfg, s.world, load);
  }

  lemma LoadKeepsQueue(cfg: Q.Config, w: P.World, load: P.Event)
    requires P.Enabled(w, load) && (load.Publish? || load.Activate?)
    ensures P.Step(cfg, w, load).queue == w.queue.(clock := P.Step(cfg, w, load).queue.clock)
  {
  }

  lemma HiringKeepsStage(cfg: Q.Config, s: System, e: Runs.Event, c: Q.Claim)
    requires Inv(cfg, s) && Enabled(s, Environment(e)) && StageOk(s, c)
    ensures StageOk(Step(cfg, s, Environment(e)), c)
  {
    QueueEventKeepsStage(cfg, s, e, c);
  }

  /** In every reachable state the stage on an owned row is the one its worker has reached. */
  lemma {:induction false} ReachableStage(cfg: Q.Config, history: seq<Event>, c: Q.Claim)
    requires After(cfg, history).Some?
    ensures StageOk(After(cfg, history).value, c)
    decreases |history|
  {
    if history != [] {
      var before, last := history[..|history| - 1], history[|history| - 1];
      ReachableStage(cfg, before, c);
      ReachableInv(cfg, before);
      StageAfter(cfg, After(cfg, before).value, last, c);
    }
  }

  lemma StageAfter(cfg: Q.Config, s: System, e: Event, c: Q.Claim)
    requires Inv(cfg, s) && Enabled(s, e) && StageOk(s, c)
    ensures StageOk(Step(cfg, s, e), c)
  {
    match e
    case Environment(q) => HiringKeepsStage(cfg, s, q, c);
    case LoadStep(d, load, heard) => LoadKeepsStage(cfg, s, d, load, heard, c);
    case WorkStep(d, work, now) =>
      if d == c {
        OwnKeepsStage(cfg, s, c, work, now);
      } else {
        OthersKeepStage(cfg, s, d, work, now, c);
      }
  }

  /** A reported failure names the stage that the worker had recorded last, or none when it had not begun; it puts the
      run back below the limit and fails it as out of attempts at the limit. */
  lemma ReportTellsTheStage(cfg: Q.Config, history: seq<Event>, s: System, c: Q.Claim, now: Instant)
    requires After(cfg, history) == Some(s) && Enabled(s, WorkStep(c, Report, now)) && Q.Owns(s.world.queue, c)
    ensures var t := Worked(cfg, s, c, Report, now); var q := t.world.queue;
      && t.phases[c] == Lost && c.run in q.runs && (c.run, c.attempt) in q.attempts
      && q.attempts[(c.run, c.attempt)].stage == s.phases[c].stage
      && (s.phases[c].stage == Q.Orchestration || s.world.queue.runs[c.run].stage == Some(s.phases[c].stage))
      && q.runs[c.run].status == (if c.attempt < cfg.maxAttempts then Q.Retryable else Q.Failed)
      && q.runs[c.run].error == Some(if c.attempt < cfg.maxAttempts then s.phases[c].error else Q.MaxAttemptsExceeded)
  {
    ReachableInv(cfg, history);
    StageOfBroken(cfg, history, s, c);
    ReportReleases(cfg, s, c, now);
    ReleaseWrites(cfg, s.world.queue, c, s.phases[c].error, s.phases[c].stage, now);
  }

  lemma StageOfBroken(cfg: Q.Config, history: seq<Event>, s: System, c: Q.Claim)
    requires After(cfg, history) == Some(s) && c in s.phases && s.phases[c].Broken? && Q.Owns(s.world.queue, c)
    ensures s.phases[c].stage == Q.Orchestration || s.world.queue.runs[c.run].stage == Some(s.phases[c].stage)
  {
    ReachableStage(cfg, history, c);
  }

  lemma ReportReleases(cfg: Q.Config, s: System, c: Q.Claim, now: Instant)
    requires Enabled(s, WorkStep(c, Report, now))
    ensures var t := Worked(cfg, s, c, Report, now);
      && t.world.queue == Q.ReleaseRetryable(s.world.queue, cfg, c, s.phases[c].error, Some(s.phases[c].stage), now).0
      && t.phases[c] == Lost
  {
  }

  lemma ReleaseWrites(cfg: Q.Config, q: Q.Queue, c: Q.Claim, error: Q.ErrorCode, stage: Q.Stage, now: Instant)
    requires Runs.Inv(cfg, q) && c in q.issued && Q.Owns(q, c)
    ensures var t := Q.ReleaseRetryable(q, cfg, c, error, Some(stage), now).0;
      && c.run in t.runs && (c.run, c.attempt) in t.attempts && t.attempts[(c.run, c.attempt)].stage == stage
      && t.runs[c.run].status == (if c.attempt < cfg.maxAttempts then Q.Retryable else Q.Failed)
      && t.runs[c.run].error == Some(if c.attempt < cfg.maxAttempts then error else Q.MaxAttemptsExceeded)
  {
    Runs.OwnedClaim(cfg, q, c);
  }
}
