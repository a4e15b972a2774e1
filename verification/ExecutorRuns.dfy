/** Workers as programs: extract, transform, load and finalize in order, each step one transaction, with the
    queue, other workers and sweeps interleaved anywhere between the steps. */
module ExecutorRuns {
  import opened Wrappers
  import opened Instants
  import Q = ReportingQueue
  import Runs = QueueRuns
  import R = Rollups
  import P = Publication

  /** Where the worker holding a claim is. `Broken` carries what it will report; `Lost` reports nothing. */
  datatype Phase = Ready | Extracting | Transforming | Loading | Loaded | Broken(error: Q.ErrorCode, stage: Q.Stage) | Lost

  /** `loads` remembers the window of every publication that a claim committed. */
  datatype System = System(world: P.World, phases: map<Q.Claim, Phase>, loads: map<Q.Claim, R.Window>)

  const START := System(P.START, map[], map[])

  /** One transaction of a worker's program, the load itself excepted. `aborted` is what the renewal thread
      has signalled by then; `Fault` is any stage's failure, a busy advisory lock included. */
  datatype Work =
    | Begin(stage: Q.Stage, aborted: bool)
    | CheckOwned(aborted: bool)
    | Capture(floor: Option<Instant>)
    | Fault(error: Q.ErrorCode)
    | Conclude
    | Report

  /** `heard` is false when the connection broke after the commit: the worker will try again. */
  datatype Event =
    | Environment(e: Runs.Event)
    | LoadStep(c: Q.Claim, load: P.Event, heard: bool)
    | WorkStep(c: Q.Claim, work: Work, now: Instant)

  /** What happens without a worker's program: requests, claims, renewals, sweeps, resets. */
  predicate FromOutside(e: Runs.Event) {
    e.EnqueueRun? || e.Tick? || e.Beat? || e.Sweep? || e.ResetLedger?
  }

  /** The order of the stages; a stage begins only after the one before it has produced its result. */
  predicate MayBegin(s: System, c: Q.Claim, stage: Q.Stage)
    requires c in s.phases
  {
    match stage
    case Extract => s.phases[c] == Ready
    case Transform => s.phases[c] == Extracting && c in s.world.windows
    case Load => s.phases[c] == Transforming
    case _ => false
  }

  predicate LoadOf(c: Q.Claim, load: P.Event) {
    (load.Publish? && load.c == c) || (load.Activate? && load.c == c && load.candidate.Some?)
  }

  predicate Allowed(s: System, c: Q.Claim, work: Work)
    requires c in s.phases
  {
    match work
    case Begin(stage, _) => MayBegin(s, c, stage)
    case CheckOwned(_) => true
    case Capture(_) => s.phases[c] == Extracting
    case Fault(_) => s.phases[c] in {Ready, Extracting, Transforming, Loading}
    case Conclude => s.phases[c] == Loaded
    case Report => s.phases[c].Broken?
  }

  ghost predicate Enabled(s: System, e: Event) {
    match e
    case Environment(q) => FromOutside(q) && Runs.Enabled(s.world.queue, q)
    case LoadStep(c, load, _) => c in s.phases && s.phases[c] == Loading && LoadOf(c, load) && P.Enabled(s.world, load)
    case WorkStep(c, work, now) =>
      c in s.phases && c in s.world.queue.issued && s.world.queue.clock <= now && Allowed(s, c, work)
  }

  function PhaseOf(stage: Q.Stage): Phase {
    match stage
    case Extract => Extracting
    case Transform => Transforming
    case Load => Loading
    case Orchestration => Lost
  }

  function StageOf(p: Phase): Q.Stage {
    match p
    case Extracting => Q.Extract
    case Transforming => Q.Transform
    case Loading => Q.Load
    case _ => Q.Orchestration
  }

  /** Newly drawn claims start a worker. */
  function Hired(s: System, world: P.World): System {
    s.(world := world,
       phases := (map c | c in world.queue.issued :: if c in s.phases then s.phases[c] else Ready))
  }

  ghost function Loads(s: System, c: Q.Claim, load: P.Event): bool
    requires c in s.world.windows && LoadOf(c, load)
  {
    && Q.Owns(s.world.queue, c)
    && (load.Activate? ==>
          R.Activate(load.l, load.pruned, s.world.tables, s.world.windows[c],
                     P.CandidateRows(s.world.windows[c], load.candidate), load.version, load.now).Ok?)
  }

  ghost function Worked(cfg: Q.Config, s: System, c: Q.Claim, work: Work, now: Instant): System
    requires Enabled(s, WorkStep(c, work, now))
  {
    match work
    case Begin(stage, aborted) =>
      if aborted || !Q.Owns(s.world.queue, c) then System(P.Tick(s.world, now), s.phases[c := Lost], s.loads)
      else System(P.Step(cfg, s.world, P.OfQueue(Runs.Advance(c, stage, now))), s.phases[c := PhaseOf(stage)], s.loads)
    case CheckOwned(aborted) =>
      System(P.Tick(s.world, now), if aborted || !Q.Owns(s.world.queue, c) then s.phases[c := Lost] else s.phases, s.loads)
    case Capture(floor) =>
      var world := P.Captured(s.world, c, floor, now);
      if R.CaptureWindow(s.world.tables.state.lastCutoff, s.world.queue.lastReset, floor, c.week, now).Ok?
      then s.(world := world)
      else System(world, s.phases[c := Broken(Q.ExtractFailed, Q.Extract)], s.loads)
    case Fault(error) => System(P.Tick(s.world, now), s.phases[c := Broken(error, StageOf(s.phases[c]))], s.loads)
    case Conclude =>
      System(P.Step(cfg, s.world, P.OfQueue(Runs.Succeed(c, now))), s.phases[c := Lost], s.loads)
    case Report =>
      System(P.Step(cfg, s.world, P.OfQueue(Runs.Release(c, s.phases[c].error, Some(s.phases[c].stage), now))),
             s.phases[c := Lost], s.loads)
  }

  ghost function LoadedBy(cfg: Q.Config, s: System, c: Q.Claim, load: P.Event, heard: bool): System
    requires Enabled(s, LoadStep(c, load, heard))
  {
    var world := P.Step(cfg, s.world, load);
    if Loads(s, c, load)
    then System(world, if heard then s.phases[c := Loaded] else s.phases, s.loads[c := s.world.windows[c]])
    else if !heard then s.(world := world)
    else if !Q.Owns(s.world.queue, c) then System(world, s.phases[c := Lost], s.loads)
    else System(world, s.phases[c := Broken(Q.LoadFailed, Q.Load)], s.loads)
  }

  ghost function Step(cfg: Q.Config, s: System, e: Event): System
    requires Enabled(s, e)
  {
    match e
    case Environment(q) => Hired(s, P.Step(cfg, s.world, P.OfQueue(q)))
    case LoadStep(c, load, heard) => LoadedBy(cfg, s, c, load, heard)
    case WorkStep(c, work, now) => Worked(cfg, s, c, work, now)
  }

  ghost function After(cfg: Q.Config, history: seq<Event>): Option<System> {
    if history == [] then Some(START)
    else
      match After(cfg, history[..|history| - 1])
      case None => None
      case Some(s) => if Enabled(s, history[|history| - 1]) then Some(Step(cfg, s, history[|history| - 1])) else None
  }

  // ---------------------------------------------------------------- the invariant

  /** A success on record belongs to a claim that has published. */
  ghost predicate SuccessesLoaded(q: Q.Queue, loads: map<Q.Claim, R.Window>) {
    forall id, a :: (id, a) in q.attempts && q.attempts[(id, a)].outcome == Q.SucceededOutcome ==> HasLoad(loads, id, a)
  }

  ghost predicate HasLoad(loads: map<Q.Claim, R.Window>, id: Q.RunId, a: nat) {
    exists c :: c in loads && c.run == id && c.attempt == a
  }

  ghost predicate Inv(cfg: Q.Config, s: System) {
    && P.Inv(cfg, s.world)
    && (forall c | c in s.phases :: s.phases[c] == Loaded ==> c in s.loads)
    && (forall c | c in s.loads :: s.loads[c] in s.world.published)
    && SuccessesLoaded(s.world.queue, s.loads)
  }

  /** No other queue event writes a success. */
  lemma OnlySucceedSucceeds(cfg: Q.Config, q: Q.Queue, e: Runs.Event, id: Q.RunId, a: nat)
    requires Runs.Inv(cfg, q) && Runs.Enabled(q, e) && !e.Succeed?
    requires (id, a) in Runs.Step(q, cfg, e).attempts && Runs.Step(q, cfg, e).attempts[(id, a)].outcome == Q.SucceededOutcome
    ensures (id, a) in q.attempts && q.attempts[(id, a)].outcome == Q.SucceededOutcome
  {
    if e.Sweep? {
      forall i | 0 <= i < |e.stale| ensures e.stale[i] in q.runs { assert e.stale[i] in e.stale; }
      Runs.SweepIsShort(cfg, q, e.stale, e.now);
    }
  }

  lemma QueueEventKeepsSuccesses(cfg: Q.Config, q: Q.Queue, e: Runs.Event, loads: map<Q.Claim, R.Window>)
    requires Runs.Inv(cfg, q) && Runs.Enabled(q, e) && SuccessesLoaded(q, loads)
    requires e.Succeed? ==> e.c in loads
    ensures SuccessesLoaded(Runs.Step(q, cfg, e), loads)
  {
    forall id, a | (id, a) in Runs.Step(q, cfg, e).attempts && Runs.Step(q, cfg, e).attempts[(id, a)].outcome == Q.SucceededOutcome
      ensures HasLoad(loads, id, a)
    {
      if e.Succeed? {
        SuccessIsTheClaims(cfg, q, e.c, e.now, id, a);
      } else {
        OnlySucceedSucceeds(cfg, q, e, id, a);
      }
    }
  }

  lemma SuccessIsTheClaims(cfg: Q.Config, q: Q.Queue, c: Q.Claim, now: Instant, id: Q.RunId, a: nat)
    requires (id, a) in Q.FinalizeSuccess(q, c, now).0.attempts
    ensures (id, a) == (c.run, c.attempt) || ((id, a) in q.attempts && Q.FinalizeSuccess(q, c, now).0.attempts[(id, a)] == q.attempts[(id, a)])
  {
  }

  lemma MoreLoads(q: Q.Queue, loads: map<Q.Claim, R.Window>, c: Q.Claim, window: R.Window)
    requires SuccessesLoaded(q, loads)
    ensures SuccessesLoaded(q, loads[c := window])
  {
  }

  lemma LoadTakesEffect(cfg: Q.Config, s: System, c: Q.Claim, load: P.Event)
    requires P.Enabled(s.world, load) && LoadOf(c, load)
    ensures P.Step(cfg, s.world, load).published == if Loads(s, c, load) then s.world.published + [s.world.windows[c]] else s.world.published
    ensures P.Step(cfg, s.world, load).queue.attempts == s.world.queue.attempts
  {
  }

  lemma LoadKeepsInv(cfg: Q.Config, s: System, c: Q.Claim, load: P.Event, heard: bool)
    requires Inv(cfg, s) && Enabled(s, LoadStep(c, load, heard))
    ensures Inv(cfg, LoadedBy(cfg, s, c, load, heard))
  {
    P.StepKeepsInv(cfg, s.world, load);
    LoadTakesEffect(cfg, s, c, load);
    MoreLoads(s.world.queue, s.loads, c, s.world.windows[c]);
    var t := LoadedBy(cfg, s, c, load, heard);
    forall d | d in t.loads ensures t.loads[d] in t.world.published {
      if Loads(s, c, load) {
        assert t.world.published[|s.world.published|] == s.world.windows[c];
        assert d != c ==> s.loads[d] in s.world.published;
      }
    }
  }

  lemma QueueStepKeepsInv(cfg: Q.Config, s: System, e: Runs.Event)
    requires Inv(cfg, s) && Runs.Enabled(s.world.queue, e) && (e.Succeed? ==> e.c in s.loads)
    ensures Inv(cfg, s.(world := P.Step(cfg, s.world, P.OfQueue(e))))
  {
    P.StepKeepsInv(cfg, s.world, P.OfQueue(e));
    QueueEventKeepsSuccesses(cfg, s.world.queue, e, s.loads);
  }

  lemma TickKeepsInv(cfg: Q.Config, s: System, now: Instant)
    requires Inv(cfg, s) && s.world.queue.clock <= now
    ensures Inv(cfg, s.(world := P.Tick(s.world, now)))
  {
  }

  lemma CaptureKeepsInv(cfg: Q.Config, s: System, c: Q.Claim, floor: Option<Instant>, now: Instant)
    requires Inv(cfg, s) && P.Enabled(s.world, P.Capture(c, floor, now))
    ensures Inv(cfg, s.(world := P.Captured(s.world, c, floor, now)))
  {
    P.CaptureKeepsInv(cfg, s.world, c, floor, now);
  }

  /** A step that changes the world as one of its own steps does, and declares nobody loaded. */
  lemma WorldThenPhases(cfg: Q.Config, s: System, t: System)
    requires Inv(cfg, s.(world := t.world)) && t.loads == s.loads
    requires forall c | c in t.phases :: t.phases[c] == Loaded ==> c in s.phases && s.phases[c] == Loaded
    ensures Inv(cfg, t)
  {
  }

  lemma BeginKeepsInv(cfg: Q.Config, s: System, c: Q.Claim, stage: Q.Stage, aborted: bool, now: Instant)
    requires Inv(cfg, s) && Enabled(s, WorkStep(c, Begin(stage, aborted), now))
    ensures Inv(cfg, Worked(cfg, s, c, Begin(stage, aborted), now))
  {
    if aborted || !Q.Owns(s.world.queue, c) {
      TickKeepsInv(cfg, s, now);
    } else {
      QueueStepKeepsInv(cfg, s, Runs.Advance(c, stage, now));
    }
    WorldThenPhases(cfg, s, Worked(cfg, s, c, Begin(stage, aborted), now));
  }

  lemma CaptureWorkKeepsInv(cfg: Q.Config, s: System, c: Q.Claim, floor: Option<Instant>, now: Instant, world: P.World)
    requires Inv(cfg, s) && Enabled(s, WorkStep(c, Capture(floor), now))
    requires world == P.Captured(s.world, c, floor, now)
    ensures Inv(cfg, s.(world := world))
    ensures Inv(cfg, System(world, s.phases[c := Broken(Q.ExtractFailed, Q.Extract)], s.loads))
  {
    CaptureKeepsInv(cfg, s, c, floor, now);
    WorldThenPhases(cfg, s, System(world, s.phases[c := Broken(Q.ExtractFailed, Q.Extract)], s.loads));
  }

  lemma FinalWorkKeepsInv(cfg: Q.Config, s: System, c: Q.Claim, work: Work, now: Instant)
    requires Inv(cfg, s) && Enabled(s, WorkStep(c, work, now)) && (work.Conclude? || work.Report?)
    ensures Inv(cfg, Worked(cfg, s, c, work, now))
  {
    if work.Conclude? {
      QueueStepKeepsInv(cfg, s, Runs.Succeed(c, now));
    } else {
      QueueStepKeepsInv(cfg, s, Runs.Release(c, s.phases[c].error, Some(s.phases[c].stage), now));
    }
    WorldThenPhases(cfg, s, Worked(cfg, s, c, work, now));
  }

  lemma WorkKeepsInv(cfg: Q.Config, s: System, c: Q.Claim, work: Work, now: Instant)
    requires Inv(cfg, s) && Enabled(s, WorkStep(c, work, now))
    ensures Inv(cfg, Worked(cfg, s, c, work, now))
  {
    match work {
      case Begin(stage, aborted) => BeginKeepsInv(cfg, s, c, stage, aborted, now);
      case Capture(floor) => CaptureWorkKeepsInv(cfg, s, c, floor, now, P.Captured(s.world, c, floor, now));
      case CheckOwned(_) | Fault(_) =>
        TickKeepsInv(cfg, s, now);
        WorldThenPhases(cfg, s, Worked(cfg, s, c, work, now));
      case _ => FinalWorkKeepsInv(cfg, s, c, work, now);
    }
  }

  lemma StepKeepsInv(cfg: Q.Config, s: System, e: Event)
    requires Inv(cfg, s) && Enabled(s, e)
    ensures Inv(cfg, Step(cfg, s, e))
  {
    match e
    case LoadStep(c, load, heard) => LoadKeepsInv(cfg, s, c, load, heard);
    case WorkStep(c, work, now) => WorkKeepsInv(cfg, s, c, work, now);
    case Environment(q) =>
      QueueStepKeepsInv(cfg, s, q);
      WorldThenPhases(cfg, s, Hired(s, P.Step(cfg, s.world, P.OfQueue(q))));
  }

  lemma {:induction false} ReachableInv(cfg: Q.Config, history: seq<Event>)
    requires After(cfg, history).Some?
    ensures Inv(cfg, After(cfg, history).value)
    decreases |history|
  {
    if history != [] {
      ReachableInv(cfg, history[..|history| - 1]);
      StepKeepsInv(cfg, After(cfg, history[..|history| - 1]).value, history[|history| - 1]);
    }
  }

  /** No run is ever recorded as succeeded unless the very attempt that succeeded has published its window:
      losing the lease, a failed capture or a refused activation in between all prevent it. */
  lemma SucceededRunsHavePublished(cfg: Q.Config, history: seq<Event>, id: Q.RunId, a: nat)
    requires After(cfg, history).Some?
    requires var q := After(cfg, history).value.world.queue;
      (id, a) in q.attempts && q.attempts[(id, a)].outcome == Q.SucceededOutcome
    ensures var s := After(cfg, history).value;
      exists c :: c in s.loads && c.run == id && c.attempt == a && s.loads[c] in s.world.published
  {
    ReachableInv(cfg, history);
    var s := After(cfg, history).value;
    assert HasLoad(s.loads, id, a);
  }

  /** Publishing again what was published, as a worker does after a broken connection, changes nothing. */
  lemma RepublishingIsIdempotent(t: R.Tables, w: R.Window, rows: map<R.Key, R.Totals>, version: int)
    ensures R.Publish(R.Publish(t, w, rows, version), w, rows, version) == R.Publish(t, w, rows, version)
  {
  }

  // ---------------------------------------------------------------- fencing

  predicate IsBy(e: Event, c: Q.Claim) {
    (e.LoadStep? || e.WorkStep?) && e.c == c
  }

  /** The steps of the program of a lost claim touch nothing outside the worker. */
  ghost predicate Harmless(s: System, t: System) {
    && t.world.queue == s.world.queue.(clock := t.world.queue.clock)
    && t.world.tables == s.world.tables && t.world.published == s.world.published && t.loads == s.loads
  }

  lemma DeadWorkIsHarmless(cfg: Q.Config, s: System, c: Q.Claim, work: Work, now: Instant)
    requires Inv(cfg, s) && Enabled(s, WorkStep(c, work, now)) && !Q.Owns(s.world.queue, c)
    ensures Harmless(s, Worked(cfg, s, c, work, now))
  {
    if work.Conclude? {
      P.DeadClaimStaysDead(cfg, s.world, P.OfQueue(Runs.Succeed(c, now)), c);
    } else if work.Report? {
      P.DeadClaimStaysDead(cfg, s.world, P.OfQueue(Runs.Release(c, s.phases[c].error, Some(s.phases[c].stage), now)), c);
    }
  }

  lemma DeadWorkerIsHarmless(cfg: Q.Config, s: System, e: Event, c: Q.Claim)
    requires Inv(cfg, s) && Enabled(s, e) && c in s.world.queue.issued && !Q.Owns(s.world.queue, c)
    requires IsBy(e, c)
    ensures Harmless(s, Step(cfg, s, e))
  {
    match e
    case LoadStep(_, load, _) => P.DeadClaimStaysDead(cfg, s.world, load, c);
    case WorkStep(_, work, now) => DeadWorkIsHarmless(cfg, s, c, work, now);
  }

  lemma DeadClaimStaysDead(cfg: Q.Config, s: System, e: Event, c: Q.Claim)
    requires Inv(cfg, s) && Enabled(s, e) && c in s.world.queue.issued && !Q.Owns(s.world.queue, c)
    ensures c in Step(cfg, s, e).world.queue.issued && !Q.Owns(Step(cfg, s, e).world.queue, c)
  {
    match e
    case Environment(q) => P.DeadClaimStaysDead(cfg, s.world, P.OfQueue(q), c);
    case LoadStep(_, load, _) => P.DeadClaimStaysDead(cfg, s.world, load, c);
    case WorkStep(d, work, now) => DeadClaimStaysDeadAtWork(cfg, s, d, work, now, c);
  }

  lemma DeadClaimStaysDeadAtWork(cfg: Q.Config, s: System, d: Q.Claim, work: Work, now: Instant, c: Q.Claim)
    requires Inv(cfg, s) && Enabled(s, WorkStep(d, work, now)) && c in s.world.queue.issued && !Q.Owns(s.world.queue, c)
    ensures c in Worked(cfg, s, d, work, now).world.queue.issued && !Q.Owns(Worked(cfg, s, d, work, now).world.queue, c)
  {
    match work
    case Begin(stage, _) => P.DeadClaimStaysDead(cfg, s.world, P.OfQueue(Runs.Advance(d, stage, now)), c);
    case Conclude => P.DeadClaimStaysDead(cfg, s.world, P.OfQueue(Runs.Succeed(d, now)), c);
    case Report =>
      P.DeadClaimStaysDead(cfg, s.world, P.OfQueue(Runs.Release(d, s.phases[d].error, Some(s.phases[d].stage), now)), c);
    case _ =>
  }

  /** A worker that has lost its claim runs on without effect: in every later state its program's next step
      leaves the queue, the tables and the record of publications as they are. */
  lemma {:induction false} ZombiesAreHarmless(cfg: Q.Config, history: seq<Event>, n: nat, s: System, c: Q.Claim)
    requires After(cfg, history).Some? && n <= |history|
    requires After(cfg, history[..n]) == Some(s) && c in s.world.queue.issued && !Q.Owns(s.world.queue, c)
    ensures var t := After(cfg, history).value;
      && c in t.world.queue.issued && !Q.Owns(t.world.queue, c)
      && forall e :: IsBy(e, c) && Enabled(t, e) ==> Harmless(t, Step(cfg, t, e))
    decreases |history|
  {
    ReachableInv(cfg, history);
    var t := After(cfg, history).value;
    if n == |history| {
      assert history[..n] == history;
    } else {
      var before := history[..|history| - 1];
      assert history[..n] == before[..n];
      ZombiesAreHarmless(cfg, before, n, s, c);
      ReachableInv(cfg, before);
      DeadClaimStaysDead(cfg, After(cfg, before).value, history[|history| - 1], c);
    }
    forall e | IsBy(e, c) && Enabled(t, e) ensures Harmless(t, Step(cfg, t, e)) {
      DeadWorkerIsHarmless(cfg, t, e, c);
    }
  }
}
