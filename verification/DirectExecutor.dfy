/** One worker's run of the direct executor on the two stores, step by step. `aborted` is what the renewal
    thread has signalled at each of the ownership tests, `clock` what the wall clock says at each step. */
module DirectExecutor {
  import opened Wrappers
  import opened Instants
  import Q = ReportingQueue
  import QueueStore
  import L = Ledger
  import R = Rollups
  import RollupStore

  datatype Failure = LeaseLost | StageFailed(stage: Q.Stage, reason: R.Reason)

  datatype Metrics = Metrics(cutoff: int, rowsTransformed: nat, rowsLoaded: nat)

  /** Deployment: the cutover flag, the pipeline version and the retention checkpoint. */
  datatype Setting = Setting(cutover: bool, version: int, pruned: Option<Instant>, floor: Option<Instant>)

  /** `_begin_stage`: the stage is recorded by compare-and-swap, or the lease is lost. */
  method BeginStage(queue: QueueStore.Store, c: Q.Claim, stage: Q.Stage, aborted: bool, now: Instant) returns (kept: bool)
    modifies queue
    ensures kept <==> !aborted && old(queue.Owned(c))
    ensures queue.Model() == if kept then Q.RecordStage(old(queue.Model()), c, stage, now).0
                             else old(queue.Model()).(clock := queue.clock)
  {
    if aborted || !queue.Owned(c) {
      return false;
    }
    kept := queue.RecordStage(c, stage, now);
  }

  /** `_complete_stage`. */
  method CompleteStage(queue: QueueStore.Store, c: Q.Claim, aborted: bool) returns (kept: bool)
    ensures kept <==> !aborted && queue.Owned(c)
  {
    kept := !aborted && queue.Owned(c);
  }

  /** The window, or the reason there is none. */
  function Window(state: R.RollupState, lastReset: Option<Instant>, c: Q.Claim, s: Setting, now: Instant)
    : Result<R.Window, R.Reason>
  {
    R.CaptureWindow(state.lastCutoff, lastReset, s.floor, c.week, now)
  }

  /** What loading the window of `t` leaves: a publication, or an activation that succeeds. */
  ghost predicate IsLoaded(t: R.Tables, u: R.Tables, w: R.Window, source: L.Ledger, l: L.Ledger, s: Setting, now: Instant) {
    var rows := R.HourlyQuery(source, w.start, w.end);
    if s.cutover then R.Activate(l, s.pruned, t, w, Some(rows), s.version, now) == Ok(u)
    else u == R.Publish(t, w, rows, s.version)
  }

  /** None of the six ownership tests found the run aborted. */
  predicate NeverAborted(aborted: nat -> bool) {
    !aborted(0) && !aborted(1) && !aborted(2) && !aborted(3) && !aborted(4) && !aborted(5)
  }

  /** Why a stage fails: the window is refused, or the activation is. */
  ghost predicate StageRefused(f: Failure, t: R.Tables, window: Result<R.Window, R.Reason>, source: L.Ledger, l: L.Ledger,
                               s: Setting, now: Instant)
    requires f.StageFailed?
  {
    match window
    case Err(reason) => f == StageFailed(Q.Extract, reason)
    case Ok(w) => f.stage == Q.Load && s.cutover && NotActivated(t, w, R.HourlyQuery(source, w.start, w.end), l, s, now, f.reason)
  }

  ghost predicate NotActivated(t: R.Tables, w: R.Window, rows: map<R.Key, R.Totals>, l: L.Ledger, s: Setting, now: Instant,
                               reason: R.Reason)
  {
    R.Activate(l, s.pruned, t, w, Some(rows), s.version, now) == Err(reason)
  }

  /** `direct_sql_executor`. `source` is the ledger the transform stage reads, `l` the ledger at activation. */
  method DirectSqlExecutor(queue: QueueStore.Store, tables: RollupStore.Store, c: Q.Claim, s: Setting,
                           source: L.Ledger, l: L.Ledger, aborted: nat -> bool, clock: nat -> Instant)
    returns (r: Result<Metrics, Failure>)
    modifies queue, tables
    ensures queue.Owned(c) <==> old(queue.Owned(c))
    ensures !old(queue.Owned(c)) || aborted(0) ==>
      r == Err(LeaseLost) && tables.Model() == old(tables.Model()) && queue.runs == old(queue.runs)
    ensures r.Ok? ==>
      && old(queue.Owned(c)) && NeverAborted(aborted)
      && Window(old(tables.state), old(queue.lastReset), c, s, clock(1)).Ok?
      && var w := Window(old(tables.state), old(queue.lastReset), c, s, clock(1)).value;
         && r.value.cutoff == w.cutoff && r.value.rowsTransformed == |R.HourlyQuery(source, w.start, w.end)|
         && IsLoaded(old(tables.Model()), tables.Model(), w, source, l, s, clock(4))
         && queue.runs[c.run] == old(queue.runs)[c.run].(stage := Some(Q.Load))
    ensures r.Err? && r.error.StageFailed? ==>
      && tables.Model() == old(tables.Model())
      && queue.runs[c.run] == old(queue.runs)[c.run].(stage := Some(r.error.stage))
      && StageRefused(r.error, old(tables.Model()), Window(old(tables.state), old(queue.lastReset), c, s, clock(1)),
                      source, l, s, clock(4))
    ensures tables.Model() != old(tables.Model()) ==>
      && Window(old(tables.state), old(queue.lastReset), c, s, clock(1)).Ok?
      && IsLoaded(old(tables.Model()), tables.Model(),
                  Window(old(tables.state), old(queue.lastReset), c, s, clock(1)).value, source, l, s, clock(4))
  {
    var kept := BeginStage(queue, c, Q.Extract, aborted(0), clock(0));
    if !kept {
      return Err(LeaseLost);
    }
    var window := Window(tables.state, queue.lastReset, c, s, clock(1));
    if window.Err? {
      return Err(StageFailed(Q.Extract, window.error));
    }
    kept := CompleteStage(queue, c, aborted(1));
    if !kept {
      return Err(LeaseLost);
    }
    kept := BeginStage(queue, c, Q.Transform, aborted(2), clock(2));
    if !kept {
      return Err(LeaseLost);
    }
    var rows := R.HourlyQuery(source, window.value.start, window.value.end);
    kept := CompleteStage(queue, c, aborted(3));
    if !kept {
      return Err(LeaseLost);
    }
    kept := BeginStage(queue, c, Q.Load, aborted(4), clock(3));
    if !kept {
      return Err(LeaseLost);
    }
    var written := Load(queue, tables, c, s, window.value, rows, l, clock(4));
    if written.Err? {
      return Err(StageFailed(Q.Load, written.error));
    }
    kept := CompleteStage(queue, c, aborted(5));
    if !kept {
      return Err(LeaseLost);
    }
    return Ok(Metrics(window.value.cutoff, |rows|, written.value));
  }

  /** The load stage: activation when the cutover is on, plain publication otherwise. */
  method Load(queue: QueueStore.Store, tables: RollupStore.Store, c: Q.Claim, s: Setting, w: R.Window,
              rows: map<R.Key, R.Totals>, l: L.Ledger, now: Instant) returns (written: Result<nat, R.Reason>)
    requires queue.Owned(c)
    modifies tables
    ensures written.Err? ==>
      tables.Model() == old(tables.Model()) && s.cutover && NotActivated(old(tables.Model()), w, rows, l, s, now, written.error)
    ensures written.Ok? ==>
      if s.cutover then R.Activate(l, s.pruned, old(tables.Model()), w, Some(rows), s.version, now) == Ok(tables.Model())
      else tables.Model() == R.Publish(old(tables.Model()), w, rows, s.version)
  {
    if s.cutover {
      written := tables.ActivateReconciledRollups(queue.Owned(c), l, s.pruned, w, Some(rows), s.version, now);
    } else {
      written := tables.PublishHourlyRollups(queue.Owned(c), w, rows, s.version);
    }
  }
}
