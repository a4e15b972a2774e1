/** Workers, queue and rollup tables together: any interleaving of queue transactions with captures,
    publications and activations by workers holding live or dead claims. */
module Publication {
  import opened Wrappers
  import opened Instants
  import Q = ReportingQueue
  import Runs = QueueRuns
  import Progress = QueueProgress
  import L = Ledger
  import W = WeeklyKpis
  import R = Rollups
  import A = Activation
  import V = VerifiedRange

  /** `windows` is what each worker remembers of its own capture; `published` lists the windows of all
      publications that took effect, in order. */
  datatype World = World(queue: Q.Queue, windows: map<Q.Claim, R.Window>, tables: R.Tables, published: seq<R.Window>)

  /** `source` and `candidate` are the ledger at the moment the worker computed its rows, `l` the ledger at activation. */
  datatype Event =
    | OfQueue(e: Runs.Event)
    | Capture(c: Q.Claim, floor: Option<Instant>, now: Instant)
    | Publish(c: Q.Claim, source: L.Ledger, version: int, now: Instant)
    | Activate(c: Q.Claim, candidate: Option<L.Ledger>, version: int, l: L.Ledger, pruned: Option<Instant>, now: Instant)

  const START := World(Q.EMPTY, map[], R.Tables(map[], map[], R.RollupState(None, None, None, None, None)), [])

  /** A worker computes and publishes only after its own capture; it may do so with a claim it has lost. */
  ghost predicate Enabled(w: World, e: Event) {
    match e
    case OfQueue(q) => Runs.Enabled(w.queue, q)
    case Capture(c, _, now) => w.queue.clock <= now && c in w.queue.issued
    case _ => w.queue.clock <= e.now && e.c in w.queue.issued && e.c in w.windows
  }

  function Tick(w: World, now: Instant): World {
    w.(queue := w.queue.(clock := now))
  }

  function Captured(w: World, c: Q.Claim, floor: Option<Instant>, now: Instant): World {
    match R.CaptureWindow(w.tables.state.lastCutoff, w.queue.lastReset, floor, c.week, now)
    case Ok(window) => Tick(w, now).(windows := w.windows[c := window])
    case Err(_) => Tick(w, now)
  }

  function RowsOf(window: R.Window, source: L.Ledger): map<R.Key, R.Totals> {
    R.HourlyQuery(source, window.start, window.end)
  }

  function CandidateRows(window: R.Window, source: Option<L.Ledger>): Option<map<R.Key, R.Totals>> {
    if source.Some? then Some(RowsOf(window, source.value)) else None
  }

  function PublishedBy(w: World, c: Q.Claim, source: L.Ledger, version: int, now: Instant): World
    requires c in w.windows
  {
    if !Q.Owns(w.queue, c) then Tick(w, now)
    else
      var window := w.windows[c];
      Tick(w, now).(tables := R.Publish(w.tables, window, RowsOf(window, source), version),
                    published := w.published + [window])
  }

  ghost function ActivatedBy(w: World, c: Q.Claim, source: Option<L.Ledger>, version: int, l: L.Ledger,
                             pruned: Option<Instant>, now: Instant): World
    requires c in w.windows
  {
    if !Q.Owns(w.queue, c) then Tick(w, now)
    else
      var window := w.windows[c];
      match R.Activate(l, pruned, w.tables, window, CandidateRows(window, source), version, now)
      case Err(_) => Tick(w, now)
      case Ok(t) => Tick(w, now).(tables := t, published := if source.Some? then w.published + [window] else w.published)
  }

  ghost function Step(cfg: Q.Config, w: World, e: Event): World
    requires Enabled(w, e)
  {
    match e
    case OfQueue(q) => w.(queue := Runs.Step(w.queue, cfg, q))
    case Capture(c, floor, now) => Captured(w, c, floor, now)
    case Publish(c, source, version, now) => PublishedBy(w, c, source, version, now)
    case Activate(c, source, version, l, pruned, now) => ActivatedBy(w, c, source, version, l, pruned, now)
  }

  ghost function After(cfg: Q.Config, history: seq<Event>): Option<World> {
    if history == [] then Some(START)
    else
      match After(cfg, history[..|history| - 1])
      case None => None
      case Some(w) =>
        if Enabled(w, history[|history| - 1]) then Some(Step(cfg, w, history[|history| - 1])) else None
  }

  // ---------------------------------------------------------------- the invariant

  predicate AtMost(a: Option<int>, b: Option<int>) {
    a.Some? ==> b.Some? && a.value <= b.value
  }

  /** Stored cutoffs are bounded by the last published one. */
  ghost predicate TablesOk(t: R.Tables) {
    && AtMost(t.state.activeCutoff, t.state.lastCutoff)
    && (forall k | k in t.hourly :: AtMost(Some(t.hourly[k].cutoff), t.state.lastCutoff))
  }

  ghost predicate WindowOk(w: World, c: Q.Claim, window: R.Window) {
    && c in w.queue.issued
    && window.start < window.end <= window.cutoff <= HourOf(w.queue.clock)
    && (Q.Owns(w.queue, c) ==> AtMost(w.tables.state.lastCutoff, Some(window.cutoff)))
  }

  function LastCutoff(published: seq<R.Window>): Option<int> {
    if published == [] then None else Some(published[|published| - 1].cutoff)
  }

  ghost predicate Inv(cfg: Q.Config, w: World) {
    && Runs.Inv(cfg, w.queue)
    && TablesOk(w.tables)
    && AtMost(w.tables.state.lastCutoff, Some(HourOf(w.queue.clock)))
    && (forall c | c in w.windows :: WindowOk(w, c, w.windows[c]))
    && LastCutoff(w.published) == w.tables.state.lastCutoff
    && (forall i, j :: 0 <= i < j < |w.published| ==> w.published[i].cutoff <= w.published[j].cutoff)
  }

  lemma HoursGrow(a: Instant, b: Instant)
    requires a <= b
    ensures HourOf(a) <= HourOf(b)
  {
  }

  lemma TickKeepsInv(cfg: Q.Config, w: World, now: Instant)
    requires Inv(cfg, w) && w.queue.clock <= now
    ensures Inv(cfg, Tick(w, now))
  {
  }

  lemma QueueStepKeepsInv(cfg: Q.Config, w: World, e: Runs.Event)
    requires Inv(cfg, w) && Runs.Enabled(w.queue, e)
    ensures Inv(cfg, w.(queue := Runs.Step(w.queue, cfg, e)))
  {
    var next := w.(queue := Runs.Step(w.queue, cfg, e));
    Runs.StepKeepsInv(cfg, w.queue, e);
    ClockMoves(cfg, w.queue, e);
    HoursGrow(w.queue.clock, next.queue.clock);
    forall c | c in w.windows ensures WindowOk(next, c, w.windows[c]) {
      assert WindowOk(w, c, w.windows[c]);
      Progress.IssuedGrows(cfg, w.queue, e);
      if !Q.Owns(w.queue, c) {
        Progress.DeadClaimStaysDead(cfg, w.queue, e, c);
      }
    }
  }

  lemma ClockMoves(cfg: Q.Config, q: Q.Queue, e: Runs.Event)
    requires Runs.Inv(cfg, q) && Runs.Enabled(q, e)
    ensures Runs.Step(q, cfg, e).clock == e.now
  {
    if e.Sweep? {
      Runs.SweepIsShort(cfg, q, e.stale, e.now);
    }
  }

  /** The captured window ends at or before the completed hour of the clock. */
  lemma CapturedWindow(last: Option<int>, reset: Option<Instant>, floor: Option<Instant>, week: Option<int>, now: Instant)
    requires R.CaptureWindow(last, reset, floor, week, now).Ok?
    ensures var window := R.CaptureWindow(last, reset, floor, week, now).value;
      window.start < window.end <= window.cutoff == HourOf(now)
  {
  }

  lemma CaptureKeepsInv(cfg: Q.Config, w: World, c: Q.Claim, floor: Option<Instant>, now: Instant)
    requires Inv(cfg, w) && Enabled(w, Capture(c, floor, now))
    ensures Inv(cfg, Captured(w, c, floor, now))
  {
    TickKeepsInv(cfg, w, now);
    var t, next := Tick(w, now), Captured(w, c, floor, now);
    if R.CaptureWindow(w.tables.state.lastCutoff, w.queue.lastReset, floor, c.week, now).Ok? {
      CapturedWindow(w.tables.state.lastCutoff, w.queue.lastReset, floor, c.week, now);
      forall d | d in next.windows ensures WindowOk(next, d, next.windows[d]) {
        if d != c {
          assert WindowOk(t, d, t.windows[d]);
        }
      }
    }
  }

  /** Only one claim owns a row at a time. */
  lemma OneOwner(cfg: Q.Config, q: Q.Queue, c: Q.Claim, d: Q.Claim)
    requires Runs.Inv(cfg, q) && c in q.issued && d in q.issued && Q.Owns(q, c) && Q.Owns(q, d)
    ensures c == d
  {
  }

  /** The owner's cutoff is at least the last one, so `GREATEST` takes it, and no bucket is newer. */
  lemma OwnerPublishesForward(w: World, c: Q.Claim, rows: map<R.Key, R.Totals>, version: int)
    requires c in w.windows && Q.Owns(w.queue, c) && WindowOk(w, c, w.windows[c]) && TablesOk(w.tables)
    ensures var t := R.Publish(w.tables, w.windows[c], rows, version);
      && t.state.lastCutoff == Some(w.windows[c].cutoff)
      && TablesOk(t) && A.NoNewer(t.hourly, w.windows[c].cutoff)
    ensures A.NoNewer(w.tables.hourly, w.windows[c].cutoff)
  {
  }

  /** A step that replaces the tables by ones with the owner's cutoff as the last. */
  lemma PublishingKeepsInv(cfg: Q.Config, w: World, c: Q.Claim, t: R.Tables, now: Instant)
    requires Inv(cfg, w) && c in w.windows && Q.Owns(w.queue, c) && w.queue.clock <= now
    requires TablesOk(t) && t.state.lastCutoff == Some(w.windows[c].cutoff)
    ensures Inv(cfg, Tick(w, now).(tables := t, published := w.published + [w.windows[c]]))
  {
    TickKeepsInv(cfg, w, now);
    var mid, next := Tick(w, now), Tick(w, now).(tables := t, published := w.published + [w.windows[c]]);
    assert WindowOk(w, c, w.windows[c]);
    forall d | d in next.windows ensures WindowOk(next, d, next.windows[d]) {
      assert WindowOk(w, d, w.windows[d]) && WindowOk(mid, d, mid.windows[d]);
      if Q.Owns(next.queue, d) {
        OneOwner(cfg, w.queue, c, d);
      }
    }
    forall i, j | 0 <= i < j < |next.published| ensures next.published[i].cutoff <= next.published[j].cutoff {
      if j == |w.published| && w.published != [] {
        assert i < |w.published| - 1 ==> w.published[i].cutoff <= w.published[|w.published| - 1].cutoff;
      }
    }
  }

  /** What a successful activation does to the cutoffs. */
  lemma ActivationCutoffs(l: L.Ledger, pruned: Option<Instant>, t: R.Tables, w: R.Window,
                          rows: Option<map<R.Key, R.Totals>>, version: int, now: Instant)
    requires R.Activate(l, pruned, t, w, rows, version, now).Ok?
    ensures var a := R.Activate(l, pruned, t, w, rows, version, now).value; var p := R.Candidate(t, w, rows, version);
      && a.hourly == p.hourly && a.state.lastCutoff == p.state.lastCutoff
      && a.state.activeCutoff == Some(w.cutoff) && AtMost(Some(w.cutoff), p.state.lastCutoff)
  {
  }

  lemma ActivationKeepsInv(cfg: Q.Config, w: World, c: Q.Claim, source: Option<L.Ledger>, version: int, l: L.Ledger,
                           pruned: Option<Instant>, now: Instant)
    requires Inv(cfg, w) && Enabled(w, Activate(c, source, version, l, pruned, now))
    ensures Inv(cfg, ActivatedBy(w, c, source, version, l, pruned, now))
  {
    TickKeepsInv(cfg, w, now);
    assert WindowOk(w, c, w.windows[c]);
    var rows := CandidateRows(w.windows[c], source);
    if Q.Owns(w.queue, c) && R.Activate(l, pruned, w.tables, w.windows[c], rows, version, now).Ok? {
      var t := R.Activate(l, pruned, w.tables, w.windows[c], rows, version, now).value;
      ActivationCutoffs(l, pruned, w.tables, w.windows[c], rows, version, now);
      if source.Some? {
        OwnerPublishesForward(w, c, rows.value, version);
        PublishingKeepsInv(cfg, w, c, t, now);
      } else {
        ReactivationKeepsInv(cfg, Tick(w, now), t);
      }
    }
  }

  lemma ReactivationKeepsInv(cfg: Q.Config, w: World, t: R.Tables)
    requires Inv(cfg, w) && TablesOk(t) && t.state.lastCutoff == w.tables.state.lastCutoff
    ensures Inv(cfg, w.(tables := t))
  {
  }

  lemma StepKeepsInv(cfg: Q.Config, w: World, e: Event)
    requires Inv(cfg, w) && Enabled(w, e)
    ensures Inv(cfg, Step(cfg, w, e))
  {
    match e
    case OfQueue(q) => QueueStepKeepsInv(cfg, w, q);
    case Capture(c, floor, now) => CaptureKeepsInv(cfg, w, c, floor, now);
    case Activate(c, source, version, l, pruned, now) => ActivationKeepsInv(cfg, w, c, source, version, l, pruned, now);
    case Publish(c, source, version, now) =>
      TickKeepsInv(cfg, w, now);
      if Q.Owns(w.queue, c) {
        assert WindowOk(w, c, w.windows[c]);
        var rows := RowsOf(w.windows[c], source);
        OwnerPublishesForward(w, c, rows, version);
        PublishingKeepsInv(cfg, w, c, R.Publish(w.tables, w.windows[c], rows, version), now);
      }
  }

  lemma {:induction false} ReachableInv(cfg: Q.Config, history: seq<Event>)
    requires After(cfg, history).Some?
    ensures Inv(cfg, After(cfg, history).value)
    decreases |history|
  {
    if history != [] {
      var before := history[..|history| - 1];
      ReachableInv(cfg, before);
      StepKeepsInv(cfg, After(cfg, before).value, history[|history| - 1]);
    }
  }

  // ---------------------------------------------------------------- the theorems

  /** In every interleaving of workers, sweeps and lost leases: no bucket is newer than the last cutoff, the
      active cutoff never passes it, and the cutoffs of successive publications never go down. */
  lemma CutoffsNeverGoBack(cfg: Q.Config, history: seq<Event>)
    requires After(cfg, history).Some?
    ensures var w := After(cfg, history).value;
      && AtMost(w.tables.state.activeCutoff, w.tables.state.lastCutoff)
      && (forall k | k in w.tables.hourly :: AtMost(Some(w.tables.hourly[k].cutoff), w.tables.state.lastCutoff))
      && w.tables.state.lastCutoff == LastCutoff(w.published)
      && (forall i, j :: 0 <= i < j < |w.published| ==> w.published[i].cutoff <= w.published[j].cutoff)
  {
    ReachableInv(cfg, history);
  }

  /** So in every reachable state a publication by the owner advances the cursor to its own cutoff: the
      `GREATEST` always takes the new value, and no stored bucket is newer than the publishing run. */
  lemma GreatestTakesTheNewCutoff(cfg: Q.Config, history: seq<Event>, c: Q.Claim, rows: map<R.Key, R.Totals>, version: int)
    requires After(cfg, history).Some?
    requires c in After(cfg, history).value.windows && Q.Owns(After(cfg, history).value.queue, c)
    ensures var w := After(cfg, history).value;
      && R.Greatest(w.tables.state.lastCutoff, w.windows[c].cutoff) == Some(w.windows[c].cutoff)
      && A.NoNewer(R.Publish(w.tables, w.windows[c], rows, version).hourly, w.windows[c].cutoff)
  {
    ReachableInv(cfg, history);
    var w := After(cfg, history).value;
    assert WindowOk(w, c, w.windows[c]);
    OwnerPublishesForward(w, c, rows, version);
  }

  /** In every reachable state, an activation either changes nothing but the clock, or leaves a weekly table
      that agrees with the reference report on the raw ledger for each week all of whose hours are published,
      completed and still sourced, and is untouched elsewhere. No hypothesis about bucket cutoffs is left. */
  lemma EveryActivationAgrees(cfg: Q.Config, history: seq<Event>, c: Q.Claim, source: Option<L.Ledger>, version: int,
                              l: L.Ledger, pruned: Option<Instant>, now: Instant, h: R.Hourly, cell: W.Cell)
    requires After(cfg, history).Some? && L.WellFormed(l)
    requires Enabled(After(cfg, history).value, Activate(c, source, version, l, pruned, now))
    requires var w := After(cfg, history).value;
      h == R.Candidate(w.tables, w.windows[c], CandidateRows(w.windows[c], source), version).hourly
    ensures var w := After(cfg, history).value;
      var next := ActivatedBy(w, c, source, version, l, pruned, now);
      || next == Tick(w, now)
      || (if V.Verified(h, w.windows[c].cutoff, pruned, cell.week) then A.AgreesOn(l, next.tables.weekly, cell)
          else A.SameCell(next.tables.weekly, w.tables.weekly, cell))
  {
    ReachableInv(cfg, history);
    var w := After(cfg, history).value;
    var window, rows := w.windows[c], CandidateRows(w.windows[c], source);
    if Q.Owns(w.queue, c) && R.Activate(l, pruned, w.tables, window, rows, version, now).Ok? {
      NoNewerCandidate(cfg, w, c, rows, version);
      A.ActivationOutcome(l, pruned, w.tables, window, rows, version, now);
      var (start, end) := R.Bounds(h, window.cutoff, pruned).value;
      V.VerifiedIsWhole(h, window.cutoff, pruned, cell.week);
      A.ActivationAgrees(l, pruned, w.tables, window, rows, version, now, h, start, end, cell);
    }
  }

  lemma NoNewerCandidate(cfg: Q.Config, w: World, c: Q.Claim, rows: Option<map<R.Key, R.Totals>>, version: int)
    requires Inv(cfg, w) && c in w.windows && Q.Owns(w.queue, c)
    ensures A.NoNewer(R.Candidate(w.tables, w.windows[c], rows, version).hourly, w.windows[c].cutoff)
  {
  }

  // ---------------------------------------------------------------- fencing

  function Now(e: Event): Instant {
    if e.OfQueue? then e.e.now else e.now
  }

  /** Whatever a worker does with its claim towards the queue or the tables. */
  predicate Uses(e: Event, c: Q.Claim) {
    || (e.OfQueue? && Progress.IsWorkerEvent(e.e, c))
    || ((e.Publish? || e.Activate?) && e.c == c)
  }

  lemma DeadClaimStaysDead(cfg: Q.Config, w: World, e: Event, c: Q.Claim)
    requires Inv(cfg, w) && Enabled(w, e) && c in w.queue.issued && !Q.Owns(w.queue, c)
    ensures c in Step(cfg, w, e).queue.issued && !Q.Owns(Step(cfg, w, e).queue, c)
    ensures Uses(e, c) ==> Step(cfg, w, e) == Tick(w, Now(e))
    ensures e.Capture? && e.c == c ==> Step(cfg, w, e) == Tick(w, Now(e)).(windows := Step(cfg, w, e).windows)
  {
    if e.OfQueue? {
      Progress.DeadClaimStaysDead(cfg, w.queue, e.e, c);
    }
  }

  /** The fence, over whole histories of workers: once a claim is off its row it stays off, and in every later
      state each heartbeat, stage record, release, finalization, publication and activation with it changes
      nothing but the clock, whatever the worker still remembers. */
  lemma {:induction false} Fenced(cfg: Q.Config, history: seq<Event>, n: nat, s: World, c: Q.Claim)
    requires After(cfg, history).Some? && n <= |history|
    requires After(cfg, history[..n]) == Some(s) && c in s.queue.issued && !Q.Owns(s.queue, c)
    ensures var w := After(cfg, history).value;
      && c in w.queue.issued && !Q.Owns(w.queue, c)
      && forall e :: Uses(e, c) && Enabled(w, e) ==> Step(cfg, w, e) == Tick(w, Now(e))
    decreases |history|
  {
    ReachableInv(cfg, history);
    var w := After(cfg, history).value;
    if n == |history| {
      assert history[..n] == history;
    } else {
      var before := history[..|history| - 1];
      assert history[..n] == before[..n];
      Fenced(cfg, before, n, s, c);
      ReachableInv(cfg, before);
      DeadClaimStaysDead(cfg, After(cfg, before).value, history[|history| - 1], c);
    }
    forall e | Uses(e, c) && Enabled(w, e) ensures Step(cfg, w, e) == Tick(w, Now(e)) {
      DeadClaimStaysDead(cfg, w, e, c);
    }
  }
}
