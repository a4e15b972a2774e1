/** Which hours the published windows cover. */
module GaplessWindows {
  import opened Wrappers
  import opened Instants
  import Q = ReportingQueue
  import Runs = QueueRuns
  import Progress = QueueProgress
  import L = Ledger
  import R = Rollups
  import opened Publication

  // ---------------------------------------------------------------- intervals

  /** Each window begins at or before the end of the one published before it, and ends no earlier. */
  ghost predicate Touching(ws: seq<R.Window>) {
    && (forall i :: 0 <= i < |ws| ==> ws[i].start < ws[i].end == ws[i].cutoff)
    && (forall i :: 0 < i < |ws| ==> ws[i].start <= ws[i - 1].end <= ws[i].end)
  }

  function Earliest(ws: seq<R.Window>): int
    requires ws != []
  {
    if |ws| == 1 then ws[0].start else Min(Earliest(ws[..|ws| - 1]), ws[|ws| - 1].start)
  }

  predicate Holds(window: R.Window, hour: int) {
    window.start <= hour < window.end
  }

  predicate Covered(ws: seq<R.Window>, hour: int) {
    exists i :: 0 <= i < |ws| && Holds(ws[i], hour)
  }

  /** Touching windows cover one interval of hours, without a gap. */
  lemma {:induction false} TouchingIsAnInterval(ws: seq<R.Window>, hour: int)
    requires ws != [] && Touching(ws)
    ensures Covered(ws, hour) <==> Earliest(ws) <= hour < ws[|ws| - 1].end
    decreases |ws|
  {
    var init, last := ws[..|ws| - 1], ws[|ws| - 1];
    if init == [] {
      assert Holds(ws[0], hour) <==> ws[0].start <= hour < ws[0].end;
    } else {
      TouchingIsAnInterval(init, hour);
      OneMoreWindow(ws, hour);
    }
  }

  lemma OneMoreWindow(ws: seq<R.Window>, hour: int)
    requires ws != []
    ensures Covered(ws, hour) <==> Covered(ws[..|ws| - 1], hour) || Holds(ws[|ws| - 1], hour)
  {
  }

  // ---------------------------------------------------------------- runs without week-scoped claims or resets

  predicate Unscoped(e: Event) {
    e.OfQueue? ==> !e.e.ResetLedger? && (e.e.EnqueueRun? ==> e.e.week.None?)
  }

  ghost predicate UnscopedQueue(q: Q.Queue) {
    && q.lastReset.None?
    && (forall id | id in q.runs :: q.runs[id].week.None?)
    && (forall c | c in q.issued :: c.week.None?)
  }

  ghost predicate Next(w: World, c: Q.Claim, window: R.Window) {
    && window.end == window.cutoff
    && (Q.Owns(w.queue, c) && w.published != [] ==> window.start <= w.published[|w.published| - 1].cutoff)
  }

  ghost predicate Gapless(w: World) {
    && UnscopedQueue(w.queue) && Touching(w.published)
    && (forall c | c in w.windows :: Next(w, c, w.windows[c]))
  }

  lemma RunStaysUnscoped(cfg: Q.Config, q: Q.Queue, e: Runs.Event, id: Q.RunId)
    requires Runs.Inv(cfg, q) && Runs.Enabled(q, e) && UnscopedQueue(q) && Unscoped(OfQueue(e))
    requires id in Runs.Step(q, cfg, e).runs
    ensures Runs.Step(q, cfg, e).runs[id].week.None?
  {
    if id in q.runs {
      Runs.StepMovesRows(cfg, q, e, id);
    } else {
      Runs.OnlyEnqueueAdds(cfg, q, e, id);
    }
  }

  lemma ClaimStaysUnscoped(cfg: Q.Config, q: Q.Queue, e: Runs.Event, c: Q.Claim)
    requires Runs.Inv(cfg, q) && Runs.Enabled(q, e) && UnscopedQueue(q) && c in Runs.Step(q, cfg, e).issued
    ensures c.week.None?
  {
    if e.Sweep? {
      Runs.SweepIsShort(cfg, q, e.stale, e.now);
    }
  }

  lemma QueueKeepsReset(cfg: Q.Config, q: Q.Queue, e: Runs.Event)
    requires Runs.Inv(cfg, q) && Runs.Enabled(q, e) && !e.ResetLedger?
    ensures Runs.Step(q, cfg, e).lastReset == q.lastReset
  {
    if e.Sweep? {
      Runs.SweepIsShort(cfg, q, e.stale, e.now);
    }
  }

  lemma QueueStaysUnscoped(cfg: Q.Config, q: Q.Queue, e: Runs.Event)
    requires Runs.Inv(cfg, q) && Runs.Enabled(q, e) && UnscopedQueue(q) && Unscoped(OfQueue(e))
    ensures UnscopedQueue(Runs.Step(q, cfg, e))
  {
    QueueKeepsReset(cfg, q, e);
    forall id | id in Runs.Step(q, cfg, e).runs ensures Runs.Step(q, cfg, e).runs[id].week.None? {
      RunStaysUnscoped(cfg, q, e, id);
    }
    forall c | c in Runs.Step(q, cfg, e).issued ensures c.week.None? {
      ClaimStaysUnscoped(cfg, q, e, c);
    }
  }

  lemma QueueStepStaysGapless(cfg: Q.Config, w: World, e: Runs.Event)
    requires Inv(cfg, w) && Gapless(w) && Runs.Enabled(w.queue, e) && Unscoped(OfQueue(e))
    ensures Gapless(w.(queue := Runs.Step(w.queue, cfg, e)))
  {
    var next := w.(queue := Runs.Step(w.queue, cfg, e));
    QueueStaysUnscoped(cfg, w.queue, e);
    forall c | c in w.windows ensures Next(next, c, w.windows[c]) {
      assert WindowOk(w, c, w.windows[c]) && Next(w, c, w.windows[c]);
      if !Q.Owns(w.queue, c) {
        Progress.DeadClaimStaysDead(cfg, w.queue, e, c);
      }
    }
  }

  lemma TickStaysGapless(w: World, now: Instant)
    requires Gapless(w)
    ensures Gapless(Tick(w, now))
  {
  }

  /** An ordinary window reaches back to the last cutoff, or further, and forward to its own. */
  lemma OrdinaryWindow(last: Option<int>, floor: Option<Instant>, now: Instant)
    requires R.CaptureWindow(last, None, floor, None, now).Ok?
    ensures var window := R.CaptureWindow(last, None, floor, None, now).value;
      window.end == window.cutoff == HourOf(now) && (last.Some? ==> window.start <= last.value)
  {
  }

  lemma CaptureStaysGapless(cfg: Q.Config, w: World, c: Q.Claim, floor: Option<Instant>, now: Instant)
    requires Inv(cfg, w) && Gapless(w) && Enabled(w, Capture(c, floor, now))
    ensures Gapless(Captured(w, c, floor, now))
  {
    TickStaysGapless(w, now);
    var next := Captured(w, c, floor, now);
    if R.CaptureWindow(w.tables.state.lastCutoff, None, floor, None, now).Ok? {
      OrdinaryWindow(w.tables.state.lastCutoff, floor, now);
      forall d | d in next.windows ensures Next(next, d, next.windows[d]) {
        if d != c {
          assert Next(w, d, w.windows[d]);
        }
      }
    }
  }

  lemma PublishingStaysGapless(cfg: Q.Config, w: World, c: Q.Claim, t: R.Tables, now: Instant)
    requires Inv(cfg, w) && Gapless(w) && c in w.windows && Q.Owns(w.queue, c)
    ensures Gapless(Tick(w, now).(tables := t, published := w.published + [w.windows[c]]))
  {
    var next := Tick(w, now).(tables := t, published := w.published + [w.windows[c]]);
    assert WindowOk(w, c, w.windows[c]) && Next(w, c, w.windows[c]);
    forall d | d in w.windows ensures Next(next, d, w.windows[d]) {
      assert WindowOk(w, d, w.windows[d]) && Next(w, d, w.windows[d]);
      if Q.Owns(w.queue, d) {
        OneOwner(cfg, w.queue, c, d);
      }
    }
    AppendTouches(w.published, w.windows[c]);
  }

  lemma AppendTouches(ws: seq<R.Window>, window: R.Window)
    requires Touching(ws) && window.start < window.end == window.cutoff
    requires ws != [] ==> window.start <= ws[|ws| - 1].cutoff <= window.cutoff
    ensures Touching(ws + [window])
  {
  }

  lemma StepStaysGapless(cfg: Q.Config, w: World, e: Event)
    requires Inv(cfg, w) && Gapless(w) && Enabled(w, e) && Unscoped(e)
    ensures Gapless(Step(cfg, w, e))
  {
    match e
    case OfQueue(q) => QueueStepStaysGapless(cfg, w, q);
    case Capture(c, floor, now) => CaptureStaysGapless(cfg, w, c, floor, now);
    case Publish(c, source, version, now) =>
      TickStaysGapless(w, now);
      if Q.Owns(w.queue, c) {
        PublishingStaysGapless(cfg, w, c, PublishedBy(w, c, source, version, now).tables, now);
      }
    case Activate(c, source, version, l, pruned, now) =>
      ActivationStaysGapless(cfg, w, c, ActivatedBy(w, c, source, version, l, pruned, now), now);
      ActivationPublishes(w, c, source, version, l, pruned, now);
  }

  lemma ActivationStaysGapless(cfg: Q.Config, w: World, c: Q.Claim, next: World, now: Instant)
    requires Inv(cfg, w) && Gapless(w) && c in w.windows
    ensures next == Tick(w, now).(tables := next.tables) ==> Gapless(next)
    ensures Q.Owns(w.queue, c) && next == Tick(w, now).(tables := next.tables, published := w.published + [w.windows[c]])
      ==> Gapless(next)
  {
    TickStaysGapless(w, now);
    if Q.Owns(w.queue, c) {
      PublishingStaysGapless(cfg, w, c, next.tables, now);
    }
  }

  lemma ActivationPublishes(w: World, c: Q.Claim, source: Option<L.Ledger>, version: int, l: L.Ledger,
                            pruned: Option<Instant>, now: Instant)
    requires c in w.windows
    ensures var next := ActivatedBy(w, c, source, version, l, pruned, now);
      || next == Tick(w, now).(tables := next.tables)
      || (Q.Owns(w.queue, c) && next == Tick(w, now).(tables := next.tables, published := w.published + [w.windows[c]]))
  {
  }

  lemma {:induction false} UnscopedRunsAreGapless(cfg: Q.Config, history: seq<Event>)
    requires After(cfg, history).Some? && forall e | e in history :: Unscoped(e)
    ensures Gapless(After(cfg, history).value)
    decreases |history|
  {
    if history != [] {
      var before, last := history[..|history| - 1], history[|history| - 1];
      assert last in history;
      UnscopedRunsAreGapless(cfg, before);
      ReachableInv(cfg, before);
      StepStaysGapless(cfg, After(cfg, before).value, last);
    }
  }

  /** Without week-scoped claims or resets, whatever failed in between, the published windows cover exactly
      the hours from the earliest start to the last cutoff. */
  lemma PublishedHoursAreAnInterval(cfg: Q.Config, history: seq<Event>, hour: int)
    requires After(cfg, history).Some? && forall e | e in history :: Unscoped(e)
    requires After(cfg, history).value.published != []
    ensures var w := After(cfg, history).value;
      && w.tables.state.lastCutoff.Some?
      && (Covered(w.published, hour) <==> Earliest(w.published) <= hour < w.tables.state.lastCutoff.value)
  {
    UnscopedRunsAreGapless(cfg, history);
    ReachableInv(cfg, history);
    GaplessIsAnInterval(cfg, After(cfg, history).value, hour);
  }

  lemma GaplessIsAnInterval(cfg: Q.Config, w: World, hour: int)
    requires Inv(cfg, w) && Gapless(w) && w.published != []
    ensures w.tables.state.lastCutoff.Some?
    ensures Covered(w.published, hour) <==> Earliest(w.published) <= hour < w.tables.state.lastCutoff.value
  {
    TouchingIsAnInterval(w.published, hour);
  }

  // ---------------------------------------------------------------- buckets behind the windows

  /** The dimension belongs to a SKU whenever a worker computes rows. */
  ghost predicate AlwaysSku(e: Event, d: L.Dim) {
    && (e.Publish? ==> d in L.Dims(e.source))
    && (e.Activate? && e.candidate.Some? ==> d in L.Dims(e.candidate.value))
  }

  ghost predicate HasBuckets(w: World, d: L.Dim) {
    forall hour | Covered(w.published, hour) :: R.Key(hour, d) in w.tables.hourly
  }

  lemma PublishedRowsHaveBuckets(w: World, window: R.Window, source: L.Ledger, version: int, d: L.Dim)
    requires HasBuckets(w, d) && d in L.Dims(source)
    ensures forall hour | Covered(w.published + [window], hour) ::
      R.Key(hour, d) in R.Publish(w.tables, window, RowsOf(window, source), version).hourly
  {
  }

  lemma StepHasBuckets(cfg: Q.Config, w: World, e: Event, d: L.Dim)
    requires HasBuckets(w, d) && Enabled(w, e) && AlwaysSku(e, d)
    ensures HasBuckets(Step(cfg, w, e), d)
  {
    match e
    case OfQueue(_) =>
    case Capture(c, floor, now) =>
    case Publish(c, source, version, now) =>
      PublishedRowsHaveBuckets(w, w.windows[c], source, version, d);
    case Activate(c, source, version, l, pruned, now) => ActivatedRowsHaveBuckets(w, c, source, version, l, pruned, now, d);
  }

  lemma ActivatedRowsHaveBuckets(w: World, c: Q.Claim, source: Option<L.Ledger>, version: int, l: L.Ledger,
                                 pruned: Option<Instant>, now: Instant, d: L.Dim)
    requires HasBuckets(w, d) && c in w.windows && (source.Some? ==> d in L.Dims(source.value))
    ensures HasBuckets(ActivatedBy(w, c, source, version, l, pruned, now), d)
  {
    var rows := CandidateRows(w.windows[c], source);
    if R.Activate(l, pruned, w.tables, w.windows[c], rows, version, now).Ok? {
      ActivationCutoffs(l, pruned, w.tables, w.windows[c], rows, version, now);
      if source.Some? {
        PublishedRowsHaveBuckets(w, w.windows[c], source.value, version, d);
      }
    }
  }

  /** Without week-scoped claims or resets the hourly table itself has no missing hour: a dimension that is
      always some SKU's has a bucket for every hour from the earliest start to the last cutoff. */
  lemma NoHourIsMissing(cfg: Q.Config, history: seq<Event>, d: L.Dim, hour: int)
    requires After(cfg, history).Some? && forall e | e in history :: Unscoped(e) && AlwaysSku(e, d)
    requires var w := After(cfg, history).value;
      w.published != [] && Earliest(w.published) <= hour && AtMost(Some(hour + 1), w.tables.state.lastCutoff)
    ensures R.Key(hour, d) in After(cfg, history).value.tables.hourly
  {
    PublishedHoursAreAnInterval(cfg, history, hour);
    CoveredHoursHaveBuckets(cfg, history, d);
  }

  lemma {:induction false} CoveredHoursHaveBuckets(cfg: Q.Config, history: seq<Event>, d: L.Dim)
    requires After(cfg, history).Some? && forall e | e in history :: AlwaysSku(e, d)
    ensures HasBuckets(After(cfg, history).value, d)
    decreases |history|
  {
    if history != [] {
      var before, last := history[..|history| - 1], history[|history| - 1];
      assert last in history;
      CoveredHoursHaveBuckets(cfg, before, d);
      StepHasBuckets(cfg, After(cfg, before).value, last, d);
    }
  }

  // ---------------------------------------------------------------- week-scoped runs

  /** When the next ordinary window reaches back to the end of the one before it. Windows that touch may still
      leave out hours between the old cursor and a requested week: see `TwoWindowsCover`. */
  lemma SuccessiveWindowsTouch(last: Option<int>, floor: Option<Instant>, week: Option<int>, now: Instant, later: Instant)
    requires R.CaptureWindow(last, None, floor, week, now).Ok? && AtMost(last, Some(HourOf(now)))
    requires var p := R.CaptureWindow(last, None, floor, week, now).value;
      R.CaptureWindow(R.Greatest(last, p.cutoff), None, floor, None, later).Ok?
    ensures var p := R.CaptureWindow(last, None, floor, week, now).value;
      var n := R.CaptureWindow(R.Greatest(last, p.cutoff), None, floor, None, later).value;
      n.start <= p.end <==>
        || week.None?
        || HourOf(now) <= WeekStart(week.value + 1)
        || HourOf(later) - R.TRAILING_RECOMPUTE_HOURS <= WeekStart(week.value + 1)
  {
  }

  /** When a run that began at `now` from the cursor `last`, asked for `week` if any, and an ordinary run at
      `later` together leave no hour out: the first was not week-scoped, or found nothing new to pass over, or
      the trailing recomputation reaches back to the old cursor, or the week reaches back to the old cursor and
      forward to the present or to the trailing recomputation. */
  predicate NothingLost(last: int, week: Option<int>, now: Instant, later: Instant) {
    var reach := HourOf(later) - R.TRAILING_RECOMPUTE_HOURS;
    || week.None? || HourOf(now) <= last || reach <= last
    || (WeekStart(week.value) <= last && (HourOf(now) <= WeekStart(week.value + 1) || reach <= WeekStart(week.value + 1)))
  }

  /** A run advances the cursor to its own cutoff even when it was asked for one past week only. Every hour from
      the old cursor to the new one is in its window or in that of the next ordinary run exactly when nothing
      is lost in the sense above. */
  lemma TwoWindowsCover(last: int, floor: Option<Instant>, week: Option<int>, now: Instant, floor': Option<Instant>, later: Instant,
                        p: R.Window, n: R.Window)
    requires last <= HourOf(now) <= HourOf(later)
    requires R.CaptureWindow(Some(last), None, floor, week, now) == Ok(p)
    requires R.CaptureWindow(R.Greatest(Some(last), p.cutoff), None, floor', None, later) == Ok(n)
    ensures (forall hour :: last <= hour < n.end ==> Holds(p, hour) || Holds(n, hour)) <==> NothingLost(last, week, now, later)
  {
    if !NothingLost(last, week, now, later) {
      var lost := if WeekStart(week.value) <= last then Max(last, WeekStart(week.value + 1)) else last;
      assert last <= lost < n.end && !Holds(p, lost) && !Holds(n, lost);
    }
  }

  /** The published hours are exactly those from `from` to the cursor. */
  ghost predicate IsInterval(w: World, from: int) {
    && w.tables.state.lastCutoff.Some? && from <= w.tables.state.lastCutoff.value
    && forall hour :: Covered(w.published, hour) <==> from <= hour < w.tables.state.lastCutoff.value
  }

  /** A step that publishes nothing and is no reset: failed, refused, lost and unfinished runs, heartbeats and stage
      records, requests, sweeps, activations without new rows. */
  ghost predicate Idle(cfg: Q.Config, w: World, e: Event) {
    && Enabled(w, e)
    && Step(cfg, w, e).published == w.published && Step(cfg, w, e).queue.lastReset == w.queue.lastReset
  }

  /** The world after a sequence of idle steps, when all of them could happen. */
  ghost function Idled(cfg: Q.Config, w: World, events: seq<Event>): Option<World> {
    if events == [] then Some(w)
    else
      match Idled(cfg, w, events[..|events| - 1])
      case None => None
      case Some(v) =>
        if Idle(cfg, v, events[|events| - 1]) then Some(Step(cfg, v, events[|events| - 1])) else None
  }

  predicate Recaptures(events: seq<Event>, c: Q.Claim) {
    exists i :: 0 <= i < |events| && events[i].Capture? && events[i].c == c
  }

  /** A run: the claim captures its window, idle steps of this and other workers follow, and then its load, a
      publication or an activation, takes effect. */
  ghost predicate Publishes(cfg: Q.Config, w: World, c: Q.Claim, floor: Option<Instant>, now: Instant,
                            between: seq<Event>, load: Event, next: World)
  {
    && Enabled(w, Capture(c, floor, now))
    && R.CaptureWindow(w.tables.state.lastCutoff, w.queue.lastReset, floor, c.week, now).Ok?
    && !Recaptures(between, c)
    && (load.Publish? || load.Activate?) && load.c == c
    && match Idled(cfg, Captured(w, c, floor, now), between)
       case None => false
       case Some(v) => Enabled(v, load) && next == Step(cfg, v, load) && |next.published| == |v.published| + 1
  }

  function WindowOf(w: World, c: Q.Claim, floor: Option<Instant>, now: Instant): R.Window
    requires R.CaptureWindow(w.tables.state.lastCutoff, w.queue.lastReset, floor, c.week, now).Ok?
  {
    R.CaptureWindow(w.tables.state.lastCutoff, w.queue.lastReset, floor, c.week, now).value
  }

  lemma WindowsStay(cfg: Q.Config, w: World, e: Event, c: Q.Claim)
    requires Enabled(w, e) && c in w.windows
    ensures c in Step(cfg, w, e).windows
    ensures !e.Capture? || e.c != c ==> Step(cfg, w, e).windows[c] == w.windows[c]
  {
  }

  ghost predicate SamePublications(w: World, v: World) {
    && v.published == w.published && v.queue.lastReset == w.queue.lastReset
    && v.tables.state.lastCutoff == w.tables.state.lastCutoff
  }

  lemma IdleStepPublishesNothing(cfg: Q.Config, w: World, e: Event)
    requires Inv(cfg, w) && Idle(cfg, w, e)
    ensures Inv(cfg, Step(cfg, w, e)) && SamePublications(w, Step(cfg, w, e))
  {
    StepKeepsInv(cfg, w, e);
  }

  /** Idle steps keep what is published and the cursor. */
  lemma {:induction false} IdleStepsPublishNothing(cfg: Q.Config, w: World, events: seq<Event>)
    requires Inv(cfg, w) && Idled(cfg, w, events).Some?
    ensures Inv(cfg, Idled(cfg, w, events).value) && SamePublications(w, Idled(cfg, w, events).value)
    decreases |events|
  {
    if events != [] {
      var before, last := events[..|events| - 1], events[|events| - 1];
      IdleStepsPublishNothing(cfg, w, before);
      IdleStepPublishesNothing(cfg, Idled(cfg, w, before).value, last);
    }
  }

  /** They also keep the window of a claim that does not capture again. */
  lemma {:induction false} IdleStepsKeepTheWindow(cfg: Q.Config, w: World, events: seq<Event>, c: Q.Claim)
    requires Idled(cfg, w, events).Some? && c in w.windows && !Recaptures(events, c)
    ensures c in Idled(cfg, w, events).value.windows && Idled(cfg, w, events).value.windows[c] == w.windows[c]
    decreases |events|
  {
    if events != [] {
      var before, last := events[..|events| - 1], events[|events| - 1];
      FewerRecaptures(events, c);
      IdleStepsKeepTheWindow(cfg, w, before, c);
      WindowsStay(cfg, Idled(cfg, w, before).value, last, c);
    }
  }

  lemma FewerRecaptures(events: seq<Event>, c: Q.Claim)
    requires events != [] && !Recaptures(events, c)
    ensures !Recaptures(events[..|events| - 1], c)
    ensures !events[|events| - 1].Capture? || events[|events| - 1].c != c
  {
  }

  lemma PublishesItsWindow(cfg: Q.Config, w: World, c: Q.Claim, floor: Option<Instant>, now: Instant,
                           between: seq<Event>, load: Event, next: World)
    requires Inv(cfg, w) && Publishes(cfg, w, c, floor, now, between, load, next)
    ensures Inv(cfg, next) && AtMost(w.tables.state.lastCutoff, Some(HourOf(now)))
    ensures var p := WindowOf(w, c, floor, now);
      && next.published == w.published + [p] && next.tables.state.lastCutoff == Some(p.cutoff)
      && next.queue.lastReset == w.queue.lastReset && p.cutoff == HourOf(now)
      && next.tables.state.lastCutoff == R.Greatest(w.tables.state.lastCutoff, p.cutoff)
  {
    var mid := Captured(w, c, floor, now);
    HoursGrow(w.queue.clock, now);
    CaptureKeepsInv(cfg, w, c, floor, now);
    IdleStepsPublishNothing(cfg, mid, between);
    IdleStepsKeepTheWindow(cfg, mid, between, c);
    var v := Idled(cfg, mid, between).value;
    StepKeepsInv(cfg, v, load);
    LoadPublishesTheWindow(cfg, v, c, load, next);
  }

  lemma LoadPublishesTheWindow(cfg: Q.Config, w: World, c: Q.Claim, load: Event, next: World)
    requires (load.Publish? || load.Activate?) && load.c == c && Enabled(w, load)
    requires next == Step(cfg, w, load) && |next.published| == |w.published| + 1
    ensures next.published == w.published + [w.windows[c]] && next.queue.lastReset == w.queue.lastReset
  {
  }

  lemma CoveredByTwo(ws: seq<R.Window>, p: R.Window, n: R.Window, hour: int)
    ensures Covered((ws + [p]) + [n], hour) <==> Covered(ws, hour) || Holds(p, hour) || Holds(n, hour)
  {
    OneMoreWindow(ws + [p], hour);
    OneMoreWindow((ws + [p]) + [n], hour);
    assert ((ws + [p]) + [n])[..|ws| + 1] == ws + [p] && (ws + [p])[..|ws|] == ws;
  }

  lemma CoveredToTheCursor(ws: seq<R.Window>, p: R.Window, n: R.Window, from: int, last: int, end: int)
    requires forall hour :: Covered(ws, hour) <==> from <= hour < last
    requires from <= last
    ensures (forall hour :: from <= hour < end ==> Covered((ws + [p]) + [n], hour)) <==>
            (forall hour :: last <= hour < end ==> Holds(p, hour) || Holds(n, hour))
  {
    forall hour ensures Covered((ws + [p]) + [n], hour) <==> Covered(ws, hour) || Holds(p, hour) || Holds(n, hour) {
      CoveredByTwo(ws, p, n, hour);
    }
  }

  /** From any reachable state without a reset whose published hours are an interval ending at the cursor: let one
      run publish, week-scoped or not, anything happen that publishes nothing, then an ordinary run publish, each
      run with any idle steps between its capture and its load. The hours up to the new cursor are again all
      published exactly when nothing is lost. */
  lemma IntervalSurvivesTwoRuns(cfg: Q.Config, history: seq<Event>, w: World, from: int,
                                c: Q.Claim, floor: Option<Instant>, now: Instant, between: seq<Event>, load: Event, v: World,
                                events: seq<Event>, u: World,
                                d: Q.Claim, floor': Option<Instant>, later: Instant, between': seq<Event>, load': Event,
                                next: World)
    requires After(cfg, history) == Some(w) && IsInterval(w, from) && w.queue.lastReset.None?
    requires Publishes(cfg, w, c, floor, now, between, load, v)
    requires Idled(cfg, v, events) == Some(u)
    requires Publishes(cfg, u, d, floor', later, between', load', next) && d.week.None?
    ensures next.tables.state.lastCutoff.Some?
    ensures (forall hour :: from <= hour < next.tables.state.lastCutoff.value ==> Covered(next.published, hour)) <==>
            NothingLost(w.tables.state.lastCutoff.value, c.week, now, later)
  {
    ReachableInv(cfg, history);
    PublishesItsWindow(cfg, w, c, floor, now, between, load, v);
    IdleStepsPublishNothing(cfg, v, events);
    PublishesItsWindow(cfg, u, d, floor', later, between', load', next);
    var last, p, n := w.tables.state.lastCutoff.value, WindowOf(w, c, floor, now), WindowOf(u, d, floor', later);
    OrdinaryWindow(u.tables.state.lastCutoff, floor', later);
    TwoWindowsCover(last, floor, c.week, now, floor', later, p, n);
    CoveredToTheCursor(w.published, p, n, from, last, n.end);
  }

  /** With the cursor at the start of week 2, recomputing week 0 at the start of week 3 passes the cursor over
      hours of week 2 that the next ordinary window does not reach back to. */
  lemma WeekScopedRunLeavesAGap()
    ensures var last, now := WeekStart(2), 3_600_000_000 * WeekStart(3);
      && !NothingLost(last, Some(0), now, now)
      && exists p, n ::
           && R.CaptureWindow(Some(last), None, None, Some(0), now) == Ok(p)
           && R.CaptureWindow(R.Greatest(Some(last), p.cutoff), None, None, None, now) == Ok(n)
           && last < n.start && !Holds(p, last) && !Holds(n, last)
  {
    var last, now := WeekStart(2), 3_600_000_000 * WeekStart(3);
    var p := R.CaptureWindow(Some(last), None, None, Some(0), now).value;
    var n := R.CaptureWindow(R.Greatest(Some(last), p.cutoff), None, None, None, now).value;
    assert last < n.start && !Holds(p, last) && !Holds(n, last);
  }
}
