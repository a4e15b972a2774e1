/** Rows that arrive late: which hours can still be recomputed, and what follows when one cannot. */
module LateRows {
  import opened Wrappers
  import opened Instants
  import Q = ReportingQueue
  import L = Ledger
  import R = Rollups
  import A = RollupAgreement
  import P = Publication
  import G = GaplessWindows
  import opened LiveLedger

  // ---------------------------------------------------------------- hours out of reach

  predicate BeforeReset(w: P.World, hour: int) {
    w.queue.lastReset.Some? && hour < HourOf(w.queue.lastReset.value)
  }

  /** The trailing recomputation of an ordinary run captured now would still cover the hour. */
  predicate Recomputable(w: P.World, hour: int) {
    HourOf(w.queue.clock) - R.TRAILING_RECOMPUTE_HOURS <= hour && !BeforeReset(w, hour)
  }

  /** A worker that owns its row has captured a window with the hour in it. */
  ghost predicate InHand(w: P.World, hour: int) {
    exists c :: c in w.windows && Q.Owns(w.queue, c) && G.Holds(w.windows[c], hour)
  }

  /** The cursor has passed the hour, and neither a run under way nor an ordinary run from now on covers it. */
  ghost predicate OutOfReach(w: P.World, hour: int) {
    P.AtMost(Some(hour + 1), w.tables.state.lastCutoff) && !Recomputable(w, hour) && !InHand(w, hour)
  }

  /** A capture for a run that was asked for the week of the hour. */
  predicate AsksFor(e: P.Event, hour: int) {
    e.Capture? && e.c.week == Some(WeekOf(hour))
  }

  ghost predicate SameHourly(h: R.Hourly, p: R.Hourly, hour: int) {
    forall k: R.Key | k.hour == hour :: (k in h <==> k in p) && (k in h ==> p[k] == h[k])
  }

  ghost predicate ResetIsPast(q: Q.Queue) {
    q.lastReset.Some? ==> q.lastReset.value <= q.clock
  }

  lemma ClockAndReset(cfg: Q.Config, w: P.World, e: P.Event)
    requires P.Inv(cfg, w) && P.Enabled(w, e)
    ensures var q := P.Step(cfg, w, e).queue;
      && w.queue.clock <= q.clock
      && (q.lastReset == w.queue.lastReset || q.lastReset == Some(q.clock))
  {
    if e.OfQueue? {
      P.ClockMoves(cfg, w.queue, e.e);
      if !e.e.ResetLedger? {
        G.QueueKeepsReset(cfg, w.queue, e.e);
      }
    }
  }

  lemma ClockStaysPast(cfg: Q.Config, w: P.World, e: P.Event, hour: int)
    requires P.Inv(cfg, w) && P.Enabled(w, e) && ResetIsPast(w.queue)
    ensures ResetIsPast(P.Step(cfg, w, e).queue)
    ensures BeforeReset(w, hour) ==> BeforeReset(P.Step(cfg, w, e), hour)
    ensures !Recomputable(w, hour) ==> !Recomputable(P.Step(cfg, w, e), hour)
  {
    ClockAndReset(cfg, w, e);
  }

  /** A window captured now has no hour that is out of reach. */
  lemma CaptureMisses(last: int, reset: Option<Instant>, floor: Option<Instant>, week: Option<int>, now: Instant,
                      window: R.Window, hour: int)
    requires R.CaptureWindow(Some(last), reset, floor, week, now) == Ok(window) && hour < last
    requires || (reset.Some? && hour < HourOf(reset.value))
             || (hour < HourOf(now) - R.TRAILING_RECOMPUTE_HOURS && week != Some(WeekOf(hour)))
    ensures !G.Holds(window, hour)
  {
    if week.Some? {
      WeekBounds(hour, week.value);
    }
  }

  lemma OwnedBefore(cfg: Q.Config, w: P.World, e: P.Event, c: Q.Claim)
    requires P.Inv(cfg, w) && P.Enabled(w, e) && c in w.queue.issued && Q.Owns(P.Step(cfg, w, e).queue, c)
    ensures Q.Owns(w.queue, c)
  {
    if !Q.Owns(w.queue, c) {
      P.DeadClaimStaysDead(cfg, w, e, c);
    }
  }

  lemma StaysOutOfHand(cfg: Q.Config, w: P.World, e: P.Event, hour: int)
    requires P.Inv(cfg, w) && P.Enabled(w, e) && ResetIsPast(w.queue) && OutOfReach(w, hour)
    requires AsksFor(e, hour) ==> BeforeReset(w, hour)
    ensures !InHand(P.Step(cfg, w, e), hour)
  {
    var v := P.Step(cfg, w, e);
    if InHand(v, hour) {
      var c :| c in v.windows && Q.Owns(v.queue, c) && G.Holds(v.windows[c], hour);
      if c in w.windows && v.windows[c] == w.windows[c] {
        assert P.WindowOk(w, c, w.windows[c]);
        OwnedBefore(cfg, w, e, c);
      } else {
        NewWindowMisses(cfg, w, e, c, hour);
      }
    }
  }

  lemma NewWindowMisses(cfg: Q.Config, w: P.World, e: P.Event, c: Q.Claim, hour: int)
    requires P.Inv(cfg, w) && P.Enabled(w, e) && OutOfReach(w, hour) && (AsksFor(e, hour) ==> BeforeReset(w, hour))
    requires c in P.Step(cfg, w, e).windows && (c in w.windows ==> P.Step(cfg, w, e).windows[c] != w.windows[c])
    ensures !G.Holds(P.Step(cfg, w, e).windows[c], hour)
  {
    assert e.Capture? && e.c == c;
    P.HoursGrow(w.queue.clock, e.now);
    CaptureMisses(w.tables.state.lastCutoff.value, w.queue.lastReset, e.floor, c.week, e.now, P.Step(cfg, w, e).windows[c], hour);
  }

  lemma UpsertMisses(h: R.Hourly, source: L.Ledger, window: R.Window, hour: int)
    requires !G.Holds(window, hour)
    ensures SameHourly(h, R.Upsert(h, P.RowsOf(window, source), window.cutoff), hour)
  {
  }

  /** Publications and activations leave the buckets of the hour alone, and the cursor goes no way back. */
  lemma BucketsStay(cfg: Q.Config, w: P.World, e: P.Event, hour: int)
    requires P.Inv(cfg, w) && P.Enabled(w, e) && OutOfReach(w, hour)
    ensures SameHourly(w.tables.hourly, P.Step(cfg, w, e).tables.hourly, hour)
    ensures P.AtMost(w.tables.state.lastCutoff, P.Step(cfg, w, e).tables.state.lastCutoff)
  {
    if e.Publish? && Q.Owns(w.queue, e.c) {
      UpsertMisses(w.tables.hourly, e.source, w.windows[e.c], hour);
    } else if e.Activate? && Q.Owns(w.queue, e.c) {
      var window, rows := w.windows[e.c], P.CandidateRows(w.windows[e.c], e.candidate);
      if e.candidate.Some? {
        UpsertMisses(w.tables.hourly, e.candidate.value, window, hour);
      }
      if R.Activate(e.l, e.pruned, w.tables, window, rows, e.version, e.now).Ok? {
        P.ActivationCutoffs(e.l, e.pruned, w.tables, window, rows, e.version, e.now);
      }
    }
  }

  lemma StepStaysOutOfReach(cfg: Q.Config, w: P.World, e: P.Event, hour: int)
    requires P.Inv(cfg, w) && P.Enabled(w, e) && ResetIsPast(w.queue) && OutOfReach(w, hour)
    requires AsksFor(e, hour) ==> BeforeReset(w, hour)
    ensures OutOfReach(P.Step(cfg, w, e), hour)
  {
    ClockStaysPast(cfg, w, e, hour);
    StaysOutOfHand(cfg, w, e, hour);
    BucketsStay(cfg, w, e, hour);
  }

  // ---------------------------------------------------------------- over whole histories

  lemma {:induction false} ReachableReset(cfg: Q.Config, l: L.Ledger, history: seq<Event>)
    requires L.WellFormed(l) && After(cfg, l, history).Some?
    ensures ResetIsPast(After(cfg, l, history).value.world.queue)
    decreases |history|
  {
    if history != [] {
      var before, last := history[..|history| - 1], history[|history| - 1];
      ReachableReset(cfg, l, before);
      ReachableInv(cfg, l, before);
      if last.Work? {
        ClockStaysPast(cfg, After(cfg, l, before).value.world, last.e, 0);
      }
    }
  }

  /** No row of the hour changes, and no run captures that was asked for its week, unless a reset has cut the
      hour off anyway. */
  predicate Spares(w: P.World, e: Event, hour: int) {
    match e
    case Grow(_, hours) => hour !in hours
    case Compute(_) => true
    case Work(p) => AsksFor(p, hour) ==> BeforeReset(w, hour)
  }

  ghost predicate SameTallies(a: L.Ledger, b: L.Ledger, hour: int) {
    forall m :: SameHour(a, b, m, hour)
  }

  /** What is out of reach stays so, and neither the hour's buckets nor its rows ever change. */
  ghost predicate LeftAlone(s: Live, t: Live, hour: int) {
    && OutOfReach(t.world, hour) && (BeforeReset(s.world, hour) ==> BeforeReset(t.world, hour))
    && SameHourly(s.world.tables.hourly, t.world.tables.hourly, hour) && SameTallies(s.ledger, t.ledger, hour)
  }

  lemma StepLeavesAlone(cfg: Q.Config, s: Live, t: Live, e: Event, hour: int)
    requires Inv(cfg, t) && ResetIsPast(t.world.queue) && Enabled(t, e)
    requires LeftAlone(s, t, hour) && Spares(s.world, e, hour)
    ensures LeftAlone(s, Step(cfg, t, e), hour)
  {
    match e
    case Grow(to, hours) =>
      forall m ensures SameHour(s.ledger, to, m, hour) {
        assert SameHour(s.ledger, t.ledger, m, hour) && SameHour(t.ledger, to, m, hour);
      }
    case Compute(_) =>
    case Work(w) =>
      StepStaysOutOfReach(cfg, t.world, w, hour);
      ClockStaysPast(cfg, t.world, w, hour);
      BucketsStay(cfg, t.world, w, hour);
  }

  lemma OneMore(history: seq<Event>, later: seq<Event>)
    requires later != []
    ensures history + later != []
    ensures (history + later)[..|history + later| - 1] == history + later[..|later| - 1]
    ensures (history + later)[|history + later| - 1] == later[|later| - 1]
  {
  }

  /** Once an hour is out of reach it stays so, and its buckets never change again, in every later history that does
      not ask for its week; after a reset past the hour, in every later history. */
  lemma {:induction false} OutOfReachForever(cfg: Q.Config, l: L.Ledger, history: seq<Event>, s: Live, later: seq<Event>, hour: int)
    requires L.WellFormed(l) && After(cfg, l, history) == Some(s) && After(cfg, l, history + later).Some?
    requires OutOfReach(s.world, hour) && forall e | e in later :: Spares(s.world, e, hour)
    ensures LeftAlone(s, After(cfg, l, history + later).value, hour)
    decreases |later|
  {
    if later == [] {
      assert history + later == history;
    } else {
      var before, last := later[..|later| - 1], later[|later| - 1];
      OneMore(history, later);
      assert last in later;
      OutOfReachForever(cfg, l, history, s, before, hour);
      ReachableInv(cfg, l, history + before);
      ReachableReset(cfg, l, history + before);
      StepLeavesAlone(cfg, s, After(cfg, l, history + before).value, last, hour);
    }
  }

  // ---------------------------------------------------------------- late rows

  /** Some bucket of the hour differs from the ledger. */
  ghost predicate Wrong(s: Live, hour: int) {
    exists m :: !HourAgrees(s.ledger, s.world.tables.hourly, m, hour)
  }

  lemma DiffersStill(l: L.Ledger, h: R.Hourly, to: L.Ledger, p: R.Hourly, m: L.Metric, hour: int)
    requires SameHour(l, to, m, hour) && SameHourly(h, p, hour) && !HourAgrees(l, h, m, hour)
    ensures !HourAgrees(to, p, m, hour)
  {
    var d :| R.BucketValue(h, R.Key(hour, d), m) != HourTally(l, m, d, hour);
    assert R.BucketValue(p, R.Key(hour, d), m) != HourTally(to, m, d, hour);
  }

  lemma WrongStays(s: Live, t: Live, hour: int)
    requires Wrong(s, hour) && LeftAlone(s, t, hour)
    ensures Wrong(t, hour)
  {
    var m :| !HourAgrees(s.ledger, s.world.tables.hourly, m, hour);
    assert SameHour(s.ledger, t.ledger, m, hour);
    DiffersStill(s.ledger, s.world.tables.hourly, t.ledger, t.world.tables.hourly, m, hour);
  }

  /** A late row whose hour is out of reach is never picked up. */
  lemma LateRowIsLost(cfg: Q.Config, l: L.Ledger, history: seq<Event>, s: Live, later: seq<Event>, hour: int)
    requires L.WellFormed(l) && After(cfg, l, history) == Some(s) && After(cfg, l, history + later).Some?
    requires OutOfReach(s.world, hour) && forall e | e in later :: Spares(s.world, e, hour)
    requires Wrong(s, hour)
    ensures Wrong(After(cfg, l, history + later).value, hour)
  {
    OutOfReachForever(cfg, l, history, s, later, hour);
    WrongStays(s, After(cfg, l, history + later).value, hour);
  }

  lemma Extend(cfg: Q.Config, l: L.Ledger, history: seq<Event>, s: Live, e: Event)
    requires After(cfg, l, history) == Some(s) && Enabled(s, e)
    ensures After(cfg, l, history + [e]) == Some(Step(cfg, s, e))
  {
    assert (history + [e])[..|history + [e]| - 1] == history;
  }

  /** The owner of a row captures, computes and publishes, with nothing in between. */
  function Run(s: Live, c: Q.Claim, now: Instant): seq<Event> {
    [Work(P.Capture(c, None, now)), Compute(c), Work(P.Publish(c, s.ledger, 1, now))]
  }

  lemma RunPublishes(cfg: Q.Config, l: L.Ledger, history: seq<Event>, s: Live, c: Q.Claim, now: Instant, window: R.Window)
    returns (t: Live)
    requires After(cfg, l, history) == Some(s) && c in s.world.queue.issued && Q.Owns(s.world.queue, c)
    requires s.world.queue.clock <= now
    requires R.CaptureWindow(s.world.tables.state.lastCutoff, s.world.queue.lastReset, None, c.week, now) == Ok(window)
    ensures After(cfg, l, history + Run(s, c, now)) == Some(t)
    ensures t.ledger == s.ledger && t.stale == Refreshed(s.stale, window, {})
    ensures t.world == P.Tick(s.world, now).(windows := s.world.windows[c := window],
                                             tables := R.Publish(s.world.tables, window, P.RowsOf(window, s.ledger), 1),
                                             published := s.world.published + [window])
  {
    var capture, compute, publish := Work(P.Capture(c, None, now)), Compute(c), Work(P.Publish(c, s.ledger, 1, now));
    Extend(cfg, l, history, s, capture);
    var captured := Step(cfg, s, capture);
    Extend(cfg, l, history + [capture], captured, compute);
    var computed := Step(cfg, captured, compute);
    Extend(cfg, l, history + [capture] + [compute], computed, publish);
    t := Step(cfg, computed, publish);
    assert history + Run(s, c, now) == history + [capture] + [compute] + [publish];
  }

  lemma WindowReaches(w: P.World, hour: int) returns (window: R.Window)
    requires w.tables.state.lastCutoff.Some? && hour < w.tables.state.lastCutoff.value <= HourOf(w.queue.clock)
    requires Recomputable(w, hour)
    ensures R.CaptureWindow(w.tables.state.lastCutoff, w.queue.lastReset, None, None, w.queue.clock) == Ok(window)
    ensures G.Holds(window, hour)
  {
    window := R.CaptureWindow(w.tables.state.lastCutoff, w.queue.lastReset, None, None, w.queue.clock).value;
  }

  /** A run of the owner from now on brings an hour within reach up to date. */
  lemma RunHeals(cfg: Q.Config, l: L.Ledger, history: seq<Event>, s: Live, c: Q.Claim, hour: int)
    requires L.WellFormed(l) && After(cfg, l, history) == Some(s)
    requires c in s.world.queue.issued && Q.Owns(s.world.queue, c) && c.week.None?
    requires P.AtMost(Some(hour + 1), s.world.tables.state.lastCutoff) && Recomputable(s.world, hour)
    ensures var run := history + Run(s, c, s.world.queue.clock);
      After(cfg, l, run).Some? && !Wrong(After(cfg, l, run).value, hour)
  {
    ReachableInv(cfg, l, history);
    var window := WindowReaches(s.world, hour);
    var t := RunPublishes(cfg, l, history, s, c, s.world.queue.clock, window);
    ReachableInv(cfg, l, history + Run(s, c, s.world.queue.clock));
    CoveredBefore(s.world.published, window, hour);
    assert hour !in t.stale;
  }

  /** Some later history that neither changes the hour's rows nor asks for its week brings it up to date. */
  ghost predicate CanHeal(cfg: Q.Config, l: L.Ledger, history: seq<Event>, s: Live, hour: int) {
    exists later ::
      && (forall e | e in later :: Spares(s.world, e, hour))
      && After(cfg, l, history + later).Some? && !Wrong(After(cfg, l, history + later).value, hour)
  }

  /** In every reachable state with an ordinary run under way, an hour that the cursor has passed and whose buckets
      differ from the ledger can still be brought up to date exactly when the trailing recomputation reaches it now,
      or is never brought up to date. */
  lemma LateRowsAreHealed(cfg: Q.Config, l: L.Ledger, history: seq<Event>, s: Live, c: Q.Claim, hour: int)
    requires L.WellFormed(l) && After(cfg, l, history) == Some(s)
    requires c in s.world.queue.issued && Q.Owns(s.world.queue, c) && c.week.None?
    requires P.AtMost(Some(hour + 1), s.world.tables.state.lastCutoff) && Wrong(s, hour) && !InHand(s.world, hour)
    ensures CanHeal(cfg, l, history, s, hour) <==> Recomputable(s.world, hour)
  {
    if Recomputable(s.world, hour) {
      RunHeals(cfg, l, history, s, c, hour);
      var run := Run(s, c, s.world.queue.clock);
      assert forall e | e in run :: Spares(s.world, e, hour);
    } else if CanHeal(cfg, l, history, s, hour) {
      var later :| (forall e | e in later :: Spares(s.world, e, hour)) &&
        After(cfg, l, history + later).Some? && !Wrong(After(cfg, l, history + later).value, hour);
      LateRowIsLost(cfg, l, history, s, later, hour);
    }
  }

  // ---------------------------------------------------------------- what a lost row does to activations

  ghost predicate AgreesAt(l: L.Ledger, h: R.Hourly, m: L.Metric, d: L.Dim, hour: int) {
    R.BucketValue(h, R.Key(hour, d), m) == HourTally(l, m, d, hour)
  }

  lemma OneWrongHourMismatches(l: L.Ledger, h: R.Hourly, m: L.Metric, d: L.Dim, hour: int, start: int, end: int)
    requires start <= hour < end && !AgreesAt(l, h, m, d, hour)
    requires A.HourlyAgrees(l, h, m, start, hour) && A.HourlyAgrees(l, h, m, hour + 1, end)
    ensures !R.Exact(l, h, start, end)
  {
    var k := R.WeekKey(WeekOf(hour), d);
    var lo, hi, fs := R.From(k.week, start), R.Until(k.week, end), L.FactsOf(l, m);
    WeekBounds(hour, k.week);
    A.SumOfHoursIsDirect(l, h, m, start, hour, d, lo, hour);
    A.SumOfHoursIsDirect(l, h, m, hour + 1, end, d, hour + 1, hi);
    A.SumBucketsSplits(h, d, m, lo, hour, hi);
    A.SumBucketsSplits(h, d, m, hour, hour + 1, hi);
    L.TallySplits(fs, d, lo, hour, hi);
    L.TallySplits(fs, d, hour, hour + 1, hi);
    assert R.SumBuckets(h, d, m, hour, hour + 1) == R.SumBuckets(h, d, m, hour, hour) + R.BucketValue(h, R.Key(hour, d), m);
    assert R.Expected(l, k, start, end).Get(m) != R.Actual(h, k, start, end).Get(m);
    A.ExactMeansEveryGroupMatches(l, h, start, end);
    assert !R.Matches(l, h, k, start, end);
  }

  /** Every hour of the range but one is published and up to date. */
  ghost predicate OthersUpToDate(published: seq<R.Window>, stale: set<int>, hour: int, start: int, end: int) {
    forall other | start <= other < end && other != hour :: G.Covered(published, other) && other !in stale
  }

  lemma WrongHourMismatches(l: L.Ledger, h: R.Hourly, published: seq<R.Window>, stale: set<int>, hour: int, start: int, end: int)
    requires Settled(l, h, published, stale) && OthersUpToDate(published, stale, hour, start, end) && start <= hour < end
    requires exists m :: !HourAgrees(l, h, m, hour)
    ensures !R.Exact(l, h, start, end)
  {
    var m :| !HourAgrees(l, h, m, hour);
    var d :| R.BucketValue(h, R.Key(hour, d), m) != HourTally(l, m, d, hour);
    SettledHoursAgree(l, h, published, stale, m, start, hour);
    SettledHoursAgree(l, h, published, stale, m, hour + 1, end);
    OneWrongHourMismatches(l, h, m, d, hour, start, end);
  }

  /** As long as a lost hour lies within the reconciliation bounds and the others are up to date, the owner's
      activation is refused. */
  lemma LostRowBlocksActivation(cfg: Q.Config, l: L.Ledger, history: seq<Event>, s: Live, c: Q.Claim, version: int,
                                pruned: Option<Instant>, now: Instant, start: int, end: int, hour: int)
    requires L.WellFormed(l) && After(cfg, l, history) == Some(s)
    requires c in s.drafts && c in s.world.windows && Q.Owns(s.world.queue, c)
    requires R.Bounds(CandidateOf(s, c, version).hourly, s.world.windows[c].cutoff, pruned) == Ok((start, end))
    requires OutOfReach(s.world, hour) && Wrong(s, hour) && start <= hour < end
    requires OthersUpToDate(s.world.published + [s.world.windows[c]],
                            Refreshed(s.stale, s.world.windows[c], s.drafts[c].since), hour, start, end)
    ensures R.Activate(s.ledger, pruned, s.world.tables, s.world.windows[c],
                       Some(P.RowsOf(s.world.windows[c], s.drafts[c].source)), version, now) == Err(R.ReconciliationMismatch)
  {
    ReachableInv(cfg, l, history);
    CandidateMismatches(cfg, s, c, version, start, end, hour);
  }

  lemma CandidateMismatches(cfg: Q.Config, s: Live, c: Q.Claim, version: int, start: int, end: int, hour: int)
    requires Inv(cfg, s) && c in s.drafts && c in s.world.windows && !G.Holds(s.world.windows[c], hour)
    requires Wrong(s, hour) && start <= hour < end
    requires OthersUpToDate(s.world.published + [s.world.windows[c]],
                            Refreshed(s.stale, s.world.windows[c], s.drafts[c].since), hour, start, end)
    ensures !R.Exact(s.ledger, CandidateOf(s, c, version).hourly, start, end)
  {
    var window, draft, h := s.world.windows[c], s.drafts[c], CandidateOf(s, c, version).hourly;
    assert DraftOk(s, c);
    PublishedIsSettled(s.ledger, s.world.tables.hourly, s.world.published, s.stale, window, draft);
    UpsertMisses(s.world.tables.hourly, draft.source, window, hour);
    var m :| !HourAgrees(s.ledger, s.world.tables.hourly, m, hour);
    DiffersStill(s.ledger, s.world.tables.hourly, s.ledger, h, m, hour);
    WrongHourMismatches(s.ledger, h, s.world.published + [window], Refreshed(s.stale, window, draft.since), hour, start, end);
  }
}
