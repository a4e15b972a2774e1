/** Workers over a ledger that goes on growing: which hours can be out of date, and why an activation fails. */
module LiveLedger {
  import opened Wrappers
  import opened Instants
  import opened Sorting
  import Q = ReportingQueue
  import L = Ledger
  import R = Rollups
  import A = RollupAgreement
  import P = Publication
  import G = GaplessWindows

  /** The ledger a worker computed its rows from, and the hours whose rows have changed since. */
  datatype Draft = Draft(source: L.Ledger, since: set<int>)

  /** `stale` holds the hours whose rows have changed since their buckets were last computed. */
  datatype Live = Live(world: P.World, ledger: L.Ledger, stale: set<int>, drafts: map<Q.Claim, Draft>)

  /** Rows appear at some hours or go, a worker reads the ledger, or anything of `Publication` happens. */
  datatype Event =
    | Grow(to: L.Ledger, hours: set<int>)
    | Compute(c: Q.Claim)
    | Work(e: P.Event)

  function Start(l: L.Ledger): Live {
    Live(P.START, l, {}, map[])
  }

  /** What the ledger says of one hour. */
  function HourTally(l: L.Ledger, m: L.Metric, d: L.Dim, hour: int): nat {
    L.Tally(L.FactsOf(l, m), d, hour, hour + 1)
  }

  ghost predicate SameHour(a: L.Ledger, b: L.Ledger, m: L.Metric, hour: int) {
    forall d :: HourTally(a, m, d, hour) == HourTally(b, m, d, hour)
  }

  /** The two ledgers aggregate alike in every other hour. */
  ghost predicate SameExcept(a: L.Ledger, b: L.Ledger, hours: set<int>) {
    a.skus == b.skus && forall m, hour | hour !in hours :: SameHour(a, b, m, hour)
  }

  /** Rows are computed from the ledger the worker has read after its capture, reconciliation reads the ledger as
      it is. */
  ghost predicate Enabled(s: Live, e: Event) {
    match e
    case Grow(to, hours) => L.WellFormed(to) && SameExcept(s.ledger, to, hours)
    case Compute(c) => c in s.world.windows
    case Work(w) =>
      && P.Enabled(s.world, w)
      && (w.Publish? ==> w.c in s.drafts && w.source == s.drafts[w.c].source)
      && (w.Activate? ==> w.l == s.ledger)
      && (w.Activate? && w.candidate.Some? ==> w.c in s.drafts && w.candidate.value == s.drafts[w.c].source)
  }

  function Grown(drafts: map<Q.Claim, Draft>, hours: set<int>): map<Q.Claim, Draft> {
    map c | c in drafts :: Draft(drafts[c].source, drafts[c].since + hours)
  }

  ghost predicate HasPublished(s: Live, v: P.World, w: P.Event) {
    && (w.Publish? || w.Activate?) && w.c in s.drafts && w.c in s.world.windows
    && v.published == s.world.published + [s.world.windows[w.c]]
  }

  /** What is out of date once a draft has been published over its window. */
  function Refreshed(stale: set<int>, window: R.Window, since: set<int>): set<int> {
    (set h | h in stale && !G.Holds(window, h)) + since
  }

  ghost function Step(cfg: Q.Config, s: Live, e: Event): Live
    requires Enabled(s, e)
  {
    match e
    case Grow(to, hours) => Live(s.world, to, s.stale + hours, Grown(s.drafts, hours))
    case Compute(c) => s.(drafts := s.drafts[c := Draft(s.ledger, {})])
    case Work(w) =>
      var v := P.Step(cfg, s.world, w);
      if HasPublished(s, v, w) then
        s.(world := v, stale := Refreshed(s.stale, s.world.windows[w.c], s.drafts[w.c].since))
      else s.(world := v, drafts := if w.Capture? then s.drafts - {w.c} else s.drafts)
  }

  ghost function After(cfg: Q.Config, l: L.Ledger, history: seq<Event>): Option<Live> {
    if history == [] then Some(Start(l))
    else
      match After(cfg, l, history[..|history| - 1])
      case None => None
      case Some(s) => if Enabled(s, history[|history| - 1]) then Some(Step(cfg, s, history[|history| - 1])) else None
  }

  // ---------------------------------------------------------------- appended rows

  lemma OneMoreFact(fs: seq<L.Fact>, f: L.Fact, d: L.Dim, hour: int)
    requires hour != f.hour
    ensures L.Tally(fs + [f], d, hour, hour + 1) == L.Tally(fs, d, hour, hour + 1)
  {
    assert (fs + [f])[..|fs|] == fs;
  }

  /** An appended row of any table changes no aggregate but those of its hour. */
  lemma AppendIsGrowth(l: L.Ledger, to: L.Ledger, hour: int)
    requires || (exists e :: to == l.(entries := l.entries + [e]) && HourOf(e.at) == hour)
             || (exists x :: to == l.(exits := l.exits + [x]) && HourOf(x.at) == hour)
             || (exists c :: to == l.(stockouts := l.stockouts + [c]) && HourOf(c.at) == hour)
             || (exists c :: to == l.(discrepancies := l.discrepancies + [c]) && HourOf(c.at) == hour)
    ensures SameExcept(l, to, {hour})
  {
    forall m, other | other !in {hour} ensures SameHour(l, to, m, other) {
      AppendedFacts(l, to, hour, m);
      if L.FactsOf(to, m) != L.FactsOf(l, m) {
        var f: L.Fact :| f.hour == hour && L.FactsOf(to, m) == L.FactsOf(l, m) + [f];
        forall d ensures HourTally(l, m, d, other) == HourTally(to, m, d, other) {
          OneMoreFact(L.FactsOf(l, m), f, d, other);
        }
      }
    }
  }

  lemma AppendedFacts(l: L.Ledger, to: L.Ledger, hour: int, m: L.Metric)
    requires || (exists e :: to == l.(entries := l.entries + [e]) && HourOf(e.at) == hour)
             || (exists x :: to == l.(exits := l.exits + [x]) && HourOf(x.at) == hour)
             || (exists c :: to == l.(stockouts := l.stockouts + [c]) && HourOf(c.at) == hour)
             || (exists c :: to == l.(discrepancies := l.discrepancies + [c]) && HourOf(c.at) == hour)
    ensures L.FactsOf(to, m) == L.FactsOf(l, m) ||
            exists f: L.Fact :: f.hour == hour && L.FactsOf(to, m) == L.FactsOf(l, m) + [f]
  {
    var a, b := L.FactsOf(l, m), L.FactsOf(to, m);
    if |b| == |a| + 1 {
      assert b == a + [b[|a|]];
    } else {
      assert b == a;
    }
  }

  // ---------------------------------------------------------------- the invariant

  /** One published hour agrees with the ledger in one metric. */
  ghost predicate HourAgrees(l: L.Ledger, h: R.Hourly, m: L.Metric, hour: int) {
    forall d :: R.BucketValue(h, R.Key(hour, d), m) == HourTally(l, m, d, hour)
  }

  /** Every published hour that is not stale agrees with the ledger. */
  ghost predicate Settled(l: L.Ledger, h: R.Hourly, published: seq<R.Window>, stale: set<int>) {
    forall m, hour | G.Covered(published, hour) && hour !in stale :: HourAgrees(l, h, m, hour)
  }

  ghost predicate DraftOk(s: Live, c: Q.Claim) {
    && c in s.drafts && c in s.world.windows && L.WellFormed(s.drafts[c].source)
    && SameExcept(s.drafts[c].source, s.ledger, s.drafts[c].since)
  }

  ghost predicate KeysOk(l: L.Ledger, t: R.Tables, published: seq<R.Window>) {
    forall k | k in t.hourly :: k.dim in L.Dims(l) && G.Covered(published, k.hour)
  }

  /** Published windows end at or before their cutoffs. */
  ghost predicate EndOk(published: seq<R.Window>) {
    forall i :: 0 <= i < |published| ==> published[i].end <= published[i].cutoff
  }

  ghost predicate Inv(cfg: Q.Config, s: Live) {
    && P.Inv(cfg, s.world) && EndOk(s.world.published) && L.WellFormed(s.ledger)
    && (forall c | c in s.drafts :: DraftOk(s, c))
    && KeysOk(s.ledger, s.world.tables, s.world.published)
    && Settled(s.ledger, s.world.tables.hourly, s.world.published, s.stale)
  }

  lemma GrowthKeepsHour(a: L.Ledger, b: L.Ledger, h: R.Hourly, m: L.Metric, hour: int, hours: set<int>)
    requires SameExcept(a, b, hours) && hour !in hours && HourAgrees(a, h, m, hour)
    ensures HourAgrees(b, h, m, hour)
  {
    assert SameHour(a, b, m, hour);
  }

  lemma SameExceptJoins(a: L.Ledger, b: L.Ledger, c: L.Ledger, first: set<int>, second: set<int>)
    requires SameExcept(a, b, first) && SameExcept(b, c, second)
    ensures SameExcept(a, c, first + second)
  {
    forall m, hour | hour !in first + second ensures SameHour(a, c, m, hour) {
      assert SameHour(a, b, m, hour) && SameHour(b, c, m, hour);
    }
  }

  lemma GrowthKeepsInv(cfg: Q.Config, s: Live, to: L.Ledger, hours: set<int>)
    requires Inv(cfg, s) && Enabled(s, Grow(to, hours))
    ensures Inv(cfg, Step(cfg, s, Grow(to, hours)))
  {
    var t := Step(cfg, s, Grow(to, hours));
    forall c | c in t.drafts ensures DraftOk(t, c) {
      assert DraftOk(s, c);
      SameExceptJoins(s.drafts[c].source, s.ledger, to, s.drafts[c].since, hours);
    }
    forall m, hour | G.Covered(s.world.published, hour) && hour !in t.stale
      ensures HourAgrees(to, s.world.tables.hourly, m, hour)
    {
      assert HourAgrees(s.ledger, s.world.tables.hourly, m, hour);
      GrowthKeepsHour(s.ledger, to, s.world.tables.hourly, m, hour, hours);
    }
  }

  /** The hours of a published draft agree with the ledger it was computed from, all others are as before. */
  lemma UpsertedHour(source: L.Ledger, h: R.Hourly, w: R.Window, m: L.Metric, hour: int)
    requires L.WellFormed(source) && forall k | k in h :: k.dim in L.Dims(source)
    ensures var p := R.Upsert(h, P.RowsOf(w, source), w.cutoff);
      if w.start <= hour < w.end then HourAgrees(source, p, m, hour) else SameBuckets(h, p, m, hour)
  {
    A.WellFormedHasOnlySkuFacts(source, m);
    GridHasRows(source, P.RowsOf(w, source), w, m);
    UpsertedGrid(source, h, P.RowsOf(w, source), w, m, hour);
  }

  /** What the grid says of one bucket. */
  ghost predicate RowAt(l: L.Ledger, rows: map<R.Key, R.Totals>, w: R.Window, m: L.Metric, k: R.Key) {
    && (k in rows <==> w.start <= k.hour < w.end && k.dim in L.Dims(l))
    && (k in rows ==> rows[k].Get(m) == HourTally(l, m, k.dim, k.hour))
    && (k.dim !in L.Dims(l) ==> HourTally(l, m, k.dim, k.hour) == 0)
  }

  lemma RowOfTotals(l: L.Ledger, rows: map<R.Key, R.Totals>, w: R.Window, m: L.Metric, k: R.Key)
    requires k in rows <==> w.start <= k.hour < w.end && k.dim in L.Dims(l)
    requires k in rows ==> rows[k] == R.TotalsOf(l, k.dim, k.hour, k.hour + 1)
    requires k.dim !in L.Dims(l) ==> HourTally(l, m, k.dim, k.hour) == 0
    ensures RowAt(l, rows, w, m, k)
  {
  }

  lemma NoSkuNoTally(l: L.Ledger, m: L.Metric, d: L.Dim, hour: int)
    requires A.OnlySkuFacts(l, m) && d !in L.Dims(l)
    ensures HourTally(l, m, d, hour) == 0
  {
  }

  lemma GridHasRows(l: L.Ledger, rows: map<R.Key, R.Totals>, w: R.Window, m: L.Metric)
    requires A.OnlySkuFacts(l, m) && R.IsGrid(l, rows, w.start, w.end)
    ensures forall k :: RowAt(l, rows, w, m, k)
  {
    forall k ensures RowAt(l, rows, w, m, k) {
      A.GridRow(l, rows, w.start, w.end, k);
      if k.dim !in L.Dims(l) {
        NoSkuNoTally(l, m, k.dim, k.hour);
      }
      RowOfTotals(l, rows, w, m, k);
    }
  }

  lemma UpsertedGrid(source: L.Ledger, h: R.Hourly, rows: map<R.Key, R.Totals>, w: R.Window, m: L.Metric, hour: int)
    requires forall k :: RowAt(source, rows, w, m, k)
    requires forall k | k in h :: k.dim in L.Dims(source)
    ensures var p := R.Upsert(h, rows, w.cutoff);
      if w.start <= hour < w.end then HourAgrees(source, p, m, hour) else SameBuckets(h, p, m, hour)
  {
    forall d ensures UpsertedBucket(source, h, R.Upsert(h, rows, w.cutoff), w, m, R.Key(hour, d)) {
      UpsertedDim(source, h, rows, w, m, R.Key(hour, d));
    }
  }

  ghost predicate UpsertedBucket(source: L.Ledger, h: R.Hourly, p: R.Hourly, w: R.Window, m: L.Metric, k: R.Key) {
    R.BucketValue(p, k, m) ==
      if w.start <= k.hour < w.end then HourTally(source, m, k.dim, k.hour) else R.BucketValue(h, k, m)
  }

  lemma UpsertedDim(source: L.Ledger, h: R.Hourly, rows: map<R.Key, R.Totals>, w: R.Window, m: L.Metric, k: R.Key)
    requires RowAt(source, rows, w, m, k) && (k in h ==> k.dim in L.Dims(source))
    ensures UpsertedBucket(source, h, R.Upsert(h, rows, w.cutoff), w, m, k)
  {
    A.UpsertedBucket(h, rows, w.cutoff, k, m);
  }

  ghost predicate SameBuckets(h: R.Hourly, p: R.Hourly, m: L.Metric, hour: int) {
    forall d :: R.BucketValue(p, R.Key(hour, d), m) == R.BucketValue(h, R.Key(hour, d), m)
  }

  lemma SameBucketsAgree(l: L.Ledger, h: R.Hourly, p: R.Hourly, m: L.Metric, hour: int)
    requires SameBuckets(h, p, m, hour) && HourAgrees(l, h, m, hour)
    ensures HourAgrees(l, p, m, hour)
  {
  }

  /** The tables after publishing a draft. */
  lemma PublishedIsSettled(l: L.Ledger, h: R.Hourly, published: seq<R.Window>, stale: set<int>, w: R.Window, draft: Draft)
    requires L.WellFormed(draft.source) && SameExcept(draft.source, l, draft.since)
    requires forall k | k in h :: k.dim in L.Dims(l)
    requires Settled(l, h, published, stale)
    ensures Settled(l, R.Upsert(h, P.RowsOf(w, draft.source), w.cutoff), published + [w], Refreshed(stale, w, draft.since))
  {
    var p := R.Upsert(h, P.RowsOf(w, draft.source), w.cutoff);
    forall m, hour | G.Covered(published + [w], hour) && hour !in Refreshed(stale, w, draft.since)
      ensures HourAgrees(l, p, m, hour)
    {
      UpsertedHour(draft.source, h, w, m, hour);
      if w.start <= hour < w.end {
        GrowthKeepsHour(draft.source, l, p, m, hour, draft.since);
      } else {
        CoveredBefore(published, w, hour);
        SameBucketsAgree(l, h, p, m, hour);
      }
    }
  }

  lemma CoveredBefore(published: seq<R.Window>, w: R.Window, hour: int)
    ensures G.Covered(published + [w], hour) <==> G.Covered(published, hour) || G.Holds(w, hour)
  {
    var ws := published + [w];
    G.OneMoreWindow(ws, hour);
    assert ws[..|ws| - 1] == published;
  }

  lemma PublishedKeys(l: L.Ledger, t: R.Tables, published: seq<R.Window>, w: R.Window, source: L.Ledger, version: int)
    requires KeysOk(l, t, published) && source.skus == l.skus
    ensures KeysOk(l, R.Publish(t, w, P.RowsOf(w, source), version), published + [w])
  {
    forall k | k in R.Publish(t, w, P.RowsOf(w, source), version).hourly
      ensures k.dim in L.Dims(l) && G.Covered(published + [w], k.hour)
    {
      CoveredBefore(published, w, k.hour);
      assert k in P.RowsOf(w, source) || k in t.hourly;
    }
  }

  /** What an activation leaves of the hourly table: the published candidate, or what was there. */
  lemma ActivatedHourly(s: Live, w: P.Event)
    requires w.Activate? && P.Enabled(s.world, w)
    ensures var v := P.ActivatedBy(s.world, w.c, w.candidate, w.version, w.l, w.pruned, w.now);
      if v.published == s.world.published then v.tables.hourly == s.world.tables.hourly
      else w.candidate.Some? && v.tables.hourly == R.Upsert(s.world.tables.hourly,
             P.RowsOf(s.world.windows[w.c], w.candidate.value), s.world.windows[w.c].cutoff)
  {
    var rows := P.CandidateRows(s.world.windows[w.c], w.candidate);
    if R.Activate(w.l, w.pruned, s.world.tables, s.world.windows[w.c], rows, w.version, w.now).Ok? {
      P.ActivationCutoffs(w.l, w.pruned, s.world.tables, s.world.windows[w.c], rows, w.version, w.now);
    }
  }

  /** What a load that publishes leaves behind, by publication or by activation. */
  lemma LoadedTables(cfg: Q.Config, s: Live, w: P.Event)
    requires Enabled(s, Work(w)) && HasPublished(s, P.Step(cfg, s.world, w), w)
    ensures P.Step(cfg, s.world, w).tables.hourly ==
      R.Upsert(s.world.tables.hourly, P.RowsOf(s.world.windows[w.c], s.drafts[w.c].source), s.world.windows[w.c].cutoff)
  {
    if w.Activate? {
      ActivatedHourly(s, w);
    }
  }

  lemma DraftsStay(cfg: Q.Config, s: Live, w: P.Event, c: Q.Claim)
    requires Enabled(s, Work(w)) && (c in s.drafts ==> DraftOk(s, c))
    ensures c in Step(cfg, s, Work(w)).drafts ==> DraftOk(Step(cfg, s, Work(w)), c)
  {
    if c in s.drafts {
      G.WindowsStay(cfg, s.world, w, c);
    }
  }

  lemma OneMoreEndOk(ws: seq<R.Window>, window: R.Window)
    requires EndOk(ws) && window.end <= window.cutoff
    ensures EndOk(ws + [window])
  {
  }

  lemma LoadKeepsInv(cfg: Q.Config, s: Live, w: P.Event)
    requires Inv(cfg, s) && Enabled(s, Work(w)) && HasPublished(s, P.Step(cfg, s.world, w), w)
    ensures Inv(cfg, Step(cfg, s, Work(w)))
  {
    var t := Step(cfg, s, Work(w));
    P.StepKeepsInv(cfg, s.world, w);
    assert P.WindowOk(s.world, w.c, s.world.windows[w.c]);
    OneMoreEndOk(s.world.published, s.world.windows[w.c]);
    LoadedIsSettled(cfg, s, w);
    forall c | c in t.drafts ensures DraftOk(t, c) {
      DraftsStay(cfg, s, w, c);
    }
  }

  lemma LoadedIsSettled(cfg: Q.Config, s: Live, w: P.Event)
    requires Inv(cfg, s) && Enabled(s, Work(w)) && HasPublished(s, P.Step(cfg, s.world, w), w)
    ensures var t := Step(cfg, s, Work(w));
      && KeysOk(t.ledger, t.world.tables, t.world.published)
      && Settled(t.ledger, t.world.tables.hourly, t.world.published, t.stale)
  {
    var window, draft := s.world.windows[w.c], s.drafts[w.c];
    LoadedTables(cfg, s, w);
    assert DraftOk(s, w.c);
    PublishedIsSettled(s.ledger, s.world.tables.hourly, s.world.published, s.stale, window, draft);
    PublishedKeys(s.ledger, s.world.tables, s.world.published, window, draft.source, 0);
  }

  /** Everything else leaves the buckets and the published windows alone. */
  lemma OtherWork(cfg: Q.Config, s: Live, w: P.Event)
    requires Enabled(s, Work(w)) && !HasPublished(s, P.Step(cfg, s.world, w), w)
    ensures var v := P.Step(cfg, s.world, w);
      v.published == s.world.published && v.tables.hourly == s.world.tables.hourly
  {
    if w.Activate? {
      ActivatedHourly(s, w);
    }
  }

  lemma OtherWorkKeepsInv(cfg: Q.Config, s: Live, w: P.Event)
    requires Inv(cfg, s) && Enabled(s, Work(w)) && !HasPublished(s, P.Step(cfg, s.world, w), w)
    ensures Inv(cfg, Step(cfg, s, Work(w)))
  {
    var t := Step(cfg, s, Work(w));
    P.StepKeepsInv(cfg, s.world, w);
    OtherWork(cfg, s, w);
    forall c | c in t.drafts ensures DraftOk(t, c) {
      DraftsStay(cfg, s, w, c);
    }
  }

  lemma StepKeepsInv(cfg: Q.Config, s: Live, e: Event)
    requires Inv(cfg, s) && Enabled(s, e)
    ensures Inv(cfg, Step(cfg, s, e))
  {
    match e
    case Grow(to, hours) => GrowthKeepsInv(cfg, s, to, hours);
    case Compute(c) => ComputeKeepsInv(cfg, s, c);
    case Work(w) =>
      if HasPublished(s, P.Step(cfg, s.world, w), w) {
        LoadKeepsInv(cfg, s, w);
      } else {
        OtherWorkKeepsInv(cfg, s, w);
      }
  }

  lemma ComputeKeepsInv(cfg: Q.Config, s: Live, c: Q.Claim)
    requires Inv(cfg, s) && c in s.world.windows
    ensures Inv(cfg, s.(drafts := s.drafts[c := Draft(s.ledger, {})]))
  {
    var t := s.(drafts := s.drafts[c := Draft(s.ledger, {})]);
    forall d | d in t.drafts ensures DraftOk(t, d) {
      assert d != c ==> DraftOk(s, d);
    }
  }

  /** In every reachable state, week-scoped runs and resets included, each published hour agrees with the ledger in
      all eight metrics, except for hours whose rows have changed since they were last computed. */
  lemma {:induction false} ReachableInv(cfg: Q.Config, l: L.Ledger, history: seq<Event>)
    requires L.WellFormed(l) && After(cfg, l, history).Some?
    ensures Inv(cfg, After(cfg, l, history).value)
    decreases |history|
  {
    if history != [] {
      var before := history[..|history| - 1];
      ReachableInv(cfg, l, before);
      StepKeepsInv(cfg, After(cfg, l, before).value, history[|history| - 1]);
    }
  }

  // ---------------------------------------------------------------- why an activation fails

  lemma BoundsHaveBuckets(h: R.Hourly, cutoff: int, pruned: Option<Instant>, start: int, end: int)
    returns (first: R.Key, last: R.Key)
    requires R.Bounds(h, cutoff, pruned) == Ok((start, end))
    ensures first in h && last in h && first.hour <= start && end <= last.hour + 1
  {
    var visible := R.Visible(h, cutoff);
    var hours := R.Hours(visible);
    first :| first in visible && first.hour == Least(hours, R.Early);
    last :| last in visible && last.hour == Least(hours, R.Late);
  }

  // Histories without week-scoped runs and resets: the bounds lie within the published hours.

  predicate Ordinary(e: Event) {
    e.Work? ==> G.Unscoped(e.e)
  }

  lemma {:induction false} OrdinaryIsGapless(cfg: Q.Config, l: L.Ledger, history: seq<Event>)
    requires L.WellFormed(l) && After(cfg, l, history).Some? && forall e | e in history :: Ordinary(e)
    ensures G.Gapless(After(cfg, l, history).value.world)
    decreases |history|
  {
    if history != [] {
      var before, last := history[..|history| - 1], history[|history| - 1];
      assert last in history;
      OrdinaryIsGapless(cfg, l, before);
      ReachableInv(cfg, l, before);
      if last.Work? {
        G.StepStaysGapless(cfg, After(cfg, l, before).value.world, last.e);
      }
    }
  }

  /** The owner's window continues the published ones. */
  lemma OwnerTouches(cfg: Q.Config, s: Live, c: Q.Claim)
    requires Inv(cfg, s) && G.Gapless(s.world) && c in s.world.windows && Q.Owns(s.world.queue, c)
    ensures G.Touching(s.world.published + [s.world.windows[c]])
  {
    assert P.WindowOk(s.world, c, s.world.windows[c]) && G.Next(s.world, c, s.world.windows[c]);
    G.AppendTouches(s.world.published, s.world.windows[c]);
  }

  lemma TouchingBoundsAreCovered(l: L.Ledger, t: R.Tables, ws: seq<R.Window>, cutoff: int, pruned: Option<Instant>,
                                 start: int, end: int, hour: int)
    requires G.Touching(ws) && KeysOk(l, t, ws) && R.Bounds(t.hourly, cutoff, pruned) == Ok((start, end))
    requires start <= hour < end
    ensures G.Covered(ws, hour)
  {
    var first, last := BoundsHaveBuckets(t.hourly, cutoff, pruned, start, end);
    assert G.Covered(ws, first.hour) && G.Covered(ws, last.hour);
    G.TouchingIsAnInterval(ws, first.hour);
    G.TouchingIsAnInterval(ws, last.hour);
    G.TouchingIsAnInterval(ws, hour);
  }

  lemma SettledHoursAgree(l: L.Ledger, h: R.Hourly, ws: seq<R.Window>, stale: set<int>, m: L.Metric, start: int, end: int)
    requires Settled(l, h, ws, stale)
    requires forall hour | start <= hour < end :: G.Covered(ws, hour) && hour !in stale
    ensures A.HourlyAgrees(l, h, m, start, end)
  {
    forall hour, d | start <= hour < end
      ensures R.BucketValue(h, R.Key(hour, d), m) == L.Tally(L.FactsOf(l, m), d, hour, hour + 1)
    {
      assert HourAgrees(l, h, m, hour);
      assert R.BucketValue(h, R.Key(hour, d), m) == HourTally(l, m, d, hour);
    }
  }

  /** The tables an activation of a draft works on. */
  function CandidateOf(s: Live, c: Q.Claim, version: int): R.Tables
    requires c in s.drafts && c in s.world.windows
  {
    R.Publish(s.world.tables, s.world.windows[c], P.RowsOf(s.world.windows[c], s.drafts[c].source), version)
  }

  /** Every hour of the range is published once the draft is. */
  ghost predicate AllCovered(s: Live, c: Q.Claim, start: int, end: int)
    requires c in s.world.windows
  {
    forall hour | start <= hour < end :: G.Covered(s.world.published + [s.world.windows[c]], hour)
  }

  lemma BoundsAreCovered(cfg: Q.Config, s: Live, c: Q.Claim, version: int, pruned: Option<Instant>, start: int, end: int)
    requires Inv(cfg, s) && G.Gapless(s.world) && c in s.drafts && c in s.world.windows && Q.Owns(s.world.queue, c)
    requires R.Bounds(CandidateOf(s, c, version).hourly, s.world.windows[c].cutoff, pruned) == Ok((start, end))
    ensures AllCovered(s, c, start, end)
  {
    var window := s.world.windows[c];
    assert DraftOk(s, c);
    OwnerTouches(cfg, s, c);
    PublishedKeys(s.ledger, s.world.tables, s.world.published, window, s.drafts[c].source, version);
    forall hour | start <= hour < end ensures G.Covered(s.world.published + [window], hour) {
      TouchingBoundsAreCovered(s.ledger, CandidateOf(s, c, version), s.world.published + [window], window.cutoff, pruned,
                               start, end, hour);
    }
  }

  /** No hour of the range is out of date once the draft is published. */
  ghost predicate UpToDate(s: Live, c: Q.Claim, start: int, end: int)
    requires c in s.drafts && c in s.world.windows
  {
    forall hour | start <= hour < end :: hour !in Refreshed(s.stale, s.world.windows[c], s.drafts[c].since)
  }

  /** Reconciliation finds no differing metric in any group, and the activation succeeds exactly when every
      discrepancy rate has its denominator. */
  ghost predicate FailsOnlyForRates(s: Live, c: Q.Claim, version: int, pruned: Option<Instant>, now: Instant, start: int, end: int)
    requires c in s.drafts && c in s.world.windows
  {
    var h := CandidateOf(s, c, version).hourly;
    && (forall k :: R.Expected(s.ledger, k, start, end) == R.Actual(h, k, start, end))
    && (R.Activate(s.ledger, pruned, s.world.tables, s.world.windows[c],
                   Some(P.RowsOf(s.world.windows[c], s.drafts[c].source)), version, now).Ok? <==>
        forall k | k in R.ReconciliationKeys(s.ledger, h, start, end) :: R.RateHasDenominator(h, k, start, end))
  }

  lemma CandidateAgrees(cfg: Q.Config, s: Live, c: Q.Claim, version: int, start: int, end: int, m: L.Metric)
    requires Inv(cfg, s) && c in s.drafts && c in s.world.windows
    requires AllCovered(s, c, start, end) && UpToDate(s, c, start, end)
    ensures A.HourlyAgrees(s.ledger, CandidateOf(s, c, version).hourly, m, start, end)
  {
    var window, draft := s.world.windows[c], s.drafts[c];
    assert DraftOk(s, c);
    PublishedIsSettled(s.ledger, s.world.tables.hourly, s.world.published, s.stale, window, draft);
    SettledHoursAgree(s.ledger, CandidateOf(s, c, version).hourly, s.world.published + [window],
                      Refreshed(s.stale, window, draft.since), m, start, end);
  }

  /** Once reconciled, nothing else can stop the owner's activation. */
  lemma OnlyReconciliationStops(l: L.Ledger, pruned: Option<Instant>, t: R.Tables, w: R.Window, rows: map<R.Key, R.Totals>,
                                version: int, now: Instant, start: int, end: int)
    requires R.Publish(t, w, rows, version).state.lastCutoff == Some(w.cutoff)
    requires R.Bounds(R.Publish(t, w, rows, version).hourly, w.cutoff, pruned) == Ok((start, end))
    ensures R.Activate(l, pruned, t, w, Some(rows), version, now).Ok? <==>
            R.Exact(l, R.Publish(t, w, rows, version).hourly, start, end)
  {
  }

  /** In every reachable state, over every growth of the ledger: if every hour within the reconciliation bounds is
      published once the draft is, and none is then out of date, no group differs in any of the eight metrics, and
      the owner's activation succeeds exactly when every discrepancy rate has its denominator. */
  lemma ActivationFailsOnlyForRates(cfg: Q.Config, l: L.Ledger, history: seq<Event>, s: Live, c: Q.Claim, version: int,
                                    pruned: Option<Instant>, now: Instant, start: int, end: int)
    requires L.WellFormed(l) && After(cfg, l, history) == Some(s)
    requires c in s.drafts && c in s.world.windows && Q.Owns(s.world.queue, c)
    requires R.Bounds(CandidateOf(s, c, version).hourly, s.world.windows[c].cutoff, pruned) == Ok((start, end))
    requires AllCovered(s, c, start, end) && UpToDate(s, c, start, end)
    ensures FailsOnlyForRates(s, c, version, pruned, now, start, end)
  {
    ReachableInv(cfg, l, history);
    forall m ensures A.HourlyAgrees(s.ledger, CandidateOf(s, c, version).hourly, m, start, end) {
      CandidateAgrees(cfg, s, c, version, start, end, m);
    }
    A.AgreeingHoursReconcile(s.ledger, CandidateOf(s, c, version).hourly, start, end);
    OwnerIsStoppedOnlyByReconciliation(cfg, s, c, version, pruned, now, start, end);
  }

  lemma OwnerIsStoppedOnlyByReconciliation(cfg: Q.Config, s: Live, c: Q.Claim, version: int, pruned: Option<Instant>,
                                           now: Instant, start: int, end: int)
    requires Inv(cfg, s) && c in s.drafts && c in s.world.windows && Q.Owns(s.world.queue, c)
    requires R.Bounds(CandidateOf(s, c, version).hourly, s.world.windows[c].cutoff, pruned) == Ok((start, end))
    ensures R.Activate(s.ledger, pruned, s.world.tables, s.world.windows[c],
                       Some(P.RowsOf(s.world.windows[c], s.drafts[c].source)), version, now).Ok? <==>
            R.Exact(s.ledger, CandidateOf(s, c, version).hourly, start, end)
  {
    var rows := P.RowsOf(s.world.windows[c], s.drafts[c].source);
    assert P.WindowOk(s.world, c, s.world.windows[c]);
    P.OwnerPublishesForward(s.world, c, rows, version);
    OnlyReconciliationStops(s.ledger, pruned, s.world.tables, s.world.windows[c], rows, version, now, start, end);
  }

  // ---------------------------------------------------------------- rows that arrive on time

  /** New rows are dated in the hour of the clock or later. */
  ghost predicate OnTime(s: Live, e: Event) {
    e.Grow? ==> forall hour | hour in e.hours :: HourOf(s.world.queue.clock) <= hour
  }

  ghost predicate AlwaysOnTime(cfg: Q.Config, l: L.Ledger, history: seq<Event>) {
    history == [] ||
    (var before := history[..|history| - 1];
     && AlwaysOnTime(cfg, l, before)
     && (After(cfg, l, before).Some? ==> OnTime(After(cfg, l, before).value, history[|history| - 1])))
  }

  /** What has changed since a capture lies beyond its cutoff. */
  ghost predicate DraftFresh(s: Live, c: Q.Claim) {
    c in s.drafts && c in s.world.windows && forall hour | hour in s.drafts[c].since :: s.world.windows[c].cutoff <= hour
  }

  /** No published hour is out of date. */
  ghost predicate Fresh(s: Live) {
    && (forall hour | hour in s.stale :: !G.Covered(s.world.published, hour))
    && (forall c | c in s.drafts :: DraftFresh(s, c))
  }

  lemma CoveredIsPast(cfg: Q.Config, s: Live, hour: int)
    requires Inv(cfg, s) && G.Covered(s.world.published, hour)
    ensures P.AtMost(Some(hour + 1), s.world.tables.state.lastCutoff) && hour < HourOf(s.world.queue.clock)
  {
    var ws := s.world.published;
    var i :| 0 <= i < |ws| && G.Holds(ws[i], hour);
    assert ws[i].cutoff <= ws[|ws| - 1].cutoff;
  }

  lemma GrowthStaysFresh(cfg: Q.Config, s: Live, to: L.Ledger, hours: set<int>)
    requires Inv(cfg, s) && Fresh(s) && Enabled(s, Grow(to, hours)) && OnTime(s, Grow(to, hours))
    ensures Fresh(Step(cfg, s, Grow(to, hours)))
  {
    var t := Step(cfg, s, Grow(to, hours));
    forall hour | hour in t.stale ensures !G.Covered(t.world.published, hour) {
      if hour in hours && G.Covered(s.world.published, hour) {
        CoveredIsPast(cfg, s, hour);
      }
    }
    forall c | c in t.drafts ensures DraftFresh(t, c) {
      assert DraftFresh(s, c) && P.WindowOk(s.world, c, s.world.windows[c]);
    }
  }

  /** Publishing a fresh draft leaves no published hour out of date. */
  lemma NothingStaysStale(cfg: Q.Config, s: Live, c: Q.Claim, hour: int)
    requires Inv(cfg, s) && Fresh(s) && c in s.drafts && c in s.world.windows && Q.Owns(s.world.queue, c)
    requires hour in Refreshed(s.stale, s.world.windows[c], s.drafts[c].since)
    ensures !G.Covered(s.world.published + [s.world.windows[c]], hour)
  {
    var window := s.world.windows[c];
    CoveredBefore(s.world.published, window, hour);
    assert DraftFresh(s, c) && P.WindowOk(s.world, c, window);
    if G.Covered(s.world.published, hour) {
      CoveredIsPast(cfg, s, hour);
    }
  }

  lemma WorkStaysFresh(cfg: Q.Config, s: Live, w: P.Event)
    requires Inv(cfg, s) && Fresh(s) && Enabled(s, Work(w))
    ensures Fresh(Step(cfg, s, Work(w)))
  {
    var t, v := Step(cfg, s, Work(w)), P.Step(cfg, s.world, w);
    if HasPublished(s, v, w) {
      LoaderOwns(cfg, s, w);
      forall hour | hour in t.stale ensures !G.Covered(t.world.published, hour) {
        NothingStaysStale(cfg, s, w.c, hour);
      }
    } else {
      OtherWork(cfg, s, w);
    }
    forall c | c in t.drafts ensures DraftFresh(t, c) {
      assert DraftFresh(s, c);
      G.WindowsStay(cfg, s.world, w, c);
    }
  }

  lemma LoaderOwns(cfg: Q.Config, s: Live, w: P.Event)
    requires Enabled(s, Work(w)) && HasPublished(s, P.Step(cfg, s.world, w), w)
    ensures Q.Owns(s.world.queue, w.c)
  {
  }

  lemma {:induction false} OnTimeIsFresh(cfg: Q.Config, l: L.Ledger, history: seq<Event>)
    requires L.WellFormed(l) && After(cfg, l, history).Some? && AlwaysOnTime(cfg, l, history)
    ensures Fresh(After(cfg, l, history).value)
    decreases |history|
  {
    if history != [] {
      var before, last := history[..|history| - 1], history[|history| - 1];
      OnTimeIsFresh(cfg, l, before);
      ReachableInv(cfg, l, before);
      var s := After(cfg, l, before).value;
      match last
      case Grow(to, hours) => GrowthStaysFresh(cfg, s, to, hours);
      case Compute(c) => ComputeStaysFresh(cfg, s, c);
      case Work(w) => WorkStaysFresh(cfg, s, w);
    }
  }

  lemma ComputeStaysFresh(cfg: Q.Config, s: Live, c: Q.Claim)
    requires Fresh(s) && Enabled(s, Compute(c))
    ensures Fresh(Step(cfg, s, Compute(c)))
  {
    var t := Step(cfg, s, Compute(c));
    forall d | d in t.drafts ensures DraftFresh(t, d) {
      assert d != c ==> DraftFresh(s, d);
    }
  }

  /** If rows always arrive on time, then whatever else happened before, in every reachable state the owner's
      activation finds no differing metric and can fail only for a rate without its denominator (or for want of
      hours to verify), as long as the hours within the bounds are published; and they always are when there was no
      week-scoped run and no reset. */
  lemma OnTimeActivationsFailOnlyForRates(cfg: Q.Config, l: L.Ledger, history: seq<Event>, s: Live, c: Q.Claim, version: int,
                                          pruned: Option<Instant>, now: Instant, start: int, end: int)
    requires L.WellFormed(l) && After(cfg, l, history) == Some(s) && AlwaysOnTime(cfg, l, history)
    requires c in s.drafts && c in s.world.windows && Q.Owns(s.world.queue, c)
    requires R.Bounds(CandidateOf(s, c, version).hourly, s.world.windows[c].cutoff, pruned) == Ok((start, end))
    requires AllCovered(s, c, start, end) || forall e | e in history :: Ordinary(e)
    ensures FailsOnlyForRates(s, c, version, pruned, now, start, end)
  {
    ReachableInv(cfg, l, history);
    OnTimeIsFresh(cfg, l, history);
    if !AllCovered(s, c, start, end) {
      OrdinaryIsGapless(cfg, l, history);
      BoundsAreCovered(cfg, s, c, version, pruned, start, end);
    }
    CoveredIsUpToDate(cfg, s, c, start, end);
    ActivationFailsOnlyForRates(cfg, l, history, s, c, version, pruned, now, start, end);
  }

  lemma CoveredIsUpToDate(cfg: Q.Config, s: Live, c: Q.Claim, start: int, end: int)
    requires Inv(cfg, s) && Fresh(s) && c in s.drafts && c in s.world.windows && Q.Owns(s.world.queue, c)
    requires AllCovered(s, c, start, end)
    ensures UpToDate(s, c, start, end)
  {
    forall hour | start <= hour < end ensures hour !in Refreshed(s.stale, s.world.windows[c], s.drafts[c].since) {
      if hour in Refreshed(s.stale, s.world.windows[c], s.drafts[c].since) {
        NothingStaysStale(cfg, s, c, hour);
      }
    }
  }
}
