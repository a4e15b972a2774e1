/** A successful activation makes the weekly table agree with the reference report on the raw ledger. */
module Activation {
  import opened Wrappers
  import opened Instants
  import opened Sorting
  import opened Ledger
  import opened WeeklyKpis
  import opened Rollups
  import opened RollupAgreement
  import opened VerifiedRange

  // ---------------------------------------------------------------- the ledger as report input

  function Dispatches(xs: seq<Exit>): (ds: seq<Exit>)
    ensures forall d | d in ds :: d in xs && d.kind == Dispatch
  {
    if xs == [] then []
    else if xs[|xs| - 1].kind == Dispatch then Dispatches(xs[..|xs| - 1]) + [xs[|xs| - 1]]
    else Dispatches(xs[..|xs| - 1])
  }

  function EntryRecord(l: Ledger, e: Entry): Record {
    Record(Some(e.id), Some(e.at), Some(e.quantity), Some(e.warehouse), Some(ClientOf(l.skus, e.sku)))
  }

  function ExitRecord(l: Ledger, x: Exit): Record {
    Record(Some(x.id), Some(x.at), Some(x.quantity), Some(x.warehouse), Some(ClientOf(l.skus, x.sku)))
  }

  function ChildRecord(c: Child): Record {
    Record(Some(c.id), Some(c.at), Some(c.delta), Some(c.dim.warehouse), Some(c.dim.client))
  }

  function RecordsOf(l: Ledger, s: Source): seq<Record> {
    match s
    case Inbound => seq(|l.entries|, i requires 0 <= i < |l.entries| => EntryRecord(l, l.entries[i]))
    case Outbound => var ds := Dispatches(l.exits); seq(|ds|, i requires 0 <= i < |ds| => ExitRecord(l, ds[i]))
    case StockoutEvent => seq(|l.stockouts|, i requires 0 <= i < |l.stockouts| => ChildRecord(l.stockouts[i]))
    case DiscrepancyEvent => seq(|l.discrepancies|, i requires 0 <= i < |l.discrepancies| => ChildRecord(l.discrepancies[i]))
  }

  function ActivityOf(l: Ledger): Activity {
    map s | s in Elements(SOURCES) :: RecordsOf(l, s)
  }

  function SkuPairs(l: Ledger): set<PairInput> {
    set d | d in Dims(l) :: PairInput(Some(d.warehouse), Some(d.client))
  }

  function PairOfDim(d: Dim): Pair {
    Pair(SiteOf(d.warehouse), d.client)
  }

  /** The event a ledger row normalizes to. */
  function EventFrom(s: Source, r: Record): Event
    requires Normalize(s, r).Some?
  {
    Normalize(s, r).value
  }

  ghost predicate ValidRecords(s: Source, rs: seq<Record>) {
    && (forall i :: 0 <= i < |rs| ==> Normalize(s, rs[i]).Some?)
    && (forall i, j :: 0 <= i < j < |rs| ==> rs[i].id.value < rs[j].id.value)
  }

  function EventsFrom(s: Source, rs: seq<Record>): (es: seq<Event>)
    requires forall i :: 0 <= i < |rs| ==> Normalize(s, rs[i]).Some?
    ensures |es| == |rs| && forall i :: 0 <= i < |rs| ==> Normalize(s, rs[i]) == Some(es[i])
  {
    seq(|rs|, i requires 0 <= i < |rs| => EventFrom(s, rs[i]))
  }

  lemma AscendingRecordsAreClean(s: Source, rs: seq<Record>)
    requires ValidRecords(s, rs)
    ensures Clean(s, Elements(rs))
  {
  }

  lemma RecordsListEvents(s: Source, rs: seq<Record>)
    requires forall i :: 0 <= i < |rs| ==> Normalize(s, rs[i]).Some?
    ensures Lists(EventsFrom(s, rs), EventsOf(s, Elements(rs)))
  {
  }

  /** Records in ascending id normalize to their events, in order. */
  lemma AscendingRecordsNormalize(s: Source, rs: seq<Record>)
    requires ValidRecords(s, rs)
    ensures NormalizeSource(s, Elements(rs)) == Ok(EventsFrom(s, rs))
  {
    var events := EventsOf(s, Elements(rs));
    AscendingRecordsAreClean(s, rs);
    RecordsListEvents(s, rs);
    CleanIsRanked(s, Elements(rs));
    SortedUnique(EventsFrom(s, rs), Sorted(events, EventRank), events, EventRank);
  }

  ghost predicate Below(xs: seq<Exit>, id: nat) {
    forall i :: 0 <= i < |xs| ==> xs[i].id < id
  }

  lemma {:induction false} DispatchesBelow(xs: seq<Exit>, id: nat)
    requires Below(xs, id)
    ensures Below(Dispatches(xs), id)
  {
  }

  ghost predicate Ascends(xs: seq<Exit>) {
    forall i, j :: 0 <= i < j < |xs| ==> xs[i].id < xs[j].id
  }

  lemma AscendsAppend(xs: seq<Exit>, x: Exit)
    requires Ascends(xs) && Below(xs, x.id)
    ensures Ascends(xs + [x])
  {
  }

  lemma {:induction false} DispatchesAscend(xs: seq<Exit>)
    requires Ascends(xs)
    ensures Ascends(Dispatches(xs))
  {
    if xs != [] {
      var init, last := xs[..|xs| - 1], xs[|xs| - 1];
      DispatchesAscend(init);
      DispatchesBelow(init, last.id);
      AscendsAppend(Dispatches(init), last);
    }
  }

  lemma EntryRecordsAreValid(l: Ledger)
    requires WellFormed(l)
    ensures ValidRecords(Inbound, RecordsOf(l, Inbound))
  {
  }

  lemma DispatchRecordsAreValid(l: Ledger)
    requires WellFormed(l)
    ensures ValidRecords(Outbound, RecordsOf(l, Outbound))
  {
    var ds, rs := Dispatches(l.exits), RecordsOf(l, Outbound);
    DispatchesAscend(l.exits);
    forall i | 0 <= i < |rs| ensures Normalize(Outbound, rs[i]).Some? && rs[i].id == Some(ds[i].id) {
      assert ds[i] in ds && ds[i] in l.exits;
      assert rs[i] == ExitRecord(l, ds[i]);
    }
  }

  lemma ChildRecordsAreValid(l: Ledger, s: Source)
    requires WellFormed(l) && (s == StockoutEvent || s == DiscrepancyEvent)
    ensures ValidRecords(s, RecordsOf(l, s))
  {
  }

  lemma LedgerRecordsAreValid(l: Ledger, s: Source)
    requires WellFormed(l)
    ensures ValidRecords(s, RecordsOf(l, s))
  {
    match s
    case Inbound => EntryRecordsAreValid(l);
    case Outbound => DispatchRecordsAreValid(l);
    case _ => ChildRecordsAreValid(l, s);
  }

  // ---------------------------------------------------------------- counting both ways

  /** The metric of the rollups that a source of the report stands for. */
  function MetricOf(s: Source): Metric {
    match s
    case Inbound => InboundUnits
    case Outbound => DispatchOrders
    case StockoutEvent => Stockouts
    case DiscrepancyEvent => Discrepancies
  }

  predicate SameFact(s: Source, e: Event, f: Fact) {
    f.hour == HourOf(e.at) && f.dim == DimOf(e.pair) && f.amount == Weight(s, e)
  }

  lemma {:induction false} CountIsTally(s: Source, es: seq<Event>, fs: seq<Fact>, c: Cell)
    requires |es| == |fs| && forall i :: 0 <= i < |es| ==> SameFact(s, es[i], fs[i])
    ensures Count(s, es, c) == Tally(fs, DimOf(c.pair), WeekStart(c.week), WeekStart(c.week + 1))
    decreases |es|
  {
    if es != [] {
      var n := |es| - 1;
      CountIsTally(s, es[..n], fs[..n], c);
      assert SameFact(s, es[n], fs[n]);
      WeekBounds(fs[n].hour, c.week);
    }
  }

  function DispatchFacts(l: Ledger, ds: seq<Exit>): seq<Fact> {
    seq(|ds|, i requires 0 <= i < |ds| => ExitFact(l.skus, DispatchOrders, ds[i]))
  }

  /** Losses add nothing to the dispatch count. */
  lemma {:induction false} TallyOfDispatches(l: Ledger, xs: seq<Exit>, d: Dim, lo: int, hi: int)
    ensures Tally(DispatchFacts(l, xs), d, lo, hi) == Tally(DispatchFacts(l, Dispatches(xs)), d, lo, hi)
  {
    if xs != [] {
      var init, last := xs[..|xs| - 1], xs[|xs| - 1];
      TallyOfDispatches(l, init, d, lo, hi);
      OneMoreDispatch(l, init, last, d, lo, hi);
      assert init + [last] == xs;
      if last.kind == Dispatch {
        OneMoreDispatch(l, Dispatches(init), last, d, lo, hi);
      }
    }
  }

  lemma OneMoreDispatch(l: Ledger, xs: seq<Exit>, x: Exit, d: Dim, lo: int, hi: int)
    ensures Tally(DispatchFacts(l, xs + [x]), d, lo, hi) == Tally(DispatchFacts(l, xs), d, lo, hi) +
      if Counts(ExitFact(l.skus, DispatchOrders, x), d, lo, hi) then ExitFact(l.skus, DispatchOrders, x).amount else 0
  {
    var fs := DispatchFacts(l, xs + [x]);
    assert fs[..|fs| - 1] == DispatchFacts(l, xs);
  }

  lemma OrderCountIsAggregate(l: Ledger, c: Cell)
    requires WellFormed(l) && ValidRecords(Outbound, RecordsOf(l, Outbound))
    ensures Count(Outbound, EventsFrom(Outbound, RecordsOf(l, Outbound)), c) ==
      Tally(FactsOf(l, DispatchOrders), DimOf(c.pair), WeekStart(c.week), WeekStart(c.week + 1))
  {
    var ds := Dispatches(l.exits);
    DispatchesAreFacts(l, ds);
    CountIsTally(Outbound, EventsFrom(Outbound, RecordsOf(l, Outbound)), DispatchFacts(l, ds), c);
    TallyOfDispatches(l, l.exits, DimOf(c.pair), WeekStart(c.week), WeekStart(c.week + 1));
    DispatchFactsAreFacts(l);
  }

  lemma DispatchFactsAreFacts(l: Ledger)
    ensures DispatchFacts(l, l.exits) == FactsOf(l, DispatchOrders)
  {
  }

  /** A counter of the report is the direct weekly aggregate of the ledger. */
  lemma ReportCountIsAggregate(l: Ledger, s: Source, c: Cell)
    requires WellFormed(l) && ValidRecords(s, RecordsOf(l, s))
    ensures Count(s, EventsFrom(s, RecordsOf(l, s)), c) ==
      Tally(FactsOf(l, MetricOf(s)), DimOf(c.pair), WeekStart(c.week), WeekStart(c.week + 1))
  {
    if s == Outbound {
      OrderCountIsAggregate(l, c);
    } else {
      RowsAreFacts(l, s);
      CountIsTally(s, EventsFrom(s, RecordsOf(l, s)), FactsOf(l, MetricOf(s)), c);
    }
  }

  lemma DispatchesAreFacts(l: Ledger, ds: seq<Exit>)
    requires WellFormed(l) && ds == Dispatches(l.exits)
    requires ValidRecords(Outbound, RecordsOf(l, Outbound))
    ensures forall i :: 0 <= i < |ds| ==> SameFact(Outbound, EventsFrom(Outbound, RecordsOf(l, Outbound))[i], DispatchFacts(l, ds)[i])
  {
  }

  lemma RowsAreFacts(l: Ledger, s: Source)
    requires WellFormed(l) && s != Outbound && ValidRecords(s, RecordsOf(l, s))
    ensures |RecordsOf(l, s)| == |FactsOf(l, MetricOf(s))|
    ensures forall i :: 0 <= i < |RecordsOf(l, s)| ==>
      SameFact(s, EventsFrom(s, RecordsOf(l, s))[i], FactsOf(l, MetricOf(s))[i])
  {
  }

  // ---------------------------------------------------------------- the report exists and is the aggregate

  lemma LedgerIsClean(l: Ledger)
    requires WellFormed(l)
    ensures CleanActivity(ActivityOf(l)) && AllSources(NormalizeActivity(ActivityOf(l)))
    ensures var norm := NormalizeActivity(ActivityOf(l));
      forall s | s in norm :: ValidRecords(s, RecordsOf(l, s)) && norm[s] == EventsFrom(s, RecordsOf(l, s))
  {
    forall s | s in ActivityOf(l)
      ensures Clean(s, Elements(RecordsOf(l, s))) && ValidRecords(s, RecordsOf(l, s))
      ensures NormalizeSource(s, Elements(RecordsOf(l, s))) == Ok(EventsFrom(s, RecordsOf(l, s)))
    {
      LedgerRecordsAreValid(l, s);
      AscendingRecordsAreClean(s, RecordsOf(l, s));
      AscendingRecordsNormalize(s, RecordsOf(l, s));
    }
    assert Elements(SOURCES) == {Inbound, Outbound, StockoutEvent, DiscrepancyEvent};
  }

  ghost function NormalizedLedger(l: Ledger): (norm: Normalized)
    requires WellFormed(l)
    ensures CleanActivity(ActivityOf(l)) && norm == NormalizeActivity(ActivityOf(l)) && AllSources(norm)
    ensures forall s | s in norm :: ValidRecords(s, RecordsOf(l, s)) && norm[s] == EventsFrom(s, RecordsOf(l, s))
  {
    LedgerIsClean(l);
    NormalizeActivity(ActivityOf(l))
  }

  lemma SkuPairsArePairs(l: Ledger, d: Dim)
    requires d in Dims(l)
    ensures PairOfDim(d) in Pairs(SkuPairs(l))
  {
    var p := PairInput(Some(d.warehouse), Some(d.client));
    assert p in SkuPairs(l) && ValidPair(p) && PairOf(p) == PairOfDim(d);
  }

  lemma RecordHasSku(l: Ledger, s: Source, i: nat)
    requires WellFormed(l) && i < |RecordsOf(l, s)| && ValidRecords(s, RecordsOf(l, s))
    ensures EventsFrom(s, RecordsOf(l, s))[i].pair in Pairs(SkuPairs(l))
  {
    match s
    case Inbound =>
      var e := l.entries[i];
      assert e in l.entries && l.skus[e.sku] == Dim(e.warehouse, ClientOf(l.skus, e.sku));
      SkuPairsArePairs(l, l.skus[e.sku]);
    case Outbound =>
      var x := Dispatches(l.exits)[i];
      assert x in Dispatches(l.exits) && x in l.exits && l.skus[x.sku] == Dim(x.warehouse, ClientOf(l.skus, x.sku));
      SkuPairsArePairs(l, l.skus[x.sku]);
    case StockoutEvent =>
      assert l.stockouts[i] in l.stockouts;
      SkuPairsArePairs(l, l.stockouts[i].dim);
    case DiscrepancyEvent =>
      assert l.discrepancies[i] in l.discrepancies;
      SkuPairsArePairs(l, l.discrepancies[i].dim);
  }

  lemma LedgerIsAccepted(l: Ledger, days: set<int>)
    requires WellFormed(l) && forall d | d in days :: IsMonday(d)
    ensures Accepted(ActivityOf(l), SkuPairs(l), days)
  {
    var norm := NormalizedLedger(l);
    forall s, e: Event | s in norm && e in norm[s] ensures e.pair in Pairs(SkuPairs(l)) {
      var i :| 0 <= i < |norm[s]| && norm[s][i] == e;
      RecordHasSku(l, s, i);
    }
  }

  /** A report row and the ledger's totals for the same week and dimension. */
  predicate RowIs(row: Row, t: Totals) {
    && row.inboundUnits == t.inboundUnits && row.outboundOrders == t.dispatchOrders
    && row.stockouts == t.stockouts && row.discrepancies == t.discrepancies
    && row.rate == if t.dispatchOrders == 0 then 0.0 else t.discrepancies as real / t.dispatchOrders as real
  }

  predicate CountsAre(norm: Normalized, c: Cell, t: Totals)
    requires AllSources(norm)
  {
    && Count(Inbound, norm[Inbound], c) == t.inboundUnits && Count(Outbound, norm[Outbound], c) == t.dispatchOrders
    && Count(StockoutEvent, norm[StockoutEvent], c) == t.stockouts
    && Count(DiscrepancyEvent, norm[DiscrepancyEvent], c) == t.discrepancies
  }

  ghost predicate CountIs(norm: Normalized, s: Source, c: Cell, t: Totals) {
    s in norm && Count(s, norm[s], c) == t.Get(MetricOf(s))
  }

  lemma ReportCount(l: Ledger, s: Source, c: Cell, norm: Normalized, t: Totals)
    requires WellFormed(l) && norm == NormalizedLedger(l)
    requires t == TotalsOf(l, DimOf(c.pair), WeekStart(c.week), WeekStart(c.week + 1))
    ensures CountIs(norm, s, c, t)
  {
    assert s in norm;
    ReportCountIsAggregate(l, s, c);
  }

  lemma ReportCounts(l: Ledger, c: Cell, norm: Normalized, t: Totals)
    requires WellFormed(l) && norm == NormalizedLedger(l)
    requires t == TotalsOf(l, DimOf(c.pair), WeekStart(c.week), WeekStart(c.week + 1))
    ensures forall s :: CountIs(norm, s, c, t)
  {
    forall s ensures CountIs(norm, s, c, t) {
      ReportCount(l, s, c, norm, t);
    }
  }

  lemma CountsTogether(norm: Normalized, c: Cell, t: Totals)
    requires AllSources(norm) && forall s :: CountIs(norm, s, c, t)
    ensures CountsAre(norm, c, t) && (t.discrepancies <= t.dispatchOrders <==> RateDefined(norm, c))
  {
    assert CountIs(norm, Inbound, c, t) && CountIs(norm, Outbound, c, t);
    assert CountIs(norm, StockoutEvent, c, t) && CountIs(norm, DiscrepancyEvent, c, t);
  }

  /** The report's counters of one cell are the ledger's weekly totals, so its row exists exactly when there
      are no more discrepancies than orders. */
  lemma ReportRow(l: Ledger, c: Cell, norm: Normalized, t: Totals)
    requires WellFormed(l) && norm == NormalizedLedger(l)
    requires t == TotalsOf(l, DimOf(c.pair), WeekStart(c.week), WeekStart(c.week + 1))
    ensures CountsAre(norm, c, t) && (t.discrepancies <= t.dispatchOrders <==> RateDefined(norm, c))
    ensures RateDefined(norm, c) ==> RowIs(RowOf(norm, c), t)
  {
    ReportCounts(l, c, norm, t);
    CountsTogether(norm, c, t);
    if RateDefined(norm, c) {
      CountsGiveTheRow(norm, c, t);
    }
  }

  lemma CountsGiveTheRow(norm: Normalized, c: Cell, t: Totals)
    requires AllSources(norm) && CountsAre(norm, c, t) && RateDefined(norm, c)
    ensures RowIs(RowOf(norm, c), t)
  {
  }

  // ---------------------------------------------------------------- the theorem

  /** What an activation verified about one whole week of one dimension. */
  lemma VerifiedWeek(l: Ledger, h: Hourly, start: int, end: int, week: int, d: Dim)
    requires Exact(l, h, start, end) && WholeWeek(week, start, end)
    ensures SumTotals(h, d, WeekStart(week), WeekStart(week + 1)) == TotalsOf(l, d, WeekStart(week), WeekStart(week + 1))
    ensures var t := TotalsOf(l, d, WeekStart(week), WeekStart(week + 1)); t.discrepancies <= t.dispatchOrders
  {
    ExactMeansEveryGroupMatches(l, h, start, end);
    assert Matches(l, h, WeekKey(week, d), start, end);
    assert From(week, start) == WeekStart(week) && Until(week, end) == WeekStart(week + 1);
  }

  /** No bucket was computed for a later cutoff. */
  ghost predicate NoNewer(h: Hourly, cutoff: int) {
    forall k | k in h :: h[k].cutoff <= cutoff
  }

  lemma VisibleIsAll(h: Hourly, cutoff: int)
    requires NoNewer(h, cutoff)
    ensures Visible(h, cutoff) == h
  {
  }

  /** The weekly table says of a cell what the ledger's totals say; a missing row says zero. */
  predicate CellSays(weekly: Weekly, c: Cell, t: Totals) {
    if c in weekly then
      weekly[c] == WeeklyRow(t.inboundUnits, t.dispatchOrders, t.stockouts, t.discrepancies,
                             if t.dispatchOrders == 0 then 0.0 else t.discrepancies as real / t.dispatchOrders as real)
    else t.inboundUnits == t.dispatchOrders == t.stockouts == t.discrepancies == 0
  }

  lemma WeeklyCell(h: Hourly, cutoff: int, first: int, current: int, c: Cell)
    requires first <= c.week < current
    ensures CellSays(WeeklyFromHourly(h, cutoff, first, current), c,
                     SumTotals(Visible(h, cutoff), DimOf(c.pair), WeekStart(c.week), WeekStart(c.week + 1)))
  {
    var visible := Visible(h, cutoff);
    var d, lo, hi := DimOf(c.pair), WeekStart(c.week), WeekStart(c.week + 1);
    var t := SumTotals(visible, d, lo, hi);
    if c !in WeeklyFromHourly(h, cutoff, first, current) {
      forall m ensures SumBuckets(visible, d, m, lo, hi) == 0 {
        SumHasABucket(visible, d, m, lo, hi);
        if SumBuckets(visible, d, m, lo, hi) > 0 {
          var hour :| lo <= hour < hi && Key(hour, d) in visible;
          WeekBounds(hour, c.week);
        }
      }
      assert t.Get(InboundUnits) == t.Get(DispatchOrders) == t.Get(Stockouts) == t.Get(Discrepancies) == 0;
    }
  }

  /** Conversely no cell of the new weekly table is about another week. */
  lemma RenewedWeeksAreInRange(h: Hourly, cutoff: int, first: int, current: int, c: Cell)
    requires c in WeeklyFromHourly(h, cutoff, first, current)
    ensures first <= c.week < current
  {
  }

  lemma ReplacedWeeks(weekly: Weekly, renewed: Weekly, first: int, current: int, c: Cell)
    requires forall k | k in renewed :: first <= k.week < current
    ensures var r := ReplaceWeeks(weekly, renewed, first, current);
      if first <= c.week < current then (c in r <==> c in renewed) && (c in r ==> r[c] == renewed[c])
      else (c in r <==> c in weekly) && (c in r ==> r[c] == weekly[c])
  {
  }

  ghost predicate SameCell(a: Weekly, b: Weekly, c: Cell) {
    (c in a <==> c in b) && (c in a ==> a[c] == b[c])
  }

  /** What a successful activation does to one cell of the weekly table: over the bounds it reconciled, a cell of a
      whole week gets the sums of its visible buckets, any other stays as it was. */
  lemma ActivatedTables(l: Ledger, pruned: Option<Instant>, t: Tables, w: Window, rows: Option<map<Key, Totals>>,
                        version: int, now: Instant, h: Hourly, start: int, end: int, c: Cell)
    requires Activate(l, pruned, t, w, rows, version, now).Ok?
    requires h == Candidate(t, w, rows, version).hourly && Bounds(h, w.cutoff, pruned) == Ok((start, end))
    ensures Exact(l, h, start, end)
    ensures var weekly := Activate(l, pruned, t, w, rows, version, now).value.weekly;
      if WholeWeek(c.week, start, end)
      then CellSays(weekly, c, SumTotals(Visible(h, w.cutoff), DimOf(c.pair), WeekStart(c.week), WeekStart(c.week + 1)))
      else SameCell(weekly, t.weekly, c)
  {
    var first, current := FirstWeek(start), CurrentWeek(w.cutoff, end);
    BoundsAreTheReconcilableHours(h, w.cutoff, pruned);
    WeekRangeIsWhole(start, end, w.cutoff, c.week);
    var renewed, weekly := Renewed(h, w.cutoff, first, current), ReplaceWeeks(t.weekly, Renewed(h, w.cutoff, first, current), first, current);
    assert Activate(l, pruned, t, w, rows, version, now).value.weekly == weekly;
    RenewedCells(h, w.cutoff, t.weekly, first, current, c);
  }

  lemma RenewedCells(h: Hourly, cutoff: int, weekly: Weekly, first: int, current: int, c: Cell)
    ensures var after := ReplaceWeeks(weekly, Renewed(h, cutoff, first, current), first, current);
      if first <= c.week < current
      then CellSays(after, c, SumTotals(Visible(h, cutoff), DimOf(c.pair), WeekStart(c.week), WeekStart(c.week + 1)))
      else SameCell(after, weekly, c)
  {
    var renewed := Renewed(h, cutoff, first, current);
    forall k | k in renewed ensures first <= k.week < current {
      RenewedWeeksAreInRange(h, cutoff, first, current, k);
    }
    ReplacedWeeks(weekly, renewed, first, current, c);
    if first <= c.week < current {
      WeeklyCell(h, cutoff, first, current, c);
      SameCellSays(ReplaceWeeks(weekly, renewed, first, current), renewed, c,
                   SumTotals(Visible(h, cutoff), DimOf(c.pair), WeekStart(c.week), WeekStart(c.week + 1)));
    }
  }

  /** When an activation succeeds, and what it makes of the state row: some hour can be reconciled, all that can be
      reconcile exactly, the rows are of the version to activate and the cursor has reached its cutoff. */
  lemma ActivationOutcome(l: Ledger, pruned: Option<Instant>, t: Tables, w: Window, rows: Option<map<Key, Totals>>,
                          version: int, now: Instant)
    ensures var p := Candidate(t, w, rows, version); var r := Activate(l, pruned, t, w, rows, version, now);
      var bounds := Bounds(p.hourly, w.cutoff, pruned);
      && (r.Ok? <==>
            && bounds.Ok? && Exact(l, p.hourly, bounds.value.0, bounds.value.1)
            && p.state.version == Some(version) && AtMost(w.cutoff, p.state.lastCutoff))
      && (r.Ok? ==>
            && r.value.hourly == p.hourly
            && r.value.state == RollupState(p.state.version, p.state.lastCutoff, Some(now), Some(version), Some(w.cutoff)))
      && (r.Err? ==> r.error == if bounds.Err? then bounds.error
                                else if !Exact(l, p.hourly, bounds.value.0, bounds.value.1) then ReconciliationMismatch
                                else ActivationStateChanged)
  {
  }

  predicate AtMost(cutoff: int, last: Option<int>) {
    last.Some? && cutoff <= last.value
  }

  /** Report and weekly table agree with the ledger's totals on one cell. */
  ghost predicate AgreesOn(l: Ledger, weekly: Weekly, c: Cell)
    requires WellFormed(l)
  {
    var totals := TotalsOf(l, DimOf(c.pair), WeekStart(c.week), WeekStart(c.week + 1));
    && CellSays(weekly, c, totals)
    && RateDefined(NormalizedLedger(l), c) && RowIs(RowOf(NormalizedLedger(l), c), totals)
  }

  lemma VerifiedTotals(l: Ledger, h: Hourly, start: int, end: int, c: Cell, sum: Totals, t: Totals)
    requires Exact(l, h, start, end) && WholeWeek(c.week, start, end)
    requires sum == SumTotals(h, DimOf(c.pair), WeekStart(c.week), WeekStart(c.week + 1))
    requires t == TotalsOf(l, DimOf(c.pair), WeekStart(c.week), WeekStart(c.week + 1))
    ensures sum == t && t.discrepancies <= t.dispatchOrders
  {
    VerifiedWeek(l, h, start, end, c.week, DimOf(c.pair));
  }

  lemma ReportAgrees(l: Ledger, weekly: Weekly, c: Cell, t: Totals)
    requires WellFormed(l) && t == TotalsOf(l, DimOf(c.pair), WeekStart(c.week), WeekStart(c.week + 1))
    requires CellSays(weekly, c, t) && t.discrepancies <= t.dispatchOrders
    ensures AgreesOn(l, weekly, c)
  {
    ReportRow(l, c, NormalizedLedger(l), t);
  }

  lemma SameCellSays(weekly: Weekly, renewed: Weekly, c: Cell, t: Totals)
    requires CellSays(renewed, c, t) && (c in weekly <==> c in renewed) && (c in weekly ==> weekly[c] == renewed[c])
    ensures CellSays(weekly, c, t)
  {
  }

  lemma VerifiedCell(l: Ledger, h: Hourly, start: int, end: int, weekly: Weekly, c: Cell)
    requires WellFormed(l) && Exact(l, h, start, end) && WholeWeek(c.week, start, end)
    requires CellSays(weekly, c, SumTotals(h, DimOf(c.pair), WeekStart(c.week), WeekStart(c.week + 1)))
    ensures AgreesOn(l, weekly, c)
  {
    var t := TotalsOf(l, DimOf(c.pair), WeekStart(c.week), WeekStart(c.week + 1));
    VerifiedTotals(l, h, start, end, c, SumTotals(h, DimOf(c.pair), WeekStart(c.week), WeekStart(c.week + 1)), t);
    ReportAgrees(l, weekly, c, t);
  }

  /** A successful activation: the weekly table agrees with the reference report on the raw ledger for every
      whole week within the bounds it reconciled, cell by cell, a missing row standing for zeros; all other weeks are
      as they were. The one hypothesis, that no bucket is newer than the cutoff, is an invariant of the publishing
      workers. */
  lemma ActivationAgrees(l: Ledger, pruned: Option<Instant>, t: Tables, w: Window, rows: Option<map<Key, Totals>>,
                         version: int, now: Instant, h: Hourly, start: int, end: int, c: Cell)
    requires WellFormed(l) && Activate(l, pruned, t, w, rows, version, now).Ok?
    requires h == Candidate(t, w, rows, version).hourly && NoNewer(h, w.cutoff)
    requires Bounds(h, w.cutoff, pruned) == Ok((start, end))
    ensures var weekly := Activate(l, pruned, t, w, rows, version, now).value.weekly;
      if WholeWeek(c.week, start, end) then AgreesOn(l, weekly, c) else SameCell(weekly, t.weekly, c)
  {
    ActivatedTables(l, pruned, t, w, rows, version, now, h, start, end, c);
    VisibleIsAll(h, w.cutoff);
    if WholeWeek(c.week, start, end) {
      VerifiedCell(l, h, start, end, Activate(l, pruned, t, w, rows, version, now).value.weekly, c);
    }
  }

  lemma RowsWhenDefined(norm: Normalized, cells: seq<Cell>) returns (report: seq<Row>)
    requires AllSources(norm) && forall i :: 0 <= i < |cells| ==> RateDefined(norm, cells[i])
    ensures RowsFor(report, norm, cells)
  {
    report := seq(|cells|, i requires 0 <= i < |cells| => RowOf(norm, cells[i]));
  }

  lemma VerifiedRate(l: Ledger, h: Hourly, start: int, end: int, norm: Normalized, c: Cell)
    requires WellFormed(l) && norm == NormalizedLedger(l) && Exact(l, h, start, end) && WholeWeek(c.week, start, end)
    ensures RateDefined(norm, c)
  {
    var t := TotalsOf(l, DimOf(c.pair), WeekStart(c.week), WeekStart(c.week + 1));
    EnoughOrders(l, h, start, end, c, t);
    RateOfTotals(l, c, norm, t);
  }

  lemma EnoughOrders(l: Ledger, h: Hourly, start: int, end: int, c: Cell, t: Totals)
    requires Exact(l, h, start, end) && WholeWeek(c.week, start, end)
    requires t == TotalsOf(l, DimOf(c.pair), WeekStart(c.week), WeekStart(c.week + 1))
    ensures t.discrepancies <= t.dispatchOrders
  {
    VerifiedWeek(l, h, start, end, c.week, DimOf(c.pair));
  }

  lemma RateOfTotals(l: Ledger, c: Cell, norm: Normalized, t: Totals)
    requires WellFormed(l) && norm == NormalizedLedger(l) && t.discrepancies <= t.dispatchOrders
    requires t == TotalsOf(l, DimOf(c.pair), WeekStart(c.week), WeekStart(c.week + 1))
    ensures RateDefined(norm, c)
  {
    ReportRow(l, c, norm, t);
  }

  /** When a reconciliation was exact, the reference report exists for the whole weeks within its bounds. */
  lemma ReconciledLedgerHasAReport(l: Ledger, h: Hourly, start: int, end: int) returns (report: seq<Row>)
    requires WellFormed(l) && Exact(l, h, start, end)
    ensures IsReport(ActivityOf(l), SkuPairs(l), WholeMondays(start, end), None, report)
  {
    var days := WholeMondays(start, end);
    WholeMondaysAreTheirWeeks(start, end);
    LedgerIsAccepted(l, days);
    var norm, cells := NormalizedLedger(l), Cells(SkuPairs(l), days, None);
    forall i | 0 <= i < |cells| ensures RateDefined(norm, cells[i]) {
      CellsAreInWeeks(l, start, end, i);
      VerifiedRate(l, h, start, end, norm, cells[i]);
    }
    report := RowsWhenDefined(norm, cells);
  }

  lemma CellsAreInWeeks(l: Ledger, start: int, end: int, i: nat)
    requires i < |Cells(SkuPairs(l), WholeMondays(start, end), None)|
    ensures WholeWeek(Cells(SkuPairs(l), WholeMondays(start, end), None)[i].week, start, end)
  {
    WholeMondaysAreTheirWeeks(start, end);
    var cells := Cells(SkuPairs(l), WholeMondays(start, end), None);
    assert cells[i] in cells;
  }

  /** The weekly table says of a cell what a report row says; a missing row says zero. */
  predicate SaysRow(weekly: Weekly, row: Row) {
    if row.cell in weekly then
      weekly[row.cell] == WeeklyRow(row.inboundUnits, row.outboundOrders, row.stockouts, row.discrepancies, row.rate)
    else row.inboundUnits == row.outboundOrders == row.stockouts == row.discrepancies == 0 && row.rate == 0.0
  }

  lemma AgreementIsTheRow(l: Ledger, weekly: Weekly, c: Cell, norm: Normalized, row: Row)
    requires WellFormed(l) && norm == NormalizedLedger(l) && AgreesOn(l, weekly, c)
    requires RateDefined(norm, c) && row == RowOf(norm, c)
    ensures SaysRow(weekly, row)
  {
  }

  lemma ReportRowIs(l: Ledger, start: int, end: int, report: seq<Row>, norm: Normalized, i: nat)
    requires WellFormed(l) && norm == NormalizedLedger(l) && i < |report|
    requires IsReport(ActivityOf(l), SkuPairs(l), WholeMondays(start, end), None, report)
    ensures WholeWeek(report[i].cell.week, start, end)
    ensures RateDefined(norm, report[i].cell) && report[i] == RowOf(norm, report[i].cell)
  {
    CellsAreInWeeks(l, start, end, i);
  }

  /** The same in the report's own terms: run on the raw ledger for the whole weeks that an activation reconciled,
      every row of the reference report is what the weekly table now holds. */
  lemma ActivationIsTheReport(l: Ledger, pruned: Option<Instant>, t: Tables, w: Window, rows: Option<map<Key, Totals>>,
                              version: int, now: Instant, h: Hourly, start: int, end: int, report: seq<Row>, i: nat)
    requires WellFormed(l) && Activate(l, pruned, t, w, rows, version, now).Ok? && i < |report|
    requires h == Candidate(t, w, rows, version).hourly && NoNewer(h, w.cutoff)
    requires Bounds(h, w.cutoff, pruned) == Ok((start, end))
    requires IsReport(ActivityOf(l), SkuPairs(l), WholeMondays(start, end), None, report)
    ensures SaysRow(Activate(l, pruned, t, w, rows, version, now).value.weekly, report[i])
  {
    var norm := NormalizedLedger(l);
    ReportRowIs(l, start, end, report, norm, i);
    ActivationAgrees(l, pruned, t, w, rows, version, now, h, start, end, report[i].cell);
    AgreementIsTheRow(l, Activate(l, pruned, t, w, rows, version, now).value.weekly, report[i].cell, norm, report[i]);
  }
}
