/** Hourly rollups: the window, the hourly grid, publication, reconciliation against the raw ledger, and
    activation of the weekly table. Hour-aligned instants are hour numbers throughout. */
module Rollups {
  import opened Wrappers
  import opened Instants
  import opened Sorting
  import opened Ledger
  import opened WeeklyKpis

  /** The eight metrics of one bucket. */
  datatype Totals = Totals(inboundMovements: nat, inboundUnits: nat, dispatchOrders: nat, dispatchUnits: nat,
                           lossMovements: nat, lossUnits: nat, stockouts: nat, discrepancies: nat)
  {
    function Get(m: Metric): nat {
      match m
      case InboundMovements => inboundMovements
      case InboundUnits => inboundUnits
      case DispatchOrders => dispatchOrders
      case DispatchUnits => dispatchUnits
      case LossMovements => lossMovements
      case LossUnits => lossUnits
      case Stockouts => stockouts
      case Discrepancies => discrepancies
    }
  }

  datatype Key = Key(hour: int, dim: Dim)

  datatype Bucket = Bucket(totals: Totals, cutoff: int)

  /** `hourly_activity_rollups`, by its primary key. */
  type Hourly = map<Key, Bucket>

  datatype WeekKey = WeekKey(week: int, dim: Dim)

  datatype WeeklyRow = WeeklyRow(inboundUnits: int, outboundOrders: int, stockouts: int, discrepancies: int, rate: real)

  /** `weekly_warehouse_client_performance`. */
  type Weekly = map<Cell, WeeklyRow>

  datatype RollupState = RollupState(version: Option<int>, lastCutoff: Option<int>, lastReconciledAt: Option<Instant>,
                                     activeVersion: Option<int>, activeCutoff: Option<int>)

  datatype Tables = Tables(hourly: Hourly, weekly: Weekly, state: RollupState)

  datatype Reason =
    | EmptyRollupWindow | NoRollups | NoVerifiableWindow | ReconciliationMismatch | ActivationStateChanged | LeaseLost

  // ---------------------------------------------------------------- window

  datatype Window = Window(start: int, end: int, cutoff: int)

  const TRAILING_RECOMPUTE_HOURS := 72

  /** `capture_rollup_window`. `sourceFloor` is the earliest source instant, if any. */
  function CaptureWindow(lastCutoff: Option<int>, lastReset: Option<Instant>, sourceFloor: Option<Instant>,
                         week: Option<int>, now: Instant): (w: Result<Window, Reason>)
  {
    var cutoff := HourOf(now);
    var trailing := cutoff - TRAILING_RECOMPUTE_HOURS;
    var start0 :=
      if week.Some? then WeekStart(week.value)
      else if lastCutoff.Some? then Min(lastCutoff.value, trailing)
      else if sourceFloor.Some? then HourOf(sourceFloor.value)
      else trailing;
    var end := if week.Some? then Min(WeekStart(week.value) + HOURS_PER_WEEK, cutoff) else cutoff;
    var start := if lastReset.Some? then Max(start0, HourOf(lastReset.value)) else start0;
    if start >= end then Err(EmptyRollupWindow) else Ok(Window(start, end, cutoff))
  }

  /** The hours a run is to recompute: completed, not before the last ledger reset, and of the requested week,
      or since the last cutoff and at least the trailing three days, or of all recorded history. */
  predicate Wanted(hour: int, lastCutoff: Option<int>, lastReset: Option<Instant>, sourceFloor: Option<Instant>,
                   week: Option<int>, now: Instant)
  {
    && hour < HourOf(now)
    && (lastReset.Some? ==> HourOf(lastReset.value) <= hour)
    && (if week.Some? then WeekOf(hour) == week.value
        else if lastCutoff.Some? then lastCutoff.value <= hour || HourOf(now) <= hour + TRAILING_RECOMPUTE_HOURS
        else if sourceFloor.Some? then HourOf(sourceFloor.value) <= hour
        else HourOf(now) <= hour + TRAILING_RECOMPUTE_HOURS)
  }

  /** The window is exactly the wanted hours, and there is none exactly when no hour is wanted. */
  lemma WindowIsTheWantedHours(lastCutoff: Option<int>, lastReset: Option<Instant>, sourceFloor: Option<Instant>,
                               week: Option<int>, now: Instant)
    ensures var r := CaptureWindow(lastCutoff, lastReset, sourceFloor, week, now);
      && (r.Err? <==> forall hour :: !Wanted(hour, lastCutoff, lastReset, sourceFloor, week, now))
      && (r.Ok? ==> r.value.cutoff == HourOf(now))
      && (r.Ok? ==> forall hour :: Wanted(hour, lastCutoff, lastReset, sourceFloor, week, now) <==>
                                     r.value.start <= hour < r.value.end)
  {
    var r := CaptureWindow(lastCutoff, lastReset, sourceFloor, week, now);
    forall hour
      ensures r.Err? ==> !Wanted(hour, lastCutoff, lastReset, sourceFloor, week, now)
      ensures r.Ok? ==> (Wanted(hour, lastCutoff, lastReset, sourceFloor, week, now) <==> r.value.start <= hour < r.value.end)
    {
      if week.Some? {
        WeekBounds(hour, week.value);
      }
    }
    if r.Ok? {
      assert Wanted(r.value.start, lastCutoff, lastReset, sourceFloor, week, now);
    }
  }

  // ---------------------------------------------------------------- hourly grid

  /** All eight aggregates of one group over the hours [lo, hi). */
  function TotalsOf(l: Ledger, d: Dim, lo: int, hi: int): (t: Totals)
    ensures forall m :: t.Get(m) == Tally(FactsOf(l, m), d, lo, hi)
  {
    var tally := (m: Metric) => Tally(FactsOf(l, m), d, lo, hi);
    Totals(tally(InboundMovements), tally(InboundUnits), tally(DispatchOrders), tally(DispatchUnits),
           tally(LossMovements), tally(LossUnits), tally(Stockouts), tally(Discrepancies))
  }

  /** `rows` is the dense grid of the ledger's totals: every completed hour with every SKU's dimension. */
  ghost predicate IsGrid(l: Ledger, rows: map<Key, Totals>, start: int, end: int) {
    && (forall k :: k in rows <==> start <= k.hour < end && k.dim in Dims(l))
    && (forall k | k in rows :: rows[k] == TotalsOf(l, k.dim, k.hour, k.hour + 1))
  }

  /** `compute_hourly_rollups`. */
  function HourlyQuery(l: Ledger, start: int, end: int): (rows: map<Key, Totals>)
    ensures IsGrid(l, rows, start, end)
  {
    map k | k in GridKeys(Dims(l), start, end) :: TotalsOf(l, k.dim, k.hour, k.hour + 1)
  }

  /** Every completed hour with every dimension. */
  function GridKeys(dims: set<Dim>, start: int, end: int): (keys: set<Key>)
    ensures forall k :: k in keys <==> start <= k.hour < end && k.dim in dims
  {
    set h, d | start <= h < end && d in dims :: Key(h, d)
  }

  /** The upsert: incoming rows replace stored ones of the same key. */
  function Upsert(h: Hourly, rows: map<Key, Totals>, cutoff: int): Hourly {
    h + map k | k in rows :: Bucket(rows[k], cutoff)
  }

  function Greatest(last: Option<int>, cutoff: int): (r: Option<int>)
    ensures r.Some? && cutoff <= r.value && (last.Some? ==> last.value <= r.value) && (r.value == cutoff || r == last)
  {
    Some(Max(last.GetOr(cutoff), cutoff))
  }

  /** `publish_hourly_rollups`, once the claim has been verified. */
  function Publish(t: Tables, w: Window, rows: map<Key, Totals>, version: int): Tables {
    t.(hourly := Upsert(t.hourly, rows, w.cutoff),
       state := t.state.(version := Some(version), lastCutoff := Greatest(t.state.lastCutoff, w.cutoff)))
  }

  // ---------------------------------------------------------------- reconciliation

  function BucketValue(h: Hourly, k: Key, m: Metric): nat {
    if k in h then h[k].totals.Get(m) else 0
  }

  /** Sum of the stored buckets of one dimension over the hours [lo, hi). */
  function SumBuckets(h: Hourly, d: Dim, m: Metric, lo: int, hi: int): nat
    decreases hi - lo
  {
    if hi <= lo then 0 else SumBuckets(h, d, m, lo, hi - 1) + BucketValue(h, Key(hi - 1, d), m)
  }

  function SumTotals(h: Hourly, d: Dim, lo: int, hi: int): (t: Totals)
    ensures forall m :: t.Get(m) == SumBuckets(h, d, m, lo, hi)
  {
    var sum := (m: Metric) => SumBuckets(h, d, m, lo, hi);
    Totals(sum(InboundMovements), sum(InboundUnits), sum(DispatchOrders), sum(DispatchUnits),
           sum(LossMovements), sum(LossUnits), sum(Stockouts), sum(Discrepancies))
  }

  /** The hours of week `w` inside [start, end): grouping by week within a range. */
  function From(w: int, start: int): int { Max(start, WeekStart(w)) }

  function Until(w: int, end: int): int { Min(end, WeekStart(w + 1)) }

  /** The raw side and the rollup side of one row of the reconciliation query. */
  function Expected(l: Ledger, k: WeekKey, start: int, end: int): Totals {
    TotalsOf(l, k.dim, From(k.week, start), Until(k.week, end))
  }

  function Actual(h: Hourly, k: WeekKey, start: int, end: int): Totals {
    SumTotals(h, k.dim, From(k.week, start), Until(k.week, end))
  }

  /** The groups that occur on either side. */
  function ReconciliationKeys(l: Ledger, h: Hourly, start: int, end: int): set<WeekKey> {
    (set e | e in l.entries && e.sku in l.skus && start <= HourOf(e.at) < end ::
       WeekKey(WeekOf(HourOf(e.at)), Dim(e.warehouse, l.skus[e.sku].client))) +
    (set x | x in l.exits && x.sku in l.skus && start <= HourOf(x.at) < end ::
       WeekKey(WeekOf(HourOf(x.at)), Dim(x.warehouse, l.skus[x.sku].client))) +
    (set c | c in l.stockouts && start <= HourOf(c.at) < end :: WeekKey(WeekOf(HourOf(c.at)), c.dim)) +
    (set c | c in l.discrepancies && start <= HourOf(c.at) < end :: WeekKey(WeekOf(HourOf(c.at)), c.dim)) +
    (set k | k in h && start <= k.hour < end :: WeekKey(WeekOf(k.hour), k.dim))
  }

  /** A row is no mismatch: eight equal metrics, and no more discrepancies than orders. */
  predicate Matches(l: Ledger, h: Hourly, k: WeekKey, start: int, end: int) {
    Expected(l, k, start, end) == Actual(h, k, start, end) && RateHasDenominator(h, k, start, end)
  }

  predicate RateHasDenominator(h: Hourly, k: WeekKey, start: int, end: int) {
    Actual(h, k, start, end).discrepancies <= Actual(h, k, start, end).dispatchOrders
  }

  /** `_reconciliation_result` finds nothing. */
  predicate Exact(l: Ledger, h: Hourly, start: int, end: int) {
    forall k | k in ReconciliationKeys(l, h, start, end) :: Matches(l, h, k, start, end)
  }

  function Early(hour: int): int { hour }

  function Late(hour: int): int { -hour }

  /** `_reconciliation_bounds`: hours that are still sourced and already rolled up. `prunedThrough` is the
      retention checkpoint. */
  ghost function Bounds(h: Hourly, cutoff: int, prunedThrough: Option<Instant>): Result<(int, int), Reason> {
    var hours := Hours(Visible(h, cutoff));
    if hours == {} then Err(NoRollups)
    else BoundsFrom(Least(hours, Early), Least(hours, Late), cutoff, prunedThrough)
  }

  function BoundsFrom(first: int, last: int, cutoff: int, prunedThrough: Option<Instant>): Result<(int, int), Reason> {
    var start := if prunedThrough.Some? then Max(first, CeilHour(prunedThrough.value)) else first;
    var end := Min(last + 1, cutoff);
    if start >= end then Err(NoVerifiableWindow) else Ok((start, end))
  }

  function Visible(h: Hourly, cutoff: int): Hourly {
    map k | k in h && h[k].cutoff <= cutoff :: h[k]
  }

  function Hours(h: Hourly): set<int> {
    set k | k in h :: k.hour
  }

  // ---------------------------------------------------------------- activation

  /** First week that starts inside the verified range, and first week that is not complete in it. */
  function FirstWeek(start: int): int {
    if start > WeekStart(WeekOf(start)) then WeekOf(start) + 1 else WeekOf(start)
  }

  function CurrentWeek(cutoff: int, end: int): int {
    Min(WeekOf(cutoff), WeekOf(end))
  }

  function WeeklyOf(h: Hourly, d: Dim, week: int): WeeklyRow {
    var t := SumTotals(h, d, WeekStart(week), WeekStart(week + 1));
    WeeklyRow(t.inboundUnits, t.dispatchOrders, t.stockouts, t.discrepancies,
              if t.dispatchOrders == 0 then 0.0 else t.discrepancies as real / t.dispatchOrders as real)
  }

  function DimOf(p: Pair): Dim {
    Dim(if p.site == LosAngeles then LA else ZGZ, p.client)
  }

  /** The weekly aggregate of the visible buckets of whole weeks [first, current). */
  function WeeklyFromHourly(h: Hourly, cutoff: int, first: int, current: int): Weekly {
    var visible := Visible(h, cutoff);
    var cells := set k | k in visible && first <= WeekOf(k.hour) < current ::
      Cell(WeekOf(k.hour), Pair(SiteOf(k.dim.warehouse), k.dim.client));
    map c | c in cells :: WeeklyOf(visible, DimOf(c.pair), c.week)
  }

  function ReplaceWeeks(weekly: Weekly, renewed: Weekly, first: int, current: int): Weekly {
    (map c | c in weekly && !(first <= c.week < current) :: weekly[c]) + renewed
  }

  /** The tables the activation works on: the candidate rows published first, when there are any. */
  function Candidate(t: Tables, w: Window, rows: Option<map<Key, Totals>>, version: int): Tables {
    if rows.Some? then Publish(t, w, rows.value, version) else t
  }

  /** The weekly rows written for the whole weeks inside [start, end). */
  function Renewed(h: Hourly, cutoff: int, first: int, current: int): Weekly {
    if first < current then WeeklyFromHourly(h, cutoff, first, current) else map[]
  }

  /** What is left of the transaction once [start, end) is reconciled: replace the whole weeks inside it and
      mark the snapshot active. */
  function Commit(p: Tables, w: Window, start: int, end: int, version: int, now: Instant): Result<Tables, Reason> {
    if p.state.version != Some(version) || p.state.lastCutoff.None? || p.state.lastCutoff.value < w.cutoff
    then Err(ActivationStateChanged)
    else
      var first, current := FirstWeek(start), CurrentWeek(w.cutoff, end);
      Ok(Tables(p.hourly, ReplaceWeeks(p.weekly, Renewed(p.hourly, w.cutoff, first, current), first, current),
                p.state.(lastReconciledAt := Some(now), activeVersion := Some(version), activeCutoff := Some(w.cutoff))))
  }

  /** `activate_reconciled_rollups` after the claim has been verified: all of it, or an error and nothing. */
  ghost function Activate(l: Ledger, prunedThrough: Option<Instant>, t: Tables, w: Window,
                          rows: Option<map<Key, Totals>>, version: int, now: Instant): Result<Tables, Reason>
  {
    var p := Candidate(t, w, rows, version);
    match Bounds(p.hourly, w.cutoff, prunedThrough)
    case Err(reason) => Err(reason)
    case Ok((start, end)) =>
      if !Exact(l, p.hourly, start, end) then Err(ReconciliationMismatch)
      else Commit(p, w, start, end, version, now)
  }
}
