/** The reporting tables as one mutable object. Each method is one transaction: it takes full effect or
    none, and is proved against its function in `Rollups`. */
module RollupStore {
  import opened Wrappers
  import opened Instants
  import opened Sorting
  import opened Ledger
  import opened WeeklyKpis
  import opened Rollups
  import Agreement = RollupAgreement

  const METRICS: seq<Metric> :=
    [InboundMovements, InboundUnits, DispatchOrders, DispatchUnits, LossMovements, LossUnits, Stockouts, Discrepancies]

  /** One row of the mismatch report; `noDenominator` is the `discrepancy_rate_denominator` tag. */
  datatype Mismatch = Mismatch(key: WeekKey, metrics: seq<Metric>, noDenominator: bool)

  function MetricRank(m: Metric): int {
    match m
    case InboundMovements => 0
    case InboundUnits => 1
    case DispatchOrders => 2
    case DispatchUnits => 3
    case LossMovements => 4
    case LossUnits => 5
    case Stockouts => 6
    case Discrepancies => 7
  }

  /** The tuple comprehension over the metrics of one row: each that differs, once, in the fixed order. */
  method Differing(expected: Totals, actual: Totals) returns (metrics: seq<Metric>)
    ensures forall m :: m in metrics <==> expected.Get(m) != actual.Get(m)
    ensures Ascending(metrics, MetricRank)
    ensures metrics == [] <==> expected == actual
  {
    metrics := [];
    for i := 0 to |METRICS|
      invariant forall m :: m in metrics <==> m in METRICS[..i] && expected.Get(m) != actual.Get(m)
      invariant Ascending(metrics, MetricRank)
      invariant forall k :: 0 <= k < |metrics| ==> MetricRank(metrics[k]) < i
    {
      if expected.Get(METRICS[i]) != actual.Get(METRICS[i]) {
        metrics := metrics + [METRICS[i]];
      }
    }
    AllMetrics();
    Agreement.TotalsAreTheirMetrics(expected, actual);
    if metrics != [] {
      assert metrics[0] in metrics;
    }
  }

  lemma AllMetrics()
    ensures METRICS[..|METRICS|] == METRICS && forall m :: m in METRICS
  {
    forall m ensures m in METRICS {
      match m
      case InboundMovements => assert METRICS[0] == m;
      case InboundUnits => assert METRICS[1] == m;
      case DispatchOrders => assert METRICS[2] == m;
      case DispatchUnits => assert METRICS[3] == m;
      case LossMovements => assert METRICS[4] == m;
      case LossUnits => assert METRICS[5] == m;
      case Stockouts => assert METRICS[6] == m;
      case Discrepancies => assert METRICS[7] == m;
    }
  }

  /** `ORDER BY week_start, warehouse, client_id`. */
  function KeyRank(k: WeekKey): int {
    CellRank(Cell(k.week, Pair(SiteOf(k.dim.warehouse), k.dim.client)))
  }

  lemma KeyRankIsLexicographic(j: WeekKey, k: WeekKey)
    ensures KeyRank(j) < KeyRank(k) <==>
      || j.week < k.week
      || (j.week == k.week && j.dim.warehouse.LA? && k.dim.warehouse.ZGZ?)
      || (j.week == k.week && j.dim.warehouse == k.dim.warehouse && j.dim.client < k.dim.client)
  {
  }

  lemma KeysAreRanked(keys: set<WeekKey>)
    ensures Ranked(keys, KeyRank)
  {
  }

  /** A mismatch names exactly what differs in its group. */
  ghost predicate Explains(x: Mismatch, l: Ledger, h: Hourly, start: int, end: int) {
    && !Matches(l, h, x.key, start, end)
    && (forall m :: m in x.metrics <==> Expected(l, x.key, start, end).Get(m) != Actual(h, x.key, start, end).Get(m))
    && (x.noDenominator <==> !RateHasDenominator(h, x.key, start, end))
  }

  ghost predicate Reported(found: seq<Mismatch>, k: WeekKey) {
    exists x :: x in found && x.key == k
  }

  function MismatchRank(x: Mismatch): int { KeyRank(x.key) }

  /** `_reconciliation_result`: exactly the groups that do not match, each once and explained, in the order of
      week, warehouse and client. */
  method ReconciliationResult(l: Ledger, h: Hourly, start: int, end: int) returns (checked: nat, found: seq<Mismatch>)
    ensures checked == |ReconciliationKeys(l, h, start, end)|
    ensures Ascending(found, MismatchRank)
    ensures forall x | x in found :: Explains(x, l, h, start, end)
    ensures forall k | k in ReconciliationKeys(l, h, start, end) :: Reported(found, k) <==> !Matches(l, h, k, start, end)
    ensures found == [] <==> Exact(l, h, start, end)
    ensures found == [] <==> forall k :: Matches(l, h, k, start, end)
  {
    var keys := ReconciliationKeys(l, h, start, end);
    KeysAreRanked(keys);
    var rows := SortByRank(keys, KeyRank);
    checked, found := |rows|, [];
    for i := 0 to |rows|
      invariant forall x | x in found :: Explains(x, l, h, start, end) && x.key in keys
      invariant Before(found, rows, i)
      invariant forall j :: 0 <= j < i ==> (Reported(found, rows[j]) <==> !Matches(l, h, rows[j], start, end))
    {
      var k := rows[i];
      assert k in rows;
      var x := Compare(l, h, k, start, end);
      ghost var before := found;
      if x.Some? {
        found := found + [x.value];
      }
      OneMoreRow(before, x, found, rows, i, l, h, start, end);
      OneMoreBefore(before, x, found, rows, i);
    }
    ListedOnce(rows, keys, KeyRank);
    forall k | k in keys ensures Reported(found, k) <==> !Matches(l, h, k, start, end) {
      assert k in rows;
    }
    NothingFound(l, h, start, end, found);
  }

  /** What has been found is about rows before `i`, in their order. */
  ghost predicate Before(found: seq<Mismatch>, rows: seq<WeekKey>, i: nat) {
    && Ascending(found, MismatchRank)
    && forall k, j :: 0 <= k < |found| && i <= j < |rows| ==> MismatchRank(found[k]) < KeyRank(rows[j])
  }

  lemma OneMoreBefore(before: seq<Mismatch>, x: Option<Mismatch>, found: seq<Mismatch>, rows: seq<WeekKey>, i: nat)
    requires i < |rows| && Ascending(rows, KeyRank) && Before(before, rows, i)
    requires found == if x.Some? then before + [x.value] else before
    requires x.Some? ==> x.value.key == rows[i]
    ensures Before(found, rows, i + 1)
  {
  }

  method Compare(l: Ledger, h: Hourly, k: WeekKey, start: int, end: int) returns (x: Option<Mismatch>)
    ensures x.Some? <==> !Matches(l, h, k, start, end)
    ensures x.Some? ==> x.value.key == k && Explains(x.value, l, h, start, end)
  {
    var expected, actual := Expected(l, k, start, end), Actual(h, k, start, end);
    var metrics := Differing(expected, actual);
    var noDenominator := actual.discrepancies > actual.dispatchOrders;
    x := if metrics == [] && !noDenominator then None else Some(Mismatch(k, metrics, noDenominator));
  }

  lemma OneMoreRow(before: seq<Mismatch>, x: Option<Mismatch>, found: seq<Mismatch>, rows: seq<WeekKey>, i: nat,
                   l: Ledger, h: Hourly, start: int, end: int)
    requires i < |rows| && found == if x.Some? then before + [x.value] else before
    requires x.Some? <==> !Matches(l, h, rows[i], start, end)
    requires x.Some? ==> x.value.key == rows[i] && Explains(x.value, l, h, start, end)
    requires forall y | y in before :: Explains(y, l, h, start, end)
    requires forall j :: 0 <= j < i ==> (Reported(before, rows[j]) <==> !Matches(l, h, rows[j], start, end))
    ensures forall j :: 0 <= j <= i ==> (Reported(found, rows[j]) <==> !Matches(l, h, rows[j], start, end))
  {
    forall j | 0 <= j <= i ensures Reported(found, rows[j]) <==> !Matches(l, h, rows[j], start, end) {
      if !Matches(l, h, rows[j], start, end) {
        if j < i {
          var y :| y in before && y.key == rows[j];
          assert y in found;
        } else {
          assert x.value in found;
        }
      }
    }
  }

  lemma NothingFound(l: Ledger, h: Hourly, start: int, end: int, found: seq<Mismatch>)
    requires forall x | x in found :: Explains(x, l, h, start, end) && x.key in ReconciliationKeys(l, h, start, end)
    requires forall k | k in ReconciliationKeys(l, h, start, end) :: Reported(found, k) <==> !Matches(l, h, k, start, end)
    ensures found == [] <==> Exact(l, h, start, end)
    ensures found == [] <==> forall k :: Matches(l, h, k, start, end)
  {
    Agreement.ExactMeansEveryGroupMatches(l, h, start, end);
    if found != [] {
      assert found[0] in found && Explains(found[0], l, h, start, end);
    }
  }

  /** `_reconciliation_bounds`. */
  method ReconciliationBounds(h: Hourly, cutoff: int, prunedThrough: Option<Instant>) returns (r: Result<(int, int), Reason>)
    ensures r == Bounds(h, cutoff, prunedThrough)
  {
    var hours := Hours(Visible(h, cutoff));
    if hours == {} {
      return Err(NoRollups);
    }
    var first := SelectLeast(hours, Early);
    var last := SelectLeast(hours, Late);
    assert first == Least(hours, Early) && last == Least(hours, Late);
    r := BoundsFrom(first, last, cutoff, prunedThrough);
  }

  /** Bounds, then reconciliation over them. */
  method Verify(l: Ledger, prunedThrough: Option<Instant>, h: Hourly, cutoff: int) returns (r: Result<(int, int), Reason>)
    ensures r == match Bounds(h, cutoff, prunedThrough)
      case Err(reason) => Err(reason)
      case Ok((start, end)) => if Exact(l, h, start, end) then Ok((start, end)) else Err(ReconciliationMismatch)
  {
    r := ReconciliationBounds(h, cutoff, prunedThrough);
    if r.Ok? {
      var _, mismatches := ReconciliationResult(l, h, r.value.0, r.value.1);
      if mismatches != [] {
        r := Err(ReconciliationMismatch);
      }
    }
  }

  /** The body of the activating transaction on its snapshot `t`, and how many weekly rows it wrote. */
  method Renew(l: Ledger, prunedThrough: Option<Instant>, t: Tables, w: Window, rows: Option<map<Key, Totals>>,
               version: int, now: Instant) returns (r: Result<Tables, Reason>, written: nat)
    ensures r == Activate(l, prunedThrough, t, w, rows, version, now)
  {
    var work := Candidate(t, w, rows, version);
    written := 0;
    var range := Verify(l, prunedThrough, work.hourly, w.cutoff);
    if range.Err? {
      return Err(range.error), 0;
    }
    r, written := Rewrite(work, w, range.value.0, range.value.1, version, now);
  }

  /** The delete, the upsert and the conditional update of the state row. */
  method Rewrite(work: Tables, w: Window, start: int, end: int, version: int, now: Instant)
    returns (r: Result<Tables, Reason>, written: nat)
    ensures r == Commit(work, w, start, end, version, now)
    ensures r.Ok? ==> written == |Renewed(work.hourly, w.cutoff, FirstWeek(start), CurrentWeek(w.cutoff, end))|
  {
    var first, current := FirstWeek(start), CurrentWeek(w.cutoff, end);
    var renewed: Weekly := map[];
    if first < current {
      renewed := WeeklyFromHourly(work.hourly, w.cutoff, first, current);
    }
    var weekly := ReplaceWeeks(work.weekly, renewed, first, current);
    if work.state.version == Some(version) && work.state.lastCutoff.Some? && work.state.lastCutoff.value >= w.cutoff {
      var state := work.state.(lastReconciledAt := Some(now), activeVersion := Some(version), activeCutoff := Some(w.cutoff));
      return Ok(Tables(work.hourly, weekly, state)), |renewed|;
    }
    return Err(ActivationStateChanged), 0;
  }

  class Store {
    var hourly: Hourly
    var weekly: Weekly
    var state: RollupState

    function Model(): Tables
      reads this
    {
      Tables(hourly, weekly, state)
    }

    constructor ()
      ensures Model() == Tables(map[], map[], RollupState(None, None, None, None, None))
    {
      hourly, weekly, state := map[], map[], RollupState(None, None, None, None, None);
    }

    /** `owned` is what `verify_claim_for_publication` finds inside the transaction. */
    method PublishHourlyRollups(owned: bool, w: Window, rows: map<Key, Totals>, version: int)
      returns (r: Result<nat, Reason>)
      modifies this
      ensures r == if owned then Ok(|rows|) else Err(LeaseLost)
      ensures Model() == if owned then Publish(old(Model()), w, rows, version) else old(Model())
    {
      if !owned {
        return Err(LeaseLost);
      }
      if rows != map[] {
        hourly := Upsert(hourly, rows, w.cutoff);
      }
      state := state.(version := Some(version), lastCutoff := Greatest(state.lastCutoff, w.cutoff));
      return Ok(|rows|);
    }

    /** All of the activation, or an error and no change at all. */
    method ActivateReconciledRollups(owned: bool, l: Ledger, prunedThrough: Option<Instant>, w: Window,
                                     rows: Option<map<Key, Totals>>, version: int, now: Instant)
      returns (r: Result<nat, Reason>)
      modifies this
      ensures !owned ==> r == Err(LeaseLost)
      ensures owned ==> (r.Ok? <==> Activate(l, prunedThrough, old(Model()), w, rows, version, now).Ok?)
      ensures r.Ok? ==> Activate(l, prunedThrough, old(Model()), w, rows, version, now) == Ok(Model())
      ensures r.Err? ==> Model() == old(Model())
      ensures owned && r.Err? ==> Activate(l, prunedThrough, old(Model()), w, rows, version, now) == Err(r.error)
    {
      if !owned {
        return Err(LeaseLost);
      }
      var work, renewed := Renew(l, prunedThrough, Model(), w, rows, version, now);
      if work.Err? {
        return Err(work.error);
      }
      hourly, weekly, state := work.value.hourly, work.value.weekly, work.value.state;
      return Ok(renewed);
    }
  }
}
