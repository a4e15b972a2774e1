/** The rollups against the stock: what the eight aggregates count, and that a dimension's units add up to the
    movements of its SKUs' balances. */
module UnitsAreFlows {
  import opened Wrappers
  import opened Instants
  import opened Ledger
  import opened Retention

  // ---------------------------------------------------------------- the aggregates as sums over rows

  predicate InHours(at: Instant, lo: int, hi: int) {
    3_600_000_000 * lo <= at < 3_600_000_000 * hi
  }

  predicate OfDim(l: Ledger, sku: nat, w: Warehouse, d: Dim) {
    sku in l.skus && w == d.warehouse && l.skus[sku].client == d.client
  }

  function EntryCount(l: Ledger, d: Dim, lo: int, hi: int): Entry -> int {
    (e: Entry) => if OfDim(l, e.sku, e.warehouse, d) && InHours(e.at, lo, hi) then 1 else 0
  }

  function EntryUnits(l: Ledger, d: Dim, lo: int, hi: int): Entry -> int {
    (e: Entry) => if OfDim(l, e.sku, e.warehouse, d) && InHours(e.at, lo, hi) then e.quantity else 0
  }

  function ExitCount(l: Ledger, kind: ExitKind, d: Dim, lo: int, hi: int): Exit -> int {
    (x: Exit) => if OfDim(l, x.sku, x.warehouse, d) && InHours(x.at, lo, hi) && x.kind == kind then 1 else 0
  }

  function ExitUnits(l: Ledger, kind: ExitKind, d: Dim, lo: int, hi: int): Exit -> int {
    (x: Exit) => if OfDim(l, x.sku, x.warehouse, d) && InHours(x.at, lo, hi) && x.kind == kind then x.quantity else 0
  }

  function ChildCount(d: Dim, lo: int, hi: int): Child -> int {
    (c: Child) => if c.dim == d && InHours(c.at, lo, hi) then 1 else 0
  }

  /** What each of the eight aggregates is to count, row by row. */
  function Wanted(l: Ledger, m: Metric, d: Dim, lo: int, hi: int): int {
    match m
    case InboundMovements => Sum(l.entries, EntryCount(l, d, lo, hi))
    case InboundUnits => Sum(l.entries, EntryUnits(l, d, lo, hi))
    case DispatchOrders => Sum(l.exits, ExitCount(l, Dispatch, d, lo, hi))
    case DispatchUnits => Sum(l.exits, ExitUnits(l, Dispatch, d, lo, hi))
    case LossMovements => Sum(l.exits, ExitCount(l, Loss, d, lo, hi))
    case LossUnits => Sum(l.exits, ExitUnits(l, Loss, d, lo, hi))
    case Stockouts => Sum(l.stockouts, ChildCount(d, lo, hi))
    case Discrepancies => Sum(l.discrepancies, ChildCount(d, lo, hi))
  }

  predicate Weighs(f: Fact, d: Dim, lo: int, hi: int, weight: int) {
    weight == if Counts(f, d, lo, hi) then f.amount else 0
  }

  /** A tally is the sum of what its rows weigh. */
  lemma {:induction false} TallyIsSum<T>(xs: seq<T>, fs: seq<Fact>, weigh: T -> int, d: Dim, lo: int, hi: int)
    requires |fs| == |xs| && forall i :: 0 <= i < |xs| ==> Weighs(fs[i], d, lo, hi, weigh(xs[i]))
    ensures Tally(fs, d, lo, hi) == Sum(xs, weigh)
    decreases |xs|
  {
    if xs != [] {
      TallyIsSum(xs[..|xs| - 1], fs[..|fs| - 1], weigh, d, lo, hi);
      assert Weighs(fs[|fs| - 1], d, lo, hi, weigh(xs[|xs| - 1]));
    }
  }

  lemma HoursAreInstants(at: Instant, lo: int, hi: int)
    ensures lo <= HourOf(at) < hi <==> InHours(at, lo, hi)
  {
  }

  lemma EntryWeighs(l: Ledger, m: Metric, e: Entry, d: Dim, lo: int, hi: int)
    requires m == InboundMovements || m == InboundUnits
    ensures Weighs(EntryFact(l.skus, m, e), d, lo, hi,
                   if m == InboundUnits then EntryUnits(l, d, lo, hi)(e) else EntryCount(l, d, lo, hi)(e))
  {
    HoursAreInstants(e.at, lo, hi);
  }

  predicate IsExitMetric(m: Metric) {
    m == DispatchOrders || m == DispatchUnits || m == LossMovements || m == LossUnits
  }

  function ExitWeight(l: Ledger, m: Metric, d: Dim, lo: int, hi: int): Exit -> int
    requires IsExitMetric(m)
  {
    match m
    case DispatchOrders => ExitCount(l, Dispatch, d, lo, hi)
    case DispatchUnits => ExitUnits(l, Dispatch, d, lo, hi)
    case LossMovements => ExitCount(l, Loss, d, lo, hi)
    case LossUnits => ExitUnits(l, Loss, d, lo, hi)
  }

  lemma ExitWeighs(l: Ledger, m: Metric, x: Exit, d: Dim, lo: int, hi: int)
    requires IsExitMetric(m)
    ensures Weighs(ExitFact(l.skus, m, x), d, lo, hi, ExitWeight(l, m, d, lo, hi)(x))
  {
    HoursAreInstants(x.at, lo, hi);
  }

  lemma EntriesTally(l: Ledger, m: Metric, d: Dim, lo: int, hi: int)
    requires m == InboundMovements || m == InboundUnits
    ensures Tally(FactsOf(l, m), d, lo, hi) == Wanted(l, m, d, lo, hi)
  {
    var weigh := if m == InboundUnits then EntryUnits(l, d, lo, hi) else EntryCount(l, d, lo, hi);
    forall i | 0 <= i < |l.entries| ensures Weighs(FactsOf(l, m)[i], d, lo, hi, weigh(l.entries[i])) {
      EntryWeighs(l, m, l.entries[i], d, lo, hi);
    }
    TallyIsSum(l.entries, FactsOf(l, m), weigh, d, lo, hi);
  }

  lemma ExitsTally(l: Ledger, m: Metric, d: Dim, lo: int, hi: int)
    requires IsExitMetric(m)
    ensures Tally(FactsOf(l, m), d, lo, hi) == Wanted(l, m, d, lo, hi)
  {
    var weigh := ExitWeight(l, m, d, lo, hi);
    forall i | 0 <= i < |l.exits| ensures Weighs(FactsOf(l, m)[i], d, lo, hi, weigh(l.exits[i])) {
      ExitWeighs(l, m, l.exits[i], d, lo, hi);
    }
    TallyIsSum(l.exits, FactsOf(l, m), weigh, d, lo, hi);
  }

  lemma ChildrenTally(cs: seq<Child>, fs: seq<Fact>, d: Dim, lo: int, hi: int)
    requires |fs| == |cs| && forall i :: 0 <= i < |cs| ==> fs[i] == ChildFact(cs[i])
    ensures Tally(fs, d, lo, hi) == Sum(cs, ChildCount(d, lo, hi))
  {
    forall i | 0 <= i < |cs| ensures Weighs(fs[i], d, lo, hi, ChildCount(d, lo, hi)(cs[i])) {
      HoursAreInstants(cs[i].at, lo, hi);
    }
    TallyIsSum(cs, fs, ChildCount(d, lo, hi), d, lo, hi);
  }

  /** Each aggregate counts the rows, or their units, of its table, kind, dimension and hours, and nothing else. */
  lemma TallyIsWanted(l: Ledger, m: Metric, d: Dim, lo: int, hi: int)
    ensures Tally(FactsOf(l, m), d, lo, hi) == Wanted(l, m, d, lo, hi)
  {
    match m
    case InboundMovements | InboundUnits => EntriesTally(l, m, d, lo, hi);
    case Stockouts => ChildrenTally(l.stockouts, FactsOf(l, m), d, lo, hi);
    case Discrepancies => ChildrenTally(l.discrepancies, FactsOf(l, m), d, lo, hi);
    case _ => ExitsTally(l, m, d, lo, hi);
  }

  // ---------------------------------------------------------------- and the balances

  /** The movements of several SKUs together. */
  function FlowOfAll(l: Ledger, skus: seq<nat>, lo: Instant, hi: Instant): int
    requires forall k | k in skus :: k in l.skus
  {
    if skus == [] then 0
    else
      assert skus[|skus| - 1] in skus;
      FlowOfAll(l, skus[..|skus| - 1], lo, hi) + Flow(l, skus[|skus| - 1], lo, Some(hi))
  }

  function EntriesOfAll(l: Ledger, skus: seq<nat>, lo: Instant, hi: Instant): Entry -> int {
    (e: Entry) => if e.sku in skus && lo <= e.at < hi then e.quantity else 0
  }

  function ExitsOfAll(l: Ledger, skus: seq<nat>, lo: Instant, hi: Instant): Exit -> int {
    (x: Exit) => if x.sku in skus && lo <= x.at < hi then x.quantity else 0
  }

  /** Every movement is in its SKU's warehouse. */
  ghost predicate InTheirWarehouse(l: Ledger) {
    && (forall e | e in l.entries :: e.sku in l.skus && e.warehouse == l.skus[e.sku].warehouse)
    && (forall x | x in l.exits :: x.sku in l.skus && x.warehouse == l.skus[x.sku].warehouse)
  }

  lemma {:induction false} SumOfNothing<T>(xs: seq<T>, weigh: T -> int)
    requires forall x | x in xs :: weigh(x) == 0
    ensures Sum(xs, weigh) == 0
  {
    if xs != [] {
      assert xs[|xs| - 1] in xs;
      SumOfNothing(xs[..|xs| - 1], weigh);
    }
  }

  predicate Distinct(skus: seq<nat>) {
    forall i, j :: 0 <= i < j < |skus| ==> skus[i] != skus[j]
  }

  lemma LastIsNew(skus: seq<nat>)
    requires skus != [] && Distinct(skus)
    ensures skus[|skus| - 1] !in skus[..|skus| - 1]
    ensures forall k :: k in skus <==> k in skus[..|skus| - 1] || k == skus[|skus| - 1]
  {
    assert skus == skus[..|skus| - 1] + [skus[|skus| - 1]];
  }

  lemma {:induction false} FlowsAddUp(l: Ledger, skus: seq<nat>, lo: Instant, hi: Instant)
    requires InTheirWarehouse(l) && Distinct(skus) && forall k | k in skus :: k in l.skus
    ensures FlowOfAll(l, skus, lo, hi) ==
      Sum(l.entries, EntriesOfAll(l, skus, lo, hi)) - Sum(l.exits, ExitsOfAll(l, skus, lo, hi))
    decreases |skus|
  {
    if skus == [] {
      SumOfNothing(l.entries, EntriesOfAll(l, skus, lo, hi));
      SumOfNothing(l.exits, ExitsOfAll(l, skus, lo, hi));
    } else {
      var init, last := skus[..|skus| - 1], skus[|skus| - 1];
      LastIsNew(skus);
      FlowsAddUp(l, init, lo, hi);
      var w := l.skus[last].warehouse;
      SumSplits(l.entries, EntriesOfAll(l, skus, lo, hi), EntriesOfAll(l, init, lo, hi), EntriesWithin(last, w, lo, Some(hi)));
      SumSplits(l.exits, ExitsOfAll(l, skus, lo, hi), ExitsOfAll(l, init, lo, hi), ExitsWithin(last, w, lo, Some(hi)));
    }
  }

  /** These are the SKUs of the dimension. */
  ghost predicate SkusOf(l: Ledger, skus: seq<nat>, d: Dim) {
    Distinct(skus) && forall k :: k in skus <==> k in l.skus && l.skus[k] == d
  }

  lemma {:induction false} SameSum<T>(xs: seq<T>, a: T -> int, b: T -> int)
    requires forall x | x in xs :: a(x) == b(x)
    ensures Sum(xs, a) == Sum(xs, b)
  {
    if xs != [] {
      assert xs[|xs| - 1] in xs;
      SameSum(xs[..|xs| - 1], a, b);
    }
  }

  /** Over any hours, the units received less those dispatched and lost in one dimension, as the rollups count them,
      are what its SKUs' balances moved by. */
  lemma UnitsAreTheFlow(l: Ledger, skus: seq<nat>, d: Dim, lo: int, hi: int)
    requires InTheirWarehouse(l) && SkusOf(l, skus, d)
    ensures Tally(FactsOf(l, InboundUnits), d, lo, hi) - Tally(FactsOf(l, DispatchUnits), d, lo, hi)
              - Tally(FactsOf(l, LossUnits), d, lo, hi)
            == FlowOfAll(l, skus, 3_600_000_000 * lo, 3_600_000_000 * hi)
  {
    var from, to := 3_600_000_000 * lo, 3_600_000_000 * hi;
    FlowsAddUp(l, skus, from, to);
    TallyIsWanted(l, InboundUnits, d, lo, hi);
    TallyIsWanted(l, DispatchUnits, d, lo, hi);
    TallyIsWanted(l, LossUnits, d, lo, hi);
    EntriesMatch(l, skus, d, lo, hi);
    ExitsMatch(l, skus, d, lo, hi);
  }

  lemma EntriesMatch(l: Ledger, skus: seq<nat>, d: Dim, lo: int, hi: int)
    requires InTheirWarehouse(l) && SkusOf(l, skus, d)
    ensures Sum(l.entries, EntryUnits(l, d, lo, hi)) == Sum(l.entries, EntriesOfAll(l, skus, 3_600_000_000 * lo, 3_600_000_000 * hi))
  {
    SameSum(l.entries, EntryUnits(l, d, lo, hi), EntriesOfAll(l, skus, 3_600_000_000 * lo, 3_600_000_000 * hi));
  }

  lemma ExitsMatch(l: Ledger, skus: seq<nat>, d: Dim, lo: int, hi: int)
    requires InTheirWarehouse(l) && SkusOf(l, skus, d)
    ensures Sum(l.exits, ExitUnits(l, Dispatch, d, lo, hi)) + Sum(l.exits, ExitUnits(l, Loss, d, lo, hi)) ==
      Sum(l.exits, ExitsOfAll(l, skus, 3_600_000_000 * lo, 3_600_000_000 * hi))
  {
    SumSplits(l.exits, ExitsOfAll(l, skus, 3_600_000_000 * lo, 3_600_000_000 * hi),
              ExitUnits(l, Dispatch, d, lo, hi), ExitUnits(l, Loss, d, lo, hi));
  }
}
