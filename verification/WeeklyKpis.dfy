/** The reference weekly report: a pure transformation of raw event records, first as a function of the
    *sets* of records, then as the loops that compute it. */
module WeeklyKpis {
  import opened Wrappers
  import opened Instants
  import opened Sorting
  import opened Ledger

  datatype Source = Inbound | Outbound | StockoutEvent | DiscrepancyEvent

  const SOURCES: seq<Source> := [Inbound, Outbound, StockoutEvent, DiscrepancyEvent]

  datatype Site = LosAngeles | Zaragoza

  /** An input record; None stands for a field that is absent or not of the required type. */
  datatype Record = Record(id: Option<int>, at: Option<Instant>, quantity: Option<int>,
                           warehouse: Option<Warehouse>, client: Option<Client>)

  datatype Pair = Pair(site: Site, client: Client)

  datatype Event = Event(id: int, at: Instant, amount: Option<int>, pair: Pair)

  datatype TransformError = TransformError

  type Activity = map<Source, seq<Record>>

  function SiteOf(w: Warehouse): Site {
    match w case LA => LosAngeles case ZGZ => Zaragoza
  }

  /** `_quantity_for_source`: None is a rejected record. */
  function Amount(source: Source, quantity: Option<int>): Option<Option<int>> {
    match source
    case Inbound | Outbound => if quantity.Some? && quantity.value > 0 then Some(quantity) else None
    case DiscrepancyEvent => if quantity.Some? && quantity.value != 0 then Some(quantity) else None
    case StockoutEvent => Some(None)
  }

  function Normalize(source: Source, r: Record): Option<Event> {
    var amount := Amount(source, r.quantity);
    if r.id.Some? && r.id.value > 0 && r.at.Some? && amount.Some? && r.warehouse.Some? && r.client.Some?
    then Some(Event(r.id.value, r.at.value, amount.value, Pair(SiteOf(r.warehouse.value), r.client.value)))
    else None
  }

  // ---------------------------------------------------------------- the report as a function of sets

  /** All records are valid, and records sharing an id are the same event. */
  ghost predicate Clean(source: Source, rs: set<Record>) {
    && (forall r | r in rs :: Normalize(source, r).Some?)
    && (forall r, s | r in rs && s in rs && r.id == s.id :: Normalize(source, r) == Normalize(source, s))
  }

  ghost function EventsOf(source: Source, rs: set<Record>): set<Event> {
    set r | r in rs && Normalize(source, r).Some? :: Normalize(source, r).value
  }

  function EventRank(e: Event): int { e.id }

  lemma CleanIsRanked(source: Source, rs: set<Record>)
    requires Clean(source, rs)
    ensures Ranked(EventsOf(source, rs), EventRank)
  {
  }

  /** `_normalize_source`. */
  ghost function NormalizeSource(source: Source, rs: set<Record>): Result<seq<Event>, TransformError> {
    if Clean(source, rs) then
      CleanIsRanked(source, rs);
      Ok(Sorted(EventsOf(source, rs), EventRank))
    else Err(TransformError)
  }

  /** Dates are day numbers; day 4 is a Monday. */
  predicate IsMonday(day: int) {
    (day - 4) % 7 == 0
  }

  /** `recomputable_weeks`: the whole week lies at or after the reset. */
  function RecomputableWeeks(days: set<int>, lastReset: Option<Instant>): set<int> {
    set day | day in days && (lastReset.Some? ==> day * DAY >= lastReset.value) :: (day - 4) / 7
  }

  datatype Cell = Cell(week: int, pair: Pair)

  function PairRank(p: Pair): int {
    (if p.site == LosAngeles then 0 else CLIENTS) + p.client
  }

  function CellRank(c: Cell): int {
    c.week * (2 * CLIENTS) + PairRank(c.pair)
  }

  function Grid(weeks: set<int>, pairs: set<Pair>): set<Cell> {
    set w, p | w in weeks && p in pairs :: Cell(w, p)
  }

  /** The rank orders cells by week, then site, then client. */
  lemma CellRankIsLexicographic(c: Cell, d: Cell)
    ensures CellRank(c) < CellRank(d) <==>
      || c.week < d.week
      || (c.week == d.week && c.pair.site.LosAngeles? && d.pair.site.Zaragoza?)
      || (c.week == d.week && c.pair.site == d.pair.site && c.pair.client < d.pair.client)
    ensures CellRank(c) == CellRank(d) ==> c == d
  {
  }

  function CellOf(e: Event): Cell {
    Cell(WeekOf(HourOf(e.at)), e.pair)
  }

  function Weight(source: Source, e: Event): int {
    if source == Inbound then e.amount.GetOr(0) else 1
  }

  /** One counter of the grid: units for inbound, events for the other sources. */
  function Count(source: Source, es: seq<Event>, c: Cell): int {
    if es == [] then 0
    else Count(source, es[..|es| - 1], c) + if CellOf(es[|es| - 1]) == c then Weight(source, es[|es| - 1]) else 0
  }

  datatype Row = Row(cell: Cell, inboundUnits: int, outboundOrders: int, stockouts: int, discrepancies: int, rate: real)

  type Normalized = map<Source, seq<Event>>

  predicate AllSources(norm: Normalized) {
    Inbound in norm && Outbound in norm && StockoutEvent in norm && DiscrepancyEvent in norm
  }

  /** `compute_discrepancy_rate`. */
  function DiscrepancyRate(discrepancies: int, orders: int): Result<real, TransformError> {
    if discrepancies < 0 || orders < 0 || discrepancies > orders then Err(TransformError)
    else if orders == 0 then Ok(0.0)
    else Ok(discrepancies as real / orders as real)
  }

  predicate RateDefined(norm: Normalized, c: Cell)
    requires AllSources(norm)
  {
    DiscrepancyRate(Count(DiscrepancyEvent, norm[DiscrepancyEvent], c), Count(Outbound, norm[Outbound], c)).Ok?
  }

  function RowOf(norm: Normalized, c: Cell): Row
    requires AllSources(norm) && RateDefined(norm, c)
  {
    var orders, discrepancies := Count(Outbound, norm[Outbound], c), Count(DiscrepancyEvent, norm[DiscrepancyEvent], c);
    Row(c, Count(Inbound, norm[Inbound], c), orders, Count(StockoutEvent, norm[StockoutEvent], c), discrepancies,
        DiscrepancyRate(discrepancies, orders).value)
  }

  ghost predicate RowsFor(rows: seq<Row>, norm: Normalized, cells: seq<Cell>) {
    && AllSources(norm) && |rows| == |cells|
    && forall i :: 0 <= i < |cells| ==> RateDefined(norm, cells[i]) && rows[i] == RowOf(norm, cells[i])
  }

  // ---------------------------------------------------------------- when the report exists, and what it is

  function Elements<T>(s: seq<T>): set<T> {
    set x | x in s
  }

  datatype PairInput = PairInput(warehouse: Option<Warehouse>, client: Option<Client>)

  predicate ValidPair(p: PairInput) {
    p.warehouse.Some? && p.client.Some?
  }

  function PairOf(p: PairInput): Pair
    requires ValidPair(p)
  {
    Pair(SiteOf(p.warehouse.value), p.client.value)
  }

  function Pairs(inputs: set<PairInput>): set<Pair> {
    set p | p in inputs && ValidPair(p) :: PairOf(p)
  }

  ghost predicate CleanActivity(activity: Activity) {
    && activity.Keys == Elements(SOURCES)
    && forall s | s in activity :: Clean(s, Elements(activity[s]))
  }

  ghost function NormalizeActivity(activity: Activity): Normalized
    requires CleanActivity(activity)
  {
    map s | s in activity :: NormalizeSource(s, Elements(activity[s])).value
  }

  ghost predicate Covered(norm: Normalized, pairs: set<Pair>) {
    forall s, e | s in norm && e in norm[s] :: e.pair in pairs
  }

  ghost function Cells(inputs: set<PairInput>, days: set<int>, lastReset: Option<Instant>): (cells: seq<Cell>)
  {
    var grid := Grid(RecomputableWeeks(days, lastReset), Pairs(inputs));
    GridIsRanked(grid);
    Sorted(grid, CellRank)
  }

  lemma GridIsRanked(cells: set<Cell>)
    ensures Ranked(cells, CellRank)
  {
  }

  predicate ValidGrid(inputs: set<PairInput>, days: set<int>) {
    (forall p | p in inputs :: ValidPair(p)) && (forall d | d in days :: IsMonday(d))
  }

  ghost predicate Accepted(activity: Activity, inputs: set<PairInput>, days: set<int>) {
    CleanActivity(activity) && ValidGrid(inputs, days) && Covered(NormalizeActivity(activity), Pairs(inputs))
  }

  /** `rows` is the report on these inputs; no `rows` is when they are refused. */
  ghost predicate IsReport(activity: Activity, inputs: set<PairInput>, days: set<int>, lastReset: Option<Instant>,
                           rows: seq<Row>)
  {
    Accepted(activity, inputs, days) && RowsFor(rows, NormalizeActivity(activity), Cells(inputs, days, lastReset))
  }

  /** Permuting or repeating input records changes neither the report nor whether there is one. */
  lemma ReportIgnoresOrderAndDuplicates(a: Activity, b: Activity, inputs: set<PairInput>, days: set<int>,
                                        lastReset: Option<Instant>, rows: seq<Row>)
    requires a.Keys == b.Keys && forall s | s in a :: Elements(a[s]) == Elements(b[s])
    ensures IsReport(a, inputs, days, lastReset, rows) <==> IsReport(b, inputs, days, lastReset, rows)
  {
    if CleanActivity(a) {
      SameNormalization(a, b);
    } else if CleanActivity(b) {
      SameNormalization(b, a);
    }
  }

  lemma SameNormalization(a: Activity, b: Activity)
    requires a.Keys == b.Keys && forall s | s in a :: Elements(a[s]) == Elements(b[s])
    requires CleanActivity(a)
    ensures CleanActivity(b) && NormalizeActivity(a) == NormalizeActivity(b)
  {
    forall s | s in b ensures Clean(s, Elements(b[s])) {
      assert Elements(a[s]) == Elements(b[s]);
    }
    assert forall s | s in a :: NormalizeActivity(a)[s] == NormalizeActivity(b)[s];
  }

  /** The Monday of the week is among the target days. */
  ghost predicate Asked(days: set<int>, week: int) {
    exists day | day in days :: 24 * day == WeekStart(week)
  }

  /** No instant of the week lies before the last reset. */
  ghost predicate Intact(lastReset: Option<Instant>, week: int) {
    lastReset.Some? ==> forall t: Instant :: WeekOf(HourOf(t)) == week ==> lastReset.value <= t
  }

  /** The weeks of a report are those asked for that the reset has left whole. */
  lemma ReportedWeeks(days: set<int>, lastReset: Option<Instant>, week: int)
    requires forall day | day in days :: IsMonday(day)
    ensures week in RecomputableWeeks(days, lastReset) <==> Asked(days, week) && Intact(lastReset, week)
  {
    var first := WeekStart(week) * HOUR;
    assert HourOf(first) == WeekStart(week) && WeekOf(HourOf(first)) == week;
    if Intact(lastReset, week) && lastReset.Some? {
      assert lastReset.value <= first;
    }
    if lastReset.Some? && lastReset.value <= first {
      forall t: Instant | WeekOf(HourOf(t)) == week ensures lastReset.value <= t {
        WeekBounds(HourOf(t), week);
      }
    }
    forall day | day in days ensures (day - 4) / 7 == week <==> 24 * day == WeekStart(week) {
    }
  }

  /** The report is unique, strictly sorted by week, site and client, and has a row for every pair in every week
      that was asked for and lies wholly after the last reset, and for no others. */
  lemma ReportIsSortedAndDense(activity: Activity, inputs: set<PairInput>, days: set<int>, lastReset: Option<Instant>,
                               rows: seq<Row>, other: seq<Row>)
    requires IsReport(activity, inputs, days, lastReset, rows)
    ensures IsReport(activity, inputs, days, lastReset, other) ==> other == rows
    ensures forall i, j :: 0 <= i < j < |rows| ==> CellRank(rows[i].cell) < CellRank(rows[j].cell)
    ensures forall w, p :: Asked(days, w) && Intact(lastReset, w) && p in Pairs(inputs) <==>
      exists i :: 0 <= i < |rows| && rows[i].cell == Cell(w, p)
  {
    var cells := Cells(inputs, days, lastReset);
    var grid := Grid(RecomputableWeeks(days, lastReset), Pairs(inputs));
    forall w, p ensures Asked(days, w) && Intact(lastReset, w) && p in Pairs(inputs) <==>
      exists i :: 0 <= i < |rows| && rows[i].cell == Cell(w, p)
    {
      ReportedWeeks(days, lastReset, w);
      HasRow(rows, NormalizeActivity(activity), cells, grid, Cell(w, p));
    }
  }

  lemma HasRow(rows: seq<Row>, norm: Normalized, cells: seq<Cell>, grid: set<Cell>, c: Cell)
    requires RowsFor(rows, norm, cells) && Lists(cells, grid)
    ensures c in grid <==> exists i :: 0 <= i < |rows| && rows[i].cell == c
  {
    if c in grid {
      assert c in cells;
      var i :| 0 <= i < |cells| && cells[i] == c;
      assert rows[i].cell == c;
    }
    if exists i :: 0 <= i < |rows| && rows[i].cell == c {
      var i :| 0 <= i < |rows| && rows[i].cell == c;
      assert cells[i] in cells && rows[i].cell == cells[i];
    }
  }

  // ---------------------------------------------------------------- conservation

  /** The counters of one source summed over cells. */
  function Total(source: Source, es: seq<Event>, cells: seq<Cell>): int {
    if cells == [] then 0
    else Total(source, es, cells[..|cells| - 1]) + Count(source, es, cells[|cells| - 1])
  }

  /** The events of one source that fall in the given weeks: units for inbound, events otherwise. */
  function Falling(source: Source, es: seq<Event>, weeks: set<int>): int {
    if es == [] then 0
    else
      Falling(source, es[..|es| - 1], weeks) +
      if CellOf(es[|es| - 1]).week in weeks then Weight(source, es[|es| - 1]) else 0
  }

  lemma {:induction false} TotalOfOneMore(source: Source, es: seq<Event>, cells: seq<Cell>)
    requires es != [] && Ascending(cells, CellRank)
    ensures Total(source, es, cells) == Total(source, es[..|es| - 1], cells) +
      if CellOf(es[|es| - 1]) in cells then Weight(source, es[|es| - 1]) else 0
    decreases |cells|
  {
    if cells != [] {
      var init, last := cells[..|cells| - 1], cells[|cells| - 1];
      TotalOfOneMore(source, es, init);
      assert cells == init + [last];
      forall i | 0 <= i < |init| ensures init[i] != last { assert init[i] == cells[i]; }
    }
  }

  lemma {:induction false} TotalOfNone(source: Source, cells: seq<Cell>)
    ensures Total(source, [], cells) == 0
  {
    if cells != [] { TotalOfNone(source, cells[..|cells| - 1]); }
  }

  /** Nothing is lost or counted twice: the totals over all cells are the events in recomputable weeks. */
  lemma {:induction false} CountersConserveEvents(source: Source, es: seq<Event>, cells: seq<Cell>,
                                                  weeks: set<int>, pairs: set<Pair>)
    requires Ascending(cells, CellRank) && Lists(cells, Grid(weeks, pairs))
    requires forall e | e in es :: e.pair in pairs
    ensures Total(source, es, cells) == Falling(source, es, weeks)
    decreases |es|
  {
    if es == [] {
      TotalOfNone(source, cells);
    } else {
      var init, last := es[..|es| - 1], es[|es| - 1];
      CountersConserveEvents(source, init, cells, weeks, pairs);
      TotalOfOneMore(source, es, cells);
      assert last in es;
      assert CellOf(last) in cells <==> CellOf(last) in Grid(weeks, pairs);
    }
  }

  /** One counter column of a row. */
  function Column(source: Source, row: Row): int {
    match source
    case Inbound => row.inboundUnits
    case Outbound => row.outboundOrders
    case StockoutEvent => row.stockouts
    case DiscrepancyEvent => row.discrepancies
  }

  function ColumnSum(source: Source, rows: seq<Row>): int {
    if rows == [] then 0 else ColumnSum(source, rows[..|rows| - 1]) + Column(source, rows[|rows| - 1])
  }

  lemma {:induction false} ColumnIsTotal(source: Source, rows: seq<Row>, norm: Normalized, cells: seq<Cell>)
    requires RowsFor(rows, norm, cells)
    ensures ColumnSum(source, rows) == Total(source, norm[source], cells)
    decreases |rows|
  {
    if rows != [] {
      var last := |rows| - 1;
      assert RateDefined(norm, cells[last]) && rows[last] == RowOf(norm, cells[last]);
      ColumnIsTotal(source, rows[..last], norm, cells[..last]);
    }
  }

  /** So every column of a report adds up to the deduplicated events of its source in the recomputable weeks. */
  lemma ReportConservesEvents(activity: Activity, inputs: set<PairInput>, days: set<int>, lastReset: Option<Instant>,
                              rows: seq<Row>, source: Source)
    requires IsReport(activity, inputs, days, lastReset, rows)
    ensures ColumnSum(source, rows) == Falling(source, NormalizeActivity(activity)[source], RecomputableWeeks(days, lastReset))
  {
    var norm, cells := NormalizeActivity(activity), Cells(inputs, days, lastReset);
    ColumnIsTotal(source, rows, norm, cells);
    CountersConserveEvents(source, norm[source], cells, RecomputableWeeks(days, lastReset), Pairs(inputs));
  }
}
