/** The loops of the weekly report, proved against `WeeklyKpis`. */
module WeeklyReport {
  import opened Wrappers
  import opened Instants
  import opened Sorting
  import opened WeeklyKpis

  /** `dedup` holds exactly the events of the records read so far. */
  ghost predicate Holds(dedup: map<int, Event>, source: Source, records: seq<Record>) {
    && (forall r | r in records :: Normalize(source, r).Some? &&
          Normalize(source, r).value.id in dedup && dedup[Normalize(source, r).value.id] == Normalize(source, r).value)
    && (forall k | k in dedup :: exists r :: r in records && Normalize(source, r) == Some(dedup[k]) && dedup[k].id == k)
  }

  function Held(dedup: map<int, Event>): set<Event> {
    set k | k in dedup :: dedup[k]
  }

  lemma HeldIsClean(dedup: map<int, Event>, source: Source, records: seq<Record>)
    requires Holds(dedup, source, records)
    ensures Clean(source, Elements(records))
    ensures Held(dedup) == EventsOf(source, Elements(records))
  {
  }

  method NormalizeRecords(source: Source, records: seq<Record>) returns (res: Result<seq<Event>, TransformError>)
    ensures res == NormalizeSource(source, Elements(records))
  {
    var dedup: map<int, Event> := map[];
    for i := 0 to |records|
      invariant Holds(dedup, source, records[..i])
    {
      var r := records[i];
      assert r in Elements(records);
      var n := Normalize(source, r);
      if n.None? {
        return Err(TransformError);
      }
      var e := n.value;
      if e.id in dedup && dedup[e.id] != e {
        var s :| s in records[..i] && Normalize(source, s) == Some(dedup[e.id]);
        assert s in Elements(records);
        return Err(TransformError);
      }
      HoldOneMore(dedup, source, records[..i], r, e);
      dedup := dedup[e.id := e];
      assert records[..i + 1] == records[..i] + [r];
    }
    assert records[..|records|] == records;
    HeldIsClean(dedup, source, records);
    CleanIsRanked(source, Elements(records));
    var es := SortByRank(Held(dedup), EventRank);
    return Ok(es);
  }

  lemma HoldOneMore(dedup: map<int, Event>, source: Source, records: seq<Record>, r: Record, e: Event)
    requires Holds(dedup, source, records) && Normalize(source, r) == Some(e)
    requires e.id in dedup ==> dedup[e.id] == e
    ensures Holds(dedup[e.id := e], source, records + [r])
  {
  }

  type Counters = map<Cell, int>

  /** The counters of source `s` stand at the counts over `es`. */
  ghost predicate CountersAt(counters: Counters, cells: set<Cell>, s: Source, es: seq<Event>) {
    forall c | c in cells :: c in counters && counters[c] == Count(s, es, c)
  }

  /** The counting loop over one source, refused when an event's pair has no SKU. */
  method CountSource(cells: set<Cell>, weeks: set<int>, pairs: set<Pair>, s: Source, es: seq<Event>)
    returns (ok: bool, counters: Counters)
    requires cells == Grid(weeks, pairs)
    ensures ok <==> forall e | e in es :: e.pair in pairs
    ensures ok ==> CountersAt(counters, cells, s, es)
  {
    counters := map c | c in cells :: 0;
    for i := 0 to |es|
      invariant forall e | e in es[..i] :: e.pair in pairs
      invariant CountersAt(counters, cells, s, es[..i])
    {
      var e := es[i];
      assert es[..i + 1] == es[..i] + [e] && es[..i + 1][..i] == es[..i];
      if e.pair !in pairs {
        assert e in es;
        return false, counters;
      }
      var cell := CellOf(e);
      if cell.week in weeks {
        assert cell in cells;
        counters := counters[cell := counters[cell] + Weight(s, e)];
      }
    }
    assert es[..|es|] == es;
    ok := true;
  }

  /** The final loop: one row per cell, refused when a rate is undefined. */
  method BuildRows(counters: map<Source, Counters>, ghost norm: Normalized, cells: seq<Cell>) returns (res: Result<seq<Row>, TransformError>)
    requires AllSources(norm)
    requires forall s | s in norm :: s in counters && CountersAt(counters[s], Elements(cells), s, norm[s])
    ensures res.Ok? ==> RowsFor(res.value, norm, cells)
    ensures res.Err? ==> exists c :: c in cells && !RateDefined(norm, c)
  {
    var rows: seq<Row> := [];
    for i := 0 to |cells|
      invariant |rows| == i
      invariant forall j :: 0 <= j < i ==> RateDefined(norm, cells[j]) && rows[j] == RowOf(norm, cells[j])
    {
      var c := cells[i];
      assert c in cells && c in Elements(cells);
      var rate := DiscrepancyRate(counters[DiscrepancyEvent][c], counters[Outbound][c]);
      if rate.Err? {
        return Err(TransformError);
      }
      rows := rows + [Row(c, counters[Inbound][c], counters[Outbound][c], counters[StockoutEvent][c],
                          counters[DiscrepancyEvent][c], rate.value)];
    }
    return Ok(rows);
  }

  /** `_normalize_activity`. */
  method NormalizeAll(activity: Activity) returns (res: Result<Normalized, TransformError>)
    ensures res.Ok? <==> CleanActivity(activity)
    ensures res.Ok? ==> res.value == NormalizeActivity(activity)
  {
    if activity.Keys != Elements(SOURCES) {
      return Err(TransformError);
    }
    var norm: Normalized := map[];
    var rest := activity.Keys;
    while rest != {}
      invariant rest <= activity.Keys && norm.Keys == activity.Keys - rest
      invariant forall s | s in norm :: Clean(s, Elements(activity[s])) && Ok(norm[s]) == NormalizeSource(s, Elements(activity[s]))
      decreases |rest|
    {
      var s :| s in rest;
      rest := rest - {s};
      var events := NormalizeRecords(s, activity[s]);
      if events.Err? {
        return Err(TransformError);
      }
      norm := norm[s := events.value];
    }
    return Ok(norm);
  }

  method CountAll(norm: Normalized, grid: set<Cell>, weeks: set<int>, pairs: set<Pair>)
    returns (ok: bool, counters: map<Source, Counters>)
    requires grid == Grid(weeks, pairs)
    ensures ok <==> Covered(norm, pairs)
    ensures ok ==> forall s | s in norm :: s in counters && CountersAt(counters[s], grid, s, norm[s])
  {
    counters := map[];
    var rest := norm.Keys;
    while rest != {}
      invariant rest <= norm.Keys
      invariant forall s | s in norm.Keys - rest :: s in counters && CountersAt(counters[s], grid, s, norm[s])
      invariant forall s, e | s in norm.Keys - rest && e in norm[s] :: e.pair in pairs
      decreases |rest|
    {
      var s :| s in rest;
      rest := rest - {s};
      var counted;
      ok, counted := CountSource(grid, weeks, pairs, s, norm[s]);
      if !ok {
        return;
      }
      counters := counters[s := counted];
    }
    ok := true;
  }

  lemma EverySourceIsThere(norm: Normalized)
    requires norm.Keys == Elements(SOURCES)
    ensures AllSources(norm)
  {
    assert SOURCES[0] == Inbound && SOURCES[1] == Outbound && SOURCES[2] == StockoutEvent && SOURCES[3] == DiscrepancyEvent;
  }

  lemma Assembled(activity: Activity, inputs: set<PairInput>, days: set<int>, lastReset: Option<Instant>, norm: Normalized,
                  rows: seq<Row>)
    requires CleanActivity(activity) && ValidGrid(inputs, days) && norm == NormalizeActivity(activity)
    requires Covered(norm, Pairs(inputs)) && RowsFor(rows, norm, Cells(inputs, days, lastReset))
    ensures IsReport(activity, inputs, days, lastReset, rows)
  {
  }

  lemma Refused(activity: Activity, inputs: set<PairInput>, days: set<int>, lastReset: Option<Instant>)
    requires !Accepted(activity, inputs, days)
    ensures forall rows :: !IsReport(activity, inputs, days, lastReset, rows)
  {
  }

  lemma RateMissing(activity: Activity, inputs: set<PairInput>, days: set<int>, lastReset: Option<Instant>, norm: Normalized,
                    cells: seq<Cell>)
    requires CleanActivity(activity) && norm == NormalizeActivity(activity) && AllSources(norm)
    requires cells == Cells(inputs, days, lastReset) && exists c :: c in cells && !RateDefined(norm, c)
    ensures forall rows :: !IsReport(activity, inputs, days, lastReset, rows)
  {
    var c :| c in cells && !RateDefined(norm, c);
    forall rows ensures !RowsFor(rows, norm, cells) {
      var i :| 0 <= i < |cells| && cells[i] == c;
      assert !RateDefined(norm, cells[i]);
    }
  }

  /** The sorted grid. */
  method SortCells(inputs: set<PairInput>, days: set<int>, lastReset: Option<Instant>, grid: set<Cell>) returns (cells: seq<Cell>)
    requires grid == Grid(RecomputableWeeks(days, lastReset), Pairs(inputs))
    ensures cells == Cells(inputs, days, lastReset) && Elements(cells) == grid
  {
    GridIsRanked(grid);
    cells := SortByRank(grid, CellRank);
  }

  /** `assemble_weekly_rows`: the report when there is one, an error exactly when there is none. */
  method AssembleWeeklyRows(activity: Activity, inputs: set<PairInput>, days: set<int>, lastReset: Option<Instant>)
    returns (res: Result<seq<Row>, TransformError>)
    ensures res.Ok? ==> IsReport(activity, inputs, days, lastReset, res.value)
    ensures res.Err? ==> forall rows :: !IsReport(activity, inputs, days, lastReset, rows)
  {
    var norm := NormalizeAll(activity);
    if norm.Err? || !ValidGrid(inputs, days) {
      Refused(activity, inputs, days, lastReset);
      return Err(TransformError);
    }
    EverySourceIsThere(norm.value);
    var pairs, weeks := Pairs(inputs), RecomputableWeeks(days, lastReset);
    var grid := Grid(weeks, pairs);
    var ok, counters := CountAll(norm.value, grid, weeks, pairs);
    if !ok {
      Refused(activity, inputs, days, lastReset);
      return Err(TransformError);
    }
    var cells := SortCells(inputs, days, lastReset, grid);
    res := BuildRows(counters, norm.value, cells);
    if res.Err? {
      RateMissing(activity, inputs, days, lastReset, norm.value, cells);
    } else {
      Assembled(activity, inputs, days, lastReset, norm.value, res.value);
    }
  }
}
