/** Which inputs have a report, in terms of the records themselves. */
module ReportAcceptance {
  import opened Wrappers
  import opened Instants
  import opened Sorting
  import opened WeeklyKpis

  /** The record has everything its source needs: a positive identifier, an instant, a place, and a quantity that is
      positive for movements, not zero for discrepancies and of no matter for stockouts. */
  predicate Usable(source: Source, r: Record) {
    && r.id.Some? && r.id.value > 0 && r.at.Some? && r.warehouse.Some? && r.client.Some?
    && (source == Inbound || source == Outbound ==> r.quantity.Some? && r.quantity.value > 0)
    && (source == DiscrepancyEvent ==> r.quantity.Some? && r.quantity.value != 0)
  }

  /** Two deliveries of one event. */
  predicate SameEvent(source: Source, a: Record, b: Record) {
    && a.at == b.at && a.warehouse == b.warehouse && a.client == b.client
    && (source != StockoutEvent ==> a.quantity == b.quantity)
  }

  ghost predicate SourceOk(source: Source, rs: seq<Record>) {
    && (forall r | r in rs :: Usable(source, r))
    && (forall a, b | a in rs && b in rs && a.id == b.id :: SameEvent(source, a, b))
  }

  lemma UsableIsNormal(source: Source, r: Record)
    ensures Usable(source, r) <==> Normalize(source, r).Some?
  {
  }

  lemma SameEventIsEqual(source: Source, a: Record, b: Record)
    requires Usable(source, a) && Usable(source, b) && a.id == b.id
    ensures SameEvent(source, a, b) <==> Normalize(source, a) == Normalize(source, b)
  {
  }

  lemma CleanIsOk(source: Source, rs: seq<Record>)
    ensures Clean(source, Elements(rs)) <==> SourceOk(source, rs)
  {
    forall r ensures Usable(source, r) <==> Normalize(source, r).Some? {
      UsableIsNormal(source, r);
    }
    forall a, b | Usable(source, a) && Usable(source, b) && a.id == b.id
      ensures SameEvent(source, a, b) <==> Normalize(source, a) == Normalize(source, b)
    {
      SameEventIsEqual(source, a, b);
    }
    assert forall r :: r in Elements(rs) <==> r in rs;
  }

  /** The record's place is that of some SKU. */
  ghost predicate HasSku(inputs: set<PairInput>, r: Record) {
    PairInput(r.warehouse, r.client) in inputs
  }

  ghost predicate InputsOk(activity: Activity, inputs: set<PairInput>, days: set<int>) {
    && activity.Keys == {Inbound, Outbound, StockoutEvent, DiscrepancyEvent}
    && (forall s | s in activity :: SourceOk(s, activity[s]))
    && (forall p | p in inputs :: p.warehouse.Some? && p.client.Some?)
    && (forall day | day in days :: (day - 4) % 7 == 0)
    && (forall s, r | s in activity && r in activity[s] :: HasSku(inputs, r))
  }

  lemma SourcesAre(keys: set<Source>)
    ensures keys == Elements(SOURCES) <==> keys == {Inbound, Outbound, StockoutEvent, DiscrepancyEvent}
  {
    assert SOURCES[0] == Inbound && SOURCES[1] == Outbound && SOURCES[2] == StockoutEvent && SOURCES[3] == DiscrepancyEvent;
    assert Elements(SOURCES) == {Inbound, Outbound, StockoutEvent, DiscrepancyEvent};
  }

  lemma CleanActivityIsOk(activity: Activity)
    ensures CleanActivity(activity) <==>
      && activity.Keys == {Inbound, Outbound, StockoutEvent, DiscrepancyEvent}
      && forall s | s in activity :: SourceOk(s, activity[s])
  {
    SourcesAre(activity.Keys);
    forall s | s in activity ensures Clean(s, Elements(activity[s])) <==> SourceOk(s, activity[s]) {
      CleanIsOk(s, activity[s]);
    }
  }

  lemma PairHasSku(inputs: set<PairInput>, source: Source, r: Record)
    requires forall p | p in inputs :: ValidPair(p)
    requires Normalize(source, r).Some?
    ensures Normalize(source, r).value.pair in Pairs(inputs) <==> HasSku(inputs, r)
  {
    var pair := Normalize(source, r).value.pair;
    var input := PairInput(r.warehouse, r.client);
    assert PairOf(input) == pair;
    if pair in Pairs(inputs) {
      var p :| p in inputs && ValidPair(p) && PairOf(p) == pair;
      assert p == input;
    }
  }

  /** The events of a clean source are those of its records. */
  lemma EventsAreRecords(activity: Activity, s: Source, e: Event)
    requires CleanActivity(activity) && s in activity
    ensures e in NormalizeActivity(activity)[s] <==> exists r :: r in activity[s] && Normalize(s, r) == Some(e)
  {
    var rs := Elements(activity[s]);
    CleanIsRanked(s, rs);
    assert NormalizeActivity(activity)[s] == Sorted(EventsOf(s, rs), EventRank);
    assert e in NormalizeActivity(activity)[s] <==> e in EventsOf(s, rs);
  }

  ghost predicate IsEvent(s: Source, rs: seq<Record>, e: Event) {
    exists r :: r in rs && Normalize(s, r) == Some(e)
  }

  ghost predicate SourceCovered(es: seq<Event>, pairs: set<Pair>) {
    forall e | e in es :: e.pair in pairs
  }

  ghost predicate AllHaveSku(rs: seq<Record>, inputs: set<PairInput>) {
    forall r | r in rs :: HasSku(inputs, r)
  }

  lemma SourceHasSkus(s: Source, rs: seq<Record>, es: seq<Event>, inputs: set<PairInput>)
    requires (forall p | p in inputs :: ValidPair(p)) && forall r | r in rs :: Normalize(s, r).Some?
    requires forall e :: e in es <==> IsEvent(s, rs, e)
    ensures SourceCovered(es, Pairs(inputs)) <==> AllHaveSku(rs, inputs)
  {
    if SourceCovered(es, Pairs(inputs)) {
      forall r | r in rs ensures HasSku(inputs, r) {
        assert IsEvent(s, rs, Normalize(s, r).value);
        PairHasSku(inputs, s, r);
      }
    }
    if AllHaveSku(rs, inputs) {
      forall e | e in es ensures e.pair in Pairs(inputs) {
        assert IsEvent(s, rs, e);
        var r :| r in rs && Normalize(s, r) == Some(e);
        PairHasSku(inputs, s, r);
      }
    }
  }

  lemma CoveredIsHasSku(activity: Activity, inputs: set<PairInput>)
    requires CleanActivity(activity) && forall p | p in inputs :: ValidPair(p)
    ensures WeeklyKpis.Covered(NormalizeActivity(activity), Pairs(inputs)) <==>
      forall s, r | s in activity && r in activity[s] :: HasSku(inputs, r)
  {
    var norm := NormalizeActivity(activity);
    forall s | s in activity
      ensures SourceCovered(norm[s], Pairs(inputs)) <==> AllHaveSku(activity[s], inputs)
    {
      forall e ensures e in norm[s] <==> IsEvent(s, activity[s], e) {
        EventsAreRecords(activity, s, e);
      }
      assert forall r | r in activity[s] :: r in Elements(activity[s]);
      SourceHasSkus(s, activity[s], norm[s], inputs);
    }
    BySource(activity, norm, inputs);
  }

  lemma BySource(activity: Activity, norm: Normalized, inputs: set<PairInput>)
    requires norm.Keys == activity.Keys
    requires forall s | s in activity :: SourceCovered(norm[s], Pairs(inputs)) <==> AllHaveSku(activity[s], inputs)
    ensures WeeklyKpis.Covered(norm, Pairs(inputs)) <==> forall s, r | s in activity && r in activity[s] :: HasSku(inputs, r)
  {
    if WeeklyKpis.Covered(norm, Pairs(inputs)) {
      forall s | s in activity ensures AllHaveSku(activity[s], inputs) {
        assert SourceCovered(norm[s], Pairs(inputs));
      }
    }
    if forall s, r | s in activity && r in activity[s] :: HasSku(inputs, r) {
      forall s | s in activity ensures SourceCovered(norm[s], Pairs(inputs)) {
        assert AllHaveSku(activity[s], inputs);
      }
    }
  }

  /** No reported cell has more discrepancies than orders. */
  ghost predicate RatesOk(activity: Activity, inputs: set<PairInput>, days: set<int>, lastReset: Option<Instant>)
    requires CleanActivity(activity)
  {
    var norm := NormalizeActivity(activity);
    && AllSources(norm)
    && forall w, p | Asked(days, w) && Intact(lastReset, w) && p in Pairs(inputs) ::
         Count(DiscrepancyEvent, norm[DiscrepancyEvent], Cell(w, p)) <= Count(Outbound, norm[Outbound], Cell(w, p))
  }

  lemma {:induction false} CountsArePositive(source: Source, es: seq<Event>, c: Cell)
    requires source != Inbound
    ensures Count(source, es, c) >= 0
  {
    if es != [] {
      CountsArePositive(source, es[..|es| - 1], c);
    }
  }

  lemma RateIsOk(norm: Normalized, c: Cell)
    requires AllSources(norm)
    ensures RateDefined(norm, c) <==> Count(DiscrepancyEvent, norm[DiscrepancyEvent], c) <= Count(Outbound, norm[Outbound], c)
  {
    CountsArePositive(DiscrepancyEvent, norm[DiscrepancyEvent], c);
    CountsArePositive(Outbound, norm[Outbound], c);
  }

  lemma CellsAreAsked(inputs: set<PairInput>, days: set<int>, lastReset: Option<Instant>, c: Cell)
    requires forall day | day in days :: IsMonday(day)
    ensures c in Cells(inputs, days, lastReset) <==> Asked(days, c.week) && Intact(lastReset, c.week) && c.pair in Pairs(inputs)
  {
    ReportedWeeks(days, lastReset, c.week);
    var grid := Grid(RecomputableWeeks(days, lastReset), Pairs(inputs));
    assert c in Cells(inputs, days, lastReset) <==> c in grid;
    assert c == Cell(c.week, c.pair);
  }

  ghost predicate HasReport(activity: Activity, inputs: set<PairInput>, days: set<int>, lastReset: Option<Instant>) {
    exists rows :: IsReport(activity, inputs, days, lastReset, rows)
  }

  lemma RowsExist(norm: Normalized, cells: seq<Cell>)
    requires AllSources(norm)
    ensures (exists rows :: RowsFor(rows, norm, cells)) <==> forall c | c in cells :: RateDefined(norm, c)
  {
    if forall c | c in cells :: RateDefined(norm, c) {
      var rows := seq(|cells|, i requires 0 <= i < |cells| => assert cells[i] in cells; RowOf(norm, cells[i]));
      assert RowsFor(rows, norm, cells);
    }
    if exists rows :: RowsFor(rows, norm, cells) {
      var rows :| RowsFor(rows, norm, cells);
      forall c | c in cells ensures RateDefined(norm, c) {
        var i :| 0 <= i < |cells| && cells[i] == c;
      }
    }
  }

  lemma AcceptedIsOk(activity: Activity, inputs: set<PairInput>, days: set<int>)
    ensures Accepted(activity, inputs, days) <==> InputsOk(activity, inputs, days)
  {
    CleanActivityIsOk(activity);
    if CleanActivity(activity) && ValidGrid(inputs, days) {
      CoveredIsHasSku(activity, inputs);
    }
  }

  /** There is a report exactly when the four sources are there, every record is usable, deliveries under one
      identifier tell of the same event, every record's place has a SKU, the days are Mondays, and no reported cell
      has more discrepancies than orders. */
  lemma ReportExists(activity: Activity, inputs: set<PairInput>, days: set<int>, lastReset: Option<Instant>)
    ensures InputsOk(activity, inputs, days) ==> CleanActivity(activity)
    ensures HasReport(activity, inputs, days, lastReset) <==>
      InputsOk(activity, inputs, days) && RatesOk(activity, inputs, days, lastReset)
  {
    AcceptedIsOk(activity, inputs, days);
    if Accepted(activity, inputs, days) {
      AcceptedHasRows(activity, inputs, days, lastReset);
    }
  }

  lemma AcceptedHasRows(activity: Activity, inputs: set<PairInput>, days: set<int>, lastReset: Option<Instant>)
    requires Accepted(activity, inputs, days)
    ensures HasReport(activity, inputs, days, lastReset) <==> RatesOk(activity, inputs, days, lastReset)
  {
    var norm, cells := NormalizeActivity(activity), Cells(inputs, days, lastReset);
    SourcesAre(activity.Keys);
    assert norm.Keys == activity.Keys;
    RowsExist(norm, cells);
    forall c ensures c in cells <==> Asked(days, c.week) && Intact(lastReset, c.week) && c.pair in Pairs(inputs) {
      CellsAreAsked(inputs, days, lastReset, c);
    }
    forall c ensures RateDefined(norm, c) <==>
      Count(DiscrepancyEvent, norm[DiscrepancyEvent], c) <= Count(Outbound, norm[Outbound], c)
    {
      RateIsOk(norm, c);
    }
    if HasReport(activity, inputs, days, lastReset) {
      var rows :| IsReport(activity, inputs, days, lastReset, rows);
      assert RowsFor(rows, norm, cells);
    }
    if exists rows :: RowsFor(rows, norm, cells) {
      var rows :| RowsFor(rows, norm, cells);
      assert IsReport(activity, inputs, days, lastReset, rows);
    }
    RatesOverCells(norm, cells, Pairs(inputs), days, lastReset);
  }

  lemma RatesOverCells(norm: Normalized, cells: seq<Cell>, pairs: set<Pair>, days: set<int>, lastReset: Option<Instant>)
    requires AllSources(norm)
    requires forall c :: c in cells <==> Asked(days, c.week) && Intact(lastReset, c.week) && c.pair in pairs
    ensures (forall c | c in cells :: RateDefined(norm, c)) <==>
      forall w, p | Asked(days, w) && Intact(lastReset, w) && p in pairs :: RateDefined(norm, Cell(w, p))
  {
    if forall w, p | Asked(days, w) && Intact(lastReset, w) && p in pairs :: RateDefined(norm, Cell(w, p)) {
      forall c | c in cells ensures RateDefined(norm, c) {
        assert c == Cell(c.week, c.pair);
      }
    }
  }
}
