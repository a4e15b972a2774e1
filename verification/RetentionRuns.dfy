/** Histories of checkpoints, committed batches and live appends, over any number of nights and with an
    interruption possible after every step. */
module RetentionRuns {
  import opened Wrappers
  import opened Instants
  import opened Sorting
  import opened Ledger
  import opened Retention

  // ---------------------------------------------------------------- one delete

  /** The rows a step removes are old: identifiers are unique. */
  lemma VictimsAreOld(l: Ledger, step: Step, cutoff: Instant, ids: set<nat>)
    requires KeysOk(l) && ids <= Victims(l, step, cutoff)
    ensures step != EntryStep ==> forall x | x in l.exits && x.id in ids :: x.at < cutoff
    ensures step == EntryStep ==> forall e | e in l.entries && e.id in ids :: e.at < cutoff
  {
  }

  lemma SameRank<T(!new)>(xs: seq<T>, rank: T -> int, x: T, y: T)
    requires Ascending(xs, rank) && x in xs && y in xs && rank(x) == rank(y)
    ensures x == y
  {
  }

  lemma {:induction false} KeptAscending<T(!new)>(xs: seq<T>, keep: T -> bool, rank: T -> int)
    requires Ascending(xs, rank)
    ensures Ascending(Kept(xs, keep), rank)
  {
    if xs != [] {
      var init, last := xs[..|xs| - 1], xs[|xs| - 1];
      KeptAscending(init, keep, rank);
      var ys := Kept(init, keep);
      forall i | 0 <= i < |ys| ensures rank(ys[i]) < rank(last) {
        assert ys[i] in ys && ys[i] in init;
        var j :| 0 <= j < |init| && init[j] == ys[i];
        assert xs[j] == ys[i];
      }
    }
  }

  /** Deleting old rows moves no flow at or after the checkpoint. */
  lemma RemoveKeepsFlow(l: Ledger, step: Step, cutoff: Instant, ids: set<nat>, sku: nat, mark: Instant)
    requires KeysOk(l) && ids <= Victims(l, step, cutoff) && cutoff <= mark && sku in l.skus
    ensures Remove(l, step, ids).skus == l.skus
    ensures Flow(Remove(l, step, ids), sku, mark, None) == Flow(l, sku, mark, None)
  {
    var w := l.skus[sku].warehouse;
    VictimsAreOld(l, step, cutoff, ids);
    match step
    case ExitStep => KeptSum(l.exits, ExitOutside(ids), ExitsWithin(sku, w, mark, None));
    case EntryStep => KeptSum(l.entries, EntryOutside(ids), EntriesWithin(sku, w, mark, None));
    case _ =>
  }

  lemma RemoveKeepsKeys(l: Ledger, step: Step, cutoff: Instant, ids: set<nat>)
    requires KeysOk(l) && ids <= Victims(l, step, cutoff)
    requires step == ExitStep ==> NoOldChildren(l, cutoff) || ids == {}
    ensures KeysOk(Remove(l, step, ids))
  {
    var r := Remove(l, step, ids);
    match step
    case ExitStep =>
      if ids == {} {
        RemoveCounts(l, step, cutoff, ids);
        return;
      }
      KeptAscending(l.exits, ExitOutside(ids), ExitId);
      ChildrenKeepParents(l, r, cutoff, ids, l.stockouts);
      ChildrenKeepParents(l, r, cutoff, ids, l.discrepancies);
    case EntryStep => KeptAscending(l.entries, EntryOutside(ids), EntryId);
    case _ =>
  }

  /** A child whose parent goes would have an old parent. */
  lemma ChildrenKeepParents(l: Ledger, r: Ledger, cutoff: Instant, ids: set<nat>, cs: seq<Child>)
    requires ids <= Victims(l, ExitStep, cutoff) && r.exits == Kept(l.exits, ExitOutside(ids))
    requires ParentsExist(l, cs) && OldParents(l, cs, cutoff) == {}
    ensures ParentsExist(r, cs)
  {
    forall c | c in cs ensures IsExit(r, c.exit) {
      assert IsExit(l, c.exit);
      var x :| x in l.exits && x.id == c.exit;
      NoChildUnder(l, cs, cutoff, ids, c);
      assert ExitOutside(ids)(x);
      assert x in r.exits;
    }
  }

  lemma NoChildUnder(l: Ledger, cs: seq<Child>, cutoff: Instant, ids: set<nat>, c: Child)
    requires ids <= Victims(l, ExitStep, cutoff) && OldParents(l, cs, cutoff) == {} && c in cs
    ensures c.exit !in ids
  {
    assert HasChild(cs, c.exit);
    assert forall x | x in l.exits && x.at < cutoff && HasChild(cs, x.id) :: x.id in OldParents(l, cs, cutoff);
  }

  /** A batch takes exactly its identifiers off the step's list, so the step's loop ends. */
  lemma RemoveShrinksVictims(l: Ledger, step: Step, cutoff: Instant, ids: set<nat>)
    requires ids <= Victims(l, step, cutoff)
    ensures Victims(Remove(l, step, ids), step, cutoff) == Victims(l, step, cutoff) - ids
  {
  }

  /** A batch that names somebody removes a row; one that names nobody changes nothing. */
  lemma RemoveCounts(l: Ledger, step: Step, cutoff: Instant, ids: set<nat>)
    requires ids <= Victims(l, step, cutoff)
    ensures ids != {} ==> RowCount(Remove(l, step, ids)) < RowCount(l)
    ensures ids == {} ==> Remove(l, step, ids) == l
  {
    if ids == {} {
      match step
      case DiscrepancyStep => KeptAll(l.discrepancies, NotUnder(ids));
      case StockoutStep => KeptAll(l.stockouts, NotUnder(ids));
      case ExitStep => KeptAll(l.exits, ExitOutside(ids));
      case EntryStep => KeptAll(l.entries, EntryOutside(ids));
    } else {
      var id :| id in ids;
      SomeRowGoes(l, step, cutoff, ids, id);
    }
  }

  lemma SomeRowGoes(l: Ledger, step: Step, cutoff: Instant, ids: set<nat>, id: nat)
    requires ids <= Victims(l, step, cutoff) && id in ids
    ensures RowCount(Remove(l, step, ids)) < RowCount(l)
  {
    match step
    case DiscrepancyStep =>
      var c :| c in l.discrepancies && c.exit == id;
      KeptFewer(l.discrepancies, NotUnder(ids), c);
    case StockoutStep =>
      var c :| c in l.stockouts && c.exit == id;
      KeptFewer(l.stockouts, NotUnder(ids), c);
    case ExitStep =>
      var x :| x in l.exits && x.id == id;
      KeptFewer(l.exits, ExitOutside(ids), x);
    case EntryStep =>
      var e :| e in l.entries && e.id == id;
      KeptFewer(l.entries, EntryOutside(ids), e);
  }

  // ---------------------------------------------------------------- histories

  datatype Event =
    | WroteCheckpoint(cutoff: Instant)
    | DeletedBatch(step: Step, cutoff: Instant, batch: nat)
    | Received(entry: Entry)
    | Shipped(exit: Exit)
    | FiledDiscrepancy(child: Child)
    | FiledStockout(child: Child)

  ghost predicate Fits(l: Ledger, sku: nat, w: Warehouse) {
    sku in l.skus && l.skus[sku].warehouse == w
  }

  /** What the schema and the pruner grant: a batch runs behind its committed checkpoint, the exit step only
      once no old exit has children, rows get fresh ascending identifiers and existing parents. */
  ghost predicate Enabled(s: Store, e: Event) {
    Valid(s) &&
    match e
    case WroteCheckpoint(cutoff) => WriteCheckpoint(s, cutoff).Ok?
    case DeletedBatch(step, cutoff, batch) =>
      && (cutoff <= Mark(s) || s.ledger.skus == map[])
      && (step == ExitStep ==> NoOldChildren(s.ledger, cutoff) || batch == 0)
    case Received(r) => Fits(s.ledger, r.sku, r.warehouse) && forall q | q in s.ledger.entries :: q.id < r.id
    case Shipped(x) => Fits(s.ledger, x.sku, x.warehouse) && forall q | q in s.ledger.exits :: q.id < x.id
    case FiledDiscrepancy(c) => IsExit(s.ledger, c.exit)
    case FiledStockout(c) => IsExit(s.ledger, c.exit)
  }

  ghost function Next(s: Store, e: Event): Store
    requires Enabled(s, e)
  {
    match e
    case WroteCheckpoint(cutoff) => WriteCheckpoint(s, cutoff).value
    case DeletedBatch(step, cutoff, batch) => s.(ledger := Batch(s.ledger, step, cutoff, batch))
    case Received(r) => s.(ledger := s.ledger.(entries := s.ledger.entries + [r]))
    case Shipped(x) => s.(ledger := s.ledger.(exits := s.ledger.exits + [x]))
    case FiledDiscrepancy(c) => s.(ledger := s.ledger.(discrepancies := s.ledger.discrepancies + [c]))
    case FiledStockout(c) => s.(ledger := s.ledger.(stockouts := s.ledger.stockouts + [c]))
  }

  ghost function Follow(r: Option<Store>, e: Event): Option<Store> {
    match r
    case None => None
    case Some(t) => if Enabled(t, e) then Some(Next(t, e)) else None
  }

  ghost function After(s: Store, history: seq<Event>): Option<Store> {
    if history == [] then Some(s) else Follow(After(s, history[..|history| - 1]), history[|history| - 1])
  }

  lemma OneStepLater(s: Store, history: seq<Event>, before: seq<Event>, e: Event)
    requires history == before + [e]
    ensures After(s, history) == Follow(After(s, before), e)
  {
    assert history[..|history| - 1] == before;
  }

  lemma AfterOne(s: Store, a: seq<Event>, e: Event)
    requires After(s, a).Some? && Enabled(After(s, a).value, e)
    ensures After(s, a + [e]) == Some(Next(After(s, a).value, e))
  {
  }

  lemma LastApart(a: seq<Event>, b: seq<Event>)
    requires b != []
    ensures b == b[..|b| - 1] + [b[|b| - 1]] && a + b == a + b[..|b| - 1] + [b[|b| - 1]]
  {
  }

  /** A history in two parts. */
  lemma {:induction false} AfterConcat(s: Store, a: seq<Event>, b: seq<Event>)
    requires After(s, a).Some?
    ensures After(s, a + b) == After(After(s, a).value, b)
    decreases |b|
  {
    if b == [] {
      assert a + b == a;
    } else {
      var init, last := b[..|b| - 1], b[|b| - 1];
      AfterConcat(s, a, init);
      LastApart(a, b);
      OneStepLater(s, a + b, a + init, last);
      OneStepLater(After(s, a).value, b, init, last);
    }
  }

  /** What an append adds to a derived balance: its signed quantity if it is dated at or after the checkpoint. */
  ghost function Effect(s: Store, e: Event, sku: nat): int
    requires Valid(s)
  {
    match e
    case Received(r) => if r.sku == sku && Mark(s) <= r.at then r.quantity else 0
    case Shipped(x) => if x.sku == sku && Mark(s) <= x.at then 0 - (x.quantity as int) else 0
    case _ => 0
  }

  ghost function Appended(s: Store, history: seq<Event>, sku: nat): int
    requires After(s, history).Some?
  {
    if history == [] then 0
    else
      var before := history[..|history| - 1];
      Appended(s, before, sku) + Effect(After(s, before).value, history[|history| - 1], sku)
  }

  lemma AppendMovesFlow(l: Ledger, e: Event, s: Store, sku: nat)
    requires Valid(s) && s.ledger == l && sku in l.skus && (e.Received? || e.Shipped?) && Enabled(s, e)
    ensures Flow(Next(s, e).ledger, sku, Mark(s), None) == Flow(l, sku, Mark(s), None) + Effect(s, e, sku)
  {
  }

  lemma BatchKeepsBalances(s: Store, step: Step, cutoff: Instant, batch: nat)
    requires Enabled(s, DeletedBatch(step, cutoff, batch)) && KeysOk(s.ledger)
    ensures var t := s.(ledger := Batch(s.ledger, step, cutoff, batch));
      && t.ledger.skus == s.ledger.skus && Valid(t) && Mark(t) == Mark(s) && KeysOk(t.ledger)
      && forall k | k in s.ledger.skus :: Derived(t, k) == Derived(s, k)
  {
    var ids := Lowest(Victims(s.ledger, step, cutoff), batch);
    RemoveKeepsKeys(s.ledger, step, cutoff, ids);
    RemoveKeepsBalances(s, step, cutoff, ids, s.(ledger := Remove(s.ledger, step, ids)));
  }

  lemma RemoveKeepsBalances(s: Store, step: Step, cutoff: Instant, ids: set<nat>, t: Store)
    requires Valid(s) && KeysOk(s.ledger) && ids <= Victims(s.ledger, step, cutoff)
    requires cutoff <= Mark(s) || s.ledger.skus == map[]
    requires t == s.(ledger := Remove(s.ledger, step, ids))
    ensures t.ledger.skus == s.ledger.skus && Valid(t) && Mark(t) == Mark(s)
    ensures forall k | k in s.ledger.skus :: Derived(t, k) == Derived(s, k)
  {
    forall k | k in s.ledger.skus ensures Flow(t.ledger, k, Mark(s), None) == Flow(s.ledger, k, Mark(s), None) {
      RemoveKeepsFlow(s.ledger, step, cutoff, ids, k, Mark(s));
    }
  }

  lemma AppendKeepsKeys(s: Store, e: Event)
    requires Enabled(s, e) && KeysOk(s.ledger) && !e.DeletedBatch? && !e.WroteCheckpoint?
    ensures KeysOk(Next(s, e).ledger) && Valid(Next(s, e)) && Mark(Next(s, e)) == Mark(s)
  {
  }

  /** One step: keys and foreign keys stay intact, and a derived balance moves only by what is appended. */
  lemma StepMovesBalances(s: Store, e: Event, sku: nat)
    requires Enabled(s, e) && KeysOk(s.ledger) && sku in s.ledger.skus
    ensures Valid(Next(s, e)) && KeysOk(Next(s, e).ledger) && sku in Next(s, e).ledger.skus
    ensures Derived(Next(s, e), sku) == Derived(s, sku) + Effect(s, e, sku)
  {
    match e
    case WroteCheckpoint(cutoff) => CheckpointKeepsBalances(s, cutoff);
    case DeletedBatch(step, cutoff, batch) => BatchKeepsBalances(s, step, cutoff, batch);
    case _ =>
      AppendKeepsKeys(s, e);
      if e.Received? || e.Shipped? {
        AppendMovesFlow(s.ledger, e, s, sku);
      }
  }

  /** At every point of any history, with prunes interrupted anywhere and repeated any number of nights, the
      derived balance is the old one plus exactly what was appended at or after the checkpoint of the moment;
      in particular pruning alone never moves it. Keys and foreign keys hold throughout. */
  lemma {:induction false} BalancesMoveOnlyByAppends(s: Store, history: seq<Event>, sku: nat)
    requires Valid(s) && KeysOk(s.ledger) && sku in s.ledger.skus && After(s, history).Some?
    ensures var t := After(s, history).value;
      && Valid(t) && KeysOk(t.ledger) && sku in t.ledger.skus
      && Derived(t, sku) == Derived(s, sku) + Appended(s, history, sku)
    decreases |history|
  {
    if history != [] {
      var before := history[..|history| - 1];
      BalancesMoveOnlyByAppends(s, before, sku);
      StepMovesBalances(After(s, before).value, history[|history| - 1], sku);
    }
  }
}
