/** Prunes while the ledger goes on growing: interrupted nights with live appends between and during them. */
module RetentionLive {
  import opened Wrappers
  import opened Instants
  import opened Ledger
  import opened Retention
  import opened RetentionRuns
  import opened RetentionResume

  predicate IsAppend(e: Event) {
    e.Received? || e.Shipped? || e.FiledDiscrepancy? || e.FiledStockout?
  }

  ghost predicate RecentExit(l: Ledger, id: nat, cutoff: Instant) {
    exists x | x in l.exits :: x.id == id && cutoff <= x.at
  }

  /** A movement dated at or after the cutoff, or an event of such a dispatch. */
  ghost predicate Recent(l: Ledger, e: Event, cutoff: Instant)
    requires IsAppend(e)
  {
    match e
    case Received(r) => cutoff <= r.at
    case Shipped(x) => cutoff <= x.at
    case FiledDiscrepancy(c) => RecentExit(l, c.exit, cutoff)
    case FiledStockout(c) => RecentExit(l, c.exit, cutoff)
  }

  /** Checkpoints and batches at cutoffs up to `final`, with recent appends anywhere between them. */
  ghost predicate Nights(s: Store, history: seq<Event>, final: Instant) {
    history == [] ||
    (var before, last := history[..|history| - 1], history[|history| - 1];
     && Nights(s, before, final)
     && (if IsAppend(last) then After(s, before).Some? ==> Recent(After(s, before).value.ledger, last, final)
         else last.cutoff <= final))
  }

  function AppendsOf(history: seq<Event>): seq<Event> {
    if history == [] then []
    else
      var last := history[|history| - 1];
      AppendsOf(history[..|history| - 1]) + if IsAppend(last) then [last] else []
  }

  // ---------------------------------------------------------------- one append

  lemma KeptAppended<T>(xs: seq<T>, x: T, keep: T -> bool)
    requires keep(x)
    ensures Kept(xs + [x], keep) == Kept(xs, keep) + [x]
  {
    assert (xs + [x])[..|xs| + 1 - 1] == xs;
  }

  lemma RecentExitIsNoVictim(l: Ledger, id: nat, cutoff: Instant)
    requires KeysOk(l) && RecentExit(l, id, cutoff)
    ensures id !in Victims(l, ExitStep, cutoff) && IsExit(Pruned(l, cutoff), id)
  {
    var x :| x in l.exits && x.id == id && cutoff <= x.at;
    forall y | y in l.exits && y.at < cutoff ensures y.id != id {
      if y.id == id {
        SameRank(l.exits, ExitId, x, y);
      }
    }
    assert ExitOutside(Victims(l, ExitStep, cutoff))(x);
    assert x in Pruned(l, cutoff).exits;
  }

  lemma SameVictims(l: Ledger, r: Ledger, cutoff: Instant)
    requires r.exits == l.exits || exists x :: r.exits == l.exits + [x] && cutoff <= x.at
    requires r.entries == l.entries || exists e :: r.entries == l.entries + [e] && cutoff <= e.at
    ensures Victims(r, ExitStep, cutoff) == Victims(l, ExitStep, cutoff)
    ensures Victims(r, EntryStep, cutoff) == Victims(l, EntryStep, cutoff)
  {
    assert forall x | x in l.exits :: x in r.exits;
    assert forall e | e in l.entries :: e in r.entries;
  }

  /** Pruning and a recent append commute, and the append is possible on the pruned ledger too. */
  lemma AppendThenPruned(s: Store, e: Event, d: Store, cutoff: Instant)
    requires KeysOk(s.ledger) && IsAppend(e) && Enabled(s, e) && Recent(s.ledger, e, cutoff)
    requires Valid(d) && d.ledger == Pruned(s.ledger, cutoff)
    ensures Enabled(d, e) && Next(d, e) == d.(ledger := Pruned(Next(s, e).ledger, cutoff))
  {
    var l, r := s.ledger, Next(s, e).ledger;
    var exits, entries := Victims(l, ExitStep, cutoff), Victims(l, EntryStep, cutoff);
    SameVictims(l, r, cutoff);
    match e
    case Received(row) => KeptAppended(l.entries, row, EntryOutside(entries));
    case Shipped(row) => KeptAppended(l.exits, row, ExitOutside(exits));
    case FiledDiscrepancy(c) =>
      RecentExitIsNoVictim(l, c.exit, cutoff);
      KeptAppended(l.discrepancies, c, NotUnder(exits));
    case FiledStockout(c) =>
      RecentExitIsNoVictim(l, c.exit, cutoff);
      KeptAppended(l.stockouts, c, NotUnder(exits));
  }

  // ---------------------------------------------------------------- what a history of nights keeps

  /** The balance less what moved since the cutoff: what a checkpoint at the cutoff says. */
  ghost function Settled(s: Store, k: nat, cutoff: Instant): int
    requires Valid(s) && k in s.ledger.skus
  {
    Derived(s, k) - Flow(s.ledger, k, cutoff, None)
  }

  ghost predicate SameSettled(s: Store, t: Store, cutoff: Instant)
    requires Valid(s) && Valid(t)
  {
    && t.ledger.skus == s.ledger.skus && t.balances == s.balances
    && forall k | k in s.ledger.skus :: Settled(t, k, cutoff) == Settled(s, k, cutoff)
  }

  ghost predicate CheckpointsOk(s: Store, t: Store, cutoff: Instant)
    requires Valid(t)
  {
    && (t.checkpoints == s.checkpoints || t.checkpoints.Keys == t.ledger.skus.Keys)
    && (t.ledger.skus != map[] ==> Mark(t) <= cutoff)
  }

  function Moves(e: Event, sku: nat, lo: Instant): int {
    match e
    case Received(r) => if r.sku == sku && lo <= r.at then r.quantity else 0
    case Shipped(x) => if x.sku == sku && lo <= x.at then 0 - (x.quantity as int) else 0
    case _ => 0
  }

  lemma ReceiptMovesFlow(l: Ledger, r: Entry, sku: nat, lo: Instant)
    requires Fits(l, r.sku, r.warehouse) && sku in l.skus
    ensures Flow(l.(entries := l.entries + [r]), sku, lo, None) == Flow(l, sku, lo, None) + Moves(Received(r), sku, lo)
  {
    var weigh := EntriesWithin(sku, l.skus[sku].warehouse, lo, None);
    assert (l.entries + [r])[..|l.entries|] == l.entries;
    assert Sum(l.entries + [r], weigh) == Sum(l.entries, weigh) + weigh(r);
  }

  lemma DispatchMovesFlow(l: Ledger, x: Exit, sku: nat, lo: Instant)
    requires Fits(l, x.sku, x.warehouse) && sku in l.skus
    ensures Flow(l.(exits := l.exits + [x]), sku, lo, None) == Flow(l, sku, lo, None) + Moves(Shipped(x), sku, lo)
  {
    var weigh := ExitsWithin(sku, l.skus[sku].warehouse, lo, None);
    assert (l.exits + [x])[..|l.exits|] == l.exits;
    assert Sum(l.exits + [x], weigh) == Sum(l.exits, weigh) + weigh(x);
  }

  lemma AppendMovesFlowFrom(s: Store, e: Event, sku: nat, lo: Instant)
    requires Enabled(s, e) && IsAppend(e) && sku in s.ledger.skus
    ensures Next(s, e).ledger.skus == s.ledger.skus
    ensures Flow(Next(s, e).ledger, sku, lo, None) == Flow(s.ledger, sku, lo, None) + Moves(e, sku, lo)
  {
    match e
    case Received(r) => ReceiptMovesFlow(s.ledger, r, sku, lo);
    case Shipped(x) => DispatchMovesFlow(s.ledger, x, sku, lo);
    case _ =>
  }

  lemma AppendKeepsSettled(s: Store, e: Event, cutoff: Instant)
    requires Enabled(s, e) && IsAppend(e) && KeysOk(s.ledger) && Recent(s.ledger, e, cutoff)
    requires s.ledger.skus != map[] ==> Mark(s) <= cutoff
    ensures Valid(Next(s, e)) && KeysOk(Next(s, e).ledger) && SameSettled(s, Next(s, e), cutoff)
    ensures Mark(Next(s, e)) == Mark(s) && Next(s, e).checkpoints == s.checkpoints
  {
    AppendKeepsKeys(s, e);
    forall k | k in s.ledger.skus ensures Settled(Next(s, e), k, cutoff) == Settled(s, k, cutoff) {
      AppendMovesFlowFrom(s, e, k, cutoff);
      AppendMovesFlowFrom(s, e, k, Mark(s));
    }
  }

  lemma CheckpointKeepsSettled(s: Store, cutoff: Instant, final: Instant)
    requires Valid(s) && KeysOk(s.ledger) && WriteCheckpoint(s, cutoff).Ok? && cutoff <= final
    ensures var t := WriteCheckpoint(s, cutoff).value;
      && Valid(t) && t.ledger == s.ledger && SameSettled(s, t, final)
      && t.checkpoints.Keys == t.ledger.skus.Keys && (t.ledger.skus != map[] ==> Mark(t) == cutoff)
  {
    CheckpointKeepsBalances(s, cutoff);
    CheckpointAdvances(s, WriteCheckpoint(s, cutoff).value, cutoff);
  }

  lemma BatchKeepsSettled(s: Store, e: Event, final: Instant)
    requires KeysOk(s.ledger) && e.DeletedBatch? && Enabled(s, e) && e.cutoff <= final
    ensures Valid(Next(s, e)) && KeysOk(Next(s, e).ledger) && SameSettled(s, Next(s, e), final)
    ensures Mark(Next(s, e)) == Mark(s) && Next(s, e).checkpoints == s.checkpoints
    ensures Pruned(Next(s, e).ledger, final) == Pruned(s.ledger, final)
  {
    BatchKeepsBalances(s, e.step, e.cutoff, e.batch);
    BatchKeepsFuture(s, e.step, e.cutoff, e.batch, final);
  }

  /** What holds at every point of the nights, `d` being a store with the pruned ledger of the start. */
  ghost predicate Along(s: Store, history: seq<Event>, d: Store, cutoff: Instant) {
    match After(s, history)
    case None => false
    case Some(t) =>
      && Valid(t) && KeysOk(t.ledger) && Valid(s) && SameSettled(s, t, cutoff) && CheckpointsOk(s, t, cutoff)
      && After(d, AppendsOf(history)) == Some(d.(ledger := Pruned(t.ledger, cutoff)))
  }

  lemma AppendAlong(s: Store, before: seq<Event>, e: Event, d: Store, cutoff: Instant, t: Store)
    requires Along(s, before, d, cutoff) && After(s, before) == Some(t) && Valid(d) && d.ledger.skus == s.ledger.skus
    requires IsAppend(e) && Enabled(t, e) && Recent(t.ledger, e, cutoff)
    ensures Valid(Next(t, e)) && KeysOk(Next(t, e).ledger) && SameSettled(s, Next(t, e), cutoff)
    ensures CheckpointsOk(s, Next(t, e), cutoff)
    ensures After(d, AppendsOf(before) + [e]) == Some(d.(ledger := Pruned(Next(t, e).ledger, cutoff)))
  {
    var pruned := d.(ledger := Pruned(t.ledger, cutoff));
    AppendKeepsSettled(t, e, cutoff);
    AppendThenPruned(t, e, pruned, cutoff);
    AfterOne(d, AppendsOf(before), e);
  }

  lemma PruneAlong(s: Store, before: seq<Event>, e: Event, d: Store, cutoff: Instant, t: Store)
    requires Along(s, before, d, cutoff) && After(s, before) == Some(t)
    requires !IsAppend(e) && Enabled(t, e) && e.cutoff <= cutoff
    ensures Valid(Next(t, e)) && KeysOk(Next(t, e).ledger) && SameSettled(s, Next(t, e), cutoff)
    ensures CheckpointsOk(s, Next(t, e), cutoff)
    ensures Pruned(Next(t, e).ledger, cutoff) == Pruned(t.ledger, cutoff)
  {
    if e.WroteCheckpoint? {
      CheckpointKeepsSettled(t, e.cutoff, cutoff);
    } else {
      BatchKeepsSettled(t, e, cutoff);
    }
  }

  lemma {:induction false} NightsGoAlong(s: Store, history: seq<Event>, d: Store, cutoff: Instant)
    requires Valid(s) && KeysOk(s.ledger) && (s.ledger.skus != map[] ==> Mark(s) <= cutoff)
    requires Nights(s, history, cutoff) && After(s, history).Some?
    requires Valid(d) && d.ledger == Pruned(s.ledger, cutoff)
    ensures Along(s, history, d, cutoff)
    decreases |history|
  {
    if history != [] {
      var before, last := history[..|history| - 1], history[|history| - 1];
      NightsGoAlong(s, before, d, cutoff);
      var t := After(s, before).value;
      if IsAppend(last) {
        AppendAlong(s, before, last, d, cutoff, t);
      } else {
        PruneAlong(s, before, last, d, cutoff, t);
        assert AppendsOf(history) == AppendsOf(before);
      }
    }
  }

  lemma SameCheckpoints(s: Store, t: Store, direct: Store, cutoff: Instant)
    requires Valid(s) && Valid(t) && SameSettled(s, t, cutoff) && CheckpointsOk(s, t, cutoff)
    requires WriteCheckpoint(s, cutoff) == Ok(direct)
    requires s.ledger.skus != map[] ==> Mark(t) == cutoff
    ensures t.checkpoints == direct.checkpoints
  {
    CheckpointAdvances(s, direct, cutoff);
    if s.ledger.skus == map[] {
      assert t.checkpoints == map[] == direct.checkpoints;
    } else {
      assert t.checkpoints.Keys == s.ledger.skus.Keys;
      forall k | k in s.ledger.skus ensures t.checkpoints[k] == direct.checkpoints[k] {
        CheckpointQuantity(s, direct, cutoff, k);
        assert Settled(t, k, cutoff) == Settled(s, k, cutoff);
      }
    }
  }

  /** Any number of nights interrupted anywhere, with movements dated at or after the last cutoff (and events of
      such dispatches) arriving at any point, that have committed the checkpoint of that cutoff and left nothing to
      delete behind it, leave exactly the tables of one uninterrupted prune followed by the same appends: ledger,
      checkpoints and balances. */
  lemma LivePrunesAreOnePrune(s: Store, nights: seq<Event>, t: Store, cutoff: Instant, direct: Store, once: seq<Event>)
    requires Valid(s) && KeysOk(s.ledger) && Nights(s, nights, cutoff) && After(s, nights) == Some(t) && Valid(t)
    requires (s.ledger.skus != map[] ==> Mark(t) == cutoff) && Finished(t.ledger, cutoff)
    requires WriteCheckpoint(s, cutoff) == Ok(direct)
    requires Batches(once, cutoff) && After(direct, once).Some? && Finished(After(direct, once).value.ledger, cutoff)
    ensures After(direct, once + AppendsOf(nights)) == Some(t)
  {
    CheckpointKeepsBalances(s, cutoff);
    FinishedRun(direct, once, cutoff);
    var d := After(direct, once).value;
    NightsGoAlong(s, nights, d, cutoff);
    FinishedIsPruned(t.ledger, cutoff);
    SameCheckpoints(s, t, direct, cutoff);
    AfterConcat(direct, once, AppendsOf(nights));
  }
}
