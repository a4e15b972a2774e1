/** Where interrupted prunes end up: the same tables as one uninterrupted prune. */
module RetentionResume {
  import opened Wrappers
  import opened Instants
  import opened Ledger
  import opened Retention
  import opened RetentionRuns

  /** The ledger without anything older than the cutoff, and without the children of what went. */
  function Pruned(l: Ledger, cutoff: Instant): Ledger {
    var exits, entries := Victims(l, ExitStep, cutoff), Victims(l, EntryStep, cutoff);
    Ledger(l.skus, Kept(l.entries, EntryOutside(entries)), Kept(l.exits, ExitOutside(exits)),
           Kept(l.stockouts, NotUnder(exits)), Kept(l.discrepancies, NotUnder(exits)))
  }

  /** Nothing is left for any of the four steps. */
  ghost predicate Finished(l: Ledger, cutoff: Instant) {
    forall step :: Victims(l, step, cutoff) == {}
  }

  /** A finished prune has reached the pruned ledger. */
  lemma FinishedIsPruned(l: Ledger, cutoff: Instant)
    requires Finished(l, cutoff)
    ensures Pruned(l, cutoff) == l
  {
    assert Victims(l, ExitStep, cutoff) == {} && Victims(l, EntryStep, cutoff) == {};
    KeptAll(l.entries, EntryOutside({}));
    KeptAll(l.exits, ExitOutside({}));
    KeptAll(l.stockouts, NotUnder({}));
    KeptAll(l.discrepancies, NotUnder({}));
  }

  /** Conversely, the pruned ledger needs no more pruning. */
  lemma PrunedIsFinished(l: Ledger, cutoff: Instant)
    requires KeysOk(l)
    ensures Finished(Pruned(l, cutoff), cutoff)
  {
  }

  lemma ChildBatchThenPruned(l: Ledger, step: Step, ids: set<nat>, final: Instant)
    requires (step == DiscrepancyStep || step == StockoutStep) && ids <= Victims(l, ExitStep, final)
    ensures Pruned(Remove(l, step, ids), final) == Pruned(l, final)
  {
    var exits := Victims(l, ExitStep, final);
    if step == DiscrepancyStep {
      KeptTwice(l.discrepancies, NotUnder(ids), NotUnder(exits), NotUnder(exits));
    } else {
      KeptTwice(l.stockouts, NotUnder(ids), NotUnder(exits), NotUnder(exits));
    }
  }

  lemma EntryBatchThenPruned(l: Ledger, ids: set<nat>, final: Instant)
    requires ids <= Victims(l, EntryStep, final)
    ensures Pruned(Remove(l, EntryStep, ids), final) == Pruned(l, final)
  {
    var entries := Victims(l, EntryStep, final);
    RemoveShrinksVictims(l, EntryStep, final, ids);
    KeptTwice(l.entries, EntryOutside(ids), EntryOutside(entries - ids), EntryOutside(entries));
  }

  lemma ExitBatchThenPruned(l: Ledger, ids: set<nat>, cutoff: Instant, final: Instant)
    requires ids <= Victims(l, ExitStep, cutoff) && ids <= Victims(l, ExitStep, final) && NoOldChildren(l, cutoff)
    ensures Pruned(Remove(l, ExitStep, ids), final) == Pruned(l, final)
  {
    var exits := Victims(l, ExitStep, final);
    RemoveShrinksVictims(l, ExitStep, final, ids);
    KeptTwice(l.exits, ExitOutside(ids), ExitOutside(exits - ids), ExitOutside(exits));
    ChildrenElsewhere(l, l.stockouts, cutoff, ids, exits);
    ChildrenElsewhere(l, l.discrepancies, cutoff, ids, exits);
  }

  /** Whatever a batch at an earlier or the same cutoff removes, the pruned ledger does not have. */
  lemma BatchThenPruned(l: Ledger, step: Step, ids: set<nat>, cutoff: Instant, final: Instant)
    requires ids <= Victims(l, step, cutoff) && cutoff <= final
    requires step == ExitStep ==> NoOldChildren(l, cutoff) || ids == {}
    ensures Pruned(Remove(l, step, ids), final) == Pruned(l, final)
  {
    LaterVictims(l, step, ids, cutoff, final);
    match step
    case EntryStep => EntryBatchThenPruned(l, ids, final);
    case ExitStep =>
      if ids == {} {
        RemoveCounts(l, step, cutoff, ids);
      } else {
        ExitBatchThenPruned(l, ids, cutoff, final);
      }
    case _ => ChildBatchThenPruned(l, step, ids, final);
  }

  lemma LaterVictims(l: Ledger, step: Step, ids: set<nat>, cutoff: Instant, final: Instant)
    requires ids <= Victims(l, step, cutoff) && cutoff <= final
    ensures ids <= Victims(l, if step == EntryStep then EntryStep else ExitStep, final)
  {
  }

  lemma ChildrenElsewhere(l: Ledger, cs: seq<Child>, cutoff: Instant, ids: set<nat>, exits: set<nat>)
    requires ids <= Victims(l, ExitStep, cutoff) && OldParents(l, cs, cutoff) == {}
    ensures Kept(cs, NotUnder(exits - ids)) == Kept(cs, NotUnder(exits))
  {
    forall c | c in cs ensures c.exit !in ids {
      NoChildUnder(l, cs, cutoff, ids, c);
    }
    KeptTwice(cs, NotUnder(exits - ids), NotUnder(exits - ids), NotUnder(exits));
    KeptTwice(cs, NotUnder(exits - ids), NotUnder(exits - ids), NotUnder(exits - ids));
  }

  // ---------------------------------------------------------------- histories of prunes

  /** Only checkpoints and batches, at cutoffs up to `final`. */
  ghost predicate Pruning(history: seq<Event>, final: Instant) {
    forall e | e in history :: (e.WroteCheckpoint? || e.DeletedBatch?) && e.cutoff <= final
  }

  ghost predicate SameFuture(s: Store, t: Store, final: Instant)
    requires Valid(s) && Valid(t)
  {
    && t.ledger.skus == s.ledger.skus && t.balances == s.balances
    && Pruned(t.ledger, final) == Pruned(s.ledger, final)
    && forall k | k in s.ledger.skus ::
         Derived(t, k) == Derived(s, k) && Flow(t.ledger, k, final, None) == Flow(s.ledger, k, final, None)
  }

  lemma BatchKeepsFuture(s: Store, step: Step, cutoff: Instant, batch: nat, final: Instant)
    requires KeysOk(s.ledger) && Enabled(s, DeletedBatch(step, cutoff, batch)) && cutoff <= final
    ensures Valid(Next(s, DeletedBatch(step, cutoff, batch))) && SameFuture(s, Next(s, DeletedBatch(step, cutoff, batch)), final)
  {
    var ids := Lowest(Victims(s.ledger, step, cutoff), batch);
    BatchKeepsBalances(s, step, cutoff, batch);
    BatchThenPruned(s.ledger, step, ids, cutoff, final);
    forall k | k in s.ledger.skus
      ensures Flow(Remove(s.ledger, step, ids), k, final, None) == Flow(s.ledger, k, final, None)
    {
      RemoveKeepsFlow(s.ledger, step, cutoff, ids, k, final);
    }
  }

  lemma {:induction false} PruningKeepsFuture(s: Store, history: seq<Event>, final: Instant)
    requires Valid(s) && KeysOk(s.ledger) && Pruning(history, final) && After(s, history).Some?
    ensures var t := After(s, history).value; Valid(t) && KeysOk(t.ledger) && SameFuture(s, t, final)
    decreases |history|
  {
    if history != [] {
      var before, last := history[..|history| - 1], history[|history| - 1];
      assert last in history;
      PruningKeepsFuture(s, before, final);
      var t := After(s, before).value;
      if last.WroteCheckpoint? {
        CheckpointKeepsBalances(t, last.cutoff);
      } else {
        BatchKeepsBalances(t, last.step, last.cutoff, last.batch);
        BatchKeepsFuture(t, last.step, last.cutoff, last.batch, final);
      }
    }
  }

  /** The checkpoint at a cutoff is the balance less what moved since: no earlier prune changes it. */
  lemma CheckpointQuantity(s: Store, t: Store, cutoff: Instant, k: nat)
    requires Valid(s) && WriteCheckpoint(s, cutoff) == Ok(t) && k in s.ledger.skus
    ensures k in t.checkpoints
    ensures t.checkpoints[k] == Checkpoint(Derived(s, k) - Flow(s.ledger, k, cutoff, None), cutoff)
  {
    CheckpointAdvances(s, t, cutoff);
    FlowSplits(s.ledger, k, Mark(s), cutoff);
  }

  lemma SameCheckpoint(s: Store, t: Store, a: Store, b: Store, cutoff: Instant)
    requires Valid(s) && Valid(t) && SameFuture(s, t, cutoff)
    requires WriteCheckpoint(s, cutoff) == Ok(a) && WriteCheckpoint(t, cutoff) == Ok(b)
    ensures a.checkpoints == b.checkpoints
  {
    CheckpointAdvances(s, a, cutoff);
    CheckpointAdvances(t, b, cutoff);
    forall k | k in s.ledger.skus ensures k in a.checkpoints && k in b.checkpoints && a.checkpoints[k] == b.checkpoints[k] {
      SameQuantity(s, t, a, b, cutoff, k);
    }
  }

  lemma SameQuantity(s: Store, t: Store, a: Store, b: Store, cutoff: Instant, k: nat)
    requires Valid(s) && Valid(t) && k in s.ledger.skus && k in t.ledger.skus
    requires WriteCheckpoint(s, cutoff) == Ok(a) && WriteCheckpoint(t, cutoff) == Ok(b)
    requires Derived(t, k) == Derived(s, k) && Flow(t.ledger, k, cutoff, None) == Flow(s.ledger, k, cutoff, None)
    ensures k in a.checkpoints && k in b.checkpoints && a.checkpoints[k] == b.checkpoints[k]
  {
    CheckpointQuantity(s, a, cutoff, k);
    CheckpointQuantity(t, b, cutoff, k);
  }

  ghost predicate Batches(history: seq<Event>, cutoff: Instant) {
    forall e | e in history :: e.DeletedBatch? && e.cutoff == cutoff
  }

  lemma {:induction false} BatchesKeepCheckpoints(s: Store, history: seq<Event>, cutoff: Instant)
    requires Batches(history, cutoff) && After(s, history).Some?
    ensures After(s, history).value.checkpoints == s.checkpoints
    decreases |history|
  {
    if history != [] {
      assert history[|history| - 1] in history;
      BatchesKeepCheckpoints(s, history[..|history| - 1], cutoff);
    }
  }

  /** A run that finishes leaves the pruned ledger, all else as its checkpoint left it. */
  lemma FinishedRun(t: Store, run: seq<Event>, cutoff: Instant)
    requires Valid(t) && KeysOk(t.ledger) && Batches(run, cutoff) && After(t, run).Some?
    requires Finished(After(t, run).value.ledger, cutoff)
    ensures After(t, run).value == t.(ledger := Pruned(t.ledger, cutoff))
  {
    assert Pruning(run, cutoff);
    PruningKeepsFuture(t, run, cutoff);
    BatchesKeepCheckpoints(t, run, cutoff);
    FinishedIsPruned(After(t, run).value.ledger, cutoff);
  }

  /** Any number of prunes interrupted at any batch, then one run at `cutoff` that finishes, leave exactly the
      tables of one uninterrupted run at `cutoff`: ledger, checkpoints and balances. */
  lemma ResumedPruneIsOnePrune(s: Store, interrupted: seq<Event>, cutoff: Instant, resumed: Store, direct: Store,
                               last: seq<Event>, once: seq<Event>)
    requires Valid(s) && KeysOk(s.ledger)
    requires Pruning(interrupted, cutoff) && After(s, interrupted).Some?
    requires WriteCheckpoint(After(s, interrupted).value, cutoff) == Ok(resumed) && WriteCheckpoint(s, cutoff) == Ok(direct)
    requires Batches(last, cutoff) && After(resumed, last).Some? && Finished(After(resumed, last).value.ledger, cutoff)
    requires Batches(once, cutoff) && After(direct, once).Some? && Finished(After(direct, once).value.ledger, cutoff)
    ensures After(resumed, last) == After(direct, once)
  {
    PruningKeepsFuture(s, interrupted, cutoff);
    var t := After(s, interrupted).value;
    SameCheckpoint(s, t, direct, resumed, cutoff);
    CheckpointKeepsBalances(s, cutoff);
    CheckpointKeepsBalances(t, cutoff);
    FinishedRun(resumed, last, cutoff);
    FinishedRun(direct, once, cutoff);
  }

  /** A run is refused unless its cutoff lies beyond the last committed checkpoint, so an interrupted prune is
      resumed by a later cutoff, never by its own. */
  lemma RerunNeedsALaterCutoff(s: Store, cutoff: Instant, t: Store, again: Instant)
    requires Valid(s) && s.ledger.skus != map[] && WriteCheckpoint(s, cutoff) == Ok(t)
    ensures WriteCheckpoint(t, again).Ok? <==> cutoff < again
    ensures again <= cutoff ==> WriteCheckpoint(t, again) == Err(CutoffNotAdvanced)
  {
    CheckpointKeepsBalances(s, cutoff);
  }

  // ---------------------------------------------------------------- nothing recent is lost

  ghost predicate RowsSurvive(l: Ledger, r: Ledger, cutoff: Instant) {
    && (forall x | x in l.exits && x.at >= cutoff :: x in r.exits)
    && (forall e | e in l.entries && e.at >= cutoff :: e in r.entries)
  }

  lemma BatchSparesRecentRows(l: Ledger, step: Step, ids: set<nat>, cutoff: Instant, final: Instant)
    requires KeysOk(l) && ids <= Victims(l, step, cutoff) && cutoff <= final
    ensures RowsSurvive(l, Remove(l, step, ids), final)
  {
  }

  /** No history deletes a movement dated at or after its largest cutoff. */
  lemma {:induction false} RecentMovementsSurvive(s: Store, history: seq<Event>, final: Instant)
    requires Valid(s) && KeysOk(s.ledger) && After(s, history).Some?
    requires forall e | e in history && e.DeletedBatch? :: e.cutoff <= final
    ensures RowsSurvive(s.ledger, After(s, history).value.ledger, final) && KeysOk(After(s, history).value.ledger)
    ensures Valid(After(s, history).value)
    decreases |history|
  {
    if history != [] {
      var before, last := history[..|history| - 1], history[|history| - 1];
      assert last in history;
      RecentMovementsSurvive(s, before, final);
      var t := After(s, before).value;
      match last
      case WroteCheckpoint(cutoff) => CheckpointKeepsBalances(t, cutoff);
      case DeletedBatch(step, cutoff, batch) =>
        BatchKeepsBalances(t, step, cutoff, batch);
        BatchSparesRecentRows(t.ledger, step, Lowest(Victims(t.ledger, step, cutoff), batch), cutoff, final);
      case _ => AppendKeepsKeys(t, last);
    }
  }
}
