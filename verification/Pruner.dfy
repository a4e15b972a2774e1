/** The prune job over its mutable tables. `inTime` is how many readings of the monotonic clock
    come before the deadline; every batch is one committed transaction. */
module Pruner {
  import opened Wrappers
  import opened Instants
  import opened Sorting
  import opened Ledger
  import opened Retention
  import opened RetentionRuns
  import opened RetentionResume

  /** Foreign-key order. */
  const STEPS: seq<Step> := [DiscrepancyStep, StockoutStep, ExitStep, EntryStep]

  datatype Drift = Drift(sku: nat, stored: int, derived: int)

  method SelectLowest(ids: set<nat>, batch: nat) returns (least: set<nat>)
    ensures least == Lowest(ids, batch)
  {
    var all := SortByRank(ids, Itself);
    least := set id | id in all[..Min(batch, |all|)];
  }

  /** A step's list never grows by another step's deletions. */
  lemma VictimsNeverGrow(l: Ledger, step: Step, ids: set<nat>, other: Step, cutoff: Instant)
    ensures Victims(Remove(l, step, ids), other, cutoff) <= Victims(l, other, cutoff)
  {
  }

  /** Everything the earlier steps were to remove is gone. */
  ghost predicate Cleared(l: Ledger, steps: seq<Step>, cutoff: Instant) {
    forall step | step in steps :: Victims(l, step, cutoff) == {}
  }

  lemma AllCleared(l: Ledger, cutoff: Instant)
    requires Cleared(l, STEPS, cutoff)
    ensures Finished(l, cutoff)
  {
  }

  lemma ExitStepIsSafe(l: Ledger, i: nat, cutoff: Instant)
    requires i < |STEPS| && Cleared(l, STEPS[..i], cutoff)
    ensures STEPS[i] == ExitStep ==> NoOldChildren(l, cutoff)
  {
    if STEPS[i] == ExitStep {
      assert STEPS[..i][0] == DiscrepancyStep && STEPS[..i][1] == StockoutStep;
      assert STEPS[..i][0] in STEPS[..i] && STEPS[..i][1] in STEPS[..i];
    }
  }

  function Stored(s: Store, sku: nat): int {
    if sku in s.balances then s.balances[sku] else 0
  }

  /** The stored balance is not what the checkpoint and the movements since give. */
  ghost predicate HasDrifted(s: Store, sku: nat)
    requires Valid(s)
  {
    sku in s.ledger.skus && Stored(s, sku) != Derived(s, sku)
  }

  /** The first reason to refuse a run, if any. */
  ghost function Refusal(s: Store, now: Instant, days: int): Option<RetentionError>
    requires forall k | k in s.checkpoints :: k in s.ledger.skus
  {
    if days < MINIMUM_RETENTION_DAYS then Some(WindowTooShort)
    else if !Agree(s.checkpoints) then Some(CheckpointsDisagree)
    else if exists k :: HasDrifted(s, k) then Some(BalancesDrifted)
    else if Cutoff(now, days) <= Mark(s) then Some(CutoffNotAdvanced)
    else None
  }

  /** The checkpoint for this run has been committed. */
  ghost predicate Checkpointed(s: Store, cutoff: Instant, t: Store) {
    Valid(s) && KeysOk(s.ledger) && WriteCheckpoint(s, cutoff) == Ok(t)
  }

  /** One run: a checkpoint at the cutoff, then batches at the cutoff, leading from `s` to `t`. */
  ghost predicate IsRun(s: Store, trail: seq<Event>, cutoff: Instant, t: Store) {
    && trail != [] && trail[0] == WroteCheckpoint(cutoff) && Batches(trail[1..], cutoff)
    && After(s, trail) == Some(t)
  }

  function CountOf(deleted: map<Step, nat>, step: Step): nat {
    if step in deleted then deleted[step] else 0
  }

  /** The reported counts together. */
  function Total(deleted: map<Step, nat>): nat {
    CountOf(deleted, DiscrepancyStep) + CountOf(deleted, StockoutStep) + CountOf(deleted, ExitStep) + CountOf(deleted, EntryStep)
  }

  /** The reported counts are the rows gone, and a run that was not cut short by the deadline leaves exactly
      the pruned ledger. */
  ghost predicate Outcome(s: Store, trail: seq<Event>, cutoff: Instant, t: Store, deleted: map<Step, nat>, complete: bool,
                          batch: nat, inTime: nat)
  {
    && IsRun(s, trail, cutoff, t) && InOrder(trail[1..], batch, 3) && Total(deleted) == RowCount(s.ledger) - RowCount(t.ledger)
    && (complete && batch > 0 ==> t.ledger == Pruned(s.ledger, cutoff))
    && Timely(|trail| - 1, complete, inTime)
  }

  /** The deadline is tested before every batch: there are no more batches than readings before it, and a run stops
      short only when it has had all of them. */
  predicate Timely(batches: int, complete: bool, inTime: nat) {
    batches <= inTime && (!complete ==> batches == inTime)
  }

  function StepRank(step: Step): nat {
    match step
    case DiscrepancyStep => 0
    case StockoutStep => 1
    case ExitStep => 2
    case EntryStep => 3
  }

  /** The batches of one step, all of this size. */
  ghost predicate BatchesOf(trail: seq<Event>, step: Step, batch: nat) {
    forall i :: 0 <= i < |trail| ==> trail[i].DeletedBatch? && trail[i].step == step && trail[i].batch == batch
  }

  /** Batches of this size, children before their parents and exits before entries, of the steps up to `last`. */
  ghost predicate InOrder(trail: seq<Event>, batch: nat, last: int) {
    && (forall i :: 0 <= i < |trail| ==> trail[i].DeletedBatch? && trail[i].batch == batch && StepRank(trail[i].step) <= last)
    && forall i, j :: 0 <= i < j < |trail| ==> StepRank(trail[i].step) <= StepRank(trail[j].step)
  }

  lemma OneMoreOf(trail: seq<Event>, step: Step, cutoff: Instant, batch: nat)
    requires BatchesOf(trail, step, batch)
    ensures BatchesOf(trail + [DeletedBatch(step, cutoff, batch)], step, batch)
    ensures |trail + [DeletedBatch(step, cutoff, batch)]| == |trail| + 1
  {
  }

  lemma OrderGoesOn(trail: seq<Event>, part: seq<Event>, batch: nat, i: nat)
    requires i < |STEPS| && InOrder(trail, batch, i - 1) && BatchesOf(part, STEPS[i], batch)
    ensures InOrder(trail + part, batch, i)
  {
    assert StepRank(STEPS[i]) == i;
  }

  lemma CheckpointThenBatches(s: Store, cutoff: Instant, ready: Store, batches: seq<Event>, t: Store)
    requires Valid(s) && WriteCheckpoint(s, cutoff) == Ok(ready)
    requires Batches(batches, cutoff) && After(ready, batches) == Some(t)
    ensures IsRun(s, [WroteCheckpoint(cutoff)] + batches, cutoff, t)
    ensures ([WroteCheckpoint(cutoff)] + batches)[1..] == batches
  {
    var first := [WroteCheckpoint(cutoff)];
    assert first[..0] == [];
    assert After(s, []) == Some(s);
    AfterConcat(s, first, batches);
    assert (first + batches)[1..] == batches;
  }

  /** A run moves no derived balance, so balances that agreed go on agreeing. */
  lemma RunKeepsBalances(s: Store, trail: seq<Event>, cutoff: Instant, t: Store, sku: nat)
    requires Valid(s) && KeysOk(s.ledger) && IsRun(s, trail, cutoff, t) && sku in s.ledger.skus
    ensures Valid(t) && sku in t.ledger.skus && Derived(t, sku) == Derived(s, sku) && t.balances == s.balances
  {
    forall e | e in trail ensures (e.WroteCheckpoint? || e.DeletedBatch?) && e.cutoff <= cutoff {
      assert e == trail[0] || e in trail[1..];
    }
    PruningKeepsFuture(s, trail, cutoff);
  }

  /** No movement within the retention is missing. */
  ghost predicate KeepsRecent(before: Ledger, after: Ledger, now: Instant, days: int) {
    && (forall x | x in before.exits && Within(now, days, x.at) :: x in after.exits)
    && (forall e | e in before.entries && Within(now, days, e.at) :: e in after.entries)
  }

  /** No movement older than the retention is left. */
  ghost predicate NothingOld(l: Ledger, now: Instant, days: int) {
    && (forall x | x in l.exits :: Within(now, days, x.at))
    && (forall e | e in l.entries :: Within(now, days, e.at))
  }

  /** Every SKU's checkpoint is of that instant. */
  ghost predicate DatedAt(s: Store, at: Instant) {
    forall k | k in s.ledger.skus :: k in s.checkpoints && s.checkpoints[k].at == at
  }

  /** A run in ages: whatever the deadline, nothing younger goes; nothing older stays once it is complete; and the
      checkpoint is dated exactly the retention back. */
  lemma RunInAges(s: Store, trail: seq<Event>, t: Store, deleted: map<Step, nat>, complete: bool, batch: nat,
                  inTime: nat, now: Instant, days: int)
    requires Valid(s) && KeysOk(s.ledger) && Outcome(s, trail, Cutoff(now, days), t, deleted, complete, batch, inTime)
    ensures KeepsRecent(s.ledger, t.ledger, now, days)
    ensures complete && batch > 0 ==> NothingOld(t.ledger, now, days)
    ensures DatedAt(t, now - days * DAY)
  {
    var cutoff := Cutoff(now, days);
    CutoffIsDaysBack(now, days);
    forall e | e in trail ensures e.DeletedBatch? ==> e.cutoff <= cutoff {
      assert e == trail[0] || e in trail[1..];
    }
    RecentMovementsSurvive(s, trail, cutoff);
    if complete && batch > 0 {
      PrunedHasNothingOld(s.ledger, cutoff);
    }
    RunDatesTheCheckpoint(s, trail, cutoff, t);
  }

  lemma PrunedHasNothingOld(l: Ledger, cutoff: Instant)
    ensures forall x | x in Pruned(l, cutoff).exits :: cutoff <= x.at
    ensures forall e | e in Pruned(l, cutoff).entries :: cutoff <= e.at
  {
  }

  lemma RunDatesTheCheckpoint(s: Store, trail: seq<Event>, cutoff: Instant, t: Store)
    requires Valid(s) && KeysOk(s.ledger) && IsRun(s, trail, cutoff, t)
    ensures DatedAt(t, cutoff)
  {
    var first := [WroteCheckpoint(cutoff)];
    assert trail == first + trail[1..] && first[..0] == [];
    assert After(s, []) == Some(s);
    FirstPart(s, first, trail[1..]);
    var ready := After(s, first).value;
    AfterConcat(s, first, trail[1..]);
    CheckpointAdvances(s, ready, cutoff);
    BatchesKeepCheckpoints(ready, trail[1..], cutoff);
    BatchesKeepSkus(ready, trail[1..], cutoff);
  }

  lemma {:induction false} FirstPart(s: Store, a: seq<Event>, b: seq<Event>)
    requires After(s, a + b).Some?
    ensures After(s, a).Some?
    decreases |b|
  {
    if b == [] {
      assert a + b == a;
    } else {
      LastApart(a, b);
      OneStepLater(s, a + b, a + b[..|b| - 1], b[|b| - 1]);
      FirstPart(s, a, b[..|b| - 1]);
    }
  }

  lemma {:induction false} BatchesKeepSkus(s: Store, history: seq<Event>, cutoff: Instant)
    requires Batches(history, cutoff) && After(s, history).Some?
    ensures After(s, history).value.ledger.skus == s.ledger.skus
    decreases |history|
  {
    if history != [] {
      assert history[|history| - 1] in history;
      BatchesKeepSkus(s, history[..|history| - 1], cutoff);
    }
  }

  /** `checkpoint_watermark`: lowest and highest instant must be the same. */
  method CheckpointWatermark(checkpoints: map<nat, Checkpoint>) returns (r: Result<Instant, RetentionError>)
    ensures r == Watermark(checkpoints)
  {
    if checkpoints == map[] {
      return Ok(BEGINNING_OF_TIME);
    }
    var rest := checkpoints.Keys;
    var first :| first in rest;
    var low, high := checkpoints[first].at, checkpoints[first].at;
    while rest != {}
      invariant rest <= checkpoints.Keys
      invariant low <= checkpoints[first].at <= high
      invariant low == high ==> forall k | k in checkpoints.Keys - rest :: checkpoints[k].at == low
      invariant low != high ==> !Agree(checkpoints)
      decreases |rest|
    {
      var k :| k in rest;
      rest := rest - {k};
      low, high := Min(low, checkpoints[k].at), Max(high, checkpoints[k].at);
    }
    if low != high {
      return Err(CheckpointsDisagree);
    }
    return Ok(high);
  }

  /** Exactly the drifted SKUs, each once and with both its values. */
  ghost predicate ListsDrift(s: Store, found: seq<Drift>, skus: set<nat>)
    requires Valid(s)
  {
    && (forall d | d in found :: HasDrifted(s, d.sku) && d.derived == Derived(s, d.sku) && d.stored == Stored(s, d.sku))
    && (forall k | HasDrifted(s, k) && k in skus :: exists d :: d in found && d.sku == k)
    && (forall i, j :: 0 <= i < j < |found| ==> found[i].sku != found[j].sku)
  }

  lemma OneMoreSku(s: Store, found: seq<Drift>, seen: set<nat>, k: nat, derived: int)
    requires Valid(s) && ListsDrift(s, found, seen) && k in s.ledger.skus && derived == Derived(s, k)
    requires forall d | d in found :: d.sku != k
    ensures ListsDrift(s, if Stored(s, k) != derived then found + [Drift(k, Stored(s, k), derived)] else found, seen + {k})
  {
    var more := found + [Drift(k, Stored(s, k), derived)];
    assert more[|found|] in more;
    assert forall d | d in found :: d in more;
  }

  /** `verify_stock_balances`. */
  method VerifyStockBalances(s: Store) returns (r: Result<seq<Drift>, RetentionError>)
    requires forall k | k in s.checkpoints :: k in s.ledger.skus
    ensures r.Err? <==> !Agree(s.checkpoints)
    ensures r.Err? ==> r.error == CheckpointsDisagree
    ensures r.Ok? ==> ListsDrift(s, r.value, s.ledger.skus.Keys) && (r.value == [] <==> !exists k :: HasDrifted(s, k))
  {
    var mark := CheckpointWatermark(s.checkpoints);
    if mark.Err? {
      return Err(mark.error);
    }
    var found: seq<Drift> := [];
    var rest := s.ledger.skus.Keys;
    while rest != {}
      invariant rest <= s.ledger.skus.Keys
      invariant ListsDrift(s, found, s.ledger.skus.Keys - rest)
      invariant forall d | d in found :: d.sku !in rest
      decreases |rest|
    {
      var k :| k in rest;
      rest := rest - {k};
      var derived := Base(s.checkpoints, k) + Flow(s.ledger, k, mark.value, None);
      OneMoreSku(s, found, s.ledger.skus.Keys - rest - {k}, k, derived);
      if Stored(s, k) != derived {
        found := found + [Drift(k, Stored(s, k), derived)];
      }
      assert s.ledger.skus.Keys - rest == (s.ledger.skus.Keys - rest - {k}) + {k};
    }
    assert found != [] ==> found[0] in found && HasDrifted(s, found[0].sku);
    return Ok(found);
  }

  /** `write_ledger_checkpoint`: the rows after the upsert. */
  method WriteLedgerCheckpoint(s: Store, cutoff: Instant) returns (r: Result<map<nat, Checkpoint>, RetentionError>)
    ensures match WriteCheckpoint(s, cutoff)
      case Ok(t) => r == Ok(t.checkpoints)
      case Err(e) => r == Err(e)
  {
    var mark := CheckpointWatermark(s.checkpoints);
    if mark.Err? {
      return Err(mark.error);
    }
    if cutoff <= mark.value {
      return Err(CutoffNotAdvanced);
    }
    return Ok(Advanced(s, mark.value, cutoff));
  }

  /** Everything before the first delete: the refusals, then the checkpoint to commit. */
  method Prepare(s: Store, now: Instant, days: int) returns (r: Result<Store, RetentionError>)
    requires KeysOk(s.ledger) && forall k | k in s.checkpoints :: k in s.ledger.skus
    ensures match Refusal(s, now, days)
      case Some(e) => r == Err(e)
      case None =>
        r.Ok? && Checkpointed(s, Cutoff(now, days), r.value) && r.value == s.(checkpoints := r.value.checkpoints)
  {
    var cutoff := RetentionCutoff(now, days);
    if cutoff.Err? {
      return Err(cutoff.error);
    }
    var drifted := VerifyStockBalances(s);
    if drifted.Err? {
      return Err(drifted.error);
    }
    if drifted.value != [] {
      return Err(BalancesDrifted);
    }
    var written := WriteLedgerCheckpoint(s, cutoff.value);
    if written.Err? {
      return Err(written.error);
    }
    return Ok(s.(checkpoints := written.value));
  }

  class Job {
    var ledger: Ledger
    var checkpoints: map<nat, Checkpoint>
    var balances: map<nat, int>

    function Model(): Store
      reads this
    {
      Store(ledger, checkpoints, balances)
    }

    /** What the schema guarantees, whatever the checkpoints say. */
    ghost predicate SchemaOk()
      reads this
    {
      KeysOk(ledger) && forall k | k in checkpoints :: k in ledger.skus
    }

    constructor (l: Ledger)
      requires KeysOk(l)
      ensures ledger == l && checkpoints == map[] && balances == map[] && SchemaOk()
    {
      ledger, checkpoints, balances := l, map[], map[];
    }

    /** `_delete_in_batches`. It ends whatever the clock says: every batch but the last removes a row. */
    method DeleteInBatches(step: Step, cutoff: Instant, batch: nat, inTime: nat, first: nat)
      returns (deleted: nat, finished: bool, reading: nat, ghost trail: seq<Event>)
      requires CanDelete(Model(), cutoff)
      requires step == ExitStep ==> NoOldChildren(ledger, cutoff) || batch == 0
      modifies this`ledger
      ensures Deleting(old(Model()), trail, Model(), cutoff)
      ensures deleted == RowCount(old(ledger)) - RowCount(ledger)
      ensures finished && batch > 0 ==> Victims(ledger, step, cutoff) == {}
      ensures BatchesOf(trail, step, batch) && Timely(first + |trail|, finished, Max(first, inTime))
      ensures reading == first + |trail| + if finished then 0 else 1
    {
      deleted, reading, trail := 0, first, [];
      while true
        invariant Deleting(old(Model()), trail, Model(), cutoff)
        invariant step == ExitStep ==> NoOldChildren(ledger, cutoff) || batch == 0
        invariant deleted == RowCount(old(ledger)) - RowCount(ledger)
        invariant BatchesOf(trail, step, batch) && reading == first + |trail| <= Max(first, inTime)
        decreases RowCount(ledger)
      {
        if inTime <= reading {
          return deleted, false, reading + 1, trail;
        }
        reading := reading + 1;
        var ids := SelectLowest(Victims(ledger, step, cutoff), batch);
        var after := Remove(ledger, step, ids);
        OneBatch(old(Model()), trail, Model(), step, cutoff, batch, ids, after);
        OneMoreOf(trail, step, cutoff, batch);
        trail := trail + [DeletedBatch(step, cutoff, batch)];
        var removed := RowCount(ledger) - RowCount(after);
        deleted := deleted + removed;
        ledger := after;
        if removed == 0 {
          return deleted, true, reading, trail;
        }
      }
    }

    /** `prune_once`. `complete` says that no step ran out of time. */
    method PruneOnce(now: Instant, days: int, batch: nat, inTime: nat)
      returns (r: Result<map<Step, nat>, RetentionError>, ghost trail: seq<Event>, ghost complete: bool)
      requires SchemaOk()
      modifies this
      ensures match Refusal(old(Model()), now, days)
        case Some(e) => r == Err(e) && Model() == old(Model())
        case None => r.Ok? && Outcome(old(Model()), trail, Cutoff(now, days), Model(), r.value, complete, batch, inTime)
      ensures days < 25 ==> r == Err(WindowTooShort)
      ensures KeepsRecent(old(ledger), ledger, now, days)
      ensures r.Ok? && complete && batch > 0 ==> NothingOld(ledger, now, days)
      ensures r.Ok? ==> DatedAt(Model(), now - days * DAY)
    {
      var start := Model();
      trail, complete := [], false;
      var ready := Prepare(start, now, days);
      if ready.Err? {
        return Err(ready.error), trail, complete;
      }
      checkpoints := ready.value.checkpoints;
      var deleted;
      deleted, trail, complete := DeleteSteps(Cutoff(now, days), batch, inTime, start);
      RunInAges(start, trail, Model(), deleted, complete, batch, inTime, now, days);
      r := Ok(deleted);
    }

    /** The loop over the steps, stopping at the first that runs out of time. `start` is the store before the
        checkpoint. */
    method DeleteSteps(cutoff: Instant, batch: nat, inTime: nat, ghost start: Store)
      returns (deleted: map<Step, nat>, ghost trail: seq<Event>, ghost complete: bool)
      requires Checkpointed(start, cutoff, Model())
      modifies this`ledger
      ensures Outcome(start, trail, cutoff, Model(), deleted, complete, batch, inTime)
    {
      deleted, trail, complete := map[], [], true;
      var reading := 0;
      ReadyToDelete(start, cutoff, Model());
      for i := 0 to |STEPS|
        invariant StepsDone(old(Model()), trail, Model(), cutoff, deleted, i, batch)
        invariant complete && reading == |trail| <= inTime
      {
        ghost var before := Model();
        ghost var part: seq<Event>;
        if batch > 0 {
          ExitStepIsSafe(ledger, i, cutoff);
        }
        var removed, finished;
        removed, finished, reading, part := DeleteInBatches(STEPS[i], cutoff, batch, inTime, reading);
        OneMoreStep(old(Model()), trail, before, part, Model(), cutoff, deleted, removed, i, batch, finished);
        trail := trail + part;
        deleted := deleted[STEPS[i] := removed];
        if !finished {
          complete := false;
          break;
        }
      }
      if complete && batch > 0 {
        CompleteRun(old(Model()), trail, Model(), cutoff);
      }
      CheckpointThenBatches(start, cutoff, old(Model()), trail, Model());
      trail := [WroteCheckpoint(cutoff)] + trail;
    }
  }

  lemma OneMoreCount(deleted: map<Step, nat>, step: Step, removed: nat)
    requires step !in deleted
    ensures Total(deleted[step := removed]) == Total(deleted) + removed
  {
  }

  /** The batches so far, whichever step they have come to. */
  ghost predicate Underway(s: Store, trail: seq<Event>, t: Store, cutoff: Instant, deleted: map<Step, nat>, batch: nat) {
    && Deleting(s, trail, t, cutoff) && Total(deleted) == RowCount(s.ledger) - RowCount(t.ledger)
    && InOrder(trail, batch, |STEPS| - 1)
  }

  /** The first `i` steps are done. */
  ghost predicate StepsDone(s: Store, trail: seq<Event>, t: Store, cutoff: Instant, deleted: map<Step, nat>, i: nat, batch: nat)
    requires i <= |STEPS|
  {
    && Underway(s, trail, t, cutoff, deleted, batch) && InOrder(trail, batch, i - 1)
    && (forall j :: i <= j < |STEPS| ==> STEPS[j] !in deleted)
    && (batch > 0 ==> Cleared(t.ledger, STEPS[..i], cutoff))
  }

  lemma OneMoreStep(s: Store, trail: seq<Event>, mid: Store, part: seq<Event>, t: Store, cutoff: Instant,
                    deleted: map<Step, nat>, removed: nat, i: nat, batch: nat, finished: bool)
    requires i < |STEPS| && StepsDone(s, trail, mid, cutoff, deleted, i, batch)
    requires Deleting(mid, part, t, cutoff) && BatchesOf(part, STEPS[i], batch)
    requires removed == RowCount(mid.ledger) - RowCount(t.ledger)
    requires finished && batch > 0 ==> Victims(t.ledger, STEPS[i], cutoff) == {}
    ensures Underway(s, trail + part, t, cutoff, deleted[STEPS[i] := removed], batch)
    ensures finished ==> StepsDone(s, trail + part, t, cutoff, deleted[STEPS[i] := removed], i + 1, batch)
    ensures |trail + part| == |trail| + |part|
  {
    DeletingGoesOn(s, trail, mid, part, t, cutoff);
    OrderGoesOn(trail, part, batch, i);
    OneMoreCount(deleted, STEPS[i], removed);
    if finished && batch > 0 {
      StillCleared(mid.ledger, t.ledger, i, cutoff);
    }
  }

  ghost predicate CanDelete(s: Store, cutoff: Instant) {
    Valid(s) && KeysOk(s.ledger) && (cutoff <= Mark(s) || s.ledger.skus == map[])
  }

  /** Committed batches at `cutoff` have led from `s` to `t`. */
  ghost predicate Deleting(s: Store, trail: seq<Event>, t: Store, cutoff: Instant) {
    && CanDelete(t, cutoff) && Batches(trail, cutoff) && After(s, trail) == Some(t)
    && forall other :: Victims(t.ledger, other, cutoff) <= Victims(s.ledger, other, cutoff)
  }

  lemma DeletingGoesOn(s: Store, a: seq<Event>, mid: Store, b: seq<Event>, t: Store, cutoff: Instant)
    requires Deleting(s, a, mid, cutoff) && Deleting(mid, b, t, cutoff)
    ensures Deleting(s, a + b, t, cutoff)
  {
    AfterConcat(s, a, b);
  }

  lemma ReadyToDelete(s: Store, cutoff: Instant, t: Store)
    requires Valid(s) && KeysOk(s.ledger) && WriteCheckpoint(s, cutoff) == Ok(t)
    ensures CanDelete(t, cutoff) && t.ledger == s.ledger && Deleting(t, [], t, cutoff)
  {
    CheckpointKeepsBalances(s, cutoff);
  }

  lemma CompleteRun(s: Store, trail: seq<Event>, t: Store, cutoff: Instant)
    requires Deleting(s, trail, t, cutoff) && CanDelete(s, cutoff) && Cleared(t.ledger, STEPS, cutoff)
    ensures t.ledger == Pruned(s.ledger, cutoff)
  {
    AllCleared(t.ledger, cutoff);
    FinishedRun(s, trail, cutoff);
  }

  lemma StillCleared(before: Ledger, after: Ledger, i: nat, cutoff: Instant)
    requires i < |STEPS| && Cleared(before, STEPS[..i], cutoff)
    requires forall other :: Victims(after, other, cutoff) <= Victims(before, other, cutoff)
    requires Victims(after, STEPS[i], cutoff) == {}
    ensures Cleared(after, STEPS[..i + 1], cutoff)
  {
  }

  /** One more batch: it commits, and it either removes a row or shows that the step has nothing left. */
  lemma OneBatch(s: Store, trail: seq<Event>, t: Store, step: Step, cutoff: Instant, batch: nat, ids: set<nat>, after: Ledger)
    requires Deleting(s, trail, t, cutoff) && ids == Lowest(Victims(t.ledger, step, cutoff), batch)
    requires step == ExitStep ==> NoOldChildren(t.ledger, cutoff) || batch == 0
    requires after == Remove(t.ledger, step, ids)
    ensures Deleting(s, trail + [DeletedBatch(step, cutoff, batch)], t.(ledger := after), cutoff)
    ensures step == ExitStep ==> NoOldChildren(after, cutoff) || batch == 0
    ensures RowCount(after) <= RowCount(t.ledger)
    ensures RowCount(after) == RowCount(t.ledger) && batch > 0 ==> Victims(after, step, cutoff) == {}
  {
    AfterOne(s, trail, DeletedBatch(step, cutoff, batch));
    BatchKeepsBalances(t, step, cutoff, batch);
    RemoveCounts(t.ledger, step, cutoff, ids);
    FewerVictims(s.ledger, t.ledger, step, cutoff, ids, after);
  }

  lemma FewerVictims(s: Ledger, t: Ledger, step: Step, cutoff: Instant, ids: set<nat>, after: Ledger)
    requires forall other :: Victims(t, other, cutoff) <= Victims(s, other, cutoff)
    requires after == Remove(t, step, ids)
    ensures forall other :: Victims(after, other, cutoff) <= Victims(s, other, cutoff)
    ensures NoOldChildren(t, cutoff) ==> NoOldChildren(after, cutoff)
  {
    forall other ensures Victims(after, other, cutoff) <= Victims(t, other, cutoff) {
      VictimsNeverGrow(t, step, ids, other, cutoff);
    }
  }
}
