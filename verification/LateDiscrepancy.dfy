/** A prune that makes reconciliation fail: a discrepancy filed long after its dispatch goes with it. */
module LateDiscrepancy {
  import opened Wrappers
  import opened Instants
  import opened Ledger
  import R = Rollups
  import A = RollupAgreement
  import opened Retention
  import opened RetentionRuns
  import opened RetentionResume
  import opened RetentionReporting

  /** A dispatch at hour 0, one at hour 5, and at hour 10 a discrepancy about the first. */
  function Late(): Ledger {
    Ledger(map[1 := Dim(LA, 0)], [],
           [Exit(1, 1, LA, 1, Dispatch, 0), Exit(2, 1, LA, 1, Dispatch, 18_000_000_000)], [],
           [Child(1, 1, Dim(LA, 0), 1, 36_000_000_000)])
  }

  /** The buckets of its first day, as published by one run. */
  function FirstDay(l: Ledger): R.Hourly {
    R.Upsert(map[], R.HourlyQuery(l, 0, 24), 24)
  }

  const CUTOFF: Instant := 3_600_000_000

  /** The first steps of a prune. */
  const PRUNE: seq<Event> := [WroteCheckpoint(CUTOFF), DeletedBatch(DiscrepancyStep, CUTOFF, 1)]

  // ---------------------------------------------------------------- in general

  lemma FirstDayAgrees(l: Ledger, m: Metric)
    requires WellFormed(l)
    ensures A.HourlyAgrees(l, FirstDay(l), m, 1, 24)
  {
    A.WellFormedHasOnlySkuFacts(l, m);
    A.PublishedHoursAgree(l, map[], R.HourlyQuery(l, 0, 24), R.Window(0, 24, 24), m, 1, 24);
  }

  lemma FirstDayBounds(l: Ledger, d: Dim)
    requires d in Dims(l)
    ensures R.Bounds(FirstDay(l), 24, Some(CUTOFF)) == Ok((1, 24))
  {
    A.BoundsOf(FirstDay(l), 24, Some(CUTOFF), R.Key(0, d), R.Key(23, d));
  }

  ghost predicate AllAgree(l: Ledger, h: R.Hourly, start: int, end: int) {
    forall m :: A.HourlyAgrees(l, h, m, start, end)
  }

  ghost predicate EnoughOrders(l: Ledger, start: int, end: int) {
    forall k :: R.Expected(l, k, start, end).discrepancies <= R.Expected(l, k, start, end).dispatchOrders
  }

  lemma AllFirstDayAgrees(l: Ledger)
    requires WellFormed(l)
    ensures AllAgree(l, FirstDay(l), 1, 24)
  {
    forall m ensures A.HourlyAgrees(l, FirstDay(l), m, 1, 24) {
      FirstDayAgrees(l, m);
    }
  }

  lemma OrdersMakeExact(l: Ledger, h: R.Hourly, start: int, end: int)
    requires AllAgree(l, h, start, end) && EnoughOrders(l, start, end)
    ensures R.Exact(l, h, start, end)
  {
    A.AgreeingHoursReconcile(l, h, start, end);
    forall k ensures R.RateHasDenominator(h, k, start, end) {
      assert R.Expected(l, k, start, end) == R.Actual(h, k, start, end);
    }
  }

  lemma TwoSteps(s: Store, cutoff: Instant, step: Step, batch: nat, ready: Store, t: Store)
    requires Enabled(s, WroteCheckpoint(cutoff)) && Next(s, WroteCheckpoint(cutoff)) == ready
    requires Enabled(ready, DeletedBatch(step, cutoff, batch)) && Next(ready, DeletedBatch(step, cutoff, batch)) == t
    ensures var prune := [WroteCheckpoint(cutoff), DeletedBatch(step, cutoff, batch)];
      && After(s, prune) == Some(t)
      && DeletedBy(s, prune) == With(NOTHING, step, Lowest(Victims(ready.ledger, step, cutoff), batch))
  {
    var prune := [WroteCheckpoint(cutoff), DeletedBatch(step, cutoff, batch)];
    assert prune[..1] == [prune[0]] && prune[..1][..0] == [];
    assert After(s, []) == Some(s);
    assert After(s, prune[..1]) == Some(ready);
    assert DeletedBy(s, []) == NOTHING;
    assert DeletedBy(s, prune[..1]) == NOTHING;
  }

  lemma LossShows(s: Store, history: seq<Event>, t: Store, h: R.Hourly, cutoff: int, start: int, end: int, c: Child)
    requires Valid(s) && KeysOk(s.ledger) && After(s, history) == Some(t) && Valid(t) && Pruning(history, Mark(t))
    requires R.Bounds(h, cutoff, Some(Mark(t))) == Ok((start, end))
    requires AllAgree(s.ledger, h, start, end)
    requires LostChild(s.ledger, DeletedBy(s, history), Discrepancies, c, start, end)
    ensures !R.Exact(t.ledger, h, start, end)
  {
    ReconciliationSurvivesPruning(s, history, t, h, cutoff, start, end);
    assert !NoLostChildren(s.ledger, DeletedBy(s, history), start, end);
  }

  // ---------------------------------------------------------------- the example

  lemma LateLedgerIsOk()
    ensures WellFormed(Late()) && KeysOk(Late()) && Dim(LA, 0) in Dims(Late())
  {
    assert Late().exits[0] in Late().exits && Late().skus[1] in Dims(Late());
    assert IsExit(Late(), 1);
  }

  lemma LateKeys()
    ensures KeysOk(Late())
  {
    LateLedgerIsOk();
  }

  lemma TallyOfTwo(a: Fact, b: Fact, d: Dim, lo: int, hi: int)
    ensures Tally([a, b], d, lo, hi) == (if Counts(a, d, lo, hi) then a.amount else 0) + if Counts(b, d, lo, hi) then b.amount else 0
    ensures Tally([a], d, lo, hi) == if Counts(a, d, lo, hi) then a.amount else 0
  {
    var one, two := [a], [a, b];
    assert one[..0] == [] && two[..1] == one && two[1] == b;
    assert Tally([], d, lo, hi) == 0;
    assert Tally(two, d, lo, hi) == Tally(two[..1], d, lo, hi) + if Counts(two[1], d, lo, hi) then two[1].amount else 0;
  }

  /** Whatever range of the day contains the discrepancy contains the second dispatch. */
  lemma LateOrders(k: R.WeekKey)
    ensures R.Expected(Late(), k, 1, 24).discrepancies <= R.Expected(Late(), k, 1, 24).dispatchOrders
  {
    var orders, discrepancies := FactsOf(Late(), DispatchOrders), FactsOf(Late(), Discrepancies);
    var a, b, c := Fact(Dim(LA, 0), 0, 1), Fact(Dim(LA, 0), 5, 1), Fact(Dim(LA, 0), 10, 1);
    var lo, hi := R.From(k.week, 1), R.Until(k.week, 24);
    assert orders == [a, b] && discrepancies == [c];
    TallyOfTwo(a, b, k.dim, lo, hi);
    TallyOfTwo(c, c, k.dim, lo, hi);
    assert R.Expected(Late(), k, 1, 24).Get(Discrepancies) == Tally(discrepancies, k.dim, lo, hi);
    assert R.Expected(Late(), k, 1, 24).Get(DispatchOrders) == Tally(orders, k.dim, lo, hi);
  }

  lemma OnlyVictim()
    ensures Lowest(Victims(Late(), DiscrepancyStep, CUTOFF), 1) == {1}
  {
    var l := Late();
    assert l.exits[0] in l.exits && l.discrepancies[0] in l.discrepancies;
    assert HasChild(l.discrepancies, 1);
    assert Victims(l, DiscrepancyStep, CUTOFF) == {1};
  }

  /** A checkpoint and a first batch of discrepancies, on a ledger never pruned before. */
  lemma FirstSteps(l: Ledger, cutoff: Instant, batch: nat, sku: nat) returns (t: Store)
    requires KeysOk(l) && sku in l.skus && cutoff > BEGINNING_OF_TIME
    ensures var prune := [WroteCheckpoint(cutoff), DeletedBatch(DiscrepancyStep, cutoff, batch)];
      var s := Store(l, map[], map[]);
      && After(s, prune) == Some(t) && Valid(t) && Mark(t) == cutoff
      && DeletedBy(s, prune) == With(NOTHING, DiscrepancyStep, Lowest(Victims(l, DiscrepancyStep, cutoff), batch))
  {
    var s := Store(l, map[], map[]);
    var ready := WriteCheckpoint(s, cutoff).value;
    CheckpointAdvances(s, ready, cutoff);
    BatchKeepsBalances(ready, DiscrepancyStep, cutoff, batch);
    t := Next(ready, DeletedBatch(DiscrepancyStep, cutoff, batch));
    TwoSteps(s, cutoff, DiscrepancyStep, batch, ready, t);
  }

  lemma LatePrune(s: Store) returns (t: Store)
    requires s == Store(Late(), map[], map[])
    ensures After(s, PRUNE) == Some(t) && Valid(t) && Mark(t) == CUTOFF
    ensures DeletedBy(s, PRUNE).discrepancies == {1}
  {
    LateKeys();
    t := FirstSteps(Late(), CUTOFF, 1, 1);
    OnlyVictim();
  }

  lemma PruneIsPruning()
    ensures Pruning(PRUNE, CUTOFF)
  {
  }

  lemma ExactThenLost(l: Ledger, s: Store, prune: seq<Event>, t: Store, h: R.Hourly, cutoff: int, start: int, end: int, c: Child)
    requires KeysOk(l) && AllAgree(l, h, start, end) && EnoughOrders(l, start, end) && s == Store(l, map[], map[])
    requires After(s, prune) == Some(t) && Valid(t) && Pruning(prune, Mark(t)) && R.Bounds(h, cutoff, Some(Mark(t))) == Ok((start, end))
    requires LostChild(l, DeletedBy(s, prune), Discrepancies, c, start, end)
    ensures R.Exact(l, h, start, end) && !R.Exact(t.ledger, h, start, end)
  {
    OrdersMakeExact(l, h, start, end);
    LossShows(s, prune, t, h, cutoff, start, end, c);
  }

  lemma LateHasEnoughOrders()
    ensures EnoughOrders(Late(), 1, 24)
  {
    forall k ensures R.Expected(Late(), k, 1, 24).discrepancies <= R.Expected(Late(), k, 1, 24).dispatchOrders {
      LateOrders(k);
    }
  }

  lemma LateFirstDay()
    ensures R.Bounds(FirstDay(Late()), 24, Some(CUTOFF)) == Ok((1, 24)) && AllAgree(Late(), FirstDay(Late()), 1, 24)
  {
    LateLedgerIsOk();
    FirstDayBounds(Late(), Dim(LA, 0));
    AllFirstDayAgrees(Late());
  }

  lemma LateLoss(l: Ledger, gone: Deleted)
    requires l == Late() && gone.discrepancies == {1}
    ensures l.discrepancies != [] && LostChild(l, gone, Discrepancies, l.discrepancies[0], 1, 24)
  {
    assert l.discrepancies[0] in l.discrepancies;
  }

  /** The late ledger's first day is rolled up exactly, and after the checkpoint and one batch it no longer
      reconciles over the bounds that an activation takes: a recent discrepancy went with its old dispatch. */
  lemma LateDiscrepancyIsLost() returns (t: Store)
    ensures After(Store(Late(), map[], map[]), PRUNE) == Some(t) && Valid(t) && Mark(t) == CUTOFF
    ensures R.Bounds(FirstDay(Late()), 24, Some(CUTOFF)) == Ok((1, 24))
    ensures R.Exact(Late(), FirstDay(Late()), 1, 24) && !R.Exact(t.ledger, FirstDay(Late()), 1, 24)
  {
    var l, s := Late(), Store(Late(), map[], map[]);
    t := LatePrune(s);
    LateFirstDay();
    LateHasEnoughOrders();
    LateKeys();
    LateLoss(l, DeletedBy(s, PRUNE));
    PruneIsPruning();
    ExactThenLost(l, s, PRUNE, t, FirstDay(l), 24, 1, 24, l.discrepancies[0]);
  }
}
