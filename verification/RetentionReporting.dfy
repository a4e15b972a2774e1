/** What retention means for the reports: reconciliation after any prefix of a prune. */
module RetentionReporting {
  import opened Wrappers
  import opened Instants
  import opened Sorting
  import opened Ledger
  import R = Rollups
  import A = RollupAgreement
  import opened Retention
  import opened RetentionRuns
  import opened RetentionResume

  // ---------------------------------------------------------------- what a history deleted

  /** Identifiers removed so far: parents whose children went, exits, entries. */
  datatype Deleted = Deleted(discrepancies: set<nat>, stockouts: set<nat>, exits: set<nat>, entries: set<nat>)

  const NOTHING := Deleted({}, {}, {}, {})

  function Without(l: Ledger, gone: Deleted): Ledger {
    Ledger(l.skus, Kept(l.entries, EntryOutside(gone.entries)), Kept(l.exits, ExitOutside(gone.exits)),
           Kept(l.stockouts, NotUnder(gone.stockouts)), Kept(l.discrepancies, NotUnder(gone.discrepancies)))
  }

  function With(gone: Deleted, step: Step, ids: set<nat>): Deleted {
    match step
    case DiscrepancyStep => gone.(discrepancies := gone.discrepancies + ids)
    case StockoutStep => gone.(stockouts := gone.stockouts + ids)
    case ExitStep => gone.(exits := gone.exits + ids)
    case EntryStep => gone.(entries := gone.entries + ids)
  }

  ghost function DeletedBy(s: Store, history: seq<Event>): Deleted
    requires After(s, history).Some?
  {
    if history == [] then NOTHING
    else
      var before, last := history[..|history| - 1], history[|history| - 1];
      if last.DeletedBatch?
      then With(DeletedBy(s, before), last.step,
                Lowest(Victims(After(s, before).value.ledger, last.step, last.cutoff), last.batch))
      else DeletedBy(s, before)
  }

  lemma NothingDeleted(l: Ledger)
    ensures Without(l, NOTHING) == l
  {
    KeptAll(l.entries, EntryOutside({}));
    KeptAll(l.exits, ExitOutside({}));
    KeptAll(l.stockouts, NotUnder({}));
    KeptAll(l.discrepancies, NotUnder({}));
  }

  lemma RemovedToo(l: Ledger, gone: Deleted, step: Step, ids: set<nat>)
    ensures Remove(Without(l, gone), step, ids) == Without(l, With(gone, step, ids))
  {
    match step
    case DiscrepancyStep =>
      KeptTwice(l.discrepancies, NotUnder(gone.discrepancies), NotUnder(ids), NotUnder(gone.discrepancies + ids));
    case StockoutStep =>
      KeptTwice(l.stockouts, NotUnder(gone.stockouts), NotUnder(ids), NotUnder(gone.stockouts + ids));
    case ExitStep => KeptTwice(l.exits, ExitOutside(gone.exits), ExitOutside(ids), ExitOutside(gone.exits + ids));
    case EntryStep =>
      KeptTwice(l.entries, EntryOutside(gone.entries), EntryOutside(ids), EntryOutside(gone.entries + ids));
  }

  /** Everything deleted is behind `final`. */
  ghost predicate Behind(l: Ledger, gone: Deleted, final: Instant) {
    && gone.exits + gone.stockouts + gone.discrepancies <= Victims(l, ExitStep, final)
    && gone.entries <= Victims(l, EntryStep, final)
  }

  lemma VictimsWereVictims(l: Ledger, gone: Deleted, step: Step, cutoff: Instant, final: Instant)
    requires cutoff <= final
    ensures Victims(Without(l, gone), step, cutoff) <= Victims(l, if step == EntryStep then EntryStep else ExitStep, final)
  {
  }

  /** A history of checkpoints and batches leaves the ledger without what its batches named. */
  lemma {:induction false} PruningDeletes(s: Store, history: seq<Event>, final: Instant)
    requires Pruning(history, final) && After(s, history).Some?
    ensures After(s, history).value.ledger == Without(s.ledger, DeletedBy(s, history))
    ensures Behind(s.ledger, DeletedBy(s, history), final)
    decreases |history|
  {
    if history == [] {
      NothingDeleted(s.ledger);
    } else {
      var before, last := history[..|history| - 1], history[|history| - 1];
      assert last in history;
      PruningDeletes(s, before, final);
      if last.DeletedBatch? {
        var t := After(s, before).value;
        var ids := Lowest(Victims(t.ledger, last.step, last.cutoff), last.batch);
        RemovedToo(s.ledger, DeletedBy(s, before), last.step, ids);
        VictimsWereVictims(s.ledger, DeletedBy(s, before), last.step, last.cutoff, final);
      }
    }
  }

  // ---------------------------------------------------------------- tallies of what is kept

  function FactsFrom<T>(xs: seq<T>, f: T -> Fact): seq<Fact> {
    seq(|xs|, i requires 0 <= i < |xs| => f(xs[i]))
  }

  lemma OneMoreFact<T>(xs: seq<T>, x: T, f: T -> Fact, d: Dim, lo: int, hi: int)
    ensures Tally(FactsFrom(xs + [x], f), d, lo, hi) ==
      Tally(FactsFrom(xs, f), d, lo, hi) + if Counts(f(x), d, lo, hi) then f(x).amount else 0
  {
    var fs := FactsFrom(xs + [x], f);
    assert fs[..|fs| - 1] == FactsFrom(xs, f);
  }

  /** A tally is the tally of the kept rows plus that of the dropped ones. */
  lemma {:induction false} TallyConserved<T>(xs: seq<T>, keep: T -> bool, drop: T -> bool, f: T -> Fact, d: Dim, lo: int, hi: int)
    requires forall x | x in xs :: drop(x) == !keep(x)
    ensures Tally(FactsFrom(xs, f), d, lo, hi) ==
      Tally(FactsFrom(Kept(xs, keep), f), d, lo, hi) + Tally(FactsFrom(Kept(xs, drop), f), d, lo, hi)
  {
    if xs != [] {
      var init, last := xs[..|xs| - 1], xs[|xs| - 1];
      assert last in xs && xs == init + [last];
      TallyConserved(init, keep, drop, f, d, lo, hi);
      OneMoreFact(init, last, f, d, lo, hi);
      OneMoreFact(Kept(init, keep), last, f, d, lo, hi);
      OneMoreFact(Kept(init, drop), last, f, d, lo, hi);
    }
  }

  ghost predicate Counted<T(!new)>(xs: seq<T>, drop: T -> bool, f: T -> Fact, d: Dim, lo: int, hi: int) {
    exists x :: x in xs && drop(x) && Counts(f(x), d, lo, hi) && f(x).amount > 0
  }

  /** Dropping rows leaves the tally alone exactly when no dropped row counted, and otherwise lowers it. */
  lemma TallyOfKept<T(!new)>(xs: seq<T>, keep: T -> bool, drop: T -> bool, f: T -> Fact, d: Dim, lo: int, hi: int)
    requires forall x | x in xs :: drop(x) == !keep(x)
    ensures Tally(FactsFrom(Kept(xs, keep), f), d, lo, hi) <= Tally(FactsFrom(xs, f), d, lo, hi)
    ensures Tally(FactsFrom(Kept(xs, keep), f), d, lo, hi) == Tally(FactsFrom(xs, f), d, lo, hi) <==>
      !Counted(xs, drop, f, d, lo, hi)
  {
    TallyConserved(xs, keep, drop, f, d, lo, hi);
    var dropped := Kept(xs, drop);
    var fs := FactsFrom(dropped, f);
    TallyHasARow(fs, d, lo, hi);
    if Tally(fs, d, lo, hi) > 0 {
      var i :| 0 <= i < |fs| && Counts(fs[i], d, lo, hi) && fs[i].amount > 0;
      assert dropped[i] in dropped;
    }
    if Counted(xs, drop, f, d, lo, hi) {
      var x :| x in xs && drop(x) && Counts(f(x), d, lo, hi) && f(x).amount > 0;
      assert x in dropped;
      var i :| 0 <= i < |dropped| && dropped[i] == x;
      assert Counts(fs[i], d, lo, hi);
    }
  }

  predicate MovementMetric(m: Metric) {
    m != Stockouts && m != Discrepancies
  }

  function AsEntryFact(skus: map<nat, Dim>, m: Metric): Entry -> Fact { (e: Entry) => EntryFact(skus, m, e) }

  function AsExitFact(skus: map<nat, Dim>, m: Metric): Exit -> Fact { (x: Exit) => ExitFact(skus, m, x) }

  function AsChildFact(): Child -> Fact { (c: Child) => ChildFact(c) }

  function EntryInside(ids: set<nat>): Entry -> bool { (e: Entry) => e.id in ids }

  function ExitInside(ids: set<nat>): Exit -> bool { (x: Exit) => x.id in ids }

  function Under(ids: set<nat>): Child -> bool { (c: Child) => c.exit in ids }

  lemma OldHour(at: Instant, final: Instant, lo: int)
    requires at < final && CeilHour(final) <= lo
    ensures HourOf(at) < lo
  {
  }

  lemma EntryTallySurvives(l: Ledger, gone: Deleted, final: Instant, m: Metric, d: Dim, lo: int, hi: int)
    requires Ascending(l.entries, EntryId) && gone.entries <= Victims(l, EntryStep, final) && CeilHour(final) <= lo
    ensures var f := AsEntryFact(l.skus, m);
      Tally(FactsFrom(Kept(l.entries, EntryOutside(gone.entries)), f), d, lo, hi) == Tally(FactsFrom(l.entries, f), d, lo, hi)
  {
    var f := AsEntryFact(l.skus, m);
    forall e | e in l.entries && e.id in gone.entries ensures !Counts(f(e), d, lo, hi) {
      var aged :| aged in l.entries && aged.at < final && aged.id == e.id;
      SameRank(l.entries, EntryId, e, aged);
      OldHour(e.at, final, lo);
    }
    TallyOfKept(l.entries, EntryOutside(gone.entries), EntryInside(gone.entries), f, d, lo, hi);
  }

  lemma ExitTallySurvives(l: Ledger, gone: Deleted, final: Instant, m: Metric, d: Dim, lo: int, hi: int)
    requires Ascending(l.exits, ExitId) && gone.exits <= Victims(l, ExitStep, final) && CeilHour(final) <= lo
    ensures var f := AsExitFact(l.skus, m);
      Tally(FactsFrom(Kept(l.exits, ExitOutside(gone.exits)), f), d, lo, hi) == Tally(FactsFrom(l.exits, f), d, lo, hi)
  {
    var f := AsExitFact(l.skus, m);
    forall x | x in l.exits && x.id in gone.exits ensures !Counts(f(x), d, lo, hi) {
      var aged :| aged in l.exits && aged.at < final && aged.id == x.id;
      SameRank(l.exits, ExitId, x, aged);
      OldHour(x.at, final, lo);
    }
    TallyOfKept(l.exits, ExitOutside(gone.exits), ExitInside(gone.exits), f, d, lo, hi);
  }

  /** The six movement metrics from the ceiling hour of the cutoff on do not change. */
  lemma MovementTallySurvives(l: Ledger, gone: Deleted, final: Instant, m: Metric, d: Dim, lo: int, hi: int)
    requires KeysOk(l) && Behind(l, gone, final) && MovementMetric(m) && CeilHour(final) <= lo
    ensures Tally(FactsOf(Without(l, gone), m), d, lo, hi) == Tally(FactsOf(l, m), d, lo, hi)
  {
    var r := Without(l, gone);
    if m == InboundMovements || m == InboundUnits {
      EntryTallySurvives(l, gone, final, m, d, lo, hi);
      var f := AsEntryFact(l.skus, m);
      assert FactsOf(l, m) == FactsFrom(l.entries, f) && FactsOf(r, m) == FactsFrom(r.entries, f);
    } else {
      ExitTallySurvives(l, gone, final, m, d, lo, hi);
      var f := AsExitFact(l.skus, m);
      assert FactsOf(l, m) == FactsFrom(l.exits, f) && FactsOf(r, m) == FactsFrom(r.exits, f);
    }
  }

  function ChildrenOf(l: Ledger, m: Metric): seq<Child> {
    if m == Stockouts then l.stockouts else l.discrepancies
  }

  function ParentsGone(gone: Deleted, m: Metric): set<nat> {
    if m == Stockouts then gone.stockouts else gone.discrepancies
  }

  /** A deleted child is dated inside [lo, hi). */
  ghost predicate LostChild(l: Ledger, gone: Deleted, m: Metric, c: Child, lo: int, hi: int) {
    c in ChildrenOf(l, m) && c.exit in ParentsGone(gone, m) && lo <= HourOf(c.at) < hi
  }

  /** The other two lose exactly the deleted children dated in the range. */
  lemma ChildTally(l: Ledger, gone: Deleted, m: Metric, d: Dim, lo: int, hi: int)
    requires !MovementMetric(m)
    ensures Tally(FactsOf(Without(l, gone), m), d, lo, hi) <= Tally(FactsOf(l, m), d, lo, hi)
    ensures Tally(FactsOf(Without(l, gone), m), d, lo, hi) == Tally(FactsOf(l, m), d, lo, hi) <==>
      forall c :: LostChild(l, gone, m, c, lo, hi) ==> c.dim != d
  {
    var r, cs, ids, f := Without(l, gone), ChildrenOf(l, m), ParentsGone(gone, m), AsChildFact();
    TallyOfKept(cs, NotUnder(ids), Under(ids), f, d, lo, hi);
    assert FactsOf(l, m) == FactsFrom(cs, f) && FactsOf(r, m) == FactsFrom(ChildrenOf(r, m), f);
    if Counted(cs, Under(ids), f, d, lo, hi) {
      var c :| c in cs && Under(ids)(c) && Counts(f(c), d, lo, hi) && f(c).amount > 0;
      assert LostChild(l, gone, m, c, lo, hi);
    }
    if c :| LostChild(l, gone, m, c, lo, hi) && c.dim == d {
      assert Under(ids)(c) && Counts(f(c), d, lo, hi) && f(c).amount > 0;
    }
  }

  // ---------------------------------------------------------------- reconciliation after a prune

  ghost predicate NoLostChildren(l: Ledger, gone: Deleted, lo: int, hi: int) {
    forall m, c :: !MovementMetric(m) ==> !LostChild(l, gone, m, c, lo, hi)
  }

  lemma NoneLost(l: Ledger, gone: Deleted, m: Metric, lo: int, hi: int, start: int, end: int)
    requires !MovementMetric(m) && NoLostChildren(l, gone, start, end) && start <= lo && hi <= end
    ensures forall c :: !LostChild(l, gone, m, c, lo, hi)
  {
    forall c ensures !LostChild(l, gone, m, c, lo, hi) {
      assert !LostChild(l, gone, m, c, start, end);
    }
  }

  /** Buckets that agreed hour by hour agree for the six movement metrics after any prefix of a prune. */
  lemma MovementHoursSurvive(l: Ledger, gone: Deleted, final: Instant, h: R.Hourly, m: Metric, start: int, end: int)
    requires KeysOk(l) && Behind(l, gone, final) && CeilHour(final) <= start && MovementMetric(m)
    requires A.HourlyAgrees(l, h, m, start, end)
    ensures A.HourlyAgrees(Without(l, gone), h, m, start, end)
  {
    forall hour, d | start <= hour < end
      ensures R.BucketValue(h, R.Key(hour, d), m) == Tally(FactsOf(Without(l, gone), m), d, hour, hour + 1)
    {
      MovementTallySurvives(l, gone, final, m, d, hour, hour + 1);
      assert R.BucketValue(h, R.Key(hour, d), m) == Tally(FactsOf(l, m), d, hour, hour + 1);
    }
  }

  lemma ExpectedSurvives(l: Ledger, gone: Deleted, final: Instant, k: R.WeekKey, start: int, end: int)
    requires KeysOk(l) && Behind(l, gone, final) && CeilHour(final) <= start
    requires NoLostChildren(l, gone, start, end)
    ensures R.Expected(Without(l, gone), k, start, end) == R.Expected(l, k, start, end)
  {
    var a, b := R.Expected(Without(l, gone), k, start, end), R.Expected(l, k, start, end);
    forall m ensures a.Get(m) == b.Get(m) {
      var lo, hi := R.From(k.week, start), R.Until(k.week, end);
      if MovementMetric(m) {
        MovementTallySurvives(l, gone, final, m, k.dim, lo, hi);
      } else {
        NoneLost(l, gone, m, lo, hi, start, end);
        ChildTally(l, gone, m, k.dim, lo, hi);
      }
    }
    A.TotalsAreTheirMetrics(a, b);
  }

  lemma LostChildShows(l: Ledger, gone: Deleted, m: Metric, c: Child, start: int, end: int)
    requires !MovementMetric(m) && LostChild(l, gone, m, c, start, end)
    ensures var k := R.WeekKey(WeekOf(HourOf(c.at)), c.dim);
      R.Expected(Without(l, gone), k, start, end) != R.Expected(l, k, start, end)
  {
    var k := R.WeekKey(WeekOf(HourOf(c.at)), c.dim);
    var lo, hi := R.From(k.week, start), R.Until(k.week, end);
    WeekBounds(HourOf(c.at), k.week);
    assert LostChild(l, gone, m, c, lo, hi);
    ChildTally(l, gone, m, c.dim, lo, hi);
    assert R.Expected(Without(l, gone), k, start, end).Get(m) != R.Expected(l, k, start, end).Get(m);
  }

  lemma SameMatch(l: Ledger, r: Ledger, h: R.Hourly, k: R.WeekKey, start: int, end: int)
    requires R.Expected(r, k, start, end) == R.Expected(l, k, start, end)
    ensures R.Matches(r, h, k, start, end) <==> R.Matches(l, h, k, start, end)
  {
  }

  lemma SameMatches(l: Ledger, r: Ledger, h: R.Hourly, start: int, end: int)
    requires forall k :: R.Matches(r, h, k, start, end) <==> R.Matches(l, h, k, start, end)
    ensures R.Exact(r, h, start, end) <==> R.Exact(l, h, start, end)
  {
    A.ExactMeansEveryGroupMatches(l, h, start, end);
    A.ExactMeansEveryGroupMatches(r, h, start, end);
  }

  lemma OneMismatch(r: Ledger, h: R.Hourly, k: R.WeekKey, start: int, end: int)
    requires R.Expected(r, k, start, end) != R.Actual(h, k, start, end)
    ensures !R.Exact(r, h, start, end)
  {
    A.ExactMeansEveryGroupMatches(r, h, start, end);
    assert !R.Matches(r, h, k, start, end);
  }

  /** Reconciliation after any prefix of a prune, over hours from the checkpoint's ceiling on: it is exact
      exactly when it was before and no deleted stockout or discrepancy is dated in those hours. */
  lemma ExactnessAfterPruning(l: Ledger, gone: Deleted, final: Instant, h: R.Hourly, start: int, end: int)
    requires KeysOk(l) && Behind(l, gone, final) && CeilHour(final) <= start
    requires forall k :: R.Expected(l, k, start, end) == R.Actual(h, k, start, end)
    ensures R.Exact(Without(l, gone), h, start, end) <==> R.Exact(l, h, start, end) && NoLostChildren(l, gone, start, end)
  {
    if NoLostChildren(l, gone, start, end) {
      forall k ensures R.Matches(Without(l, gone), h, k, start, end) <==> R.Matches(l, h, k, start, end) {
        ExpectedSurvives(l, gone, final, k, start, end);
        SameMatch(l, Without(l, gone), h, k, start, end);
      }
      SameMatches(l, Without(l, gone), h, start, end);
    } else {
      var m, c :| !MovementMetric(m) && LostChild(l, gone, m, c, start, end);
      LostChildShows(l, gone, m, c, start, end);
      OneMismatch(Without(l, gone), h, R.WeekKey(WeekOf(HourOf(c.at)), c.dim), start, end);
    }
  }

  lemma BoundsAreBehindTheCheckpoint(h: R.Hourly, cutoff: int, pruned: Instant)
    requires R.Bounds(h, cutoff, Some(pruned)).Ok?
    ensures CeilHour(pruned) <= R.Bounds(h, cutoff, Some(pruned)).value.0
  {
  }

  /** If the buckets agreed with the ledger hour by hour, then after any prefix of any number of prunes, over the
      bounds that the activation takes from the committed checkpoint, reconciliation is exact exactly when it
      was before and no stockout or discrepancy with a deleted parent is dated within those bounds. */
  lemma ReconciliationSurvivesPruning(s: Store, history: seq<Event>, t: Store, h: R.Hourly, cutoff: int, start: int, end: int)
    requires Valid(s) && KeysOk(s.ledger) && After(s, history) == Some(t) && Valid(t) && Pruning(history, Mark(t))
    requires R.Bounds(h, cutoff, Some(Mark(t))) == Ok((start, end))
    requires forall m :: A.HourlyAgrees(s.ledger, h, m, start, end)
    ensures R.Exact(t.ledger, h, start, end) <==>
      R.Exact(s.ledger, h, start, end) && NoLostChildren(s.ledger, DeletedBy(s, history), start, end)
  {
    PruningDeletes(s, history, Mark(t));
    BoundsAreBehindTheCheckpoint(h, cutoff, Mark(t));
    A.AgreeingHoursReconcile(s.ledger, h, start, end);
    ExactnessAfterPruning(s.ledger, DeletedBy(s, history), Mark(t), h, start, end);
  }

  /** No stockout or discrepancy of the range belongs to a dispatch older than the cutoff: a test on the tables as
      they are before a prune. */
  ghost predicate NoOldParents(l: Ledger, cutoff: Instant, lo: int, hi: int) {
    forall m, c, x | !MovementMetric(m) && c in ChildrenOf(l, m) && lo <= HourOf(c.at) < hi && x in l.exits && x.id == c.exit ::
      cutoff <= x.at
  }

  lemma BehindSparesThem(l: Ledger, gone: Deleted, final: Instant, lo: int, hi: int)
    requires Behind(l, gone, final) && NoOldParents(l, final, lo, hi)
    ensures NoLostChildren(l, gone, lo, hi)
  {
    forall m, c | !MovementMetric(m) && LostChild(l, gone, m, c, lo, hi) ensures false {
      LostChildHasOldParent(l, gone, final, m, c, lo, hi);
    }
  }

  lemma LostChildHasOldParent(l: Ledger, gone: Deleted, final: Instant, m: Metric, c: Child, lo: int, hi: int)
    requires Behind(l, gone, final) && !MovementMetric(m) && LostChild(l, gone, m, c, lo, hi)
    ensures exists x :: x in l.exits && x.id == c.exit && x.at < final
  {
    assert c.exit in Victims(l, ExitStep, final);
  }

  /** Known beforehand: if no stockout or discrepancy within the bounds has a dispatch older than the checkpoint,
      no prefix of any prune changes whether reconciliation is exact. */
  lemma PruningIsSafeWithoutOldParents(s: Store, history: seq<Event>, t: Store, h: R.Hourly, cutoff: int, start: int, end: int)
    requires Valid(s) && KeysOk(s.ledger) && After(s, history) == Some(t) && Valid(t) && Pruning(history, Mark(t))
    requires R.Bounds(h, cutoff, Some(Mark(t))) == Ok((start, end))
    requires forall m :: A.HourlyAgrees(s.ledger, h, m, start, end)
    requires NoOldParents(s.ledger, Mark(t), start, end)
    ensures R.Exact(t.ledger, h, start, end) <==> R.Exact(s.ledger, h, start, end)
  {
    PruningDeletes(s, history, Mark(t));
    BehindSparesThem(s.ledger, DeletedBy(s, history), Mark(t), start, end);
    ReconciliationSurvivesPruning(s, history, t, h, cutoff, start, end);
  }

  /** What a finished prune has deleted. */
  function AllOld(l: Ledger, cutoff: Instant): Deleted {
    var exits := Victims(l, ExitStep, cutoff);
    Deleted(exits, exits, exits, Victims(l, EntryStep, cutoff))
  }

  lemma OldParentsAreLost(l: Ledger, cutoff: Instant, lo: int, hi: int)
    requires KeysOk(l)
    ensures NoLostChildren(l, AllOld(l, cutoff), lo, hi) <==> NoOldParents(l, cutoff, lo, hi)
  {
    if NoOldParents(l, cutoff, lo, hi) {
      BehindSparesThem(l, AllOld(l, cutoff), cutoff, lo, hi);
    } else {
      var m, c, x :| !MovementMetric(m) && c in ChildrenOf(l, m) && lo <= HourOf(c.at) < hi && x in l.exits && x.id == c.exit &&
        x.at < cutoff;
      assert LostChild(l, AllOld(l, cutoff), m, c, lo, hi);
    }
  }

  /** And exactly then, once the prune has finished: reconciliation over the bounds is exact afterwards if and only
      if it was before and no stockout or discrepancy within them has a dispatch older than the checkpoint. */
  lemma FinishedPruneReconciles(s: Store, history: seq<Event>, t: Store, h: R.Hourly, cutoff: int, start: int, end: int)
    requires Valid(s) && KeysOk(s.ledger) && After(s, history) == Some(t) && Valid(t) && Pruning(history, Mark(t))
    requires Finished(t.ledger, Mark(t))
    requires R.Bounds(h, cutoff, Some(Mark(t))) == Ok((start, end))
    requires forall m :: A.HourlyAgrees(s.ledger, h, m, start, end)
    ensures R.Exact(t.ledger, h, start, end) <==> R.Exact(s.ledger, h, start, end) && NoOldParents(s.ledger, Mark(t), start, end)
  {
    PruningKeepsFuture(s, history, Mark(t));
    FinishedIsPruned(t.ledger, Mark(t));
    assert t.ledger == Without(s.ledger, AllOld(s.ledger, Mark(t)));
    BoundsAreBehindTheCheckpoint(h, cutoff, Mark(t));
    A.AgreeingHoursReconcile(s.ledger, h, start, end);
    OldParentsAreLost(s.ledger, Mark(t), start, end);
    ExactnessAfterPruning(s.ledger, AllOld(s.ledger, Mark(t)), Mark(t), h, start, end);
  }

  /** A stockout is recorded with its dispatch and at its instant; then no deleted stockout is recent. */
  lemma StockoutsAreNeverLost(l: Ledger, gone: Deleted, final: Instant, c: Child, lo: int, hi: int)
    requires KeysOk(l) && Behind(l, gone, final) && CeilHour(final) <= lo
    requires forall o, x | o in l.stockouts && x in l.exits && x.id == o.exit :: o.at == x.at
    ensures !LostChild(l, gone, Stockouts, c, lo, hi)
  {
  }
}
