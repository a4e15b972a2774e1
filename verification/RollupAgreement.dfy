/** The index agrees with what it speeds up: sums of hourly buckets against direct aggregation. */
module RollupAgreement {
  import opened Wrappers
  import opened Instants
  import opened Ledger
  import opened Rollups

  lemma TotalsAreTheirMetrics(a: Totals, b: Totals)
    ensures a == b <==> forall m :: a.Get(m) == b.Get(m)
  {
    if forall m :: a.Get(m) == b.Get(m) {
      assert a.Get(InboundMovements) == b.Get(InboundMovements) && a.Get(InboundUnits) == b.Get(InboundUnits);
      assert a.Get(DispatchOrders) == b.Get(DispatchOrders) && a.Get(DispatchUnits) == b.Get(DispatchUnits);
      assert a.Get(LossMovements) == b.Get(LossMovements) && a.Get(LossUnits) == b.Get(LossUnits);
      assert a.Get(Stockouts) == b.Get(Stockouts) && a.Get(Discrepancies) == b.Get(Discrepancies);
    }
  }

  /** Every bucket of [start, end) says what the hourly query says of the ledger now; a missing bucket says zero. */
  ghost predicate HourlyAgrees(l: Ledger, h: Hourly, m: Metric, start: int, end: int) {
    forall hour, d | start <= hour < end ::
      BucketValue(h, Key(hour, d), m) == Tally(FactsOf(l, m), d, hour, hour + 1)
  }

  /** Summing hours is aggregating directly, over any part of the range, so also over partial weeks. */
  lemma {:induction false} SumOfHoursIsDirect(l: Ledger, h: Hourly, m: Metric, start: int, end: int, d: Dim, lo: int, hi: int)
    requires HourlyAgrees(l, h, m, start, end) && start <= lo && hi <= end
    ensures SumBuckets(h, d, m, lo, hi) == Tally(FactsOf(l, m), d, lo, hi)
    decreases hi - lo
  {
    if hi <= lo {
      TallyEmptyRange(FactsOf(l, m), d, lo, hi);
    } else {
      SumOfHoursIsDirect(l, h, m, start, end, d, lo, hi - 1);
      TallySplits(FactsOf(l, m), d, lo, hi - 1, hi);
      assert BucketValue(h, Key(hi - 1, d), m) == Tally(FactsOf(l, m), d, hi - 1, hi - 1 + 1);
    }
  }

  /** Nothing happens outside the SKUs' dimensions. */
  ghost predicate OnlySkuFacts(l: Ledger, m: Metric) {
    forall d, lo, hi | d !in Dims(l) :: Tally(FactsOf(l, m), d, lo, hi) == 0
  }

  lemma WellFormedHasOnlySkuFacts(l: Ledger, m: Metric)
    requires WellFormed(l)
    ensures OnlySkuFacts(l, m)
  {
    forall d, lo, hi | d !in Dims(l) ensures Tally(FactsOf(l, m), d, lo, hi) == 0 {
      NoSkuNoFacts(l, m, d, lo, hi);
    }
  }

  ghost predicate BucketsHaveSkus(l: Ledger, h: Hourly) {
    forall k | k in h :: k.dim in Dims(l)
  }

  lemma GridRow(l: Ledger, rows: map<Key, Totals>, start: int, end: int, k: Key)
    requires IsGrid(l, rows, start, end)
    ensures k in rows <==> start <= k.hour < end && k.dim in Dims(l)
    ensures k in rows ==> rows[k] == TotalsOf(l, k.dim, k.hour, k.hour + 1)
  {
  }

  lemma GridAt(l: Ledger, rows: map<Key, Totals>, start: int, end: int, k: Key, m: Metric)
    requires IsGrid(l, rows, start, end)
    ensures k in rows <==> start <= k.hour < end && k.dim in Dims(l)
    ensures k in rows ==> rows[k].Get(m) == Tally(FactsOf(l, m), k.dim, k.hour, k.hour + 1)
  {
    GridRow(l, rows, start, end, k);
  }

  lemma PublishedBucket(l: Ledger, h: Hourly, rows: map<Key, Totals>, w: Window, m: Metric, k: Key)
    requires k in rows <==> w.start <= k.hour < w.end && k.dim in Dims(l)
    requires k in rows ==> rows[k].Get(m) == Tally(FactsOf(l, m), k.dim, k.hour, k.hour + 1)
    requires k.dim !in Dims(l) ==> Tally(FactsOf(l, m), k.dim, k.hour, k.hour + 1) == 0
    requires k in h ==> k.dim in Dims(l)
    ensures BucketValue(Upsert(h, rows, w.cutoff), k, m) ==
      if w.start <= k.hour < w.end then Tally(FactsOf(l, m), k.dim, k.hour, k.hour + 1) else BucketValue(h, k, m)
  {
    UpsertedBucket(h, rows, w.cutoff, k, m);
  }

  ghost predicate Published(l: Ledger, h: Hourly, p: Hourly, w: Window, m: Metric) {
    forall k :: BucketValue(p, k, m) ==
      if w.start <= k.hour < w.end then Tally(FactsOf(l, m), k.dim, k.hour, k.hour + 1) else BucketValue(h, k, m)
  }

  lemma PublicationIsTheGrid(l: Ledger, h: Hourly, rows: map<Key, Totals>, w: Window, m: Metric)
    requires OnlySkuFacts(l, m) && IsGrid(l, rows, w.start, w.end) && BucketsHaveSkus(l, h)
    ensures Published(l, h, Upsert(h, rows, w.cutoff), w, m)
  {
    forall k
      ensures BucketValue(Upsert(h, rows, w.cutoff), k, m) ==
        if w.start <= k.hour < w.end then Tally(FactsOf(l, m), k.dim, k.hour, k.hour + 1) else BucketValue(h, k, m)
    {
      GridAt(l, rows, w.start, w.end, k, m);
      PublishedBucket(l, h, rows, w, m, k);
    }
  }

  /** Freshly published hours agree with the ledger they were computed from, and hours that agreed before
      go on agreeing. */
  lemma PublishedHoursAgree(l: Ledger, h: Hourly, rows: map<Key, Totals>, w: Window, m: Metric, lo: int, hi: int)
    requires OnlySkuFacts(l, m) && IsGrid(l, rows, w.start, w.end) && BucketsHaveSkus(l, h)
    requires (w.start <= lo && hi <= w.end) || HourlyAgrees(l, h, m, lo, hi)
    ensures HourlyAgrees(l, Upsert(h, rows, w.cutoff), m, lo, hi)
  {
    PublicationIsTheGrid(l, h, rows, w, m);
    PublishedAgrees(l, h, Upsert(h, rows, w.cutoff), w, m, lo, hi);
  }

  lemma PublishedAgrees(l: Ledger, h: Hourly, p: Hourly, w: Window, m: Metric, lo: int, hi: int)
    requires Published(l, h, p, w, m)
    requires (w.start <= lo && hi <= w.end) || HourlyAgrees(l, h, m, lo, hi)
    ensures HourlyAgrees(l, p, m, lo, hi)
  {
  }

  lemma UpsertedBucket(h: Hourly, rows: map<Key, Totals>, cutoff: int, k: Key, m: Metric)
    ensures BucketValue(Upsert(h, rows, cutoff), k, m) == if k in rows then rows[k].Get(m) else BucketValue(h, k, m)
  {
  }

  lemma NoSkuNoFacts(l: Ledger, m: Metric, d: Dim, lo: int, hi: int)
    requires WellFormed(l) && d !in Dims(l)
    ensures Tally(FactsOf(l, m), d, lo, hi) == 0
  {
    TallyHasARow(FactsOf(l, m), d, lo, hi);
    if Tally(FactsOf(l, m), d, lo, hi) > 0 {
      var fs := FactsOf(l, m);
      var i :| 0 <= i < |fs| && Counts(fs[i], d, lo, hi) && fs[i].amount > 0;
      FactHasSku(l, m, i);
    }
  }

  lemma FactHasSku(l: Ledger, m: Metric, i: nat)
    requires WellFormed(l) && i < |FactsOf(l, m)|
    ensures FactsOf(l, m)[i].dim in Dims(l)
  {
  }

  /** If every bucket of the range was computed from the current ledger, reconciliation finds no differing
      metric in any week, the partial first and last ones included. */
  lemma AgreeingHoursReconcile(l: Ledger, h: Hourly, start: int, end: int)
    requires forall m :: HourlyAgrees(l, h, m, start, end)
    ensures forall k :: Expected(l, k, start, end) == Actual(h, k, start, end)
    ensures Exact(l, h, start, end) <==>
      forall k | k in ReconciliationKeys(l, h, start, end) :: RateHasDenominator(h, k, start, end)
  {
    forall k ensures Expected(l, k, start, end) == Actual(h, k, start, end) {
      var e, a := Expected(l, k, start, end), Actual(h, k, start, end);
      forall m ensures e.Get(m) == a.Get(m) {
        SumOfHoursIsDirect(l, h, m, start, end, k.dim, From(k.week, start), Until(k.week, end));
      }
      TotalsAreTheirMetrics(e, a);
    }
  }

  // ---------------------------------------------------------------- the key set leaves nothing out

  lemma {:induction false} SumHasABucket(h: Hourly, d: Dim, m: Metric, lo: int, hi: int)
    ensures SumBuckets(h, d, m, lo, hi) > 0 ==> exists hour :: lo <= hour < hi && Key(hour, d) in h
    decreases hi - lo
  {
    if lo < hi && SumBuckets(h, d, m, lo, hi) > 0 {
      SumHasABucket(h, d, m, lo, hi - 1);
      if Key(hi - 1, d) !in h {
        var hour :| lo <= hour < hi - 1 && Key(hour, d) in h;
        assert lo <= hour < hi;
      }
    }
  }

  lemma FactHasKey(l: Ledger, h: Hourly, m: Metric, i: nat, start: int, end: int)
    requires i < |FactsOf(l, m)| && FactsOf(l, m)[i].amount > 0 && start <= FactsOf(l, m)[i].hour < end
    ensures WeekKey(WeekOf(FactsOf(l, m)[i].hour), FactsOf(l, m)[i].dim) in ReconciliationKeys(l, h, start, end)
  {
  }

  /** A group that occurs on neither side is zero on both. */
  lemma AbsentGroupIsZero(l: Ledger, h: Hourly, k: WeekKey, start: int, end: int, m: Metric)
    requires k !in ReconciliationKeys(l, h, start, end)
    ensures Expected(l, k, start, end).Get(m) == 0 == Actual(h, k, start, end).Get(m)
  {
    var lo, hi := From(k.week, start), Until(k.week, end);
    var fs := FactsOf(l, m);
    TallyHasARow(fs, k.dim, lo, hi);
    if Tally(fs, k.dim, lo, hi) > 0 {
      var i :| 0 <= i < |fs| && Counts(fs[i], k.dim, lo, hi) && fs[i].amount > 0;
      WeekBounds(fs[i].hour, k.week);
      FactHasKey(l, h, m, i, start, end);
    }
    SumHasABucket(h, k.dim, m, lo, hi);
    if SumBuckets(h, k.dim, m, lo, hi) > 0 {
      var hour :| lo <= hour < hi && Key(hour, k.dim) in h;
      WeekBounds(hour, k.week);
    }
  }

  /** The reconciliation is exact precisely when every week and dimension matches, listed or not. */
  lemma ExactMeansEveryGroupMatches(l: Ledger, h: Hourly, start: int, end: int)
    ensures Exact(l, h, start, end) <==> forall k :: Matches(l, h, k, start, end)
  {
    if Exact(l, h, start, end) {
      forall k ensures Matches(l, h, k, start, end) {
        if k !in ReconciliationKeys(l, h, start, end) {
          forall m ensures Expected(l, k, start, end).Get(m) == 0 == Actual(h, k, start, end).Get(m) {
            AbsentGroupIsZero(l, h, k, start, end, m);
          }
          TotalsAreTheirMetrics(Expected(l, k, start, end), Actual(h, k, start, end));
          assert Actual(h, k, start, end).Get(Discrepancies) == 0;
        }
      }
    }
  }

  // ---------------------------------------------------------------- bounds and sums

  lemma BoundsOf(h: Hourly, cutoff: int, pruned: Option<Instant>, first: Key, last: Key)
    requires first in h && last in h
    requires forall k | k in h :: h[k].cutoff <= cutoff && first.hour <= k.hour <= last.hour
    ensures Bounds(h, cutoff, pruned) == BoundsFrom(first.hour, last.hour, cutoff, pruned)
  {
    var visible := Visible(h, cutoff);
    assert first in visible && last in visible;
    var hours := Hours(visible);
    assert first.hour in hours && last.hour in hours;
  }

  lemma {:induction false} SumBucketsSplits(h: Hourly, d: Dim, m: Metric, lo: int, mid: int, hi: int)
    requires lo <= mid <= hi
    ensures SumBuckets(h, d, m, lo, hi) == SumBuckets(h, d, m, lo, mid) + SumBuckets(h, d, m, mid, hi)
    decreases hi - mid
  {
    if mid < hi {
      SumBucketsSplits(h, d, m, lo, mid, hi - 1);
    }
  }
}
