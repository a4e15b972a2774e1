/** Activation after a ledger reset: the hourly buckets of before the reset stay within the reconciliation bounds,
    while their source rows are gone or have been replaced. */
module LedgerReset {
  import opened Wrappers
  import opened Instants
  import Q = ReportingQueue
  import L = Ledger
  import R = Rollups
  import A = RollupAgreement
  import P = Publication
  import G = GaplessWindows
  import opened LiveLedger
  import opened LateRows

  /** Week by week and group by group, the buckets of [start, end) add up to the ledger. */
  ghost predicate Reproduced(l: L.Ledger, h: R.Hourly, start: int, end: int) {
    forall k :: R.Expected(l, k, start, end) == R.Actual(h, k, start, end)
  }

  ghost predicate RatesDefined(h: R.Hourly, start: int, end: int) {
    forall k :: R.RateHasDenominator(h, k, start, end)
  }

  // ---------------------------------------------------------------- splitting the bounds

  /** What the two sides of one group differ by. */
  function Drift(l: L.Ledger, h: R.Hourly, m: L.Metric, d: L.Dim, lo: int, hi: int): int {
    L.Tally(L.FactsOf(l, m), d, lo, hi) - R.SumBuckets(h, d, m, lo, hi)
  }

  lemma DriftEndsWhereHoursAgree(l: L.Ledger, h: R.Hourly, m: L.Metric, d: L.Dim, lo: int, mid: int, hi: int)
    requires A.HourlyAgrees(l, h, m, mid, hi)
    ensures lo <= mid <= hi ==> Drift(l, h, m, d, lo, hi) == Drift(l, h, m, d, lo, mid)
    ensures mid <= lo ==> Drift(l, h, m, d, lo, hi) == 0
  {
    if lo <= mid <= hi {
      L.TallySplits(L.FactsOf(l, m), d, lo, mid, hi);
      A.SumBucketsSplits(h, d, m, lo, mid, hi);
      A.SumOfHoursIsDirect(l, h, m, mid, hi, d, mid, hi);
    }
    if mid <= lo {
      A.SumOfHoursIsDirect(l, h, m, mid, hi, d, lo, hi);
    }
  }

  lemma NoDriftOverNoHours(l: L.Ledger, h: R.Hourly, m: L.Metric, d: L.Dim, lo: int, hi: int)
    requires hi <= lo
    ensures Drift(l, h, m, d, lo, hi) == 0
  {
    L.TallyEmptyRange(L.FactsOf(l, m), d, lo, hi);
  }

  lemma AgreesWithin(l: L.Ledger, h: R.Hourly, m: L.Metric, start: int, end: int, hi: int)
    requires A.HourlyAgrees(l, h, m, start, end) && hi <= end
    ensures A.HourlyAgrees(l, h, m, start, hi)
  {
  }

  lemma DriftOfWeek(l: L.Ledger, h: R.Hourly, m: L.Metric, d: L.Dim, lo: int, mid: int, end: int, sunday: int)
    requires mid <= end && A.HourlyAgrees(l, h, m, mid, end)
    ensures Drift(l, h, m, d, lo, Min(end, sunday)) == Drift(l, h, m, d, lo, Min(mid, sunday))
  {
    var hi, cut := Min(end, sunday), Min(mid, sunday);
    AgreesWithin(l, h, m, mid, end, hi);
    DriftEndsWhereHoursAgree(l, h, m, d, lo, mid, hi);
    if cut <= lo {
      NoDriftOverNoHours(l, h, m, d, lo, cut);
    }
    if hi <= lo {
      NoDriftOverNoHours(l, h, m, d, lo, hi);
    }
  }

  lemma GroupDrift(l: L.Ledger, h: R.Hourly, k: R.WeekKey, m: L.Metric, start: int, end: int)
    ensures R.Expected(l, k, start, end).Get(m) - R.Actual(h, k, start, end).Get(m) ==
            Drift(l, h, m, k.dim, R.From(k.week, start), R.Until(k.week, end))
  {
  }

  lemma GroupSplits(l: L.Ledger, h: R.Hourly, k: R.WeekKey, start: int, mid: int, end: int)
    requires start <= mid <= end && forall m :: A.HourlyAgrees(l, h, m, mid, end)
    ensures R.Expected(l, k, start, end) == R.Actual(h, k, start, end) <==>
            R.Expected(l, k, start, mid) == R.Actual(h, k, start, mid)
  {
    forall m ensures R.Expected(l, k, start, end).Get(m) == R.Actual(h, k, start, end).Get(m) <==>
                     R.Expected(l, k, start, mid).Get(m) == R.Actual(h, k, start, mid).Get(m)
    {
      GroupDrift(l, h, k, m, start, end);
      GroupDrift(l, h, k, m, start, mid);
      DriftOfWeek(l, h, m, k.dim, R.From(k.week, start), mid, end, WeekStart(k.week + 1));
    }
    A.TotalsAreTheirMetrics(R.Expected(l, k, start, end), R.Actual(h, k, start, end));
    A.TotalsAreTheirMetrics(R.Expected(l, k, start, mid), R.Actual(h, k, start, mid));
  }

  /** When the later hours agree one by one, reconciliation is a matter of the earlier ones and of the rates. */
  lemma ExactSplits(l: L.Ledger, h: R.Hourly, start: int, mid: int, end: int)
    requires start <= mid <= end && forall m :: A.HourlyAgrees(l, h, m, mid, end)
    ensures R.Exact(l, h, start, end) <==> Reproduced(l, h, start, mid) && RatesDefined(h, start, end)
  {
    A.ExactMeansEveryGroupMatches(l, h, start, end);
    forall k ensures R.Expected(l, k, start, end) == R.Actual(h, k, start, end) <==>
                     R.Expected(l, k, start, mid) == R.Actual(h, k, start, mid)
    {
      GroupSplits(l, h, k, start, mid, end);
    }
    if R.Exact(l, h, start, end) {
      forall k ensures R.RateHasDenominator(h, k, start, end) && R.Expected(l, k, start, mid) == R.Actual(h, k, start, mid) {
        assert R.Matches(l, h, k, start, end);
      }
    }
    if Reproduced(l, h, start, mid) && RatesDefined(h, start, end) {
      forall k ensures R.Matches(l, h, k, start, end) {
        assert R.RateHasDenominator(h, k, start, end);
      }
    }
  }

  // ---------------------------------------------------------------- buckets that a publication leaves alone

  ghost predicate SameRange(h: R.Hourly, p: R.Hourly, start: int, end: int) {
    forall hour | start <= hour < end :: SameHourly(h, p, hour)
  }

  lemma {:induction false} SameSums(h: R.Hourly, p: R.Hourly, d: L.Dim, m: L.Metric, start: int, end: int, lo: int, hi: int)
    requires SameRange(h, p, start, end) && start <= lo && hi <= end
    ensures R.SumBuckets(h, d, m, lo, hi) == R.SumBuckets(p, d, m, lo, hi)
    decreases hi - lo
  {
    if lo < hi {
      SameSums(h, p, d, m, start, end, lo, hi - 1);
      assert SameHourly(h, p, hi - 1);
    }
  }

  lemma SameActual(h: R.Hourly, p: R.Hourly, k: R.WeekKey, start: int, end: int)
    requires SameRange(h, p, start, end)
    ensures R.Actual(h, k, start, end) == R.Actual(p, k, start, end)
  {
    forall m ensures R.Actual(h, k, start, end).Get(m) == R.Actual(p, k, start, end).Get(m) {
      SameSums(h, p, k.dim, m, start, end, R.From(k.week, start), R.Until(k.week, end));
    }
    A.TotalsAreTheirMetrics(R.Actual(h, k, start, end), R.Actual(p, k, start, end));
  }

  lemma SameReproduction(l: L.Ledger, h: R.Hourly, p: R.Hourly, start: int, end: int)
    requires SameRange(h, p, start, end)
    ensures Reproduced(l, h, start, end) <==> Reproduced(l, p, start, end)
  {
    forall k ensures R.Actual(h, k, start, end) == R.Actual(p, k, start, end) {
      SameActual(h, p, k, start, end);
    }
  }

  ghost predicate Misses(window: R.Window, start: int, end: int) {
    forall hour | start <= hour < end :: !G.Holds(window, hour)
  }

  lemma PublicationMisses(h: R.Hourly, source: L.Ledger, window: R.Window, start: int, end: int)
    requires Misses(window, start, end)
    ensures SameRange(h, R.Upsert(h, P.RowsOf(window, source), window.cutoff), start, end)
  {
    forall hour | start <= hour < end ensures SameHourly(h, R.Upsert(h, P.RowsOf(window, source), window.cutoff), hour) {
      UpsertMisses(h, source, window, hour);
    }
  }

  // ---------------------------------------------------------------- the activation

  /** If the hours from `mid` on are published and up to date and the window misses those before, the owner's
      activation succeeds exactly when the buckets of before `mid` add up to the ledger and every rate is defined. */
  lemma SplitActivation(cfg: Q.Config, s: Live, c: Q.Claim, version: int, pruned: Option<Instant>, now: Instant,
                        start: int, mid: int, end: int)
    requires Inv(cfg, s) && c in s.drafts && c in s.world.windows && Q.Owns(s.world.queue, c)
    requires R.Bounds(CandidateOf(s, c, version).hourly, s.world.windows[c].cutoff, pruned) == Ok((start, end))
    requires start <= mid <= end && Misses(s.world.windows[c], start, mid)
    requires AllCovered(s, c, mid, end) && UpToDate(s, c, mid, end)
    ensures R.Activate(s.ledger, pruned, s.world.tables, s.world.windows[c],
                       Some(P.RowsOf(s.world.windows[c], s.drafts[c].source)), version, now).Ok? <==>
            Reproduced(s.ledger, s.world.tables.hourly, start, mid) && RatesDefined(CandidateOf(s, c, version).hourly, start, end)
  {
    var h := CandidateOf(s, c, version).hourly;
    forall m ensures A.HourlyAgrees(s.ledger, h, m, mid, end) {
      CandidateAgrees(cfg, s, c, version, mid, end, m);
    }
    ExactSplits(s.ledger, h, start, mid, end);
    PublicationMisses(s.world.tables.hourly, s.drafts[c].source, s.world.windows[c], start, mid);
    SameReproduction(s.ledger, s.world.tables.hourly, h, start, mid);
    OwnerIsStoppedOnlyByReconciliation(cfg, s, c, version, pruned, now, start, end);
  }

  /** Where the hours that a run captured after the last reset may cover begin within the bounds. */
  function Boundary(reset: Instant, start: int, end: int): int {
    Min(Max(start, HourOf(reset)), end)
  }

  /** In every reachable state after a reset, with the hours since the reset published and up to date: the owner's
      activation succeeds exactly when the buckets left from before the reset, as far as they lie within the bounds,
      add up week by week to what the ledger now holds for those hours, and every rate is defined. */
  lemma ActivationAfterReset(cfg: Q.Config, l: L.Ledger, history: seq<Event>, s: Live, c: Q.Claim, version: int,
                             pruned: Option<Instant>, now: Instant, reset: Instant, start: int, end: int)
    requires L.WellFormed(l) && After(cfg, l, history) == Some(s) && s.world.queue.lastReset == Some(reset)
    requires c in s.drafts && c in s.world.windows && Q.Owns(s.world.queue, c) && HourOf(reset) <= s.world.windows[c].start
    requires R.Bounds(CandidateOf(s, c, version).hourly, s.world.windows[c].cutoff, pruned) == Ok((start, end))
    requires AllCovered(s, c, Boundary(reset, start, end), end) && UpToDate(s, c, Boundary(reset, start, end), end)
    ensures R.Activate(s.ledger, pruned, s.world.tables, s.world.windows[c],
                       Some(P.RowsOf(s.world.windows[c], s.drafts[c].source)), version, now).Ok? <==>
            && Reproduced(s.ledger, s.world.tables.hourly, start, Boundary(reset, start, end))
            && RatesDefined(CandidateOf(s, c, version).hourly, start, end)
  {
    ReachableInv(cfg, l, history);
    BoundsAreOrdered(CandidateOf(s, c, version).hourly, s.world.windows[c].cutoff, pruned, start, end);
    SplitActivation(cfg, s, c, version, pruned, now, start, Boundary(reset, start, end), end);
  }

  lemma BoundsAreOrdered(h: R.Hourly, cutoff: int, pruned: Option<Instant>, start: int, end: int)
    requires R.Bounds(h, cutoff, pruned) == Ok((start, end))
    ensures start < end
  {
  }

  // ---------------------------------------------------------------- a ledger with nothing before the reset

  /** No row is dated in the range. */
  ghost predicate NoRows(l: L.Ledger, start: int, end: int) {
    forall m, i | 0 <= i < |L.FactsOf(l, m)| :: !(start <= L.FactsOf(l, m)[i].hour < end)
  }

  /** Every bucket of the range is zero. */
  ghost predicate AllZero(h: R.Hourly, start: int, end: int) {
    forall k, m | k in h && start <= k.hour < end :: h[k].totals.Get(m) == 0
  }

  lemma NoRowsNoTally(l: L.Ledger, m: L.Metric, d: L.Dim, start: int, end: int, lo: int, hi: int)
    requires NoRows(l, start, end) && start <= lo && hi <= end
    ensures L.Tally(L.FactsOf(l, m), d, lo, hi) == 0
  {
    L.TallyHasARow(L.FactsOf(l, m), d, lo, hi);
  }

  lemma {:induction false} SumOfZeros(h: R.Hourly, d: L.Dim, m: L.Metric, lo: int, hi: int)
    ensures R.SumBuckets(h, d, m, lo, hi) == 0 <==> forall hour | lo <= hour < hi :: R.BucketValue(h, R.Key(hour, d), m) == 0
    decreases hi - lo
  {
    if lo < hi {
      SumOfZeros(h, d, m, lo, hi - 1);
      assert R.SumBuckets(h, d, m, lo, hi) == R.SumBuckets(h, d, m, lo, hi - 1) + R.BucketValue(h, R.Key(hi - 1, d), m);
    }
  }

  /** Where the ledger has no rows, the buckets add up to it exactly when all of them are zero. */
  lemma EmptyRangeNeedsZeroBuckets(l: L.Ledger, h: R.Hourly, start: int, end: int)
    requires NoRows(l, start, end)
    ensures Reproduced(l, h, start, end) <==> AllZero(h, start, end)
  {
    if AllZero(h, start, end) {
      forall k ensures R.Expected(l, k, start, end) == R.Actual(h, k, start, end) {
        ZeroGroup(l, h, k, start, end);
      }
    }
    if Reproduced(l, h, start, end) {
      forall k, m | k in h && start <= k.hour < end ensures h[k].totals.Get(m) == 0 {
        ZeroBucket(l, h, k, m, start, end);
      }
    }
  }

  lemma ZeroGroup(l: L.Ledger, h: R.Hourly, k: R.WeekKey, start: int, end: int)
    requires NoRows(l, start, end) && AllZero(h, start, end)
    ensures R.Expected(l, k, start, end) == R.Actual(h, k, start, end)
  {
    var lo, hi := R.From(k.week, start), R.Until(k.week, end);
    forall m ensures R.Expected(l, k, start, end).Get(m) == R.Actual(h, k, start, end).Get(m) {
      NoRowsNoTally(l, m, k.dim, start, end, lo, hi);
      SumOfZeros(h, k.dim, m, lo, hi);
    }
    A.TotalsAreTheirMetrics(R.Expected(l, k, start, end), R.Actual(h, k, start, end));
  }

  lemma ZeroBucket(l: L.Ledger, h: R.Hourly, k: R.Key, m: L.Metric, start: int, end: int)
    requires NoRows(l, start, end) && Reproduced(l, h, start, end) && k in h && start <= k.hour < end
    ensures h[k].totals.Get(m) == 0
  {
    var group := R.WeekKey(WeekOf(k.hour), k.dim);
    var lo, hi := R.From(group.week, start), R.Until(group.week, end);
    WeekBounds(k.hour, group.week);
    NoRowsNoTally(l, m, k.dim, start, end, lo, hi);
    SumOfZeros(h, k.dim, m, lo, hi);
    assert R.Expected(l, group, start, end).Get(m) == R.Actual(h, group, start, end).Get(m);
    assert R.BucketValue(h, R.Key(k.hour, k.dim), m) == 0;
  }

  // ---------------------------------------------------------------- and it stays that way

  ghost predicate AllOutOfReach(w: P.World, start: int, end: int) {
    forall hour | start <= hour < end :: OutOfReach(w, hour)
  }

  ghost predicate SparesAll(w: P.World, later: seq<Event>, start: int, end: int) {
    forall hour, e | start <= hour < end && e in later :: Spares(w, e, hour)
  }

  /** Buckets of hours out of reach that do not add up to the ledger block every activation whose bounds begin with
      them, in every later history that leaves their rows alone, for as long as the hours after them are up to date. */
  lemma OldBucketsBlockForGood(cfg: Q.Config, l: L.Ledger, history: seq<Event>, s: Live, later: seq<Event>, t: Live,
                               c: Q.Claim, version: int, pruned: Option<Instant>, now: Instant, start: int, mid: int, end: int)
    requires L.WellFormed(l) && After(cfg, l, history) == Some(s) && After(cfg, l, history + later) == Some(t)
    requires AllOutOfReach(s.world, start, mid) && SparesAll(s.world, later, start, mid)
    requires !Reproduced(s.ledger, s.world.tables.hourly, start, mid)
    requires c in t.drafts && c in t.world.windows && Q.Owns(t.world.queue, c)
    requires R.Bounds(CandidateOf(t, c, version).hourly, t.world.windows[c].cutoff, pruned) == Ok((start, end))
    requires start <= mid <= end && AllCovered(t, c, mid, end) && UpToDate(t, c, mid, end)
    ensures R.Activate(t.ledger, pruned, t.world.tables, t.world.windows[c],
                       Some(P.RowsOf(t.world.windows[c], t.drafts[c].source)), version, now).Err?
  {
    ReachableInv(cfg, l, history + later);
    forall hour | start <= hour < mid ensures LeftAlone(s, t, hour) {
      OutOfReachForever(cfg, l, history, s, later, hour);
    }
    LeftAloneReproduction(s, t, start, mid);
    forall hour | start <= hour < mid ensures !G.Holds(t.world.windows[c], hour) {
      assert LeftAlone(s, t, hour);
    }
    SplitActivation(cfg, t, c, version, pruned, now, start, mid, end);
  }

  lemma {:induction false} SameTally(a: L.Ledger, b: L.Ledger, m: L.Metric, d: L.Dim, start: int, end: int, lo: int, hi: int)
    requires (forall hour | start <= hour < end :: SameHour(a, b, m, hour)) && start <= lo && hi <= end
    ensures L.Tally(L.FactsOf(a, m), d, lo, hi) == L.Tally(L.FactsOf(b, m), d, lo, hi)
    decreases hi - lo
  {
    if hi <= lo {
      L.TallyEmptyRange(L.FactsOf(a, m), d, lo, hi);
      L.TallyEmptyRange(L.FactsOf(b, m), d, lo, hi);
    } else {
      SameTally(a, b, m, d, start, end, lo, hi - 1);
      L.TallySplits(L.FactsOf(a, m), d, lo, hi - 1, hi);
      L.TallySplits(L.FactsOf(b, m), d, lo, hi - 1, hi);
      assert SameHour(a, b, m, hi - 1);
      assert HourTally(a, m, d, hi - 1) == HourTally(b, m, d, hi - 1);
    }
  }

  lemma SameExpected(a: L.Ledger, b: L.Ledger, k: R.WeekKey, start: int, end: int)
    requires forall hour | start <= hour < end :: SameTallies(a, b, hour)
    ensures R.Expected(a, k, start, end) == R.Expected(b, k, start, end)
  {
    forall m ensures R.Expected(a, k, start, end).Get(m) == R.Expected(b, k, start, end).Get(m) {
      forall hour | start <= hour < end ensures SameHour(a, b, m, hour) {
        assert SameTallies(a, b, hour);
      }
      SameTally(a, b, m, k.dim, start, end, R.From(k.week, start), R.Until(k.week, end));
    }
    A.TotalsAreTheirMetrics(R.Expected(a, k, start, end), R.Expected(b, k, start, end));
  }

  lemma LeftAloneReproduction(s: Live, t: Live, start: int, end: int)
    requires forall hour | start <= hour < end :: LeftAlone(s, t, hour)
    ensures Reproduced(s.ledger, s.world.tables.hourly, start, end) <==> Reproduced(t.ledger, t.world.tables.hourly, start, end)
  {
    forall hour | start <= hour < end
      ensures SameTallies(s.ledger, t.ledger, hour) && SameHourly(s.world.tables.hourly, t.world.tables.hourly, hour)
    {
      assert LeftAlone(s, t, hour);
    }
    forall k ensures R.Expected(s.ledger, k, start, end) == R.Expected(t.ledger, k, start, end) {
      SameExpected(s.ledger, t.ledger, k, start, end);
    }
    SameReproduction(t.ledger, s.world.tables.hourly, t.world.tables.hourly, start, end);
  }
}
