/** Which hours an activation reconciles and which weeks it rewrites, said without the code's own arithmetic. */
module VerifiedRange {
  import opened Wrappers
  import opened Instants
  import opened Sorting
  import opened WeeklyKpis
  import opened Rollups

  // ---------------------------------------------------------------- hours

  /** Some bucket of the hour was computed at or before the cutoff. */
  ghost predicate Seen(h: Hourly, cutoff: int, hour: int) {
    exists k | k in h :: k.hour == hour && h[k].cutoff <= cutoff
  }

  /** The hour starts at or after the retention checkpoint, so its source rows are all still there. */
  predicate Sourced(pruned: Option<Instant>, hour: int) {
    pruned.Some? ==> pruned.value <= 3_600_000_000 * hour
  }

  /** Between the first and the last hour seen, completed, and still sourced. */
  ghost predicate Reconcilable(h: Hourly, cutoff: int, pruned: Option<Instant>, hour: int) {
    && (exists first | first <= hour :: Seen(h, cutoff, first))
    && (exists last | hour <= last :: Seen(h, cutoff, last))
    && hour < cutoff && Sourced(pruned, hour)
  }

  lemma SeenHours(h: Hourly, cutoff: int)
    ensures forall hour :: hour in Hours(Visible(h, cutoff)) <==> Seen(h, cutoff, hour)
  {
    forall hour ensures hour in Hours(Visible(h, cutoff)) <==> Seen(h, cutoff, hour) {
      if Seen(h, cutoff, hour) {
        var k :| k in h && k.hour == hour && h[k].cutoff <= cutoff;
        assert k in Visible(h, cutoff);
      }
    }
  }

  lemma SourcedFromTheCeiling(pruned: Instant, hour: int)
    ensures Sourced(Some(pruned), hour) <==> CeilHour(pruned) <= hour
  {
  }

  lemma BetweenSeen(h: Hourly, cutoff: int, first: int, last: int, hour: int)
    requires Seen(h, cutoff, first) && Seen(h, cutoff, last)
    requires forall other | Seen(h, cutoff, other) :: first <= other <= last
    ensures (exists a | a <= hour :: Seen(h, cutoff, a)) <==> first <= hour
    ensures (exists b | hour <= b :: Seen(h, cutoff, b)) <==> hour <= last
  {
  }

  lemma FirstAndLast(h: Hourly, cutoff: int) returns (first: int, last: int)
    requires Hours(Visible(h, cutoff)) != {}
    ensures first == Least(Hours(Visible(h, cutoff)), Early) && last == Least(Hours(Visible(h, cutoff)), Late)
    ensures Seen(h, cutoff, first) && Seen(h, cutoff, last)
    ensures forall other | Seen(h, cutoff, other) :: first <= other <= last
  {
    var hours := Hours(Visible(h, cutoff));
    SeenHours(h, cutoff);
    first, last := Least(hours, Early), Least(hours, Late);
    forall other | Seen(h, cutoff, other) ensures first <= other <= last {
      assert other in hours;
      assert Early(first) <= Early(other) && Late(last) <= Late(other);
    }
  }

  /** The bounds are exactly the reconcilable hours; there are none exactly when no hour is, and then because no
      bucket was seen or because none of the hours is both completed and sourced. */
  lemma BoundsAreTheReconcilableHours(h: Hourly, cutoff: int, pruned: Option<Instant>)
    ensures var r := Bounds(h, cutoff, pruned);
      && (r.Ok? ==> forall hour :: Reconcilable(h, cutoff, pruned, hour) <==> r.value.0 <= hour < r.value.1)
      && (r.Ok? ==> r.value.0 < r.value.1 <= cutoff)
      && (r.Err? <==> forall hour :: !Reconcilable(h, cutoff, pruned, hour))
      && (r.Err? ==> r.error == if exists hour :: Seen(h, cutoff, hour) then NoVerifiableWindow else NoRollups)
  {
    var hours := Hours(Visible(h, cutoff));
    SeenHours(h, cutoff);
    if hours == {} {
      NothingSeen(h, cutoff, pruned);
    } else {
      var first, last := FirstAndLast(h, cutoff);
      forall hour ensures Reconcilable(h, cutoff, pruned, hour) <==>
        Start(first, pruned) <= hour < Min(last + 1, cutoff)
      {
        BetweenSeen(h, cutoff, first, last, hour);
        if pruned.Some? {
          SourcedFromTheCeiling(pruned.value, hour);
        }
      }
      assert Bounds(h, cutoff, pruned) == BoundsFrom(first, last, cutoff, pruned);
      if Start(first, pruned) < Min(last + 1, cutoff) {
        assert Reconcilable(h, cutoff, pruned, Start(first, pruned));
      }
    }
  }

  function Start(first: int, pruned: Option<Instant>): int {
    if pruned.Some? then Max(first, CeilHour(pruned.value)) else first
  }

  lemma NothingSeen(h: Hourly, cutoff: int, pruned: Option<Instant>)
    requires forall hour :: !Seen(h, cutoff, hour)
    ensures forall hour :: !Reconcilable(h, cutoff, pruned, hour)
  {
  }

  // ---------------------------------------------------------------- weeks

  /** All hours of the week lie in [start, end). */
  predicate WholeWeek(week: int, start: int, end: int) {
    start <= WeekStart(week) && WeekStart(week + 1) <= end
  }

  /** Every hour of the week is reconcilable. */
  ghost predicate Verified(h: Hourly, cutoff: int, pruned: Option<Instant>, week: int) {
    forall hour :: WeekOf(hour) == week ==> Reconcilable(h, cutoff, pruned, hour)
  }

  lemma VerifiedIsWhole(h: Hourly, cutoff: int, pruned: Option<Instant>, week: int)
    requires Bounds(h, cutoff, pruned).Ok?
    ensures var (start, end) := Bounds(h, cutoff, pruned).value;
      Verified(h, cutoff, pruned, week) <==> WholeWeek(week, start, end)
  {
    var (start, end) := Bounds(h, cutoff, pruned).value;
    BoundsAreTheReconcilableHours(h, cutoff, pruned);
    if Verified(h, cutoff, pruned, week) {
      assert WeekOf(WeekStart(week)) == week && WeekOf(WeekStart(week + 1) - 1) == week;
    } else {
      var hour :| WeekOf(hour) == week && !Reconcilable(h, cutoff, pruned, hour);
      WeekBounds(hour, week);
    }
  }

  /** The code's week range is the whole weeks of the bounds. */
  lemma WeekRangeIsWhole(start: int, end: int, cutoff: int, week: int)
    requires end <= cutoff
    ensures FirstWeek(start) <= week < CurrentWeek(cutoff, end) <==> WholeWeek(week, start, end)
  {
  }

  /** Day numbers of the Mondays of the whole weeks of [start, end). */
  function WholeMondays(start: int, end: int): set<int> {
    set day | (start - 24) / 24 <= day <= end / 24 && IsMonday(day) && start <= 24 * day && 24 * (day + 7) <= end
  }

  lemma WholeMondaysAreTheirWeeks(start: int, end: int)
    ensures forall day | day in WholeMondays(start, end) :: IsMonday(day)
    ensures forall week :: week in RecomputableWeeks(WholeMondays(start, end), None) <==> WholeWeek(week, start, end)
  {
    forall week ensures week in RecomputableWeeks(WholeMondays(start, end), None) <==> WholeWeek(week, start, end) {
      if WholeWeek(week, start, end) {
        assert 4 + 7 * week in WholeMondays(start, end) && (4 + 7 * week - 4) / 7 == week;
      }
    }
  }
}
