/** The synthetic ledger backfill: whatever the random draws, stock is never negative at any instant. */
module Backfill {
  import opened Instants
  import Ledger

  datatype Place = Place(sku: nat, warehouse: Ledger.Warehouse)

  datatype Movement =
    | Receipt(place: Place, quantity: nat, at: Instant)
    | Departure(place: Place, quantity: nat, loss: bool, at: Instant)

  function Change(m: Movement): int {
    match m
    case Receipt(_, quantity, _) => quantity
    case Departure(_, quantity, _, _) => 0 - (quantity as int)
  }

  /** Stock of one place at an instant: everything dated up to then, in whatever order it was written. */
  function StockAt(ms: seq<Movement>, p: Place, t: Instant): int {
    if ms == [] then 0
    else
      var last := ms[|ms| - 1];
      StockAt(ms[..|ms| - 1], p, t) + if last.place == p && last.at <= t then Change(last) else 0
  }

  /** What the materialized balance is rebuilt to. */
  function Net(ms: seq<Movement>, p: Place): int {
    if ms == [] then 0
    else Net(ms[..|ms| - 1], p) + if ms[|ms| - 1].place == p then Change(ms[|ms| - 1]) else 0
  }

  ghost predicate NeverNegative(ms: seq<Movement>, p: Place) {
    forall t: Instant :: StockAt(ms, p, t) >= 0
  }

  /** Stock is never negative, and from `noon` on it is at least the running balance. */
  ghost predicate Covered(ms: seq<Movement>, p: Place, balance: int, noon: Instant) {
    && balance >= 0 && balance == Net(ms, p) && NeverNegative(ms, p)
    && forall t: Instant :: noon <= t ==> StockAt(ms, p, t) >= balance
  }

  ghost predicate SameElsewhere(ms: seq<Movement>, later: seq<Movement>, p: Place) {
    && (forall q, t :: q != p ==> StockAt(later, q, t) == StockAt(ms, q, t))
    && (forall q :: q != p ==> Net(later, q) == Net(ms, q))
  }

  lemma AppendElsewhere(ms: seq<Movement>, m: Movement)
    ensures SameElsewhere(ms, ms + [m], m.place)
  {
  }

  lemma ReceiptKeepsCover(ms: seq<Movement>, m: Movement, balance: int, noon: Instant)
    requires Covered(ms, m.place, balance, noon) && m.Receipt? && m.at <= noon
    ensures Covered(ms + [m], m.place, balance + m.quantity, noon)
  {
  }

  /** A departure after noon of no more than the balance is covered at every instant, earlier and later ones of
      the same day included. */
  lemma DepartureKeepsCover(ms: seq<Movement>, m: Movement, balance: int, noon: Instant)
    requires Covered(ms, m.place, balance, noon) && m.Departure? && noon <= m.at && m.quantity <= balance
    ensures Covered(ms + [m], m.place, balance - m.quantity, noon)
  {
  }

  lemma SameElsewhereTwice(a: seq<Movement>, b: seq<Movement>, c: seq<Movement>, p: Place)
    requires SameElsewhere(a, b, p) && SameElsewhere(b, c, p)
    ensures SameElsewhere(a, c, p)
  {
  }

  /** `day.replace(hour=h)`: the same minute, second and fraction on the hour `h` of the day. */
  function AtHour(day: int, h: int, now: Instant): Instant {
    86_400_000_000 * day + 3_600_000_000 * h + now % 3_600_000_000
  }

  /** A morning receipt of twenty to sixty units. */
  predicate IsReceipt(m: Movement, p: Place, day: int, now: Instant) {
    m.Receipt? && m.place == p && 20 <= m.quantity <= 60 && Between(m.at, day, 6, 10, now)
  }

  /** In one of these hours of the day, as far into the hour as now. */
  predicate Between(at: Instant, day: int, first: int, last: int, now: Instant) {
    24 * day + first <= HourOf(at) <= 24 * day + last && at - HourOf(at) * HOUR == now - HourOf(now) * HOUR
  }

  lemma AtHourIsBetween(day: int, h: int, now: Instant)
    ensures HourOf(AtHour(day, h, now)) == 24 * day + h && Between(AtHour(day, h, now), day, h, h, now)
  {
  }

  /** A non-empty departure in the afternoon or evening. */
  predicate IsDeparture(m: Movement, p: Place, day: int, now: Instant) {
    m.Departure? && m.place == p && m.quantity >= 1 && Between(m.at, day, 11, 20, now)
  }

  /** Entries `k` on are one day of one place: a receipt, then one to three departures. */
  predicate IsDayOf(ms: seq<Movement>, k: nat, n: nat, p: Place, day: int, now: Instant) {
    && 2 <= n <= 4 && k + n <= |ms| && IsReceipt(ms[k], p, day, now)
    && forall i :: k < i < k + n ==> IsDeparture(ms[i], p, day, now)
  }

  /** Each departure takes at most half of what is there, and at least one unit. */
  predicate TakesHalf(ms: seq<Movement>, k: nat) {
    forall i :: k < i < |ms| && ms[i].Departure? ==> 2 * ms[i].quantity <= Max(2, Net(ms[..i], ms[i].place))
  }

  lemma OneMoreDeparture(ms: seq<Movement>, k: nat, m: Movement)
    requires TakesHalf(ms, k) && m.Departure? && 2 * m.quantity <= Max(2, Net(ms, m.place))
    ensures TakesHalf(ms + [m], k)
  {
    var later := ms + [m];
    forall i | k < i < |later| && later[i].Departure? ensures 2 * later[i].quantity <= Max(2, Net(later[..i], later[i].place)) {
      assert later[..i] == ms[..i];
      assert i == |ms| ==> ms[..i] == ms;
    }
  }

  /** A receipt and the departures so far. */
  predicate DayBegun(ms: seq<Movement>, k: nat, p: Place, day: int, now: Instant) {
    && k < |ms| && IsReceipt(ms[k], p, day, now)
    && forall i :: k < i < |ms| ==> IsDeparture(ms[i], p, day, now)
  }

  lemma DayGoesOn(ms: seq<Movement>, k: nat, m: Movement, p: Place, day: int, now: Instant)
    requires DayBegun(ms, k, p, day, now) && IsDeparture(m, p, day, now)
    ensures DayBegun(ms + [m], k, p, day, now)
  {
  }

  /** What one more departure keeps. */
  lemma Depart(ms: seq<Movement>, later: seq<Movement>, m: Movement, left: int, noon: Instant)
    requires Covered(later, m.place, left, noon) && SameElsewhere(ms, later, m.place) && TakesHalf(later, |ms|)
    requires m.Departure? && noon <= m.at && m.quantity <= left && 2 * m.quantity <= Max(2, left)
    ensures Covered(later + [m], m.place, left - m.quantity, noon) && SameElsewhere(ms, later + [m], m.place)
    ensures TakesHalf(later + [m], |ms|)
  {
    DepartureKeepsCover(later, m, left, noon);
    OneMoreDeparture(later, |ms|, m);
    AppendElsewhere(later, m);
    SameElsewhereTwice(ms, later, later + [m], m.place);
  }

  /** One SKU on one day: a receipt in the morning, then up to three departures in the afternoon, generated in
      any order of time. */
  method FillDay(ms: seq<Movement>, p: Place, balance: int, day: int, now: Instant)
    returns (later: seq<Movement>, left: int)
    requires Covered(ms, p, balance, AtHour(day, 11, now))
    ensures Covered(later, p, left, AtHour(day, 11, now)) && SameElsewhere(ms, later, p)
    ensures ms <= later && IsDayOf(later, |ms|, |later| - |ms|, p, day, now) && left > 0
    ensures TakesHalf(later, |ms|)
  {
    var noon := AtHour(day, 11, now);
    var quantity :| 20 <= quantity <= 60;
    var hour :| 6 <= hour <= 10;
    var receipt := Receipt(p, quantity, AtHour(day, hour, now));
    AtHourIsBetween(day, hour, now);
    ReceiptKeepsCover(ms, receipt, balance, noon);
    AppendElsewhere(ms, receipt);
    later, left := ms + [receipt], balance + quantity;
    var departures :| 1 <= departures <= 3;
    for i := 0 to departures
      invariant Covered(later, p, left, noon) && SameElsewhere(ms, later, p)
      invariant ms <= later && |later| == |ms| + 1 + i && DayBegun(later, |ms|, p, day, now)
      invariant TakesHalf(later, |ms|)
      invariant left >= if i == 0 then 20 else if i == 1 then 10 else if i == 2 then 5 else 2
    {
      var available := left;
      if available <= 0 {
        break;
      }
      var most := Max(1, available / 2);
      quantity :| 1 <= quantity <= most;
      hour :| 11 <= hour <= 20;
      var loss: bool := *;
      var departure := Departure(p, quantity, loss, AtHour(day, hour, now));
      AtHourIsBetween(day, hour, now);
      Depart(ms, later, departure, left, noon);
      DayGoesOn(later, |ms|, departure, p, day, now);
      later, left := later + [departure], left - quantity;
    }
  }

  /** The place has its day somewhere in the ledger. */
  ghost predicate Filled(ms: seq<Movement>, p: Place, day: int, now: Instant) {
    exists k: nat, n: nat :: IsDayOf(ms, k, n, p, day, now)
  }

  ghost predicate AllFilled(ms: seq<Movement>, skus: seq<Place>, from: int, until: int, now: Instant) {
    forall day, i | from <= day < until && 0 <= i < |skus| :: Filled(ms, skus[i], day, now)
  }

  /** Every movement is of a listed place and of one of the days. */
  ghost predicate OnlyDays(ms: seq<Movement>, skus: seq<Place>, from: int, until: int) {
    forall m | m in ms :: m.place in skus && 24 * from <= HourOf(m.at) < 24 * until
  }

  lemma OneMoreDay(ms: seq<Movement>, later: seq<Movement>, skus: seq<Place>, from: int, p: Place, day: int, now: Instant)
    requires OnlyDays(ms, skus, from, day + 1) && p in skus && from <= day
    requires ms <= later && IsDayOf(later, |ms|, |later| - |ms|, p, day, now)
    ensures OnlyDays(later, skus, from, day + 1)
  {
    forall m | m in later ensures m.place in skus && 24 * from <= HourOf(m.at) < 24 * (day + 1) {
      var i :| 0 <= i < |later| && later[i] == m;
      if i < |ms| {
        assert ms[i] == m && m in ms;
      }
    }
  }

  lemma StillFilled(ms: seq<Movement>, later: seq<Movement>, p: Place, day: int, now: Instant)
    requires ms <= later && Filled(ms, p, day, now)
    ensures Filled(later, p, day, now)
  {
    var k: nat, n: nat :| IsDayOf(ms, k, n, p, day, now);
    assert IsDayOf(later, k, n, p, day, now);
  }

  lemma AllStillFilled(ms: seq<Movement>, later: seq<Movement>, skus: seq<Place>, from: int, until: int, now: Instant)
    requires ms <= later && AllFilled(ms, skus, from, until, now)
    ensures AllFilled(later, skus, from, until, now)
  {
    forall day, i | from <= day < until && 0 <= i < |skus| ensures Filled(later, skus[i], day, now) {
      StillFilled(ms, later, skus[i], day, now);
    }
  }

  /** The inner loop: one day of every SKU, on top of whatever days `from` on are already there. */
  method FillOneDay(ms: seq<Movement>, skus: seq<Place>, balances: map<Place, int>, from: int, day: int, now: Instant)
    returns (later: seq<Movement>, left: map<Place, int>, written: nat)
    requires balances.Keys == set p | p in skus
    requires AllCovered(ms, balances, AtHour(day, 11, now)) && AllFilled(ms, skus, from, day, now)
    requires from <= day && OnlyDays(ms, skus, from, day)
    ensures left.Keys == balances.Keys && written == |later| - |ms|
    ensures OnlyDays(later, skus, from, day + 1) && 2 * |skus| <= written <= 4 * |skus|
    ensures AllCovered(later, left, AtHour(day, 11, now)) && AllFilled(later, skus, from, day + 1, now)
  {
    later, left, written := ms, balances, 0;
    for i := 0 to |skus|
      invariant left.Keys == balances.Keys && |later| == |ms| + written
      invariant OnlyDays(later, skus, from, day + 1) && 2 * i <= written <= 4 * i
      invariant AllCovered(later, left, AtHour(day, 11, now)) && AllFilled(later, skus, from, day, now)
      invariant AllFilled(later, skus[..i], day, day + 1, now)
    {
      var p := skus[i];
      var before := later;
      var rest;
      later, rest := FillDay(before, p, left[p], day, now);
      StillCovered(before, later, left, p, rest, AtHour(day, 11, now));
      OneMoreDay(before, later, skus, from, p, day, now);
      AllStillFilled(before, later, skus, from, day, now);
      AllStillFilled(before, later, skus[..i], day, day + 1, now);
      assert IsDayOf(later, |before|, |later| - |before|, p, day, now);
      left := left[p := rest];
      written := written + (|later| - |before|);
      assert skus[..i + 1] == skus[..i] + [p];
    }
    assert skus[..|skus|] == skus;
  }

  /** `backfill_history`: every SKU gets its receipt and departures on each of the past `days` days, and for
      every outcome of the draws every place has non-negative stock at every instant, and the running balances
      are what the ledger adds up to. */
  method BackfillHistory(skus: seq<Place>, days: int, now: Instant)
    returns (ms: seq<Movement>, balances: map<Place, int>, written: nat)
    ensures forall p :: NeverNegative(ms, p)
    ensures balances.Keys == set p | p in skus
    ensures forall p | p in balances :: balances[p] == Net(ms, p)
    ensures written == |ms|
    ensures AllFilled(ms, skus, now / 86_400_000_000 - days, now / 86_400_000_000, now)
    ensures OnlyDays(ms, skus, now / 86_400_000_000 - days, now / 86_400_000_000)
    ensures 2 * (|skus| * Max(0, days)) <= written <= 4 * (|skus| * Max(0, days))
  {
    ms, written := [], 0;
    balances := map p | p in skus :: 0;
    if skus == [] {
      return;
    }
    var today, offset := now / 86_400_000_000, days;
    while offset > 0
      invariant balances.Keys == set p | p in skus
      invariant AllCovered(ms, balances, AtHour(today - offset, 11, now))
      invariant AllFilled(ms, skus, today - days, today - offset, now)
      invariant written == |ms| && (offset == days || offset >= 0) && offset <= days && (days <= 0 ==> ms == [])
      invariant OnlyDays(ms, skus, today - days, today - offset)
      invariant days > 0 ==> 2 * (|skus| * (days - offset)) <= written <= 4 * (|skus| * (days - offset))
    {
      var more;
      ms, balances, more := FillOneDay(ms, skus, balances, today - days, today - offset, now);
      written := written + more;
      OneMoreTime(|skus|, days - offset);
      NextDay(ms, balances, today - offset, now);
      offset := offset - 1;
    }
    forall p ensures NeverNegative(ms, p) {
      assert p in balances || p !in balances;
    }
  }

  lemma OneMoreTime(n: nat, times: int)
    ensures n * (times + 1) == n * times + n
  {
  }

  /** Every listed place is covered, and nothing has been written for any other. */
  ghost predicate AllCovered(ms: seq<Movement>, balances: map<Place, int>, noon: Instant) {
    && (forall p | p in balances :: Covered(ms, p, balances[p], noon))
    && (forall p | p !in balances :: NeverNegative(ms, p))
  }

  lemma StillCovered(ms: seq<Movement>, later: seq<Movement>, balances: map<Place, int>, p: Place, left: int, noon: Instant)
    requires AllCovered(ms, balances, noon) && p in balances
    requires SameElsewhere(ms, later, p) && Covered(later, p, left, noon)
    ensures AllCovered(later, balances[p := left], noon)
  {
  }

  lemma NextDay(ms: seq<Movement>, balances: map<Place, int>, day: int, now: Instant)
    requires AllCovered(ms, balances, AtHour(day, 11, now))
    ensures AllCovered(ms, balances, AtHour(day + 1, 11, now))
  {
  }
}
