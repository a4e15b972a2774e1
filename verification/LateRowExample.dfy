/** Two ordinary runs and a late row between them that no later run picks up. */
module LateRowExample {
  import opened Wrappers
  import opened Instants
  import Q = ReportingQueue
  import Runs = QueueRuns
  import L = Ledger
  import R = Rollups
  import A = RollupAgreement
  import P = Publication
  import G = GaplessWindows
  import opened LiveLedger
  import opened LateRows

  // ---------------------------------------------------------------- a whole ordinary run

  /** No run is requested, retryable or running. */
  ghost predicate Resting(q: Q.Queue) {
    q.lastReset.None? && forall id | id in q.runs :: Q.Terminal(q.runs[id])
  }

  ghost predicate Unused(q: Q.Queue, id: Q.RunId) {
    id !in q.runs && forall c | c in q.issued :: c.token != id
  }

  /** The first ordinary run's claim, its token drawn to be its identifier. */
  function ClaimOf(id: Q.RunId): Q.Claim {
    Q.Claim(id, id, 1, None)
  }

  function RowOf(cfg: Q.Config, id: Q.RunId, now: Instant): Q.Run {
    Q.Claimed(Q.Run(now, None, Q.Requested, 0, None, None, None, None, None, None, None), cfg, id, now)
  }

  /** The row is requested and claimed. */
  function Hire(id: Q.RunId, now: Instant): seq<Event> {
    [Work(P.OfQueue(Runs.EnqueueRun(id, None, now))), Work(P.OfQueue(Runs.Tick(Some(id), id, now)))]
  }

  function Hired(cfg: Q.Config, q: Q.Queue, id: Q.RunId, now: Instant): Q.Queue {
    q.(runs := q.runs[id := RowOf(cfg, id, now)], issued := q.issued + {ClaimOf(id)}, clock := now)
  }

  lemma QueueHires(cfg: Q.Config, q: Q.Queue, id: Q.RunId, now: Instant)
    requires Resting(q) && Unused(q, id) && q.clock <= now
    ensures Runs.Enabled(q, Runs.EnqueueRun(id, None, now))
    ensures var r := Q.Enqueue(q, id, None, now);
      Runs.Enabled(r, Runs.Tick(Some(id), id, now)) && Runs.Step(r, cfg, Runs.Tick(Some(id), id, now)) == Hired(cfg, q, id, now)
  {
    var r := Q.Enqueue(q, id, None, now);
    assert forall j | j in r.runs && j != id :: Q.Terminal(q.runs[j]);
    assert !Q.AnyRunning(r);
  }

  lemma Hires(cfg: Q.Config, l: L.Ledger, history: seq<Event>, s: Live, id: Q.RunId, now: Instant) returns (t: Live)
    requires After(cfg, l, history) == Some(s)
    requires Resting(s.world.queue) && Unused(s.world.queue, id) && s.world.queue.clock <= now
    ensures After(cfg, l, history + Hire(id, now)) == Some(t)
    ensures t.world == s.world.(queue := Hired(cfg, s.world.queue, id, now)) && t.ledger == s.ledger && t.stale == s.stale
  {
    var request, claim := Work(P.OfQueue(Runs.EnqueueRun(id, None, now))), Work(P.OfQueue(Runs.Tick(Some(id), id, now)));
    QueueHires(cfg, s.world.queue, id, now);
    Extend(cfg, l, history, s, request);
    var requested := Step(cfg, s, request);
    Extend(cfg, l, history + [request], requested, claim);
    t := Step(cfg, requested, claim);
    assert history + Hire(id, now) == history + [request] + [claim];
  }

  lemma Concludes(cfg: Q.Config, l: L.Ledger, history: seq<Event>, s: Live, c: Q.Claim, now: Instant) returns (t: Live)
    requires After(cfg, l, history) == Some(s) && c in s.world.queue.issued && Q.Owns(s.world.queue, c)
    requires s.world.queue.clock <= now && s.world.queue.lastReset.None?
    requires forall id | id in s.world.queue.runs && id != c.run :: Q.Terminal(s.world.queue.runs[id])
    ensures After(cfg, l, history + [Work(P.OfQueue(Runs.Succeed(c, now)))]) == Some(t)
    ensures Resting(t.world.queue) && t.world.queue.runs.Keys == s.world.queue.runs.Keys
    ensures t.world.queue.issued == s.world.queue.issued && t.world.queue.clock == now
    ensures t.world == s.world.(queue := t.world.queue) && t.ledger == s.ledger && t.stale == s.stale
  {
    Extend(cfg, l, history, s, Work(P.OfQueue(Runs.Succeed(c, now))));
    t := Step(cfg, s, Work(P.OfQueue(Runs.Succeed(c, now))));
  }

  /** The tables of a state after an ordinary run that published `window` from the ledger as it is. */
  ghost predicate RanOnce(s: Live, t: Live, id: Q.RunId, now: Instant, window: R.Window) {
    && Resting(t.world.queue) && t.world.queue.clock == now
    && t.world.queue.runs.Keys == s.world.queue.runs.Keys + {id}
    && t.world.queue.issued == s.world.queue.issued + {ClaimOf(id)}
    && t.ledger == s.ledger && t.stale == Refreshed(s.stale, window, {})
    && t.world.tables == R.Publish(s.world.tables, window, P.RowsOf(window, s.ledger), 1)
    && t.world.published == s.world.published + [window]
  }

  lemma HiredRun(cfg: Q.Config, l: L.Ledger, history: seq<Event>, s: Live, q: Q.Queue, id: Q.RunId, now: Instant, window: R.Window)
    returns (run: seq<Event>, t: Live)
    requires After(cfg, l, history) == Some(s) && s.world.queue == Hired(cfg, q, id, now) && Resting(q) && Unused(q, id)
    requires R.CaptureWindow(s.world.tables.state.lastCutoff, None, None, None, now) == Ok(window)
    ensures After(cfg, l, history + run) == Some(t)
    ensures Resting(t.world.queue) && t.world.queue.clock == now && t.world.queue.runs.Keys == s.world.queue.runs.Keys
    ensures t.world.queue.issued == s.world.queue.issued
    ensures t.ledger == s.ledger && t.stale == Refreshed(s.stale, window, {})
    ensures t.world.tables == R.Publish(s.world.tables, window, P.RowsOf(window, s.ledger), 1)
    ensures t.world.published == s.world.published + [window]
  {
    var c := ClaimOf(id);
    var published := RunPublishes(cfg, l, history, s, c, now, window);
    t := Concludes(cfg, l, history + Run(s, c, now), published, c, now);
    run := Run(s, c, now) + [Work(P.OfQueue(Runs.Succeed(c, now)))];
    Join(history, Run(s, c, now), [Work(P.OfQueue(Runs.Succeed(c, now)))]);
  }

  /** From rest, a whole ordinary run: requested, claimed, captured, computed, published and closed. */
  lemma OrdinaryRun(cfg: Q.Config, l: L.Ledger, history: seq<Event>, s: Live, id: Q.RunId, now: Instant, window: R.Window)
    returns (run: seq<Event>, t: Live)
    requires After(cfg, l, history) == Some(s)
    requires Resting(s.world.queue) && Unused(s.world.queue, id) && s.world.queue.clock <= now
    requires R.CaptureWindow(s.world.tables.state.lastCutoff, None, None, None, now) == Ok(window)
    ensures After(cfg, l, history + run) == Some(t) && RanOnce(s, t, id, now, window)
  {
    var hired := Hires(cfg, l, history, s, id, now);
    var rest;
    rest, t := HiredRun(cfg, l, history + Hire(id, now), hired, s.world.queue, id, now, window);
    run := Hire(id, now) + rest;
    Join(history, Hire(id, now), rest);
  }

  lemma Join(history: seq<Event>, first: seq<Event>, second: seq<Event>)
    ensures history + (first + second) == history + first + second
  {
  }

  // ---------------------------------------------------------------- the example

  /** One SKU and no movement. */
  function Empty(): L.Ledger {
    L.Ledger(map[1 := L.Dim(L.LA, 0)], [], [], [], [])
  }

  /** The same with one receipt of hour 60. */
  function WithReceipt(): L.Ledger {
    L.Ledger(map[1 := L.Dim(L.LA, 0)], [L.Entry(1, 1, L.LA, 1, 216_000_000_000)], [], [], [])
  }

  const FIRST: R.Window := R.Window(28, 100, 100)
  const SECOND: R.Window := R.Window(78, 150, 150)

  lemma ReceiptArrives()
    ensures L.WellFormed(Empty()) && L.WellFormed(WithReceipt()) && SameExcept(Empty(), WithReceipt(), {60})
  {
    var l, to := Empty(), WithReceipt();
    assert to == l.(entries := l.entries + [to.entries[0]]) && HourOf(to.entries[0].at) == 60;
    AppendIsGrowth(l, to, 60);
  }

  lemma RunThenGrow(cfg: Q.Config, l: L.Ledger, first: R.Window, now: Instant, to: L.Ledger, hours: set<int>)
    returns (history: seq<Event>, s: Live)
    requires 0 <= now && L.WellFormed(to) && SameExcept(l, to, hours)
    requires R.CaptureWindow(None, None, None, None, now) == Ok(first)
    ensures After(cfg, l, history) == Some(s) && Resting(s.world.queue) && s.world.queue.clock == now
    ensures s.world.queue.issued == {ClaimOf(0)} && s.world.queue.runs.Keys == {0}
    ensures s.ledger == to && s.world.published == [first] && s.stale == hours
    ensures s.world.tables == R.Publish(P.START.tables, first, P.RowsOf(first, l), 1)
  {
    var run, t := OrdinaryRun(cfg, l, [], Start(l), 0, now, first);
    assert [] + run == run;
    Extend(cfg, l, run, t, Grow(to, hours));
    history, s := run + [Grow(to, hours)], Step(cfg, t, Grow(to, hours));
  }

  /** A run, rows that appear, and a second run. */
  lemma TwoRuns(cfg: Q.Config, l: L.Ledger, first: R.Window, now: Instant, to: L.Ledger, hours: set<int>,
                second: R.Window, later: Instant)
    returns (history: seq<Event>, s: Live)
    requires 0 <= now <= later && L.WellFormed(to) && SameExcept(l, to, hours)
    requires R.CaptureWindow(None, None, None, None, now) == Ok(first)
    requires R.CaptureWindow(Some(first.cutoff), None, None, None, later) == Ok(second)
    requires first.cutoff <= second.cutoff
    ensures After(cfg, l, history) == Some(s) && Resting(s.world.queue) && s.world.queue.clock == later
    ensures s.ledger == to && s.world.published == [first, second] && s.stale == Refreshed(hours, second, {})
    ensures s.world.tables.hourly == Twice(P.RowsOf(first, l), first.cutoff, P.RowsOf(second, to), second.cutoff)
    ensures s.world.tables.state.lastCutoff == Some(second.cutoff)
  {
    var before, t := RunThenGrow(cfg, l, first, now, to, hours);
    var again;
    again, s := OrdinaryRun(cfg, l, before, t, 1, later, second);
    history := before + again;
  }

  /** The hourly table after two publications. */
  function Twice(a: map<R.Key, R.Totals>, first: int, b: map<R.Key, R.Totals>, second: int): R.Hourly {
    R.Upsert(R.Upsert(map[], a, first), b, second)
  }

  /** A bucket that the second publication does not replace says what the first wrote. */
  lemma OldBucket(a: map<R.Key, R.Totals>, first: int, b: map<R.Key, R.Totals>, second: int, k: R.Key, m: L.Metric)
    requires k in a && k !in b
    ensures R.BucketValue(Twice(a, first, b, second), k, m) == a[k].Get(m)
  {
    A.UpsertedBucket(R.Upsert(map[], a, first), b, second, k, m);
    A.UpsertedBucket(map[], a, first, k, m);
  }

  predicate Spans(rows: map<R.Key, R.Totals>, start: int, end: int) {
    forall k | k in rows :: start <= k.hour < end
  }

  lemma GridSpans(l: L.Ledger, rows: map<R.Key, R.Totals>, start: int, end: int)
    requires R.IsGrid(l, rows, start, end)
    ensures Spans(rows, start, end)
  {
    forall k | k in rows ensures start <= k.hour < end {
      A.GridRow(l, rows, start, end, k);
    }
  }

  lemma BoundsOfTwice(a: map<R.Key, R.Totals>, first: R.Window, b: map<R.Key, R.Totals>, second: R.Window, lo: R.Key, hi: R.Key)
    requires Spans(a, first.start, first.end) && Spans(b, second.start, second.end) && lo in a && hi in b
    requires lo.hour == first.start <= second.start <= first.end <= second.end == hi.hour + 1
    requires first.cutoff <= second.cutoff
    ensures R.Bounds(Twice(a, first.cutoff, b, second.cutoff), second.cutoff, None) ==
      R.BoundsFrom(first.start, second.end - 1, second.cutoff, None)
  {
    A.BoundsOf(Twice(a, first.cutoff, b, second.cutoff), second.cutoff, None, lo, hi);
  }

  lemma ReceiptCounts()
    ensures HourTally(WithReceipt(), L.InboundMovements, L.Dim(L.LA, 0), 60) == 1
    ensures HourTally(Empty(), L.InboundMovements, L.Dim(L.LA, 0), 60) == 0
  {
    var receipt := L.Fact(L.Dim(L.LA, 0), 60, 1);
    assert L.FactsOf(Empty(), L.InboundMovements) == [];
    assert L.FactsOf(WithReceipt(), L.InboundMovements) == [receipt];
    assert [receipt][..0] == [];
  }

  lemma TwoRunsMismatch(cfg: Q.Config, s: Live)
    requires Inv(cfg, s) && s.world.published == [FIRST, SECOND] && s.stale == {60}
    requires Wrong(s, 60)
    ensures !R.Exact(s.ledger, s.world.tables.hourly, 28, 150)
  {
    forall other | 28 <= other < 150 && other != 60 ensures G.Covered(s.world.published, other) {
      assert G.Holds(s.world.published[0], other) || G.Holds(s.world.published[1], other);
    }
    WrongHourMismatches(s.ledger, s.world.tables.hourly, s.world.published, s.stale, 60, 28, 150);
  }

  lemma ExampleRows(a: map<R.Key, R.Totals>, b: map<R.Key, R.Totals>)
    requires R.IsGrid(Empty(), a, 28, 100) && R.IsGrid(WithReceipt(), b, 78, 150)
    ensures var d := L.Dim(L.LA, 0);
      && R.Key(28, d) in a && R.Key(149, d) in b && R.Key(60, d) in a && R.Key(60, d) !in b
      && a[R.Key(60, d)].Get(L.InboundMovements) == 0
  {
    var d := L.Dim(L.LA, 0);
    assert Empty().skus[1] == d && WithReceipt().skus[1] == d;
    ReceiptCounts();
    A.GridRow(Empty(), a, 28, 100, R.Key(28, d));
    A.GridAt(Empty(), a, 28, 100, R.Key(60, d), L.InboundMovements);
    A.GridRow(WithReceipt(), b, 78, 150, R.Key(149, d));
    A.GridRow(WithReceipt(), b, 78, 150, R.Key(60, d));
  }

  lemma ExampleBucket(a: map<R.Key, R.Totals>, b: map<R.Key, R.Totals>)
    requires R.IsGrid(Empty(), a, 28, 100) && R.IsGrid(WithReceipt(), b, 78, 150)
    ensures R.BucketValue(Twice(a, 100, b, 150), R.Key(60, L.Dim(L.LA, 0)), L.InboundMovements) == 0
    ensures R.Bounds(Twice(a, 100, b, 150), 150, None) == Ok((28, 150))
  {
    var d := L.Dim(L.LA, 0);
    ExampleRows(a, b);
    GridSpans(Empty(), a, 28, 100);
    GridSpans(WithReceipt(), b, 78, 150);
    OldBucket(a, 100, b, 150, R.Key(60, d), L.InboundMovements);
    BoundsOfTwice(a, FIRST, b, SECOND, R.Key(28, d), R.Key(149, d));
  }

  lemma BucketIsWrong(s: Live, m: L.Metric, d: L.Dim, hour: int)
    requires R.BucketValue(s.world.tables.hourly, R.Key(hour, d), m) != HourTally(s.ledger, m, d, hour)
    ensures Wrong(s, hour)
  {
    assert !HourAgrees(s.ledger, s.world.tables.hourly, m, hour);
  }

  lemma RestingIsOutOfReach(w: P.World, hour: int)
    requires Resting(w.queue) && P.AtMost(Some(hour + 1), w.tables.state.lastCutoff) && !Recomputable(w, hour)
    ensures OutOfReach(w, hour)
  {
  }

  lemma RowsAreGrid(window: R.Window, l: L.Ledger) returns (rows: map<R.Key, R.Totals>)
    ensures rows == P.RowsOf(window, l) && R.IsGrid(l, rows, window.start, window.end)
  {
    rows := P.RowsOf(window, l);
  }

  lemma ExampleTable(l: L.Ledger, to: L.Ledger, h: R.Hourly)
    requires l == Empty() && to == WithReceipt()
    requires h == Twice(P.RowsOf(FIRST, l), 100, P.RowsOf(SECOND, to), 150)
    ensures R.BucketValue(h, R.Key(60, L.Dim(L.LA, 0)), L.InboundMovements) == 0
    ensures R.Bounds(h, 150, None) == Ok((28, 150))
  {
    var a := RowsAreGrid(FIRST, l);
    var b := RowsAreGrid(SECOND, to);
    ExampleBucket(a, b);
  }

  lemma ExampleWindows()
    ensures R.CaptureWindow(None, None, None, None, 360_000_000_000) == Ok(FIRST)
    ensures R.CaptureWindow(Some(100), None, None, None, 540_000_000_000) == Ok(SECOND)
    ensures Refreshed({60}, SECOND, {}) == {60}
  {
  }

  lemma ExampleHistory(cfg: Q.Config, l: L.Ledger, to: L.Ledger, first: R.Window, second: R.Window)
    returns (history: seq<Event>, s: Live)
    requires L.WellFormed(to) && SameExcept(l, to, {60}) && first == FIRST && second == SECOND
    ensures After(cfg, l, history) == Some(s) && Resting(s.world.queue) && s.world.queue.clock == 540_000_000_000
    ensures s.ledger == to && s.world.published == [first, second] && s.stale == {60}
    ensures s.world.tables.state.lastCutoff == Some(150)
    ensures s.world.tables.hourly == Twice(P.RowsOf(first, l), 100, P.RowsOf(second, to), 150)
  {
    ExampleWindows();
    history, s := TwoRuns(cfg, l, first, 360_000_000_000, to, {60}, second, 540_000_000_000);
  }

  /** A receipt forty hours late, well within the trailing three days when it arrives. The next run comes two days
      later and does not reach back to its hour: the bucket differs from the ledger, reconciliation over the bounds
      of an activation fails, and no later history that leaves the hour's rows and week alone changes that bucket. */
  lemma LateRowCanStayOut(cfg: Q.Config) returns (history: seq<Event>, s: Live)
    ensures After(cfg, Empty(), history) == Some(s) && s.ledger == WithReceipt()
    ensures 100 - R.TRAILING_RECOMPUTE_HOURS <= 60
    ensures R.BucketValue(s.world.tables.hourly, R.Key(60, L.Dim(L.LA, 0)), L.InboundMovements) == 0
    ensures HourTally(s.ledger, L.InboundMovements, L.Dim(L.LA, 0), 60) == 1
    ensures s.world.tables.state.lastCutoff == Some(150) && R.Bounds(s.world.tables.hourly, 150, None) == Ok((28, 150))
    ensures !R.Exact(s.ledger, s.world.tables.hourly, 28, 150)
    ensures NeverPickedUp(cfg, Empty(), history, s, 60)
  {
    history, s := Example(cfg, Empty(), WithReceipt());
    ReceiptArrives();
    ReachableInv(cfg, Empty(), history);
    TwoRunsMismatch(cfg, s);
    NothingPicksUp(cfg, Empty(), history, s, 60);
  }

  lemma Example(cfg: Q.Config, l: L.Ledger, to: L.Ledger) returns (history: seq<Event>, s: Live)
    requires l == Empty() && to == WithReceipt()
    ensures After(cfg, l, history) == Some(s) && s.ledger == to && s.world.published == [FIRST, SECOND] && s.stale == {60}
    ensures R.BucketValue(s.world.tables.hourly, R.Key(60, L.Dim(L.LA, 0)), L.InboundMovements) == 0
    ensures HourTally(to, L.InboundMovements, L.Dim(L.LA, 0), 60) == 1
    ensures s.world.tables.state.lastCutoff == Some(150) && R.Bounds(s.world.tables.hourly, 150, None) == Ok((28, 150))
    ensures Wrong(s, 60) && OutOfReach(s.world, 60)
  {
    ReceiptArrives();
    history, s := ExampleHistory(cfg, l, to, FIRST, SECOND);
    ExampleTable(l, to, s.world.tables.hourly);
    ReceiptCounts();
    BucketIsWrong(s, L.InboundMovements, L.Dim(L.LA, 0), 60);
    RestingIsOutOfReach(s.world, 60);
  }

  /** In no later history that leaves the hour's rows and its week alone is the hour right again. */
  ghost predicate NeverPickedUp(cfg: Q.Config, l: L.Ledger, history: seq<Event>, s: Live, hour: int) {
    forall later :: (forall e | e in later :: Spares(s.world, e, hour)) && After(cfg, l, history + later).Some? ==>
      Wrong(After(cfg, l, history + later).value, hour)
  }

  lemma NothingPicksUp(cfg: Q.Config, l: L.Ledger, history: seq<Event>, s: Live, hour: int)
    requires L.WellFormed(l) && After(cfg, l, history) == Some(s) && OutOfReach(s.world, hour) && Wrong(s, hour)
    ensures NeverPickedUp(cfg, l, history, s, hour)
  {
    forall later | (forall e | e in later :: Spares(s.world, e, hour)) && After(cfg, l, history + later).Some?
      ensures Wrong(After(cfg, l, history + later).value, hour)
    {
      LateRowIsLost(cfg, l, history, s, later, hour);
    }
  }
}
