/** The order of a worker's program over whole histories: nothing is loaded that was not extracted and transformed. */
module StageOrder {
  import opened Wrappers
  import opened Instants
  import Q = ReportingQueue
  import R = Rollups
  import P = Publication
  import opened ExecutorRuns

  /** At step `i` the claim, still owning its row and not aborted, recorded the stage. */
  ghost predicate BeganAt(cfg: Q.Config, history: seq<Event>, i: nat, c: Q.Claim, stage: Q.Stage) {
    && i < |history| && history[i].WorkStep? && history[i].c == c && history[i].work == Begin(stage, false)
    && After(cfg, history[..i]).Some? && Q.Owns(After(cfg, history[..i]).value.world.queue, c)
  }

  /** At step `i` the claim captured a window. */
  ghost predicate CapturedAt(cfg: Q.Config, history: seq<Event>, i: nat, c: Q.Claim) {
    && i < |history| && history[i].WorkStep? && history[i].c == c && history[i].work.Capture?
    && After(cfg, history[..i]).Some?
    && var w := After(cfg, history[..i]).value.world;
       R.CaptureWindow(w.tables.state.lastCutoff, w.queue.lastReset, history[i].work.floor, c.week, history[i].now).Ok?
  }

  /** The steps at which the claim began the stage, and those at which it captured. */
  ghost function Begun(cfg: Q.Config, history: seq<Event>, c: Q.Claim, stage: Q.Stage): set<nat> {
    set i: nat | i < |history| && BeganAt(cfg, history, i, c, stage)
  }

  ghost function Captures(cfg: Q.Config, history: seq<Event>, c: Q.Claim): set<nat> {
    set i: nat | i < |history| && CapturedAt(cfg, history, i, c)
  }

  // ---------------------------------------------------------------- steps in order

  ghost predicate Two(a: set<nat>, b: set<nat>) {
    exists i: nat, j: nat :: i in a && j in b && i < j
  }

  ghost predicate Three(a: set<nat>, b: set<nat>, c: set<nat>) {
    exists i: nat, j: nat, k: nat :: i in a && j in b && k in c && i < j < k
  }

  ghost predicate Four(a: set<nat>, b: set<nat>, c: set<nat>, d: set<nat>) {
    exists i: nat, j: nat, k: nat, l: nat :: i in a && j in b && k in c && l in d && i < j < k < l
  }

  lemma MoreSteps(a: set<nat>, b: set<nat>, c: set<nat>, d: set<nat>, a': set<nat>, b': set<nat>, c': set<nat>, d': set<nat>)
    requires a <= a' && b <= b' && c <= c' && d <= d'
    ensures a != {} ==> a' != {}
    ensures Two(a, b) ==> Two(a', b')
    ensures Three(a, b, c) ==> Three(a', b', c')
    ensures Four(a, b, c, d) ==> Four(a', b', c', d')
  {
  }

  /** The latest step comes after all others of other kinds. */
  ghost predicate Latest(a: set<nat>, n: nat) {
    forall i | i in a :: i < n
  }

  lemma OneMoreStep(a: set<nat>, b: set<nat>, c: set<nat>, d: set<nat>, n: nat)
    ensures a != {} && Latest(a, n) && n in b ==> Two(a, b)
    ensures Two(a, b) && Latest(b, n) && n in c ==> Three(a, b, c)
    ensures Three(a, b, c) && Latest(c, n) && n in d ==> Four(a, b, c, d)
  {
    if a != {} && Latest(a, n) && n in b {
      var i :| i in a;
      assert i < n;
    }
  }

  // ---------------------------------------------------------------- a worker's past

  /** What a worker's phase and window say of its past, given its steps. */
  ghost predicate PastIs(s: System, c: Q.Claim, extracts: set<nat>, captures: set<nat>, transforms: set<nat>, loads: set<nat>) {
    && (c in s.phases && s.phases[c] == Extracting ==> extracts != {})
    && (c in s.world.windows ==> Two(extracts, captures))
    && (c in s.phases && s.phases[c] == Transforming ==> Three(extracts, captures, transforms))
    && (c in s.phases && (s.phases[c] == Loading || s.phases[c] == Loaded) ==> Four(extracts, captures, transforms, loads))
  }

  ghost predicate PastOk(cfg: Q.Config, history: seq<Event>, s: System, c: Q.Claim) {
    PastIs(s, c, Begun(cfg, history, c, Q.Extract), Captures(cfg, history, c), Begun(cfg, history, c, Q.Transform),
           Begun(cfg, history, c, Q.Load))
  }

  lemma PastStays(cfg: Q.Config, history: seq<Event>, i: nat, c: Q.Claim, stage: Q.Stage)
    requires history != [] && i < |history| - 1
    ensures BeganAt(cfg, history, i, c, stage) <==> BeganAt(cfg, history[..|history| - 1], i, c, stage)
    ensures CapturedAt(cfg, history, i, c) <==> CapturedAt(cfg, history[..|history| - 1], i, c)
  {
    assert history[..|history| - 1][..i] == history[..i];
  }

  lemma StepsStay(cfg: Q.Config, history: seq<Event>, c: Q.Claim, stage: Q.Stage)
    requires history != []
    ensures Begun(cfg, history[..|history| - 1], c, stage) <= Begun(cfg, history, c, stage)
    ensures Captures(cfg, history[..|history| - 1], c) <= Captures(cfg, history, c)
  {
    var before := history[..|history| - 1];
    forall i | i in Begun(cfg, before, c, stage) ensures i in Begun(cfg, history, c, stage) {
      PastStays(cfg, history, i, c, stage);
    }
    forall i | i in Captures(cfg, before, c) ensures i in Captures(cfg, history, c) {
      PastStays(cfg, history, i, c, stage);
    }
  }

  lemma LongerPast(cfg: Q.Config, history: seq<Event>, s: System, c: Q.Claim)
    requires history != [] && PastOk(cfg, history[..|history| - 1], s, c)
    ensures PastOk(cfg, history, s, c)
  {
    var before := history[..|history| - 1];
    StepsStay(cfg, history, c, Q.Extract);
    StepsStay(cfg, history, c, Q.Transform);
    StepsStay(cfg, history, c, Q.Load);
    MoreSteps(Begun(cfg, before, c, Q.Extract), Captures(cfg, before, c), Begun(cfg, before, c, Q.Transform), Begun(cfg, before, c, Q.Load),
              Begun(cfg, history, c, Q.Extract), Captures(cfg, history, c), Begun(cfg, history, c, Q.Transform), Begun(cfg, history, c, Q.Load));
  }

  /** Only the claim's own program moves its phase or window, a newly drawn claim's apart. */
  lemma OthersStay(cfg: Q.Config, s: System, e: Event, c: Q.Claim)
    requires Enabled(s, e) && (e.Environment? || e.c != c)
    ensures var t := Step(cfg, s, e);
      && (c in t.world.windows <==> c in s.world.windows)
      && (c in t.phases ==> t.phases[c] == if c in s.phases then s.phases[c] else Ready)
  {
  }

  lemma LoadStays(cfg: Q.Config, s: System, e: Event, c: Q.Claim)
    requires Enabled(s, e) && e.LoadStep? && e.c == c
    ensures var t := Step(cfg, s, e);
      && s.phases[c] == Loading && (c in t.world.windows <==> c in s.world.windows)
      && c in t.phases && (t.phases[c] == Loading || t.phases[c] == Loaded || t.phases[c].Broken? || t.phases[c] == Lost)
  {
  }

  /** The last step is of one kind only. */
  lemma LastStep(cfg: Q.Config, history: seq<Event>, c: Q.Claim, work: Work, now: Instant)
    requires history != [] && history[|history| - 1] == WorkStep(c, work, now)
    ensures forall stage | work != Begin(stage, false) :: Latest(Begun(cfg, history, c, stage), |history| - 1)
    ensures !work.Capture? ==> Latest(Captures(cfg, history, c), |history| - 1)
  {
  }

  /** The step is the last of its history, and what it is to the claim's past. */
  lemma StepCounts(cfg: Q.Config, history: seq<Event>, s: System, c: Q.Claim, work: Work, now: Instant)
    requires history != [] && history[|history| - 1] == WorkStep(c, work, now) && After(cfg, history[..|history| - 1]) == Some(s)
    ensures forall stage | work == Begin(stage, false) && Q.Owns(s.world.queue, c) :: |history| - 1 in Begun(cfg, history, c, stage)
    ensures work.Capture? && R.CaptureWindow(s.world.tables.state.lastCutoff, s.world.queue.lastReset, work.floor, c.week, now).Ok?
      ==> |history| - 1 in Captures(cfg, history, c)
  {
  }

  /** What one step of the program makes of phase and window, given that the step counts. */
  lemma WorkMoves(cfg: Q.Config, s: System, c: Q.Claim, work: Work, now: Instant, n: nat,
                  extracts: set<nat>, captures: set<nat>, transforms: set<nat>, loads: set<nat>)
    requires Enabled(s, WorkStep(c, work, now)) && PastIs(s, c, extracts, captures, transforms, loads)
    requires work == Begin(Q.Extract, false) && Q.Owns(s.world.queue, c) ==> n in extracts
    requires work == Begin(Q.Transform, false) && Q.Owns(s.world.queue, c) ==> n in transforms && Latest(captures, n)
    requires work == Begin(Q.Load, false) && Q.Owns(s.world.queue, c) ==> n in loads && Latest(transforms, n)
    requires work.Capture? && R.CaptureWindow(s.world.tables.state.lastCutoff, s.world.queue.lastReset, work.floor, c.week, now).Ok?
      ==> n in captures && Latest(extracts, n)
    ensures PastIs(Worked(cfg, s, c, work, now), c, extracts, captures, transforms, loads)
  {
    OneMoreStep(extracts, captures, transforms, loads, n);
  }

  lemma PastMoves(cfg: Q.Config, history: seq<Event>, s: System, e: Event, c: Q.Claim)
    requires history != [] && history[|history| - 1] == e && After(cfg, history[..|history| - 1]) == Some(s)
    requires Enabled(s, e) && PastOk(cfg, history, s, c)
    ensures PastOk(cfg, history, Step(cfg, s, e), c)
  {
    if e.Environment? || e.c != c {
      OthersStay(cfg, s, e, c);
    } else if e.LoadStep? {
      LoadStays(cfg, s, e, c);
    } else {
      LastStep(cfg, history, c, e.work, e.now);
      StepCounts(cfg, history, s, c, e.work, e.now);
      WorkMoves(cfg, s, c, e.work, e.now, |history| - 1, Begun(cfg, history, c, Q.Extract), Captures(cfg, history, c),
                Begun(cfg, history, c, Q.Transform), Begun(cfg, history, c, Q.Load));
    }
  }

  lemma {:induction false} ReachablePast(cfg: Q.Config, history: seq<Event>, c: Q.Claim)
    requires After(cfg, history).Some?
    ensures PastOk(cfg, history, After(cfg, history).value, c)
    decreases |history|
  {
    if history != [] {
      var before, e := history[..|history| - 1], history[|history| - 1];
      ReachablePast(cfg, before, c);
      LongerPast(cfg, history, After(cfg, before).value, c);
      PastMoves(cfg, history, After(cfg, before).value, e, c);
    }
  }

  /** Every load attempt of a worker comes after its own extract stage, its capture, its transform stage and its load
      stage, in that order, each recorded while it owned its row. */
  lemma LoadsFollowStages(cfg: Q.Config, history: seq<Event>, s: System, c: Q.Claim, load: P.Event, heard: bool)
    returns (i: nat, m: nat, j: nat, k: nat)
    requires After(cfg, history) == Some(s) && Enabled(s, LoadStep(c, load, heard))
    ensures i < m < j < k < |history|
    ensures BeganAt(cfg, history, i, c, Q.Extract) && CapturedAt(cfg, history, m, c)
    ensures BeganAt(cfg, history, j, c, Q.Transform) && BeganAt(cfg, history, k, c, Q.Load)
  {
    ReachablePast(cfg, history, c);
    i, m, j, k := InOrder(Begun(cfg, history, c, Q.Extract), Captures(cfg, history, c), Begun(cfg, history, c, Q.Transform),
                          Begun(cfg, history, c, Q.Load));
  }

  lemma InOrder(a: set<nat>, b: set<nat>, c: set<nat>, d: set<nat>) returns (i: nat, j: nat, k: nat, l: nat)
    requires Four(a, b, c, d)
    ensures i in a && j in b && k in c && l in d && i < j < k < l
  {
    i, j, k, l :| i in a && j in b && k in c && l in d && i < j < k < l;
  }
}
