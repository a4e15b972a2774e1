/** Movement-ledger retention: balances derived from a checkpoint, the checkpoint written before a prune, and
    the four foreign-key ordered delete steps. */
module Retention {
  import opened Wrappers
  import opened Instants
  import opened Sorting
  import opened Ledger

  datatype Checkpoint = Checkpoint(quantity: int, at: Instant)

  /** Checkpoints and balances are keyed by SKU: the schema ties their warehouse to the SKU's. */
  datatype Store = Store(ledger: Ledger, checkpoints: map<nat, Checkpoint>, balances: map<nat, int>)

  datatype RetentionError = WindowTooShort | CheckpointsDisagree | CutoffNotAdvanced | BalancesDrifted

  const BEGINNING_OF_TIME: Instant := 0
  const MINIMUM_RETENTION_DAYS := 25

  function Cutoff(now: Instant, days: int): Instant {
    now - 86_400_000_000 * days
  }

  /** The row is no more than so many days old. */
  predicate Within(now: Instant, days: int, at: Instant) {
    now - at <= days * DAY
  }

  /** The cutoff lies exactly so many days back: what is dated at or after it is within the retention. */
  lemma CutoffIsDaysBack(now: Instant, days: int)
    ensures now - Cutoff(now, days) == days * DAY
    ensures forall at :: Cutoff(now, days) <= at <==> Within(now, days, at)
  {
  }

  /** `retention_cutoff`. */
  function RetentionCutoff(now: Instant, days: int): Result<Instant, RetentionError> {
    if days < MINIMUM_RETENTION_DAYS then Err(WindowTooShort) else Ok(Cutoff(now, days))
  }

  // ---------------------------------------------------------------- sums and filters

  function Sum<T>(xs: seq<T>, weigh: T -> int): int {
    if xs == [] then 0 else Sum(xs[..|xs| - 1], weigh) + weigh(xs[|xs| - 1])
  }

  /** The rows a delete leaves, in order. */
  function Kept<T>(xs: seq<T>, keep: T -> bool): (ys: seq<T>)
    ensures |ys| <= |xs| && forall y | y in ys :: y in xs && keep(y)
    ensures forall x | x in xs && keep(x) :: x in ys
  {
    if xs == [] then []
    else if keep(xs[|xs| - 1]) then Kept(xs[..|xs| - 1], keep) + [xs[|xs| - 1]]
    else Kept(xs[..|xs| - 1], keep)
  }

  lemma {:induction false} KeptSum<T>(xs: seq<T>, keep: T -> bool, weigh: T -> int)
    requires forall x | x in xs :: keep(x) || weigh(x) == 0
    ensures Sum(Kept(xs, keep), weigh) == Sum(xs, weigh)
  {
    if xs != [] {
      var init, last := xs[..|xs| - 1], xs[|xs| - 1];
      assert last in xs;
      KeptSum(init, keep, weigh);
      assert keep(last) ==> Kept(xs, keep)[..|Kept(xs, keep)| - 1] == Kept(init, keep);
    }
  }

  lemma {:induction false} SumSplits<T>(xs: seq<T>, whole: T -> int, a: T -> int, b: T -> int)
    requires forall x | x in xs :: whole(x) == a(x) + b(x)
    ensures Sum(xs, whole) == Sum(xs, a) + Sum(xs, b)
  {
    if xs != [] {
      assert xs[|xs| - 1] in xs;
      SumSplits(xs[..|xs| - 1], whole, a, b);
    }
  }

  /** Deleting twice is deleting once. */
  lemma {:induction false} KeptTwice<T>(xs: seq<T>, first: T -> bool, second: T -> bool, both: T -> bool)
    requires forall x | x in xs :: both(x) == (first(x) && second(x))
    ensures Kept(Kept(xs, first), second) == Kept(xs, both)
  {
    if xs != [] {
      var init, last := xs[..|xs| - 1], xs[|xs| - 1];
      assert last in xs;
      KeptTwice(init, first, second, both);
      if first(last) {
        var ys := Kept(xs, first);
        assert ys[..|ys| - 1] == Kept(init, first) && ys[|ys| - 1] == last;
      }
    }
  }

  lemma {:induction false} KeptAll<T>(xs: seq<T>, keep: T -> bool)
    requires forall x | x in xs :: keep(x)
    ensures Kept(xs, keep) == xs
  {
    if xs != [] {
      assert xs[|xs| - 1] in xs;
      KeptAll(xs[..|xs| - 1], keep);
    }
  }

  lemma {:induction false} KeptFewer<T>(xs: seq<T>, keep: T -> bool, x: T)
    requires x in xs && !keep(x)
    ensures |Kept(xs, keep)| < |xs|
  {
    var init, last := xs[..|xs| - 1], xs[|xs| - 1];
    if last != x {
      assert x in init;
      KeptFewer(init, keep, x);
    }
  }

  // ---------------------------------------------------------------- derived balances

  function EntriesWithin(sku: nat, w: Warehouse, lo: Instant, hi: Option<Instant>): Entry -> int {
    (e: Entry) =>
      if e.sku == sku && e.warehouse == w && lo <= e.at && (hi.Some? ==> e.at < hi.value) then e.quantity else 0
  }

  function ExitsWithin(sku: nat, w: Warehouse, lo: Instant, hi: Option<Instant>): Exit -> int {
    (x: Exit) =>
      if x.sku == sku && x.warehouse == w && lo <= x.at && (hi.Some? ==> x.at < hi.value) then x.quantity else 0
  }

  /** Received less dispatched for one SKU over [lo, hi). */
  function Flow(l: Ledger, sku: nat, lo: Instant, hi: Option<Instant>): int
    requires sku in l.skus
  {
    Sum(l.entries, EntriesWithin(sku, l.skus[sku].warehouse, lo, hi)) -
    Sum(l.exits, ExitsWithin(sku, l.skus[sku].warehouse, lo, hi))
  }

  ghost predicate Agree(cps: map<nat, Checkpoint>) {
    forall j, k | j in cps && k in cps :: cps[j].at == cps[k].at
  }

  /** `checkpoint_watermark`, with the beginning of time for an intact ledger. */
  ghost function Watermark(cps: map<nat, Checkpoint>): (r: Result<Instant, RetentionError>)
    ensures r.Ok? <==> Agree(cps)
    ensures r.Ok? ==> (forall k | k in cps :: cps[k].at == r.value) && (cps == map[] ==> r.value == BEGINNING_OF_TIME)
  {
    if !Agree(cps) then Err(CheckpointsDisagree)
    else if cps == map[] then Ok(BEGINNING_OF_TIME)
    else var k :| k in cps; Ok(cps[k].at)
  }

  function Base(cps: map<nat, Checkpoint>, sku: nat): int {
    if sku in cps then cps[sku].quantity else 0
  }

  /** What the schema and the writers keep: one checkpoint instant, checkpoints only of existing SKUs. */
  ghost predicate Valid(s: Store) {
    Agree(s.checkpoints) && forall k | k in s.checkpoints :: k in s.ledger.skus
  }

  ghost function Mark(s: Store): Instant
    requires Valid(s)
  {
    Watermark(s.checkpoints).value
  }

  /** Checkpointed quantity plus the movements at or after the checkpoint. */
  ghost function Derived(s: Store, sku: nat): int
    requires Valid(s) && sku in s.ledger.skus
  {
    Base(s.checkpoints, sku) + Flow(s.ledger, sku, Mark(s), None)
  }

  // ---------------------------------------------------------------- writing the checkpoint

  /** `write_ledger_checkpoint`. */
  ghost function WriteCheckpoint(s: Store, cutoff: Instant): Result<Store, RetentionError> {
    match Watermark(s.checkpoints)
    case Err(e) => Err(e)
    case Ok(mark) =>
      if cutoff <= mark then Err(CutoffNotAdvanced) else Ok(s.(checkpoints := Advanced(s, mark, cutoff)))
  }

  function Advanced(s: Store, mark: Instant, cutoff: Instant): map<nat, Checkpoint> {
    s.checkpoints + map k | k in s.ledger.skus ::
      Checkpoint(Base(s.checkpoints, k) + Flow(s.ledger, k, mark, Some(cutoff)), cutoff)
  }

  lemma FlowSplits(l: Ledger, sku: nat, lo: Instant, mid: Instant)
    requires sku in l.skus && lo <= mid
    ensures Flow(l, sku, lo, None) == Flow(l, sku, lo, Some(mid)) + Flow(l, sku, mid, None)
  {
    var w := l.skus[sku].warehouse;
    SumSplits(l.entries, EntriesWithin(sku, w, lo, None), EntriesWithin(sku, w, lo, Some(mid)), EntriesWithin(sku, w, mid, None));
    SumSplits(l.exits, ExitsWithin(sku, w, lo, None), ExitsWithin(sku, w, lo, Some(mid)), ExitsWithin(sku, w, mid, None));
  }

  /** A written checkpoint moves the base without moving any balance. */
  lemma CheckpointKeepsBalances(s: Store, cutoff: Instant)
    requires Valid(s) && WriteCheckpoint(s, cutoff).Ok?
    ensures var t := WriteCheckpoint(s, cutoff).value;
      && t.ledger == s.ledger && t.balances == s.balances && Valid(t)
      && (s.ledger.skus != map[] ==> Mark(t) == cutoff)
      && forall k | k in s.ledger.skus :: Derived(t, k) == Derived(s, k)
  {
    var t := WriteCheckpoint(s, cutoff).value;
    CheckpointAdvances(s, t, cutoff);
    forall k | k in s.ledger.skus ensures Derived(t, k) == Derived(s, k) {
      FlowSplits(s.ledger, k, Mark(s), cutoff);
    }
  }

  lemma CheckpointAdvances(s: Store, t: Store, cutoff: Instant)
    requires Valid(s) && WriteCheckpoint(s, cutoff) == Ok(t)
    ensures Valid(t) && t.checkpoints.Keys == s.ledger.skus.Keys
    ensures s.ledger.skus != map[] ==> Mark(t) == cutoff
    ensures forall k | k in s.ledger.skus ::
      t.checkpoints[k] == Checkpoint(Base(s.checkpoints, k) + Flow(s.ledger, k, Mark(s), Some(cutoff)), cutoff)
  {
    if s.ledger.skus != map[] {
      var k :| k in s.ledger.skus;
      assert k in t.checkpoints;
    }
  }

  // ---------------------------------------------------------------- deleting

  datatype Step = DiscrepancyStep | StockoutStep | ExitStep | EntryStep

  predicate HasChild(cs: seq<Child>, exit: nat) {
    exists c | c in cs :: c.exit == exit
  }

  function OldParents(l: Ledger, cs: seq<Child>, cutoff: Instant): set<nat> {
    set x | x in l.exits && x.at < cutoff && HasChild(cs, x.id) :: x.id
  }

  /** The identifiers the step's inner SELECT ranges over: children go by their parent's age. */
  function Victims(l: Ledger, step: Step, cutoff: Instant): set<nat> {
    match step
    case DiscrepancyStep => OldParents(l, l.discrepancies, cutoff)
    case StockoutStep => OldParents(l, l.stockouts, cutoff)
    case ExitStep => set x | x in l.exits && x.at < cutoff :: x.id
    case EntryStep => set e | e in l.entries && e.at < cutoff :: e.id
  }

  function NotUnder(ids: set<nat>): Child -> bool { (c: Child) => c.exit !in ids }

  function ExitOutside(ids: set<nat>): Exit -> bool { (x: Exit) => x.id !in ids }

  function EntryOutside(ids: set<nat>): Entry -> bool { (e: Entry) => e.id !in ids }

  function Remove(l: Ledger, step: Step, ids: set<nat>): Ledger {
    match step
    case DiscrepancyStep => l.(discrepancies := Kept(l.discrepancies, NotUnder(ids)))
    case StockoutStep => l.(stockouts := Kept(l.stockouts, NotUnder(ids)))
    case ExitStep => l.(exits := Kept(l.exits, ExitOutside(ids)))
    case EntryStep => l.(entries := Kept(l.entries, EntryOutside(ids)))
  }

  function Itself(id: nat): int { id }

  /** `ORDER BY id LIMIT :batch`: as many as there are up to the batch size, and those with the least identifiers. */
  ghost function Lowest(ids: set<nat>, batch: nat): (least: set<nat>)
    ensures least <= ids && |least| == Min(batch, |ids|)
    ensures forall a, b | a in least && b in ids - least :: a < b
    ensures least == {} <==> ids == {} || batch == 0
  {
    First(Sorted(ids, Itself), ids, batch)
  }

  ghost function First(all: seq<nat>, ids: set<nat>, batch: nat): (least: set<nat>)
    requires Lists(all, ids) && Ascending(all, Itself)
    ensures least <= ids && |least| == Min(batch, |ids|)
    ensures forall a, b | a in least && b in ids - least :: a < b
    ensures least == {} <==> ids == {} || batch == 0
  {
    var first := all[..Min(batch, |all|)];
    var chosen := set id | id in first;
    ListedOnce(all, ids, Itself);
    ListedOnce(first, chosen, Itself);
    FirstAreLeast(all, ids, first, chosen);
    chosen
  }

  lemma FirstAreLeast(all: seq<nat>, ids: set<nat>, first: seq<nat>, chosen: set<nat>)
    requires Lists(all, ids) && Ascending(all, Itself) && first <= all && Lists(first, chosen)
    ensures chosen <= ids && forall a, b | a in chosen && b in ids - chosen :: a < b
  {
    forall a | a in chosen ensures a in ids {
      var i :| 0 <= i < |first| && first[i] == a;
      assert all[i] == a && a in all;
    }
    forall a, b | a in chosen && b in ids - chosen ensures a < b {
      assert a in first && b in all && b !in first;
      var i, j :| 0 <= i < |first| && first[i] == a && 0 <= j < |all| && all[j] == b;
      assert Itself(all[i]) < Itself(all[j]);
    }
  }

  /** One committed batch. */
  ghost function Batch(l: Ledger, step: Step, cutoff: Instant, batch: nat): Ledger {
    Remove(l, step, Lowest(Victims(l, step, cutoff), batch))
  }

  function RowCount(l: Ledger): nat {
    |l.entries| + |l.exits| + |l.stockouts| + |l.discrepancies|
  }

  function EntryId(e: Entry): int { e.id }

  function ExitId(x: Exit): int { x.id }

  /** Tables are kept in the order of their primary keys, and a child's exit exists. */
  ghost predicate KeysOk(l: Ledger) {
    && Ascending(l.entries, EntryId) && Ascending(l.exits, ExitId)
    && ParentsExist(l, l.stockouts) && ParentsExist(l, l.discrepancies)
  }

  ghost predicate ParentsExist(l: Ledger, cs: seq<Child>) {
    forall c | c in cs :: IsExit(l, c.exit)
  }

  predicate IsExit(l: Ledger, id: nat) {
    exists x | x in l.exits :: x.id == id
  }

  /** No old exit has a child: what `ON DELETE RESTRICT` demands of the exit step. */
  ghost predicate NoOldChildren(l: Ledger, cutoff: Instant) {
    Victims(l, DiscrepancyStep, cutoff) == {} && Victims(l, StockoutStep, cutoff) == {}
  }
}
