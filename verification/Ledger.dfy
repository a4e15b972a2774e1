/** The raw movement ledger and its aggregation by hour, warehouse and client. */
module Ledger {
  import opened Instants

  datatype Warehouse = LA | ZGZ

  /** A client UUID as the 128-bit number it spells. */
  const CLIENTS: int := 0x1_0000_0000_0000_0000_0000_0000_0000_0000
  type Client = c: int | 0 <= c < CLIENTS

  datatype Dim = Dim(warehouse: Warehouse, client: Client)

  datatype Entry = Entry(id: nat, sku: nat, warehouse: Warehouse, quantity: nat, at: Instant)

  datatype ExitKind = Dispatch | Loss

  datatype Exit = Exit(id: nat, sku: nat, warehouse: Warehouse, quantity: nat, kind: ExitKind, at: Instant)

  /** A stockout or discrepancy event; `delta` is the discrepancy's quantity. */
  datatype Child = Child(id: nat, exit: nat, dim: Dim, delta: int, at: Instant)

  datatype Ledger = Ledger(
    skus: map<nat, Dim>,
    entries: seq<Entry>,
    exits: seq<Exit>,
    stockouts: seq<Child>,
    discrepancies: seq<Child>)

  /** `SELECT DISTINCT warehouse, client_id FROM skus`. */
  function Dims(l: Ledger): set<Dim> {
    set s | s in l.skus :: l.skus[s]
  }

  /** What the schema's keys and checks guarantee: tables in ascending id, positive quantities, movements
      in the warehouse of their SKU, events whose (warehouse, client) is a SKU's. */
  ghost predicate WellFormed(l: Ledger) {
    && (forall i, j :: 0 <= i < j < |l.entries| ==> l.entries[i].id < l.entries[j].id)
    && (forall i, j :: 0 <= i < j < |l.exits| ==> l.exits[i].id < l.exits[j].id)
    && (forall e | e in l.entries :: e.id > 0 && e.quantity > 0 && e.sku in l.skus && l.skus[e.sku].warehouse == e.warehouse)
    && (forall x | x in l.exits :: x.id > 0 && x.quantity > 0 && x.sku in l.skus && l.skus[x.sku].warehouse == x.warehouse)
    && ChildrenOk(l, l.stockouts) && ChildrenOk(l, l.discrepancies)
  }

  ghost predicate ChildrenOk(l: Ledger, cs: seq<Child>) {
    && (forall i, j :: 0 <= i < j < |cs| ==> cs[i].id < cs[j].id)
    && (forall c | c in cs :: c.id > 0 && c.delta != 0 && c.dim in Dims(l))
  }

  datatype Metric =
    | InboundMovements | InboundUnits | DispatchOrders | DispatchUnits
    | LossMovements | LossUnits | Stockouts | Discrepancies

  /** One row as one aggregate sees it: its group, its hour and what it adds. */
  datatype Fact = Fact(dim: Dim, hour: int, amount: nat)

  function ClientOf(skus: map<nat, Dim>, sku: nat): Client {
    if sku in skus then skus[sku].client else 0
  }

  /** `count(*)` and `sum(quantity)`; the inner join drops a row without its SKU. */
  function EntryFact(skus: map<nat, Dim>, m: Metric, e: Entry): Fact {
    Fact(Dim(e.warehouse, ClientOf(skus, e.sku)), HourOf(e.at),
         if e.sku !in skus then 0 else if m == InboundUnits then e.quantity else 1)
  }

  function ExitFact(skus: map<nat, Dim>, m: Metric, x: Exit): Fact {
    var wanted := if m == LossMovements || m == LossUnits then Loss else Dispatch;
    Fact(Dim(x.warehouse, ClientOf(skus, x.sku)), HourOf(x.at),
         if x.sku !in skus || x.kind != wanted then 0
         else if m == DispatchUnits || m == LossUnits then x.quantity else 1)
  }

  function ChildFact(c: Child): Fact {
    Fact(c.dim, HourOf(c.at), 1)
  }

  function FactsOf(l: Ledger, m: Metric): seq<Fact> {
    match m
    case InboundMovements | InboundUnits => seq(|l.entries|, i requires 0 <= i < |l.entries| => EntryFact(l.skus, m, l.entries[i]))
    case Stockouts => seq(|l.stockouts|, i requires 0 <= i < |l.stockouts| => ChildFact(l.stockouts[i]))
    case Discrepancies => seq(|l.discrepancies|, i requires 0 <= i < |l.discrepancies| => ChildFact(l.discrepancies[i]))
    case _ => seq(|l.exits|, i requires 0 <= i < |l.exits| => ExitFact(l.skus, m, l.exits[i]))
  }

  predicate Counts(f: Fact, d: Dim, lo: int, hi: int) {
    f.dim == d && lo <= f.hour < hi
  }

  /** The aggregate of one group over the hours [lo, hi). */
  function Tally(fs: seq<Fact>, d: Dim, lo: int, hi: int): nat {
    if fs == [] then 0
    else Tally(fs[..|fs| - 1], d, lo, hi) + if Counts(fs[|fs| - 1], d, lo, hi) then fs[|fs| - 1].amount else 0
  }

  lemma {:induction false} TallySplits(fs: seq<Fact>, d: Dim, lo: int, mid: int, hi: int)
    requires lo <= mid <= hi
    ensures Tally(fs, d, lo, hi) == Tally(fs, d, lo, mid) + Tally(fs, d, mid, hi)
  {
    if fs != [] {
      TallySplits(fs[..|fs| - 1], d, lo, mid, hi);
    }
  }

  /** A positive aggregate has a row behind it. */
  lemma {:induction false} TallyHasARow(fs: seq<Fact>, d: Dim, lo: int, hi: int)
    ensures Tally(fs, d, lo, hi) > 0 <==> exists i :: 0 <= i < |fs| && Counts(fs[i], d, lo, hi) && fs[i].amount > 0
  {
    if fs != [] {
      var init := fs[..|fs| - 1];
      TallyHasARow(init, d, lo, hi);
      if Tally(init, d, lo, hi) > 0 {
        var i :| 0 <= i < |init| && Counts(init[i], d, lo, hi) && init[i].amount > 0;
        assert Counts(fs[i], d, lo, hi) && fs[i].amount > 0;
      }
      if exists i :: 0 <= i < |fs| && Counts(fs[i], d, lo, hi) && fs[i].amount > 0 {
        var i :| 0 <= i < |fs| && Counts(fs[i], d, lo, hi) && fs[i].amount > 0;
        assert i < |init| ==> Counts(init[i], d, lo, hi) && init[i].amount > 0;
      }
    }
  }

  lemma {:induction false} TallyEmptyRange(fs: seq<Fact>, d: Dim, lo: int, hi: int)
    requires hi <= lo
    ensures Tally(fs, d, lo, hi) == 0
  {
    if fs != [] { TallyEmptyRange(fs[..|fs| - 1], d, lo, hi); }
  }
}
