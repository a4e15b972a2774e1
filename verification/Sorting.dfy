/** Sorting a finite set by an injective integer rank. */
module Sorting {

  ghost predicate Ranked<T(!new)>(s: set<T>, rank: T -> int) {
    forall x, y | x in s && y in s && rank(x) == rank(y) :: x == y
  }

  ghost predicate Ascending<T(!new)>(a: seq<T>, rank: T -> int) {
    forall i, j :: 0 <= i < j < |a| ==> rank(a[i]) < rank(a[j])
  }

  ghost predicate Lists<T(!new)>(a: seq<T>, s: set<T>) {
    forall x :: x in a <==> x in s
  }

  ghost function Least<T(!new)>(s: set<T>, rank: T -> int): (m: T)
    requires s != {}
    ensures m in s && forall x | x in s :: rank(m) <= rank(x)
    decreases |s|
  {
    var x :| x in s;
    if s == {x} then x
    else
      var n := Least(s - {x}, rank);
      assert forall y | y in s :: y == x || y in s - {x};
      if rank(x) <= rank(n) then x else n
  }

  /** The elements of `s` in ascending rank. */
  ghost function Sorted<T(!new)>(s: set<T>, rank: T -> int): (a: seq<T>)
    requires Ranked(s, rank)
    ensures Ascending(a, rank) && Lists(a, s)
    decreases |s|
  {
    if s == {} then []
    else
      var m := Least(s, rank);
      var rest := Sorted(s - {m}, rank);
      Prepend(m, rest, s, rank);
      [m] + rest
  }

  lemma Prepend<T(!new)>(m: T, rest: seq<T>, s: set<T>, rank: T -> int)
    requires Ranked(s, rank) && m in s && forall x | x in s :: rank(m) <= rank(x)
    requires Ascending(rest, rank) && Lists(rest, s - {m})
    ensures Ascending([m] + rest, rank) && Lists([m] + rest, s)
  {
    forall i | 0 <= i < |rest| ensures rank(m) < rank(rest[i]) {
      assert rest[i] in s - {m};
    }
  }

  /** A sorted listing is determined by its elements. */
  lemma {:induction false} SortedUnique<T(!new)>(a: seq<T>, b: seq<T>, s: set<T>, rank: T -> int)
    requires Ascending(a, rank) && Ascending(b, rank) && Lists(a, s) && Lists(b, s)
    ensures a == b
    decreases |a|
  {
    forall i | 0 <= i < |b| ensures b[i] in a { assert b[i] in b; }
    assert b == [] || b[0] in a;
    if a != [] {
      assert a[0] in a;
      assert a[0] in b && b != [];
      ListsRest(a, s, rank);
      ListsRest(b, s, rank);
      SortedUnique(a[1..], b[1..], s - {a[0]}, rank);
    }
  }

  lemma ListsRest<T(!new)>(a: seq<T>, s: set<T>, rank: T -> int)
    requires a != [] && Ascending(a, rank) && Lists(a, s)
    ensures Lists(a[1..], s - {a[0]}) && Ascending(a[1..], rank)
  {
  }

  /** A sorted listing has each element once. */
  lemma {:induction false} ListedOnce<T(!new)>(a: seq<T>, s: set<T>, rank: T -> int)
    requires Ascending(a, rank) && Lists(a, s)
    ensures |a| == |s|
    decreases |a|
  {
    if a != [] {
      assert a[0] in a;
      ListsRest(a, s, rank);
      ListedOnce(a[1..], s - {a[0]}, rank);
    } else {
      assert forall x | x in s :: x in a;
      assert s == {};
    }
  }

  method SelectLeast<T(==, !new)>(s: set<T>, rank: T -> int) returns (m: T)
    requires s != {}
    ensures m in s && forall x | x in s :: rank(m) <= rank(x)
  {
    m :| m in s;
    var rest := s - {m};
    while rest != {}
      invariant rest <= s && m in s
      invariant forall x | x in s - rest :: rank(m) <= rank(x)
      decreases |rest|
    {
      var x :| x in rest;
      rest := rest - {x};
      if rank(x) < rank(m) {
        m := x;
      }
    }
  }

  /** Python's `sorted(…, key=rank)` on distinct ranks. */
  method SortByRank<T(==, !new)>(s: set<T>, rank: T -> int) returns (a: seq<T>)
    requires Ranked(s, rank)
    ensures a == Sorted(s, rank)
  {
    a := [];
    var rest := s;
    while rest != {}
      invariant rest <= s && Ascending(a, rank) && Lists(a, s - rest)
      invariant forall i, x | 0 <= i < |a| && x in rest :: rank(a[i]) < rank(x)
      decreases |rest|
    {
      var m := SelectLeast(rest, rank);
      rest := rest - {m};
      a := a + [m];
      assert Lists(a, s - rest) by {
        forall x ensures x in a <==> x in s - rest {}
      }
    }
    SortedUnique(a, Sorted(s, rank), s, rank);
  }
}
