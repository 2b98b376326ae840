/** Finite sets listed in order, as `ORDER BY` does. */
module Enumeration {

  predicate Decreasing(rows: seq<nat>) {
    forall i, j :: 0 <= i < j < |rows| ==> rows[i] > rows[j]
  }

  predicate Lists(rows: seq<nat>, s: set<nat>) {
    (forall r :: r in rows ==> r in s) && (forall r :: r in s ==> r in rows)
  }

  lemma LargestExists(s: set<nat>)
    requires s != {}
    ensures exists top :: IsLargest(s, top)
  {
    var x :| x in s;
    var rest := s - {x};
    if rest == {} {
      assert s == {x};
      assert IsLargest(s, x);
    } else {
      LargestExists(rest);
      var top :| IsLargest(rest, top);
      var best := if x > top then x else top;
      forall r | r in s ensures r <= best { assert r == x || r in rest; }
      assert IsLargest(s, best);
    }
  }

  predicate IsLargest(s: set<nat>, top: nat) {
    top in s && forall r :: r in s ==> r <= top
  }

  function Largest(s: set<nat>): (top: nat)
    requires s != {}
    ensures IsLargest(s, top)
  {
    LargestExists(s);
    var top :| IsLargest(s, top);
    top
  }

  function Descending(s: set<nat>): seq<nat> {
    if s == {} then [] else [Largest(s)] + Descending(s - {Largest(s)})
  }

  lemma {:induction false} DescendingLists(s: set<nat>)
    ensures |Descending(s)| == |s| && Decreasing(Descending(s)) && Lists(Descending(s), s)
  {
    if s != {} {
      var top := Largest(s);
      var rest := Descending(s - {top});
      DescendingLists(s - {top});
      forall j | 0 <= j < |rest| ensures top > rest[j] { assert rest[j] in s - {top}; }
    }
  }

  lemma {:induction false} DistinctSize(rows: seq<nat>, s: set<nat>)
    requires Decreasing(rows) && Lists(rows, s)
    ensures |s| == |rows|
  {
    if rows != [] {
      var front, last := rows[..|rows| - 1], rows[|rows| - 1];
      assert last !in front;
      DistinctSize(front, s - {last});
    }
  }

  /** In a decreasing list, the elements above the one at `i` are those before it. */
  lemma AboveArePrefix(rows: seq<nat>, i: nat, above: set<nat>)
    requires Decreasing(rows) && i < |rows|
    requires forall r :: r in above <==> r in rows && r > rows[i]
    ensures |above| == i
  {
    forall r | r in rows ensures r > rows[i] <==> r in rows[..i] {
      var j :| 0 <= j < |rows| && rows[j] == r;
    }
    DistinctSize(rows[..i], above);
  }

  // ---------------------------------------------------------------- ranked queries

  ghost predicate Smallest<T(!new)>(s: set<T>, rank: T -> nat, x: T) {
    x in s && forall y :: y in s ==> rank(x) <= rank(y)
  }

  lemma {:induction false} SmallestExists<T(!new)>(s: set<T>, rank: T -> nat)
    requires s != {}
    ensures exists x :: Smallest(s, rank, x)
    decreases |s|
  {
    var x :| x in s;
    if s == {x} {
      assert Smallest(s, rank, x);
    } else {
      SmallestExists(s - {x}, rank);
      var y :| Smallest(s - {x}, rank, y);
      assert Smallest(s, rank, if rank(x) <= rank(y) then x else y);
    }
  }

  ghost predicate Ascending<T(!new)>(rows: seq<T>, rank: T -> nat) {
    forall i, j :: 0 <= i < j < |rows| ==> rank(rows[i]) < rank(rows[j])
  }

  /** `ORDER BY` a key with distinct ranks. */
  method Ordered<T(!new, ==)>(s: set<T>, rank: T -> nat) returns (rows: seq<T>)
    requires forall a, b :: a in s && b in s && rank(a) == rank(b) ==> a == b
    ensures Ascending(rows, rank)
    ensures forall x :: x in rows <==> x in s
    ensures forall i :: 0 <= i < |rows| ==> rows[i] in s
  {
    rows := [];
    var rest := s;
    while rest != {}
      invariant Ascending(rows, rank)
      invariant forall x :: x in s <==> x in rows || x in rest
      invariant forall x, y :: x in rows && y in rest ==> rank(x) < rank(y)
      decreases |rest|
    {
      SmallestExists(rest, rank);
      var x :| x in rest && forall y :: y in rest ==> rank(x) <= rank(y);
      rows, rest := rows + [x], rest - {x};
    }
  }
}
