/** A stable sort by an order, for the lists the scripts sort before they walk them. */
module Sorting {
  type Order<!T> = (T, T) -> bool

  /** The first of equals stays first. */
  function Insert<T>(c: T, xs: seq<T>, before: Order<T>): seq<T> {
    if xs == [] || before(c, xs[0]) then [c] + xs else [xs[0]] + Insert(c, xs[1..], before)
  }

  function Sort<T>(xs: seq<T>, before: Order<T>): seq<T> {
    if xs == [] then [] else Insert(xs[0], Sort(xs[1..], before), before)
  }

  ghost predicate Sorted<T>(xs: seq<T>, before: Order<T>) {
    forall i, j | 0 <= i < j < |xs| :: before(xs[i], xs[j])
  }

  ghost predicate Total<T(!new)>(before: Order<T>) {
    (forall x, y :: before(x, y) || before(y, x)) && (forall x, y, z :: before(x, y) && before(y, z) ==> before(x, z))
  }

  lemma {:induction false} InsertKeeps<T>(c: T, xs: seq<T>, before: Order<T>)
    ensures multiset(Insert(c, xs, before)) == multiset(xs) + multiset{c}
  {
    if xs != [] && !before(c, xs[0]) {
      InsertKeeps(c, xs[1..], before);
      assert xs == [xs[0]] + xs[1..];
    }
  }

  lemma {:induction false} SortedCons<T>(c: T, rest: seq<T>, before: Order<T>)
    requires Sorted(rest, before) && forall x | x in rest :: before(c, x)
    ensures Sorted([c] + rest, before)
  {
  }

  lemma {:induction false} FirstIsLeast<T>(xs: seq<T>, before: Order<T>)
    requires xs != [] && Sorted(xs, before)
    ensures forall x | x in xs[1..] :: before(xs[0], x)
  {
  }

  lemma {:induction false} InsertSorts<T(!new)>(c: T, xs: seq<T>, before: Order<T>)
    requires Total(before) && Sorted(xs, before)
    ensures Sorted(Insert(c, xs, before), before)
  {
    if xs != [] {
      var rest := xs[1..];
      FirstIsLeast(xs, before);
      if before(c, xs[0]) {
        forall x | x in xs
          ensures before(c, x)
        {
          assert x == xs[0] || x in rest;
        }
        SortedCons(c, xs, before);
      } else {
        InsertSorts(c, rest, before);
        InsertKeeps(c, rest, before);
        forall x | x in Insert(c, rest, before)
          ensures before(xs[0], x)
        {
          assert x in multiset(Insert(c, rest, before));
          assert x == c || x in rest;
        }
        SortedCons(xs[0], Insert(c, rest, before), before);
      }
    }
  }

  /** The sorted list is sorted and holds the same items as often. */
  lemma {:induction false} SortSorts<T(!new)>(xs: seq<T>, before: Order<T>)
    requires Total(before)
    ensures Sorted(Sort(xs, before), before) && multiset(Sort(xs, before)) == multiset(xs)
  {
    if xs != [] {
      SortSorts(xs[1..], before);
      InsertSorts(xs[0], Sort(xs[1..], before), before);
      InsertKeeps(xs[0], Sort(xs[1..], before), before);
      assert xs == [xs[0]] + xs[1..];
    }
  }

  lemma {:induction false} SortedMembers<T(!new)>(xs: seq<T>, before: Order<T>)
    requires Total(before)
    ensures Sorted(Sort(xs, before), before) && forall x :: x in Sort(xs, before) <==> x in xs
  {
    SortSorts(xs, before);
    assert forall x :: x in Sort(xs, before) <==> x in multiset(Sort(xs, before));
    assert forall x :: x in xs <==> x in multiset(xs);
  }

  /** Neither comes before the other alone. */
  predicate Tied<T>(x: T, y: T, before: Order<T>) { before(x, y) && before(y, x) }

  /** The items tied with one, in order. */
  function Ties<T>(xs: seq<T>, p: T, before: Order<T>): seq<T> {
    if xs == [] then [] else (if Tied(xs[0], p, before) then [xs[0]] else []) + Ties(xs[1..], p, before)
  }

  lemma {:induction false} InsertIsStable<T(!new)>(c: T, xs: seq<T>, p: T, before: Order<T>)
    requires Total(before)
    ensures Ties(Insert(c, xs, before), p, before) == Ties([c] + xs, p, before)
  {
    assert ([c] + xs)[1..] == xs;
    if xs != [] && !before(c, xs[0]) {
      var rest := xs[1..];
      InsertIsStable(c, rest, p, before);
      assert ([c] + rest)[1..] == rest;
      var more := Insert(c, rest, before);
      assert Insert(c, xs, before) == [xs[0]] + more && ([xs[0]] + more)[1..] == more;
      assert !(Tied(c, p, before) && Tied(xs[0], p, before));
    }
  }

  /** Tied items keep the order they came in. */
  lemma {:induction false} SortIsStable<T(!new)>(xs: seq<T>, p: T, before: Order<T>)
    requires Total(before)
    ensures Ties(Sort(xs, before), p, before) == Ties(xs, p, before)
  {
    if xs != [] {
      var rest := Sort(xs[1..], before);
      SortIsStable(xs[1..], p, before);
      InsertIsStable(xs[0], rest, p, before);
      assert ([xs[0]] + rest)[1..] == rest;
    }
  }
}
