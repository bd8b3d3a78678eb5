/** A stable insertion sort: Python's `sorted` with a key, for any order that says when one element
    goes before another. */
module Sorting {

  /** Of two elements at most one goes before the other, and ties are transitive. */
  ghost predicate StrictWeakOrder<T(!new)>(before: (T, T) -> bool) {
    && (forall x, y :: before(x, y) ==> !before(y, x))
    && (forall x, y, z :: !before(x, y) && !before(y, z) ==> !before(x, z))
  }

  /** Insertion after every element that the new one does not go before. */
  function Insert<T>(sorted: seq<T>, x: T, before: (T, T) -> bool): seq<T> {
    if sorted == [] || !before(x, sorted[|sorted| - 1]) then sorted + [x]
    else Insert(sorted[..|sorted| - 1], x, before) + [sorted[|sorted| - 1]]
  }

  function Sort<T>(xs: seq<T>, before: (T, T) -> bool): seq<T> {
    if xs == [] then [] else Insert(Sort(xs[..|xs| - 1], before), xs[|xs| - 1], before)
  }

  predicate Sorted<T>(xs: seq<T>, before: (T, T) -> bool) {
    forall i, j :: 0 <= i < j < |xs| ==> !before(xs[j], xs[i])
  }

  lemma FrontAndLast<T>(xs: seq<T>)
    requires xs != []
    ensures xs == xs[..|xs| - 1] + [xs[|xs| - 1]]
    ensures multiset(xs) == multiset(xs[..|xs| - 1]) + multiset{xs[|xs| - 1]}
  {
    assert xs == xs[..|xs| - 1] + [xs[|xs| - 1]];
  }

  lemma {:induction false} InsertPermutes<T>(sorted: seq<T>, x: T, before: (T, T) -> bool)
    ensures multiset(Insert(sorted, x, before)) == multiset(sorted) + multiset{x}
  {
    if sorted != [] && before(x, sorted[|sorted| - 1]) {
      InsertPermutes(sorted[..|sorted| - 1], x, before);
      FrontAndLast(sorted);
    }
  }

  lemma {:induction false} SortPermutes<T>(xs: seq<T>, before: (T, T) -> bool)
    ensures multiset(Sort(xs, before)) == multiset(xs)
    ensures forall x :: x in Sort(xs, before) <==> x in xs
  {
    if xs != [] {
      SortPermutes(xs[..|xs| - 1], before);
      InsertPermutes(Sort(xs[..|xs| - 1], before), xs[|xs| - 1], before);
      FrontAndLast(xs);
    }
    assert forall x :: x in Sort(xs, before) <==> x in multiset(Sort(xs, before));
    assert forall x :: x in xs <==> x in multiset(xs);
  }

  lemma {:induction false} InsertSorts<T(!new)>(sorted: seq<T>, x: T, before: (T, T) -> bool)
    requires StrictWeakOrder(before) && Sorted(sorted, before)
    ensures Sorted(Insert(sorted, x, before), before)
  {
    if sorted != [] && before(x, sorted[|sorted| - 1]) {
      var front, last := sorted[..|sorted| - 1], sorted[|sorted| - 1];
      InsertSorts(front, x, before);
      InsertPermutes(front, x, before);
      forall i | 0 <= i < |Insert(front, x, before)| ensures !before(last, Insert(front, x, before)[i]) {
        assert Insert(front, x, before)[i] in multiset(front) + multiset{x};
      }
    }
  }

  lemma {:induction false} SortSorts<T(!new)>(xs: seq<T>, before: (T, T) -> bool)
    requires StrictWeakOrder(before)
    ensures Sorted(Sort(xs, before), before)
  {
    if xs != [] {
      SortSorts(xs[..|xs| - 1], before);
      InsertSorts(Sort(xs[..|xs| - 1], before), xs[|xs| - 1], before);
    }
  }

  // ---------------------------------------------------------------------------
  // What holds of every two elements
  // ---------------------------------------------------------------------------

  predicate Pairwise<T>(xs: seq<T>, related: (T, T) -> bool) {
    forall i, j :: 0 <= i < j < |xs| ==> related(xs[i], xs[j])
  }

  ghost predicate Symmetric<T(!new)>(related: (T, T) -> bool) {
    forall x, y :: related(x, y) ==> related(y, x)
  }

  lemma {:induction false} InsertKeepsPairs<T(!new)>(sorted: seq<T>, x: T, before: (T, T) -> bool,
                                                     related: (T, T) -> bool)
    requires Symmetric(related) && Pairwise(sorted, related)
    requires forall y :: y in sorted ==> related(y, x)
    ensures Pairwise(Insert(sorted, x, before), related)
  {
    if sorted != [] && before(x, sorted[|sorted| - 1]) {
      var front, last := sorted[..|sorted| - 1], sorted[|sorted| - 1];
      InsertKeepsPairs(front, x, before, related);
      InsertPermutes(front, x, before);
      forall i | 0 <= i < |Insert(front, x, before)| ensures related(Insert(front, x, before)[i], last) {
        assert Insert(front, x, before)[i] in multiset(front) + multiset{x};
      }
    }
  }

  lemma {:induction false} SortKeepsPairs<T(!new)>(xs: seq<T>, before: (T, T) -> bool, related: (T, T) -> bool)
    requires Symmetric(related) && Pairwise(xs, related)
    ensures Pairwise(Sort(xs, before), related)
  {
    if xs != [] {
      var front, last := xs[..|xs| - 1], xs[|xs| - 1];
      SortKeepsPairs(front, before, related);
      SortPermutes(front, before);
      forall y | y in Sort(front, before) ensures related(y, last) {
        var i :| 0 <= i < |front| && front[i] == y;
        assert xs[i] == y;
      }
      InsertKeepsPairs(Sort(front, before), last, before, related);
    }
  }

  // ---------------------------------------------------------------------------
  // Stability
  // ---------------------------------------------------------------------------

  function Keep<T>(xs: seq<T>, kept: T -> bool): seq<T> {
    if xs == [] then []
    else
      var front, last := Keep(xs[..|xs| - 1], kept), xs[|xs| - 1];
      if kept(last) then front + [last] else front
  }

  lemma KeepAppend<T>(xs: seq<T>, x: T, kept: T -> bool)
    ensures Keep(xs + [x], kept) == if kept(x) then Keep(xs, kept) + [x] else Keep(xs, kept)
  {
    assert (xs + [x])[..|xs|] == xs;
  }

  /** No kept element goes before another. */
  ghost predicate Ties<T(!new)>(kept: T -> bool, before: (T, T) -> bool) {
    forall x, y :: kept(x) && kept(y) ==> !before(x, y)
  }

  lemma {:induction false} InsertIsStable<T(!new)>(sorted: seq<T>, x: T, before: (T, T) -> bool, kept: T -> bool)
    requires Ties(kept, before)
    ensures Keep(Insert(sorted, x, before), kept) == Keep(sorted + [x], kept)
  {
    if sorted != [] && before(x, sorted[|sorted| - 1]) {
      var front, last := sorted[..|sorted| - 1], sorted[|sorted| - 1];
      InsertIsStable(front, x, before, kept);
      KeepAppend(Insert(front, x, before), last, kept);
      KeepAppend(front, x, kept);
      KeepAppend(sorted, x, kept);
    }
  }

  /** The sort is stable: elements that tie keep their order. */
  lemma {:induction false} SortIsStable<T(!new)>(xs: seq<T>, before: (T, T) -> bool, kept: T -> bool)
    requires Ties(kept, before)
    ensures Keep(Sort(xs, before), kept) == Keep(xs, kept)
  {
    if xs != [] {
      var front, last := xs[..|xs| - 1], xs[|xs| - 1];
      SortIsStable(front, before, kept);
      InsertIsStable(Sort(front, before), last, before, kept);
      KeepAppend(Sort(front, before), last, kept);
    }
  }
}
