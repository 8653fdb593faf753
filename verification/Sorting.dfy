// Insertion sort by a key: what a library sort leaves behind, elements with the same key
// in the order in which they came.
module Sorting {

  function InsertBy<T>(key: T -> real, xs: seq<T>, x: T): seq<T> {
    if xs == [] || key(xs[|xs| - 1]) <= key(x) then xs + [x]
    else InsertBy(key, xs[..|xs| - 1], x) + [xs[|xs| - 1]]
  }

  function SortBy<T>(key: T -> real, xs: seq<T>): seq<T> {
    if xs == [] then [] else InsertBy(key, SortBy(key, xs[..|xs| - 1]), xs[|xs| - 1])
  }

  ghost predicate Sorted<T>(key: T -> real, xs: seq<T>) {
    forall i, j :: 0 <= i < j < |xs| ==> key(xs[i]) <= key(xs[j])
  }

  lemma Init<T>(xs: seq<T>)
    requires xs != []
    ensures xs == xs[..|xs| - 1] + [xs[|xs| - 1]] && multiset(xs) == multiset(xs[..|xs| - 1]) + multiset{xs[|xs| - 1]}
  {
    assert xs == xs[..|xs| - 1] + [xs[|xs| - 1]];
  }

  lemma {:induction false} InsertHolds<T>(key: T -> real, xs: seq<T>, x: T)
    ensures multiset(InsertBy(key, xs, x)) == multiset(xs) + multiset{x}
  {
    if xs != [] && key(xs[|xs| - 1]) > key(x) {
      InsertHolds(key, xs[..|xs| - 1], x);
      Init(xs);
    }
  }

  lemma SortedSnoc<T>(key: T -> real, xs: seq<T>, last: T)
    requires Sorted(key, xs) && forall y :: y in multiset(xs) ==> key(y) <= key(last)
    ensures Sorted(key, xs + [last])
  {
    forall i | 0 <= i < |xs| ensures key(xs[i]) <= key(last) {
      assert xs[i] in multiset(xs);
    }
  }

  lemma SortedMax<T>(key: T -> real, xs: seq<T>)
    requires Sorted(key, xs) && xs != []
    ensures Sorted(key, xs[..|xs| - 1])
    ensures forall y :: y in multiset(xs) ==> key(y) <= key(xs[|xs| - 1])
  {
    forall y | y in multiset(xs) ensures key(y) <= key(xs[|xs| - 1]) {
      assert y in xs;
    }
  }

  lemma {:induction false} InsertSorts<T>(key: T -> real, xs: seq<T>, x: T)
    requires Sorted(key, xs)
    ensures Sorted(key, InsertBy(key, xs, x))
  {
    InsertHolds(key, xs, x);
    if xs == [] {
    } else if key(xs[|xs| - 1]) > key(x) {
      var init, last := xs[..|xs| - 1], xs[|xs| - 1];
      SortedMax(key, xs);
      InsertSorts(key, init, x);
      InsertHolds(key, init, x);
      Init(xs);
      hide Sorted;
      SortedSnoc(key, InsertBy(key, init, x), last);
    } else {
      SortedMax(key, xs);
      hide Sorted;
      SortedSnoc(key, xs, x);
    }
  }

  // The result is sorted and holds the same elements.
  lemma {:induction false} SortSorts<T>(key: T -> real, xs: seq<T>)
    ensures Sorted(key, SortBy(key, xs)) && multiset(SortBy(key, xs)) == multiset(xs) && |SortBy(key, xs)| == |xs|
  {
    if xs != [] {
      var init, last := xs[..|xs| - 1], xs[|xs| - 1];
      SortSorts(key, init);
      hide Sorted;
      InsertSorts(key, SortBy(key, init), last);
      InsertHolds(key, SortBy(key, init), last);
      Init(xs);
    }
    assert |multiset(SortBy(key, xs))| == |multiset(xs)|;
  }

  // What is sorted already stays as it is.
  lemma {:induction false} SortOfSorted<T>(key: T -> real, xs: seq<T>)
    requires Sorted(key, xs)
    ensures SortBy(key, xs) == xs
  {
    if xs != [] {
      SortOfSorted(key, xs[..|xs| - 1]);
      assert xs == xs[..|xs| - 1] + [xs[|xs| - 1]];
    }
  }
}
