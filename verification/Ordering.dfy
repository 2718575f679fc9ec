/** Sorting by a real key, as the standard library's sorts do: a permutation in ascending order. */
module Ordering {

  ghost predicate SortedBy<T>(xs: seq<T>, key: T -> real) {
    forall i, j :: 0 <= i < j < |xs| ==> key(xs[i]) <= key(xs[j])
  }

  function InsertBy<T>(x: T, xs: seq<T>, key: T -> real): (ys: seq<T>)
    requires SortedBy(xs, key)
    ensures SortedBy(ys, key)
    ensures multiset(ys) == multiset(xs) + multiset{x}
  {
    if xs == [] then [x]
    else if key(x) <= key(xs[0]) then [x] + xs
    else
      var rest := InsertBy(x, xs[1..], key);
      assert xs == [xs[0]] + xs[1..];
      PrependLeast(xs[0], rest, xs[1..], x, key);
      [xs[0]] + rest
  }

  lemma PrependLeast<T>(h: T, ys: seq<T>, xs: seq<T>, x: T, key: T -> real)
    requires forall i :: 0 <= i < |xs| ==> key(h) <= key(xs[i])
    requires key(h) <= key(x)
    requires SortedBy(ys, key) && multiset(ys) == multiset(xs) + multiset{x}
    ensures SortedBy([h] + ys, key)
  {
    forall i | 0 <= i < |ys| ensures key(h) <= key(ys[i]) {
      assert ys[i] in multiset(ys);
      assert ys[i] in xs || ys[i] == x;
    }
  }

  function SortBy<T>(xs: seq<T>, key: T -> real): (ys: seq<T>)
    ensures SortedBy(ys, key)
    ensures multiset(ys) == multiset(xs)
  {
    if xs == [] then []
    else
      assert xs == [xs[0]] + xs[1..];
      InsertBy(xs[0], SortBy(xs[1..], key), key)
  }
}
