/** Stands for the sort package: callers only learn that the result is an ordered permutation. */
module Sorting {

  ghost predicate TotalPreorder<T(!new)>(leq: (T, T) -> bool) {
    && (forall x, y :: leq(x, y) || leq(y, x))
    && (forall x, y, z :: leq(x, y) && leq(y, z) ==> leq(x, z))
  }

  ghost predicate SortedBy<T>(xs: seq<T>, leq: (T, T) -> bool) {
    forall i, j :: 0 <= i < j < |xs| ==> leq(xs[i], xs[j])
  }

  function Insert<T>(x: T, xs: seq<T>, leq: (T, T) -> bool): (ys: seq<T>)
    ensures multiset(ys) == multiset(xs) + multiset{x}
  {
    if xs == [] || leq(x, xs[0]) then
      [x] + xs
    else
      assert xs == [xs[0]] + xs[1..];
      [xs[0]] + Insert(x, xs[1..], leq)
  }

  lemma {:induction false} InsertKeepsOrder<T(!new)>(x: T, xs: seq<T>, leq: (T, T) -> bool)
    requires TotalPreorder(leq) && SortedBy(xs, leq)
    ensures SortedBy(Insert(x, xs, leq), leq)
  {
    if xs != [] && !leq(x, xs[0]) {
      var tail := Insert(x, xs[1..], leq);
      InsertKeepsOrder(x, xs[1..], leq);
      forall y | y in tail ensures leq(xs[0], y) {
        assert y in multiset(xs[1..]) + multiset{x};
      }
    }
  }

  method Sort<T(!new)>(xs: seq<T>, leq: (T, T) -> bool) returns (sorted: seq<T>)
    requires TotalPreorder(leq)
    ensures SortedBy(sorted, leq)
    ensures multiset(sorted) == multiset(xs)
    ensures |sorted| == |xs|
  {
    sorted := [];
    for i := 0 to |xs|
      invariant SortedBy(sorted, leq)
      invariant multiset(sorted) == multiset(xs[..i])
    {
      InsertKeepsOrder(xs[i], sorted, leq);
      assert xs[..i + 1] == xs[..i] + [xs[i]];
      sorted := Insert(xs[i], sorted, leq);
    }
    assert xs[..|xs|] == xs;
    assert |multiset(sorted)| == |multiset(xs)|;
  }
}
