/** Sums of integer sequences, as `Iterator::sum` and the accumulating loops
    compute them. */
module Sums {

  function Sum(xs: seq<int>): int {
    if xs == [] then 0 else xs[0] + Sum(xs[1..])
  }

  /** Adding one more element at the end adds its value. */
  lemma {:induction false} SumSnoc(xs: seq<int>, x: int)
    ensures Sum(xs + [x]) == Sum(xs) + x
  {
    if xs != [] {
      assert (xs + [x])[1..] == xs[1..] + [x];
      SumSnoc(xs[1..], x);
    }
  }

  /** Extending a prefix by one element adds that element. */
  lemma SumPrefix(xs: seq<int>, i: nat)
    requires i < |xs|
    ensures Sum(xs[..i + 1]) == Sum(xs[..i]) + xs[i]
  {
    assert xs[..i + 1] == xs[..i] + [xs[i]];
    SumSnoc(xs[..i], xs[i]);
  }

  /** The sum of entries each at least `lo` is at least `lo` times the length. */
  lemma {:induction false} SumLowerBound(xs: seq<int>, lo: int)
    requires forall j :: 0 <= j < |xs| ==> xs[j] >= lo
    ensures Sum(xs) >= lo * |xs|
  {
    if xs != [] {
      SumLowerBound(xs[1..], lo);
    }
  }
}
