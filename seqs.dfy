/** Facts about sequences shared by the components. */
module Seqs {

  /** No element occurs twice. */
  predicate Distinct<T(==)>(xs: seq<T>)
  {
    forall i, j :: 0 <= i < j < |xs| ==> xs[i] != xs[j]
  }

  /** An element of a repetition-free sequence occurs in it exactly once. */
  lemma {:induction false} DistinctOnce<T>(xs: seq<T>, x: T)
    requires Distinct(xs) && x in xs
    ensures multiset(xs)[x] == 1
  {
    assert xs == [xs[0]] + xs[1..];
    if x == xs[0] {
      assert x !in xs[1..];
    } else {
      DistinctOnce(xs[1..], x);
    }
  }
}
