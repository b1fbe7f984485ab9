/** Sums of integer amounts (cents). The payment ledger's `COALESCE(SUM(amount), 0)` and the
    column totals of the aging report are both sums of this kind. */
module Sums {

  /** The sum of the amounts; 0 for no amounts at all. */
  function Sum(xs: seq<int>): int
  {
    if xs == [] then 0 else xs[0] + Sum(xs[1..])
  }

  lemma {:induction false} SumAppend(xs: seq<int>, ys: seq<int>)
    ensures Sum(xs + ys) == Sum(xs) + Sum(ys)
  {
    if xs == [] {
      assert xs + ys == ys;
    } else {
      assert (xs + ys)[1..] == xs[1..] + ys;
      SumAppend(xs[1..], ys);
    }
  }
}
