/** Counting and summing over a list the way the dashboards do it with
    `list.filter(test).length` and `list.reduce((acc, x) => acc + f(x), 0)`,
    both folding from the left. */
module Tally {

  /** `xs.filter(p).length`. */
  function CountWhere<T>(xs: seq<T>, p: T -> bool): (n: nat)
    ensures n <= |xs|
  {
    if xs == [] then 0 else CountWhere(xs[..|xs| - 1], p) + (if p(xs[|xs| - 1]) then 1 else 0)
  }

  /** The positions of the elements that pass `p`. */
  ghost function Positions<T>(xs: seq<T>, p: T -> bool): set<int> {
    set i | 0 <= i < |xs| && p(xs[i])
  }

  /** The count is the number of positions whose element passes. */
  lemma {:induction false} CountIsPositions<T>(xs: seq<T>, p: T -> bool)
    ensures CountWhere(xs, p) == |Positions(xs, p)|
  {
    if xs != [] {
      var n := |xs| - 1;
      var init := xs[..n];
      CountIsPositions(init, p);
      assert forall i :: 0 <= i < n ==> init[i] == xs[i];
      assert Positions(xs, p) == Positions(init, p) + (if p(xs[n]) then {n} else {});
      assert n !in Positions(init, p);
    }
  }

  /** Counting a concatenation counts each part. */
  lemma {:induction false} CountAppend<T>(xs: seq<T>, ys: seq<T>, p: T -> bool)
    ensures CountWhere(xs + ys, p) == CountWhere(xs, p) + CountWhere(ys, p)
    decreases |ys|
  {
    if ys != [] {
      var n := |ys| - 1;
      CountAppend(xs, ys[..n], p);
      assert (xs + ys)[..|xs + ys| - 1] == xs + ys[..n];
    } else {
      assert xs + ys == xs;
    }
  }

  /** Every element is counted by `p` or by its negation, never by both. */
  lemma {:induction false} CountComplement<T>(xs: seq<T>, p: T -> bool, q: T -> bool)
    requires forall x :: q(x) == !p(x)
    ensures CountWhere(xs, p) + CountWhere(xs, q) == |xs|
  {
    if xs != [] {
      CountComplement(xs[..|xs| - 1], p, q);
    }
  }

  /** Two tests no element passes together count no more than the list. */
  lemma {:induction false} DisjointCounts<T>(xs: seq<T>, p: T -> bool, q: T -> bool)
    requires forall x :: !(p(x) && q(x))
    ensures CountWhere(xs, p) + CountWhere(xs, q) <= |xs|
  {
    if xs != [] {
      DisjointCounts(xs[..|xs| - 1], p, q);
    }
  }

  /** `xs.reduce((acc, x) => acc + f(x), 0)`. */
  function SumOf<T>(xs: seq<T>, f: T -> int): (s: int)
    ensures (forall x :: x in xs ==> f(x) >= 0) ==> s >= 0
  {
    if xs == [] then 0 else SumOf(xs[..|xs| - 1], f) + f(xs[|xs| - 1])
  }

  /** Summing a concatenation sums each part. */
  lemma {:induction false} SumAppend<T>(xs: seq<T>, ys: seq<T>, f: T -> int)
    ensures SumOf(xs + ys, f) == SumOf(xs, f) + SumOf(ys, f)
    decreases |ys|
  {
    if ys != [] {
      var n := |ys| - 1;
      SumAppend(xs, ys[..n], f);
      assert (xs + ys)[..|xs + ys| - 1] == xs + ys[..n];
    } else {
      assert xs + ys == xs;
    }
  }
}
