/**
 * Sums and arithmetic means of number lists, with the empty list averaging to 0
 * (Java's `average().orElse(0.0)`, and JavaScript's `sum / length || 0`).
 */
module Numeric {

  /** Left-to-right sum, as `reduce((a, b) => a + b, 0)` accumulates it. */
  function Sum(xs: seq<real>): real
  {
    if xs == [] then 0.0 else Sum(xs[..|xs| - 1]) + xs[|xs| - 1]
  }

  /** `m` is the mean of `xs`: `m` times the number of values is their sum, and 0 stands for no values. */
  ghost predicate IsMean(m: real, xs: seq<real>)
  {
    if xs == [] then m == 0.0 else m * (|xs| as real) == Sum(xs)
  }

  /** Arithmetic mean; 0 for the empty list. */
  function Mean(xs: seq<real>): (m: real)
    ensures IsMean(m, xs)
  {
    if xs == [] then 0.0 else Sum(xs) / (|xs| as real)
  }

  /** Every element between lo and hi puts the sum between |xs|*lo and |xs|*hi. */
  lemma {:induction false} SumBounds(xs: seq<real>, lo: real, hi: real)
    requires forall i :: 0 <= i < |xs| ==> lo <= xs[i] <= hi
    ensures (|xs| as real) * lo <= Sum(xs) <= (|xs| as real) * hi
  {
    if xs != [] {
      var n := |xs| - 1;
      SumBounds(xs[..n], lo, hi);
      assert (|xs| as real) * lo == (n as real) * lo + lo;
      assert (|xs| as real) * hi == (n as real) * hi + hi;
    }
  }

  /** The mean of a non-empty list lies between its smallest and largest possible element. */
  lemma MeanBounds(xs: seq<real>, lo: real, hi: real)
    requires xs != []
    requires forall i :: 0 <= i < |xs| ==> lo <= xs[i] <= hi
    ensures lo <= Mean(xs) <= hi
  {
    SumBounds(xs, lo, hi);
    var n := |xs| as real;
    var m := Mean(xs);
    assert m * n == Sum(xs);
  }

  /** A list of non-negative numbers has a non-negative sum. */
  lemma {:induction false} SumNonNegative(xs: seq<real>)
    requires forall i :: 0 <= i < |xs| ==> 0.0 <= xs[i]
    ensures 0.0 <= Sum(xs)
  {
    if xs != [] {
      SumNonNegative(xs[..|xs| - 1]);
    }
  }
}
