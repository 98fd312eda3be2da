/**
 * The arithmetic the sources do with `reduce((a, b) => a + b, 0)`,
 * `Math.min(...xs)` and `Math.max(...xs)`, over exact reals.
 */
module Stats {

  /** `xs.reduce((a, b) => a + b, 0)` */
  function Sum(xs: seq<real>): real
  {
    if xs == [] then 0.0 else Sum(xs[..|xs| - 1]) + xs[|xs| - 1]
  }

  /** `Sum(xs) / xs.length`, and 0 for no values (JavaScript's `NaN || 0`). */
  function Mean(xs: seq<real>): real
  {
    if xs == [] then 0.0 else Sum(xs) / |xs| as real
  }

  /** `Math.min(...xs)` for a non-empty list. */
  function MinOf(xs: seq<real>): (m: real)
    requires xs != []
    ensures m in xs
    ensures forall k :: 0 <= k < |xs| ==> m <= xs[k]
  {
    if |xs| == 1 then xs[0]
    else
      var p := MinOf(xs[..|xs| - 1]);
      assert forall k :: 0 <= k < |xs| - 1 ==> xs[k] == xs[..|xs| - 1][k];
      if xs[|xs| - 1] < p then xs[|xs| - 1] else p
  }

  /** `Math.max(...xs)` for a non-empty list. */
  function MaxOf(xs: seq<real>): (m: real)
    requires xs != []
    ensures m in xs
    ensures forall k :: 0 <= k < |xs| ==> xs[k] <= m
  {
    if |xs| == 1 then xs[0]
    else
      var p := MaxOf(xs[..|xs| - 1]);
      assert forall k :: 0 <= k < |xs| - 1 ==> xs[k] == xs[..|xs| - 1][k];
      if xs[|xs| - 1] > p then xs[|xs| - 1] else p
  }

  /** Every value lies in `[lo, hi]`, so the sum lies in `[n * lo, n * hi]`. */
  lemma {:induction false} SumBetween(xs: seq<real>, lo: real, hi: real)
    requires forall k :: 0 <= k < |xs| ==> lo <= xs[k] <= hi
    ensures |xs| as real * lo <= Sum(xs) <= |xs| as real * hi
  {
    if xs != [] {
      var p := xs[..|xs| - 1];
      assert forall k :: 0 <= k < |p| ==> p[k] == xs[k];
      SumBetween(p, lo, hi);
      assert |xs| as real * lo == |p| as real * lo + lo;
      assert |xs| as real * hi == |p| as real * hi + hi;
    }
  }

  /** The mean of a non-empty list lies between its minimum and its maximum. */
  lemma {:induction false} MeanBetween(xs: seq<real>)
    requires xs != []
    ensures MinOf(xs) <= Mean(xs) <= MaxOf(xs)
  {
    MeanWithin(xs, MinOf(xs), MaxOf(xs));
  }

  /** The mean of values that all lie in `[lo, hi]` lies in `[lo, hi]` (or is the empty mean 0). */
  lemma {:induction false} MeanWithin(xs: seq<real>, lo: real, hi: real)
    requires forall k :: 0 <= k < |xs| ==> lo <= xs[k] <= hi
    ensures xs != [] ==> lo <= Mean(xs) <= hi
    ensures xs == [] ==> Mean(xs) == 0.0
  {
    if xs != [] {
      var n := |xs| as real;
      SumBetween(xs, lo, hi);
      assert lo == (n * lo) / n;
      assert hi == (n * hi) / n;
    }
  }

  /** Sum distributes over concatenation, so the order of a `reduce` does not matter. */
  lemma {:induction false} SumAppend(xs: seq<real>, ys: seq<real>)
    ensures Sum(xs + ys) == Sum(xs) + Sum(ys)
    decreases |ys|
  {
    if ys == [] {
      assert xs + ys == xs;
    } else {
      var ys' := ys[..|ys| - 1];
      assert (xs + ys)[..|xs + ys| - 1] == xs + ys';
      SumAppend(xs, ys');
    }
  }
}
