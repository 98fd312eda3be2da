/**
 * Traceroute hops and the bottleneck search. The renderer
 * (`src/renderer.js`) and the network monitor (`src/network-monitor.js`)
 * each carry a copy of `findBottleneck`; the two differ only in the
 * threshold, 20 ms and 50 ms, which is therefore a parameter here.
 */
module Hops {
  import opened Wrappers

  /** `{hop, host, time}`: hop index, host label and response time in ms. */
  datatype Hop = Hop(hop: nat, host: string, time: real)

  /** How much slower hop `i` answered than hop `i - 1`. */
  function Increase(hops: seq<Hop>, i: nat): real
    requires 1 <= i < |hops|
  {
    hops[i].time - hops[i - 1].time
  }

  /**
   * The index `findBottleneck`'s loop has settled on after visiting
   * indexes `1 .. n - 1`: it moves to `i` when the increase at `i` is above
   * the threshold and above the best increase so far (0 before any).
   */
  function BestIndex(hops: seq<Hop>, threshold: nat, n: nat): (b: Option<nat>)
    requires n <= |hops|
    ensures b.Some? ==> 1 <= b.value < n && Increase(hops, b.value) > threshold as real
  {
    if n <= 1 then None
    else
      var prev := BestIndex(hops, threshold, n - 1);
      var best := if prev.Some? then Increase(hops, prev.value) else 0.0;
      var inc := Increase(hops, n - 1);
      if inc > best && inc > threshold as real then Some(n - 1) else prev
  }

  /** The hop `findBottleneck` returns, or `None` for `null`. */
  function Bottleneck(hops: seq<Hop>, threshold: nat): Option<Hop>
  {
    if |hops| < 2 then None
    else
      match BestIndex(hops, threshold, |hops|)
      case Some(i) => Some(hops[i])
      case None => None
  }

  /**
   * Hop `i` is the bottleneck among the first `n` hops: its increase is
   * above the threshold, strictly above every earlier increase, and at
   * least every later one (the first hop reaching the largest increase).
   */
  ghost predicate IsPeak(hops: seq<Hop>, threshold: nat, n: nat, i: nat)
    requires n <= |hops|
  {
    && 1 <= i < n
    && Increase(hops, i) > threshold as real
    && (forall j :: 1 <= j < i ==> Increase(hops, j) < Increase(hops, i))
    && (forall j :: i < j < n ==> Increase(hops, j) <= Increase(hops, i))
  }

  /** What the loop settles on is exactly the first largest increase above the threshold. */
  lemma {:induction false} BestIndexIsPeak(hops: seq<Hop>, threshold: nat, n: nat)
    requires n <= |hops|
    ensures BestIndex(hops, threshold, n).None?
            <==> forall j :: 1 <= j < n ==> Increase(hops, j) <= threshold as real
    ensures BestIndex(hops, threshold, n).Some? ==> IsPeak(hops, threshold, n, BestIndex(hops, threshold, n).value)
  {
    if n > 1 {
      BestIndexIsPeak(hops, threshold, n - 1);
    }
  }

  /** `findBottleneck` as a characterisation rather than a loop. */
  lemma BottleneckSpec(hops: seq<Hop>, threshold: nat)
    ensures Bottleneck(hops, threshold).None?
            <==> forall j :: 1 <= j < |hops| ==> Increase(hops, j) <= threshold as real
    ensures Bottleneck(hops, threshold).Some? ==>
              exists i: nat :: IsPeak(hops, threshold, |hops|, i) && Bottleneck(hops, threshold) == Some(hops[i])
  {
    BestIndexIsPeak(hops, threshold, |hops|);
  }

  /** Latencies that never go up have no bottleneck. */
  lemma NonIncreasingHasNoBottleneck(hops: seq<Hop>, threshold: nat)
    requires forall j :: 1 <= j < |hops| ==> hops[j].time <= hops[j - 1].time
    ensures Bottleneck(hops, threshold) == None
  {
    BottleneckSpec(hops, threshold);
  }

  /**
   * The loop of `findBottleneck`: it keeps the largest qualifying increase
   * so far and the hop that produced it.
   */
  method FindBottleneck(hops: seq<Hop>, threshold: nat) returns (bottleneck: Option<Hop>)
    ensures bottleneck == Bottleneck(hops, threshold)
  {
    if |hops| < 2 {
      return None;
    }
    var maxIncrease := 0.0;
    bottleneck := None;
    ghost var best: Option<nat> := None;
    for i := 1 to |hops|
      invariant best == BestIndex(hops, threshold, i)
      invariant bottleneck == if best.Some? then Some(hops[best.value]) else None
      invariant maxIncrease == if best.Some? then Increase(hops, best.value) else 0.0
    {
      var increase := hops[i].time - hops[i - 1].time;
      if increase > maxIncrease && increase > threshold as real {
        maxIncrease := increase;
        bottleneck := Some(hops[i]);
        best := Some(i);
      }
    }
  }
}
