/**
 * The capped per-host history both the renderer (`pingData`) and the
 * network monitor (`dataStore`) keep: `push` the new result, then `shift`
 * the oldest one when the length has gone over 1000.
 */
module Series {

  /** The number of results kept per host. */
  const Capacity: nat := 1000

  /** The newest `n` elements of `s` (all of them when there are at most `n`). */
  function Newest<T>(s: seq<T>, n: nat): (r: seq<T>)
    ensures |r| == if |s| <= n then |s| else n
  {
    if |s| <= n then s else s[|s| - n..]
  }

  /** `data.push(x); if (data.length > Capacity) data.shift();` */
  function Push<T>(s: seq<T>, x: T): (r: seq<T>)
    ensures |r| >= 1 && r[|r| - 1] == x
    ensures |s| < Capacity ==> r == s + [x]
    ensures |s| <= Capacity ==> r == Newest(s + [x], Capacity)
  {
    var d := s + [x];
    if |d| > Capacity then d[1..] else d
  }

  /** Pushing several results one after the other. */
  function PushAll<T>(s: seq<T>, xs: seq<T>): seq<T>
    decreases |xs|
  {
    if xs == [] then s else PushAll(Push(s, xs[0]), xs[1..])
  }

  /**
   * However many results are pushed, a series that starts within the cap
   * holds exactly the newest `Capacity` of everything pushed, in order.
   */
  lemma {:induction false} PushAllKeepsNewest<T>(s: seq<T>, xs: seq<T>)
    requires |s| <= Capacity
    ensures PushAll(s, xs) == Newest(s + xs, Capacity)
    decreases |xs|
  {
    if xs == [] {
      assert s + xs == s;
    } else {
      var s' := Push(s, xs[0]);
      PushAllKeepsNewest(s', xs[1..]);
      assert s + xs == (s + [xs[0]]) + xs[1..];
      NewestAppend(s + [xs[0]], xs[1..]);
    }
  }

  /** Trimming to the newest elements before appending more changes nothing. */
  lemma NewestAppend<T>(a: seq<T>, b: seq<T>)
    requires |a| <= Capacity + 1
    ensures Newest(Newest(a, Capacity) + b, Capacity) == Newest(a + b, Capacity)
  {
    if |a| > Capacity {
      assert Newest(a, Capacity) == a[1..];
      assert a + b == [a[0]] + (a[1..] + b);
      if |a[1..] + b| > Capacity {
        assert (a + b)[|a + b| - Capacity..] == (a[1..] + b)[|a[1..] + b| - Capacity..];
      } else {
        assert |a[1..] + b| == Capacity;
        assert (a + b)[|a + b| - Capacity..] == a[1..] + b;
      }
    }
  }

  /** Appending 1001 results to an empty series keeps the last 1000: the first is gone. */
  lemma OverflowDropsOldest<T>(xs: seq<T>)
    requires |xs| == Capacity + 1
    ensures PushAll([], xs) == xs[1..]
  {
    PushAllKeepsNewest([], xs);
    assert [] + xs == xs;
  }
}
