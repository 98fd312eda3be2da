/**
 * `src/network-monitor.js`, class `NetworkMonitor`: the quality classifier,
 * the one-hop-per-line traceroute parser, the 50 ms bottleneck search, the
 * capped per-host result store, the time-range filter and the statistics
 * over it. Results come from `parsePingOutput`; the time-range cutoff is an
 * input.
 */
module Monitor {
  import opened Wrappers
  import opened Text
  import Stats
  import Series
  import opened Hops
  import opened MainProcess
  import opened TraceHops

  // ---------------------------------------------------------------------
  // calculateQuality, calculateTrend, processPingResult
  // ---------------------------------------------------------------------

  datatype Quality = Poor | Fair | Good | Excellent

  /** `'stable'`: the trend never looks at the history. */
  datatype Trend = Stable

  /** `calculateQuality`: the tiers are tested from worst to best. */
  function CalculateQuality(r: PingResult): Quality {
    if !r.success then Poor
    else if r.packetLoss > 5.0 || r.avgTime > 200.0 then Poor
    else if r.packetLoss > 1.0 || r.avgTime > 100.0 then Fair
    else if r.avgTime > 50.0 then Good
    else Excellent
  }

  /** `calculateTrend` */
  function CalculateTrend(r: PingResult): Trend {
    Stable
  }

  /** Higher is better. */
  function Rank(q: Quality): nat {
    match q
    case Poor => 0
    case Fair => 1
    case Good => 2
    case Excellent => 3
  }

  /**
   * Each tier as a condition of its own: `excellent` needs loss at most 1
   * and average at most 50, `good` the same loss with an average in
   * (50, 100], `fair` loss at most 5 and average at most 200 without being
   * better, and `poor` is a failed run or anything past those bounds. A
   * value on a boundary belongs to the better tier.
   */
  lemma QualityTiers(r: PingResult)
    ensures CalculateQuality(r) == Excellent <==> r.success && r.packetLoss <= 1.0 && r.avgTime <= 50.0
    ensures CalculateQuality(r) == Good <==> r.success && r.packetLoss <= 1.0 && 50.0 < r.avgTime <= 100.0
    ensures CalculateQuality(r) == Fair <==>
              r.success && r.packetLoss <= 5.0 && r.avgTime <= 200.0 && (r.packetLoss > 1.0 || r.avgTime > 100.0)
    ensures CalculateQuality(r) == Poor <==> !r.success || r.packetLoss > 5.0 || r.avgTime > 200.0
  {
  }

  /** More loss or a slower average never gives a better quality. */
  lemma QualityMonotone(a: PingResult, b: PingResult)
    requires b.success ==> a.success
    requires a.packetLoss <= b.packetLoss && a.avgTime <= b.avgTime
    ensures Rank(CalculateQuality(b)) <= Rank(CalculateQuality(a))
  {
  }

  /**
   * A failed run as `parsePingOutput` reports it is `poor`; a successful
   * run in which no reply time was found carries loss 0 and average 0 and
   * so is rated `excellent`.
   */
  lemma ParsedQuality(output: string, error: string, code: Option<int>, host: string, now: int)
    ensures !(code == Some(0) && error == "") ==> CalculateQuality(ParsedPing(output, error, code, host, now)) == Poor
    ensures code == Some(0) && error == "" && Samples(Split(output)) == [] ==>
              CalculateQuality(ParsedPing(output, error, code, host, now)) == Excellent
  {
  }

  /** A stored result: the raw result plus `quality` and `trend`. */
  datatype Enriched = Enriched(result: PingResult, quality: Quality, trend: Trend)

  /** The record `processPingResult` stores and returns. */
  function Enrich(r: PingResult): (e: Enriched)
    ensures e.result == r && e.trend == Stable
    ensures e.quality == Poor <==> !r.success || r.packetLoss > 5.0 || r.avgTime > 200.0
  {
    Enriched(r, CalculateQuality(r), CalculateTrend(r))
  }

  // ---------------------------------------------------------------------
  // parseTracerouteHops: `^\s*(\d+)\s+(.+?)(\d+\.?\d*)\s*ms` on each line
  // ---------------------------------------------------------------------

  /** No line terminator in `s[k..j]`: `.` can match all of it. */
  predicate NoTerminator(s: string, k: nat, j: nat)
    requires k <= j <= |s|
  {
    forall q :: k <= q < j ==> !IsLineTerminator(s[q])
  }

  /**
   * The lazy `.+?` followed by the time token: the first position `e >= k`
   * where a `<number> ms` token starts, never crossing a line terminator.
   */
  function LazyEnd(s: string, k: nat): (e: Option<nat>)
    requires k <= |s|
    ensures e.Some? ==> k <= e.value <= |s| && TokenAt(s, e.value)
    decreases |s| - k
  {
    if TokenAt(s, k) then Some(k)
    else if k < |s| && !IsLineTerminator(s[k]) then LazyEnd(s, k + 1)
    else None
  }

  /**
   * `LazyEnd` finds the first token: none starts before it, and nothing
   * between `k` and it is a line terminator; when it finds none, no token
   * starts anywhere the lazy match could reach.
   */
  lemma {:induction false} LazyEndIsFirst(s: string, k: nat)
    requires k <= |s|
    ensures LazyEnd(s, k).Some? ==> NoTerminator(s, k, LazyEnd(s, k).value)
    ensures LazyEnd(s, k).Some? ==> forall j :: k <= j < LazyEnd(s, k).value ==> !TokenAt(s, j)
    ensures LazyEnd(s, k).None? ==> forall j :: k <= j <= |s| && NoTerminator(s, k, j) ==> !TokenAt(s, j)
    decreases |s| - k
  {
    if !TokenAt(s, k) && k < |s| && !IsLineTerminator(s[k]) {
      LazyEndIsFirst(s, k + 1);
      assert forall j :: k + 1 <= j <= |s| && NoTerminator(s, k, j) ==> NoTerminator(s, k + 1, j);
    }
  }

  /**
   * Where the pattern stands after `^\s*(\d+)\s+`: the hop number, the end
   * of its digits, and the end of the blanks after them, where `.+?` starts.
   */
  datatype Head = Head(hop: nat, digitsEnd: nat, hostStart: nat)

  /** The head of a line, if it has digits followed by at least one blank and then more text. */
  function HopHead(line: string): (r: Option<Head>)
    ensures r.Some? ==> r.value.digitsEnd < r.value.hostStart < |line|
  {
    var b := SpacesEnd(line, 0);
    var d := DigitsEnd(line, b);
    if d == b then None
    else
      var c := SpacesEnd(line, d);
      if c == d || c == |line| then None
      else
        Some(Head(DigitsValueIn(line, b, d), d, c))
  }

  /**
   * Where the time token of the match starts. `.+?` first takes one
   * character and then stops at the first token; only if no token follows
   * does the engine give one blank back to `.+?`, which then matches that
   * blank alone and needs the token right at the head's end.
   */
  function TokenStart(line: string, head: Head): (k: Option<nat>)
    requires head.digitsEnd < head.hostStart < |line|
    ensures k.Some? ==> head.hostStart <= k.value <= |line| && TokenAt(line, k.value)
    ensures LazyEnd(line, head.hostStart + 1).Some? ==> k == LazyEnd(line, head.hostStart + 1)
  {
    var c := head.hostStart;
    match LazyEnd(line, c + 1)
    case Some(k) => Some(k)
    case None =>
      if c - head.digitsEnd >= 2 && !IsLineTerminator(line[c - 1]) && TokenAt(line, c) then Some(c)
      else None
  }

  /**
   * The rest of the match after the head: the host is what `.+?` took,
   * trimmed, and the time is the value of the token.
   */
  function HopAfter(line: string, head: Head): (h: Option<Hop>)
    requires head.digitsEnd < head.hostStart < |line|
    ensures h.Some? ==> h.value.hop == head.hop
  {
    match TokenStart(line, head)
    case None => None
    case Some(k) =>
      var hostStart := if k == head.hostStart then k - 1 else head.hostStart;
      Some(Hop(head.hop, Trim(line[hostStart..k]), MsTokenAt(line, k).value.value))
  }

  /** The hop one line gives, or `None` when the pattern does not match it. */
  function SimpleHopLine(line: string): (h: Option<Hop>)
    ensures h.Some? ==> HopHead(line).Some? && h.value.hop == HopHead(line).value.hop
  {
    match HopHead(line)
    case None => None
    case Some(head) => HopAfter(line, head)
  }

  /** The values of the entries that are present, in order. */
  function Present<T>(xs: seq<Option<T>>): seq<T> {
    if xs == [] then []
    else Present(xs[..|xs| - 1]) + (if xs[|xs| - 1].Some? then [xs[|xs| - 1].value] else [])
  }

  /** At most one value per entry, and one for every entry exactly when all are present. */
  lemma {:induction false} PresentCount<T>(xs: seq<Option<T>>)
    ensures |Present(xs)| <= |xs|
    ensures |Present(xs)| == |xs| <==> forall i :: 0 <= i < |xs| ==> xs[i].Some?
  {
    if xs != [] {
      var init := xs[..|xs| - 1];
      PresentCount(init);
      assert forall i :: 0 <= i < |init| ==> init[i] == xs[i];
    }
  }

  /** Joining, then keeping what is present, is keeping what is present, then joining. */
  lemma {:induction false} PresentAppend<T>(a: seq<Option<T>>, b: seq<Option<T>>)
    ensures Present(a + b) == Present(a) + Present(b)
    decreases |b|
  {
    if b == [] {
      assert a + b == a;
    } else {
      var b' := b[..|b| - 1];
      assert (a + b)[..|a + b| - 1] == a + b';
      PresentAppend(a, b');
    }
  }

  /** What the pattern gives on each line. */
  function LineMatches(lines: seq<string>): (r: seq<Option<Hop>>)
    ensures |r| == |lines|
    ensures forall i :: 0 <= i < |lines| ==> r[i] == SimpleHopLine(lines[i])
  {
    seq(|lines|, i requires 0 <= i < |lines| => SimpleHopLine(lines[i]))
  }

  /** The hops of a list of lines: one per matching line, in line order. */
  function SimpleHops(lines: seq<string>): seq<Hop> {
    Present(LineMatches(lines))
  }

  /** `parseTracerouteHops`: push the hop of every matching line. */
  method ParseTracerouteHops(output: string) returns (hops: seq<Hop>)
    ensures hops == SimpleHops(Split(output))
  {
    var lines := Split(output);
    ghost var matches := LineMatches(lines);
    hops := [];
    for i := 0 to |lines|
      invariant hops == Present(matches[..i])
    {
      assert matches[..i + 1][..i] == matches[..i];
      var hopMatch := SimpleHopLine(lines[i]);
      if hopMatch.Some? {
        hops := hops + [hopMatch.value];
      }
    }
    assert matches[..|lines|] == matches;
  }

  /** The time of a hop is the value of a `<number> ms` token of its line. */
  lemma HopTimeIsToken(line: string)
    requires SimpleHopLine(line).Some?
    ensures exists k: nat :: k <= |line| && MsTokenAt(line, k).Some? && SimpleHopLine(line).value.time == MsTokenAt(line, k).value.value
  {
    var head := HopHead(line).value;
    var k := TokenStart(line, head).value;
    assert SimpleHopLine(line).value.time == MsTokenAt(line, k).value.value;
  }

  /** A line in which `ms` never occurs (such as `* * *`) gives no hop. */
  lemma NoMsNoHop(line: string)
    requires forall k :: 0 <= k && k + 1 < |line| ==> !(line[k] == 'm' && line[k + 1] == 's')
    ensures SimpleHopLine(line) == None
  {
    if SimpleHopLine(line).Some? {
      HopTimeIsToken(line);
      assert false;
    }
  }

  /** The parse of joined lists is the concatenation of the parses: lines stay in order. */
  lemma SimpleHopsAppend(a: seq<string>, b: seq<string>)
    ensures SimpleHops(a + b) == SimpleHops(a) + SimpleHops(b)
  {
    forall i | 0 <= i < |a + b|
      ensures LineMatches(a + b)[i] == (LineMatches(a) + LineMatches(b))[i]
    {
      if i < |a| {
        assert (a + b)[i] == a[i];
      } else {
        assert (a + b)[i] == b[i - |a|];
      }
    }
    assert LineMatches(a + b) == LineMatches(a) + LineMatches(b);
    PresentAppend(LineMatches(a), LineMatches(b));
  }

  /** Each line gives at most one hop, and nothing is merged or dropped for repeating a hop number. */
  lemma AtMostOneHopPerLine(lines: seq<string>)
    ensures |SimpleHops(lines)| <= |lines|
    ensures |SimpleHops(lines)| == |lines| <==> forall i :: 0 <= i < |lines| ==> SimpleHopLine(lines[i]).Some?
  {
    PresentCount(LineMatches(lines));
  }

  /** Nothing in `s[k..e]` can start a time token or end the line. */
  predicate Skippable(s: string, k: nat, e: nat)
    requires k <= e <= |s|
  {
    forall j :: k <= j < e ==> !IsDigit(s[j]) && !IsLineTerminator(s[j])
  }

  /** `.+?` passes over characters that are neither digits nor line terminators. */
  lemma {:induction false} LazyEndSkips(s: string, k: nat, e: nat)
    requires k <= e <= |s|
    requires Skippable(s, k, e)
    ensures LazyEnd(s, k) == LazyEnd(s, e)
    decreases e - k
  {
    if k < e {
      LazyEndSkips(s, k + 1, e);
    }
  }

  /** Trimming a word followed by one blank gives the word back. */
  lemma TrimWordBlank(w: string)
    requires w != [] && !IsSpace(w[0]) && !IsSpace(w[|w| - 1])
    ensures Trim(w + " ") == w
  {
    var s := w + " ";
    assert SpacesEnd(s, 0) == 0 by { assert s[0] == w[0]; }
    assert SpacesStart(s, 0, |s|) == |w| by { assert s[|w| - 1] == w[|w| - 1]; }
    assert s[0..|w|] == w;
  }

  /** A host name as it stands in a hop line: no digit, no line terminator, no blank at either end. */
  predicate HostName(name: string) {
    && name != [] && !IsSpace(name[0]) && !IsSpace(name[|name| - 1])
    && forall k :: 0 <= k < |name| ==> !IsDigit(name[k]) && !IsLineTerminator(name[k])
  }

  /**
   * A line that reads `<num> <name> <d1>.<d2> ms`, followed by anything
   * (traceroute prints one time per probe), is read back as that hop
   * number, that host name and that time. The blanks after the number
   * and after the name are single ones, and the name is a `HostName`:
   * no digit, no line terminator, no white space at either end.
   */
  lemma {:induction false} HopLineIn(line: string, num: string, name: string, d1: string, d2: string)
    requires |num| >= 1 && AllDigits(num)
    requires HostName(name)
    requires |d1| >= 1 && AllDigits(d1) && AllDigits(d2)
    requires |num| + 1 + |name| + 1 + |d1| + 1 + |d2| + 3 <= |line|
    requires SpelledAt(line, 0, num)
    requires line[|num|] == ' '
    requires SpelledAt(line, |num| + 1, name)
    requires line[|num| + 1 + |name|] == ' '
    requires var k := |num| + 1 + |name| + 1;
             && SpelledAt(line, k, d1)
             && line[k + |d1|] == '.'
             && SpelledAt(line, k + |d1| + 1, d2)
             && line[k + |d1| + 1 + |d2|] == ' '
             && line[k + |d1| + 1 + |d2| + 1] == 'm' && line[k + |d1| + 1 + |d2| + 2] == 's'
    ensures SimpleHopLine(line) == Some(Hop(DigitsValue(num), name, DecimalValue(d1, d2)))
  {
    var c := |num| + 1;
    assert name[0] == line[c];
    HeadIn(line, num);
    HostAndToken(line, c, name, d1, d2);
    HopLineOfParts(line, DigitsValue(num), |num|, c, c + |name| + 1, name, DecimalValue(d1, d2));
  }

  /** A line whose head is matched, and whose rest has a host and a time token after it, gives that hop. */
  lemma {:induction false} HopLineOfParts(line: string, hop: nat, digitsEnd: nat, c: nat, k: nat, name: string, t: real)
    requires HopHead(line) == Some(Head(hop, digitsEnd, c))
    requires c < k <= |line|
    requires LazyEnd(line, c + 1) == Some(k)
    requires MsTokenAt(line, k).Some? && MsTokenAt(line, k).value.value == t
    requires Trim(line[c..k]) == name
    ensures SimpleHopLine(line) == Some(Hop(hop, name, t))
  {
    HopAfterOfParts(line, hop, digitsEnd, c, k, name, t);
    HeadThenHop(line, Head(hop, digitsEnd, c), Hop(hop, name, t));
  }

  /**
   * A host name, one blank and a time token: `.+?` stops at the token, the
   * text it took trims to the name, and the token has the time's value.
   */
  lemma {:induction false} HostAndToken(line: string, c: nat, name: string, d1: string, d2: string)
    requires HostName(name)
    requires |d1| >= 1 && AllDigits(d1) && AllDigits(d2)
    requires c + |name| + 1 + |d1| + 1 + |d2| + 3 <= |line|
    requires SpelledAt(line, c, name)
    requires line[c + |name|] == ' '
    requires var k := c + |name| + 1;
             && SpelledAt(line, k, d1)
             && line[k + |d1|] == '.'
             && SpelledAt(line, k + |d1| + 1, d2)
             && line[k + |d1| + 1 + |d2|] == ' '
             && line[k + |d1| + 1 + |d2| + 1] == 'm' && line[k + |d1| + 1 + |d2| + 2] == 's'
    ensures var k := c + |name| + 1;
            && LazyEnd(line, c + 1) == Some(k)
            && MsTokenAt(line, k).Some? && MsTokenAt(line, k).value.value == DecimalValue(d1, d2)
            && Trim(line[c..k]) == name
  {
    var k := c + |name| + 1;
    MsTokenIn(line, k, d1, d2);
    HostSkipped(line, c, name);
    HostTrimmed(line, c, name);
  }

  /** A line whose head is matched and whose rest gives a hop gives that hop. */
  lemma {:induction false} HeadThenHop(line: string, head: Head, h: Hop)
    requires HopHead(line) == Some(head)
    requires HopAfter(line, head) == Some(h)
    ensures SimpleHopLine(line) == Some(h)
  {
    LineIsHeadThenRest(line, head);
  }

  /** With the head matched, the rest of the line decides the hop. */
  lemma {:induction false} LineIsHeadThenRest(line: string, head: Head)
    requires head.digitsEnd < head.hostStart < |line|
    requires HopHead(line) == Some(head)
    ensures SimpleHopLine(line) == HopAfter(line, head)
  {
  }

  /** `<digits> <text>`, the text not starting with a blank: the head ends right after the one blank. */
  lemma {:induction false} HeadIn(line: string, num: string)
    requires |num| >= 1 && AllDigits(num)
    requires |num| + 1 < |line|
    requires SpelledAt(line, 0, num)
    requires line[|num|] == ' ' && !IsSpace(line[|num| + 1])
    ensures HopHead(line) == Some(Head(DigitsValue(num), |num|, |num| + 1))
  {
    SpelledAtEach(line, 0, num);
    assert forall j :: 0 <= j < |num| ==> line[j] == num[j];
    assert IsDigit(line[0]);
    assert SpacesEnd(line, 0) == 0;
    DigitsEndOfRun(line, 0, |num|);
    assert SpacesEnd(line, |num|) == |num| + 1;
    assert line[0..|num|] == num;
    DigitsValueOfSlice(line, 0, |num|);
  }

  /** `.+?` passes over a host name and the blank after it, up to the time token that follows. */
  lemma {:induction false} HostSkipped(line: string, c: nat, name: string)
    requires HostName(name)
    requires c + |name| + 1 <= |line|
    requires SpelledAt(line, c, name)
    requires line[c + |name|] == ' '
    requires TokenAt(line, c + |name| + 1)
    ensures LazyEnd(line, c + 1) == Some(c + |name| + 1)
  {
    SpelledAtEach(line, c, name);
    var k := c + |name| + 1;
    assert Skippable(line, c + 1, k) by {
      forall j | c + 1 <= j < k
        ensures !IsDigit(line[j]) && !IsLineTerminator(line[j])
      {
        if j < k - 1 {
          assert line[j] == name[j - c];
        }
      }
    }
    LazyEndAtToken(line, c + 1, k);
  }

  /** A host name and the blank after it trim to the host name. */
  lemma {:induction false} HostTrimmed(line: string, c: nat, name: string)
    requires HostName(name)
    requires c + |name| + 1 <= |line|
    requires SpelledAt(line, c, name)
    requires line[c + |name|] == ' '
    ensures Trim(line[c..c + |name| + 1]) == name
  {
    SpelledAtEach(line, c, name);
    assert line[c..c + |name| + 1] == name + " ";
    TrimWordBlank(name);
  }

  /**
   * A line whose first time token after the head starts at `k` with value
   * `t`, and whose text from the head's end to it trims to `name`, gives
   * that hop.
   */
  lemma {:induction false} HopAfterOfParts(line: string, hop: nat, digitsEnd: nat, c: nat, k: nat, name: string, t: real)
    requires digitsEnd < c < k <= |line|
    requires LazyEnd(line, c + 1) == Some(k)
    requires MsTokenAt(line, k).Some? && MsTokenAt(line, k).value.value == t
    requires Trim(line[c..k]) == name
    ensures HopAfter(line, Head(hop, digitsEnd, c)) == Some(Hop(hop, name, t))
  {
    var head := Head(hop, digitsEnd, c);
    LazyTokenStart(line, head, k);
    HopAfterToken(line, head, k);
  }

  /** A token found by `.+?` is the token of the match. */
  lemma {:induction false} LazyTokenStart(line: string, head: Head, k: nat)
    requires head.digitsEnd < head.hostStart < |line|
    requires LazyEnd(line, head.hostStart + 1) == Some(k)
    ensures TokenStart(line, head) == Some(k)
  {
  }

  /** When the token lies past the head's end, the host is the trimmed text from the head's end to the token. */
  lemma {:induction false} HopAfterToken(line: string, head: Head, k: nat)
    requires head.digitsEnd < head.hostStart < |line|
    requires TokenStart(line, head) == Some(k)
    requires k != head.hostStart
    ensures HopAfter(line, head) == Some(Hop(head.hop, Trim(line[head.hostStart..k]), MsTokenAt(line, k).value.value))
  {
  }

  /** `.+?` stops at the first token after a stretch it can pass over. */
  lemma {:induction false} LazyEndAtToken(s: string, k: nat, e: nat)
    requires k <= e <= |s|
    requires Skippable(s, k, e)
    requires TokenAt(s, e)
    ensures LazyEnd(s, k) == Some(e)
  {
    LazyEndSkips(s, k, e);
  }

  // ---------------------------------------------------------------------
  // processTracerouteResult and the 50 ms bottleneck
  // ---------------------------------------------------------------------

  /** The threshold of this copy of `findBottleneck`. */
  const BottleneckThreshold: nat := 50

  /** What `processTracerouteResult` returns: the raw result with its hops and bottleneck. */
  datatype TraceReport = TraceReport(raw: TraceOutput, hops: seq<Hop>, bottleneck: Option<Hop>)

  /** `processTracerouteResult` */
  method ProcessTracerouteResult(raw: TraceOutput) returns (report: TraceReport)
    ensures report.raw == raw
    ensures report.hops == SimpleHops(Split(raw.output))
    ensures report.bottleneck == Bottleneck(report.hops, BottleneckThreshold)
  {
    var hops := ParseTracerouteHops(raw.output);
    var bottleneck := FindBottleneck(hops, BottleneckThreshold);
    report := TraceReport(raw, hops, bottleneck);
  }

  /** Times 5, 6, 7, 80, 82: the jump to 80 is the bottleneck. */
  lemma BottleneckAtJump()
    ensures var hops := [Hop(1, "a", 5.0), Hop(2, "b", 6.0), Hop(3, "c", 7.0), Hop(4, "d", 80.0), Hop(5, "e", 82.0)];
            Bottleneck(hops, BottleneckThreshold) == Some(hops[3])
  {
  }

  /** Times 10, 40, 70: two 30 ms jumps, a bottleneck for the renderer's 20 ms but not for 50 ms. */
  lemma ThresholdsDiffer()
    ensures var hops := [Hop(1, "a", 10.0), Hop(2, "b", 40.0), Hop(3, "c", 70.0)];
            Bottleneck(hops, RendererThreshold) == Some(hops[1]) && Bottleneck(hops, BottleneckThreshold) == None
  {
  }

  // ---------------------------------------------------------------------
  // getHostData and generateStatistics
  // ---------------------------------------------------------------------

  /** `data.filter(r => r.timestamp >= cutoff)` */
  function Since(data: seq<Enriched>, cutoff: int): (r: seq<Enriched>)
    ensures forall x :: x in r <==> x in data && x.result.timestamp >= cutoff
    ensures |r| <= |data|
  {
    if data == [] then []
    else Since(data[..|data| - 1], cutoff)
         + (if data[|data| - 1].result.timestamp >= cutoff then [data[|data| - 1]] else [])
  }

  /** The filter keeps order: filtering joined lists joins the filtered lists. */
  lemma {:induction false} SinceAppend(a: seq<Enriched>, b: seq<Enriched>, cutoff: int)
    ensures Since(a + b, cutoff) == Since(a, cutoff) + Since(b, cutoff)
    decreases |b|
  {
    if b == [] {
      assert a + b == a;
    } else {
      var b' := b[..|b| - 1];
      var last := b[|b| - 1];
      var kept := if last.result.timestamp >= cutoff then [last] else [];
      assert (a + b)[..|a + b| - 1] == a + b';
      assert (a + b)[|a + b| - 1] == last;
      assert Since(a + b, cutoff) == Since(a + b', cutoff) + kept;
      assert Since(b, cutoff) == Since(b', cutoff) + kept;
      SinceAppend(a, b', cutoff);
      var sa, sb := Since(a, cutoff), Since(b', cutoff);
      assert (sa + sb) + kept == sa + (sb + kept);
    }
  }

  /** When every entry is recent enough, nothing is filtered out. */
  lemma {:induction false} SinceKeepsRecent(data: seq<Enriched>, cutoff: int)
    requires forall k :: 0 <= k < |data| ==> data[k].result.timestamp >= cutoff
    ensures Since(data, cutoff) == data
  {
    if data != [] {
      SinceKeepsRecent(data[..|data| - 1], cutoff);
    }
  }

  /** `data.filter(p => p.success)` */
  function Successes(data: seq<Enriched>): (r: seq<Enriched>)
    ensures forall x :: x in r <==> x in data && x.result.success
    ensures |r| <= |data|
    ensures |r| == |data| <==> forall k :: 0 <= k < |data| ==> data[k].result.success
    ensures r == [] <==> forall k :: 0 <= k < |data| ==> !data[k].result.success
  {
    if data == [] then []
    else
      var init := data[..|data| - 1];
      assert forall k :: 0 <= k < |init| ==> init[k] == data[k];
      Successes(init) + (if data[|data| - 1].result.success then [data[|data| - 1]] else [])
  }

  /** `.map(p => p.avgTime)` */
  function AvgTimes(data: seq<Enriched>): (r: seq<real>)
    ensures |r| == |data|
  {
    seq(|data|, k requires 0 <= k < |data| => data[k].result.avgTime)
  }

  /** The packet-loss figures of the entries. */
  function Losses(data: seq<Enriched>): (r: seq<real>)
    ensures |r| == |data|
  {
    seq(|data|, k requires 0 <= k < |data| => data[k].result.packetLoss)
  }

  /** A minimum or maximum: a number, or the infinity `Math.min()`/`Math.max()` give for no arguments. */
  datatype ExtReal = Finite(value: real) | PlusInfinity | MinusInfinity

  /** The record `generateStatistics` returns. */
  datatype Statistics = Statistics(
    totalPings: nat,
    successRate: real,
    avgResponseTime: real,
    minResponseTime: ExtReal,
    maxResponseTime: ExtReal,
    avgPacketLoss: real)

  /** The all-zero record for a range with no data. */
  const NoStatistics := Statistics(0, 0.0, 0.0, Finite(0.0), Finite(0.0), 0.0)

  /** The statistics of the entries of one range. */
  function StatisticsOf(data: seq<Enriched>): Statistics {
    if data == [] then NoStatistics
    else
      var ok := Successes(data);
      var times := AvgTimes(ok);
      Statistics(
        |data|,
        |ok| as real / |data| as real * 100.0,
        Stats.Mean(times),
        if times == [] then PlusInfinity else Finite(Stats.MinOf(times)),
        if times == [] then MinusInfinity else Finite(Stats.MaxOf(times)),
        Stats.Sum(Losses(data)) / |data| as real)
  }

  /**
   * Over a non-empty range: the count is the number of entries; the success
   * rate is a percentage, 100 exactly when every ping succeeded and 0
   * exactly when none did; the loss is the mean loss of all entries.
   */
  lemma StatisticsFacts(data: seq<Enriched>)
    requires data != []
    ensures var st := StatisticsOf(data);
            && st.totalPings == |data|
            && 0.0 <= st.successRate <= 100.0
            && (st.successRate == 100.0 <==> forall k :: 0 <= k < |data| ==> data[k].result.success)
            && (st.successRate == 0.0 <==> forall k :: 0 <= k < |data| ==> !data[k].result.success)
            && st.avgPacketLoss == Stats.Mean(Losses(data))
  {
    Percentage(|Successes(data)|, |data|);
  }

  /**
   * The response-time figures: with successes, the average lies between the
   * minimum and the maximum, which are response times of successful pings;
   * without, the average is 0 and the extremes are the infinities.
   */
  lemma ResponseTimeFacts(data: seq<Enriched>)
    requires data != []
    ensures var st := StatisticsOf(data);
            var times := AvgTimes(Successes(data));
            && (times == [] ==> st.avgResponseTime == 0.0 && st.minResponseTime == PlusInfinity && st.maxResponseTime == MinusInfinity)
            && (times != [] ==>
                  && st.minResponseTime.Finite? && st.maxResponseTime.Finite?
                  && st.minResponseTime.value in times && st.maxResponseTime.value in times
                  && st.minResponseTime.value <= st.avgResponseTime <= st.maxResponseTime.value)
  {
    var times := AvgTimes(Successes(data));
    if times != [] {
      Stats.MeanBetween(times);
    }
  }

  /** `(part / whole) * 100` is a percentage, 100 exactly for the whole and 0 exactly for none. */
  lemma Percentage(part: nat, whole: nat)
    requires part <= whole && 0 < whole
    ensures var p := part as real / whole as real * 100.0;
            0.0 <= p <= 100.0 && (p == 100.0 <==> part == whole) && (p == 0.0 <==> part == 0)
  {
    var a, w := part as real, whole as real;
    var q := a / w;
    assert q * w == a;
    Ratio(a, w, q);
  }

  /** The quotient of `0 <= a <= w` by `w > 0` lies in `[0, 1]`, at 0 exactly for `a == 0` and at 1 exactly for `a == w`. */
  lemma Ratio(a: real, w: real, q: real)
    requires 0.0 <= a <= w && 0.0 < w && q * w == a
    ensures 0.0 <= q <= 1.0 && (q == 0.0 <==> a == 0.0) && (q == 1.0 <==> a == w)
  {
  }

  // ---------------------------------------------------------------------
  // The store
  // ---------------------------------------------------------------------

  /** `dataStore.get(host) || []` */
  function StoreOf(store: map<string, seq<Enriched>>, host: string): seq<Enriched> {
    if host in store then store[host] else []
  }

  /** `storeResult(result)`: push onto the series of `result.host`, dropping the oldest past the cap. */
  function Stored(store: map<string, seq<Enriched>>, e: Enriched): map<string, seq<Enriched>> {
    store[e.result.host := Series.Push(StoreOf(store, e.result.host), e)]
  }

  /** No series in the store is longer than the cap. */
  ghost predicate StoreWithinCap(store: map<string, seq<Enriched>>) {
    forall h :: h in store ==> |store[h]| <= Series.Capacity
  }

  /**
   * Storing a result touches only its host's series, which gains it as the
   * newest element and keeps the newest 1000; the cap is kept.
   */
  lemma StoredFacts(store: map<string, seq<Enriched>>, e: Enriched)
    requires StoreWithinCap(store)
    ensures StoreWithinCap(Stored(store, e))
    ensures forall h :: h != e.result.host ==> StoreOf(Stored(store, e), h) == StoreOf(store, h)
    ensures StoreOf(Stored(store, e), e.result.host) == Series.Newest(StoreOf(store, e.result.host) + [e], Series.Capacity)
  {
  }

  class NetworkMonitor {
    /** `this.dataStore`: host name → results, oldest first */
    var dataStore: map<string, seq<Enriched>>

    ghost predicate Valid()
      reads this
    {
      StoreWithinCap(dataStore)
    }

    constructor ()
      ensures Valid() && dataStore == map[]
    {
      dataStore := map[];
    }

    /** `storeResult(result)` */
    method StoreResult(result: Enriched)
      requires Valid()
      modifies this
      ensures Valid()
      ensures dataStore == Stored(old(dataStore), result)
    {
      var hostData := StoreOf(dataStore, result.result.host);
      StoredFacts(dataStore, result);
      dataStore := dataStore[result.result.host := Series.Push(hostData, result)];
    }

    /** `processPingResult(rawResult)`: enrich, store exactly that record, and return it. */
    method ProcessPingResult(raw: PingResult) returns (result: Enriched)
      requires Valid()
      modifies this
      ensures Valid()
      ensures result == Enrich(raw)
      ensures dataStore == Stored(old(dataStore), result)
    {
      result := Enriched(raw, CalculateQuality(raw), CalculateTrend(raw));
      StoreResult(result);
    }

    /** `getHostData(hostname, range)` with the range's cutoff time given. */
    function GetHostData(hostname: string, cutoff: int): (r: seq<Enriched>)
      reads this
      ensures forall x :: x in r <==> x in StoreOf(dataStore, hostname) && x.result.timestamp >= cutoff
      ensures hostname !in dataStore ==> r == []
    {
      Since(StoreOf(dataStore, hostname), cutoff)
    }

    /** `generateStatistics(hostname, range)` */
    function GenerateStatistics(hostname: string, cutoff: int): (st: Statistics)
      reads this
      ensures GetHostData(hostname, cutoff) == [] ==> st == NoStatistics
      ensures st.totalPings == |GetHostData(hostname, cutoff)|
    {
      StatisticsOf(GetHostData(hostname, cutoff))
    }
  }
}
