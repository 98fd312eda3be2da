/**
 * The renderer's traceroute parser, `parseTracerouteHops` in
 * `src/renderer.js`. Every line after the first that starts with a hop
 * number yields a hop: its time is the mean of the `<number> ms` tokens on
 * the line, its label comes from the first IPv4 literal and the first
 * dotted hostname on the line. Hops are collected in a map keyed by hop
 * number (a later line overwrites an earlier one) and returned sorted by
 * hop number.
 *
 * Each regular expression of the source is written out as a scanner that
 * returns the match a backtracking JavaScript engine returns: the leftmost
 * start, and at that start the first end the engine's search order reaches.
 */
module TraceHops {
  import opened Wrappers
  import opened Text
  import Stats
  import opened Hops

  // ---------------------------------------------------------------------
  // `(\d+\.?\d*)\s*ms`, matched globally
  // ---------------------------------------------------------------------

  /**
   * A `<number> ms` token starts at `p`: the greedy `\d+\.?\d*`, blanks,
   * then `ms`. Only the greedy reading of the number can be followed by
   * `\s*ms` (a shorter one is followed by a digit or a dot), so no other
   * reading needs to be tried.
   */
  predicate TokenAt(s: string, p: nat) {
    p < |s| && IsDigit(s[p]) &&
    var q := SpacesEnd(s, DecimalEnd(s, p));
    q + 1 < |s| && s[q] == 'm' && s[q + 1] == 's'
  }

  /** The token starting at `p`, if any: its `parseFloat` value and the position after `ms`. */
  function MsTokenAt(s: string, p: nat): (t: Option<Number>)
    ensures t.Some? <==> TokenAt(s, p)
    ensures t.Some? ==> p < t.value.end <= |s| && t.value.value >= 0.0
    ensures t.Some? ==> 2 <= t.value.end && s[t.value.end - 2] == 'm' && s[t.value.end - 1] == 's'
  {
    if TokenAt(s, p) then
      var n := DecimalAt(s, p);
      Some(Number(n.value, SpacesEnd(s, n.end) + 2))
    else None
  }

  /** The values of all tokens at or after `p`, in order: the scan resumes after each match. */
  function MsTimesFrom(s: string, p: nat): (times: seq<real>)
    ensures forall k :: 0 <= k < |times| ==> times[k] >= 0.0
    decreases |s| - p
  {
    if p >= |s| then []
    else
      match MsTokenAt(s, p)
      case Some(t) => [t.value] + MsTimesFrom(s, t.end)
      case None => MsTimesFrom(s, p + 1)
  }

  /** A line on which `ms` never occurs has no time tokens. */
  lemma {:induction false} NoMsNoTimes(s: string, p: nat)
    requires forall k :: p <= k && k + 1 < |s| ==> !(s[k] == 'm' && s[k + 1] == 's')
    ensures MsTimesFrom(s, p) == []
    decreases |s| - p
  {
    if p < |s| {
      NoMsNoTimes(s, p + 1);
    }
  }

  /** A token `<d1>.<d2> ms` is read back as the decimal it spells, whatever surrounds it. */
  lemma {:induction false} MsTokenOfText(pre: string, d1: string, d2: string, rest: string, p: nat)
    requires p == |pre|
    requires |d1| >= 1 && AllDigits(d1) && AllDigits(d2)
    ensures MsTokenAt(pre + d1 + "." + d2 + " ms" + rest, p).Some?
    ensures MsTokenAt(pre + d1 + "." + d2 + " ms" + rest, p).value.value == DecimalValue(d1, d2)
    ensures MsTokenAt(pre + d1 + "." + d2 + " ms" + rest, p).value.end == p + |d1| + 1 + |d2| + 3
  {
    var s := pre + d1 + "." + d2 + " ms" + rest;
    var dot := p + |d1|;
    var e := dot + 1 + |d2|;
    assert forall k :: p <= k < dot ==> s[k] == d1[k - p];
    SpelledOfRange(s, p, d1);
    assert s[dot] == '.';
    assert forall k :: dot + 1 <= k < e ==> s[k] == d2[k - dot - 1];
    SpelledOfRange(s, dot + 1, d2);
    assert s[e] == ' ' && s[e + 1] == 'm' && s[e + 2] == 's';
    MsTokenIn(s, p, d1, d2);
  }

  /** `MsTokenOfText` for a string known only through the characters of the token. */
  lemma {:induction false} MsTokenIn(s: string, p: nat, d1: string, d2: string)
    requires |d1| >= 1 && AllDigits(d1) && AllDigits(d2)
    requires p + |d1| + 1 + |d2| + 3 <= |s|
    requires SpelledAt(s, p, d1)
    requires s[p + |d1|] == '.'
    requires SpelledAt(s, p + |d1| + 1, d2)
    requires s[p + |d1| + 1 + |d2|] == ' '
    requires s[p + |d1| + 1 + |d2| + 1] == 'm' && s[p + |d1| + 1 + |d2| + 2] == 's'
    ensures MsTokenAt(s, p).Some?
    ensures MsTokenAt(s, p).value.value == DecimalValue(d1, d2)
    ensures MsTokenAt(s, p).value.end == p + |d1| + 1 + |d2| + 3
  {
    var e := p + |d1| + 1 + |d2|;
    SpelledAtEach(s, p, d1);
    SpelledAtEach(s, p + |d1| + 1, d2);
    assert forall k :: p <= k < p + |d1| ==> s[k] == d1[k - p];
    assert forall k :: p + |d1| + 1 <= k < e ==> s[k] == d2[k - p - |d1| - 1];
    DecimalInText(s, p, d1, d2);
    assert DecimalEnd(s, p) == e;
    assert SpacesEnd(s, e) == e + 1 by { assert !IsSpace(s[e + 1]); }
  }

  /** A reply time as traceroute writes it, `<whole>.<frac>`. */
  datatype Written = Written(whole: string, frac: string)

  predicate WellWritten(w: Written) {
    |w.whole| >= 1 && AllDigits(w.whole) && AllDigits(w.frac)
  }

  /** The values of the written times, in order. */
  function WrittenValues(ws: seq<Written>): (vs: seq<real>)
    requires forall i :: 0 <= i < |ws| ==> WellWritten(ws[i])
    ensures |vs| == |ws|
  {
    if ws == [] then []
    else
      assert WellWritten(ws[0]);
      [DecimalValue(ws[0].whole, ws[0].frac)] + WrittenValues(ws[1..])
  }

  /**
   * From `p` to its end, `s` reads `  <whole>.<frac> ms` for each time of
   * `ws` in turn: the reply times as traceroute prints them after a hop's
   * address.
   */
  predicate TimesSpelled(s: string, p: nat, ws: seq<Written>)
    decreases |ws|
  {
    if ws == [] then p == |s|
    else
      var w := ws[0];
      var e := p + 2 + |w.whole| + 1 + |w.frac|;
      WellWritten(w) && e + 3 <= |s|
      && s[p] == ' ' && s[p + 1] == ' '
      && SpelledAt(s, p + 2, w.whole) && s[p + 2 + |w.whole|] == '.' && SpelledAt(s, p + 2 + |w.whole| + 1, w.frac)
      && s[e] == ' ' && s[e + 1] == 'm' && s[e + 2] == 's'
      && TimesSpelled(s, e + 3, ws[1..])
  }

  /** The scan reads back exactly the times written, however many there are and whatever precedes them. */
  lemma {:induction false} MsTimesOfText(s: string, p: nat, ws: seq<Written>)
    requires forall i :: 0 <= i < |ws| ==> WellWritten(ws[i])
    requires TimesSpelled(s, p, ws)
    ensures MsTimesFrom(s, p) == WrittenValues(ws)
    decreases |ws|
  {
    if ws != [] {
      var w := ws[0];
      var e := p + 2 + |w.whole| + 1 + |w.frac| + 3;
      assert forall i :: 0 <= i < |ws[1..]| ==> WellWritten(ws[1..][i]) by {
        forall i | 0 <= i < |ws[1..]| ensures WellWritten(ws[1..][i]) {
          assert ws[1..][i] == ws[i + 1];
        }
      }
      MsTimesOfText(s, e, ws[1..]);
      MsTokenIn(s, p + 2, w.whole, w.frac);
      SkipNonDigit(s, p);
      SkipNonDigit(s, p + 1);
      TokenStep(s, p + 2, DecimalValue(w.whole, w.frac), e);
    }
  }

  /** The scan moves over a character that cannot start a token. */
  lemma SkipNonDigit(s: string, p: nat)
    requires p < |s| && !IsDigit(s[p])
    ensures MsTimesFrom(s, p) == MsTimesFrom(s, p + 1)
  {
  }

  /** The scan takes a token's value and resumes after its `ms`. */
  lemma TokenStep(s: string, p: nat, v: real, e: nat)
    requires MsTokenAt(s, p) == Some(Number(v, e))
    ensures MsTimesFrom(s, p) == [v] + MsTimesFrom(s, e)
  {
  }

  /** When no token starts before `k`, the scan of the whole line finds only the times written from `k` on. */
  lemma {:induction false} MsTimesAfter(s: string, k: nat, ws: seq<Written>, i: nat)
    requires forall i :: 0 <= i < |ws| ==> WellWritten(ws[i])
    requires TimesSpelled(s, k, ws)
    requires i <= k
    requires forall j :: i <= j < k ==> !TokenAt(s, j)
    ensures MsTimesFrom(s, i) == WrittenValues(ws)
    decreases k - i
  {
    if i < k {
      MsTimesAfter(s, k, ws, i + 1);
    } else {
      MsTimesOfText(s, k, ws);
    }
  }

  // ---------------------------------------------------------------------
  // `\b\d{1,3}\.\d{1,3}\.\d{1,3}\.\d{1,3}\b`
  // ---------------------------------------------------------------------

  /** `\b` at `e`: exactly one of the characters around `e` is a word character. */
  predicate WordBoundary(s: string, e: nat) {
    (0 < e <= |s| && IsWordChar(s[e - 1])) != (e < |s| && IsWordChar(s[e]))
  }

  /**
   * `\d{1,3}` at `q` when what follows must be a non-digit: the run of
   * digits at `q` must be one to three long (backing off inside a longer
   * run only leaves a digit next).
   */
  function OctetEnd(s: string, q: nat): (e: Option<nat>)
    requires q <= |s|
    ensures e.Some? ==> q < e.value <= q + 3 && e.value <= |s| && AllDigits(s[q..e.value])
    ensures e.Some? ==> e.value == |s| || !IsDigit(s[e.value])
  {
    var e := DigitsEnd(s, q);
    DigitsEndRun(s, q);
    if 1 <= e - q <= 3 then Some(e) else None
  }

  /** `n` octets separated by dots, starting at `q`. */
  function OctetsEnd(s: string, q: nat, n: nat): (e: Option<nat>)
    requires q <= |s| && n >= 1
    ensures e.Some? ==> q < e.value <= |s|
    decreases n
  {
    match OctetEnd(s, q)
    case None => None
    case Some(e) =>
      if n == 1 then Some(e)
      else if e < |s| && s[e] == '.' then OctetsEnd(s, e + 1, n - 1)
      else None
  }

  /** The IPv4 pattern matched at `p`: where the match ends. */
  function IpAt(s: string, p: nat): (e: Option<nat>)
    ensures e.Some? ==> p < e.value <= |s| && IsDigit(s[p])
  {
    if p < |s| && IsDigit(s[p]) && WordBoundary(s, p) then
      match OctetsEnd(s, p, 4)
      case Some(e) => if WordBoundary(s, e) then Some(e) else None
      case None => None
    else None
  }

  /** `line.match(ipPattern)[0]`: the leftmost match at or after `p`. */
  function FirstIp(s: string, p: nat): (ip: Option<string>)
    ensures ip.Some? ==> |ip.value| >= 1 && IsDigit(ip.value[0])
    decreases |s| - p
  {
    if p >= |s| then None
    else
      match IpAt(s, p)
      case Some(e) => Some(s[p..e])
      case None => FirstIp(s, p + 1)
  }

  /** `t` is `n` runs of one to three digits separated by single dots. */
  predicate DottedOctets(t: string, n: nat)
    requires n >= 1
    decreases n
  {
    if n == 1 then 1 <= |t| <= 3 && AllDigits(t)
    else exists k :: 1 <= k <= 3 && k < |t| && AllDigits(t[..k]) && t[k] == '.' && DottedOctets(t[k + 1..], n - 1)
  }

  lemma {:induction false} OctetsShape(s: string, q: nat, n: nat)
    requires q <= |s| && n >= 1
    ensures OctetsEnd(s, q, n).Some? ==> DottedOctets(s[q..OctetsEnd(s, q, n).value], n)
    decreases n
  {
    var o := OctetEnd(s, q);
    if o.Some? && n > 1 && o.value < |s| && s[o.value] == '.' {
      var e := o.value;
      OctetsShape(s, e + 1, n - 1);
      var r := OctetsEnd(s, e + 1, n - 1);
      assert OctetsEnd(s, q, n) == r;
      if r.Some? {
        DottedStep(s, q, e, r.value, n);
      }
    }
  }

  /** An octet, a dot and `n - 1` more dotted octets make `n` dotted octets. */
  lemma {:induction false} DottedStep(s: string, q: nat, e: nat, r: nat, n: nat)
    requires n > 1 && q < e <= q + 3 && e < r <= |s|
    requires AllDigits(s[q..e]) && s[e] == '.' && DottedOctets(s[e + 1..r], n - 1)
    ensures DottedOctets(s[q..r], n)
  {
    var t := s[q..r];
    var k := e - q;
    assert t[..k] == s[q..e];
    assert t[k + 1..] == s[e + 1..r];
    assert t[k] == '.';
  }

  /** What the IPv4 scanner returns is a dotted quad of one- to three-digit numbers. */
  lemma {:induction false} FirstIpShape(s: string, p: nat)
    ensures FirstIp(s, p).Some? ==> DottedOctets(FirstIp(s, p).value, 4)
    decreases |s| - p
  {
    if p < |s| {
      if IpAt(s, p).Some? {
        OctetsShape(s, p, 4);
      } else {
        FirstIpShape(s, p + 1);
      }
    }
  }

  // ---------------------------------------------------------------------
  // `\b([a-zA-Z0-9][-a-zA-Z0-9]*(\.[a-zA-Z0-9][-a-zA-Z0-9]*)+)\b`
  // ---------------------------------------------------------------------

  /** `[-a-zA-Z0-9]` */
  predicate IsLabelChar(c: char) { IsAlnum(c) || c == '-' }

  /** The end of the maximal run of label characters at `i` (`[-a-zA-Z0-9]*`, greedy). */
  function LabelEnd(s: string, i: nat): (e: nat)
    requires i <= |s|
    ensures i <= e <= |s|
    ensures forall k :: i <= k < e ==> IsLabelChar(s[k])
    ensures e == |s| || !IsLabelChar(s[e])
    decreases |s| - i
  {
    if i < |s| && IsLabelChar(s[i]) then LabelEnd(s, i + 1) else i
  }

  /** The character after position `k` is a letter or digit. */
  predicate AlnumAfter(s: string, k: nat) {
    k + 1 < |s| && IsAlnum(s[k + 1])
  }

  /**
   * Where the greedy repetition of `\.[a-zA-Z0-9][-a-zA-Z0-9]*` after a
   * label ending at `a` stops: each dot in between is followed by a
   * letter or digit, every other character is a label character.
   */
  function ChainEnd(s: string, a: nat): (e: nat)
    requires a <= |s|
    ensures a <= e <= |s|
    decreases |s| - a
  {
    if a + 1 < |s| && s[a] == '.' && IsAlnum(s[a + 1]) then ChainEnd(s, LabelEnd(s, a + 2)) else a
  }

  lemma {:induction false} ChainShape(s: string, a: nat)
    requires a <= |s|
    ensures forall k :: a <= k < ChainEnd(s, a) ==>
              IsLabelChar(s[k]) || (s[k] == '.' && k + 1 < ChainEnd(s, a) && AlnumAfter(s, k))
    decreases |s| - a
  {
    if a + 1 < |s| && s[a] == '.' && IsAlnum(s[a + 1]) {
      var b := LabelEnd(s, a + 2);
      var c := ChainEnd(s, b);
      ChainShape(s, b);
      assert c == ChainEnd(s, a);
      forall k | a <= k < c
        ensures IsLabelChar(s[k]) || (s[k] == '.' && k + 1 < c && AlnumAfter(s, k))
      {
        if k == a {
          assert s[k] == '.' && k + 1 < c && IsAlnum(s[k + 1]);
        } else if k == a + 1 {
          assert IsLabelChar(s[a + 1]);
        } else if k < b {
          assert IsLabelChar(s[k]);
        } else {
          assert b <= k < ChainEnd(s, b);
          assert IsLabelChar(s[k]) || (s[k] == '.' && k + 1 < ChainEnd(s, b) && AlnumAfter(s, k));
        }
      }
    } else {
      assert ChainEnd(s, a) == a;
    }
  }

  /** One position of a dotted chain. */
  lemma {:induction false} ChainAt(s: string, a: nat, j: nat)
    requires a <= |s| && a <= j < ChainEnd(s, a)
    ensures IsLabelChar(s[j]) || (s[j] == '.' && j + 1 < ChainEnd(s, a) && AlnumAfter(s, j))
  {
    ChainShape(s, a);
  }

  /**
   * The largest `e` in `[lo, hi]` where the match can stop: `\b` holds
   * there and the character before is not a dot. Backtracking tries the
   * ends of the dotted chain from the longest down, so this is the end the
   * engine reports.
   */
  function LastStop(s: string, lo: nat, hi: nat): (e: Option<nat>)
    requires 1 <= lo && hi <= |s|
    ensures e.Some? ==> lo <= e.value <= hi && s[e.value - 1] != '.' && WordBoundary(s, e.value)
    ensures e.Some? ==> forall k :: e.value < k <= hi ==> s[k - 1] == '.' || !WordBoundary(s, k)
    ensures e.None? ==> forall k :: lo <= k <= hi ==> s[k - 1] == '.' || !WordBoundary(s, k)
    decreases hi
  {
    if hi < lo then None
    else if s[hi - 1] != '.' && WordBoundary(s, hi) then Some(hi)
    else LastStop(s, lo, hi - 1)
  }

  /**
   * The hostname pattern matched at `p`: a first label, which must be
   * followed by at least one `.label`, ending where `LastStop` says.
   */
  function HostnameAt(s: string, p: nat): (e: Option<nat>)
    ensures e.Some? ==> p < e.value <= |s|
  {
    if p < |s| && IsAlnum(s[p]) && WordBoundary(s, p) then
      var a := LabelEnd(s, p + 1);
      if a + 1 < |s| && s[a] == '.' && IsAlnum(s[a + 1]) then LastStop(s, a + 2, ChainEnd(s, a)) else None
    else None
  }

  /** `line.match(hostnamePattern)[0]`: the leftmost match at or after `p`. */
  function FirstHostname(s: string, p: nat): (name: Option<string>)
    decreases |s| - p
  {
    if p >= |s| then None
    else
      match HostnameAt(s, p)
      case Some(e) => Some(s[p..e])
      case None => FirstHostname(s, p + 1)
  }

  /**
   * A dotted host name: it starts with a letter or digit, holds a dot,
   * and every dot in it is followed by a letter or digit; all other
   * characters are letters, digits or hyphens.
   */
  predicate IsDottedName(t: string) {
    && |t| >= 3 && IsAlnum(t[0]) && '.' in t
    && forall k :: 0 <= k < |t| ==> IsLabelChar(t[k]) || (t[k] == '.' && k + 1 < |t| && AlnumAfter(t, k))
  }

  lemma {:induction false} HostnameAtShape(s: string, p: nat)
    ensures HostnameAt(s, p).Some? ==> IsDottedName(s[p..HostnameAt(s, p).value])
  {
    if HostnameAt(s, p).Some? {
      var a := LabelEnd(s, p + 1);
      var c := ChainEnd(s, a);
      var e := HostnameAt(s, p).value;
      assert a + 2 <= e <= c && s[a] == '.' && s[e - 1] != '.';
      forall k | a <= k < c
        ensures IsLabelChar(s[k]) || (s[k] == '.' && k + 1 < c && AlnumAfter(s, k))
      {
        ChainAt(s, a, k);
      }
      DottedSlice(s, p, a, c, e);
    }
  }

  /**
   * A slice that starts with a label (`s[p..a]`), continues with a dotted
   * chain (`s[a..c]`) and stops after a non-dot is a dotted host name.
   */
  lemma {:induction false} DottedSlice(s: string, p: nat, a: nat, c: nat, e: nat)
    requires p < a && a + 2 <= e <= c <= |s|
    requires IsAlnum(s[p]) && s[a] == '.' && s[e - 1] != '.'
    requires forall k :: p + 1 <= k < a ==> IsLabelChar(s[k])
    requires forall k :: a <= k < c ==> IsLabelChar(s[k]) || (s[k] == '.' && k + 1 < c && AlnumAfter(s, k))
    ensures IsDottedName(s[p..e])
  {
    var t := s[p..e];
    assert t[a - p] == '.';
    forall k | 0 <= k < |t|
      ensures IsLabelChar(t[k]) || (t[k] == '.' && k + 1 < |t| && AlnumAfter(t, k))
    {
      var j := p + k;
      assert t[k] == s[j];
      if j == p {
        assert IsLabelChar(s[j]);
      } else if j < a {
        assert IsLabelChar(s[j]);
      } else if s[j] == '.' {
        assert j + 1 < e && IsAlnum(s[j + 1]);
        assert t[k + 1] == s[j + 1];
      } else {
        assert IsLabelChar(s[j]);
      }
    }
  }

  /** What the hostname scanner returns is a dotted host name. */
  lemma {:induction false} FirstHostnameShape(s: string, p: nat)
    ensures FirstHostname(s, p).Some? ==> IsDottedName(FirstHostname(s, p).value)
    decreases |s| - p
  {
    if p < |s| {
      if HostnameAt(s, p).Some? {
        HostnameAtShape(s, p);
      } else {
        FirstHostnameShape(s, p + 1);
      }
    }
  }

  // ---------------------------------------------------------------------
  // One line
  // ---------------------------------------------------------------------

  /** The hop a (trimmed) line with hop number `hopNum` describes: its time and its label. */
  function HopOf(line: string, hopNum: nat): (h: Hop)
    ensures h.hop == hopNum
  {
    var time := Stats.Mean(MsTimesFrom(line, 0));
    var ip := FirstIp(line, 0);
    var name := FirstHostname(line, 0);
    if ip.Some? then
      if name.Some? && name.value != ip.value then Hop(hopNum, name.value + " (" + ip.value + ")", time)
      else Hop(hopNum, ip.value, time)
    else if name.Some? then Hop(hopNum, name.value, time)
    else if '*' in line then Hop(hopNum, "No response", 0.0)
    else Hop(hopNum, "*", time)
  }

  /**
   * The hop a raw output line contributes: `None` when the trimmed line is
   * empty, does not start with a digit, or starts with the number 0.
   */
  function LineHop(raw: string): (h: Option<Hop>)
    ensures h.Some? ==> h.value.hop >= 1
  {
    var line := Trim(raw);
    if line == [] || !IsDigit(line[0]) then None
    else
      var hopNum := LeadingNumber(line);
      if hopNum == 0 then None else Some(HopOf(line, hopNum))
  }

  /** `parseInt` of the digits `line` starts with. */
  function LeadingNumber(line: string): nat
  {
    DigitsValueIn(line, 0, DigitsEnd(line, 0))
  }

  /**
   * The time of a hop is never negative: it is 0 for a `No response`
   * hop whatever times its line shows, and otherwise the mean of the
   * line's `<number> ms` values, so 0 when there are none and at most
   * the largest of them.
   */
  lemma HopTime(line: string, hopNum: nat)
    ensures var h := HopOf(line, hopNum);
            && h.time >= 0.0
            && (h.host == "No response" ==> h.time == 0.0)
            && (h.host != "No response" ==> h.time == Stats.Mean(MsTimesFrom(line, 0)))
            && (MsTimesFrom(line, 0) == [] ==> h.time == 0.0)
            && (MsTimesFrom(line, 0) != [] ==> h.time <= Stats.MaxOf(MsTimesFrom(line, 0)))
  {
    HopLabel(line, hopNum);
    var times := MsTimesFrom(line, 0);
    if times != [] {
      Stats.MeanWithin(times, 0.0, Stats.MaxOf(times));
    }
  }

  /**
   * For a line whose reply times are written from `k` on, with no token
   * starting before, the hop's time is the mean of exactly those times,
   * unless the hop is `No response`.
   */
  lemma HopTimeOfWritten(line: string, k: nat, ws: seq<Written>, hopNum: nat)
    requires forall i :: 0 <= i < |ws| ==> WellWritten(ws[i])
    requires TimesSpelled(line, k, ws)
    requires forall j :: 0 <= j < k ==> !TokenAt(line, j)
    ensures var h := HopOf(line, hopNum);
            && (h.host != "No response" ==> h.time == Stats.Mean(WrittenValues(ws)))
            && (h.host == "No response" ==> h.time == 0.0)
  {
    MsTimesAfter(line, k, ws, 0);
    HopTime(line, hopNum);
  }

  /**
   * The label rules, each in both directions: `No response` exactly for a
   * line with neither an address nor a dotted name but with a `*`, `*`
   * exactly when there is not even a `*`; with an address, the address
   * alone exactly when there is no dotted name or the name is the address
   * itself, and `name (address)` otherwise; with only a dotted name, the name.
   */
  lemma HopLabel(line: string, hopNum: nat)
    ensures var h := HopOf(line, hopNum);
            var ip := FirstIp(line, 0);
            var name := FirstHostname(line, 0);
            && (h.host == "No response" <==> ip.None? && name.None? && '*' in line)
            && (h.host == "*" <==> ip.None? && name.None? && '*' !in line)
            && (ip.Some? ==>
                  (h.host == ip.value <==> name.None? || name.value == ip.value)
                  && (name.Some? && name.value != ip.value ==> h.host == name.value + " (" + ip.value + ")"))
            && (ip.None? && name.Some? ==> h.host == name.value)
  {
    var h := HopOf(line, hopNum);
    var ip := FirstIp(line, 0);
    var name := FirstHostname(line, 0);
    FirstHostnameShape(line, 0);
    if ip.Some? && name.Some? && name.value != ip.value {
      assert h.host[|h.host| - 1] == ')' != "No response"[10];
      assert |h.host| > |ip.value|;
    } else if ip.Some? {
      assert h.host[0] != 'N' && h.host[0] != '*';
    } else if name.Some? {
      assert h.host[2] != ' ' == "No response"[2];
      assert h.host[0] != '*';
    }
  }

  /** A line starting with a hop number and with no trailing white space yields that hop. */
  lemma LineHopOfNumber(n: nat, rest: string)
    requires n >= 1
    requires rest == [] || !IsDigit(rest[0])
    requires rest == [] || !IsSpace(rest[|rest| - 1])
    ensures LineHop(NatToString(n) + rest) == Some(HopOf(NatToString(n) + rest, n))
  {
    var d := NatToString(n);
    var line := d + rest;
    assert line[0] == d[0];
    assert line[|line| - 1] == if rest == [] then d[|d| - 1] else rest[|rest| - 1];
    TrimUnchanged(line);
    DigitsEndAfter(d, rest);
    assert line[0..|d|] == d;
    DigitsValueOfSlice(line, 0, |d|);
    LineHopOfLeading(line, n);
  }

  /** A trimmed line whose leading number is `n >= 1` yields the hop with number `n`. */
  lemma {:induction false} LineHopOfLeading(line: string, n: nat)
    requires n >= 1 && line != [] && IsDigit(line[0]) && Trim(line) == line
    requires DigitsValueIn(line, 0, DigitsEnd(line, 0)) == n
    ensures LineHop(line) == Some(HopOf(line, n))
  {
  }

  /** Lines that are blank or do not start with a digit are skipped. */
  lemma SkippedLines(raw: string)
    ensures AllSpace(raw) ==> LineHop(raw) == None
    ensures raw != [] && !IsSpace(raw[0]) && !IsDigit(raw[0]) ==> LineHop(raw) == None
  {
    TrimIsSlice(raw);
    if raw != [] && !IsSpace(raw[0]) {
      assert SpacesEnd(raw, 0) == 0;
    }
  }

  // ---------------------------------------------------------------------
  // The hop map
  // ---------------------------------------------------------------------

  /**
   * `hopMap`: entries by hop number, with the order in which the hop
   * numbers were first set (a JavaScript `Map` iterates in that order).
   */
  datatype HopTable = HopTable(entries: map<nat, Hop>, order: seq<nat>)

  /** The order lists each key once, and each entry sits under its own hop number. */
  ghost predicate WellFormed(t: HopTable) {
    && (forall k :: k in t.entries <==> k in t.order)
    && (forall i, j :: 0 <= i < j < |t.order| ==> t.order[i] != t.order[j])
    && (forall k :: k in t.entries ==> t.entries[k].hop == k)
  }

  /** `hopMap.set(h.hop, h)`: overwrite in place, or add at the end of the order. */
  function Put(t: HopTable, h: Hop): (r: HopTable)
    requires WellFormed(t)
    ensures WellFormed(r)
    ensures r.entries == t.entries[h.hop := h]
    ensures r.order == if h.hop in t.entries then t.order else t.order + [h.hop]
  {
    if h.hop in t.entries then HopTable(t.entries[h.hop := h], t.order)
    else HopTable(t.entries[h.hop := h], t.order + [h.hop])
  }

  /** What each line describes, line by line. */
  function LineHops(lines: seq<string>): (described: seq<Option<Hop>>)
    ensures |described| == |lines|
  {
    seq(|lines|, i requires 0 <= i < |lines| => LineHop(lines[i]))
  }

  lemma SliceSnoc<T>(s: seq<T>, a: nat, b: nat)
    requires a <= b < |s|
    ensures s[a..b + 1] == s[a..b] + [s[b]]
  {
  }

  lemma LineHopsSnoc(lines: seq<string>, line: string)
    ensures LineHops(lines + [line]) == LineHops(lines) + [LineHop(line)]
  {
  }

  /** The hop map after setting, in order, every hop that is described. */
  function TableOf(described: seq<Option<Hop>>): (t: HopTable)
    ensures WellFormed(t)
  {
    if described == [] then HopTable(map[], [])
    else
      Fed(TableOf(described[..|described| - 1]), described[|described| - 1])
  }

  /** The map after one more line, which describes `h` or nothing. */
  function Fed(t: HopTable, h: Option<Hop>): (r: HopTable)
    requires WellFormed(t)
    ensures WellFormed(r)
  {
    match h
    case Some(hop) => Put(t, hop)
    case None => t
  }

  /** Entry `i` describes hop number `k`. */
  ghost predicate Describes(described: seq<Option<Hop>>, i: int, k: nat) {
    0 <= i < |described| && described[i].Some? && described[i].value.hop == k
  }

  /** Entry `i` is the last one that describes hop number `k`. */
  ghost predicate LastFor(described: seq<Option<Hop>>, k: nat, i: int) {
    Describes(described, i, k) && forall j :: i < j < |described| ==> !Describes(described, j, k)
  }

  /** The map holds a hop number exactly when some entry describes it. */
  lemma {:induction false} TableOfKeys(described: seq<Option<Hop>>, k: nat)
    ensures k in TableOf(described).entries <==> exists i :: Describes(described, i, k)
  {
    if described != [] {
      var init := described[..|described| - 1];
      var n := |described| - 1;
      TableOfKeys(init, k);
      if k in TableOf(described).entries && !Describes(described, n, k) {
        var i :| Describes(init, i, k);
        assert Describes(described, i, k);
      }
      if exists i :: Describes(described, i, k) {
        var i :| Describes(described, i, k);
        if i < n {
          assert Describes(init, i, k);
        }
      }
    }
  }

  /** Last write wins: the map holds what the last entry describing a hop number describes. */
  lemma {:induction false} TableOfLastWriteWins(described: seq<Option<Hop>>, k: nat)
    requires k in TableOf(described).entries
    ensures exists i :: LastFor(described, k, i) && TableOf(described).entries[k] == described[i].value
  {
    var init := described[..|described| - 1];
    var n := |described| - 1;
    if Describes(described, n, k) {
      assert LastFor(described, k, n);
    } else {
      assert described == init + [described[n]];
      assert k in TableOf(init).entries && TableOf(described).entries[k] == TableOf(init).entries[k];
      TableOfLastWriteWins(init, k);
      var i :| LastFor(init, k, i) && TableOf(init).entries[k] == init[i].value;
      assert described[i] == init[i];
      assert forall j :: i < j < |described| ==> !Describes(described, j, k) by {
        forall j | i < j < |described| ensures !Describes(described, j, k) {
          if j < n {
            assert described[j] == init[j];
            assert !Describes(init, j, k);
          }
        }
      }
      assert LastFor(described, k, i);
    }
  }

  /** `Array.from(hopMap.values())`: the entries in insertion order. */
  function Values(t: HopTable): (vs: seq<Hop>)
    requires WellFormed(t)
    ensures |vs| == |t.order|
    ensures forall i :: 0 <= i < |vs| ==> vs[i] == t.entries[t.order[i]]
  {
    seq(|t.order|, i requires 0 <= i < |t.order| => t.entries[t.order[i]])
  }

  // ---------------------------------------------------------------------
  // Sorting by hop number
  // ---------------------------------------------------------------------

  predicate SortedByHop(hops: seq<Hop>) {
    forall i, j :: 0 <= i < j < |hops| ==> hops[i].hop <= hops[j].hop
  }

  predicate StrictlyAscending(hops: seq<Hop>) {
    forall i, j :: 0 <= i < j < |hops| ==> hops[i].hop < hops[j].hop
  }

  predicate DistinctHops(hops: seq<Hop>) {
    forall i, j :: 0 <= i < j < |hops| ==> hops[i].hop != hops[j].hop
  }

  /** Insertion of `h` into a list sorted by hop number, before any equal hop number. */
  function InsertByHop(h: Hop, sorted: seq<Hop>): (r: seq<Hop>)
    requires SortedByHop(sorted)
    ensures SortedByHop(r)
    ensures multiset(r) == multiset(sorted) + multiset{h}
  {
    if sorted == [] || h.hop <= sorted[0].hop then [h] + sorted
    else
      var rest := InsertByHop(h, sorted[1..]);
      assert sorted == [sorted[0]] + sorted[1..];
      assert multiset(sorted) == multiset{sorted[0]} + multiset(sorted[1..]);
      FirstIsLeast(h, sorted, rest);
      ConsSorted(sorted[0], rest);
      [sorted[0]] + rest
  }

  /** A hop no later than every hop of a sorted list can go in front of it. */
  lemma ConsSorted(first: Hop, rest: seq<Hop>)
    requires SortedByHop(rest)
    requires forall j :: 0 <= j < |rest| ==> first.hop <= rest[j].hop
    ensures SortedByHop([first] + rest)
  {
    var r := [first] + rest;
    forall i, j | 0 <= i < j < |r| ensures r[i].hop <= r[j].hop {
      assert r[j] == rest[j - 1];
      if i > 0 {
        assert r[i] == rest[i - 1];
      }
    }
  }

  /** A hop earlier than every hop of a strictly ascending list can go in front of it. */
  lemma ConsStrict(first: Hop, rest: seq<Hop>)
    requires StrictlyAscending(rest)
    requires forall j :: 0 <= j < |rest| ==> first.hop < rest[j].hop
    ensures StrictlyAscending([first] + rest)
  {
    var r := [first] + rest;
    forall i, j | 0 <= i < j < |r| ensures r[i].hop < r[j].hop {
      assert r[j] == rest[j - 1];
      if i > 0 {
        assert r[i] == rest[i - 1];
      }
    }
  }

  /** Everything in `rest`, a rearrangement of `sorted[1..]` and `h`, comes no earlier than `sorted[0]`. */
  lemma FirstIsLeast(h: Hop, sorted: seq<Hop>, rest: seq<Hop>)
    requires SortedByHop(sorted) && sorted != [] && sorted[0].hop <= h.hop
    requires multiset(rest) == multiset(sorted[1..]) + multiset{h}
    ensures forall j :: 0 <= j < |rest| ==> sorted[0].hop <= rest[j].hop
  {
    forall j | 0 <= j < |rest| ensures sorted[0].hop <= rest[j].hop {
      var x := rest[j];
      assert x in multiset(rest);
      if x != h {
        assert x in multiset(sorted[1..]);
        var k :| 0 <= k < |sorted[1..]| && sorted[1..][k] == x;
        assert sorted[k + 1] == x;
      }
    }
  }

  /**
   * `.sort((a, b) => a.hop - b.hop)`: the same hops (a permutation), in
   * ascending order of hop number.
   */
  function SortByHop(hops: seq<Hop>): (r: seq<Hop>)
    ensures SortedByHop(r)
    ensures multiset(r) == multiset(hops)
  {
    if hops == [] then []
    else
      assert hops == [hops[0]] + hops[1..];
      InsertByHop(hops[0], SortByHop(hops[1..]))
  }

  /** Inserting a new hop number into a strictly ascending list keeps it strictly ascending. */
  lemma {:induction false} InsertStrict(h: Hop, sorted: seq<Hop>)
    requires StrictlyAscending(sorted)
    requires forall x :: x in sorted ==> x.hop != h.hop
    ensures StrictlyAscending(InsertByHop(h, sorted))
  {
    if sorted != [] && h.hop > sorted[0].hop {
      InsertStrict(h, sorted[1..]);
      var rest := InsertByHop(h, sorted[1..]);
      assert InsertByHop(h, sorted) == [sorted[0]] + rest;
      FirstIsBelow(h, sorted, rest);
      ConsStrict(sorted[0], rest);
    }
  }

  /** Everything in `rest`, a rearrangement of `sorted[1..]` and a later `h`, comes after `sorted[0]`. */
  lemma FirstIsBelow(h: Hop, sorted: seq<Hop>, rest: seq<Hop>)
    requires StrictlyAscending(sorted) && sorted != [] && sorted[0].hop < h.hop
    requires multiset(rest) == multiset(sorted[1..]) + multiset{h}
    ensures forall j :: 0 <= j < |rest| ==> sorted[0].hop < rest[j].hop
  {
    forall j | 0 <= j < |rest| ensures sorted[0].hop < rest[j].hop {
      var x := rest[j];
      assert x in multiset(rest);
      if x != h {
        assert x in multiset(sorted[1..]);
        var k :| 0 <= k < |sorted[1..]| && sorted[1..][k] == x;
        assert sorted[k + 1] == x;
      }
    }
  }

  /** With no hop number repeated, the sorted list is strictly ascending. */
  lemma {:induction false} SortStrict(hops: seq<Hop>)
    requires DistinctHops(hops)
    ensures StrictlyAscending(SortByHop(hops))
  {
    if hops != [] {
      var tail := hops[1..];
      assert forall i, j :: 0 <= i < j < |tail| ==> tail[i] == hops[i + 1] && tail[j] == hops[j + 1];
      SortStrict(tail);
      var sortedTail := SortByHop(tail);
      forall x | x in sortedTail ensures x.hop != hops[0].hop {
        assert x in multiset(tail);
      }
      InsertStrict(hops[0], sortedTail);
    }
  }

  /** The threshold of the renderer's copy of `findBottleneck`, applied to the hops parsed here. */
  const RendererThreshold: nat := 20

  // ---------------------------------------------------------------------
  // The parser
  // ---------------------------------------------------------------------

  /** What `parseTracerouteHops` returns for `output`. */
  function HopsOf(output: string): seq<Hop> {
    if output == "" then []
    else SortByHop(Values(TableOf(LineHops(Split(output)[1..]))))
  }

  /**
   * `parseTracerouteHops`: skip the header line, feed every other line to
   * the hop map, then sort its values by hop number.
   */
  method ParseTracerouteHops(output: string) returns (hops: seq<Hop>)
    ensures hops == HopsOf(output)
  {
    if output == "" {
      return [];
    }
    var lines := Split(output);
    var hopMap := HopTable(map[], []);
    for i := 1 to |lines|
      invariant hopMap == TableOf(LineHops(lines[1..i]))
    {
      TableStep(lines, i);
      var line := Trim(lines[i]);
      if line == [] {
        continue;
      }
      if !IsDigit(line[0]) {
        continue;
      }
      var hopNum := LeadingNumber(line);
      if hopNum == 0 {
        continue;
      }
      hopMap := Put(hopMap, HopOf(line, hopNum));
    }
    assert lines[1..|lines|] == lines[1..];
    hops := SortByHop(Values(hopMap));
  }

  /** One more line feeds what it describes to the map. */
  lemma TableStep(lines: seq<string>, i: nat)
    requires 1 <= i < |lines|
    ensures TableOf(LineHops(lines[1..i + 1])) == Fed(TableOf(LineHops(lines[1..i])), LineHop(lines[i]))
  {
    SliceSnoc(lines, 1, i);
    LineHopsSnoc(lines[1..i], lines[i]);
  }

  /** Insertion order gives each hop number once, so the map's values have distinct hop numbers. */
  lemma ValuesDistinct(t: HopTable)
    requires WellFormed(t)
    ensures DistinctHops(Values(t))
    ensures forall h: Hop :: h in Values(t) <==> h.hop in t.entries && t.entries[h.hop] == h
  {
    var vs := Values(t);
    forall h: Hop | h.hop in t.entries && t.entries[h.hop] == h ensures h in vs {
      var i :| 0 <= i < |t.order| && t.order[i] == h.hop;
      assert vs[i] == h;
    }
  }

  /** Output without a newline is a header only and gives no hops. */
  lemma HeaderOnlyGivesNoHops(output: string)
    requires '\n' !in output
    ensures HopsOf(output) == []
  {
    if output != "" {
      SplitJoin([output]);
      assert Split(output)[1..] == [];
    }
  }

  /** The first line never contributes: only what follows it matters. */
  lemma HeaderIgnored(header: string, other: string, rest: string)
    requires '\n' !in header && '\n' !in other
    ensures HopsOf(header + "\n" + rest) == HopsOf(other + "\n" + rest)
  {
    SplitFirstLine(header, rest);
    SplitFirstLine(other, rest);
    assert |header + "\n" + rest| > 0 && |other + "\n" + rest| > 0;
  }

  /** One hop per hop number, in strictly ascending order, none below 1. */
  lemma HopsAscending(output: string)
    ensures StrictlyAscending(HopsOf(output))
    ensures forall i :: 0 <= i < |HopsOf(output)| ==> HopsOf(output)[i].hop >= 1
  {
    if output != "" {
      var described := LineHops(Split(output)[1..]);
      var t := TableOf(described);
      ValuesDistinct(t);
      SortStrict(Values(t));
      forall i | 0 <= i < |HopsOf(output)| ensures HopsOf(output)[i].hop >= 1 {
        var h := HopsOf(output)[i];
        assert h in multiset(Values(t));
        TableOfLastWriteWins(described, h.hop);
        var j :| LastFor(described, h.hop, j) && t.entries[h.hop] == described[j].value;
      }
    }
  }

  /**
   * Last write wins: every hop of the sorted table is what the last entry
   * carrying its hop number describes. For `HopsOf(output)` the entries are
   * `LineHops(Split(output)[1..])`, entry `i` being line `i + 1`.
   */
  lemma SortedTableLastWrite(described: seq<Option<Hop>>, h: Hop)
    requires h in SortByHop(Values(TableOf(described)))
    ensures exists i :: LastFor(described, h.hop, i) && described[i] == Some(h)
  {
    var t := TableOf(described);
    ValuesDistinct(t);
    assert h in multiset(Values(t));
    assert h in Values(t);
    TableOfLastWriteWins(described, h.hop);
  }

  /** Every hop number some entry carries is in the sorted table. */
  lemma SortedTableCovers(described: seq<Option<Hop>>, i: nat)
    requires i < |described| && described[i].Some?
    ensures exists h :: h in SortByHop(Values(TableOf(described))) && h.hop == described[i].value.hop
  {
    var t := TableOf(described);
    var k := described[i].value.hop;
    TableOfKeys(described, k);
    assert Describes(described, i, k);
    ValuesDistinct(t);
    assert t.entries[k] in Values(t);
    assert t.entries[k] in multiset(SortByHop(Values(t)));
  }
}
