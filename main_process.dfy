/**
 * The Electron main process (`src/main.js`): which command line each
 * platform gets for `ping` and `traceroute`, and `parsePingOutput`, which
 * turns the captured output of `ping` into a result record. Spawning the
 * processes and collecting their streams is not modelled: the captured
 * text, the exit code and the clock reading are inputs.
 */
module MainProcess {
  import opened Wrappers
  import opened Text
  import Stats

  /** `count = 4` in the `ping-host` handler, and the `packetsTransmitted` written back. */
  const DefaultCount: nat := 4

  /** The traceroute hop limit passed on every platform. */
  const MaxHops: nat := 30

  /** A program and its argument list, as given to `spawn`. */
  datatype Command = Command(program: string, args: seq<string>)

  /** `ping -n <count> <host>` on Windows, `ping -c <count> <host>` elsewhere. */
  function PingCommand(platform: string, host: string, count: nat): (c: Command)
    ensures c.program == "ping" && |c.args| == 3 && c.args[2] == host
    ensures c.args[0] == (if platform == "win32" then "-n" else "-c")
    ensures AllDigits(c.args[1]) && DigitsValue(c.args[1]) == count
  {
    var isWindows := platform == "win32";
    Command("ping", [if isWindows then "-n" else "-c", NatToString(count), host])
  }

  /**
   * `tracert -d -h 30 <host>` on Windows, `traceroute -m 30 <host>` on
   * macOS and `traceroute -m 30 -n <host>` elsewhere.
   */
  function TracerouteCommand(platform: string, host: string): (c: Command)
    ensures c.program == (if platform == "win32" then "tracert" else "traceroute")
    ensures |c.args| >= 3 && c.args[|c.args| - 1] == host
    // the hop limit: its flag, then 30
    ensures exists k :: 0 <= k < |c.args| - 2
                        && c.args[k] == (if platform == "win32" then "-h" else "-m")
                        && AllDigits(c.args[k + 1]) && DigitsValue(c.args[k + 1]) == MaxHops
    // name resolution is skipped everywhere but on macOS
    ensures ("-n" in c.args[..|c.args| - 1] || "-d" in c.args[..|c.args| - 1]) <==> platform != "darwin"
    // and exactly these arguments, per platform
    ensures platform == "win32" ==> c.args == ["-d", "-h", "30", host]
    ensures platform == "darwin" ==> c.args == ["-m", "30", host]
    ensures platform != "win32" && platform != "darwin" ==> c.args == ["-m", "30", "-n", host]
  {
    var hops := NatToString(MaxHops);
    assert hops == "30";
    if platform == "win32" then
      var c := Command("tracert", ["-d", "-h", hops, host]);
      assert c.args[..3] == ["-d", "-h", hops] && c.args[1] == "-h" && c.args[2] == hops;
      c
    else if platform == "darwin" then
      var c := Command("traceroute", ["-m", hops, host]);
      assert c.args[..2] == ["-m", hops] && c.args[0] == "-m" && c.args[1] == hops;
      c
    else
      var c := Command("traceroute", ["-m", hops, "-n", host]);
      assert c.args[..3] == ["-m", hops, "-n"] && c.args[0] == "-m" && c.args[1] == hops;
      c
  }

  /** What the `traceroute-host` handler resolves with. */
  datatype TraceOutput = TraceOutput(success: bool, output: string, error: string, timestamp: int)

  /** The record `parsePingOutput` returns. */
  datatype PingResult = PingResult(
    host: string,
    timestamp: int,
    success: bool,
    times: seq<real>,
    packetsTransmitted: nat,
    packetsReceived: nat,
    packetLoss: real,
    avgTime: real,
    minTime: real,
    maxTime: real,
    error: Option<string>)

  // ---------------------------------------------------------------------
  // `line.match(/time[<=](\d+\.?\d*)/i)`
  // ---------------------------------------------------------------------

  /** `c` equals the lower-case ASCII letter `lower` ignoring case. */
  predicate SameLetter(c: char, lower: char)
    requires 'a' <= lower <= 'z'
  {
    c == lower || c as int == lower as int - 32
  }

  /** A case-insensitive `time`, then `<` or `=`, then a digit, begins at `p`. */
  predicate TimeMarkerAt(line: string, p: nat) {
    && p + 5 < |line|
    && SameLetter(line[p], 't') && SameLetter(line[p + 1], 'i')
    && SameLetter(line[p + 2], 'm') && SameLetter(line[p + 3], 'e')
    && (line[p + 4] == '<' || line[p + 4] == '=')
    && IsDigit(line[p + 5])
  }

  /** The number after the leftmost marker at or after `p`. */
  function FirstTimeFrom(line: string, p: nat): (t: Option<real>)
    ensures t.Some? ==> t.value >= 0.0
    decreases |line| - p
  {
    if p + 5 >= |line| then None
    else if TimeMarkerAt(line, p) then Some(DecimalAt(line, p + 5).value)
    else FirstTimeFrom(line, p + 1)
  }

  /** The sample one output line contributes, if any. */
  function TimeSample(line: string): Option<real> {
    FirstTimeFrom(line, 0)
  }

  /** The samples of a list of lines, in line order. */
  function Samples(lines: seq<string>): seq<real>
  {
    if lines == [] then []
    else
      var last := TimeSample(lines[|lines| - 1]);
      Samples(lines[..|lines| - 1]) + (if last.Some? then [last.value] else [])
  }

  /** `code === 0 && !error` */
  predicate Succeeded(error: string, code: Option<int>) {
    code == Some(0) && error == ""
  }

  /**
   * The result `parsePingOutput(output, error, code, host)` returns when the
   * clock reads `now`; `code` is `None` when the process was ended by a
   * signal (`null` in Node).
   */
  function ParsedPing(output: string, error: string, code: Option<int>, host: string, now: int): PingResult
  {
    var errorField := if error == "" then None else Some(error);
    if !Succeeded(error, code) then
      PingResult(host, now, false, [], 0, 0, 0.0, 0.0, 0.0, 0.0, errorField)
    else
      var times := Samples(Split(output));
      if times == [] then
        PingResult(host, now, true, [], 0, 0, 0.0, 0.0, 0.0, 0.0, errorField)
      else
        PingResult(host, now, true, times, DefaultCount, |times|,
                   (DefaultCount - |times|) as real / DefaultCount as real * 100.0,
                   Stats.Sum(times) / |times| as real, Stats.MinOf(times), Stats.MaxOf(times),
                   errorField)
  }

  /**
   * `parsePingOutput`: build the zeroed record, return it when the run
   * failed, otherwise push one sample per matching line and fill in the
   * statistics when there is at least one.
   */
  method ParsePingOutput(output: string, error: string, code: Option<int>, host: string, now: int)
    returns (result: PingResult)
    ensures result == ParsedPing(output, error, code, host, now)
  {
    var lines := Split(output);
    result := PingResult(host, now, code == Some(0) && error == "", [], 0, 0, 0.0, 0.0, 0.0, 0.0,
                         if error == "" then None else Some(error));
    if !result.success {
      return;
    }
    for i := 0 to |lines|
      invariant result.times == Samples(lines[..i])
      invariant result == PingResult(host, now, true, result.times, 0, 0, 0.0, 0.0, 0.0, 0.0, result.error)
      invariant result.error == if error == "" then None else Some(error)
    {
      var timeMatch := FirstTimeFrom(lines[i], 0);
      assert lines[..i + 1][..i] == lines[..i];
      if timeMatch.Some? {
        result := result.(times := result.times + [timeMatch.value]);
      }
    }
    assert lines[..|lines|] == lines;
    if |result.times| > 0 {
      var times := result.times;
      result := result.(packetsTransmitted := DefaultCount, packetsReceived := |times|);
      result := result.(packetLoss := (result.packetsTransmitted - result.packetsReceived) as real
                                      / result.packetsTransmitted as real * 100.0,
                        avgTime := Stats.Sum(times) / |times| as real,
                        minTime := Stats.MinOf(times), maxTime := Stats.MaxOf(times));
    }
  }

  // ---------------------------------------------------------------------
  // Properties of `parsePingOutput`
  // ---------------------------------------------------------------------

  /**
   * The run counts as successful exactly when the exit code is 0 and
   * nothing was written to standard error; the error field carries the
   * standard-error text, or nothing when it is empty.
   */
  lemma SuccessAndErrorFields(output: string, error: string, code: Option<int>, host: string, now: int)
    ensures ParsedPing(output, error, code, host, now).success <==> code == Some(0) && error == ""
    ensures ParsedPing(output, error, code, host, now).error == if error == "" then None else Some(error)
    ensures ParsedPing(output, error, code, host, now).host == host
    ensures ParsedPing(output, error, code, host, now).timestamp == now
  {
  }

  /**
   * A failed run has no samples and all-zero statistics, and its output
   * is never looked at: any other output gives the same result.
   */
  lemma FailedRunIsEmpty(output: string, other: string, error: string, code: Option<int>, host: string, now: int)
    requires !(code == Some(0) && error == "")
    ensures var r := ParsedPing(output, error, code, host, now);
            && r.times == []
            && r.packetsTransmitted == 0 && r.packetsReceived == 0 && r.packetLoss == 0.0
            && r.avgTime == 0.0 && r.minTime == 0.0 && r.maxTime == 0.0
    ensures ParsedPing(output, error, code, host, now) == ParsedPing(other, error, code, host, now)
  {
  }

  /** Samples are collected line by line, keeping line order. */
  lemma {:induction false} SamplesAppend(a: seq<string>, b: seq<string>)
    ensures Samples(a + b) == Samples(a) + Samples(b)
    decreases |b|
  {
    if b == [] {
      assert a + b == a;
    } else {
      var b' := b[..|b| - 1];
      assert (a + b)[..|a + b| - 1] == a + b';
      assert (a + b)[|a + b| - 1] == b[|b| - 1];
      SamplesAppend(a, b');
    }
  }

  /** Each line contributes at most one sample. */
  lemma {:induction false} AtMostOneSamplePerLine(lines: seq<string>)
    ensures |Samples(lines)| <= |lines|
  {
    if lines != [] {
      AtMostOneSamplePerLine(lines[..|lines| - 1]);
    }
  }

  /** The samples of `first + "\n" + rest` are those of `first` followed by those of `rest`. */
  lemma SamplesOfJoinedOutput(first: string, rest: string)
    requires '\n' !in first
    ensures Samples(Split(first + "\n" + rest)) == Samples([first]) + Samples(Split(rest))
  {
    SplitFirstLine(first, rest);
    SamplesAppend([first], Split(rest));
  }

  /**
   * With at least one sample: 4 packets are reported sent whatever the
   * count, one received per sample, the loss follows from those two (and
   * goes below zero past 4 samples), and the average lies between the
   * minimum and the maximum, which are both samples.
   */
  lemma SuccessfulRunStatistics(output: string, error: string, code: Option<int>, host: string, now: int)
    requires code == Some(0) && error == ""
    requires Samples(Split(output)) != []
    ensures var r := ParsedPing(output, error, code, host, now);
            && r.success && r.times == Samples(Split(output))
            && r.packetsTransmitted == 4
            && r.packetsReceived == |r.times|
            && r.packetLoss == (4 - |r.times|) as real / 4.0 * 100.0
            && (|r.times| > 4 <==> r.packetLoss < 0.0)
            && r.minTime in r.times && r.maxTime in r.times
            && r.minTime <= r.avgTime <= r.maxTime
            && (forall k :: 0 <= k < |r.times| ==> r.minTime <= r.times[k] <= r.maxTime)
  {
    var times := Samples(Split(output));
    Stats.MeanBetween(times);
  }

  /**
   * A successful run in which no line carries a time is reported as a
   * success with every statistic, the packets sent included, left at 0.
   */
  lemma SilentSuccess(output: string, host: string, now: int)
    requires Samples(Split(output)) == []
    ensures var r := ParsedPing(output, "", Some(0), host, now);
            && r.success && r.times == []
            && r.packetsTransmitted == 0 && r.packetsReceived == 0 && r.packetLoss == 0.0
            && r.avgTime == 0.0 && r.minTime == 0.0 && r.maxTime == 0.0 && r.error == None
  {
  }

  /** With no marker anywhere in `line[p..q]`, the search passes over it. */
  lemma {:induction false} SkipToMarker(line: string, p: nat, q: nat)
    requires p <= q
    requires forall r :: p <= r < q ==> !TimeMarkerAt(line, r)
    ensures FirstTimeFrom(line, p) == FirstTimeFrom(line, q)
    decreases q - p
  {
    if p < q {
      SkipToMarker(line, p + 1, q);
    }
  }

  /**
   * The first marker wins: a line whose text before `time=` (or `time<`)
   * holds no marker yields the number written after it.
   */
  lemma {:induction false} SampleAfterMarker(pre: string, sep: char, num: string)
    requires forall p :: 0 <= p < |pre| ==> !TimeMarkerAt(pre, p)
    requires sep == '=' || sep == '<'
    requires |num| >= 1 && IsDigit(num[0])
    ensures var line := pre + "time" + [sep] + num;
            TimeSample(line) == Some(DecimalAt(line, |pre| + 5).value)
  {
    var line := pre + "time" + [sep] + num;
    var n := |pre|;
    assert line[n..n + 4] == "time" && line[n + 4] == sep && line[n + 5..] == num;
    forall r | 0 <= r < n ensures !TimeMarkerAt(line, r) {
      if r + 5 < n {
        assert line[r..r + 6] == pre[r..r + 6];
        assert !TimeMarkerAt(pre, r);
      } else {
        assert line[n] == 't';
      }
    }
    SkipToMarker(line, 0, n);
    assert TimeMarkerAt(line, n);
  }

  /** One line `time=<whole>.<frac> ms` yields `<whole>.<frac>`. */
  lemma {:induction false} OneReply(whole: string, frac: string, line: string)
    requires |whole| >= 1 && AllDigits(whole) && AllDigits(frac)
    requires line == "time=" + whole + "." + frac + " ms"
    ensures TimeSample(line) == Some(DigitsValue(whole) as real + Fraction(frac))
  {
    var num := whole + "." + frac + " ms";
    assert IsDigit(line[5]) && TimeSample(line) == Some(DecimalAt(line, 5).value) by {
      assert line == "" + "time" + ['='] + num;
      SampleAfterMarker("", '=', num);
    }
    assert DecimalAt(line, 5).value == DigitsValue(whole) as real + Fraction(frac) by {
      DecimalOfText("time=", whole, frac, " ms");
    }
  }
}
