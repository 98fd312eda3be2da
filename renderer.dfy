/**
 * The renderer's host registry (`src/renderer.js`, class `PynkRenderer`):
 * the list of monitored hosts, the hostId → interval-job map, the capped
 * per-host series of ping results, and one probe of a host (ping, then a
 * traceroute when the ping went badly).
 *
 * The ping and traceroute requests go to the main process; what they
 * return, or the message they throw with, is an input here (`Outcome`).
 * A host object captured by the probe closure is an index into `hosts`.
 */
module Renderer {
  import opened Wrappers
  import opened Text
  import Series
  import opened MainProcess

  /** `host.status` */
  datatype Status = Stopped | Running | Warning | Failed

  /** A host record as `addHost` builds it; `lastPing` is `null` until a result arrives. */
  datatype Host = Host(
    id: string,
    name: string,
    alias: string,
    interval: int,
    status: Status,
    lastPing: Option<int>,
    avgTime: real,
    packetLoss: real)

  /**
   * The fields of a ping result that `processPingResult` copies as they are
   * (`...result`). `None` is a field the result does not have; `error` is
   * always present, `None` standing for `null`.
   */
  datatype Extra = Extra(
    host: Option<string>,
    times: Option<seq<real>>,
    packetsTransmitted: Option<nat>,
    packetsReceived: Option<nat>,
    error: Option<string>)

  /** A ping result as it reaches `processPingResult`; `None` is a missing field. */
  datatype RawPing = RawPing(
    timestamp: Option<int>,
    success: Option<bool>,
    avgTime: Option<real>,
    packetLoss: Option<real>,
    minTime: Option<real>,
    maxTime: Option<real>,
    extra: Extra)

  /** One element of a host's series: the normalised result and the traceroute attached to it, if any. */
  datatype Entry = Entry(
    timestamp: int,
    success: bool,
    avgTime: real,
    packetLoss: real,
    minTime: real,
    maxTime: real,
    extra: Extra,
    traceroute: Option<TraceOutput>)

  /** What an awaited request gives: its value, or the message of the error it throws. */
  datatype Outcome<T> = Returned(value: T) | Threw(message: string)

  // ---------------------------------------------------------------------
  // processPingResult: normalisation and status
  // ---------------------------------------------------------------------

  /** A result of `parsePingOutput` has every field. */
  function FromParsed(r: PingResult): RawPing {
    RawPing(Some(r.timestamp), Some(r.success), Some(r.avgTime), Some(r.packetLoss),
            Some(r.minTime), Some(r.maxTime),
            Extra(Some(r.host), Some(r.times), Some(r.packetsTransmitted), Some(r.packetsReceived), r.error))
  }

  /**
   * The failure record the probe's `catch` builds from the thrown error's
   * message (`'Unknown error'` when it is empty) at time `now`.
   */
  function Synthetic(message: string, now: int): RawPing {
    RawPing(Some(now), Some(false), Some(0.0), Some(100.0), Some(0.0), Some(0.0),
            Extra(None, None, None, None, Some(if message == "" then "Unknown error" else message)))
  }

  /**
   * The `processedResult` of `processPingResult`: a missing timestamp
   * becomes `now`, a missing `success` false, a missing `packetLoss` 100,
   * missing (or zero) times 0; every other field is kept.
   */
  function Normalise(raw: RawPing, now: int): (e: Entry)
    ensures e.success <==> raw.success == Some(true)
    ensures e.packetLoss == if raw.packetLoss.Some? then raw.packetLoss.value else 100.0
    ensures e.timestamp == if raw.timestamp.Some? then raw.timestamp.value else now
    ensures raw.avgTime.None? ==> e.avgTime == 0.0
    ensures raw.minTime.None? ==> e.minTime == 0.0
    ensures raw.maxTime.None? ==> e.maxTime == 0.0
    ensures e.extra == raw.extra && e.traceroute == None
  {
    Entry(raw.timestamp.GetOr(now), raw.success.GetOr(false), raw.avgTime.GetOr(0.0),
          raw.packetLoss.GetOr(100.0), raw.minTime.GetOr(0.0), raw.maxTime.GetOr(0.0),
          raw.extra, None)
  }

  /** The status `processPingResult` derives, tested in this order. */
  function DeriveStatus(e: Entry): Status {
    if e.success && e.packetLoss < 10.0 then Running
    else if e.packetLoss > 50.0 then Failed
    else Warning
  }

  /** The host after `processPingResult` has copied the entry's fields into it. */
  function Recorded(h: Host, e: Entry): Host {
    h.(lastPing := Some(e.timestamp), avgTime := e.avgTime, packetLoss := e.packetLoss,
       status := DeriveStatus(e))
  }

  /** A result of `parsePingOutput` passes through normalisation with every field unchanged. */
  lemma NormaliseParsed(r: PingResult, now: int)
    ensures var e := Normalise(FromParsed(r), now);
            && e.timestamp == r.timestamp && e.success == r.success
            && e.avgTime == r.avgTime && e.packetLoss == r.packetLoss
            && e.minTime == r.minTime && e.maxTime == r.maxTime
            && e.extra.host == Some(r.host) && e.extra.times == Some(r.times)
            && e.extra.error == r.error && e.traceroute == None
  {
  }

  /** The failure record of a thrown error is a failed entry with full loss and a non-empty message. */
  lemma SyntheticFails(message: string, now: int, now': int)
    ensures var e := Normalise(Synthetic(message, now), now');
            && e.timestamp == now && !e.success && e.packetLoss == 100.0
            && e.avgTime == 0.0 && e.minTime == 0.0 && e.maxTime == 0.0
            && e.extra.error.Some? && e.extra.error.value != ""
            && DeriveStatus(e) == Failed
  {
  }

  /**
   * A failed run as `parsePingOutput` reports it carries loss 0, so the
   * host it is recorded for shows `warning`, not `failed`.
   */
  lemma FailedRunShowsWarning(output: string, error: string, code: Option<int>, host: string, now: int, now': int)
    requires !(code == Some(0) && error == "")
    ensures DeriveStatus(Normalise(FromParsed(ParsedPing(output, error, code, host, now)), now')) == Warning
  {
    FailedRunIsEmpty(output, output, error, code, host, now);
  }

  /**
   * The status a successful run leads to depends only on how many replies
   * were counted: none or at least 4 give `running`, exactly 1 (loss 75)
   * gives `failed`, and 2 or 3 (loss 50 or 25) give `warning`.
   */
  lemma SuccessfulRunStatus(output: string, host: string, now: int, now': int)
    ensures var n := |Samples(Split(output))|;
            var s := DeriveStatus(Normalise(FromParsed(ParsedPing(output, "", Some(0), host, now)), now'));
            && (s == Running <==> n == 0 || n >= 4)
            && (s == Failed <==> n == 1)
            && (s == Warning <==> n == 2 || n == 3)
  {
    if Samples(Split(output)) == [] {
      SilentSuccess(output, host, now);
    } else {
      SuccessfulRunStatistics(output, "", Some(0), host, now);
    }
  }

  // ---------------------------------------------------------------------
  // processTracerouteResult and one probe
  // ---------------------------------------------------------------------

  /** `pingData.get(id) || []` */
  function SeriesOf(data: map<string, seq<Entry>>, id: string): seq<Entry> {
    if id in data then data[id] else []
  }

  /**
   * `processTracerouteResult` on a series: the traceroute goes onto the
   * newest entry; every other entry, and an empty series, stay as they are.
   */
  function Attach(s: seq<Entry>, t: TraceOutput): (r: seq<Entry>)
    ensures |r| == |s|
    ensures forall k :: 0 <= k < |s| - 1 ==> r[k] == s[k]
    ensures s != [] ==> r[|s| - 1] == s[|s| - 1].(traceroute := Some(t))
  {
    if s == [] then [] else s[..|s| - 1] + [s[|s| - 1].(traceroute := Some(t))]
  }

  /** The probe asks for a traceroute when the ping did not succeed or lost more than half. */
  predicate NeedsTraceroute(r: PingResult) {
    !r.success || r.packetLoss > 50.0
  }

  /** The probe's own error path ran: the ping threw, or the traceroute it asked for did. */
  predicate ProbeThrew(ping: Outcome<PingResult>, trace: Outcome<TraceOutput>) {
    ping.Threw? || (NeedsTraceroute(ping.value) && trace.Threw?)
  }

  /** The message of the error the probe caught. */
  function CaughtMessage(ping: Outcome<PingResult>, trace: Outcome<TraceOutput>): string
    requires ProbeThrew(ping, trace)
  {
    if ping.Threw? then ping.message else trace.message
  }

  /**
   * A host's series after one run of `pingHost`: the ping's entry is
   * pushed; when a traceroute is needed it is attached to that entry, or,
   * when the traceroute request throws, the catch pushes a failure entry
   * after it. A ping that throws pushes only the failure entry.
   */
  function ProbeSeries(s: seq<Entry>, ping: Outcome<PingResult>, trace: Outcome<TraceOutput>, now: int): (r: seq<Entry>)
    ensures |s| <= Series.Capacity ==> |r| <= Series.Capacity
  {
    match ping
    case Threw(m) => Series.Push(s, Normalise(Synthetic(m, now), now))
    case Returned(res) =>
      var s1 := Series.Push(s, Normalise(FromParsed(res), now));
      if !NeedsTraceroute(res) then s1
      else match trace
        case Returned(t) => Attach(s1, t)
        case Threw(m) => Series.Push(s1, Normalise(Synthetic(m, now), now))
  }

  /** The host record after one run of `pingHost`. */
  function ProbeRecord(h: Host, ping: Outcome<PingResult>, trace: Outcome<TraceOutput>, now: int): (r: Host)
    ensures r.id == h.id && r.name == h.name && r.alias == h.alias && r.interval == h.interval
  {
    match ping
    case Threw(m) => Recorded(h, Normalise(Synthetic(m, now), now))
    case Returned(res) =>
      var h1 := Recorded(h, Normalise(FromParsed(res), now));
      if NeedsTraceroute(res) && trace.Threw? then Recorded(h1, Normalise(Synthetic(trace.message, now), now))
      else h1
  }

  /**
   * Below the cap, a probe keeps every earlier entry and appends exactly
   * one entry, or two when the traceroute it asked for threw. The first
   * appended entry is the normalised ping result, carrying the traceroute
   * exactly when one was needed and came back; when anything threw, the
   * last entry is the failure record built from the caught message.
   */
  lemma ProbeAppends(s: seq<Entry>, ping: Outcome<PingResult>, trace: Outcome<TraceOutput>, now: int)
    requires |s| + 2 <= Series.Capacity
    ensures var r := ProbeSeries(s, ping, trace, now);
            && |r| == |s| + (if ping.Returned? && ProbeThrew(ping, trace) then 2 else 1)
            && r[..|s|] == s
            && (ping.Returned? ==> r[|s|].(traceroute := None) == Normalise(FromParsed(ping.value), now))
            && (ping.Returned? ==> r[|s|].traceroute
                                   == if NeedsTraceroute(ping.value) && trace.Returned? then Some(trace.value) else None)
            && (ProbeThrew(ping, trace) ==> r[|r| - 1] == Normalise(Synthetic(CaughtMessage(ping, trace), now), now))
  {
    var r := ProbeSeries(s, ping, trace, now);
    if ping.Returned? {
      var s1 := Series.Push(s, Normalise(FromParsed(ping.value), now));
      assert s1[..|s|] == s;
      if NeedsTraceroute(ping.value) && trace.Returned? {
        assert r[..|s|] == s1[..|s|];
      } else if NeedsTraceroute(ping.value) {
        assert r[..|s|] == s1[..|s|];
      }
    }
  }

  /**
   * The newest entry after a probe carries a traceroute exactly when the
   * ping returned a result that needed one and the traceroute came back,
   * and it is then that traceroute.
   */
  lemma ProbeTraceroute(s: seq<Entry>, ping: Outcome<PingResult>, trace: Outcome<TraceOutput>, now: int)
    ensures var r := ProbeSeries(s, ping, trace, now);
            && r != []
            && r[|r| - 1].traceroute
               == if ping.Returned? && NeedsTraceroute(ping.value) && trace.Returned? then Some(trace.value) else None
  {
  }

  /**
   * After a probe the host shows the newest entry: a caught error leaves it
   * `failed` with full loss; otherwise it shows the ping's own fields and
   * the status derived from them.
   */
  lemma ProbeStatus(h: Host, ping: Outcome<PingResult>, trace: Outcome<TraceOutput>, now: int)
    ensures var r := ProbeRecord(h, ping, trace, now);
            && (ProbeThrew(ping, trace) ==>
                  r.status == Failed && r.packetLoss == 100.0 && r.avgTime == 0.0 && r.lastPing == Some(now))
            && (!ProbeThrew(ping, trace) ==>
                  && r.status == DeriveStatus(Normalise(FromParsed(ping.value), now))
                  && r.lastPing == Some(ping.value.timestamp)
                  && r.avgTime == ping.value.avgTime && r.packetLoss == ping.value.packetLoss)
    ensures var r := ProbeRecord(h, ping, trace, now);
            var s := ProbeSeries([], ping, trace, now);
            && r.lastPing == Some(s[|s| - 1].timestamp)
            && r.status == DeriveStatus(s[|s| - 1])
  {
  }

  // ---------------------------------------------------------------------
  // Host lookup
  // ---------------------------------------------------------------------

  /** `hosts.find(h => h.id === id)`: the index of the first host with that id. */
  function FindHost(hosts: seq<Host>, id: string): (r: Option<nat>)
    ensures r.Some? ==> r.value < |hosts| && hosts[r.value].id == id
    ensures r.Some? ==> forall j :: 0 <= j < r.value ==> hosts[j].id != id
    ensures r.None? ==> forall j :: 0 <= j < |hosts| ==> hosts[j].id != id
  {
    if hosts == [] then None
    else if hosts[0].id == id then Some(0)
    else match FindHost(hosts[1..], id)
      case Some(j) => Some(j + 1)
      case None => None
  }

  /** `hosts.filter(h => h.id !== id)` */
  function Without(hosts: seq<Host>, id: string): (r: seq<Host>)
    ensures forall h :: h in r <==> h in hosts && h.id != id
    ensures |r| <= |hosts|
  {
    if hosts == [] then []
    else (if hosts[0].id == id then [] else [hosts[0]]) + Without(hosts[1..], id)
  }

  /**
   * The filter keeps the order: filtering a concatenation filters each
   * part (and `WithoutOne` says what becomes of a single host).
   */
  lemma {:induction false} WithoutAppend(a: seq<Host>, b: seq<Host>, id: string)
    ensures Without(a + b, id) == Without(a, id) + Without(b, id)
    decreases |a|
  {
    if a == [] {
      assert a + b == b;
    } else {
      var head := if a[0].id == id then [] else [a[0]];
      var rb, rt := Without(b, id), Without(a[1..], id);
      calc {
        Without(a + b, id);
      ==  { assert (a + b)[0] == a[0] && (a + b)[1..] == a[1..] + b; }
        head + Without(a[1..] + b, id);
      ==  { WithoutAppend(a[1..], b, id); }
        head + (rt + rb);
      ==
        (head + rt) + rb;
      ==  { assert Without(a, id) == head + rt; }
        Without(a, id) + rb;
      }
    }
  }

  /** A single host stays exactly when its id differs. */
  lemma WithoutOne(h: Host, id: string)
    ensures Without([h], id) == (if h.id == id then [] else [h])
  {
    assert [h][1..] == [];
  }

  /** A list in which no host has the id is left as it is. */
  lemma {:induction false} WithoutAbsent(hosts: seq<Host>, id: string)
    requires forall j :: 0 <= j < |hosts| ==> hosts[j].id != id
    ensures Without(hosts, id) == hosts
  {
    if hosts != [] {
      WithoutAbsent(hosts[1..], id);
      assert [hosts[0]] + hosts[1..] == hosts;
    }
  }

  /** The ids of the registered hosts. */
  function Ids(hosts: seq<Host>): set<string> {
    set h | h in hosts :: h.id
  }

  /** Filtering out an id removes exactly that id. */
  lemma WithoutIds(hosts: seq<Host>, id: string)
    ensures Ids(Without(hosts, id)) == Ids(hosts) - {id}
  {
    var r := Without(hosts, id);
    forall x | x in Ids(hosts) - {id} ensures x in Ids(r) {
      var h :| h in hosts && h.id == x;
      assert h in r;
    }
  }

  /** Changing a host that is filtered out does not change what the filter keeps. */
  lemma {:induction false} WithoutUpdate(hosts: seq<Host>, i: nat, h: Host, id: string)
    requires i < |hosts| && hosts[i].id == id && h.id == id
    ensures Without(hosts[i := h], id) == Without(hosts, id)
  {
    if i > 0 {
      assert hosts[i := h][1..] == hosts[1..][i - 1 := h];
      WithoutUpdate(hosts[1..], i - 1, h, id);
    } else {
      assert hosts[i := h][1..] == hosts[1..];
    }
  }

  /** Changing a host record but not its id keeps the set of ids. */
  lemma IdsUpdate(hosts: seq<Host>, i: nat, h: Host)
    requires i < |hosts| && h.id == hosts[i].id
    ensures Ids(hosts[i := h]) == Ids(hosts)
  {
    var u := hosts[i := h];
    forall x | x in Ids(hosts) ensures x in Ids(u) {
      var j :| 0 <= j < |hosts| && hosts[j].id == x;
      assert u[j].id == x;
    }
    forall x | x in Ids(u) ensures x in Ids(hosts) {
      var j :| 0 <= j < |u| && u[j].id == x;
      assert hosts[j].id == x;
    }
  }

  /** The job a host had, which `clearInterval` stops. */
  function Cleared(jobs: map<string, nat>, id: string): set<nat> {
    if id in jobs then {jobs[id]} else {}
  }

  /** Each job belongs to one host: no interval id is shared. */
  ghost predicate Injective(jobs: map<string, nat>) {
    forall a, b :: a in jobs && b in jobs && jobs[a] == jobs[b] ==> a == b
  }

  /** Dropping a host's job drops exactly its interval id from the running ones. */
  lemma DropJob(jobs: map<string, nat>, id: string)
    requires Injective(jobs)
    ensures Injective(jobs - {id})
    ensures (jobs - {id}).Values == jobs.Values - Cleared(jobs, id)
  {
    var r := jobs - {id};
    forall v | v in jobs.Values - Cleared(jobs, id) ensures v in r.Values {
      var k :| k in jobs && jobs[k] == v;
      assert k != id;
      assert r[k] == v;
    }
  }

  /** Giving a host a fresh interval id replaces its old one. */
  lemma SetJob(jobs: map<string, nat>, id: string, timer: nat)
    requires Injective(jobs) && timer !in jobs.Values
    ensures Injective(jobs[id := timer])
    ensures jobs[id := timer].Values == jobs.Values - Cleared(jobs, id) + {timer}
  {
    DropJob(jobs, id);
    assert jobs[id := timer] == (jobs - {id})[id := timer];
    var r := jobs[id := timer];
    forall v | v in r.Values ensures v in jobs.Values - Cleared(jobs, id) + {timer} {
      var k :| k in r && r[k] == v;
      if k != id {
        assert (jobs - {id})[k] == v;
      }
    }
    forall v | v in jobs.Values - Cleared(jobs, id) + {timer} ensures v in r.Values {
      if v != timer {
        assert v in (jobs - {id}).Values;
        var k :| k in jobs - {id} && (jobs - {id})[k] == v;
        assert r[k] == v;
      } else {
        assert r[id] == timer;
      }
    }
  }

  /** `pingData` after `processPingResult` pushed `e` onto the series of `id`. */
  function Ingested(data: map<string, seq<Entry>>, id: string, e: Entry): map<string, seq<Entry>> {
    data[id := Series.Push(SeriesOf(data, id), e)]
  }

  /** `pingData` after `processTracerouteResult` attached `t` to the series of `id`. */
  function Attached(data: map<string, seq<Entry>>, id: string, t: TraceOutput): map<string, seq<Entry>> {
    data[id := Attach(SeriesOf(data, id), t)]
  }

  /** `pingData` after one run of `pingHost` for the host `id`, step by step. */
  function ProbedData(data: map<string, seq<Entry>>, id: string, ping: Outcome<PingResult>,
                      trace: Outcome<TraceOutput>, now: int): map<string, seq<Entry>>
  {
    match ping
    case Threw(m) => Ingested(data, id, Normalise(Synthetic(m, now), now))
    case Returned(res) =>
      var d1 := Ingested(data, id, Normalise(FromParsed(res), now));
      if !NeedsTraceroute(res) then d1
      else match trace
        case Returned(t) => Attached(d1, id, t)
        case Threw(m) => Ingested(d1, id, Normalise(Synthetic(m, now), now))
  }

  /** A probe changes only the series of the probed host, as `ProbeSeries` says. */
  lemma ProbedDataUpdates(data: map<string, seq<Entry>>, id: string, ping: Outcome<PingResult>,
                          trace: Outcome<TraceOutput>, now: int)
    ensures ProbedData(data, id, ping, trace, now) == data[id := ProbeSeries(SeriesOf(data, id), ping, trace, now)]
  {
    if ping.Returned? && NeedsTraceroute(ping.value) {
      var s1 := Series.Push(SeriesOf(data, id), Normalise(FromParsed(ping.value), now));
      var d1 := data[id := s1];
      assert SeriesOf(d1, id) == s1;
      assert d1[id := ProbeSeries(SeriesOf(data, id), ping, trace, now)]
             == data[id := ProbeSeries(SeriesOf(data, id), ping, trace, now)];
    }
  }

  /** No series is longer than the cap. */
  ghost predicate WithinCap(data: map<string, seq<Entry>>) {
    forall id :: id in data ==> |data[id]| <= Series.Capacity
  }

  /** Replacing one series by one within the cap keeps every series within it. */
  lemma WithinCapUpdate(data: map<string, seq<Entry>>, id: string, s: seq<Entry>)
    requires WithinCap(data) && |s| <= Series.Capacity
    ensures WithinCap(data[id := s])
  {
  }

  // ---------------------------------------------------------------------
  // The registry
  // ---------------------------------------------------------------------

  class PynkRenderer {
    /** `this.hosts` */
    var hosts: seq<Host>
    /** `this.jobs`: host id → interval id */
    var jobs: map<string, nat>
    /** The interval ids the timer runtime is currently firing. */
    ghost var armed: set<nat>
    /** `this.pingData`: host id → series of results */
    var pingData: map<string, seq<Entry>>

    /** Every series belongs to a registered host and is within the cap. */
    ghost predicate SeriesValid()
      reads this
    {
      && pingData.Keys <= Ids(hosts)
      && WithinCap(pingData)
    }

    /**
     * Every job belongs to a registered host, and the intervals firing are
     * exactly those recorded in the job map, one per host.
     */
    ghost predicate JobsValid()
      reads this
    {
      && jobs.Keys <= Ids(hosts)
      && armed == jobs.Values
      && Injective(jobs)
    }

    ghost predicate Valid()
      reads this
    {
      SeriesValid() && JobsValid()
    }

    /** The registry as it starts, before anything is loaded. */
    constructor ()
      ensures Valid()
      ensures hosts == [] && jobs == map[] && pingData == map[] && armed == {}
    {
      hosts := [];
      jobs := map[];
      armed := {};
      pingData := map[];
    }

    /**
     * `processPingResult(host, result)` for the host at index `i`: push the
     * normalised result onto the host's series (dropping the oldest past
     * the cap) and copy its fields and derived status into the host.
     */
    method ProcessPingResult(i: nat, raw: RawPing, now: int)
      requires SeriesValid() && i < |hosts|
      modifies this
      ensures SeriesValid()
      ensures var e := Normalise(raw, now);
              && hosts == old(hosts)[i := Recorded(old(hosts[i]), e)]
              && pingData == Ingested(old(pingData), old(hosts[i].id), e)
      ensures jobs == old(jobs) && armed == old(armed)
    {
      var id := hosts[i].id;
      var data := SeriesOf(pingData, id);
      var e := Normalise(raw, now);
      WithinCapUpdate(pingData, id, Series.Push(data, e));
      assert hosts[i] in hosts;
      pingData := pingData[id := Series.Push(data, e)];
      IdsUpdate(hosts, i, Recorded(hosts[i], e));
      hosts := hosts[i := Recorded(hosts[i], e)];
    }

    /** `processTracerouteResult(host, result)`: attach the traceroute to the host's newest entry. */
    method ProcessTracerouteResult(i: nat, t: TraceOutput)
      requires SeriesValid() && i < |hosts|
      modifies this
      ensures SeriesValid()
      ensures pingData == Attached(old(pingData), old(hosts[i].id), t)
      ensures hosts == old(hosts) && jobs == old(jobs) && armed == old(armed)
    {
      var id := hosts[i].id;
      var data := SeriesOf(pingData, id);
      WithinCapUpdate(pingData, id, Attach(data, t));
      assert hosts[i] in hosts;
      pingData := pingData[id := Attach(data, t)];
    }

    /** One run of the `pingHost` closure for the host at index `i`. */
    method ProbeHost(i: nat, ping: Outcome<PingResult>, trace: Outcome<TraceOutput>, now: int)
      requires SeriesValid() && i < |hosts|
      modifies this
      ensures SeriesValid()
      ensures hosts == old(hosts)[i := ProbeRecord(old(hosts[i]), ping, trace, now)]
      ensures pingData == ProbedData(old(pingData), old(hosts[i].id), ping, trace, now)
      ensures jobs == old(jobs) && armed == old(armed)
    {
      match ping
      case Threw(m) =>
        ProcessPingResult(i, Synthetic(m, now), now);
      case Returned(result) =>
        ProcessPingResult(i, FromParsed(result), now);
        if !result.success || result.packetLoss > 50.0 {
          match trace
          case Returned(t) =>
            ProcessTracerouteResult(i, t);
          case Threw(m) =>
            ProcessPingResult(i, Synthetic(m, now), now);
        }
    }

    /**
     * The job-map half of `startMonitoring`: `clearInterval` on the host's
     * old interval, if it has one, and `jobs.set(id, timer)` for the new.
     */
    method Rearm(id: string, timer: nat)
      requires Valid() && id in Ids(hosts) && timer !in armed
      modifies this
      ensures Valid()
      ensures jobs == old(jobs)[id := timer]
      ensures armed == old(armed) - Cleared(old(jobs), id) + {timer}
      ensures hosts == old(hosts) && pingData == old(pingData)
    {
      SetJob(jobs, id, timer);
      if id in jobs {
        armed := armed - {jobs[id]};
      }
      jobs := jobs[id := timer];
      armed := armed + {timer};
    }

    /**
     * `startMonitoring(host)`: stop the host's old interval if it has one,
     * probe once, record the new interval `timer` under the host's id, and
     * mark the host `running` whatever the probe found. The probe touches
     * neither the job map nor the timers, so it is run first here.
     */
    method StartMonitoring(i: nat, ping: Outcome<PingResult>, trace: Outcome<TraceOutput>, now: int, timer: nat)
      requires Valid() && i < |hosts| && timer !in armed
      modifies this
      ensures Valid()
      ensures jobs == old(jobs)[old(hosts[i].id) := timer]
      ensures armed == old(armed) - Cleared(old(jobs), old(hosts[i].id)) + {timer}
      ensures hosts == old(hosts)[i := ProbeRecord(old(hosts[i]), ping, trace, now).(status := Running)]
      ensures pingData == old(pingData)[old(hosts[i].id) := ProbeSeries(SeriesOf(old(pingData), old(hosts[i].id)), ping, trace, now)]
    {
      var id := hosts[i].id;
      IdsUpdate(hosts, i, ProbeRecord(hosts[i], ping, trace, now));
      ProbedDataUpdates(pingData, id, ping, trace, now);
      ProbeHost(i, ping, trace, now);
      assert hosts[i] in hosts;
      Rearm(id, timer);
      SetStatus(i, Running);
    }

    /** `host.status = status` for the host at index `i`. */
    method SetStatus(i: nat, status: Status)
      requires Valid() && i < |hosts|
      modifies this
      ensures Valid()
      ensures hosts == old(hosts)[i := old(hosts[i]).(status := status)]
      ensures jobs == old(jobs) && armed == old(armed) && pingData == old(pingData)
    {
      IdsUpdate(hosts, i, hosts[i].(status := status));
      hosts := hosts[i := hosts[i].(status := status)];
    }

    /**
     * `stopMonitoring(id)`: stop and forget the host's interval, if any, and
     * mark the first host with that id `stopped`; an unknown id changes
     * nothing.
     */
    method StopMonitoring(id: string)
      requires Valid()
      modifies this
      ensures Valid()
      ensures jobs == old(jobs) - {id}
      ensures armed == old(armed) - Cleared(old(jobs), id)
      ensures FindHost(old(hosts), id).None? ==> hosts == old(hosts)
      ensures FindHost(old(hosts), id).Some? ==>
                var k := FindHost(old(hosts), id).value;
                hosts == old(hosts)[k := old(hosts[k]).(status := Stopped)]
      ensures pingData == old(pingData)
    {
      DropJob(jobs, id);
      if id in jobs {
        armed := armed - {jobs[id]};
        jobs := jobs - {id};
      }
      var found := FindHost(hosts, id);
      if found.Some? {
        SetStatus(found.value, Stopped);
      }
    }

    /**
     * `toggleMonitoring(id)`: nothing for an unknown id; stop a `running`
     * host; start any other (`stopped`, `warning` or `failed`) one.
     */
    method ToggleMonitoring(id: string, ping: Outcome<PingResult>, trace: Outcome<TraceOutput>, now: int, timer: nat)
      requires Valid() && timer !in armed
      modifies this
      ensures Valid()
      ensures FindHost(old(hosts), id).None? ==>
                hosts == old(hosts) && jobs == old(jobs) && armed == old(armed) && pingData == old(pingData)
      ensures FindHost(old(hosts), id).Some? && old(hosts[FindHost(hosts, id).value].status) == Running ==>
                var k := FindHost(old(hosts), id).value;
                && hosts == old(hosts)[k := old(hosts[k]).(status := Stopped)]
                && jobs == old(jobs) - {id} && pingData == old(pingData)
      ensures FindHost(old(hosts), id).Some? && old(hosts[FindHost(hosts, id).value].status) != Running ==>
                var k := FindHost(old(hosts), id).value;
                && hosts == old(hosts)[k := ProbeRecord(old(hosts[k]), ping, trace, now).(status := Running)]
                && jobs == old(jobs)[id := timer]
                && pingData == old(pingData)[id := ProbeSeries(SeriesOf(old(pingData), id), ping, trace, now)]
    {
      var found := FindHost(hosts, id);
      if found.None? {
        return;
      }
      if hosts[found.value].status == Running {
        StopMonitoring(id);
      } else {
        StartMonitoring(found.value, ping, trace, now, timer);
      }
    }

    /** `removeHost(id)`: stop the host, then drop every host and the series with that id. */
    method RemoveHost(id: string)
      requires Valid()
      modifies this
      ensures Valid()
      ensures hosts == Without(old(hosts), id)
      ensures jobs == old(jobs) - {id} && armed == old(armed) - Cleared(old(jobs), id)
      ensures pingData == old(pingData) - {id}
      ensures id !in Ids(hosts) && id !in jobs && id !in pingData
    {
      ghost var before := hosts;
      StopMonitoring(id);
      if FindHost(before, id).Some? {
        var k := FindHost(before, id).value;
        WithoutUpdate(before, k, before[k].(status := Stopped), id);
      }
      WithoutIds(hosts, id);
      hosts := Without(hosts, id);
      pingData := pingData - {id};
    }

    /**
     * `addHost()` with the form's raw name and alias, the parsed interval
     * and the new id: an all-blank name adds nothing; otherwise the host is
     * appended, stopped and with no statistics, and monitoring starts.
     */
    method AddHost(nameInput: string, aliasInput: string, interval: int, id: string,
                   ping: Outcome<PingResult>, trace: Outcome<TraceOutput>, now: int, timer: nat)
      requires Valid() && timer !in armed
      modifies this
      ensures Valid()
      ensures Trim(nameInput) == [] ==>
                hosts == old(hosts) && jobs == old(jobs) && armed == old(armed) && pingData == old(pingData)
      ensures Trim(nameInput) != [] ==>
                && |hosts| == |old(hosts)| + 1
                && hosts[..|old(hosts)|] == old(hosts)
                && hosts[|old(hosts)|] == ProbeRecord(NewHost(id, nameInput, aliasInput, interval), ping, trace, now).(status := Running)
                && jobs == old(jobs)[id := timer]
                && pingData == old(pingData)[id := ProbeSeries(SeriesOf(old(pingData), id), ping, trace, now)]
    {
      var name := Trim(nameInput);
      if name == [] {
        return;
      }
      var host := NewHost(id, nameInput, aliasInput, interval);
      assert Ids(hosts + [host]) == Ids(hosts) + {id} by {
        assert host in hosts + [host];
        forall x | x in Ids(hosts) ensures x in Ids(hosts + [host]) {
          var h :| h in hosts && h.id == x;
          assert h in hosts + [host];
        }
      }
      hosts := hosts + [host];
      StartMonitoring(|hosts| - 1, ping, trace, now, timer);
    }
  }

  /** The record `addHost` builds: trimmed name, alias falling back to the name, stopped, no statistics yet. */
  function NewHost(id: string, nameInput: string, aliasInput: string, interval: int): Host {
    var name := Trim(nameInput);
    var alias := Trim(aliasInput);
    Host(id, name, if alias == [] then name else alias, interval, Stopped, None, 0.0, 0.0)
  }

  /**
   * The host `addHost` registers keeps its id, trimmed name, alias (or the
   * name when the alias is blank) and interval through the first probe, and
   * shows `running` afterwards.
   */
  lemma AddedHost(id: string, nameInput: string, aliasInput: string, interval: int,
                  ping: Outcome<PingResult>, trace: Outcome<TraceOutput>, now: int)
    ensures var h := ProbeRecord(NewHost(id, nameInput, aliasInput, interval), ping, trace, now).(status := Running);
            && h.id == id && h.name == Trim(nameInput) && h.interval == interval
            && h.alias == (if Trim(aliasInput) == [] then Trim(nameInput) else Trim(aliasInput))
            && h.status == Running
    ensures var h := NewHost(id, nameInput, aliasInput, interval);
            h.status == Stopped && h.lastPing == None && h.avgTime == 0.0 && h.packetLoss == 0.0
  {
  }
}
