# Pynk network monitor: a verified model of the probe pipeline

This project is a Dafny model of the logic behind the Pynk Electron network monitor. The model follows the probe pipeline through three source files.

- **Main process** (`src/main.js`):
  - the command line each platform gets for `ping` and `traceroute`;
  - `parsePingOutput`, which turns the captured output of `ping` into a result record: samples, packets sent and received, loss, and the mean, minimum and maximum time.
- **Renderer** (`src/renderer.js`, class `PynkRenderer`):
  - the host registry and the host-id → interval-job map;
  - the per-host series of results, capped at 1000 with the oldest dropped first;
  - one probe of a host: a ping, then a traceroute when the ping went badly, with the catch path;
  - `processPingResult` and `processTracerouteResult`;
  - `addHost`, `startMonitoring`, `stopMonitoring`, `toggleMonitoring` and `removeHost`;
  - the traceroute parser, which merges repeated hop numbers (the last line wins), labels each hop and sorts by hop number;
  - `findBottleneck` with its 20 ms threshold.
- **Network monitor** (`src/network-monitor.js`, class `NetworkMonitor`):
  - the four-tier quality classifier;
  - the simpler one-hop-per-line traceroute parser;
  - `findBottleneck` with its 50 ms threshold;
  - the capped result store;
  - the time-range filter and the statistics over it.

## Files

- `wrappers.dfy`: `Option`, which makes JavaScript's `null` explicit.
- `text.dfy`: the JavaScript character classes (`\d`, `\s`, `\w`), `split('\n')`, `trim()`, and number scanning. The scanning is `parseInt` and `parseFloat` over the greedy match of `\d+\.?\d*`.
- `stats.dfy`: sum, mean, minimum and maximum over exact reals.
- `series.dfy`: the capped push (`push`, then `shift` past 1000) that both stores use.
- `hops.dfy`: the `Hop` record and `findBottleneck`. The two copies differ only in their threshold, so the threshold is a parameter.
- `main_process.dfy`: the platform commands and `parsePingOutput`.
- `trace_hops.dfy`: the renderer's traceroute parser.
  - Each regular expression is a scanner that returns the match a backtracking JavaScript engine returns.
  - The hop map is a `map` plus its insertion order, because a JavaScript `Map` iterates in insertion order.
- `renderer.dfy`: class `PynkRenderer`.
  - Fields: `hosts`, `jobs` and `pingData`, plus a ghost set of the interval ids that are firing.
  - Invariant: every job and series belongs to a registered host; the firing intervals are exactly the jobs, one per host; every series stays within the cap.
- `monitor.dfy`: class `NetworkMonitor`, with `dataStore` as its field, and the pure parts of `network-monitor.js`.

Each imperative source operation is a method. Its `ensures` gives the new state or the result as a specification function of the old state and the inputs. Lemmas then prove what the source promises about those functions.

In three places the code departs from what its design leads one to expect, and the model follows the code:

- **Quality boundaries.** One would expect a value on a tier boundary to count as the worse quality. The code tests `packetLoss > 5`, `avgTime > 50` and so on with a strict `>`, so a value exactly on a boundary lands in the better tier. `Monitor.QualityTiers` states this.
- **Hop uniqueness.** Hops are meant to have unique, ascending indexes. That holds for the renderer's parser (`TraceHops.HopsAscending`). The network monitor's parser keeps one hop per matching line, in line order, with no merging or sorting (`Monitor.AtMostOneHopPerLine`, `Monitor.SimpleHopsAppend`).
- **Probe interval.** The interval is meant to be at least 1 second. `addHost` stores `parseInt` of the form field without checking it, so the interval is an unconstrained `int`.

## Model

| member | source | states |
|---|---|---|
| Text.Split | src/main.js:237 | `split('\n')` gives at least one piece, and no piece contains a newline |
| Text.JoinSplit | src/main.js:237 | joining the pieces with newlines gives the text back |
| Text.SplitJoin | src/main.js:237 | splitting newline-free lines joined by newlines gives those lines back (the inverse of `JoinSplit`) |
| Text.SplitPrefix | src/renderer.js:1008 | a newline-free prefix extends the first piece and leaves the other pieces alone |
| Text.SplitFirstLine | src/renderer.js:1008 | splitting `first + "\n" + rest` gives `first` followed by the pieces of `rest` |
| Text.Trim | src/renderer.js:1013 | the trimmed text neither starts nor ends with white space |
| Text.TrimIsSlice | src/renderer.js:173 | `trim()` is a slice that has only white space before and after it; it is empty exactly when the text is all white space |
| Text.TrimUnchanged | src/renderer.js:1013 | text without white space at either end is its own trim, so trimming twice equals trimming once |
| Text.DigitsEnd | src/renderer.js:1017 | greedy `\d*`: the run ends at a non-digit or at the end of the text |
| Text.DigitsEndRun | src/renderer.js:1017 | everything the digit scan passes over is a digit |
| Text.DigitsEndAfter | src/main.js:258 | a digit run followed by a non-digit is scanned up to its end exactly |
| Text.DigitsEndOfRun | src/main.js:258 | a digit run that ends at `e` is what the scan finds, whatever surrounds it |
| Text.SpacesEnd | src/network-monitor.js:77 | greedy `\s*`: the run ends at a character that is not white space, or at the end of the text |
| Text.SpacesEndRun | src/network-monitor.js:77 | everything the forward white-space scan passes over is white space |
| Text.SpacesStart | src/renderer.js:1013 | the backward white-space scan stops just after a character that is not white space, or at its lower bound |
| Text.SpacesStartRun | src/renderer.js:1013 | everything the backward scan passes over is white space |
| Text.SpacesStartAbove | src/renderer.js:1013 | the backward scan never passes a character at its lower bound that is not white space |
| Text.DigitValue | src/main.js:260 | a digit's value is at most 9 |
| Text.DigitChar | src/main.js:108 | the digit written for a value below 10 reads back as that value |
| Text.NatToString | src/main.js:108 | `toString()` of a natural number: at least one digit, no leading zero, and `parseInt` reads it back as the same number |
| Text.Fraction | src/main.js:260 | the value of the digits after a decimal point lies in [0, 1) |
| Text.DecimalAt | src/main.js:258-260 | `parseFloat` of the greedy `\d+\.?\d*`: its value is non-negative, and the match ends before a non-digit, where `DecimalEnd` says |
| Text.FractionIn | src/main.js:260 | fraction digits read in place give a value in [0, 1) |
| Text.FractionOfSlice | src/main.js:260 | reading fraction digits in place equals reading the slice they form |
| Text.DigitsValueOfSlice | src/renderer.js:1020 | reading digits in place equals `parseInt` of the slice they form |
| Text.DecimalEnd | src/main.js:258 | the end of the greedy decimal match lies within the text and is followed by a non-digit |
| Text.DecimalAtConsumesDecimalText | src/main.js:258 | what the scan consumes has the shape `\d+\.?\d*` |
| Text.DecimalOfText | src/main.js:258-260 | round trip: scanning the text `d1.d2`, wherever it stands, gives the value of `d1.d2` and ends right after it |
| Text.DecimalInText | src/main.js:258-260 | the same round trip for a string known only through the characters of the number |
| Text.DecimalAtParts | src/main.js:258-260 | a decimal with a dot is worth its integer digits plus the fraction of its fraction digits |
| Text.IntegerOfText | src/renderer.js:1017-1020 | round trip: scanning the decimal rendering of `n` gives `n` back |
| Stats.MinOf | src/main.js:270 | `Math.min` of a non-empty list is one of its elements and is at most every element |
| Stats.MaxOf | src/main.js:271 | `Math.max` of a non-empty list is one of its elements and is at least every element |
| Stats.SumBetween | src/main.js:269 | values in [lo, hi] have a sum in [n·lo, n·hi] |
| Stats.MeanBetween | src/main.js:269-271 | the mean of a non-empty list lies between its minimum and its maximum |
| Stats.MeanWithin | src/network-monitor.js:164 | the mean of values in [lo, hi] lies in [lo, hi]; the mean of no values is 0 (`NaN \|\| 0`) |
| Stats.SumAppend | src/main.js:269 | the sum distributes over concatenation, so the `reduce` order does not matter |
| Series.Newest | src/renderer.js:282-285 | the newest `n` elements: all of them when there are at most `n`, otherwise exactly `n` |
| Series.Push | src/renderer.js:279-285 | the pushed element is last; below the cap nothing is dropped; at or below the cap the result is the newest 1000 of old + new |
| Series.PushAllKeepsNewest | src/network-monitor.js:107-117 | any run of pushes on a series within the cap keeps exactly the newest 1000 of everything pushed, in order |
| Series.NewestAppend | src/renderer.js:282-285 | cutting to the newest 1000 before appending more changes nothing |
| Series.OverflowDropsOldest | src/network-monitor.js:111-114 | pushing 1001 results onto an empty series keeps all but the first |
| Hops.BestIndex | src/renderer.js:1077-1083 | the index the loop has settled on is a hop whose increase is above the threshold |
| Hops.BestIndexIsPeak | src/renderer.js:1074-1085 | the loop finds nothing exactly when no increase is above the threshold; otherwise it finds the first hop with the largest such increase |
| Hops.BottleneckSpec | src/network-monitor.js:90-105 | `findBottleneck` returns null exactly when no increase exceeds the threshold; otherwise it returns the hop at the first largest qualifying increase |
| Hops.NonIncreasingHasNoBottleneck | src/network-monitor.js:96-104 | latencies that never go up have no bottleneck |
| Hops.FindBottleneck | src/renderer.js:1071-1086 | the running-maximum loop returns the bottleneck its characterisation defines, for any threshold |
| MainProcess.PingCommand | src/main.js:106-108 | `ping -n <count> <host>` on win32 and `ping -c <count> <host>` elsewhere, with the count written in decimal |
| MainProcess.TracerouteCommand | src/main.js:130-146 | `tracert` on win32 and `traceroute` elsewhere; the host comes last; a hop-limit flag (`-h` on win32, `-m` elsewhere) is followed by 30; name resolution is turned off (`-d`/`-n`) everywhere except darwin; the arguments are exactly `-d -h 30 <host>` on win32, `-m 30 <host>` on darwin and `-m 30 -n <host>` elsewhere |
| MainProcess.FirstTimeFrom | src/main.js:258 | a time found after the first `time=`/`time<` marker is non-negative |
| MainProcess.ParsePingOutput | src/main.js:236-275 | the loop over lines and the statistics it fills in give the record `ParsedPing` defines |
| MainProcess.SuccessAndErrorFields | src/main.js:238-250 | `success` holds exactly when the exit code is 0 and stderr is empty; `error` is the stderr text, or null when stderr is empty; host and timestamp are the inputs |
| MainProcess.FailedRunIsEmpty | src/main.js:252-254 | a failed run has no samples and all-zero statistics, and the output is never read: any output gives the same result |
| MainProcess.SamplesAppend | src/main.js:257-262 | samples are collected line by line, in line order |
| MainProcess.AtMostOneSamplePerLine | src/main.js:257-262 | each line contributes at most one sample |
| MainProcess.SamplesOfJoinedOutput | src/main.js:237-262 | the samples of `first + "\n" + rest` are those of `first` followed by those of `rest` |
| MainProcess.SuccessfulRunStatistics | src/main.js:265-271 | with samples: 4 packets sent whatever the count, one received per sample, loss `(4 - n) / 4 · 100`, negative exactly when there are more than 4 samples; min and max are samples and bound every sample, and min ≤ mean ≤ max |
| MainProcess.SilentSuccess | src/main.js:241-265 | a successful run with no time on any line is a success whose every statistic, packets sent included, is 0 |
| MainProcess.SkipToMarker | src/main.js:258 | a stretch with no marker is passed over by the search |
| MainProcess.SampleAfterMarker | src/main.js:258-260 | the first marker wins: with no marker before `time=`/`time<`, the sample is the number written after it |
| MainProcess.OneReply | src/main.js:258-260 | the line `time=<whole>.<frac> ms` yields the value `<whole>.<frac>` |
| TraceHops.MsTokenAt | src/renderer.js:1024 | a `<number> ms` token is found exactly where one starts; its value is non-negative and it ends right after `ms` |
| TraceHops.MsTimesFrom | src/renderer.js:1024-1029 | every time matched globally on a line is non-negative |
| TraceHops.NoMsNoTimes | src/renderer.js:1024-1031 | a line where `ms` never occurs has no time tokens |
| TraceHops.MsTokenOfText | src/renderer.js:1024-1029 | round trip: the token `<d1>.<d2> ms` is read back as the value of `d1.d2`, whatever surrounds it |
| TraceHops.MsTokenIn | src/renderer.js:1024-1029 | the same round trip for a string known only through the characters of the token |
| TraceHops.OctetEnd | src/renderer.js:1037 | `\d{1,3}` followed by a non-digit: one to three digits |
| TraceHops.OctetsEnd | src/renderer.js:1037 | a run of dotted octets ends after where it starts and within the text |
| TraceHops.IpAt | src/renderer.js:1037 | an IPv4 match starts at a digit and ends within the text |
| TraceHops.FirstIp | src/renderer.js:1037 | the leftmost IPv4 match is non-empty and starts with a digit |
| TraceHops.OctetsShape | src/renderer.js:1037 | what the octet scanner matches is `n` dotted runs of one to three digits |
| TraceHops.DottedStep | src/renderer.js:1037 | an octet, a dot and `n - 1` dotted octets make `n` dotted octets |
| TraceHops.FirstIpShape | src/renderer.js:1037 | the address found is a dotted quad of one- to three-digit numbers |
| TraceHops.LabelEnd | src/renderer.js:1038 | greedy `[-a-zA-Z0-9]*`: maximal, and made only of label characters |
| TraceHops.ChainEnd | src/renderer.js:1038 | the repeated `.label` chain ends within the text |
| TraceHops.ChainShape | src/renderer.js:1038 | inside the chain, every character is a label character or a dot followed by a letter or digit |
| TraceHops.ChainAt | src/renderer.js:1038 | the chain property at one position |
| TraceHops.LastStop | src/renderer.js:1038 | backtracking stops at the last position where `\b` holds after a non-dot, and no later position qualifies |
| TraceHops.HostnameAt | src/renderer.js:1038 | a hostname match ends after where it starts and within the text |
| TraceHops.HostnameAtShape | src/renderer.js:1038 | what the hostname scanner matches is a dotted host name |
| TraceHops.DottedSlice | src/renderer.js:1038 | a label followed by a dotted chain and cut after a non-dot is a dotted host name |
| TraceHops.FirstHostnameShape | src/renderer.js:1038 | the leftmost hostname match is a dotted host name |
| TraceHops.HopOf | src/renderer.js:1024-1061 | the hop built for a line carries that line's hop number |
| TraceHops.LineHop | src/renderer.js:1012-1021 | a line yields a hop only with a hop number of at least 1 |
| TraceHops.HopTime | src/renderer.js:1024-1060 | a hop's time is never negative; a `No response` hop has time 0 even when its line shows `ms` tokens; any other hop's time is the mean of the line's `ms` values, so 0 when there are none and at most the largest |
| TraceHops.WrittenValues | src/renderer.js:1024-1029 | one value per written reply time |
| TraceHops.MsTimesOfText | src/renderer.js:1024-1029 | round trip: however many reply times a line spells as `  <whole>.<frac> ms`, the scan reads back exactly their values, in order |
| TraceHops.MsTimesAfter | src/renderer.js:1024-1029 | when no token starts on the line before the written times, the scan of the whole line reads back exactly those times |
| TraceHops.HopTimeOfWritten | src/renderer.js:1024-1060 | for such a line the hop's time is the mean of exactly the times written, unless the hop is `No response`, whose time is 0 |
| TraceHops.HopLabel | src/renderer.js:1034-1053 | each label rule in both directions: `No response` exactly with neither match and a `*`; `*` exactly with neither match and no `*`; with an address, the address alone exactly when there is no dotted name or the name equals the address, and `name (address)` otherwise; with only a name, the name |
| TraceHops.LineHopOfNumber | src/renderer.js:1013-1020 | a line starting with hop number `n ≥ 1` yields the hop numbered `n` |
| TraceHops.LineHopOfLeading | src/renderer.js:1017-1021 | a trimmed line whose leading number is `n ≥ 1` yields the hop numbered `n` |
| TraceHops.SkippedLines | src/renderer.js:1013-1018 | blank lines and lines that do not start with a digit yield nothing |
| TraceHops.Put | src/renderer.js:1057-1061 | `hopMap.set` overwrites in place or appends the new key to the order, and keeps the map well formed |
| TraceHops.LineHops | src/renderer.js:1012-1062 | one entry per line |
| TraceHops.LineHopsSnoc | src/renderer.js:1012 | one more line adds one more entry at the end |
| TraceHops.TableOf | src/renderer.js:1009-1062 | the map built from the lines is well formed |
| TraceHops.Fed | src/renderer.js:1057 | feeding one line keeps the map well formed |
| TraceHops.TableOfKeys | src/renderer.js:1057-1061 | the map holds a hop number exactly when some line describes it |
| TraceHops.TableOfLastWriteWins | src/renderer.js:1057-1061 | the map holds what the last line with that hop number describes |
| TraceHops.Values | src/renderer.js:1068 | `Array.from(hopMap.values())` lists the entries in insertion order |
| TraceHops.InsertByHop | src/renderer.js:1068 | insertion keeps the list sorted by hop number and adds exactly one element (multiset) |
| TraceHops.ConsSorted | src/renderer.js:1068 | a hop no later than a sorted list can go in front of it |
| TraceHops.ConsStrict | src/renderer.js:1068 | a hop earlier than a strictly ascending list can go in front of it |
| TraceHops.FirstIsLeast | src/renderer.js:1068 | the first element of a sorted list is no later than a rearrangement of the rest plus a later hop |
| TraceHops.SortByHop | src/renderer.js:1068 | the sort returns a permutation of its input in ascending hop order |
| TraceHops.InsertStrict | src/renderer.js:1068 | inserting a new hop number keeps a list strictly ascending |
| TraceHops.FirstIsBelow | src/renderer.js:1068 | the first element of a strictly ascending list is earlier than a rearrangement of the rest plus a later hop |
| TraceHops.SortStrict | src/renderer.js:1068 | with no hop number repeated, the sorted list is strictly ascending |
| TraceHops.ParseTracerouteHops | src/renderer.js:1001-1069 | the loop over lines after the header, the map updates and the final sort return what `HopsOf` defines; empty output gives no hops |
| TraceHops.TableStep | src/renderer.js:1012-1062 | each loop step feeds the map what its line describes |
| TraceHops.ValuesDistinct | src/renderer.js:1065-1068 | the map's values have distinct hop numbers, and a hop is among them exactly when the map holds it under its own number |
| TraceHops.HeaderOnlyGivesNoHops | src/renderer.js:1008-1012 | output without a newline is only a header and gives no hops |
| TraceHops.HeaderIgnored | src/renderer.js:1011-1012 | the first line never contributes: replacing it changes nothing |
| TraceHops.HopsAscending | src/renderer.js:1068 | the result is strictly ascending by hop number, one hop per number, none below 1 |
| TraceHops.SortedTableLastWrite | src/renderer.js:1055-1068 | every returned hop is what the last line with its hop number describes |
| TraceHops.SortedTableCovers | src/renderer.js:1055-1068 | every hop number some line carries is in the result |
| Renderer.Normalise | src/renderer.js:269-277 | `success` holds only when it was `true`; a missing `packetLoss` becomes 100; a missing timestamp becomes now; missing times become 0; the other fields are kept and no traceroute is attached |
| Renderer.NormaliseParsed | src/renderer.js:269-277 | a `parsePingOutput` record passes through normalisation with every field unchanged |
| Renderer.SyntheticFails | src/renderer.js:215-226 | the catch path's record is a failure with loss 100, times 0 and a non-empty message, and it derives `failed` |
| Renderer.FailedRunShowsWarning | src/renderer.js:292-298 | a failed run as `parsePingOutput` reports it (loss 0) leaves the host in `warning`, not `failed` |
| Renderer.SuccessfulRunStatus | src/renderer.js:292-298 | after a successful run, the status depends only on the reply count: `running` for 0 or at least 4, `failed` for 1, `warning` for 2 or 3 |
| Renderer.Attach | src/renderer.js:310-315 | the traceroute goes onto the newest entry only; every other entry and an empty series stay as they are |
| Renderer.ProbeSeries | src/renderer.js:205-227 | a probe keeps a series within the cap |
| Renderer.ProbeRecord | src/renderer.js:205-227 | a probe keeps the host's id, name, alias and interval |
| Renderer.ProbeAppends | src/renderer.js:205-227 | below the cap, a probe keeps every earlier entry and appends exactly one entry, or two when the traceroute it asked for threw; the first appended entry is the normalised ping result, with the traceroute attached exactly when one was needed and came back; after a caught error the last entry is the failure record built from its message |
| Renderer.ProbeTraceroute | src/renderer.js:210-214 | the newest entry carries a traceroute exactly when the ping returned a result that needed one and the traceroute came back, and then it carries that traceroute |
| Renderer.ProbeStatus | src/renderer.js:205-227 | after a caught error the host is `failed` with loss 100; otherwise it shows the ping's fields and derived status; in both cases it agrees with the newest entry |
| Renderer.FindHost | src/renderer.js:254 | `find` gives the first host with the id, or none when no host has it |
| Renderer.Without | src/renderer.js:375 | `filter` keeps exactly the hosts with another id |
| Renderer.WithoutAppend | src/renderer.js:375 | `filter` keeps the order: filtering a concatenation filters each part |
| Renderer.WithoutOne | src/renderer.js:375 | a single host is kept exactly when its id differs |
| Renderer.WithoutAbsent | src/renderer.js:375 | a list in which no host has the id is left as it is |
| Renderer.WithoutIds | src/renderer.js:375 | removing an id removes exactly that id from the registry |
| Renderer.WithoutUpdate | src/renderer.js:373-375 | changing a host that is filtered out does not change what the filter keeps |
| Renderer.IdsUpdate | src/renderer.js:288-298 | updating a host's fields keeps the set of ids |
| Renderer.DropJob | src/renderer.js:249-252 | deleting a host's job removes exactly its interval from the running ones and keeps one host per interval |
| Renderer.SetJob | src/renderer.js:239-240 | a fresh interval for a host replaces its old one and keeps one host per interval |
| Renderer.ProbedDataUpdates | src/renderer.js:205-227 | a probe changes only the probed host's series |
| Renderer.WithinCapUpdate | src/renderer.js:282-285 | replacing one series by a series within the cap keeps every series within it |
| Renderer.PynkRenderer.constructor | src/renderer.js:4-8 | the registry starts with no hosts, no jobs and no series |
| Renderer.PynkRenderer.ProcessPingResult | src/renderer.js:262-302 | the normalised result is pushed onto the host's series, dropping the oldest past 1000; the host gets its timestamp, average, loss and derived status; nothing else changes |
| Renderer.PynkRenderer.ProcessTracerouteResult | src/renderer.js:304-318 | the traceroute is attached to the host's newest entry; hosts and jobs are unchanged |
| Renderer.PynkRenderer.ProbeHost | src/renderer.js:205-233 | one run of `pingHost` updates the host record and series as `ProbeRecord` and `ProbeSeries` say, and leaves the jobs alone |
| Renderer.PynkRenderer.Rearm | src/renderer.js:200-240 | the old interval is cleared, the new one is recorded under the host's id, and exactly one job per host remains |
| Renderer.PynkRenderer.StartMonitoring | src/renderer.js:200-246 | the host's old interval is replaced by the new one, the probe's effects are recorded, and the host ends `running` whatever the probe found |
| Renderer.PynkRenderer.SetStatus | src/renderer.js:256 | only the given host's status changes |
| Renderer.PynkRenderer.StopMonitoring | src/renderer.js:248-260 | the job is removed and its interval stopped; the first host with the id becomes `stopped`; an unknown id changes no host |
| Renderer.PynkRenderer.ToggleMonitoring | src/renderer.js:362-371 | an unknown id changes nothing; a `running` host is stopped; any other host (`stopped`, `warning` or `failed`) is started |
| Renderer.PynkRenderer.RemoveHost | src/renderer.js:373-380 | afterwards no host, job or series has the id; the other hosts are kept in order |
| Renderer.PynkRenderer.AddHost | src/renderer.js:172-198 | an all-blank name adds nothing; otherwise exactly one host is appended, the earlier hosts are unchanged, and monitoring starts for it |
| Renderer.AddedHost | src/renderer.js:179-188 | the new host has its id, trimmed name, alias (or the name when the alias is blank) and interval; it is `stopped` with no last ping and zero statistics, and `running` after the first start |
| Monitor.QualityTiers | src/network-monitor.js:55-64 | each tier as a condition of its own, in both directions; boundary values go to the better tier |
| Monitor.QualityMonotone | src/network-monitor.js:55-64 | more loss, a slower average or a lost success never gives a better tier |
| Monitor.ParsedQuality | src/network-monitor.js:56-63 | a failed run is `poor`; a successful run with no reply times (loss 0, average 0) is `excellent` |
| Monitor.Enrich | src/network-monitor.js:33-43 | the stored record is the raw result with the trend `stable` and a quality that is `poor` exactly when the run failed or went past the `poor` bounds |
| Monitor.LazyEnd | src/network-monitor.js:77 | the lazy `.+?` stops where a time token starts |
| Monitor.LazyEndIsFirst | src/network-monitor.js:77 | it stops at the first token and crosses no line terminator; when it finds none, no token starts anywhere it could reach |
| Monitor.HopHead | src/network-monitor.js:77 | `^\s*(\d+)\s+` ends inside the line, after the digits |
| Monitor.TokenStart | src/network-monitor.js:77 | the token of the match starts at or after the host and is a token; when the lazy scan finds one, it is that one |
| Monitor.HopAfter | src/network-monitor.js:77-83 | the hop built from the rest of the line carries the head's hop number |
| Monitor.SimpleHopLine | src/network-monitor.js:76-84 | a line yields a hop only when its head matches, and the hop number is the head's |
| Monitor.PresentCount | src/network-monitor.js:76-85 | at most one hop per line, and one for every line exactly when every line matches |
| Monitor.PresentAppend | src/network-monitor.js:76-85 | collecting matches distributes over concatenation |
| Monitor.LineMatches | src/network-monitor.js:76-85 | one match result per line, each from that line alone |
| Monitor.ParseTracerouteHops | src/network-monitor.js:72-88 | the loop pushes exactly the hops of the matching lines, in line order |
| Monitor.HopTimeIsToken | src/network-monitor.js:77-82 | a hop's time is the value of a `<number> ms` token on its line |
| Monitor.NoMsNoHop | src/network-monitor.js:77-78 | a line where `ms` never occurs, such as `* * *`, yields no hop |
| Monitor.SimpleHopsAppend | src/network-monitor.js:73-87 | parsing joined lists of lines is joining the parses, so line order is kept |
| Monitor.AtMostOneHopPerLine | src/network-monitor.js:76-85 | each line gives at most one hop; nothing is merged or dropped for a repeated hop number |
| Monitor.LazyEndSkips | src/network-monitor.js:77 | `.+?` passes over characters that are neither digits nor line terminators |
| Monitor.TrimWordBlank | src/network-monitor.js:81 | a word followed by one blank trims to the word |
| Monitor.HopLineIn | src/network-monitor.js:77-83 | round trip: the line `<num> <name> <d1>.<d2> ms …`, with exactly one blank after the number and after the name, and a name with no digit, no line terminator and no white space at either end, is read back as hop `num`, host `name` and time `d1.d2`. Lines with runs of blanks or an address in the name, such as ` 1  router (192.168.1.1)  0.512 ms`, are outside this lemma. |
| Monitor.HopLineOfParts | src/network-monitor.js:77-83 | a matched head, followed by a host and then a time token, gives that hop |
| Monitor.HostAndToken | src/network-monitor.js:77-82 | after a host name and one blank, `.+?` stops at the time token, its text trims to the name, and the token has the time's value |
| Monitor.HeadThenHop | src/network-monitor.js:77 | a matched head, with a rest that gives a hop, gives that hop |
| Monitor.LineIsHeadThenRest | src/network-monitor.js:77 | with the head matched, the rest of the line decides the hop |
| Monitor.HeadIn | src/network-monitor.js:77-80 | `<digits> <text>` has its head end right after the one blank, and the hop number is `parseInt` of the digits |
| Monitor.HostSkipped | src/network-monitor.js:77 | `.+?` passes over a host name and its blank, up to the token that follows |
| Monitor.HostTrimmed | src/network-monitor.js:81 | a host name and the blank after it trim to the host name |
| Monitor.HopAfterOfParts | src/network-monitor.js:77-83 | the first token after the head, and the trimmed text before it, give the hop |
| Monitor.LazyTokenStart | src/network-monitor.js:77 | a token found by `.+?` is the token of the match |
| Monitor.HopAfterToken | src/network-monitor.js:77-83 | when the token lies past the head, the host is the trimmed text between them and the time is the token's value |
| Monitor.LazyEndAtToken | src/network-monitor.js:77 | `.+?` stops at the first token after a stretch it can pass over |
| Monitor.ProcessTracerouteResult | src/network-monitor.js:45-53 | the raw result is kept, with the parsed hops and their 50 ms bottleneck |
| Monitor.BottleneckAtJump | src/network-monitor.js:90-105 | the times 5, 6, 7, 80, 82 have their bottleneck at the hop with time 80 |
| Monitor.ThresholdsDiffer | src/network-monitor.js:98 | the times 10, 40, 70 have a bottleneck at the 20 ms threshold but none at 50 ms |
| Monitor.Since | src/network-monitor.js:123-125 | the range filter keeps exactly the entries at or after the cutoff |
| Monitor.SinceAppend | src/network-monitor.js:123-125 | the filter keeps order: filtering joined lists joins the filtered lists |
| Monitor.SinceKeepsRecent | src/network-monitor.js:123-125 | when every entry is recent enough, nothing is dropped |
| Monitor.Successes | src/network-monitor.js:158 | exactly the successful entries; all of them exactly when every ping succeeded, none exactly when none did |
| Monitor.AvgTimes | src/network-monitor.js:159 | one response time per entry |
| Monitor.Losses | src/network-monitor.js:167 | one loss figure per entry |
| Monitor.StatisticsFacts | src/network-monitor.js:158-168 | over a non-empty range: the count is the number of entries; the success rate lies in [0, 100], at 100 exactly when all succeeded and at 0 exactly when none did; the loss is the mean loss |
| Monitor.ResponseTimeFacts | src/network-monitor.js:159-166 | with successes, min ≤ mean ≤ max and the extremes are response times; without, the mean is 0 and the extremes are +∞ and −∞ |
| Monitor.Percentage | src/network-monitor.js:163 | `(part / whole) · 100` lies in [0, 100], at 100 exactly for the whole and at 0 exactly for none |
| Monitor.Ratio | src/network-monitor.js:163 | a quotient `a / w` with `0 ≤ a ≤ w` lies in [0, 1], at its ends exactly for `a = 0` and `a = w` |
| Monitor.StoredFacts | src/network-monitor.js:107-117 | storing touches only the result's host, whose series gains the result as newest and keeps the newest 1000; the cap is kept |
| Monitor.NetworkMonitor.constructor | src/network-monitor.js:2-5 | the store starts empty |
| Monitor.NetworkMonitor.StoreResult | src/network-monitor.js:107-117 | the store becomes `Stored` of the old store and the result, within the cap |
| Monitor.NetworkMonitor.ProcessPingResult | src/network-monitor.js:33-43 | returns the enriched record and stores exactly that record |
| Monitor.NetworkMonitor.GetHostData | src/network-monitor.js:119-126 | exactly the host's entries at or after the cutoff; nothing for an unknown host |
| Monitor.NetworkMonitor.GenerateStatistics | src/network-monitor.js:144-169 | the all-zero record for an empty range; otherwise the count is the range's size |

## Left out

- Process spawning and stream collection (`spawn`, the `data`/`close`/`error` events, the traceroute timeout race): the captured output, the stderr text, the exit code (or `null` after a signal) and the clock reading are inputs.
- The Electron window, tray, menu and app lifecycle, all DOM and Chart.js code, report and CSV/PDF export, and `localStorage` persistence (`saveData`/`loadData`): presentation and storage outside the pipeline.
- `ipcRenderer.invoke` and `window.electronAPI`: what a request returns, or the message of the error it throws, is an input (`Outcome`).
- Timers: `setInterval` returns an abstract interval id that the caller supplies; `clearInterval` removes it from a ghost set of firing intervals. Nothing models time passing between firings.
- Concurrency: one probe is an atomic step. Overlapping in-flight probes, and a host removed while its probe is awaited, are not modelled. Because the probe touches neither the job map nor the timers, `Renderer.PynkRenderer.StartMonitoring` runs it before replacing the interval; the source clears the old interval first, and no state this model keeps can tell the two orders apart.
- A host object captured by the probe closure is modelled as an index into `hosts`, so aliasing between a removed host and its closure is not modelled.
- IEEE doubles: latencies, losses and rates are exact reals. Rounding, `NaN` (other than the empty mean, modelled as 0) and `toFixed` are not modelled. `parseInt`/`parseFloat` are exact on the digit runs the scanners match.
- Timestamps are integers, not ISO strings; `new Date().toISOString()` is a `now` parameter. `Date.now().toString()` host ids are a parameter of `addHost`.
- `calculateCutoffTime` and its calendar arithmetic: `getHostData` and `generateStatistics` take the cutoff as an integer.
- `NetworkMonitor.activeJobs` and the network monitor's `pingHost`/`tracerouteHost` wrappers: they are only IPC calls wrapped in try/catch.
- JavaScript's `sort` is modelled by an insertion sort with the same result. The comparator `a.hop - b.hop` defines a total order on hop numbers, and the map holds at most one hop per number, so any correct sort gives this order.
- `null` and `undefined` are both `None`; `result.avgTime || 0` treats a missing field as 0. A present field is kept as it is, so `NaN` is not modelled.
- Characters are Unicode scalar values (Dafny's `char`), while JavaScript strings are sequences of UTF-16 code units: a character outside the Basic Multilingual Plane is one `char` here but two code units there, and a lone surrogate cannot occur here. No modelled operation can tell the difference, because every character the scanners test lies in the Basic Multilingual Plane: `\d`, `\s` and the set `trim()` strips (the ECMAScript white-space set), the line terminators, `[-a-zA-Z0-9]`, the word characters of `\b`, and the letters of `time` and `ms`. Anything else is only passed over or copied.
- The renderer's `parseTracerouteHops` check `typeof output !== 'string'`: the input is always a string here, so only the empty-string case of `!output` is modelled.
- Monitor.NetworkMonitor.GenerateStatistics: its contract states the empty case and the count; the remaining fields are stated over `StatisticsOf` by `Monitor.StatisticsFacts` and `Monitor.ResponseTimeFacts`.
- Monitor.HopLineIn: the round trip is proved only for single blanks after the number and the name, and for names without digits; the general line is covered by `Monitor.HopLineOfParts`, which states the hop for any head, first token and text between them.
- Renderer.ProbeSeries: its own contract gives only the cap bound; below the cap its content (the kept prefix and each appended entry) is stated by `Renderer.ProbeAppends` and `Renderer.ProbeTraceroute`; at the cap, what is dropped is stated only through `Series.Push`.
- The views that consume the renderer's parsed hops and its 20 ms bottleneck (the traceroute chart) are not part of this model; the threshold is the constant `TraceHops.RendererThreshold`.
