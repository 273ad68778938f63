/**
 * The message folder `parseMessages`: every log line that decodes and whose
 * `upstream_response_time` parses as a number contributes one latency sample
 * under its normalised request path; every other line is skipped. The JSON
 * decoder and the float parser are foreign library calls and are parameters.
 */
module MessageParser {
  import opened Wrappers
  import PathNormalizer

  /**
   * One decoded nginx log record. Only `request` and `upstreamResponseTime`
   * are used. The source decodes `time` into a timestamp, so a line whose
   * `time` is not RFC 3339 fails to decode; the abstract decoder absorbs that
   * rule, and the model keeps the field as text.
   */
  datatype LogMessage = LogMessage(
    host: string,
    status: string,
    proxyProtocolAddr: string,
    trueClientIp: string,
    tenantId: string,
    userId: string,
    time: string,
    sslProtocol: string,
    sslClientFingerprint: string,
    requestTime: string,
    upstreamResponseTime: string,
    request: string,
    referer: string,
    userAgent: string)

  /** One latency sample: a normalised path and an upstream response time in seconds. */
  datatype Sample = Sample(path: string, latency: real)

  /** `json.Unmarshal` of one line into a LogMessage; None when decoding fails. */
  type LineDecoder = string -> Option<LogMessage>

  /** `strconv.ParseFloat(_, 64)`; None when the text is not a number. */
  type FloatParser = string -> Option<real>

  /** The latency samples grouped by path, each list in arrival order. */
  type RequestTimes = map<string, seq<real>>

  /** What one line contributes: nothing, or one sample under its normalised path. */
  function LineSample(line: string, decode: LineDecoder, parseFloat: FloatParser): (r: Option<Sample>)
    ensures r.Some? <==> decode(line).Some? && parseFloat(decode(line).value.upstreamResponseTime).Some?
    ensures r.Some? ==> PathNormalizer.IsNormalized(r.value.path)
  {
    match decode(line)
    case None => None
    case Some(msg) =>
      match parseFloat(msg.upstreamResponseTime)
      case None => None
      case Some(t) =>
        PathNormalizer.NormalizeIdempotent(msg.request);
        Some(Sample(PathNormalizer.Normalize(msg.request), t))
  }

  /** The samples of all lines, in line order. */
  function Samples(lines: seq<string>, decode: LineDecoder, parseFloat: FloatParser): seq<Sample> {
    if |lines| == 0 then []
    else
      var earlier := Samples(lines[..|lines| - 1], decode, parseFloat);
      match LineSample(lines[|lines| - 1], decode, parseFloat)
      case None => earlier
      case Some(s) => earlier + [s]
  }

  /** `requestTimes[p] = append(requestTimes[p], t)`; a missing key reads as an empty list. */
  function AddSample(times: RequestTimes, s: Sample): (r: RequestTimes)
    ensures r.Keys == times.Keys + {s.path}
    ensures forall p :: p in times && p != s.path ==> r[p] == times[p]
    ensures |r[s.path]| >= 1 && r[s.path][|r[s.path]| - 1] == s.latency
    ensures s.path in times ==> r[s.path][..|r[s.path]| - 1] == times[s.path]
    ensures s.path !in times ==> r[s.path] == [s.latency]
  {
    times[s.path := (if s.path in times then times[s.path] else []) + [s.latency]]
  }

  /** The map the folding loop builds from a sequence of samples. */
  function Group(samples: seq<Sample>): RequestTimes {
    if |samples| == 0 then map[]
    else AddSample(Group(samples[..|samples| - 1]), samples[|samples| - 1])
  }

  /** Reference definition: the latencies of the samples for `path`, in order. */
  function LatenciesFor(samples: seq<Sample>, path: string): seq<real> {
    if |samples| == 0 then []
    else (if samples[0].path == path then [samples[0].latency] else []) + LatenciesFor(samples[1..], path)
  }

  /** The positions of the lines that contribute a sample. */
  ghost function ValidLines(lines: seq<string>, decode: LineDecoder, parseFloat: FloatParser): set<int> {
    set j | 0 <= j < |lines| && LineSample(lines[j], decode, parseFloat).Some?
  }

  /** The number of samples held in a map, over all keys. */
  ghost function TotalSamples(times: RequestTimes): nat
    decreases |times|
  {
    if times == map[] then 0
    else
      var k := PickKey(times);
      |times[k]| + TotalSamples(times - {k})
  }

  /** Some key of a non-empty map. */
  ghost function PickKey(times: RequestTimes): (k: string)
    requires times != map[]
    ensures k in times
  {
    var k :| k in times; k
  }

  // ---------------------------------------------------------------------
  // The folder as the source writes it.
  // ---------------------------------------------------------------------

  /**
   * parseMessages. The result groups exactly the samples of the valid lines:
   * each key is a normalised path with at least one sample, and there are as
   * many samples in all as there are valid lines.
   */
  method ParseMessages(lines: seq<string>, decode: LineDecoder, parseFloat: FloatParser)
    returns (requestTimes: RequestTimes)
    ensures requestTimes == Group(Samples(lines, decode, parseFloat))
    ensures forall path :: path in requestTimes ==>
              PathNormalizer.IsNormalized(path) && |requestTimes[path]| >= 1
    ensures TotalSamples(requestTimes) == |ValidLines(lines, decode, parseFloat)|
  {
    requestTimes := map[];
    for i := 0 to |lines|
      invariant requestTimes == Group(Samples(lines[..i], decode, parseFloat))
    {
      assert lines[..i + 1][..i] == lines[..i];
      var line := lines[i];
      var msg := decode(line);
      if msg.None? {
        continue;
      }
      var requestTimeFloat := parseFloat(msg.value.upstreamResponseTime);
      if requestTimeFloat.None? {
        continue;
      }
      var request := PathNormalizer.ParseRequest(msg.value.request);
      var times := if request in requestTimes then requestTimes[request] else [];
      requestTimes := requestTimes[request := times + [requestTimeFloat.value]];
    }
    assert lines[..|lines|] == lines;
    var samples := Samples(lines, decode, parseFloat);
    forall path | path in requestTimes
      ensures PathNormalizer.IsNormalized(path) && |requestTimes[path]| >= 1
    {
      GroupKeys(samples, path);
      var j :| 0 <= j < |samples| && samples[j].path == path;
      SamplesNormalized(lines, decode, parseFloat, j);
      GroupNonEmpty(samples, path);
    }
    TotalGroup(samples);
    SamplesCount(lines, decode, parseFloat);
  }

  // ---------------------------------------------------------------------
  // Lemmas
  // ---------------------------------------------------------------------

  /** A key is present exactly when some sample carries it. */
  lemma {:induction false} GroupKeys(samples: seq<Sample>, path: string)
    ensures path in Group(samples) <==> exists j :: 0 <= j < |samples| && samples[j].path == path
  {
    if |samples| > 0 {
      var init := samples[..|samples| - 1];
      GroupKeys(init, path);
      if exists j :: 0 <= j < |init| && init[j].path == path {
        var j :| 0 <= j < |init| && init[j].path == path;
        assert samples[j] == init[j];
      }
      if exists j :: 0 <= j < |samples| && samples[j].path == path {
        var j :| 0 <= j < |samples| && samples[j].path == path;
        if j < |init| {
          assert init[j] == samples[j];
        }
      }
    }
  }

  /** Appending a sample at the end appends its latency to its own path only. */
  lemma {:induction false} LatenciesForSnoc(samples: seq<Sample>, s: Sample, path: string)
    ensures LatenciesFor(samples + [s], path) ==
            LatenciesFor(samples, path) + (if s.path == path then [s.latency] else [])
  {
    if |samples| > 0 {
      assert (samples + [s])[1..] == samples[1..] + [s];
      LatenciesForSnoc(samples[1..], s, path);
    }
  }

  /** Each group lists the latencies of its path's samples, in arrival order. */
  lemma {:induction false} GroupLatencies(samples: seq<Sample>, path: string)
    ensures path in Group(samples) ==> Group(samples)[path] == LatenciesFor(samples, path)
    ensures path !in Group(samples) ==> LatenciesFor(samples, path) == []
  {
    if |samples| > 0 {
      var init := samples[..|samples| - 1];
      var s := samples[|samples| - 1];
      GroupLatencies(init, path);
      assert init + [s] == samples;
      LatenciesForSnoc(init, s, path);
    }
  }

  /** No group is empty. */
  lemma {:induction false} GroupNonEmpty(samples: seq<Sample>, path: string)
    requires path in Group(samples)
    ensures |Group(samples)[path]| >= 1
  {
    var init := samples[..|samples| - 1];
    var s := samples[|samples| - 1];
    if s.path != path {
      GroupNonEmpty(init, path);
    }
  }

  /** The sample count is the same whichever key is taken out first. */
  lemma {:induction false} TotalSamplesRemove(times: RequestTimes, k: string)
    requires k in times
    ensures TotalSamples(times) == |times[k]| + TotalSamples(times - {k})
    decreases |times|
  {
    var k' := PickKey(times);
    if k' != k {
      var rest := times - {k'};
      assert k in rest;
      TotalSamplesRemove(rest, k);
      var both := rest - {k};
      assert (times - {k}) - {k'} == both;
      assert k' in times - {k};
      TotalSamplesRemove(times - {k}, k');
    }
  }

  /** Adding one sample adds one to the total. */
  lemma TotalAddSample(times: RequestTimes, s: Sample)
    ensures TotalSamples(AddSample(times, s)) == TotalSamples(times) + 1
  {
    var added := AddSample(times, s);
    TotalSamplesRemove(added, s.path);
    assert added - {s.path} == times - {s.path};
    if s.path in times {
      TotalSamplesRemove(times, s.path);
    } else {
      assert times - {s.path} == times;
    }
  }

  /** The map holds every sample: its total is the number of samples folded. */
  lemma {:induction false} TotalGroup(samples: seq<Sample>)
    ensures TotalSamples(Group(samples)) == |samples|
  {
    if |samples| > 0 {
      TotalGroup(samples[..|samples| - 1]);
      TotalAddSample(Group(samples[..|samples| - 1]), samples[|samples| - 1]);
    }
  }

  /** There is one sample per valid line: failing lines add nothing. */
  lemma {:induction false} SamplesCount(lines: seq<string>, decode: LineDecoder, parseFloat: FloatParser)
    ensures |Samples(lines, decode, parseFloat)| == |ValidLines(lines, decode, parseFloat)|
  {
    if |lines| > 0 {
      var n := |lines| - 1;
      var init := lines[..n];
      SamplesCount(init, decode, parseFloat);
      var before := ValidLines(init, decode, parseFloat);
      var after := ValidLines(lines, decode, parseFloat);
      assert forall j :: 0 <= j < n ==> lines[j] == init[j];
      assert before == after - {n};
      if LineSample(lines[n], decode, parseFloat).Some? {
        assert after == before + {n};
      } else {
        assert after == before;
      }
    }
  }

  /** Every sample's path is a normalised path. */
  lemma {:induction false} SamplesNormalized(lines: seq<string>, decode: LineDecoder, parseFloat: FloatParser, j: int)
    requires 0 <= j < |Samples(lines, decode, parseFloat)|
    ensures PathNormalizer.IsNormalized(Samples(lines, decode, parseFloat)[j].path)
  {
    var n := |lines| - 1;
    var earlier := Samples(lines[..n], decode, parseFloat);
    if j < |earlier| {
      SamplesNormalized(lines[..n], decode, parseFloat, j);
    } else {
      var msg := decode(lines[n]).value;
      PathNormalizer.NormalizeIdempotent(msg.request);
    }
  }

  /** A line that fails to decode, or whose latency is not a number, changes nothing. */
  lemma SkippedLine(lines: seq<string>, line: string, decode: LineDecoder, parseFloat: FloatParser)
    requires decode(line).None? || parseFloat(decode(line).value.upstreamResponseTime).None?
    ensures Group(Samples(lines + [line], decode, parseFloat)) == Group(Samples(lines, decode, parseFloat))
  {
    assert (lines + [line])[..|lines|] == lines;
  }

  /**
   * A valid line appends exactly one latency, after those already there, to
   * the list under its normalised request path.
   */
  lemma AcceptedLine(lines: seq<string>, line: string, decode: LineDecoder, parseFloat: FloatParser)
    requires decode(line).Some? && parseFloat(decode(line).value.upstreamResponseTime).Some?
    ensures var before := Group(Samples(lines, decode, parseFloat));
            var path := PathNormalizer.Normalize(decode(line).value.request);
            var t := parseFloat(decode(line).value.upstreamResponseTime).value;
            var after := Group(Samples(lines + [line], decode, parseFloat));
            && after.Keys == before.Keys + {path}
            && after[path] == (if path in before then before[path] else []) + [t]
            && forall p :: p in before && p != path ==> after[p] == before[p]
  {
    assert (lines + [line])[..|lines|] == lines;
  }
}
