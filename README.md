# nginx-logs latency report, modelled in Dafny

This project models the core of `pkg/ossearch/ossearch.go` from the nginx-logs tool. The tool pages through nginx access-log lines stored in OpenSearch and turns them into a latency report, one row per endpoint. The model covers five parts:

- **Path normaliser** (`parseRequest`, module `PathNormalizer`). It cuts the request at the first `?` and splits the rest on `/`. A segment that is exactly a 22-character `[A-Za-z0-9_-]` token becomes `XXXXXXXXXXXXXXX`. A segment that is exactly an 8-4-4-4-12 hex UUID becomes `XXXXXXXX-XXXX-XXXX-XXXX-XXXXXXXXXXXX`. The segments are then joined again with `/`. Character-class predicates stand in for the two anchored regular expressions.
- **Message folder** (`parseMessages`, module `MessageParser`). It folds log lines into a map from normalised path to latency samples, kept in arrival order. Lines that do not decode, or whose `upstream_response_time` is not a number, are skipped.
- **Aggregator** (`getStats`, module `Stats`). For each group it computes count, minimum, mean and maximum in one pass. It drops empty groups and single-sample groups whose mean is below 1.0. It sorts in place by mean, largest first.
- **Page decoder and search call** (`parseResult` and `executeSearch`, module `Search`). This part covers:
  - the query shape, with `search_after` only when the cursor is non-zero;
  - the error paths: transport, non-200 status, unreadable body, undecodable body;
  - extracting the messages and the next cursor, which is `sort[0]` of the last hit;
  - the panic on a last hit without `sort` value, as an outcome that ends the whole run.
- **Page loop** of `GetResponse` (module `Orchestrator`). A failed first fetch is fatal. After that, each fetch uses the previous page's cursor. The loop stops at the first empty page; a later failure also stops it but keeps what was collected.

Each loop in the source is a Dafny `method` with a loop and invariants. Each method is proved against a specification function or predicate, and lemmas state the properties of those functions. Module `Wrappers` holds the `Option` and `Result` types.

Calls into code outside the core are parameters of the model:

- the OpenSearch HTTP round trip: `Backend.transport` returns the status code and the body, or a transport error;
- `json.Unmarshal` of a search response: `Backend.unmarshal`;
- `json.Unmarshal` of a log line: a `LineDecoder`;
- `strconv.ParseFloat`: a `FloatParser`.

Each of these returns `None` or `Failure` where the Go call returns an error.

## Model

| member | source | states |
|---|---|---|
| PathNormalizer.BeforeQuery | pkg/ossearch/ossearch.go:228 | the result is a prefix of the request with no `?`, and it is either the whole request or is followed by the first `?` |
| PathNormalizer.BeforeQueryUnique | pkg/ossearch/ossearch.go:228 | any prefix with those properties is the result of BeforeQuery, so the cut is at the first `?` |
| PathNormalizer.Split | pkg/ossearch/ossearch.go:229 | there is one more piece than there are `/` in the input, and no piece contains `/` |
| PathNormalizer.Join | pkg/ossearch/ossearch.go:240 | reference definition of `strings.Join(parts, "/")`; JoinSplit and SplitJoin show it is the inverse of Split |
| PathNormalizer.MaskSegment | pkg/ossearch/ossearch.go:233-238 | a segment is changed exactly when it matches one of the two patterns; a 22-character token becomes the 15-X mask and a UUID the dashed mask, whichever check comes first |
| PathNormalizer.Normalize | pkg/ossearch/ossearch.go:226-241 | reference definition of parseRequest: cut, split, mask each segment, join; NormalizeShape and NormalizeIdempotent state its properties |
| PathNormalizer.JoinSplit | pkg/ossearch/ossearch.go:229-240 | joining the pieces of a split with `/` gives back the input |
| PathNormalizer.SplitJoin | pkg/ossearch/ossearch.go:229-240 | splitting the join of `/`-free pieces gives back the pieces |
| PathNormalizer.ParseRequest | pkg/ossearch/ossearch.go:226-241 | the loop's result is Normalize(request) and contains no `?`; it has exactly the segments of the query-free prefix, each one masked by MaskSegment |
| PathNormalizer.NormalizeShape | pkg/ossearch/ossearch.go:228-240 | a normalised path has no `?`, keeps the segment count of the query-free prefix, and each of its segments is the masked segment at the same position |
| PathNormalizer.UnmatchedSegmentKept | pkg/ossearch/ossearch.go:232-239 | a segment that matches neither pattern is left unchanged |
| PathNormalizer.MaskSegmentIdempotent | pkg/ossearch/ossearch.go:233-238 | masking a masked segment changes nothing |
| PathNormalizer.MaskSegmentPlain | pkg/ossearch/ossearch.go:234-237 | masking introduces no `/` and no `?` |
| PathNormalizer.NormalizeIdempotent | pkg/ossearch/ossearch.go:226-241 | normalising a normalised path changes nothing, so every result is a fixed point |
| PathNormalizer.NormalizeOfSegments | pkg/ossearch/ossearch.go:228-240 | for plain segments followed by `?query`, the result is the masked segments joined with `/` |
| PathNormalizer.NormalizeTokenSegment | pkg/ossearch/ossearch.go:230-234 | `/v1/<any 22-char token>/resource?x=1` normalises to `/v1/XXXXXXXXXXXXXXX/resource` |
| PathNormalizer.NormalizeUuidSegment | pkg/ossearch/ossearch.go:231-238 | `/users/<any UUID>` normalises to `/users/` followed by the 36-character dashed mask |
| PathNormalizer.NormalizePartialMatchKept | pkg/ossearch/ossearch.go:230-233 | a 23-character token segment is kept: only a full-segment match is masked |
| PathNormalizer.ExampleTokenMatches | pkg/ossearch/ossearch.go:230 | the token `AbCdEfGhIjKlMnOpQrStUv` matches the 22-character pattern |
| PathNormalizer.ExampleUuidMatches | pkg/ossearch/ossearch.go:231 | `123e4567-e89b-12d3-a456-426614174000` matches the UUID pattern |
| MessageParser.LineSample | pkg/ossearch/ossearch.go:247-258 | a line yields a sample exactly when it decodes and its `upstream_response_time` parses; the sample's path is a normalised path; AcceptedLine gives the exact sample (path `Normalize(msg.request)`, the parsed latency) and where it lands |
| MessageParser.AddSample | pkg/ossearch/ossearch.go:259 | adds the sample's path as a key; the latency goes at the end of that key's list, after the samples already there, and a new key's list is exactly that latency; every other key keeps its list |
| MessageParser.Samples | pkg/ossearch/ossearch.go:246-258 | reference definition of the loop's filter over lines: one sample per line that decodes and whose latency parses, in line order; SamplesCount, SamplesNormalized, SkippedLine and AcceptedLine state its properties |
| MessageParser.Group | pkg/ossearch/ossearch.go:246-260 | reference definition of the folding loop over samples; GroupKeys, GroupLatencies and TotalGroup state its properties |
| MessageParser.ParseMessages | pkg/ossearch/ossearch.go:243-262 | the map built by the loop is Group(Samples(lines)); every key is a normalised path with at least one sample; the total number of samples equals the number of valid lines |
| MessageParser.GroupKeys | pkg/ossearch/ossearch.go:258-259 | a path is a key exactly when some sample has that path |
| MessageParser.GroupLatencies | pkg/ossearch/ossearch.go:259 | the list under a path is that path's latencies in arrival order; a path that is not a key has none |
| MessageParser.LatenciesForSnoc | pkg/ossearch/ossearch.go:259 | a later sample is appended after the earlier ones, and only under its own path |
| MessageParser.GroupNonEmpty | pkg/ossearch/ossearch.go:259 | every key holds at least one sample |
| MessageParser.TotalSamplesRemove | pkg/ossearch/ossearch.go:244-259 | the sample total of the map is one key's count plus the total of the rest |
| MessageParser.TotalAddSample | pkg/ossearch/ossearch.go:259 | appending one sample raises the total by exactly one |
| MessageParser.TotalGroup | pkg/ossearch/ossearch.go:246-259 | grouping keeps every sample: the total is the number of samples |
| MessageParser.SamplesCount | pkg/ossearch/ossearch.go:246-257 | one sample per line that decodes and whose latency parses, and none for the other lines |
| MessageParser.SamplesNormalized | pkg/ossearch/ossearch.go:258 | every sample's path is a normalised path |
| MessageParser.SkippedLine | pkg/ossearch/ossearch.go:248-257 | a line that fails to decode, or whose latency does not parse, leaves the map unchanged |
| MessageParser.AcceptedLine | pkg/ossearch/ossearch.go:253-259 | a valid line adds its normalised path as a key and appends exactly its latency after the samples already there; every other key keeps its list |
| Stats.Sum | pkg/ossearch/ossearch.go:156-160 | reference definition of the `sum += t` accumulator, starting at 0; SumBetween and MeanBetween state its properties |
| Stats.Min | pkg/ossearch/ossearch.go:157-163 | reference definition of the running minimum; MinIsLeast states its properties |
| Stats.Max | pkg/ossearch/ossearch.go:158-166 | reference definition of the running maximum; MaxIsGreatest states its properties |
| Stats.Mean | pkg/ossearch/ossearch.go:168 | reference definition of `sum / float64(len(times))`; MeanBetween states its properties |
| Stats.StatOf | pkg/ossearch/ossearch.go:152-178 | reference definition of one emitted stat; StatInvariants states its properties |
| Stats.Kept | pkg/ossearch/ossearch.go:153-155 | reference definition of the filter at lines 153 and 169, on the samples; KeptIff states it directly |
| Stats.Summarize | pkg/ossearch/ossearch.go:156-168 | the one-pass loop yields StatOf(request, times), with count = length and min <= avg <= max |
| Stats.MinIsLeast | pkg/ossearch/ossearch.go:157-163 | the running minimum is one of the samples and is at most every sample |
| Stats.MaxIsGreatest | pkg/ossearch/ossearch.go:158-166 | the running maximum is one of the samples and is at least every sample |
| Stats.SumBetween | pkg/ossearch/ossearch.go:159-160 | the sum of n samples lies between n times the minimum and n times the maximum |
| Stats.MeanBetween | pkg/ossearch/ossearch.go:168 | min <= mean <= max, and mean times count is the sum |
| Stats.StatInvariants | pkg/ossearch/ossearch.go:152-178 | every emitted stat has count = length >= 1 and min <= avg <= max; min and max are samples and bound every sample; avg * count = sum |
| Stats.KeptIff | pkg/ossearch/ossearch.go:153-155 | a group is reported exactly when it has at least two samples, or one sample of at least 1.0 |
| Stats.FilterExamples | pkg/ossearch/ossearch.go:169-171 | a single 0.5 sample is dropped and a single 1.5 sample is kept |
| Stats.CollectStats | pkg/ossearch/ossearch.go:151-179 | the map loop emits the true summary of each kept group, covers every kept group, and reports no path twice |
| Stats.SortByAvgDesc | pkg/ossearch/ossearch.go:182-184 | the array ends non-increasing by mean and is a permutation of its old contents |
| Stats.InsertDown | pkg/ossearch/ossearch.go:182-184 | inserting entry i into the sorted prefix before it makes the first i + 1 entries sorted, permutes the array, and leaves the entries after i unchanged |
| Stats.Swap | pkg/ossearch/ossearch.go:182-184 | exchanges two entries and leaves the rest unchanged |
| Stats.PermutationKeepsReport | pkg/ossearch/ossearch.go:180-186 | sorting a complete, duplicate-free summary list by mean gives a report |
| Stats.GetStats | pkg/ossearch/ossearch.go:148-187 | the result is a report: each kept group exactly once with its true summary, no other path, ordered by mean, largest first |
| Stats.ReportSize | pkg/ossearch/ossearch.go:151 | a report never has more rows than the map has keys |
| Stats.OrderingExample | pkg/ossearch/ossearch.go:182-184 | for `{"/a": [1, 3, 2], "/b": [10]}` every report is `/b` with mean 10, then `/a` with mean 2 |
| Search.BuildQuery | pkg/ossearch/ossearch.go:90-129 | the query targets the index `mpop-lke-logs*` with the given lower time bound and page size 1000; it carries `search_after` exactly when the cursor is non-zero, and then with that cursor |
| Search.HasCursor | pkg/ossearch/ossearch.go:81-82 | the condition under which `hit.Sort[0]` of the last hit does not panic: there is no hit, or the last one has a sort value |
| Search.MessagesOf | pkg/ossearch/ossearch.go:77-80 | one message per hit, in hit order |
| Search.LastCursor | pkg/ossearch/ossearch.go:78-84 | reference definition of the cursor: `sort[0]` of the last hit, 0 when there are no hits |
| Search.PageOf | pkg/ossearch/ossearch.go:85 | reference definition of `return messages, lastSort, nil`: the hits' messages and their LastCursor |
| Search.DecodeResult | pkg/ossearch/ossearch.go:70-86 | a body yields a page exactly when it decodes and its last hit has a sort value; the page holds the messages of the hits and LastCursor of the hits, so 0 when there are none; otherwise the failure is DecodeFailed or the panic outcome MissingSortValue |
| Search.ParseResult | pkg/ossearch/ossearch.go:70-86 | the loop's result is DecodeResult: a decode error gives DecodeFailed and no messages; a last hit without sort value gives MissingSortValue; otherwise the messages match the hits in length and order, and the cursor is `sort[0]` of the last hit, or 0 when there are no hits |
| Search.Fetch | pkg/ossearch/ossearch.go:88-146 | reference definition of one fetch: send BuildQuery for the cursor, then the status, body and decode checks in source order; ExecuteSearch is proved to equal it |
| Search.ExecuteSearch | pkg/ossearch/ossearch.go:88-146 | the result is the fetch for this cursor; it succeeds only after a successful round trip with status 200; a transport error, a non-200 status (with that code), an unreadable body, and an undecodable or sort-less body each give their own failure |
| Search.QueryShapesAgree | pkg/ossearch/ossearch.go:90-121 | the two query shapes of executeSearch are the same query except for `search_after` |
| Search.EmptyPage | pkg/ossearch/ossearch.go:77-85 | a page is empty exactly when the response had no hits, and its cursor is then 0 |
| Orchestrator.NextCursor | pkg/ossearch/ossearch.go:208-215 | reference definition of the `sort` passed to each executeSearch call: 0 for the first call, then the cursor of the last page collected |
| Orchestrator.Concat | pkg/ossearch/ossearch.go:207-214 | reference definition of `fullMessages`: the pages' messages appended page after page, starting empty |
| Orchestrator.Ended | pkg/ossearch/ossearch.go:209-219 | the exit rule of the run: the fetch after the collected pages fails or returns an empty page |
| Orchestrator.Aborts | pkg/ossearch/ossearch.go:209-212 | the fatal exits: the first fetch fails, or any fetch hits the `sort[0]` panic |
| Orchestrator.Stopped | pkg/ossearch/ossearch.go:213-219 | the normal exits: an empty page, or a non-panic error after at least one page, which breaks the loop |
| Orchestrator.AppendPage | pkg/ossearch/ossearch.go:213-215 | appending the next fetched non-empty page extends the trace, moves the cursor to that page's cursor and extends the collected lines by its messages |
| Orchestrator.TracesAgree | pkg/ossearch/ossearch.go:213-220 | two page traces of the same backend agree on their common length |
| Orchestrator.SameFetch | pkg/ossearch/ossearch.go:215 | two traces with the same prefix fetch the same next page |
| Orchestrator.SortlessFirstPageAborts | pkg/ossearch/ossearch.go:79-82 | a first answer with status 200 whose last hit lacks a sort value makes the first fetch the panic outcome, so the run aborts on that page |
| Orchestrator.EndedSplits | pkg/ossearch/ossearch.go:208-220 | an ended run either stops normally or aborts, never both |
| Orchestrator.TraceUnique | pkg/ossearch/ossearch.go:207-220 | there is only one ended trace, so the outcome and the collected lines are determined by the fetch results |
| Orchestrator.TraceQueries | pkg/ossearch/ossearch.go:90-121 | every request after the first, including the final one that follows the last page, sends the previous page's cursor as `search_after`, unless that cursor is 0; it holds for any page sequence, so for every run's trace |
| Orchestrator.CollectMessages | pkg/ossearch/ossearch.go:207-220 | the run follows the backend's page trace until a fetch fails or returns an empty page; it fails, with that fetch's error, exactly when the first fetch fails or a fetch hits the sort panic; otherwise the result is the concatenation of the non-empty pages in fetch order, and a later error only stops the loop |
| Orchestrator.GetResponse | pkg/ossearch/ossearch.go:207-223 | fails exactly when the run aborts, and always when the first fetch fails; otherwise the result is the report of the grouped samples of all collected lines |

## Left out

- OpenSearch client, TLS and HTTP: the client setup (`InsecureSkipVerify`, addresses, credentials), building the request body and reading the response body are not modelled. The fetch is a function parameter that returns a status code and a body or an error.
- JSON and float grammars: `json.Unmarshal` and `strconv.ParseFloat` are parameters returning `Option`.
- Floating point: latencies are `real`. NaN, infinities and IEEE-754 rounding in the sum and mean are not modelled.
- Side effects: `parseInterval`, the clock (`time.Now`, timestamp formatting), `os.Exit` and all console output are not modelled. That output includes the progress prints ("Search took", "Total number of requests") and the error prints ("cannot initialize", "failed to execute initial executeSearch:", "failed to execute executeSearch:"). The lower time bound is a parameter. A fatal first-page error becomes a `Failure` result.
- The `took` field: the source decodes it and only prints it. The model keeps it as a field of `SearchResponse` and never reads it; the print is left out.
- Cancellation: the `context` argument is not modelled.
- Map iteration order: Go's map order is random. CollectStats picks each next key with a nondeterministic choice, and the report's contract leaves the order of equal means unconstrained; this is what `sort.Slice`, which is not stable, allows.
- Orchestrator.CollectMessages: the source loops for as long as pages keep arriving, and can loop forever. For example, if the last hit's `sort[0]` is 0, the next request has no `search_after` and starts again from the first page. The model requires a ghost bound within which the backend returns an empty page or an error. It does not model runs that never end.
- Search.ParseResult, Search.ExecuteSearch, Orchestrator.CollectMessages, Orchestrator.GetResponse: `hit.Sort[0]` on a last hit with an empty `sort` panics in Go and ends the program. The model returns this as the failure `MissingSortValue`, which ends the run on any page, first or later. It does not model the crash itself: the stack trace, the exit status, and any output printed before it.
- Not part of this model: main.go, cmd/flags.go, cmd/version.go and pkg/config/config.go. They handle command-line flags, configuration loading and table printing.
