# Verification model of the OpenTelemetry plugin for tRPC-Cpp

The project models the decisions the plugin makes: which spans are sampled and exported, what the filters do
to a span, how call results are counted and classified, what the gRPC exporters send, and how a trace context
travels with a request. The OpenTelemetry SDK, prometheus-cpp and the tRPC framework appear only through the
few facts listed at the end of this section.

| file | what it models |
|---|---|
| `TraceTypes.dfy` | trace ids, span contexts, the calls on the SDK's recordable |
| `Sampler.dfy` | `tracing/sampler.cc`: threshold arithmetic under an abstract rounding, exact arithmetic, the decision |
| `SampledShare.dfy` | the share of sampled trace ids under any rounding as accurate as that of doubles |
| `DoubleRounding.dfy` | round-to-nearest-even with 53 significant bits, shown to be such a rounding, and the share under it |
| `CallTree.dfy` | head sampling over whole traces across services |
| `DeferredSampling.dfy` | `tracing/deferred_sample_processor.cc`: the recordable and the processor, as classes |
| `TracingFilters.dfy` | both tracing filters, the wiring and the log sink, as one machine over any number of calls, and as a class |
| `TracingInvariants.dfy` | what every run of that machine keeps, and the theorems on exports, bodies, status, conservation, logs |
| `SpanLife.dfy` | what one span starts with, continues and ends with, in the terms of the configuration and the call |
| `TreeRun.dfy` | whole traces run through the machines of the services they visit, against the call trees |
| `RecordableLife.dfy` | the recordable and the processor as objects, under the spans of the machine |
| `DeferralRefinement.dfy` | the same traffic with deferral off and on, run against run |
| `Wiring.dfy` | the same traffic under the wiring of the code and under the documented one, run against run |
| `InterleavedFinish.dfy` | a filter's `FinishSpan` taken apart, with anything of other threads in between |
| `ErrorCodes.dfy` | `metrics/common.cc`: the per-code index against a first-match scan |
| `RpcMetrics.dfy` | the RPC metrics under interleaved reports |
| `Exporters.dfy` | shutdown of the gRPC exporters under concurrency |
| `ExporterTraffic.dfy` | the traffic the gRPC exporters cause themselves, run against the tracing machine |
| `Carriers.dfy` | the text map carriers |
| `BodyLimit.dfy` | the limit on reported bodies |

Ratios and products are real numbers. `Sampler.Rounding` stands for the rounding of double arithmetic: every
function that is monotone and keeps the integers up to 2^53. What is proved for it holds for the code's doubles
(`DoubleRounding.RoundToNearestIsARounding`) and for exact arithmetic. The share of sampled ids is the configured
ratio to within one id in exact arithmetic (`Sampler.SampledShareIsTheRatio`), and to within 10250 ids out of 2^64 in
doubles (`DoubleRounding.NearestShareIsTheRatio`); that it is not within one there is shown by
`DoubleRounding.HalfTakesMore`. Integers of fixed width are bounded or wrapped explicitly where the width matters: the
64-bit threshold, the nanosecond comparison, the narrowing of configured codes to `int`, the unsigned subtraction of
the truncation.

State that the source updates in place is held by classes (`DeferredRecordable`, `DeferredSampleProcessor`,
`TracingPlugin`, `CodeMaps`, `ModuleInfo`, `OpenTelemetryMetrics`, `GrpcExporter`, the carriers, `MessageLimit`).
Their methods are proved against functions on values, and the theorems over runs are about those functions. The
tracing machine sees the ratio only as a test on trace ids, so its theorems hold for any such test;
`TracingPlugin` runs it with the sampler's own. The error option of the processor is a parameter of the machine
too; `TracingFilters.Wired` sets it as the code does, and the plugin is constructed with that. `TracingPlugin` and
`OpenTelemetryMetrics` remember, as ghost state, the events they have seen, and their `Valid` says that their fields
are where a run of those events gets to: so the theorems over runs are theorems about these objects
(`TracingInvariants.PluginKeepsPromises`, `RpcMetrics.PluginBalances`).
Theorems "in every run" quantify over all sequences of events: filter points of any calls in any order, calls of
users on spans, spans ended by somebody else, and logs.

Taken from the SDK: a span with a valid parent keeps the parent's trace id, any other span starts a new trace;
a dropped span is not recording and reaches no processor; `End` sets the duration, stops the recording and
calls `OnEnd` once, and does nothing on a span that is not recording; a batch processor exports every recordable
it gets; the traceparent value (section 3.2.2 of W3C Trace Context) carries trace id, span id and sampled flag
without loss; the propagator extracts a context without the sampled flag from a header it cannot read (the sampler
does not ask whether a parent is valid before it asks for the flag). A request keeps one value per normalised key;
how an HTTP request folds its header names is a parameter. The values of the framework's return codes are not part
of this model; they are parameters.

Four places where the code does something its reader might not expect:

- `opentelemetry_tracing.cc:76` switches error sampling on with `enable_deferred_sample`, while `README.md:204`
  documents `deferred_sample_error`. The model follows the code; `Wiring.WiringDiffersIff` says exactly which spans
  that adds to what is exported, and `Wiring.WiringsAgreeIff` for which configurations it adds any.
- The default latency limit of a processor (`deferred_sample_processor.h:88`) overflows when it is compared in
  nanoseconds. The plugin always sets a limit, and every limit it can set fits
  (`DeferredSampling.SlowComparisonIsExactIffItFits`, `DeferredSampling.DefaultLimitPassesEverything`,
  `TracingInvariants.SlowLimitFits`).
- `code_` and `duration_` of a deferred recordable have no initial value. The filters always write the code before
  it is read (`TracingInvariants.FinishedOnce`), and the end of a span writes the duration; a span that ends in any
  other way without a status is judged by whatever the code held (`TracingInvariants.UnsetStatusDecides`), and
  `TracingInvariants.GarbageDecidesIff` says exactly for which spans that matters.
- A configured code above 2^31-1 is narrowed to another one, for which its entry then answers
  (`ErrorCodes.EntryMeansItsCodeIff`, `ErrorCodes.AnsweredIff`).

`README.md:267` lists the host port among the attributes of every span; the code sets it on server spans only.
`README.md:497-503` puts the code labels on handled_seconds; the code puts them on handled_total, and so does the
model.

## Model

| member | source | states |
|---|---|---|
| Sampler.ThresholdNeverOverflows | trpc/telemetry/opentelemetry/tracing/sampler.cc:26-33 | for every rounding the shift-and-add stays within 64 bits, so the wrapped result is the true sum |
| Sampler.ThresholdIsMonotone | trpc/telemetry/opentelemetry/tracing/sampler.cc:26-33 | for every rounding a larger ratio never gives a smaller threshold |
| Sampler.SampledIdsNest | trpc/telemetry/opentelemetry/tracing/sampler.cc:26-60 | for every rounding the ids sampled at a ratio are an initial segment of the 64-bit prefixes, contained in that of any larger ratio |
| Sampler.PrefixReadsFirstBytes | trpc/telemetry/opentelemetry/tracing/sampler.cc:35-39 | the number an id stands for is made of its first eight bytes, the first lowest |
| Sampler.PrefixOfExactly | trpc/telemetry/opentelemetry/tracing/sampler.cc:35-39 | every number below 2^64 stands for exactly the ids whose first eight bytes are its digits, whatever the last eight, so shares of numbers are shares of ids |
| Sampler.RatioTakesIdIff | trpc/telemetry/opentelemetry/tracing/sampler.cc:60 | the configured ratio takes an id exactly if the id's number, on the scale of thresholds, is at most the ratio's threshold and that is not zero |
| Sampler.TakenIdsNest | trpc/telemetry/opentelemetry/tracing/sampler.cc:26-60 | raising the ratio only adds trace ids, and an id that reads no higher than a taken one is taken |
| Sampler.RatioExtremes | trpc/telemetry/opentelemetry/tracing/sampler.cc:26-60 | a ratio of at least 1 takes every id, a ratio of at most 0 none |
| Sampler.RoundedDown | trpc/telemetry/opentelemetry/tracing/sampler.cc:30-41 | if all arithmetic kept whole numbers only, thresholds would be multiples of 2^32+1 and ids below the last would map to zero: product and quotient are rounded |
| Sampler.RoundedUp | trpc/telemetry/opentelemetry/tracing/sampler.cc:30-32 | under a rounding that is exact below 1 and rounds up above, the low half is rounded up: it is rounded as well, once |
| Sampler.ExactThreshold | trpc/telemetry/opentelemetry/tracing/sampler.cc:30-32 | in exact arithmetic the split computation is floor((2^64-1) * ratio) |
| Sampler.ExactBufferThreshold | trpc/telemetry/opentelemetry/tracing/sampler.cc:35-42 | in exact arithmetic the id is mapped to its own 64-bit prefix |
| Sampler.SampledShareIsTheRatio | trpc/telemetry/opentelemetry/tracing/sampler.cc:26-60 | in exact arithmetic the number of sampled prefixes differs from 2^64 * ratio by less than one, and is zero below one part in 2^64-1 |
| SampledShare.ThresholdIsClose | trpc/telemetry/opentelemetry/tracing/sampler.cc:26-33 | under a rounding accurate to one part in 2^53 the threshold is within 2052 of (2^64-1) * ratio |
| SampledShare.BufferThresholdIsClose | trpc/telemetry/opentelemetry/tracing/sampler.cc:35-42 | under such a rounding an id is mapped to within 8196 of its 64-bit prefix |
| SampledShare.ShareIsTheRatio | trpc/telemetry/opentelemetry/tracing/sampler.cc:26-60 | under such a rounding, for every ratio, the number of sampled prefixes is within 10250 of 2^64 * ratio |
| DoubleRounding.RoundToNearestIsARounding | trpc/telemetry/opentelemetry/tracing/sampler.cc:30-41 | round-to-nearest-even on 53 bits, with gradual underflow after any number of halvings, is monotone and exact on integers up to 2^53 |
| DoubleRounding.RoundPositiveIsClose | trpc/telemetry/opentelemetry/tracing/sampler.cc:30-41 | its error is at most one part in 2^53 of the value, or of any larger bound, above the subnormal range |
| DoubleRounding.RoundToNearestIsAccurate | trpc/telemetry/opentelemetry/tracing/sampler.cc:30-41 | so it is as accurate as the share needs, from 52 halvings on; doubles have 1074 |
| DoubleRounding.NearestShareIsTheRatio | trpc/telemetry/opentelemetry/tracing/sampler.cc:26-60 | in the code's doubles, for every ratio, the number of sampled prefixes is within 10250 of 2^64 * ratio |
| DoubleRounding.HalfTakesMore | trpc/telemetry/opentelemetry/tracing/sampler.cc:35-42 | in the code's doubles a ratio of one half samples at least 2^63 + 1025 prefixes, so the bound of one does not carry over |
| Sampler.IsForcedSample | trpc/telemetry/opentelemetry/tracing/sampler.cc:76-87 | the flag is set exactly if some attribute has the force key |
| Sampler.ShouldSample | trpc/telemetry/opentelemetry/tracing/sampler.cc:44-72 | the cascade samples exactly for a force attribute, a sampled parent unless switched off, or an id within a nonzero threshold; else records only under deferral, else drops |
| CallTree.AllOrNothing | trpc/telemetry/opentelemetry/tracing/sampler.cc:44-72 | in any call tree of services with one ratio, none forced, nothing sampled upstream, all spans have one trace id and all or none are sampled, by that id, whichever services inherit |
| CallTree.SampledSubtree | trpc/telemetry/opentelemetry/tracing/sampler.cc:55-57 | if all services inherit, everything below a sampled span is sampled whatever the ratios |
| CallTree.SampledIffReached | trpc/telemetry/opentelemetry/tracing/client_filter.cc:121-163 | for arbitrary services a span is sampled exactly if itself, a span above it or the upstream caller had a reason and every service from there on inherits |
| CallTree.PathEndsInTree | trpc/telemetry/opentelemetry/tracing/server_filter.cc:114-138 | the context at the end of a path is the context of a span of the tree |
| CallTree.SpanHasPath | trpc/telemetry/opentelemetry/tracing/server_filter.cc:114-138 | every span of the tree is at the end of a path, so the characterisation covers all of them |
| DeferredSampling.LastWriteWins | trpc/telemetry/opentelemetry/tracing/deferred_sample_processor.cc:31-78 | after any calls each tracked field is the argument of the last call of its kind |
| DeferredSampling.UnwrittenFieldIsKept | trpc/telemetry/opentelemetry/tracing/deferred_sample_processor.cc:31-78 | a field no call writes keeps the value it had on construction |
| DeferredSampling.DeferredRecordable.SetIdentity | trpc/telemetry/opentelemetry/tracing/deferred_sample_processor.cc:31-35 | the inner recordable receives exactly this call, the sampled flag becomes the context's, nothing else changes |
| DeferredSampling.DeferredRecordable.SetStatus | trpc/telemetry/opentelemetry/tracing/deferred_sample_processor.cc:53-57 | the same for the status code |
| DeferredSampling.DeferredRecordable.SetDuration | trpc/telemetry/opentelemetry/tracing/deferred_sample_processor.cc:75-78 | the same for the duration |
| DeferredSampling.DeferredRecordable.Forward | trpc/telemetry/opentelemetry/tracing/deferred_sample_processor.cc:37-82 | the other eight mutators reach the inner recordable and change no tracked field |
| DeferredSampling.DeferredRecordable.GetRecordable | trpc/telemetry/opentelemetry/tracing/deferred_sample_processor.cc:29 | ownership of the inner recordable moves out; the wrapper keeps none |
| DeferredSampling.DeferredSampleProcessor.OnEnd | trpc/telemetry/opentelemetry/tracing/deferred_sample_processor.cc:96-105 | the inner recordable is handed on exactly if the last tracked values ask for it, and then no longer held; a recordable of another class never is |
| DeferredSampling.DeferredSampleProcessor.ShouldDeferredSampler | trpc/telemetry/opentelemetry/tracing/deferred_sample_processor.cc:107-125 | the cascade is the disjunction of sampled, failed under the option, and slow |
| RecordableLife.MakeFor | trpc/telemetry/opentelemetry/tracing/deferred_sample_processor.cc:87-89 | a new recordable, told what a span of the machine was told at its start, stands for that span, over some garbage |
| RecordableLife.TellAll | trpc/telemetry/opentelemetry/tracing/deferred_sample_processor.cc:31-82 | whatever the span is told afterwards, the recordable told the same still stands for it |
| RecordableLife.EndThroughProcessor | trpc/telemetry/opentelemetry/tracing/deferred_sample_processor.cc:96-125 | the recordable of a span, ended through the processor, hands its inner recordable on, complete and once, exactly if the machine exports the span |
| DeferredSampling.SlowComparisonIsExactIffItFits | trpc/telemetry/opentelemetry/tracing/deferred_sample_processor.cc:120 | the wrapped comparison of nanoseconds with microseconds is right for all durations exactly if the limit in nanoseconds fits 64 bits |
| DeferredSampling.DefaultLimitPassesEverything | trpc/telemetry/opentelemetry/tracing/deferred_sample_processor.h:84-89 | the default limit does not fit: wrapped, it passes every non-negative duration |
| TracingInvariants.SlowLimitFits | trpc/telemetry/opentelemetry/tracing/opentelemetry_tracing.cc:77 | for every int number of milliseconds the comparison is with exactly that many times 10^6 ns |
| TracingFilters.TracingPlugin.StartNewSpan | trpc/telemetry/opentelemetry/tracing/client_filter.cc:121-163 | a new span gets its parent's trace id or a fresh one, the sampler's decision, and a recordable only if not dropped |
| TracingFilters.TracingPlugin.Finish | trpc/telemetry/opentelemetry/tracing/client_filter.cc:165-190 | a recording span gets its bodies if called for, its status, and its end, in that order, added to whatever was done to it before; any other span is left alone |
| TracingFilters.TracingPlugin.ServerPreRpcInvoke | trpc/telemetry/opentelemetry/tracing/server_filter.cc:95-98 | the plugin is where the machine gets to by this event as well: a new span is stored in the context of the call |
| TracingFilters.TracingPlugin.ServerPostRpcInvoke | trpc/telemetry/opentelemetry/tracing/server_filter.cc:99-104 | likewise: the stored span, if any, is finished |
| TracingFilters.TracingPlugin.ClientPreRpcInvoke | trpc/telemetry/opentelemetry/tracing/client_filter.cc:88-109 | likewise: the guard comes first; otherwise the filter data exists afterwards and holds a new span under the linked parent |
| TracingFilters.TracingPlugin.ClientPostRpcInvoke | trpc/telemetry/opentelemetry/tracing/client_filter.cc:88-112 | likewise: the guard comes first; otherwise the span in the filter data, if any, is finished |
| TracingFilters.TracingPlugin.LogLine | trpc/telemetry/opentelemetry/logging/opentelemetry_logging.cc:107-163 | likewise: a line is reported with the span of the call it was written in, or not at all |
| TracingFilters.TracingPlugin.constructor | trpc/telemetry/opentelemetry/tracing/opentelemetry_tracing.cc:74-80 | a plugin has seen no event, and its error option is wired from `enable_deferred_sample` |
| SpanLife.NewSpanStartsAs | trpc/telemetry/opentelemetry/tracing/server_filter.cc:114-156 | a new span has its parent's trace id if valid, else the fresh one; it is sampled exactly for the three reasons, recorded also under deferral; its recordable gets the identity with the parent's span id, the kind and exactly the listed attributes |
| SpanLife.FinishFinishesAs | trpc/telemetry/opentelemetry/tracing/client_filter.cc:165-231 | a finish adds the request and the response each exactly if serialised, bodies not disabled, and sampled or a failed call under `deferred_sample_error`, once, request first; the peer on clients, error attributes on errors; then the status and the duration |
| SpanLife.ServerCallStarts | trpc/telemetry/opentelemetry/tracing/server_filter.cc:95-98 | the server filter's first point adds such a span, stored under the call, and touches nothing else |
| SpanLife.ServerCallFinishes | trpc/telemetry/opentelemetry/tracing/server_filter.cc:99-104 | from any state and after any events that do not restart the call, its second point finishes that span with the call's outcome and touches no other |
| SpanLife.LinkedCallContinuesTrace | trpc/telemetry/opentelemetry/tracing/client_filter.cc:121-135 | from any state, a client call linked to a span and started after any events that do not relink it continues the trace of that span: id, flag unless parent sampling is off, parent span id |
| SpanLife.UnlinkedCallStartsTrace | trpc/telemetry/opentelemetry/tracing/client_filter.cc:121-135 | a client call linked to no span starts a trace of its own |
| SpanLife.ClientCallFinishes | trpc/telemetry/opentelemetry/tracing/client_filter.cc:107-112 | the span a client call started is the one its second point finishes, whatever happened to other calls |
| SpanLife.PassedByUntouched | trpc/telemetry/opentelemetry/tracing/client_filter.cc:95-98 | over gRPC a call of the trace exporter leaves everything as it is, at both points |
| SpanLife.LineIsReportedIff | trpc/telemetry/opentelemetry/logging/opentelemetry_logging.cc:150-163 | a line is reported exactly if its call has a span and log sampling is off, the span is sampled, or the line is an error and unsampled errors are wanted |
| SpanLife.UserReachesIff | trpc/telemetry/opentelemetry/tracing/deferred_sample_processor.cc:31-82 | users reach a recording span with the five calls of its interface, and no other span |
| TreeRun.VisitGivesSpans | trpc/telemetry/opentelemetry/tracing/server_filter.cc:114-138 | a trace run through the machines of its services gets exactly the contexts of its call tree, and all other spans keep theirs |
| TreeRun.TraceIsAllOrNothing | trpc/telemetry/opentelemetry/tracing/client_filter.cc:121-163 | so the machines give a plain trace one id and sample all of it or nothing, by that id |
| TracingInvariants.ExportedIff | trpc/telemetry/opentelemetry/tracing/deferred_sample_processor.cc:96-125 | in every run, for either value of the error option, an ended span is exported exactly if forced, inherited, hit by the ratio, or under deferral not Ok with the option, or slow, by its last values; it is exported or discarded once |
| TracingInvariants.RecordedIff | trpc/telemetry/opentelemetry/tracing/sampler.cc:49-71 | in every run a span is dropped exactly if nothing samples it and deferral is off, and its context carries the decision |
| TracingInvariants.FinishedOnce | trpc/telemetry/opentelemetry/tracing/server_filter.cc:158-179 | in every run all that the filters ever do to a span is nothing, or at most one report of each body, one status and one end; they never touch a dropped span, the last status is theirs, and the status has been written before it is read |
| TracingInvariants.BodiesAreExported | trpc/telemetry/opentelemetry/tracing/client_filter.cc:216-231 | in every run and configuration a span that carries a body has been exported |
| TracingInvariants.BodiesFollowTheErrorOption | trpc/telemetry/opentelemetry/tracing/client_filter.cc:73 | the same for any wiring whose error option is on whenever the filters' flag is |
| TracingInvariants.PluginKeepsPromises | trpc/telemetry/opentelemetry/tracing/server_filter.cc:88-105 | so after any calls the plugin's own fields show every ended span's export explained, no body wasted and no recordable lost |
| InterleavedFinish.UninterruptedFinish | trpc/telemetry/opentelemetry/tracing/server_filter.cc:158-179 | the steps of a finish, performed one by one with nothing in between, are the finish of the machine |
| InterleavedFinish.InterleavedBodiesAreExported | trpc/telemetry/opentelemetry/tracing/client_filter.cc:165-190 | from any state of any run, with any events between the steps of a finish: the span has ended, a reported body is lost exactly if the span is unsampled, fast and last set to Ok, and only if another thread ended it before the filter's status or set Ok between that and the end |
| InterleavedFinish.OverriddenBodyIsLost | trpc/telemetry/opentelemetry/tracing/client_filter.cc:184-190 | such an Ok on an unsampled, fast span does lose it |
| TracingInvariants.BodiesHaveDirections | trpc/telemetry/opentelemetry/tracing/server_filter.cc:181-203 | SENT and RECEIVED name the request and the response by side, and appear exactly if reported |
| TracingInvariants.StatusComesLast | trpc/telemetry/opentelemetry/tracing/common.h:101-110 | one status, last, by the result of the call; error attributes exactly on error |
| TracingInvariants.RecordablesAreConserved | trpc/telemetry/opentelemetry/tracing/deferred_sample_processor.cc:87-105 | in every run recordables made equal, as multisets, those handed on, destroyed and still live |
| TracingInvariants.ReportedLogsHaveTraces | trpc/telemetry/opentelemetry/logging/opentelemetry_logging.cc:150-163 | in every run with log sampling, a reported line below error level, or any line if errors are not reported, is of a sampled span, exported once it ends |
| Wiring.WiringDiffersIff | trpc/telemetry/opentelemetry/tracing/opentelemetry_tracing.cc:74-80 | for any traffic, what the documented wiring exports is, in order, part of what the code's does; missing are exactly the ended spans that are unsampled, fast and not Ok, when deferral is on without `deferred_sample_error` |
| Wiring.WiringDiffersWitness | trpc/telemetry/opentelemetry/tracing/opentelemetry_tracing.cc:76 | a server call that fails fast, unsampled, with deferral on and `deferred_sample_error` off, is exported by the code and would not be as documented |
| Wiring.WiringsAgreeIff | trpc/telemetry/opentelemetry/tracing/opentelemetry_tracing.cc:74-80 | the two wirings export the same for all traffic exactly if deferral is off, or `deferred_sample_error` is on, or every trace id hits the ratio (traffic may contain durations of either sign) |
| Wiring.DocumentedKeepsBodies | trpc/telemetry/opentelemetry/tracing/client_filter.cc:73 | in every run the documented wiring would waste no body either |
| TracingInvariants.UnsetStatusDecides | trpc/telemetry/opentelemetry/tracing/deferred_sample_processor.h:74-76 | in every run a span ended without any status is exported exactly if sampled, or under deferral slow, or its uninitialised member happens not to be Ok |
| TracingInvariants.GarbageDecidesIff | trpc/telemetry/opentelemetry/tracing/deferred_sample_processor.h:74-76 | in every run what the uninitialised members held matters to an ended span exactly if no status was ever set, deferral and its error option are on, nothing sampled it, and it was fast |
| TracingInvariants.UnsetStatusWitness | trpc/telemetry/opentelemetry/tracing/deferred_sample_processor.h:74-76 | this happens: a span started, not sampled, and let go again |
| DeferralRefinement.DeferralIsConservative | trpc/telemetry/opentelemetry/tracing/opentelemetry_tracing.cc:74-83 | for any traffic, what is exported without deferral is, in order, the sampled part of what is exported with it; the extra ended spans are exactly the unsampled ones that are not Ok or slow |
| ErrorCodes.CodeMaps.InitUserCodeMap | trpc/telemetry/opentelemetry/metrics/common.cc:66-77 | after any loads the index represents the concatenation of everything loaded |
| ErrorCodes.CodeMaps.InitDefaultCodeMap | trpc/telemetry/opentelemetry/metrics/common.cc:79-94 | the five default entries are stored over whatever was there |
| ErrorCodes.CodeMaps.SetCallResult | trpc/telemetry/opentelemetry/metrics/common.cc:96-109 | the labels are left with the code, and the type and description of the first configured entry of known type whose code agrees modulo 2^32 and whose service and method are empty or the call's; else of the code's default; else of an exception |
| ErrorCodes.ClassifyGivesResult | trpc/telemetry/opentelemetry/metrics/common.cc:53-109 | the same of the result itself |
| ErrorCodes.SomeoneOrNobodyAnswers | trpc/telemetry/opentelemetry/metrics/common.cc:98-107 | there is a first entry to answer, or none answers |
| ErrorCodes.DefaultsByCode | trpc/telemetry/opentelemetry/metrics/common.cc:79-94 | five different codes get the five default types and descriptions |
| ErrorCodes.BucketScanIsListScan | trpc/telemetry/opentelemetry/metrics/common.cc:70-107 | scanning the bucket of a code answers as scanning the whole list in order |
| ErrorCodes.FirstMatchIsLeast | trpc/telemetry/opentelemetry/metrics/common.cc:98-107 | the scan finds the entry at the least matching position, and nothing exactly if none matches |
| ErrorCodes.FirstMatchConcat | trpc/telemetry/opentelemetry/metrics/common.cc:66-77 | entries loaded earlier win over entries loaded later |
| ErrorCodes.ReloadingChangesNothing | trpc/telemetry/opentelemetry/metrics/common.cc:66-77 | loading a list twice changes no answer |
| ErrorCodes.ResultTypeIsKnown | trpc/telemetry/opentelemetry/metrics/common.cc:53-109 | the type reported is always one of the three |
| ErrorCodes.DefaultResults | trpc/telemetry/opentelemetry/metrics/common.cc:53-94 | without user entries the four timeout codes, the success code and all others get their types |
| ErrorCodes.SameBucketIff | trpc/telemetry/opentelemetry/metrics/common.cc:75 | two configured codes share a bucket exactly if they agree modulo 2^32 |
| ErrorCodes.AnsweredIff | trpc/telemetry/opentelemetry/metrics/common.cc:66-107 | a return code gets a user's answer exactly if some entry of known type matches the call and has that code modulo 2^32 |
| ErrorCodes.EntryMeansItsCodeIff | trpc/telemetry/opentelemetry/metrics/common.cc:75 | an entry answers for one return code, which is the configured one exactly if that is at most 2^31-1 |
| ErrorCodes.CodeLabelsAreDistinct | trpc/telemetry/opentelemetry/metrics/common.cc:98 | different return codes get different code labels |
| ErrorCodes.LabelReads | trpc/telemetry/opentelemetry/metrics/common.cc:98 | the code label is the decimal text of the code, with its sign and without leading zeros |
| RpcMetrics.CallsAreConserved | trpc/telemetry/opentelemetry/metrics/client_filter.cc:44-92 | in every interleaving, per side and names: results over all codes plus calls between their last two reports equal latencies observed, and these plus calls not yet observed equal calls started |
| RpcMetrics.CodesAreConserved | trpc/telemetry/opentelemetry/metrics/common.cc:96-109 | in every interleaving, per side, names and return code: results counted under the label of that code equal calls handled with that code |
| RpcMetrics.SecondsAreTheCosts | trpc/telemetry/opentelemetry/metrics/server_filter.cc:72-77 | in every interleaving the histogram of a side and names has observed the latencies reported for those calls, in order, and no other |
| RpcMetrics.QuiescentMetricsAgree | trpc/telemetry/opentelemetry/metrics/server_filter.cc:44-89 | when every call has been reported to the end the three metrics agree |
| RpcMetrics.ResultKeepsBase | trpc/telemetry/opentelemetry/metrics/client_filter.cc:82-92 | writing the result into the labels hides none of the four names |
| RpcMetrics.OpenTelemetryMetrics.ModuleReport | trpc/telemetry/opentelemetry/metrics/opentelemetry_metrics.cc:73-123 | the counter of exactly this type and label set is incremented by one, or its histogram observes the latency; or -1 and no effect |
| RpcMetrics.OpenTelemetryMetrics.Before | trpc/telemetry/opentelemetry/metrics/client_filter.cc:51-73 | one started report on the four names, which continues the run of reports |
| RpcMetrics.OpenTelemetryMetrics.After | trpc/telemetry/opentelemetry/metrics/server_filter.cc:51-89 | the latency on the four names, on a server with the caller's method empty; then the total under the framework's code, or the function's if that is success, with the result of that code; these continue the run |
| RpcMetrics.ResultLabelsCount | trpc/telemetry/opentelemetry/metrics/client_filter.cc:82-92 | the labels of a handled call, one by one: names by side, code by outcome, result by entry |
| RpcMetrics.SuccessIff | trpc/telemetry/opentelemetry/metrics/client_filter.cc:84-91 | where no user entry answers, a call counts as a success exactly if framework and function both succeeded and that code is no timeout |
| RpcMetrics.FilterIsTwoReports | trpc/telemetry/opentelemetry/metrics/server_filter.cc:60-89 | after a started call these two reports go on with the run and handle the call |
| RpcMetrics.PluginBalances | trpc/telemetry/opentelemetry/metrics/opentelemetry_metrics.cc:73-123 | so the plugin's own metrics balance after any filter points, in total and per return code |
| Exporters.AfterShutdown | trpc/telemetry/opentelemetry/tracing/grpc_trace_exporter.cc:42-80 | in every interleaving after a shutdown the flag stays, every request still sent is of an export past its check by then, sent and still past it are conserved, and later exports fail unsent |
| Exporters.SendsOnce | trpc/telemetry/opentelemetry/logging/grpc_log_exporter.cc:43-68 | in every interleaving no export sends twice |
| Exporters.UninterruptedExport | trpc/telemetry/opentelemetry/tracing/grpc_trace_exporter.cc:42-67 | the interleaved steps of one export, run without interruption, give what the method gives |
| Exporters.AnswerDecides | trpc/telemetry/opentelemetry/tracing/grpc_trace_exporter.cc:57-66 | the answer to its request decides what an export returns, and concerns no other |
| Exporters.FlagIff | trpc/telemetry/opentelemetry/tracing/grpc_trace_exporter.cc:69-80 | in every interleaving the flag is set exactly from the first shutdown on |
| Exporters.GrpcExporter.Export | trpc/telemetry/opentelemetry/logging/grpc_log_exporter.cc:43-68 | after shutdown even an empty batch fails; otherwise an empty batch succeeds unsent and any other is sent once |
| ExporterTraffic.TraceExporterIsNotTraced | trpc/telemetry/opentelemetry/tracing/client_filter.cc:95-98 | the trace exporter's own call leaves the tracing state untouched exactly under gRPC reporting |
| ExporterTraffic.TracedCallAddsOneIff | trpc/telemetry/opentelemetry/tracing/client_filter.cc:100-112 | any call past the guard adds one span, and one exported span exactly if it is sampled or deferral has a reason |
| ExporterTraffic.LogExporterIsTraced | trpc/telemetry/opentelemetry/tracing/client_filter.cc:95-112 | so does the log exporter's own call, through both filter points |
| ExporterTraffic.DrainingTerminates | trpc/telemetry/opentelemetry/tracing/client_filter.cc:95-98 | with the guard, whatever the interleaving of sends, answers, refused batches and users, the exporters send at most twice the waiting logs plus the waiting spans plus the log calls under way plus what the users' events cost; without users every schedule is finite |
| ExporterTraffic.BoundIsReached | trpc/telemetry/opentelemetry/logging/grpc_log_exporter.cc:43-68 | that bound is the best possible, from every state with no call under way |
| ExporterTraffic.UnguardedExportFeedsItselfIff | trpc/telemetry/opentelemetry/tracing/client_filter.cc:95-98 | without the guard's test a span export makes a new span wait exactly if the span of its own call is exported |
| ExporterTraffic.UnguardedNeverDrains | trpc/telemetry/opentelemetry/tracing/client_filter.cc:95-98 | and then one waiting span allows schedules of every length that leave as much waiting as before |
| Carriers.HttpHeaderReader.Get | trpc/telemetry/opentelemetry/tracing/text_map_carrier.cc:69-93 | every answer is the stateless look-up's, source by source; kept values agree with it, and those kept before do not change |
| Carriers.LookupFinds | trpc/telemetry/opentelemetry/tracing/text_map_carrier.cc:69-93 | the look-up takes the header, else the string member of that name in a trans-info header that parses as an object, else nothing |
| Carriers.TransInfoIsFound | trpc/telemetry/opentelemetry/tracing/text_map_carrier.cc:76-90 | a value carried in the trans-info header only is found |
| Carriers.CStringStopsAtNul | trpc/telemetry/opentelemetry/tracing/text_map_carrier.cc:78-82 | a C string is what precedes the first NUL |
| Carriers.Writer.Set | trpc/telemetry/opentelemetry/tracing/text_map_carrier.cc:34-67 | the value is stored under the normalised key, or nothing happens without a request |
| Carriers.Writer.Get | trpc/telemetry/opentelemetry/tracing/text_map_carrier.cc:21-58 | the value under any spelling of the key, or empty |
| Carriers.LastSetIsRead | trpc/telemetry/opentelemetry/tracing/text_map_carrier.cc:34-67 | after any writes a key, under any spelling, reads as the last value set for it |
| Carriers.OtherKeysAreKept | trpc/telemetry/opentelemetry/tracing/text_map_carrier.cc:34-67 | keys that are not set under any spelling are left alone |
| Carriers.InjectedContextIsExtracted | trpc/telemetry/opentelemetry/tracing/text_map_carrier.cc:21-93 | an injected context is the one extracted, over trans-info and HTTP, under any spelling of the header, whatever the request held before |
| BodyLimit.LimitIsTheLastAcceptable | trpc/telemetry/opentelemetry/tracing/common.cc:32-38 | after any changes the limit is the last acceptable one and can hold the suffix |
| BodyLimit.TruncationFits | trpc/telemetry/opentelemetry/tracing/common.cc:50-55 | no wrap-around; the result is the body, or exactly the limit long, a prefix of the body and the suffix |
| BodyLimit.TruncationComposes | trpc/telemetry/opentelemetry/tracing/common.cc:50-55 | truncating at two limits is truncating once at the smaller |
| BodyLimit.MessageLimit.SetMaxStringLength | trpc/telemetry/opentelemetry/tracing/common.cc:32-38 | the limit changes exactly if the new one can hold the suffix |
| BodyLimit.MessageLimit.GetMsgJsonData | trpc/telemetry/opentelemetry/tracing/common.cc:50-55 | the data never exceeds the limit |

## Left out

- TracingFilters.TracingPlugin.Finish: is one step of the machine; what other threads can do in between is the subject of `InterleavedFinish`, where the steps do not record who took them, and where two filters do not finish one span at the same time.
- TracingFilters.TracingPlugin.StartNewSpan: attribute values, span names and timestamps are opaque, and the callbacks that supply start attributes are given by their result.
- DeferredSampling.DeferredRecordable.Forward: stands for eight mutators that differ only in the call they forward.
- RpcMetrics.OpenTelemetryMetrics.ModuleReport: records latencies in milliseconds as given; the division into seconds, the buckets of a histogram and the clocks are not modelled.
- Ratios that are not a number, and doubles too large to be finite.
- Hosts that are not little-endian, on which the prefix of a trace id is a different byte order of the same bytes.
- Forwarding of `OnStart`, `ForceFlush` and `Shutdown` by the deferred processor.
- Batching, timers, the HTTP exporters, traceparent text, the JSON parser and the conversion of messages to JSON.
- Reading the configuration, plugin registration and start-up failures, the registry of carrier functions, the log handler.
- The attribute report interfaces and the metrics API for users, which dispatch to library calls.
- The mapping of log levels to severities, log text, resources and attribute values.
