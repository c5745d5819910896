/** The recordable and the processor of `tracing/deferred_sample_processor.cc` under the spans of the tracing
    machine: a recordable that is told what the span's is told is handed on exactly when the machine lists
    the span as exported. */
module RecordableLife {
  import opened TraceTypes
  import opened DeferredSampling
  import opened TracingFilters

  /** The recordable of the span: made over the same garbage, and told the same. */
  ghost predicate Mirrors(r: DeferredRecordable, s: Span)
    reads r, r.inner
  {
    && r.Valid() && r.inner != null
    && r.born == s.born && r.before == [] && r.history == s.calls
  }

  /** The SDK's dispatch of one call to the mutator it belongs to. */
  method Tell(r: DeferredRecordable, call: Call)
    requires r.Valid() && r.inner != null
    modifies r, r.inner
    ensures r.Valid() && r.inner == old(r.inner) && r.born == old(r.born) && r.before == old(r.before)
    ensures r.history == old(r.history) + [call]
  {
    match call
    case SetIdentity(context, parentSpanId) => r.SetIdentity(context, parentSpanId);
    case SetStatus(code) => r.SetStatus(code);
    case SetDuration(duration) => r.SetDuration(duration);
    case _ => r.Forward(call);
  }

  /** Whatever a span is told while it records (when it starts, by its users, by its filter), its recordable
      follows. */
  method TellAll(r: DeferredRecordable, ghost s: Span, calls: seq<Call>)
    requires Mirrors(r, s)
    modifies r, r.inner
    ensures r.inner == old(r.inner) && Mirrors(r, s.(calls := s.calls + calls))
  {
    for k := 0 to |calls|
      invariant r.inner == old(r.inner) && r.inner != null && r.Valid()
      invariant r.born == s.born && r.before == [] && r.history == s.calls + calls[..k]
    {
      Tell(r, calls[k]);
      assert calls[..k + 1] == calls[..k] + [calls[k]];
    }
    assert calls[..|calls|] == calls;
  }

  /** A new span's recordable, in the state in which the machine's new span has it. */
  method MakeFor(processor: DeferredSampleProcessor, ghost s: Span, calls: seq<Call>) returns (r: DeferredRecordable)
    requires s.calls == calls
    ensures fresh(r) && r.inner != null && fresh(r.inner)
    ensures Mirrors(r, s.(born := r.born)) && !r.born.sampled
  {
    r := processor.MakeRecordable();
    ghost var bare := s.(born := r.born, calls := []);
    TellAll(r, bare, calls);
    assert bare.(calls := bare.calls + calls) == s.(born := r.born);
  }

  /** `End`, down to the processor that the wiring has set up: the inner recordable, told all that the span
      was, is handed to the inner processor exactly if the machine exports the span, and once. */
  method EndThroughProcessor(processor: DeferredSampleProcessor, r: DeferredRecordable, ghost config: Config,
                             ghost w: World, ghost i: nat, duration: Int64)
    requires config.enableDeferredSample && processor.options == ProcessorOf(config)
    requires i < |w.spans| && w.spans[i].recording && Mirrors(r, w.spans[i])
    modifies r, r.inner, processor.innerProcessor
    ensures old(r.inner) != null
    ensures var w' := EndSpan(config, w, i, duration);
            && old(r.inner).calls == w'.spans[i].calls
            && (w'.exported == w.exported + [i] <==> w'.exported != w.exported)
            && processor.innerProcessor.received ==
               old(processor.innerProcessor.received) + if w'.exported != w.exported then [old(r.inner)] else []
  {
    Tell(r, SetDuration(duration));
    assert r.history == EndSpan(config, w, i, duration).spans[i].calls;
    processor.OnEnd(Deferred(r));
    assert w.exported + [i] != w.exported;
  }
}
