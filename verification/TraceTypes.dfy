/** The values that the tracing plugin and the OpenTelemetry SDK exchange. */
module TraceTypes {
  type Byte = b: int | 0 <= b < 256
  type TraceId = s: seq<Byte> | |s| == 16 witness seq(16, _ => 0)
  type SpanId = n: int | 0 <= n < 0x1_0000_0000_0000_0000
  type Int32 = n: int | -0x8000_0000 <= n < 0x8000_0000
  type Int64 = n: int | -0x8000_0000_0000_0000 <= n < 0x8000_0000_0000_0000

  datatype Option<+T> = None | Some(value: T)

  /** The part of a span that travels with a request. */
  datatype SpanContext = SpanContext(traceId: TraceId, spanId: SpanId, sampled: bool, remote: bool) {
    predicate IsValid() {
      spanId != 0 && exists i :: 0 <= i < 16 && traceId[i] != 0
    }
  }

  const NO_TRACE: TraceId := [0, 0, 0, 0, 0, 0, 0, 0, 0, 0, 0, 0, 0, 0, 0, 0]
  const INVALID_CONTEXT := SpanContext(NO_TRACE, 0, false, false)

  /** A context is valid if neither of its ids is all zeros. */
  lemma ValidIff(context: SpanContext)
    ensures context.IsValid() <==> context.spanId != 0 && context.traceId != NO_TRACE
    ensures !INVALID_CONTEXT.IsValid() && !INVALID_CONTEXT.sampled
  {
    if context.traceId != NO_TRACE {
      assert exists i :: 0 <= i < 16 && context.traceId[i] != NO_TRACE[i];
    }
  }

  datatype StatusCode = Unset | Ok | Error

  /** What a sampler answers: drop the span, record it, or record and sample it. */
  datatype Decision = Drop | RecordOnly | RecordAndSample

  /** The attribute keys of `tracing/common.h`, and those the user's callbacks add. */
  datatype AttributeKey =
    | CalleeService | CalleeMethod | CallerService | CallerMethod
    | HostIp | HostPort | PeerIp | PeerPort | Namespace | EnvName | DyeingKey
    | FrameworkRet | FuncRet | ErrMsg
    | UserKey(name: string)

  datatype EventName = Sent | Received | UserEvent(name: string)

  /** One call on the SDK's `Recordable` interface. Attribute values, descriptions, timestamps and the
      like are opaque data and are left out of the arguments. */
  datatype Call =
    | SetIdentity(context: SpanContext, parentSpanId: SpanId)
    | SetAttribute(key: AttributeKey)
    | AddEvent(event: EventName)
    | AddLink(linked: SpanContext)
    | SetStatus(code: StatusCode)
    | SetName
    | SetSpanKind(kind: SpanKind)
    | SetResource
    | SetStartTime
    | SetDuration(duration: Int64)
    | SetInstrumentationScope

  datatype SpanKind = ServerKind | ClientKind
}
