/** The text map carriers of `tracing/text_map_carrier.cc`, which take a trace context from a client to a
    server. A request's keys are compared up to a normalisation: none for trans-info, and for HTTP headers
    whatever folding of case the framework applies. */
module Carriers {
  import opened TraceTypes

  const TRANS_INFO_HEADER := "trpc-trans-info"
  const TRACE_PARENT := "traceparent"

  type TextMap = map<string, string>

  /** How a request normalises its keys; its entries are stored under normalised keys. */
  type Fold = string -> string

  function ValueOf(fold: Fold, m: TextMap, key: string): string {
    if fold(key) in m then m[fold(key)] else ""
  }

  // ---------------------------------------------------------------------------------------------
  // Looking a key up in an HTTP request
  // ---------------------------------------------------------------------------------------------

  datatype JsonValue = JsonString(text: string) | OtherValue

  /** What the parser makes of a text. */
  datatype Json = ParseError | NotAnObject | Object(members: map<string, JsonValue>)

  type JsonParser = string -> Json

  /** A string as C sees it: up to the first NUL. */
  function CString(s: string): string {
    if s == "" || s[0] == '\0' then "" else [s[0]] + CString(s[1..])
  }

  /** That is all of it before the first NUL. */
  lemma {:induction false} CStringStopsAtNul(s: string)
    ensures CString(s) <= s && '\0' !in CString(s)
    ensures CString(s) == s || s[|CString(s)|] == '\0'
  {
    if s != "" && s[0] != '\0' {
      CStringStopsAtNul(s[1..]);
      assert s == [s[0]] + s[1..];
    }
  }

  /** The string member of the parsed trans-info header under a key, if there is one. */
  function TransInfoMember(fold: Fold, parser: JsonParser, headers: TextMap, key: string): Option<string> {
    if fold(TRANS_INFO_HEADER) !in headers then None
    else
      match parser(CString(headers[fold(TRANS_INFO_HEADER)]))
      case Object(members) =>
        if CString(key) in members && members[CString(key)].JsonString?
        then Some(CString(members[CString(key)].text)) else None
      case _ => None
  }

  /** The stateless look-up: the header itself, then the trans-info object, then nothing. */
  function Lookup(fold: Fold, parser: JsonParser, headers: TextMap, key: string): string {
    if fold(key) in headers then headers[fold(key)]
    else
      match TransInfoMember(fold, parser, headers, key)
      case Some(value) => value
      case None => ""
  }

  /** What a look-up finds, source by source: the header itself if there is one; else, if the trans-info header
      parses as an object with a string member of that name, that string; else nothing. */
  predicate Finds(fold: Fold, parser: JsonParser, headers: TextMap, key: string, value: string) {
    if fold(key) in headers then value == headers[fold(key)]
    else if fold("trpc-trans-info") in headers then
      var json := parser(CString(headers[fold("trpc-trans-info")]));
      var name := CString(key);
      if json.Object? && name in json.members && json.members[name].JsonString?
      then value == CString(json.members[name].text) else value == ""
    else value == ""
  }

  lemma LookupFinds(fold: Fold, parser: JsonParser, headers: TextMap, key: string)
    ensures Finds(fold, parser, headers, key, Lookup(fold, parser, headers, key))
  {
  }

  /** So a value that an HTTP request carries in its trans-info header only is found as well. */
  lemma TransInfoIsFound(fold: Fold, parser: JsonParser, headers: TextMap, members: map<string, JsonValue>, key: string,
                         value: string)
    requires fold(key) !in headers && fold(TRANS_INFO_HEADER) in headers
    requires parser(CString(headers[fold(TRANS_INFO_HEADER)])) == Object(members)
    requires CString(key) in members && members[CString(key)] == JsonString(value)
    ensures Lookup(fold, parser, headers, key) == CString(value)
  {
  }

  // ---------------------------------------------------------------------------------------------
  // Sequences of writes
  // ---------------------------------------------------------------------------------------------

  function SetAll(fold: Fold, m: TextMap, writes: seq<(string, string)>): TextMap {
    if writes == [] then m
    else
      var n := |writes| - 1;
      SetAll(fold, m, writes[..n])[fold(writes[n].0) := writes[n].1]
  }

  /** The write at `k` is the last one to a key that counts as the given one. */
  ghost predicate LastSet(fold: Fold, writes: seq<(string, string)>, k: int, key: string) {
    && 0 <= k < |writes|
    && fold(writes[k].0) == fold(key)
    && forall j :: k < j < |writes| ==> fold(writes[j].0) != fold(key)
  }

  /** Reading back after any writes gives the last value set for the key. */
  lemma {:induction false} LastSetIsRead(fold: Fold, m: TextMap, writes: seq<(string, string)>, k: nat, key: string)
    requires LastSet(fold, writes, k, key)
    ensures fold(key) in SetAll(fold, m, writes) && ValueOf(fold, SetAll(fold, m, writes), key) == writes[k].1
    decreases |writes|
  {
    var n := |writes| - 1;
    if k < n {
      assert fold(writes[n].0) != fold(key);
      LastSetIsRead(fold, m, writes[..n], k, key);
    }
  }

  /** Keys that are not set, under any spelling, are left alone. */
  lemma {:induction false} OtherKeysAreKept(fold: Fold, m: TextMap, writes: seq<(string, string)>, key: string)
    requires forall j :: 0 <= j < |writes| ==> fold(writes[j].0) != fold(key)
    ensures fold(key) in SetAll(fold, m, writes) <==> fold(key) in m
    ensures ValueOf(fold, SetAll(fold, m, writes), key) == ValueOf(fold, m, key)
    decreases |writes|
  {
    if writes != [] {
      var n := |writes| - 1;
      assert fold(writes[n].0) != fold(key);
      OtherKeysAreKept(fold, m, writes[..n], key);
    }
  }

  /** What a client writes into a request reaches the server, over trans-info and over HTTP headers,
      under any spelling that counts as the same key, whatever the request held before and whatever a
      trans-info header says; the values may be any, in particular an encoded trace context. */
  lemma WrittenValueIsRead(fold: Fold, parser: JsonParser, before: TextMap, writes: seq<(string, string)>, k: nat,
                           key: string)
    requires LastSet(fold, writes, k, key)
    ensures ValueOf(fold, SetAll(fold, before, writes), key) == writes[k].1
    ensures Lookup(fold, parser, SetAll(fold, before, writes), key) == writes[k].1
  {
    LastSetIsRead(fold, before, writes, k, key);
  }

  /** A codec for the traceparent value that loses nothing but marks what it decodes as remote. */
  ghost predicate IsCodec(encode: SpanContext -> string, decode: string -> SpanContext) {
    forall c: SpanContext :: c.IsValid() ==> decode(encode(c)) == c.(remote := true)
  }

  /** A context injected by a client is the context its server extracts, by either carrier, even from a
      request that already carried another one, and whatever the spelling of the header. */
  lemma InjectedContextIsExtracted(encode: SpanContext -> string, decode: string -> SpanContext, fold: Fold,
                                   parser: JsonParser, before: TextMap, context: SpanContext, key: string)
    requires IsCodec(encode, decode) && context.IsValid() && fold(key) == fold("traceparent")
    ensures var request := SetAll(fold, before, [(TRACE_PARENT, encode(context))]);
            && decode(ValueOf(fold, request, key)) == context.(remote := true)
            && decode(Lookup(fold, parser, request, key)) == context.(remote := true)
  {
    WrittenValueIsRead(fold, parser, before, [(TRACE_PARENT, encode(context))], 0, key);
  }

  // ---------------------------------------------------------------------------------------------
  // The carriers
  // ---------------------------------------------------------------------------------------------

  /** A request's trans-info, or its HTTP headers. */
  class Request {
    const fold: Fold
    var entries: TextMap

    constructor (fold: Fold, entries: TextMap)
      ensures this.fold == fold && this.entries == entries
    {
      this.fold, this.entries := fold, entries;
    }
  }

  /** `TransInfoWriter` and `HttpHeaderWriter`: both tolerate having no request. */
  class Writer {
    const request: Request?

    constructor (request: Request?)
      ensures this.request == request
    {
      this.request := request;
    }

    method Get(key: string) returns (value: string)
      ensures value == if request == null then "" else ValueOf(request.fold, request.entries, key)
    {
      if request == null {
        return "";
      }
      if request.fold(key) in request.entries {
        value := request.entries[request.fold(key)];
      } else {
        value := "";
      }
    }

    method Set(key: string, value: string)
      modifies request
      ensures request != null ==> request.entries == old(request.entries)[request.fold(key) := value]
    {
      if request != null {
        request.entries := request.entries[request.fold(key) := value];
      }
    }
  }

  /** `TransInfoReader`: its `Set` does nothing. */
  class TransInfoReader {
    const request: Request

    constructor (request: Request)
      ensures this.request == request
    {
      this.request := request;
    }

    method Get(key: string) returns (value: string)
      ensures value == ValueOf(request.fold, request.entries, key)
    {
      if request.fold(key) in request.entries {
        value := request.entries[request.fold(key)];
      } else {
        value := "";
      }
    }
  }

  class HttpHeaderReader {
    const request: Request
    const parser: JsonParser

    /** The values taken from trans-info, kept so that views of them stay alive. */
    var traceInfo: TextMap

    constructor (request: Request, parser: JsonParser)
      ensures this.request == request && this.parser == parser && traceInfo == map[]
    {
      this.request, this.parser, traceInfo := request, parser, map[];
    }

    /** Every kept value is what a look-up of its key in the request gives. */
    ghost predicate Agrees()
      reads this, request
    {
      forall key :: key in traceInfo ==> traceInfo[key] == Lookup(request.fold, parser, request.entries, key)
    }

    /** The answer is the stateless look-up's. What was kept before still is, unchanged as long as it
        agreed with the request: the views handed out earlier keep their value. */
    method Get(key: string) returns (value: string)
      modifies this`traceInfo
      ensures value == Lookup(request.fold, parser, request.entries, key)
      ensures Finds(request.fold, parser, request.entries, key, value)
      ensures traceInfo == if request.fold(key) !in request.entries
                              && TransInfoMember(request.fold, parser, request.entries, key).Some?
                           then old(traceInfo)[key := value] else old(traceInfo)
      ensures old(Agrees()) ==> Agrees()
      ensures old(Agrees()) ==> forall k :: k in old(traceInfo) ==> k in traceInfo && traceInfo[k] == old(traceInfo)[k]
    {
      var headers := request.entries;
      if request.fold(key) in headers {
        return headers[request.fold(key)];
      }
      if request.fold(TRANS_INFO_HEADER) in headers {
        var document := parser(CString(headers[request.fold(TRANS_INFO_HEADER)]));
        if document.Object? {
          var name := CString(key);
          if name in document.members && document.members[name].JsonString? {
            traceInfo := traceInfo[key := CString(document.members[name].text)];
            return traceInfo[key];
          }
        }
      }
      return "";
    }
  }
}
