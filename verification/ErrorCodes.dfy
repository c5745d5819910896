/** The classification of return codes in `metrics/common.cc`: an index per code, built from the configured
    list, must answer as a scan of that list would. */
module ErrorCodes {
  import opened TraceTypes

  type Uint64 = n: int | 0 <= n < 0x1_0000_0000_0000_0000

  const SUCCESS_TYPE := "success"
  const TIMEOUT_TYPE := "timeout"
  const EXCEPTION_TYPE := "exception"

  /** The label keys of the RPC metrics: four that name the call, three that tell its result. */
  datatype LabelKey =
    | CallerService | CallerMethod | CalleeService | CalleeMethod
    | Code | CodeType | CodeDesc

  type Labels = map<LabelKey, string>

  datatype MetricsCode = MetricsCode(code: Uint64, codeType: string, description: string, service: string,
                                     func: string)

  predicate IsCodeType(t: string) {
    t == SUCCESS_TYPE || t == TIMEOUT_TYPE || t == EXCEPTION_TYPE
  }

  /** The conversion of a configured code to the `int` key of the index: the low 32 bits, signed. */
  function ToInt32(code: Uint64): Int32 {
    var low := code % 0x1_0000_0000;
    if low < 0x8000_0000 then low else low - 0x1_0000_0000
  }

  /** Two configured codes share a bucket exactly when they agree modulo 2^32. */
  lemma SameBucketIff(a: Uint64, b: Uint64)
    ensures ToInt32(a) == ToInt32(b) <==> (a - b) % 0x1_0000_0000 == 0
  {
    var m := 0x1_0000_0000;
    var qa, qb := a / m, b / m;
    assert a - b == (qa - qb) * m + (a % m - b % m);
    if a % m == b % m {
      assert (a - b) % m == ((qa - qb) * m) % m;
    }
  }

  // ---------------------------------------------------------------------------------------------
  // The specification: a first-match scan
  // ---------------------------------------------------------------------------------------------

  predicate MatchesCall(entry: MetricsCode, service: string, func: string) {
    (entry.service == "" || entry.service == service) && (entry.func == "" || entry.func == func)
  }

  predicate Applies(entry: MetricsCode, code: Int32, service: string, func: string) {
    IsCodeType(entry.codeType) && ToInt32(entry.code) == code && MatchesCall(entry, service, func)
  }

  function FirstMatch(codes: seq<MetricsCode>, code: Int32, service: string, func: string): Option<MetricsCode> {
    if codes == [] then None
    else if Applies(codes[0], code, service, func) then Some(codes[0])
    else FirstMatch(codes[1..], code, service, func)
  }

  /** The scan finds the entry at the least position that applies, and nothing exactly if none does. */
  lemma {:induction false} FirstMatchIsLeast(codes: seq<MetricsCode>, code: Int32, service: string, func: string)
    ensures FirstMatch(codes, code, service, func).None?
       <==> forall j :: 0 <= j < |codes| ==> !Applies(codes[j], code, service, func)
    ensures forall k :: 0 <= k < |codes| && Applies(codes[k], code, service, func)
                        && (forall j :: 0 <= j < k ==> !Applies(codes[j], code, service, func))
                    ==> FirstMatch(codes, code, service, func) == Some(codes[k])
  {
    if codes != [] && !Applies(codes[0], code, service, func) {
      var rest := codes[1..];
      FirstMatchIsLeast(rest, code, service, func);
      assert forall j :: 1 <= j < |codes| ==> codes[j] == rest[j - 1];
      forall k | 0 <= k < |codes| && Applies(codes[k], code, service, func)
                 && (forall j :: 0 <= j < k ==> !Applies(codes[j], code, service, func))
        ensures FirstMatch(codes, code, service, func) == Some(codes[k])
      {
        assert forall j :: 0 <= j < k - 1 ==> rest[j] == codes[j + 1];
        assert rest[k - 1] == codes[k];
      }
      if FirstMatch(rest, code, service, func).None? {
        forall j | 1 <= j < |codes| ensures !Applies(codes[j], code, service, func) {
          assert codes[j] == rest[j - 1];
        }
      } else {
        var j :| 0 <= j < |rest| && Applies(rest[j], code, service, func);
        assert codes[j + 1] == rest[j];
      }
    }
  }

  /** A configured code answers for the return code it names modulo 2^32, and for no other. */
  lemma NarrowsToIff(code: Uint64, ret: Int32)
    ensures ToInt32(code) == ret <==> (code - ret) % 0x1_0000_0000 == 0
  {
  }

  /** So a call gets a user's answer exactly if some entry of known type matches the call and its code agrees
      with the return code modulo 2^32. */
  lemma AnsweredIff(codes: seq<MetricsCode>, ret: Int32, service: string, func: string)
    ensures FirstMatch(codes, ret, service, func).Some?
       <==> exists k :: 0 <= k < |codes| && IsCodeType(codes[k].codeType) && MatchesCall(codes[k], service, func)
                        && (codes[k].code - ret) % 0x1_0000_0000 == 0
  {
    FirstMatchIsLeast(codes, ret, service, func);
    forall k | 0 <= k < |codes|
      ensures ToInt32(codes[k].code) == ret <==> (codes[k].code - ret) % 0x1_0000_0000 == 0
    {
      NarrowsToIff(codes[k].code, ret);
    }
  }

  /** An entry can answer for the very code it is configured with exactly if that code is at most 2^31 - 1.
      Any larger one answers for another return code instead. */
  lemma EntryMeansItsCodeIff(entry: MetricsCode, service: string, func: string)
    requires IsCodeType(entry.codeType) && MatchesCall(entry, service, func)
    ensures var wrong := ToInt32(entry.code);
            && FirstMatch([entry], wrong, service, func) == Some(entry)
            && (wrong == entry.code <==> entry.code <= 0x7fff_ffff)
            && forall ret: Int32 :: FirstMatch([entry], ret, service, func).Some? <==> ret == wrong
  {
    assert [entry][1..] == [];
  }

  /** Earlier lists win over later ones. */
  lemma {:induction false} FirstMatchConcat(a: seq<MetricsCode>, b: seq<MetricsCode>, code: Int32, service: string,
                                            func: string)
    ensures FirstMatch(a + b, code, service, func) ==
            if FirstMatch(a, code, service, func).Some? then FirstMatch(a, code, service, func)
            else FirstMatch(b, code, service, func)
  {
    if a == [] {
      assert a + b == b;
    } else {
      assert (a + b)[1..] == a[1..] + b;
      FirstMatchConcat(a[1..], b, code, service, func);
    }
  }

  /** Loading the same list again changes no answer. */
  lemma ReloadingChangesNothing(codes: seq<MetricsCode>, code: Int32, service: string, func: string)
    ensures FirstMatch(codes + codes, code, service, func) == FirstMatch(codes, code, service, func)
  {
    FirstMatchConcat(codes, codes, code, service, func);
  }

  /** The return codes of the framework that have a default entry. */
  datatype RetCodes = RetCodes(success: Int32, serverTimeout: Int32, serverFullLinkTimeout: Int32,
                               clientInvokeTimeout: Int32, clientFullLinkTimeout: Int32)

  datatype CallResult = CallResult(codeType: string, description: string)

  function DefaultTable(codes: RetCodes): map<Int32, CallResult> {
    map[codes.success := CallResult(SUCCESS_TYPE, "code=0")]
       [codes.serverTimeout := CallResult(TIMEOUT_TYPE, "server timeout")]
       [codes.serverFullLinkTimeout := CallResult(TIMEOUT_TYPE, "server fulllink timeout")]
       [codes.clientInvokeTimeout := CallResult(TIMEOUT_TYPE, "client timeout")]
       [codes.clientFullLinkTimeout := CallResult(TIMEOUT_TYPE, "client fulllink timeout")]
  }

  /** The result of a call: the user's list, then the defaults, then an exception. */
  function Classify(codes: seq<MetricsCode>, defaults: map<Int32, CallResult>, code: Int32, service: string,
                    func: string): CallResult {
    match FirstMatch(codes, code, service, func)
    case Some(entry) => CallResult(entry.codeType, entry.description)
    case None => if code in defaults then defaults[code] else CallResult(EXCEPTION_TYPE, "code!=0")
  }

  /** Without user entries, the four timeout codes are timeouts, the success code is a success unless it is
      one of them, and everything else is an exception. */
  lemma DefaultResults(codes: RetCodes, code: Int32, service: string, func: string)
    ensures var t := Classify([], DefaultTable(codes), code, service, func).codeType;
            var isTimeout := code in {codes.serverTimeout, codes.serverFullLinkTimeout, codes.clientInvokeTimeout,
                                      codes.clientFullLinkTimeout};
            && (t == TIMEOUT_TYPE <==> isTimeout)
            && (t == SUCCESS_TYPE <==> code == codes.success && !isTimeout)
            && (t == EXCEPTION_TYPE <==> code != codes.success && !isTimeout)
  {
    assert |SUCCESS_TYPE| == |TIMEOUT_TYPE| && SUCCESS_TYPE[0] != TIMEOUT_TYPE[0];
    assert |EXCEPTION_TYPE| != |TIMEOUT_TYPE|;
  }

  /** With five different codes, each gets its own default. */
  lemma DefaultsByCode(codes: RetCodes)
    requires |{codes.success, codes.serverTimeout, codes.serverFullLinkTimeout, codes.clientInvokeTimeout,
               codes.clientFullLinkTimeout}| == 5
    ensures var t := DefaultTable(codes);
            && t.Keys == {codes.success, codes.serverTimeout, codes.serverFullLinkTimeout, codes.clientInvokeTimeout,
                          codes.clientFullLinkTimeout}
            && t[codes.success] == CallResult("success", "code=0")
            && t[codes.serverTimeout] == CallResult("timeout", "server timeout")
            && t[codes.serverFullLinkTimeout] == CallResult("timeout", "server fulllink timeout")
            && t[codes.clientInvokeTimeout] == CallResult("timeout", "client timeout")
            && t[codes.clientFullLinkTimeout] == CallResult("timeout", "client fulllink timeout")
  {
  }

  lemma {:induction false} MatchApplies(codes: seq<MetricsCode>, code: Int32, service: string, func: string)
    ensures var r := FirstMatch(codes, code, service, func);
            r.Some? ==> Applies(r.value, code, service, func)
  {
    if codes != [] {
      MatchApplies(codes[1..], code, service, func);
    }
  }

  /** Whatever is configured, the reported type is one of the three. */
  lemma ResultTypeIsKnown(codes: seq<MetricsCode>, defaults: map<Int32, CallResult>, retCodes: RetCodes, code: Int32,
                          service: string, func: string)
    requires defaults == map[] || defaults == DefaultTable(retCodes)
    ensures IsCodeType(Classify(codes, defaults, code, service, func).codeType)
  {
    MatchApplies(codes, code, service, func);
  }

  // ---------------------------------------------------------------------------------------------
  // The index
  // ---------------------------------------------------------------------------------------------

  /** The entries of the list that the index keeps under one code, in order. */
  function Entries(codes: seq<MetricsCode>, code: Int32): seq<MetricsCode> {
    if codes == [] then []
    else
      var n := |codes| - 1;
      Entries(codes[..n], code) +
      (if IsCodeType(codes[n].codeType) && ToInt32(codes[n].code) == code then [codes[n]] else [])
  }

  /** Position by position the index holds what the list says. */
  ghost predicate Represents(index: map<Int32, seq<MetricsCode>>, codes: seq<MetricsCode>) {
    forall code: Int32 :: (if code in index then index[code] else []) == Entries(codes, code)
  }

  lemma EntriesOneMore(codes: seq<MetricsCode>, entry: MetricsCode, code: Int32)
    ensures Entries(codes + [entry], code) ==
            Entries(codes, code) + if IsCodeType(entry.codeType) && ToInt32(entry.code) == code then [entry] else []
  {
    assert (codes + [entry])[..|codes|] == codes;
  }

  /** Appending one valid entry to its bucket is what one more entry in the list requires. */
  lemma OneMoreEntry(index: map<Int32, seq<MetricsCode>>, codes: seq<MetricsCode>, entry: MetricsCode)
    requires Represents(index, codes)
    ensures var key := ToInt32(entry.code);
            Represents(if IsCodeType(entry.codeType)
                       then index[key := (if key in index then index[key] else []) + [entry]] else index,
                       codes + [entry])
  {
    forall code: Int32 ensures Entries(codes + [entry], code) ==
                               Entries(codes, code) + if IsCodeType(entry.codeType) && ToInt32(entry.code) == code
                                                      then [entry] else [] {
      EntriesOneMore(codes, entry, code);
    }
  }

  lemma FirstMatchOneMore(codes: seq<MetricsCode>, entry: MetricsCode, code: Int32, service: string, func: string)
    ensures FirstMatch(codes + [entry], code, service, func) ==
            if FirstMatch(codes, code, service, func).Some? then FirstMatch(codes, code, service, func)
            else if Applies(entry, code, service, func) then Some(entry) else None
  {
    FirstMatchConcat(codes, [entry], code, service, func);
    assert [entry][1..] == [];
  }

  /** Scanning one bucket answers as scanning the whole list. */
  lemma {:induction false} BucketScanIsListScan(codes: seq<MetricsCode>, code: Int32, service: string, func: string)
    ensures FirstMatch(Entries(codes, code), code, service, func) == FirstMatch(codes, code, service, func)
    decreases |codes|
  {
    if codes != [] {
      var n := |codes| - 1;
      var rest, entry := codes[..n], codes[n];
      assert codes == rest + [entry];
      BucketScanIsListScan(rest, code, service, func);
      EntriesOneMore(rest, entry, code);
      FirstMatchOneMore(rest, entry, code, service, func);
      FirstMatchOneMore(Entries(rest, code), entry, code, service, func);
      assert Entries(rest, code) + [] == Entries(rest, code);
    }
  }

  /** Within a bucket, whose entries all have the right code and type, only the call is left to match. */
  lemma {:induction false} BucketEntries(codes: seq<MetricsCode>, code: Int32)
    ensures forall k :: 0 <= k < |Entries(codes, code)| ==>
              IsCodeType(Entries(codes, code)[k].codeType) && ToInt32(Entries(codes, code)[k].code) == code
    decreases |codes|
  {
    if codes != [] {
      BucketEntries(codes[..|codes| - 1], code);
    }
  }

  // ---------------------------------------------------------------------------------------------
  // The result of a call, entry by entry
  // ---------------------------------------------------------------------------------------------

  /** The configured entry answers for a call with this return code: its type is known, its code is the return
      code modulo 2^32, and its service and its method are each empty or the call's. */
  predicate AnswersFor(entry: MetricsCode, code: Int32, service: string, func: string) {
    && (entry.codeType == "success" || entry.codeType == "timeout" || entry.codeType == "exception")
    && (entry.code - code) % 0x1_0000_0000 == 0
    && (entry.service == "" || entry.service == service)
    && (entry.func == "" || entry.func == func)
  }

  ghost predicate FirstToAnswer(codes: seq<MetricsCode>, k: int, code: Int32, service: string, func: string) {
    && 0 <= k < |codes| && AnswersFor(codes[k], code, service, func)
    && forall j :: 0 <= j < k ==> !AnswersFor(codes[j], code, service, func)
  }

  ghost predicate NoneAnswers(codes: seq<MetricsCode>, code: Int32, service: string, func: string) {
    forall j :: 0 <= j < |codes| ==> !AnswersFor(codes[j], code, service, func)
  }

  /** The result is that of the first entry to answer; if none does, the default of the code; if it has none,
      an exception. */
  ghost predicate ResultOf(result: CallResult, codes: seq<MetricsCode>, defaults: map<Int32, CallResult>, code: Int32,
                           service: string, func: string) {
    && (forall k :: FirstToAnswer(codes, k, code, service, func) ==>
          result.codeType == codes[k].codeType && result.description == codes[k].description)
    && (NoneAnswers(codes, code, service, func) ==>
          if code in defaults then result == defaults[code]
          else result.codeType == "exception" && result.description == "code!=0")
  }

  /** One of the two cases always holds. */
  lemma {:induction false} SomeoneOrNobodyAnswers(codes: seq<MetricsCode>, code: Int32, service: string, func: string)
    ensures NoneAnswers(codes, code, service, func) || exists k :: FirstToAnswer(codes, k, code, service, func)
    decreases |codes|
  {
    if codes != [] {
      var n := |codes| - 1;
      SomeoneOrNobodyAnswers(codes[..n], code, service, func);
      if k :| FirstToAnswer(codes[..n], k, code, service, func) {
        assert FirstToAnswer(codes, k, code, service, func);
      } else if AnswersFor(codes[n], code, service, func) {
        assert FirstToAnswer(codes, n, code, service, func);
      }
    }
  }

  lemma AppliesIffAnswers(entry: MetricsCode, code: Int32, service: string, func: string)
    ensures Applies(entry, code, service, func) <==> AnswersFor(entry, code, service, func)
  {
    NarrowsToIff(entry.code, code);
  }

  lemma ClassifyGivesResult(codes: seq<MetricsCode>, defaults: map<Int32, CallResult>, code: Int32, service: string,
                            func: string)
    ensures ResultOf(Classify(codes, defaults, code, service, func), codes, defaults, code, service, func)
  {
    FirstMatchIsLeast(codes, code, service, func);
    forall j | 0 <= j < |codes|
      ensures Applies(codes[j], code, service, func) <==> AnswersFor(codes[j], code, service, func)
    {
      AppliesIffAnswers(codes[j], code, service, func);
    }
  }

  // ---------------------------------------------------------------------------------------------
  // Decimal labels
  // ---------------------------------------------------------------------------------------------

  function Digit(n: nat): char
    requires n < 10
  {
    ('0' as int + n) as char
  }

  function Decimal(n: nat): string {
    if n < 10 then [Digit(n)] else Decimal(n / 10) + [Digit(n % 10)]
  }

  function ToString(n: int): string {
    if n < 0 then ['-'] + Decimal(-n) else Decimal(n)
  }

  lemma {:induction false} DecimalIsInjective(a: nat, b: nat)
    requires Decimal(a) == Decimal(b)
    ensures a == b
  {
    var s, t := Decimal(a), Decimal(b);
    assert s[|s| - 1] == Digit(a % 10) && t[|t| - 1] == Digit(b % 10);
    assert a % 10 == b % 10;
    DecimalIsNotEmpty(a / 10);
    DecimalIsNotEmpty(b / 10);
    if a >= 10 && b >= 10 {
      assert s[..|s| - 1] == Decimal(a / 10) && t[..|t| - 1] == Decimal(b / 10);
      DecimalIsInjective(a / 10, b / 10);
    }
  }

  lemma {:induction false} DecimalIsNotEmpty(n: nat)
    ensures |Decimal(n)| >= 1 && Decimal(n)[0] != '-'
  {
    if n >= 10 {
      DecimalIsNotEmpty(n / 10);
      assert Decimal(n)[0] == Decimal(n / 10)[0];
    }
  }

  /** What a decimal text says. */
  function Reading(text: string): int
    requires forall k :: 0 <= k < |text| ==> '0' <= text[k] <= '9'
  {
    if text == [] then 0
    else 10 * Reading(text[..|text| - 1]) + (text[|text| - 1] as int - '0' as int)
  }

  lemma {:induction false} DecimalReads(n: nat)
    ensures forall k :: 0 <= k < |Decimal(n)| ==> '0' <= Decimal(n)[k] <= '9'
    ensures Reading(Decimal(n)) == n
    ensures |Decimal(n)| > 1 ==> Decimal(n)[0] != '0'
  {
    if n >= 10 {
      DecimalReads(n / 10);
      DecimalIsNotEmpty(n / 10);
      assert Decimal(n)[..|Decimal(n)| - 1] == Decimal(n / 10);
      assert n / 10 < 10 ==> Decimal(n / 10) == [Digit(n / 10)];
    } else {
      assert Decimal(n)[..0] == [];
    }
  }

  /** The `code` label of a return code reads as that code, with a minus sign before a negative one, and without
      leading zeros. */
  lemma LabelReads(code: int)
    ensures var text := ToString(code);
            var digits := if code < 0 then text[1..] else text;
            && (code < 0 ==> text[0] == '-')
            && |digits| > 0 && (|digits| > 1 ==> digits[0] != '0')
            && (forall k :: 0 <= k < |digits| ==> '0' <= digits[k] <= '9')
            && Reading(digits) == if code < 0 then -code else code
  {
    var size := if code < 0 then -code else code;
    DecimalReads(size);
    DecimalIsNotEmpty(size);
    if code < 0 {
      assert ToString(code)[1..] == Decimal(size);
    }
  }

  /** Different return codes get different `code` labels. */
  lemma CodeLabelsAreDistinct(a: int, b: int)
    requires ToString(a) == ToString(b)
    ensures a == b
  {
    DecimalIsNotEmpty(if a < 0 then -a else a);
    DecimalIsNotEmpty(if b < 0 then -b else b);
    if a < 0 && b < 0 {
      assert ToString(a)[1..] == Decimal(-a) && ToString(b)[1..] == Decimal(-b);
      DecimalIsInjective(-a, -b);
    } else if a >= 0 && b >= 0 {
      DecimalIsInjective(a, b);
    }
  }

  // ---------------------------------------------------------------------------------------------
  // The maps, updated in place
  // ---------------------------------------------------------------------------------------------

  /** The labels and the latency of one report, filled in step by step. */
  class ModuleInfo {
    var infos: Labels
    var costTime: int // milliseconds

    constructor (infos: Labels)
      ensures this.infos == infos
    {
      this.infos, costTime := infos, 0;
    }
  }

  /** The labels with the outcome of a call written over them. */
  function WithResult(infos: Labels, code: Int32, result: CallResult): Labels {
    infos[Code := ToString(code)][CodeType := result.codeType][CodeDesc := result.description]
  }

  /** The labels a call is left with: its code, and the type and description of its result; the others are as
      they were. */
  ghost predicate LabelsSay(labels: Labels, before: Labels, codes: seq<MetricsCode>, defaults: map<Int32, CallResult>,
                            code: Int32, service: string, func: string) {
    && Code in labels && labels[Code] == ToString(code)
    && CodeType in labels && CodeDesc in labels
    && ResultOf(CallResult(labels[CodeType], labels[CodeDesc]), codes, defaults, code, service, func)
    && labels - {Code, CodeType, CodeDesc} == before - {Code, CodeType, CodeDesc}
  }

  lemma LabelsAreThoseOfResult(before: Labels, codes: seq<MetricsCode>, defaults: map<Int32, CallResult>, code: Int32,
                               service: string, func: string)
    ensures LabelsSay(WithResult(before, code, Classify(codes, defaults, code, service, func)), before, codes, defaults,
                      code, service, func)
  {
    ClassifyGivesResult(codes, defaults, code, service, func);
  }

  class CodeMaps {
    var userCodeMap: map<Int32, seq<MetricsCode>>
    var defaultCodeMap: map<Int32, CallResult>

    /** Everything ever passed to `InitUserCodeMap`, in order. */
    ghost var configured: seq<MetricsCode>

    ghost predicate Valid()
      reads this
    {
      Represents(userCodeMap, configured)
    }

    constructor ()
      ensures Valid() && configured == [] && defaultCodeMap == map[]
    {
      userCodeMap, defaultCodeMap, configured := map[], map[], [];
    }

    /** One turn of the loop: an entry of unknown type is skipped, any other joins the bucket of its code. */
    method AddUserCode(entry: MetricsCode)
      requires Valid()
      modifies this`userCodeMap, this`configured
      ensures Valid() && configured == old(configured) + [entry]
    {
      OneMoreEntry(userCodeMap, configured, entry);
      configured := configured + [entry];
      if !IsCodeType(entry.codeType) {
        return;
      }
      var key := ToInt32(entry.code);
      var bucket := if key in userCodeMap then userCodeMap[key] else [];
      userCodeMap := userCodeMap[key := bucket + [entry]];
    }

    method InitUserCodeMap(codes: seq<MetricsCode>)
      requires Valid()
      modifies this`userCodeMap, this`configured
      ensures Valid() && configured == old(configured) + codes
    {
      for i := 0 to |codes|
        invariant Valid() && configured == old(configured) + codes[..i]
      {
        AddUserCode(codes[i]);
        assert codes[..i + 1] == codes[..i] + [codes[i]];
      }
      assert codes[..|codes|] == codes;
    }

    method InitDefaultCodeMap(codes: RetCodes)
      modifies this`defaultCodeMap
      ensures defaultCodeMap == old(defaultCodeMap) + DefaultTable(codes)
    {
      defaultCodeMap := defaultCodeMap[codes.success := CallResult(SUCCESS_TYPE, "code=0")];
      defaultCodeMap := defaultCodeMap[codes.serverTimeout := CallResult(TIMEOUT_TYPE, "server timeout")];
      defaultCodeMap := defaultCodeMap[codes.serverFullLinkTimeout := CallResult(TIMEOUT_TYPE, "server fulllink timeout")];
      defaultCodeMap := defaultCodeMap[codes.clientInvokeTimeout := CallResult(TIMEOUT_TYPE, "client timeout")];
      defaultCodeMap := defaultCodeMap[codes.clientFullLinkTimeout := CallResult(TIMEOUT_TYPE, "client fulllink timeout")];
    }

    /** Looks one bucket up and scans it; the outcome is that of scanning everything configured. The labels are
        left with the code, and with the type and the description of the first configured entry to answer for
        the call, else of the code's default, else of an exception. */
    method SetCallResult(code: Int32, service: string, func: string, info: ModuleInfo)
      requires Valid()
      modifies info`infos
      ensures info.infos == WithResult(old(info.infos), code,
                                       Classify(configured, defaultCodeMap, code, service, func))
      ensures LabelsSay(info.infos, old(info.infos), configured, defaultCodeMap, code, service, func)
    {
      LabelsAreThoseOfResult(info.infos, configured, defaultCodeMap, code, service, func);
      info.infos := info.infos[Code := ToString(code)];
      BucketScanIsListScan(configured, code, service, func);
      BucketEntries(configured, code);
      if code in userCodeMap {
        var bucket := userCodeMap[code];
        assert bucket == Entries(configured, code);
        var i := 0;
        while i < |bucket|
          invariant 0 <= i <= |bucket|
          invariant info.infos == old(info.infos)[Code := ToString(code)]
          invariant FirstMatch(bucket, code, service, func) == FirstMatch(bucket[i..], code, service, func)
        {
          if MatchesCall(bucket[i], service, func) {
            info.infos := info.infos[CodeType := bucket[i].codeType];
            info.infos := info.infos[CodeDesc := bucket[i].description];
            return;
          }
          i := i + 1;
        }
      }
      SetCallResultByDefault(code, info);
    }

    method SetCallResultByDefault(code: Int32, info: ModuleInfo)
      modifies info`infos
      ensures var result := if code in defaultCodeMap then defaultCodeMap[code] else CallResult(EXCEPTION_TYPE, "code!=0");
              info.infos == old(info.infos)[CodeType := result.codeType][CodeDesc := result.description]
    {
      if code in defaultCodeMap {
        info.infos := info.infos[CodeType := defaultCodeMap[code].codeType];
        info.infos := info.infos[CodeDesc := defaultCodeMap[code].description];
        return;
      }
      info.infos := info.infos[CodeType := EXCEPTION_TYPE];
      info.infos := info.infos[CodeDesc := "code!=0"];
    }
  }
}
