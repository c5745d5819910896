/** The limit on reported bodies in `tracing/common.cc`. */
module BodyLimit {
  type Uint32 = n: int | 0 <= n < 0x1_0000_0000

  const SUFFIX := "...stringLengthTooLong"
  const DEFAULT_LIMIT: Uint32 := 32766
  const SIZE_MODULUS: int := 0x1_0000_0000_0000_0000

  /** `substr(0, n)`. */
  function Take(s: string, n: nat): string {
    if n <= |s| then s[..n] else s
  }

  /** `GetMsgJsonData` after the conversion to JSON; the subtraction is on unsigned 64-bit sizes. */
  function Truncate(json: string, limit: Uint32): string {
    if |json| > limit then Take(json, (limit - |SUFFIX|) % SIZE_MODULUS) + SUFFIX else json
  }

  /** `SetMaxStringLength`: a limit that cannot hold the suffix is refused. */
  function Accept(current: Uint32, limit: Uint32): Uint32 {
    if limit < |SUFFIX| then current else limit
  }

  function AcceptAll(current: Uint32, limits: seq<Uint32>): Uint32 {
    if limits == [] then current else Accept(AcceptAll(current, limits[..|limits| - 1]), limits[|limits| - 1])
  }

  /** After any sequence of changes the limit is the last acceptable one, and can hold the suffix. */
  lemma {:induction false} LimitIsTheLastAcceptable(current: Uint32, limits: seq<Uint32>)
    requires current >= |SUFFIX|
    ensures AcceptAll(current, limits) >= |SUFFIX|
    ensures forall k :: 0 <= k < |limits| && limits[k] >= |SUFFIX| && (forall j :: k < j < |limits| ==> limits[j] < |SUFFIX|)
                        ==> AcceptAll(current, limits) == limits[k]
    ensures (forall j :: 0 <= j < |limits| ==> limits[j] < |SUFFIX|) ==> AcceptAll(current, limits) == current
    decreases |limits|
  {
    if limits != [] {
      var n := |limits| - 1;
      var rest := limits[..n];
      LimitIsTheLastAcceptable(current, rest);
      forall k | 0 <= k < n && limits[k] >= |SUFFIX| && (forall j :: k < j < |limits| ==> limits[j] < |SUFFIX|)
        ensures AcceptAll(current, limits) == limits[k]
      {
        assert limits[n] < |SUFFIX|;
        assert rest[k] == limits[k] && forall j :: k < j < n ==> rest[j] == limits[j];
      }
      assert forall j :: 0 <= j < n ==> rest[j] == limits[j];
    }
  }

  /** With an accepted limit the subtraction does not wrap: a body that fits is kept, any other is cut to
      exactly the limit, keeping a prefix of the body and ending in the suffix. */
  lemma TruncationFits(json: string, limit: Uint32)
    requires limit >= |SUFFIX|
    ensures var r := Truncate(json, limit);
            && |r| <= limit
            && (|json| <= limit ==> r == json)
            && (|json| > limit ==> |r| == limit && r == json[..limit - |SUFFIX|] + "...stringLengthTooLong")
  {
    assert (limit - |SUFFIX|) % SIZE_MODULUS == limit - |SUFFIX|;
  }

  /** Truncating twice is truncating once, at the smaller limit. */
  lemma TruncationComposes(json: string, m1: Uint32, m2: Uint32)
    requires m1 >= |SUFFIX| && m2 >= |SUFFIX|
    ensures Truncate(Truncate(json, m1), m2) == Truncate(json, if m1 < m2 then m1 else m2)
  {
    TruncationFits(json, m1);
    TruncationFits(json, m2);
    var once := Truncate(json, m1);
    TruncationFits(once, m2);
    if |json| > m1 > m2 {
      assert once[..m2 - |SUFFIX|] == json[..m2 - |SUFFIX|];
    }
  }

  /** The global limit. */
  class MessageLimit {
    var maxStringLength: Uint32

    constructor ()
      ensures Valid() && maxStringLength == 32766
    {
      maxStringLength := DEFAULT_LIMIT;
    }

    ghost predicate Valid()
      reads this
    {
      maxStringLength >= |SUFFIX|
    }

    method SetMaxStringLength(limit: Uint32)
      requires Valid()
      modifies this
      ensures Valid() && maxStringLength == Accept(old(maxStringLength), limit)
    {
      if limit < |SUFFIX| {
        return;
      }
      maxStringLength := limit;
    }

    method GetMsgJsonData(json: string) returns (data: string)
      requires Valid()
      ensures data == Truncate(json, maxStringLength)
      ensures |data| <= maxStringLength
    {
      TruncationFits(json, maxStringLength);
      data := json;
      if |data| > maxStringLength {
        data := data[..maxStringLength - |SUFFIX|] + SUFFIX;
      }
    }
  }
}
