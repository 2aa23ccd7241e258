/** The B3 trace context and its codec: the four-valued sampling tag, the
    immutable `TracingParts` value, decoding from request headers (single
    `b3` header or the `X-B3-*` family) and encoding back into headers. */
module TracingPartsCodec {
  import opened Wrappers
  import opened Text
  import opened HeaderNames

  /** The sampling hint a context carries. */
  datatype Sampled = DEFER | DENY | ACCEPT | DEBUG

  /** The header code of a sampling tag; DEFER has the empty code. */
  function AsHeader(s: Sampled): (code: string)
    ensures code in {"0", "1", "d", ""}
    ensures code == "" <==> s == DEFER
  {
    match s
    case DENY => "0"
    case ACCEPT => "1"
    case DEBUG => "d"
    case DEFER => ""
  }

  /** `Sampled.parse`: total, any value other than "0", "1" and "d",
      including a missing one, is DEFER. */
  function ParseSampled(v: Option<string>): (s: Sampled)
    ensures s == DENY <==> v == Some("0")
    ensures s == ACCEPT <==> v == Some("1")
    ensures s == DEBUG <==> v == Some("d")
  {
    if v == Some("0") then DENY
    else if v == Some("1") then ACCEPT
    else if v == Some("d") then DEBUG
    else DEFER
  }

  /** Decoding the code of a tag gives the tag back, and distinct tags have
      distinct codes. */
  lemma SampledRoundTrip(s: Sampled)
    ensures ParseSampled(Some(AsHeader(s))) == s
    ensures forall t :: AsHeader(t) == AsHeader(s) ==> t == s
  {
  }

  /** Any value outside the three codes, missing or not, decodes to DEFER. */
  lemma ParseSampledDefault(v: Option<string>)
    ensures ParseSampled(v) == DEFER <==> v !in {Some("0"), Some("1"), Some("d")}
  {
  }

  /** A trace context. `useB3Header` selects the encoding only; absent ids
      are `None`. */
  datatype TracingParts = TracingParts(
    useB3Header: bool,
    traceId: Option<string>,
    spanId: Option<string>,
    parentSpanId: Option<string>,
    sampled: Sampled)

  /** `TracingParts(useB3Header)` with every other field at its default. */
  function EmptyParts(useB3Header: bool): TracingParts
  {
    TracingParts(useB3Header, None, None, None, DEFER)
  }

  /** `isEmpty()`: no id at all; sampling and format are not looked at, so
      an empty context is the default one up to those two fields. */
  function IsEmpty(c: TracingParts): (empty: bool)
    ensures empty <==> IdCount(c) == 0
    ensures empty <==> c == EmptyParts(c.useB3Header).(sampled := c.sampled)
  {
    c.traceId.None? && c.spanId.None? && c.parentSpanId.None?
  }

  /** Emptiness depends on the three ids only. */
  lemma IsEmptyIgnoresSamplingAndFormat(c: TracingParts, b: bool, s: Sampled)
    ensures IsEmpty(c) <==> IsEmpty(c.(useB3Header := b, sampled := s))
    ensures IsEmpty(c) <==> c.(useB3Header := b, sampled := s) == EmptyParts(b).(sampled := s)
  {
  }

  /** `B3HeaderParseException`, carrying the raw header value. */
  datatype B3HeaderParseError = B3HeaderParseError(header: string)

  /** `parseB3Header`: the value split on `-`, empty pieces kept; 1 piece
      is a sampling code, 2 are trace and span, 4 are trace, span, sampling
      code and parent span; any other count is an error. */
  function ParseB3Header(header: string): (r: Result<TracingParts, B3HeaderParseError>)
    ensures r.Success? <==> Count(header, '-') in {0, 1, 3}
    ensures r.Failure? ==> r.error == B3HeaderParseError(header)
    ensures r.Success? ==> r.value.useB3Header
    ensures r.Success? ==> (IsEmpty(r.value) <==> '-' !in header)
  {
    CountZero(header, '-');
    var parts := Split(header, '-');
    if |parts| == 1 then
      Success(TracingParts(true, None, None, None, ParseSampled(Some(parts[0]))))
    else if |parts| == 2 then
      Success(TracingParts(true, Some(parts[0]), Some(parts[1]), None, DEFER))
    else if |parts| == 4 then
      Success(TracingParts(true, Some(parts[0]), Some(parts[1]), Some(parts[3]), ParseSampled(Some(parts[2]))))
    else
      Failure(B3HeaderParseError(header))
  }

  /** A value without `-` is a sampling code alone. */
  lemma ParseB3OnePiece(code: string)
    requires '-' !in code
    ensures ParseB3Header(code) == Success(TracingParts(true, None, None, None, ParseSampled(Some(code))))
  {
    SplitNoSeparator(code, '-');
  }

  /** `T-S` gives trace T and span S with DEFER sampling. */
  lemma ParseB3TwoPieces(t: string, s: string)
    requires '-' !in t && '-' !in s
    ensures ParseB3Header(t + "-" + s) == Success(TracingParts(true, Some(t), Some(s), None, DEFER))
  {
    SplitJoin([t, s], '-');
    JoinSmall(t, s, "", "", '-');
  }

  /** `T-S-C-P` gives trace T, span S, parent P and sampling decoded from C. */
  lemma ParseB3FourPieces(t: string, s: string, code: string, p: string)
    requires '-' !in t && '-' !in s && '-' !in code && '-' !in p
    ensures ParseB3Header(t + "-" + s + "-" + code + "-" + p)
         == Success(TracingParts(true, Some(t), Some(s), Some(p), ParseSampled(Some(code))))
  {
    SplitJoin([t, s, code, p], '-');
    JoinSmall(t, s, code, p, '-');
  }

  /** `T-S-C` is rejected, whatever the three pieces are. */
  lemma ParseB3ThreePiecesFails(t: string, s: string, code: string)
    requires '-' !in t && '-' !in s && '-' !in code
    ensures ParseB3Header(t + "-" + s + "-" + code)
         == Failure(B3HeaderParseError(t + "-" + s + "-" + code))
  {
    SplitJoin([t, s, code], '-');
    JoinSmall(t, s, code, "", '-');
  }

  /** `TracingParts.parse(headers)`: a present `b3` header wins and is
      parsed; otherwise the `X-B3-*` headers are read, and any `X-B3-Flags`
      value means DEBUG whatever `X-B3-Sampled` says. */
  function Parse(headers: Headers): (r: Result<TracingParts, B3HeaderParseError>)
    ensures B3_HEADER in headers ==> r == ParseB3Header(headers[B3_HEADER])
    ensures B3_HEADER !in headers ==> r.Success? && !r.value.useB3Header
    ensures r.Failure? ==> B3_HEADER in headers && r.error.header == headers[B3_HEADER]
    ensures r.Success? ==> (r.value.useB3Header <==> B3_HEADER in headers)
  {
    if B3_HEADER in headers then
      ParseB3Header(headers[B3_HEADER])
    else
      Success(TracingParts(
        false,
        Get(headers, TRACE_ID_HEADER),
        Get(headers, SPAN_ID_HEADER),
        Get(headers, PARENT_SPAN_ID_HEADER),
        if DEBUG_HEADER in headers then DEBUG else ParseSampled(Get(headers, SAMPLED_HEADER))))
  }

  /** Without `b3`, each id is read from its own header, and the sampling
      tag is DEBUG exactly when `X-B3-Flags` is present or `X-B3-Sampled`
      is "d". */
  lemma ParseMultiHeaders(headers: Headers)
    requires B3_HEADER !in headers
    ensures Parse(headers).Success?
    ensures Parse(headers).value.traceId == Get(headers, TRACE_ID_HEADER)
    ensures Parse(headers).value.spanId == Get(headers, SPAN_ID_HEADER)
    ensures Parse(headers).value.parentSpanId == Get(headers, PARENT_SPAN_ID_HEADER)
    ensures DEBUG_HEADER in headers ==> Parse(headers).value.sampled == DEBUG
    ensures DEBUG_HEADER !in headers ==> Parse(headers).value.sampled == ParseSampled(Get(headers, SAMPLED_HEADER))
  {
  }

  /** Headers outside the six B3 names never affect decoding. */
  lemma ParseIgnoresOtherHeaders(headers: Headers, other: Headers)
    requires forall n :: n in B3_NAMES ==> Get(headers, n) == Get(other, n)
    ensures Parse(headers) == Parse(other)
  {
  }

  /** The present entries of a list, in order (`listOfNotNull`). */
  function NotNull(xs: seq<Option<string>>): (r: seq<string>)
    ensures |r| <= |xs|
  {
    if |xs| == 0 then []
    else if xs[0].Some? then [xs[0].value] + NotNull(xs[1..])
    else NotNull(xs[1..])
  }

  /** The entry of a present value, nothing for a missing one. */
  function Present(v: Option<string>): seq<string>
  {
    if v.Some? then [v.value] else []
  }

  lemma NotNullFour(a: Option<string>, b: Option<string>, c: Option<string>, d: Option<string>)
    ensures NotNull([a, b, c, d]) == Present(a) + Present(b) + Present(c) + Present(d)
  {
    calc {
      NotNull([a, b, c, d]);
    == { assert [a, b, c, d] == [a] + [b, c, d]; NotNullCons(a, [b, c, d]); }
      Present(a) + NotNull([b, c, d]);
    == { assert [b, c, d] == [b] + [c, d]; NotNullCons(b, [c, d]); }
      Present(a) + (Present(b) + NotNull([c, d]));
    == { assert [c, d] == [c] + [d]; NotNullCons(c, [d]); }
      Present(a) + (Present(b) + (Present(c) + NotNull([d])));
    == { assert [d] == [d] + []; NotNullCons(d, []); }
      Present(a) + (Present(b) + (Present(c) + (Present(d) + NotNull([]))));
    }
  }

  lemma NotNullCons(x: Option<string>, xs: seq<Option<string>>)
    ensures NotNull([x] + xs) == Present(x) + NotNull(xs)
  {
  }

  /** A nullable value inside a Kotlin string template: `null` prints as
      the text "null". */
  function Template(v: Option<string>): string
  {
    match v
    case Some(s) => s
    case None => "null"
  }

  /** How many of the three ids are present. */
  function IdCount(c: TracingParts): nat
  {
    (if c.traceId.Some? then 1 else 0) + (if c.spanId.Some? then 1 else 0) + (if c.parentSpanId.Some? then 1 else 0)
  }

  /** `asB3Header()`: trace, span, sampling code and parent span, the
      missing ones left out, joined with `-`; but when the list has exactly
      three entries the result is `"$traceId-$spanId"`. The sampling code
      is never missing (it is "" for DEFER), so the special case fires
      exactly when two of the three ids are present. An empty context is
      written as its bare sampling code, and any other context contains a
      dash, so it never reads back as a sampling-only value. */
  function AsB3Header(c: TracingParts): (r: string)
    ensures IsEmpty(c) ==> r == AsHeader(c.sampled)
    ensures IsEmpty(c) <==> '-' !in r
  {
    var code := AsHeader(c.sampled);
    assert '-' !in code;
    NotNullFour(c.traceId, c.spanId, Some(code), c.parentSpanId);
    var parts := NotNull([c.traceId, c.spanId, Some(code), c.parentSpanId]);
    if |parts| == 3 then
      var r := Template(c.traceId) + "-" + Template(c.spanId);
      assert r[|Template(c.traceId)|] == '-';
      r
    else
      JoinSeparator(parts, '-');
      Join(parts, '-')
  }

  /** The b3 value for every combination of present ids: the sampling code
      appears exactly when the number of present ids is not two, and a
      missing trace or span id is written "null" in the two-id case. */
  lemma AsB3HeaderShape(c: TracingParts)
    ensures IdCount(c) == 0 ==> AsB3Header(c) == AsHeader(c.sampled)
    ensures IdCount(c) == 1 && c.traceId.Some? ==> AsB3Header(c) == c.traceId.value + "-" + AsHeader(c.sampled)
    ensures IdCount(c) == 1 && c.spanId.Some? ==> AsB3Header(c) == c.spanId.value + "-" + AsHeader(c.sampled)
    ensures IdCount(c) == 1 && c.parentSpanId.Some? ==> AsB3Header(c) == AsHeader(c.sampled) + "-" + c.parentSpanId.value
    ensures IdCount(c) == 2 ==> AsB3Header(c) == Template(c.traceId) + "-" + Template(c.spanId)
    ensures IdCount(c) == 3 ==>
              AsB3Header(c) == c.traceId.value + "-" + c.spanId.value + "-" + AsHeader(c.sampled) + "-" + c.parentSpanId.value
  {
    var code := AsHeader(c.sampled);
    NotNullFour(c.traceId, c.spanId, Some(code), c.parentSpanId);
    var parts := NotNull([c.traceId, c.spanId, Some(code), c.parentSpanId]);
    var t := c.traceId.GetOr("");
    var s := c.spanId.GetOr("");
    var p := c.parentSpanId.GetOr("");
    if IdCount(c) == 0 {
      assert parts == [code];
      JoinSmall(code, "", "", "", '-');
    } else if IdCount(c) == 1 {
      if c.traceId.Some? {
        assert parts == [t, code];
        JoinSmall(t, code, "", "", '-');
      } else if c.spanId.Some? {
        assert parts == [s, code];
        JoinSmall(s, code, "", "", '-');
      } else {
        assert parts == [code, p];
        JoinSmall(code, p, "", "", '-');
      }
    } else if IdCount(c) == 3 {
      assert parts == [t, s, code, p];
      JoinSmall(t, s, code, p, '-');
    }
  }

  /** With trace and span but no parent, the sampling code is dropped. */
  lemma AsB3HeaderDropsSampling(t: string, s: string, sampled: Sampled)
    ensures AsB3Header(TracingParts(true, Some(t), Some(s), None, sampled)) == t + "-" + s
  {
    AsB3HeaderShape(TracingParts(true, Some(t), Some(s), None, sampled));
  }

  /** A single-entry map when the value is present, else the empty map. */
  function OptionalHeader(name: string, v: Option<string>): Headers
  {
    if v.Some? then map[name := v.value] else map[]
  }

  /** `asHeaders()`: in b3 mode the single `b3` header; otherwise one
      header per present id, `X-B3-Sampled` for ACCEPT and DENY only and
      `X-B3-Flags: 1` for DEBUG only. */
  function AsHeaders(c: TracingParts): (h: Headers)
    ensures h.Keys <= B3_NAMES
    ensures c.useB3Header ==> h == map[B3_HEADER := AsB3Header(c)]
    ensures !c.useB3Header ==> B3_HEADER !in h
    ensures !c.useB3Header ==> Get(h, TRACE_ID_HEADER) == c.traceId
    ensures !c.useB3Header ==> Get(h, SPAN_ID_HEADER) == c.spanId
    ensures !c.useB3Header ==> Get(h, PARENT_SPAN_ID_HEADER) == c.parentSpanId
    ensures !c.useB3Header ==> (SAMPLED_HEADER in h <==> c.sampled in {ACCEPT, DENY})
    ensures !c.useB3Header && SAMPLED_HEADER in h ==> h[SAMPLED_HEADER] == AsHeader(c.sampled)
    ensures !c.useB3Header ==> (DEBUG_HEADER in h <==> c.sampled == DEBUG)
    ensures !c.useB3Header && DEBUG_HEADER in h ==> h[DEBUG_HEADER] == "1"
  {
    if c.useB3Header then
      map[B3_HEADER := AsB3Header(c)]
    else
      NamesDistinct();
      OptionalHeader(TRACE_ID_HEADER, c.traceId)
      + OptionalHeader(SPAN_ID_HEADER, c.spanId)
      + OptionalHeader(PARENT_SPAN_ID_HEADER, c.parentSpanId)
      + (if c.sampled == ACCEPT || c.sampled == DENY then map[SAMPLED_HEADER := AsHeader(c.sampled)] else map[])
      + (if c.sampled == DEBUG then map[DEBUG_HEADER := "1"] else map[])
  }

  /** In multi-header mode `X-B3-Sampled` and `X-B3-Flags` never appear
      together, DEFER emits neither, and the context is empty exactly when
      only sampling headers are emitted. */
  lemma AsHeadersSamplingExclusive(c: TracingParts)
    requires !c.useB3Header
    ensures !(SAMPLED_HEADER in AsHeaders(c) && DEBUG_HEADER in AsHeaders(c))
    ensures c.sampled == DEFER ==> SAMPLED_HEADER !in AsHeaders(c) && DEBUG_HEADER !in AsHeaders(c)
    ensures IsEmpty(c) <==> AsHeaders(c).Keys <= {SAMPLED_HEADER, DEBUG_HEADER}
  {
  }

  /** Multi-header encoding always decodes back to the same context. */
  lemma MultiHeaderRoundTrip(c: TracingParts)
    requires !c.useB3Header
    ensures Parse(AsHeaders(c)) == Success(c)
  {
  }

  /** No id contains the b3 delimiter. */
  predicate DashFreeIds(c: TracingParts)
  {
    && (c.traceId.Some? ==> '-' !in c.traceId.value)
    && (c.spanId.Some? ==> '-' !in c.spanId.value)
    && (c.parentSpanId.Some? ==> '-' !in c.parentSpanId.value)
  }

  /** The b3 contexts the encoder and decoder agree on: all three ids, or
      trace and span with DEFER, or no id at all. */
  predicate B3RoundTrips(c: TracingParts)
  {
    || IdCount(c) == 3
    || (c.traceId.Some? && c.spanId.Some? && c.parentSpanId.None? && c.sampled == DEFER)
    || IdCount(c) == 0
  }

  /** Single-header encoding decodes back to the same context for the
      shapes the decoder accepts. */
  lemma B3HeaderRoundTrip(c: TracingParts)
    requires c.useB3Header && DashFreeIds(c) && B3RoundTrips(c)
    ensures Parse(AsHeaders(c)) == Success(c)
  {
    AsB3HeaderShape(c);
    var code := AsHeader(c.sampled);
    assert '-' !in code;
    SampledRoundTrip(c.sampled);
    if IdCount(c) == 3 {
      ParseB3FourPieces(c.traceId.value, c.spanId.value, code, c.parentSpanId.value);
    } else if IdCount(c) == 2 {
      ParseB3TwoPieces(c.traceId.value, c.spanId.value);
    } else {
      ParseB3OnePiece(code);
    }
  }

  /** Trace and span without parent but with a non-DEFER tag lose the tag
      on the way through a b3 header. */
  lemma B3HeaderLosesSampling(c: TracingParts)
    requires c.useB3Header && DashFreeIds(c)
    requires c.traceId.Some? && c.spanId.Some? && c.parentSpanId.None?
    ensures Parse(AsHeaders(c)) == Success(c.(sampled := DEFER))
  {
    AsB3HeaderDropsSampling(c.traceId.value, c.spanId.value, c.sampled);
    ParseB3TwoPieces(c.traceId.value, c.spanId.value);
  }

  /** The sampling piece of a b3 value, where there is one, is a code the
      encoder writes. */
  predicate CanonicalCodes(pieces: seq<string>)
  {
    && (|pieces| == 1 ==> pieces[0] in {"0", "1", "d", ""})
    && (|pieces| == 4 ==> pieces[2] in {"0", "1", "d", ""})
  }

  /** A b3 header the decoder accepts and whose sampling code is canonical
      is re-encoded to the same text (the server echoes it). */
  lemma B3HeaderEcho(header: string)
    requires ParseB3Header(header).Success? && CanonicalCodes(Split(header, '-'))
    ensures AsB3Header(ParseB3Header(header).value) == header
  {
    var parts := Split(header, '-');
    JoinSplit(header, '-');
    if |parts| == 1 {
      EchoOnePiece(parts[0]);
      JoinSmall(parts[0], "", "", "", '-');
    } else if |parts| == 2 {
      AsB3HeaderDropsSampling(parts[0], parts[1], DEFER);
      JoinSmall(parts[0], parts[1], "", "", '-');
      assert parts == [parts[0], parts[1]];
    } else {
      EchoFourPieces(parts[0], parts[1], parts[2], parts[3]);
      JoinSmall(parts[0], parts[1], parts[2], parts[3], '-');
      assert parts == [parts[0], parts[1], parts[2], parts[3]];
    }
  }

  lemma EchoOnePiece(code: string)
    requires code in {"0", "1", "d", ""}
    ensures AsB3Header(TracingParts(true, None, None, None, ParseSampled(Some(code)))) == code
  {
  }

  lemma EchoFourPieces(t: string, s: string, code: string, p: string)
    requires code in {"0", "1", "d", ""}
    ensures AsB3Header(TracingParts(true, Some(t), Some(s), Some(p), ParseSampled(Some(code))))
         == t + "-" + s + "-" + code + "-" + p
  {
    AsB3HeaderShape(TracingParts(true, Some(t), Some(s), Some(p), ParseSampled(Some(code))));
  }
}
