/** The server-side decision: use the trace context a request carries, or
    originate one when the request path matches a configured prefix, and
    echo the chosen context into the response headers. */
module ZipkinIds {
  import opened Wrappers
  import opened Text
  import opened HeaderNames
  import opened IdGenerator
  import opened TracingPartsCodec

  /** `ZipkinIds.Configuration`. */
  datatype Configuration = Configuration(
    b3Header: bool,
    idLength: IdLength,
    initiateTracePathPrefixes: seq<string>)

  /** The configuration when nothing is set: multi-header encoding, 64-bit
      trace ids, and paths that start with "/" may originate. */
  const DefaultConfiguration: Configuration := Configuration(false, ID_64_BITS, ["/"])

  /** What handling one request leaves behind: the context stored in the
      call attributes (if any) and the headers set on the response. */
  datatype Inbound = Inbound(tracingParts: Option<TracingParts>, responseHeaders: Headers)

  /** The `fold(acc) { acc || startsWith }` over the prefixes. */
  function FoldStartsWith(path: string, prefixes: seq<string>, acc: bool): (r: bool)
    ensures r <==> acc || exists i :: 0 <= i < |prefixes| && StartsWith(path, prefixes[i])
  {
    if |prefixes| == 0 then acc
    else
      var r := FoldStartsWith(path, prefixes[1..], acc || StartsWith(path, prefixes[0]));
      assert forall i :: 1 <= i < |prefixes| ==> prefixes[i] == prefixes[1..][i - 1];
      r
  }

  /** `foundPrefixMatch`: whether the path starts with some prefix. */
  function FoundPrefixMatch(path: string, prefixes: seq<string>): (r: bool)
    ensures r <==> exists i :: 0 <= i < |prefixes| && StartsWith(path, prefixes[i])
  {
    FoldStartsWith(path, prefixes, false)
  }

  /** With the default prefix every path that starts with "/" matches, and
      no prefix list matches when it is empty. */
  lemma DefaultPrefixMatches(path: string)
    ensures FoundPrefixMatch(path, DefaultConfiguration.initiateTracePathPrefixes) <==> |path| > 0 && path[0] == '/'
    ensures !FoundPrefixMatch(path, [])
  {
  }

  /** `readIdsFromRequest`: the decoded context, or none when it is empty;
      a malformed `b3` header propagates as an error. */
  function ReadIdsFromRequest(headers: Headers): (r: Result<Option<TracingParts>, B3HeaderParseError>)
    ensures r.Failure? <==> Parse(headers).Failure?
    ensures r.Failure? ==> r.error == Parse(headers).error
    ensures r.Success? && r.value.Some? ==> Parse(headers) == Success(r.value.value) && !IsEmpty(r.value.value)
    ensures r.Success? && r.value.None? ==> IsEmpty(Parse(headers).value)
  {
    var parts :- Parse(headers);
    Success(if IsEmpty(parts) then None else Some(parts))
  }

  /** `generateIdsOnPathMatch`: on a prefix match, a new context with a
      trace id of the configured width drawn first and a 64-bit span id
      drawn after it. */
  function GenerateIdsOnPathMatch(path: string, config: Configuration, rng: Random): (r: Option<TracingParts>)
    ensures r.Some? <==> FoundPrefixMatch(path, config.initiateTracePathPrefixes)
    ensures r.Some? ==> r.value.useB3Header == config.b3Header
    ensures r.Some? ==> r.value.traceId == Some(NextId(config.idLength, rng))
    ensures r.Some? ==> r.value.spanId == Some(NextId(ID_64_BITS, Skip(rng, DrawCount(config.idLength))))
    ensures r.Some? ==> r.value.parentSpanId.None? && r.value.sampled == DEFER
  {
    if FoundPrefixMatch(path, config.initiateTracePathPrefixes) then
      Some(TracingParts(config.b3Header, Some(NextId(config.idLength, rng)), Some(NextId(ID_64_BITS, Skip(rng, DrawCount(config.idLength)))), None, DEFER))
    else None
  }

  /** The intercept block: the request's context if it has one, else an
      originated one; the result is stored and `setHeaders` puts its
      `asHeaders()` on the response, and when there is none nothing is
      stored and no header is set. */
  function Intercept(headers: Headers, path: string, config: Configuration, rng: Random): (r: Result<Inbound, B3HeaderParseError>)
    ensures r.Failure? <==> Parse(headers).Failure?
    ensures r.Success? && r.value.tracingParts.Some? ==> r.value.responseHeaders == AsHeaders(r.value.tracingParts.value)
    ensures r.Success? && r.value.tracingParts.None? ==> r.value.responseHeaders == map[]
  {
    var read :- ReadIdsFromRequest(headers);
    var chosen := if read.Some? then read else GenerateIdsOnPathMatch(path, config, rng);
    if chosen.Some? then Success(Inbound(chosen, AsHeaders(chosen.value)))
    else Success(Inbound(None, map[]))
  }

  /** A request that carries ids keeps them: the decoded context is stored
      and echoed unchanged, whatever the path, configuration or draws. */
  lemma RequestContextWins(headers: Headers, path: string, config: Configuration, rng: Random)
    requires Parse(headers).Success? && !IsEmpty(Parse(headers).value)
    ensures Intercept(headers, path, config, rng)
         == Success(Inbound(Some(Parse(headers).value), AsHeaders(Parse(headers).value)))
  {
  }

  /** A request without ids on a matching path gets a fresh context: the
      configured format, a trace id of the configured width, a 64-bit span
      id, no parent and DEFER, echoed in the response. */
  lemma OriginatesOnPrefixMatch(headers: Headers, path: string, config: Configuration, rng: Random)
    requires Parse(headers).Success? && IsEmpty(Parse(headers).value)
    requires FoundPrefixMatch(path, config.initiateTracePathPrefixes)
    ensures Intercept(headers, path, config, rng).Success?
    ensures var out := Intercept(headers, path, config, rng).value;
      && out.tracingParts.Some?
      && var c := out.tracingParts.value;
      && !IsEmpty(c)
      && c.useB3Header == config.b3Header
      && c.traceId.Some? && |c.traceId.value| == HexLength(config.idLength) && IsLowerHex(c.traceId.value)
      && c.spanId.Some? && |c.spanId.value| == 16 && IsLowerHex(c.spanId.value)
      && c.parentSpanId.None? && c.sampled == DEFER
      && out.responseHeaders == AsHeaders(c)
  {
  }

  /** A request without ids on a path no prefix matches gets nothing:
      no stored context and no response header. */
  lemma NoContextOffPrefix(headers: Headers, path: string, config: Configuration, rng: Random)
    requires Parse(headers).Success? && IsEmpty(Parse(headers).value)
    requires !FoundPrefixMatch(path, config.initiateTracePathPrefixes)
    ensures Intercept(headers, path, config, rng) == Success(Inbound(None, map[]))
  {
  }

  /** Under the default configuration a request without trace headers gets,
      on a path starting with "/", a context of two 64-bit ids sent back as
      the trace and span headers only; on any other path it gets nothing. */
  lemma DefaultConfigurationOriginates(path: string, rng: Random)
    ensures |path| > 0 && path[0] == '/' ==>
              var t := NextId(ID_64_BITS, rng);
              var s := NextId(ID_64_BITS, Skip(rng, 1));
              && |t| == 16 && |s| == 16
              && Intercept(map[], path, DefaultConfiguration, rng)
                 == Success(Inbound(Some(TracingParts(false, Some(t), Some(s), None, DEFER)),
                                    map[TRACE_ID_HEADER := t, SPAN_ID_HEADER := s]))
    ensures !(|path| > 0 && path[0] == '/') ==>
              Intercept(map[], path, DefaultConfiguration, rng) == Success(Inbound(None, map[]))
  {
    DefaultPrefixMatches(path);
    NamesDistinct();
    assert Parse(map[]) == Success(EmptyParts(false));
    if |path| > 0 && path[0] == '/' {
      var t := NextId(ID_64_BITS, rng);
      var s := NextId(ID_64_BITS, Skip(rng, 1));
      var c := TracingParts(false, Some(t), Some(s), None, DEFER);
      assert GenerateIdsOnPathMatch(path, DefaultConfiguration, rng) == Some(c);
      var h := AsHeaders(c);
      assert h.Keys == {TRACE_ID_HEADER, SPAN_ID_HEADER};
      assert h == map[TRACE_ID_HEADER := t, SPAN_ID_HEADER := s];
    }
  }

  /** A malformed `b3` header is not defaulted: handling fails with the
      parse error carrying the raw value. */
  lemma MalformedB3Propagates(headers: Headers, path: string, config: Configuration, rng: Random)
    requires B3_HEADER in headers && Count(headers[B3_HEADER], '-') !in {0, 1, 3}
    ensures Intercept(headers, path, config, rng) == Failure(B3HeaderParseError(headers[B3_HEADER]))
  {
  }

  /** A sampling-only `b3: 0` carries no ids, so it is discarded and, under
      the default configuration, replaced by a fresh DEFER context. */
  lemma SamplingOnlyIsDiscarded(path: string, rng: Random)
    requires |path| > 0 && path[0] == '/'
    ensures Intercept(map[B3_HEADER := "0"], path, DefaultConfiguration, rng)
         == Success(Inbound(
              Some(TracingParts(false, Some(FormatLong(rng(0))), Some(FormatLong(rng(1))), None, DEFER)),
              AsHeaders(TracingParts(false, Some(FormatLong(rng(0))), Some(FormatLong(rng(1))), None, DEFER))))
  {
  }

  /** An inbound `b3: T-S` is echoed as the same `b3` value, and inbound
      `X-B3-TraceId`/`X-B3-SpanId` come back as the same two headers. */
  lemma EchoesInboundIds(t: string, s: string, path: string, config: Configuration, rng: Random)
    requires '-' !in t && '-' !in s
    ensures Intercept(map[B3_HEADER := t + "-" + s], path, config, rng).Success?
    ensures Intercept(map[B3_HEADER := t + "-" + s], path, config, rng).value.responseHeaders
         == map[B3_HEADER := t + "-" + s]
    ensures Intercept(map[TRACE_ID_HEADER := t, SPAN_ID_HEADER := s], path, config, rng)
         == Success(Inbound(Some(TracingParts(false, Some(t), Some(s), None, DEFER)),
                            map[TRACE_ID_HEADER := t, SPAN_ID_HEADER := s]))
  {
    ParseB3TwoPieces(t, s);
    AsB3HeaderDropsSampling(t, s, DEFER);
    NamesDistinct();
    var multi := map[TRACE_ID_HEADER := t, SPAN_ID_HEADER := s];
    ParseMultiHeaders(multi);
    var c := TracingParts(false, Some(t), Some(s), None, DEFER);
    assert Parse(multi) == Success(c);
    var h := AsHeaders(c);
    assert PARENT_SPAN_ID_HEADER !in h && SAMPLED_HEADER !in h && DEBUG_HEADER !in h;
    assert h.Keys == multi.Keys;
    assert h == multi;
  }

  /** The response headers decode back to the stored context whenever that
      context's encoding is one the decoder inverts. */
  lemma ResponseHeadersDecodeToContext(headers: Headers, path: string, config: Configuration, rng: Random)
    requires Intercept(headers, path, config, rng).Success?
    requires Intercept(headers, path, config, rng).value.tracingParts.Some?
    requires var c := Intercept(headers, path, config, rng).value.tracingParts.value;
      !c.useB3Header || (DashFreeIds(c) && B3RoundTrips(c))
    ensures var out := Intercept(headers, path, config, rng).value;
      Parse(out.responseHeaders) == Success(out.tracingParts.value)
  {
    var c := Intercept(headers, path, config, rng).value.tracingParts.value;
    if c.useB3Header {
      B3HeaderRoundTrip(c);
    } else {
      MultiHeaderRoundTrip(c);
    }
  }
}
