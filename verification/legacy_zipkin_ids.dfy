/** The earlier server-side version, which carries only a trace id and a
    span id (`TraceAndSpan`) and no parent or sampling. Id generation,
    configuration and prefix matching are the same code as the current
    version and are shared with it. */
module LegacyZipkinIds {
  import opened Wrappers
  import opened Text
  import opened HeaderNames
  import opened IdGenerator
  import ZipkinIds

  datatype TraceAndSpan = TraceAndSpan(b3Header: bool, traceId: string, spanId: string)

  /** The `IndexOutOfBoundsException` of reading a missing list element. */
  datatype IndexOutOfBounds = IndexOutOfBounds(index: nat, length: nat)

  /** What handling one request leaves behind. */
  datatype Inbound = Inbound(traceAndSpan: Option<TraceAndSpan>, responseHeaders: Headers)

  /** `readIdsFromRequest`: a `b3` header wins and its first two dash
      pieces are trace and span (reading the second piece of a value
      without `-` throws); otherwise both `X-B3-TraceId` and `X-B3-SpanId`
      are needed. */
  function ReadIdsFromRequest(headers: Headers): (r: Result<Option<TraceAndSpan>, IndexOutOfBounds>)
    ensures r.Failure? <==> B3_HEADER in headers && '-' !in headers[B3_HEADER]
    ensures B3_HEADER in headers && r.Success? ==>
              r.value.Some? && r.value.value.b3Header
              && r.value.value.traceId + "-" <= headers[B3_HEADER]
    ensures B3_HEADER !in headers ==>
              r == Success(if TRACE_ID_HEADER in headers && SPAN_ID_HEADER in headers
                           then Some(TraceAndSpan(false, headers[TRACE_ID_HEADER], headers[SPAN_ID_HEADER]))
                           else None)
  {
    if B3_HEADER in headers then
      var ids := Split(headers[B3_HEADER], '-');
      CountZero(headers[B3_HEADER], '-');
      if |ids| < 2 then Failure(IndexOutOfBounds(1, |ids|))
      else
        PrefixOfSplit(headers[B3_HEADER], '-');
        Success(Some(TraceAndSpan(true, ids[0], ids[1])))
    else
      var traceId := Get(headers, TRACE_ID_HEADER);
      var spanId := Get(headers, SPAN_ID_HEADER);
      if traceId.Some? && spanId.Some? then Success(Some(TraceAndSpan(false, traceId.value, spanId.value)))
      else Success(None)
  }

  /** The first piece of a split, followed by the delimiter, begins the
      string whenever there is a second piece. */
  lemma PrefixOfSplit(s: string, sep: char)
    requires |Split(s, sep)| >= 2
    ensures Split(s, sep)[0] + [sep] <= s
  {
  }

  /** `generateIdsOnPathMatch`: on a prefix match, a trace id of the
      configured width drawn first and a 64-bit span id drawn after it. */
  function GenerateIdsOnPathMatch(path: string, config: ZipkinIds.Configuration, rng: Random): (r: Option<TraceAndSpan>)
    ensures r.Some? <==> ZipkinIds.FoundPrefixMatch(path, config.initiateTracePathPrefixes)
    ensures r.Some? ==> r.value.b3Header == config.b3Header
    ensures r.Some? ==> r.value.traceId == NextId(config.idLength, rng)
    ensures r.Some? ==> r.value.spanId == NextId(ID_64_BITS, Skip(rng, DrawCount(config.idLength)))
  {
    if ZipkinIds.FoundPrefixMatch(path, config.initiateTracePathPrefixes) then
      Some(TraceAndSpan(config.b3Header, NextId(config.idLength, rng), NextId(ID_64_BITS, Skip(rng, DrawCount(config.idLength)))))
    else None
  }

  /** `setHeaders`: one `b3: T-S` header, or the trace and span headers. */
  function SetHeaders(ids: TraceAndSpan): (h: Headers)
    ensures ids.b3Header ==> h == map[B3_HEADER := ids.traceId + "-" + ids.spanId]
    ensures !ids.b3Header ==> h.Keys == {TRACE_ID_HEADER, SPAN_ID_HEADER}
    ensures !ids.b3Header ==> h[TRACE_ID_HEADER] == ids.traceId && h[SPAN_ID_HEADER] == ids.spanId
  {
    if ids.b3Header then map[B3_HEADER := ids.traceId + "-" + ids.spanId]
    else map[TRACE_ID_HEADER := ids.traceId, SPAN_ID_HEADER := ids.spanId]
  }

  /** The intercept block: request ids, else ids originated on a prefix
      match; whatever results is stored and its headers set. */
  function Intercept(headers: Headers, path: string, config: ZipkinIds.Configuration, rng: Random): (r: Result<Inbound, IndexOutOfBounds>)
    ensures r.Failure? <==> ReadIdsFromRequest(headers).Failure?
    ensures r.Success? && r.value.traceAndSpan.Some? ==> r.value.responseHeaders == SetHeaders(r.value.traceAndSpan.value)
    ensures r.Success? && r.value.traceAndSpan.None? ==> r.value.responseHeaders == map[]
  {
    var read :- ReadIdsFromRequest(headers);
    var chosen := if read.Some? then read else GenerateIdsOnPathMatch(path, config, rng);
    if chosen.Some? then Success(Inbound(chosen, SetHeaders(chosen.value)))
    else Success(Inbound(None, map[]))
  }

  /** A `b3` header's pieces past the second are ignored. */
  lemma B3ExtraPiecesIgnored(t: string, s: string, rest: string)
    requires '-' !in t && '-' !in s
    ensures ReadIdsFromRequest(map[B3_HEADER := t + "-" + s + "-" + rest]) == Success(Some(TraceAndSpan(true, t, s)))
  {
    var v := t + "-" + s + "-" + rest;
    assert v == t + ['-'] + (s + ['-'] + rest);
    SplitCons(t, '-', s + ['-'] + rest);
    SplitCons(s, '-', rest);
  }

  /** Reading back the headers written for some ids gives the same ids,
      provided the ids contain no `-` when they travel in one `b3` value. */
  lemma {:induction false} SetHeadersRoundTrip(ids: TraceAndSpan)
    requires ids.b3Header ==> '-' !in ids.traceId && '-' !in ids.spanId
    ensures ReadIdsFromRequest(SetHeaders(ids)) == Success(Some(ids))
  {
    if ids.b3Header {
      SplitJoin([ids.traceId, ids.spanId], '-');
      JoinSmall(ids.traceId, ids.spanId, "", "", '-');
    } else {
      NamesDistinct();
    }
  }

  /** Request ids are never replaced; ids are originated only when the
      request has none and the path matches a prefix. */
  lemma RequestIdsWin(headers: Headers, path: string, config: ZipkinIds.Configuration, rng: Random)
    requires ReadIdsFromRequest(headers).Success?
    ensures ReadIdsFromRequest(headers).value.Some? ==>
              Intercept(headers, path, config, rng).value.traceAndSpan == ReadIdsFromRequest(headers).value
    ensures ReadIdsFromRequest(headers).value.None? ==>
              (Intercept(headers, path, config, rng).value.traceAndSpan.Some?
               <==> ZipkinIds.FoundPrefixMatch(path, config.initiateTracePathPrefixes))
  {
  }

  /** Multi-header ids need both headers: one alone reads as no ids. */
  lemma MultiHeadersNeedBoth(t: string, s: string)
    ensures ReadIdsFromRequest(map[TRACE_ID_HEADER := t]) == Success(None)
    ensures ReadIdsFromRequest(map[SPAN_ID_HEADER := s]) == Success(None)
  {
  }

  /** `nextId` gives 16 or 32 hex characters by width. */
  lemma NextIdWidths(rng: Random)
    ensures |NextId(ID_64_BITS, rng)| == 16
    ensures |NextId(ID_128_BITS, rng)| == 32
  {
  }
}
