/** The earlier client-side version: it forwards the configured ids
    instead of deriving a child context. */
module LegacyClientIds {
  import opened Wrappers
  import opened HeaderNames
  import opened IdGenerator
  import opened LegacyZipkinIds

  /** `setHeaders`: in b3 mode the configured `traceId-spanId` unchanged;
      otherwise the configured trace id with a freshly generated span id.
      No parent or sampling header is ever sent. */
  function SetHeaders(ids: TraceAndSpan, rng: Random): (h: Headers)
    ensures ids.b3Header ==> h == map[B3_HEADER := ids.traceId + "-" + ids.spanId]
    ensures !ids.b3Header ==> h.Keys == {TRACE_ID_HEADER, SPAN_ID_HEADER}
    ensures !ids.b3Header ==> h[TRACE_ID_HEADER] == ids.traceId
    ensures !ids.b3Header ==> h[SPAN_ID_HEADER] == NextId(ID_64_BITS, rng)
    ensures PARENT_SPAN_ID_HEADER !in h && SAMPLED_HEADER !in h && DEBUG_HEADER !in h
  {
    NamesDistinct();
    if ids.b3Header then map[B3_HEADER := ids.traceId + "-" + ids.spanId]
    else map[TRACE_ID_HEADER := ids.traceId, SPAN_ID_HEADER := NextId(ID_64_BITS, rng)]
  }

  /** The server reader gets back what the client sent: in b3 mode the
      configured ids when they have no dash, otherwise the configured trace
      with the fresh span. */
  lemma SetHeadersReadBack(ids: TraceAndSpan, rng: Random)
    requires ids.b3Header ==> '-' !in ids.traceId && '-' !in ids.spanId
    ensures ReadIdsFromRequest(SetHeaders(ids, rng))
         == Success(Some(TraceAndSpan(ids.b3Header, ids.traceId, if ids.b3Header then ids.spanId else NextId(ID_64_BITS, rng))))
  {
    if ids.b3Header {
      SetHeadersRoundTrip(ids);
    } else {
      NamesDistinct();
    }
  }

  /** One header in b3 mode, two otherwise; in multi-header mode the span
      sent is the configured one only if the draw renders to it. */
  lemma OutboundHeaderCount(ids: TraceAndSpan, rng: Random)
    ensures |SetHeaders(ids, rng)| == (if ids.b3Header then 1 else 2)
    ensures !ids.b3Header ==> (SetHeaders(ids, rng)[SPAN_ID_HEADER] == ids.spanId <==> ids.spanId == FormatLong(rng(0)))
  {
  }
}
