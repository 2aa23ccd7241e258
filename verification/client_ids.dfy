/** The client-side derivation: an outbound call made under a configured
    context is sent as a child span of it. */
module ClientIds {
  import opened Wrappers
  import opened Text
  import opened HeaderNames
  import opened IdGenerator
  import opened TracingPartsCodec

  /** `partsForClientCall`: same format, trace and sampling; a fresh 64-bit
      span id; the configured span becomes the parent. */
  function PartsForClientCall(parts: TracingParts, rng: Random): (child: TracingParts)
    ensures child.useB3Header == parts.useB3Header
    ensures child.traceId == parts.traceId
    ensures child.sampled == parts.sampled
    ensures child.parentSpanId == parts.spanId
    ensures child.spanId == Some(NextId(ID_64_BITS, rng))
    ensures !IsEmpty(child)
  {
    TracingParts(parts.useB3Header, parts.traceId, Some(NextId(ID_64_BITS, rng)), parts.spanId, parts.sampled)
  }

  /** The headers appended to the outbound request, those of the derived
      context: a single `b3` header in b3 mode, and otherwise headers that
      decode to the derived context. */
  function SetHeaders(parts: TracingParts, rng: Random): (h: Headers)
    ensures h == AsHeaders(PartsForClientCall(parts, rng))
    ensures parts.useB3Header ==> h == map[B3_HEADER := AsB3Header(PartsForClientCall(parts, rng))]
    ensures parts.useB3Header ==> h.Keys == {B3_HEADER}
    ensures !parts.useB3Header ==> Parse(h) == Success(PartsForClientCall(parts, rng))
    ensures !parts.useB3Header ==> Get(h, SPAN_ID_HEADER) == Some(NextId(ID_64_BITS, rng))
  {
    var child := PartsForClientCall(parts, rng);
    if parts.useB3Header then AsHeaders(child)
    else
      MultiHeaderRoundTrip(child);
      AsHeaders(child)
  }

  /** The child's span differs from the configured span exactly when the
      fresh id does, and the child is a 16-digit hex span. */
  lemma ChildSpanIsFresh(parts: TracingParts, rng: Random)
    ensures PartsForClientCall(parts, rng).spanId != parts.spanId <==> parts.spanId != Some(FormatLong(rng(0)))
    ensures |PartsForClientCall(parts, rng).spanId.value| == 16
  {
  }

  /** In multi-header mode the outbound parent is the configured span and
      the outbound trace is the configured trace. */
  lemma MultiHeaderChildIds(parts: TracingParts, rng: Random)
    requires !parts.useB3Header
    ensures Get(SetHeaders(parts, rng), PARENT_SPAN_ID_HEADER) == parts.spanId
    ensures Get(SetHeaders(parts, rng), TRACE_ID_HEADER) == parts.traceId
  {
  }

  /** In multi-header mode DEBUG is sent as `X-B3-Flags: 1` without
      `X-B3-Sampled`. */
  lemma DebugChildUsesFlags(parts: TracingParts, rng: Random)
    requires !parts.useB3Header && parts.sampled == DEBUG
    ensures Get(SetHeaders(parts, rng), DEBUG_HEADER) == Some("1")
    ensures SAMPLED_HEADER !in SetHeaders(parts, rng)
  {
  }

  /** In b3 mode a configured context missing the trace or span id gives a
      child the single header cannot carry whole: without a span the
      sampling code is dropped, without a trace the trace is written
      "null" and the configured span (the child's parent) is lost. */
  lemma B3ChildOfPartialContext(parts: TracingParts, rng: Random)
    requires parts.useB3Header
    ensures parts.traceId.Some? && parts.spanId.None? ==>
              SetHeaders(parts, rng)[B3_HEADER] == parts.traceId.value + "-" + NextId(ID_64_BITS, rng)
    ensures parts.traceId.None? && parts.spanId.Some? ==>
              SetHeaders(parts, rng)[B3_HEADER] == "null-" + NextId(ID_64_BITS, rng)
    ensures parts.traceId.None? && parts.spanId.None? ==>
              SetHeaders(parts, rng)[B3_HEADER] == NextId(ID_64_BITS, rng) + "-" + AsHeader(parts.sampled)
  {
    AsB3HeaderShape(PartsForClientCall(parts, rng));
  }

  /** In b3 mode with trace and span configured, the outbound value has
      four pieces: trace, new span, sampling code, configured span. */
  lemma B3ChildHasFourPieces(parts: TracingParts, rng: Random)
    requires parts.useB3Header && parts.traceId.Some? && parts.spanId.Some?
    requires '-' !in parts.traceId.value && '-' !in parts.spanId.value
    ensures B3_HEADER in SetHeaders(parts, rng)
    ensures Split(SetHeaders(parts, rng)[B3_HEADER], '-')
         == [parts.traceId.value, NextId(ID_64_BITS, rng), AsHeader(parts.sampled), parts.spanId.value]
    ensures Parse(SetHeaders(parts, rng)) == Success(PartsForClientCall(parts, rng))
  {
    var child := PartsForClientCall(parts, rng);
    var newSpan := NextId(ID_64_BITS, rng);
    NextIdHasNoDash(ID_64_BITS, rng);
    AsB3HeaderShape(child);
    var code := AsHeader(parts.sampled);
    assert '-' !in code;
    JoinSmall(parts.traceId.value, newSpan, code, parts.spanId.value, '-');
    SplitJoin([parts.traceId.value, newSpan, code, parts.spanId.value], '-');
    B3HeaderRoundTrip(child);
  }
}
