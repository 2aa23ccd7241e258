/** The single-header codec as the library's tests describe it,
    set beside the code as written: a three-piece value `T-S-C` decodes to
    trace, span and sampling, and a context with trace and span but no
    parent keeps its sampling code on encoding. */
module B3Intended {
  import opened Wrappers
  import opened Text
  import opened TracingPartsCodec

  /** The two ways the code as written departs from that: `T-S-1` is
      rejected, and ACCEPT without a parent is encoded as `T-S` and comes
      back as DEFER. */
  lemma AsWrittenCounterexamples()
    ensures ParseB3Header("T-S-1") == Failure(B3HeaderParseError("T-S-1"))
    ensures AsB3Header(TracingParts(true, Some("T"), Some("S"), None, ACCEPT)) == "T-S"
    ensures Parse(AsHeaders(TracingParts(true, Some("T"), Some("S"), None, ACCEPT)))
         == Success(TracingParts(true, Some("T"), Some("S"), None, DEFER))
  {
    assert "T-S-1" == "T" + "-" + "S" + "-" + "1";
    ParseB3ThreePiecesFails("T", "S", "1");
    assert "T-S" == "T" + "-" + "S";
    B3HeaderLosesSampling(TracingParts(true, Some("T"), Some("S"), None, ACCEPT));
  }

  /** Decoding that also accepts `T-S-C`. */
  function ParseB3HeaderIntended(header: string): (r: Result<TracingParts, B3HeaderParseError>)
    ensures r.Success? <==> Count(header, '-') in {0, 1, 2, 3}
    ensures r.Failure? ==> r.error == B3HeaderParseError(header)
    ensures Count(header, '-') != 2 ==> r == ParseB3Header(header)
  {
    var parts := Split(header, '-');
    if |parts| == 3 then
      Success(TracingParts(true, Some(parts[0]), Some(parts[1]), None, ParseSampled(Some(parts[2]))))
    else ParseB3Header(header)
  }

  /** Encoding that writes the sampling code unless it is DEFER with no
      parent to follow it. */
  function AsB3HeaderIntended(c: TracingParts): (r: string)
    ensures c.traceId.Some? && c.spanId.Some? && c.parentSpanId.None? ==>
              r == c.traceId.value + "-" + c.spanId.value
                   + (if c.sampled == DEFER then "" else "-" + AsHeader(c.sampled))
    ensures IsEmpty(c) ==> r == AsHeader(c.sampled)
  {
    var code := if c.sampled != DEFER || c.parentSpanId.Some? then Some(AsHeader(c.sampled)) else None;
    var t := c.traceId.GetOr("");
    var s := c.spanId.GetOr("");
    NotNullFour(c.traceId, c.spanId, code, c.parentSpanId);
    JoinSmall(t, s, AsHeader(c.sampled), "", '-');
    JoinSmall(AsHeader(c.sampled), "", "", "", '-');
    var parts := NotNull([c.traceId, c.spanId, code, c.parentSpanId]);
    if c.traceId.Some? && c.spanId.Some? && c.parentSpanId.None? then
      if c.sampled == DEFER then
        assert parts == [t, s];
        assert t + "-" + s + "" == t + ['-'] + s;
        Join(parts, '-')
      else
        assert parts == [t, s, AsHeader(c.sampled)];
        assert t + "-" + s + ("-" + AsHeader(c.sampled)) == t + ['-'] + s + ['-'] + AsHeader(c.sampled);
        Join(parts, '-')
    else
      Join(parts, '-')
  }

  /** The contexts B3 can express: trace and span together or neither, and
      a parent only under a trace and span. */
  predicate WellFormed(c: TracingParts)
  {
    && (c.traceId.Some? <==> c.spanId.Some?)
    && (c.parentSpanId.Some? ==> c.traceId.Some?)
  }

  /** Every well-formed context with dash-free ids survives the corrected
      encoder and decoder, whatever its sampling tag. */
  lemma IntendedRoundTrip(c: TracingParts)
    requires c.useB3Header && WellFormed(c) && DashFreeIds(c)
    ensures ParseB3HeaderIntended(AsB3HeaderIntended(c)) == Success(c)
  {
    var code := AsHeader(c.sampled);
    SampledRoundTrip(c.sampled);
    assert '-' !in code;
    var withCode := if c.sampled != DEFER || c.parentSpanId.Some? then Some(code) else None;
    NotNullFour(c.traceId, c.spanId, withCode, c.parentSpanId);
    var parts := NotNull([c.traceId, c.spanId, withCode, c.parentSpanId]);
    var enc := AsB3HeaderIntended(c);
    if c.traceId.None? {
      if c.sampled == DEFER {
        assert parts == [];
        assert enc == "";
        SplitNoSeparator("", '-');
      } else {
        assert parts == [code];
        SplitJoin(parts, '-');
      }
    } else if c.parentSpanId.None? && c.sampled == DEFER {
      assert parts == [c.traceId.value, c.spanId.value];
      SplitJoin(parts, '-');
    } else if c.parentSpanId.None? {
      assert parts == [c.traceId.value, c.spanId.value, code];
      SplitJoin(parts, '-');
    } else {
      assert parts == [c.traceId.value, c.spanId.value, code, c.parentSpanId.value];
      SplitJoin(parts, '-');
    }
  }

  /** The correction changes nothing where the code as written already
      round-trips: there both encoders write the same text. */
  lemma IntendedAgreesWhereAsWrittenRoundTrips(c: TracingParts)
    requires B3RoundTrips(c)
    ensures AsB3HeaderIntended(c) == AsB3Header(c)
  {
    var code := AsHeader(c.sampled);
    var withCode := if c.sampled != DEFER || c.parentSpanId.Some? then Some(code) else None;
    NotNullFour(c.traceId, c.spanId, withCode, c.parentSpanId);
    AsB3HeaderShape(c);
    if IdCount(c) == 3 {
      JoinSmall(c.traceId.value, c.spanId.value, code, c.parentSpanId.value, '-');
    } else if IdCount(c) == 2 {
      assert NotNull([c.traceId, c.spanId, withCode, c.parentSpanId]) == [c.traceId.value, c.spanId.value];
      JoinSmall(c.traceId.value, c.spanId.value, "", "", '-');
    } else if c.sampled != DEFER {
      JoinSmall(code, "", "", "", '-');
    }
  }

  /** The corrected pair meets the expectations the library's tests state. */
  lemma IntendedMatchesTests(t: string, s: string)
    requires '-' !in t && '-' !in s
    ensures ParseB3HeaderIntended(t + "-" + s + "-1") == Success(TracingParts(true, Some(t), Some(s), None, ACCEPT))
    ensures AsB3HeaderIntended(TracingParts(true, Some(t), Some(s), None, ACCEPT)) == t + "-" + s + "-1"
  {
    var c := TracingParts(true, Some(t), Some(s), None, ACCEPT);
    NotNullFour(c.traceId, c.spanId, Some("1"), None);
    assert NotNull([c.traceId, c.spanId, Some("1"), None]) == [t, s, "1"];
    JoinSmall(t, s, "1", "", '-');
    SplitJoin([t, s, "1"], '-');
    assert t + "-" + s + "-1" == t + ['-'] + s + ['-'] + "1";
  }
}
