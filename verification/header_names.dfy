/** The B3 header names, spelled as the library emits them, and the header
    map the request and response pipelines hand over. */
module HeaderNames {
  import opened Wrappers

  const B3_HEADER: string := "b3"
  const TRACE_ID_HEADER: string := "X-B3-TraceId"
  const SPAN_ID_HEADER: string := "X-B3-SpanId"
  const PARENT_SPAN_ID_HEADER: string := "X-B3-ParentSpanId"
  const SAMPLED_HEADER: string := "X-B3-Sampled"
  const DEBUG_HEADER: string := "X-B3-Flags"

  /** Every name the codec reads or writes. */
  const B3_NAMES: set<string> :=
    {B3_HEADER, TRACE_ID_HEADER, SPAN_ID_HEADER, PARENT_SPAN_ID_HEADER, SAMPLED_HEADER, DEBUG_HEADER}

  /** A header map: one value per name, names matched exactly. */
  type Headers = map<string, string>

  /** `headers[name]`: the value, or `null` when the header is missing. */
  function Get(headers: Headers, name: string): (v: Option<string>)
    ensures v.Some? <==> name in headers
    ensures v.Some? ==> v.value == headers[name]
  {
    if name in headers then Some(headers[name]) else None
  }

  /** The six header names are pairwise distinct. */
  lemma NamesDistinct()
    ensures |B3_NAMES| == 6
  {
  }
}
