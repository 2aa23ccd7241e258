# B3 trace-context codec for the Ktor Zipkin features

A Dafny model of the core of `ktor-features-zipkin`, the Ktor server and client features that carry
openzipkin B3 trace identity across HTTP calls:

- the sampling tag `Sampled` and its header codes;
- the immutable `TracingParts` context, decoded from a `b3` header or from the `X-B3-*` header family and
  encoded back into headers;
- `nextId`, which renders 64-bit random draws as zero-padded lowercase hex;
- the server decision in `ZipkinIds`: keep the request's context, or originate one when the request
  path starts with a configured prefix, and echo the chosen context into the response;
- the client derivation in `ClientIds`: send an outbound call as a child span of the configured context
  (the configured context is an immutable value, so deriving the child leaves it as it was);
- the earlier `TraceAndSpan` versions of both features, in package `mjs.kotlin.features`.

Modules, one per source concern:

| module | file | models |
|---|---|---|
| `Wrappers` | wrappers.dfy | Kotlin nullables (`Option`) and thrown exceptions (`Result`) |
| `Text` | text.dfy | Kotlin `split` (keeps empty pieces), `joinToString`, `startsWith` |
| `HeaderNames` | header_names.dfy | the six header names and the header map |
| `IdGenerator` | next_id.dfy | `IdLength`, `nextId`, `%016x` rendering |
| `TracingPartsCodec` | tracing_parts.dfy | `Sampled`, `TracingParts`, `parseB3Header`, `parse`, `asB3Header`, `asHeaders`, `isEmpty` |
| `ZipkinIds` | zipkin_ids.dfy | server `Configuration`, `readIdsFromRequest`, `generateIdsOnPathMatch`, `foundPrefixMatch`, the intercept block, `setHeaders` |
| `ClientIds` | client_ids.dfy | `partsForClientCall`, client `setHeaders` |
| `LegacyZipkinIds` | legacy_zipkin_ids.dfy | the `TraceAndSpan` server feature |
| `LegacyClientIds` | legacy_client_ids.dfy | the `TraceAndSpan` client feature |
| `B3Intended` | b3_intended.dfy | the single-header codec as the library's tests describe it (see Findings) |

The random generator is replaced by `Random = nat -> Long`, the values successive `nextLong()` calls
would return. A 64-bit id consumes one draw and a 128-bit id two; origination draws the trace id first
and the span id after it (`Skip`). Headers are a `map<string, string>` from exact header name to one
value. The server's request handling is a pure function of (request headers, request path,
configuration, draws). It returns the stored context and the response headers, or the parse error the
code throws.

The model follows the code where the code and its tests disagree; both disagreements are under
Findings. The default path prefixes are `["/"]` (src/main/kotlin/ZipkinIds.kt:32), so only paths that
begin with "/" originate a trace (`ZipkinIds.DefaultPrefixMatches`).

## Model

| member | source | states |
|---|---|---|
| Text.Split | src/TracingParts.kt:43 | `split("-")` gives one more piece than there are dashes, and no piece contains a dash |
| Text.SplitJoin | src/TracingParts.kt:71 | splitting a dash-join of dash-free pieces gives the pieces back |
| Text.JoinSplit | src/TracingParts.kt:43 | joining the pieces of a split gives the original string |
| HeaderNames.NamesDistinct | src/TracingParts.kt:5-10 | the six header names are pairwise distinct |
| IdGenerator.FormatLong | src/main/kotlin/NextId.kt:10 | `%016x` of a `Long` is exactly 16 characters, all in `0-9a-f` |
| IdGenerator.ParseFormatLong | src/main/kotlin/NextId.kt:10 | a negative draw renders as its two's-complement value: reading the hex back as a signed 64-bit value gives the draw |
| IdGenerator.FormatLongInjective | src/main/kotlin/NextId.kt:10 | distinct draws give distinct 16-character ids |
| IdGenerator.FormatLongOnto | src/main/kotlin/NextId.kt:10 | every 16-digit lowercase hex string is the rendering of some draw, so rendering is a bijection |
| IdGenerator.HexValueOfToHex | src/main/kotlin/NextId.kt:10 | the zero-padded hex rendering of a value denotes that value |
| IdGenerator.ToHexOfHexValue | src/main/kotlin/NextId.kt:10 | rendering the value of a hex string at its own width gives the string back |
| IdGenerator.NextId | src/main/kotlin/NextId.kt:9-12 | 16 characters for 64 bits and 32 for 128, all lowercase hex; a 128-bit id is the first draw's rendering followed by the second's |
| IdGenerator.DefaultIdIs64Bits | src/main/kotlin/NextId.kt:9 | the default width renders exactly one draw as 16 characters |
| IdGenerator.NextIdInjective | src/main/kotlin/NextId.kt:9-12 | two ids of one width are equal exactly when the draws they consume are equal |
| IdGenerator.NextIdHasNoDash | src/main/kotlin/NextId.kt:9-12 | a generated id never contains the b3 delimiter |
| TracingPartsCodec.AsHeader | src/TracingParts.kt:15-20 | the code is one of "0", "1", "d", "", and is "" exactly for DEFER |
| TracingPartsCodec.ParseSampled | src/TracingParts.kt:23-28 | "0", "1" and "d" and nothing else decode to DENY, ACCEPT and DEBUG |
| TracingPartsCodec.ParseSampledDefault | src/TracingParts.kt:23-28 | the decoder is total: every value outside the three codes, absent included, gives DEFER |
| TracingPartsCodec.SampledRoundTrip | src/TracingParts.kt:15-28 | decoding a tag's code gives the tag, and distinct tags have distinct codes |
| TracingPartsCodec.IsEmpty | src/TracingParts.kt:98 | a context is empty exactly when none of the three ids is present, that is, when it is the default context up to format and sampling |
| TracingPartsCodec.IsEmptyIgnoresSamplingAndFormat | src/TracingParts.kt:98 | emptiness depends on the three ids only, not on sampling or format |
| TracingPartsCodec.ParseB3Header | src/TracingParts.kt:42-49 | succeeds exactly when the value has 0, 1 or 3 dashes, yields b3 mode, is empty exactly for a dash-free value; otherwise fails carrying the raw value |
| TracingPartsCodec.ParseB3OnePiece | src/TracingParts.kt:45 | a dash-free value is a sampling code with all ids absent |
| TracingPartsCodec.ParseB3TwoPieces | src/TracingParts.kt:46 | `T-S` gives trace T, span S, no parent, DEFER |
| TracingPartsCodec.ParseB3FourPieces | src/TracingParts.kt:47 | `T-S-C-P` gives trace T, span S, parent P, and the tag decoded from C |
| TracingPartsCodec.ParseB3ThreePiecesFails | src/TracingParts.kt:48 | every three-piece value `T-S-C` fails with an error carrying that value |
| TracingPartsCodec.Parse | src/TracingParts.kt:52-63 | a present `b3` header wins and gives b3 mode; without it decoding cannot fail and gives multi-header mode |
| TracingPartsCodec.ParseMultiHeaders | src/TracingParts.kt:55-63 | without `b3` each id comes from its own header; any `X-B3-Flags` value gives DEBUG whatever `X-B3-Sampled` says |
| TracingPartsCodec.ParseIgnoresOtherHeaders | src/TracingParts.kt:52-63 | headers outside the six B3 names never change the result |
| TracingPartsCodec.AsB3Header | src/TracingParts.kt:66-73 | an empty context is written as its bare sampling code, and the value contains a dash exactly when some id is present |
| TracingPartsCodec.AsB3HeaderShape | src/TracingParts.kt:66-73 | for each number of present ids, the b3 text; with exactly two ids it is `"$traceId-$spanId"`, the sampling code is dropped and a missing id prints as "null" |
| TracingPartsCodec.AsB3HeaderDropsSampling | src/TracingParts.kt:67-69 | trace and span without parent encode as `T-S` whatever the sampling tag |
| TracingPartsCodec.AsHeaders | src/TracingParts.kt:75-96 | b3 mode gives exactly one `b3` entry; multi mode gives one header per present id, `X-B3-Sampled` exactly for ACCEPT/DENY and `X-B3-Flags: 1` exactly for DEBUG, and never `b3` |
| TracingPartsCodec.AsHeadersSamplingExclusive | src/TracingParts.kt:89-94 | `X-B3-Sampled` and `X-B3-Flags` never appear together, DEFER emits neither, and a context is empty exactly when only sampling headers are emitted |
| TracingPartsCodec.MultiHeaderRoundTrip | src/TracingParts.kt:52-96 | every multi-header context decodes back from its own headers |
| TracingPartsCodec.B3HeaderRoundTrip | src/TracingParts.kt:42-73 | a b3 context with dash-free ids decodes back from its header when all three ids are present, or only trace and span with DEFER, or no ids |
| TracingPartsCodec.B3HeaderLosesSampling | src/TracingParts.kt:66-69 | trace and span without parent come back from a b3 header with DEFER in place of their tag |
| TracingPartsCodec.B3HeaderEcho | src/TracingParts.kt:42-73 | an accepted b3 value with a canonical sampling code is re-encoded to the same text |
| ZipkinIds.FoldStartsWith | src/main/kotlin/ZipkinIds.kt:80-81 | the `||`-fold over the prefixes is true exactly when the seed is true or some prefix starts the path |
| ZipkinIds.FoundPrefixMatch | src/main/kotlin/ZipkinIds.kt:79-81 | true exactly when some configured prefix starts the path |
| ZipkinIds.DefaultPrefixMatches | src/main/kotlin/ZipkinIds.kt:32 | the default prefixes `["/"]` match exactly the paths starting with "/"; an empty list matches nothing |
| ZipkinIds.ReadIdsFromRequest | src/main/kotlin/ZipkinIds.kt:69-72 | none exactly when the decoded context is empty; a non-empty one is returned unchanged; a parse failure propagates |
| ZipkinIds.GenerateIdsOnPathMatch | src/main/kotlin/ZipkinIds.kt:74-77 | a context exactly on a prefix match, with the configured format, a trace id of the configured width from the first draws, a 64-bit span id from the next draw, no parent and DEFER |
| ZipkinIds.Intercept | src/main/kotlin/ZipkinIds.kt:54-63 | fails exactly when decoding fails; a stored context has exactly its `asHeaders()` as response headers; no context means no headers |
| ZipkinIds.RequestContextWins | src/main/kotlin/ZipkinIds.kt:56-59 | a non-empty inbound context is stored and echoed unchanged whatever the path, configuration and draws |
| ZipkinIds.OriginatesOnPrefixMatch | src/main/kotlin/ZipkinIds.kt:56-63 | without inbound ids on a matching path, a non-empty context is stored with 16- or 32-character trace id, 16-character span id, no parent, DEFER, the configured format |
| ZipkinIds.NoContextOffPrefix | src/main/kotlin/ZipkinIds.kt:60-63 | without inbound ids on a non-matching path nothing is stored and no header is set |
| ZipkinIds.DefaultConfigurationOriginates | src/main/kotlin/ZipkinIds.kt:29-33 | under the default configuration (`b3Header = false`, 64-bit ids, prefixes `["/"]`) a request without trace headers on a path starting with "/" gets two 16-character ids sent back as exactly the trace and span headers; on any other path it gets nothing |
| ZipkinIds.MalformedB3Propagates | src/main/kotlin/ZipkinIds.kt:69-72 | a `b3` value with a dash count outside {0, 1, 3} makes handling fail with the raw value |
| ZipkinIds.SamplingOnlyIsDiscarded | src/main/kotlin/ZipkinIds.kt:69-72 | `b3: 0` carries no ids, so under the default configuration it is replaced by a fresh multi-header DEFER context |
| ZipkinIds.EchoesInboundIds | src/main/kotlin/ZipkinIds.kt:83-87 | inbound `b3: T-S` comes back as the same `b3` value; inbound trace and span headers come back as exactly those two headers |
| ZipkinIds.ResponseHeadersDecodeToContext | src/main/kotlin/ZipkinIds.kt:83-87 | the response headers decode to the stored context whenever its encoding is invertible |
| ClientIds.PartsForClientCall | src/main/kotlin/ClientIds.kt:49-50 | the child keeps format, trace and sampling, takes the configured span as parent, gets the fresh id as span, and is never empty |
| ClientIds.SetHeaders | src/main/kotlin/ClientIds.kt:52-56 | the outbound headers are exactly `asHeaders()` of the child context: in b3 mode the single `b3` header holding its `asB3Header()`; in multi mode headers that decode to the child, with the fresh span id |
| ClientIds.ChildSpanIsFresh | src/main/kotlin/ClientIds.kt:50 | the child's span differs from the configured span exactly when the fresh id does, and has 16 characters |
| ClientIds.MultiHeaderChildIds | src/main/kotlin/ClientIds.kt:49-56 | in multi mode the outbound parent is the configured span and the outbound trace the configured trace |
| ClientIds.DebugChildUsesFlags | src/main/kotlin/ClientIds.kt:52-56 | in multi mode DEBUG is sent as `X-B3-Flags: 1` without `X-B3-Sampled` |
| ClientIds.B3ChildOfPartialContext | src/main/kotlin/ClientIds.kt:49-56 | in b3 mode a configured context without span sends `T-<new span>` (no sampling code), one without trace sends `null-<new span>` (the parent is lost), and one without either sends `<new span>-<code>` |
| ClientIds.B3ChildHasFourPieces | src/main/kotlin/ClientIds.kt:49-50 | in b3 mode with trace and span, the outbound value splits into trace, new span, sampling code, configured span, and decodes to the child |
| LegacyZipkinIds.ReadIdsFromRequest | src/ZipkinIds.kt:100-111 | fails exactly for a `b3` value without a dash; otherwise `b3` wins with its first piece as trace; without `b3` ids need both headers |
| LegacyZipkinIds.PrefixOfSplit | src/ZipkinIds.kt:103-104 | the first piece of a split followed by the delimiter begins the value |
| LegacyZipkinIds.B3ExtraPiecesIgnored | src/ZipkinIds.kt:101-105 | pieces after the second are ignored |
| LegacyZipkinIds.MultiHeadersNeedBoth | src/ZipkinIds.kt:106-110 | a trace or span header alone reads as no ids |
| LegacyZipkinIds.GenerateIdsOnPathMatch | src/ZipkinIds.kt:113-116 | ids exactly on a prefix match, in the configured format, trace id of the configured width drawn before the 64-bit span id |
| LegacyZipkinIds.SetHeaders | src/ZipkinIds.kt:122-128 | b3 mode writes one `b3: T-S`; otherwise exactly the trace and span headers |
| LegacyZipkinIds.Intercept | src/ZipkinIds.kt:85-95 | fails exactly when reading fails; stored ids have exactly their headers set; no ids means no headers |
| LegacyZipkinIds.RequestIdsWin | src/ZipkinIds.kt:87-90 | request ids are never replaced; ids are originated only without request ids and exactly on a prefix match |
| LegacyZipkinIds.SetHeadersRoundTrip | src/ZipkinIds.kt:100-128 | reading back the headers written for some ids gives the same ids, when b3-mode ids have no dash |
| LegacyZipkinIds.NextIdWidths | src/ZipkinIds.kt:26-29 | the legacy `nextId` gives 16 or 32 characters by width |
| LegacyClientIds.SetHeaders | src/ClientIds.kt:29-36 | b3 mode forwards `traceId-spanId` unchanged; multi mode sends the configured trace and a fresh span; never parent or sampling headers |
| LegacyClientIds.SetHeadersReadBack | src/ClientIds.kt:29-36 | the legacy server reader reads the outbound headers back as the configured ids in b3 mode (dash-free ids), and as the configured trace with the fresh span otherwise |
| LegacyClientIds.OutboundHeaderCount | src/ClientIds.kt:29-36 | one header in b3 mode, two otherwise; the multi-mode span equals the configured one exactly when the draw renders to it |
| B3Intended.AsWrittenCounterexamples | src/TracingParts.kt:42-73 | `T-S-1` is rejected with itself as the error, and trace `T`, span `S`, ACCEPT, no parent is encoded `T-S` and decodes back as DEFER |
| B3Intended.AsB3HeaderIntended | src/TracingParts.kt:66-73 | the corrected encoder writes trace and span without parent as `T-S-C`, dropping the code only for DEFER, and an empty context as its bare code |
| B3Intended.ParseB3HeaderIntended | src/TracingParts.kt:42-49 | the corrected decoder accepts 0 to 3 dashes and agrees with the code except on three pieces |
| B3Intended.IntendedRoundTrip | src/TracingParts.kt:42-73 | with the corrected pair, every well-formed b3 context with dash-free ids round-trips, whatever its sampling tag |
| B3Intended.IntendedAgreesWhereAsWrittenRoundTrips | src/TracingParts.kt:66-73 | the corrected encoder writes the same text as the code wherever the code already round-trips |
| B3Intended.IntendedMatchesTests | src/TracingParts.kt:42-73 | the corrected pair maps `T-S-1` to trace, span and ACCEPT and back, for all dash-free T and S |

## Left out

- Ktor plumbing: feature installation, pipeline phases, `AttributeKey` storage, `response.header`, `HeadersBuilder.append` and `request.path()` are framework calls. The stored attribute and the headers set are returned as values instead.
- Case-insensitive header lookup and multi-valued headers: the header map is an exact-name map with one value per name.
- The pseudorandom generator (`Random(System.nanoTime())`) and its concurrent use: draws are a parameter, and nothing is said about uniqueness or distribution.
- `String.format` in general: only the `%016x` rendering of a `Long` is modelled, directly as hex digits.
- `zipkinMdc` in both versions: logging (MDC) integration.
- `ApplicationCall.tracingParts` / `ApplicationCall.traceAndSpan`: attribute lookups in the framework.
- The text of the legacy `IndexOutOfBoundsException` message: the error records only the index and the list length.
- The text of the `B3HeaderParseException` message: the error records only the raw `b3` value it is built from.
- The order in which headers are emitted: `asHeaders()` builds an insertion-ordered map and `setHeaders` appends its entries in that order, but the header map here is unordered, so the model says which headers are set and with what values, not in what order.
- `ZipkinIds.Intercept` and `LegacyZipkinIds.Intercept` fold in `setHeaders`, since that function only copies `asHeaders()` (or the two id headers) onto the response one by one.
- The legacy `nextId`, `IdLength` and `Configuration` are the same code as the current ones and are shared with them rather than declared twice.

## Findings

| source | as written | input that shows it | evidently intended | confidence | as-written member | corrected member |
|---|---|---|---|---|---|---|
| src/TracingParts.kt:44-48 | three dash pieces fall into the error branch | `b3: T-S-1` | trace T, span S, ACCEPT, no parent, as src/test/kotlin/TracingPartsSpec.kt:49-57, test/TracingPartsSpec.kt:40-46 and test/TracingPartsTest.kt:27-31 expect | high; not executed | TracingPartsCodec.ParseB3ThreePiecesFails, B3Intended.AsWrittenCounterexamples | B3Intended.ParseB3HeaderIntended, B3Intended.IntendedRoundTrip |
| src/TracingParts.kt:67-69 | the sampling code is never null, so the three-entry case fires for trace and span without parent and drops the code | `TracingParts(true, T, S, null, ACCEPT)` encodes to `T-S` | `T-S-1`, as src/test/kotlin/TracingPartsSpec.kt:152-160 and test/TracingPartsTest.kt:143-147 expect | high; not executed | TracingPartsCodec.AsB3HeaderDropsSampling, B3Intended.AsWrittenCounterexamples | B3Intended.AsB3HeaderIntended, B3Intended.IntendedRoundTrip |

The server and client modules keep the code as written, because that is what the library sends and
accepts. `B3Intended` is the corrected codec, and `IntendedAgreesWhereAsWrittenRoundTrips` shows the
two encoders differ only in the lossy case.
