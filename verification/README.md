# Verification of the opal runtime

A model of the core of opal's C++ runtime, and proofs about it. Code that
changes state step by step is modelled by classes and methods with loops; each
method is proved equal to a function, and the theorems are about the
functions, over every input, every run, or both.

- **Regex engine** (`Regex*.dfy`). `RegexSyntax` says what a parse tree
  matches. `RegexGrammar` is the grammar as functions and `RegexParser` the
  recursive-descent parser; `RegexSpelling`, `RegexReads` and `RegexSpelled`
  say which patterns it accepts. `RegexCompiler` emits and patches the
  program, `RegexProgram` shows that the code means the tree, `RegexSearch` is
  the stamped simulation, `RegexCorrect` and `RegexWrap` show when it is right.
- **WebSocket session** (`Ws*.dfy`). `WsSpec` has one function per critical
  section or strand handler, `WsSession` the class with the session's fields.
  `WsRuns` interleaves facade calls, posted closures, wire completions and
  deadlines; `WsSafety`, `WsOrder`, `WsSends` and `WsWakes` hold the theorems.
- **In-memory WebSocket pair** (`Pair*.dfy`), in the same three layers.
- **Event-stream frames** (`Frame*.dfy`, `Crc32.dfy`, `WireInts.dfy`).
- **CBOR** (`Cbor*.dfy`): the decoder against spelling trees, which say all
  the ways a document may be written.
- **Timestamps** (`Calendar.dfy`, `Timestamp*.dfy`, `DateTime.dfy`,
  `HttpDate.dfy`).
- **HTTP/1.1** (`Http1*.dfy`): the request writer and the message reader over
  a connection that delivers chunks.
- **Routing** (`Uri*.dfy`, `Router*.dfy`): escapes, targets and query strings;
  patterns, ranking, registration and dispatch.
- **Access log** (`AccessLog*.dfy`), held against a reader of JSON objects
  (RFC 8259) and the definition of UTF-8 (RFC 3629).
- **Metrics** (`Metrics*.dfy`): the built-in families against the history of
  calls.
- **Base64** (`Base64.dfy`).

## Where the code and its comments differ

The model follows the code.

- `runtime/include/opal/core/regex.h:38-43` promises steps of at most program
  size times (text + 2); (text + 1) is proved.
- `regex.cc:646-659`: the stamps are 32 bits wide and wrap. Search is right for
  all texts of a length exactly when that length is at most 2^32 - 2.
- `regex.cc:551-556`: the program limit bounds the compiler's work only where
  nothing that takes no instruction is required more than once.
- `beast_transport.cc:1007-1008` says that every terminal transition takes both
  parked callbacks. A failed write (844-850) leaves a parked receive, and once
  a close is requested (685-688) only an abort answers it.
- `beast_transport.cc:668` sets `peer_closed_` on a failed session too, so the
  two end flags do not exclude each other.
- `beast_transport.cc:362-428`: the one-outstanding-receive rule looks at the
  parked callback and the blocked receivers and not at completions already
  posted, so a second receive can overtake the first.
- `beast_transport.cc:499-541`: a blocking send reads a flag that a later
  asynchronous send's write may have overwritten.
- `http1.cc:104`: a sized message followed by further bytes is an error or
  not depending on how the reads fall. A request without a content-length
  takes as its body whatever came with its last header bytes.
- `router.cc:185-192`: the Allow text of a method registered under the empty
  name is empty, so a target that only it matches gets 404.
- `timestamp.cc:160-167` subtracts the offset after the field checks, so a
  parsed date-time can lie up to a day outside the years 0000 to 9999.

## Model

| member | source | states |
|---|---|---|
| RegexSpelled.AcceptsSpellings | runtime/src/core/regex.cc:94-460 | The parser accepts a pattern with tree n exactly when the pattern is one of the legal spellings of n: every escape, class, range, group prefix and quantifier, nested no deeper than the limit. Everything else is an error. |
| RegexShow.RoundTrip | runtime/src/core/regex.cc:94-460 | Every well-formed tree has a pattern of its own that reads back as that tree, or as the nesting error exactly when it nests too deeply. |
| RegexParser.Parser.Parse | runtime/src/core/regex.cc:100-106 | The parser that moves pos_ along the pattern computes the grammar, errors included. |
| RegexCompiler.RegexCompiler.Emit | runtime/src/core/regex.cc:501-577 | Emission succeeds exactly when the tree fits the 65536-instruction program; the code it appends is laid out for the tree and leaves earlier code alone; it runs once per copied node. |
| RegexProgram.FragmentMeansTree | runtime/src/core/regex.cc:501-577 | Code laid out for a tree leads from its start to its end over t[i..j] exactly when the tree matches t[i..j]: repeats with empty bodies and assertions included. |
| RegexCompiler.CallsBounded | runtime/src/core/regex.cc:551-577 | Where nothing that takes no instruction is required twice, emission runs at most twice per node and instruction. |
| Regex.NestedPatternsCompile | runtime/src/core/regex.cc:551-556 | Without that condition there is no such bound: k nested {1024,1024} around nothing is a pattern of k + 1 nodes and no instructions whose emission runs at least 1024^k times. |
| Regex.Compile | runtime/src/core/regex.cc:463-480 | Compiling a pattern: the parser's error, the size error, or code for exactly that tree closed by the match instruction; the emission work is bounded as above, also when it fails. |
| RegexSearch.Search | runtime/src/core/regex.cc:637-667 | The loops over thread lists and the stamp array compute the stamped simulation and its step count. |
| RegexCorrect.SearchMeansFound | runtime/src/core/regex.cc:584-667 | For every text of at most 2^32 - 2 bytes, the stamped simulation of a tree's program answers true exactly when some substring matches the tree. |
| RegexWrap.SearchRightIffStampsFit | runtime/src/core/regex.cc:646-659 | The length limit is exact: all searches of texts of n bytes are right if and only if the 32-bit stamps do not wrap, n <= 2^32 - 2. |
| RegexCorrect.SearchIsLinear | runtime/src/core/regex.cc:584-667 | The steps never exceed program size times (text length + 1), one pass less than the header file promises. |
| Regex.CompileAndSearch | runtime/src/core/regex.cc:582-667 | From pattern text to answer: the parser's error, the size error, or the right answer in linear work. |
| WsSafety.StepKeepsInv | runtime/src/http/beast_transport.cc:645-976 | Every step of a session (a facade call, a posted closure, a wire completion, a deadline, an abort) keeps the whole invariant. |
| WsSafety.RunsKeepInv | runtime/src/http/beast_transport.cc:285-1033 | Every world of every run satisfies the invariant. |
| WsSafety.OneOfEach | runtime/src/http/beast_transport.cc:645-661 | In every run there is at most one outstanding read, at most one outstanding write or close, at most one close ever, no read armed after it, and no write or close armed over another. |
| WsSafety.TakenInOrder | runtime/src/http/beast_transport.cc:746-769 | Messages leave the queue in wire order, none lost and none twice; the queue holds at most eight; a parked receive means an empty queue. |
| WsOrder.OrderBreaks | runtime/src/http/beast_transport.cc:362-428 | Messages reach the application in wire order across a step exactly when it does not hand over a message, or fire a posted completion, ahead of one that is still posted. |
| WsOrder.DeliversInOrder | runtime/src/http/beast_transport.cc:320-428 | In every run in which no receive is made while a completion is posted, what the application has, what is posted and what is queued are, in this order, what arrived. |
| WsOrder.OutOfOrder | runtime/src/http/beast_transport.cc:384-428 | The condition is needed: for any two messages there is a run in which they arrive in one order and reach the application in the other. |
| WsSafety.AtMostOnce | runtime/src/http/beast_transport.cc:777-805 | In every run a call is answered at most once, and never before it is made. |
| WsSafety.DeadlineHitsItsOwn | runtime/src/http/beast_transport.cc:467-484 | A deadline answers nothing, or times out exactly the park it was armed for, and consumes no message. |
| WsSafety.EndMeansDrained | runtime/src/http/beast_transport.cc:320-361 | Whoever is told that the stream ended finds every arrived message taken. |
| WsSafety.FailedWriteStrands | runtime/src/http/beast_transport.cc:844-850 | A step leaves a receive parked on a failed session exactly when it is a failed write completion that finds one parked; the comment at 1007-1008 promises otherwise. |
| WsSafety.OnlyAbortUnsticks | runtime/src/http/beast_transport.cc:627-643 | Once the close is requested as well, such a receive is answered by an abort and by no other step. |
| WsSafety.CloseStrands | runtime/src/http/beast_transport.cc:685-688 | That state is reachable: a run that ends in it. |
| WsSafety.BothFlags | runtime/src/http/beast_transport.cc:668-675 | A step makes a session both failed and closed by its peer exactly when the peer's close is read after the failure. |
| WsSends.GoesOutOnce | runtime/src/http/beast_transport.cc:807-828 | In every run no message goes out on the wire twice, and only messages of calls that were made. |
| WsSends.AsyncSendOutcome | runtime/src/http/beast_transport.cc:830-875 | An asynchronous send that had its write reports how exactly that write ended. |
| WsSends.BlockingSendOutcome | runtime/src/http/beast_transport.cc:486-523 | A blocking send that says sent was sent; one whose write succeeded reports failure exactly when another send has since had a write that did not succeed. |
| WsSends.SentMeansGoneOut | runtime/src/http/beast_transport.cc:486-567 | Any send that reports success has its message on the wire. |
| WsSends.ErrorBorrowed | runtime/src/http/beast_transport.cc:499-541 | A run in which a blocking send whose write succeeded reports another send's error. |
| WsWakes.NoLostWakeup | runtime/src/http/beast_transport.cc:877-890 | A step that makes a waiting call's condition true notifies, except that a close request need not while a write is under way. |
| WsWakes.WritesNotify | runtime/src/http/beast_transport.cc:830-875 | That write's completion notifies, so the waiting send wakes after all. |
| WsSession.WsSession.OnReadMessage | runtime/src/http/beast_transport.cc:663-745 | The method on the session's fields does what the section function says: the new state, the completions fired, what is armed next and whether it notifies. |
| WsSession.WsSession.ReceiveAsyncWithin | runtime/src/http/beast_transport.cc:363-450 | Likewise for an asynchronous receive: refused, answered by a posted completion, or parked under a fresh generation. |
| WsSession.WsSession.OnWrite | runtime/src/http/beast_transport.cc:830-875 | Likewise for a write completion. |
| PairRuns.StepKeepsInv | runtime/src/http/websocket_pair.cc:75-389 | Every critical section keeps the invariant: one FIFO per direction, one answer per call, parks and deadlines of one generation, waiter counts. |
| PairRuns.RunsKeepInv | runtime/src/http/websocket_pair.cc:75-389 | In every run, accepted sends are the delivered messages followed by the queued ones, a parked receive means an empty queue, a parked send a full one, closed means nothing parked, and each call is answered exactly once or is still waiting. |
| PairRuns.TimeoutsAreHarmless | runtime/src/http/websocket_pair.cc:273-317 | A timeout leaves both queues alone and reaches only the receive it was armed for. |
| PairRuns.CleanEndMeansDrained | runtime/src/http/websocket_pair.cc:234-262 | An end of stream is reported only after close and only when everything the peer's sends were accepted for has been delivered. |
| PairRuns.CloseDrains | runtime/src/http/websocket_pair.cc:124-159 | After close, receives return the queued messages in order and then the end. |
| PairRuns.ClosedIsFinal | runtime/src/http/websocket_pair.cc:124-159 | A closed pair stays closed and accepts nothing. |
| PairRuns.NoLostWakeup | runtime/src/http/websocket_pair.cc:75-106 | Every step that makes a blocked caller's condition true notifies. |
| Pair.PairEnd.SendAsync | runtime/src/http/websocket_pair.cc:173-206 | The method on the shared fields does what the section function says; likewise the other methods of the class. |
| Crc32.TableIsBitwise | runtime/src/eventstream/frame.cc:28-45 | A step by table is eight bitwise steps of the reflected polynomial. |
| Crc32.CrcDetects | runtime/src/eventstream/frame.cc:28-45 | Two byte strings that differ in one byte have different checksums. |
| Crc32.Checksum | runtime/src/eventstream/frame.cc:28-45 | The table-driven loop computes the bitwise checksum. |
| FrameProps.RoundTrip | runtime/src/eventstream/frame.cc:216-294 | Decoding an encoded message followed by any bytes gives that message and its exact length. |
| FrameProps.Canonical | runtime/src/eventstream/frame.cc:247-294 | Encoding a decoded message gives back the bytes it was decoded from. |
| FrameProps.PrefixAsksForMore | runtime/src/eventstream/frame.cc:247-269 | Every strict prefix of a frame asks for more. |
| FrameProps.AnyChangedByteIsAnError | runtime/src/eventstream/frame.cc:247-269 | Changing any one byte of a frame makes decoding fail, whatever follows: never a message, never a request for more. |
| FrameProps.SlicingDoesNotMatter | runtime/src/eventstream/frame.cc:247-294 | However a byte stream is cut, feeding the pieces leaves what feeding the whole leaves. |
| FrameProps.StreamRoundTrip | runtime/src/eventstream/frame.cc:216-294 | The frames of any messages, concatenated and cut anywhere, are read back as those messages. |
| Frame.EncodeMessage | runtime/src/eventstream/frame.cc:216-245 | The encoder that appends to a string computes the frame, or the same error. |
| Frame.DecodeMessage | runtime/src/eventstream/frame.cc:247-294 | The decoder that moves a cursor computes the decoding function, errors included. |
| CborRoundTrip.AcceptsSpellings | runtime/src/cbor/cbor.cc:122-329 | Decoding gives a document exactly when the bytes are a legal spelling of it, nested no deeper than the limit. |
| CborProps.ValueOf | runtime/src/cbor/cbor.cc:206-329 | Any legal spelling followed by any bytes reads as its meaning and leaves those bytes; nested too deeply, it is an error. |
| CborRoundTrip.FormDoesNotMatter | runtime/src/cbor/cbor.cc:164-204 | Widths of heads, definite or indefinite lengths, and the chunks of strings do not change what is decoded. |
| CborRoundTrip.DecodeIsLinear | runtime/src/cbor/cbor.cc:249-281 | A decoded document weighs no more than the bytes it was read from, whatever lengths they declare. |
| CborCanonical.RoundTrip | runtime/src/cbor/cbor.cc:33-114 | Decoding an encoded document gives it back, its times as epoch seconds, exactly when it nests no deeper than 64 levels and its times survive the conversion to double; too deep is an error. |
| CborCanonical.Unambiguous | runtime/src/cbor/cbor.cc:206-329 | No bytes start with two different spellings. |
| CborCanonical.PrefixFree | runtime/src/cbor/cbor.cc:33-114 | No document's encoding is a proper prefix of another's. |
| Cbor.EncodeValue | runtime/src/cbor/cbor.cc:76-114 | The encoder that appends to a byte vector computes the encoding. |
| Cbor.Decoder.DecodeDocument | runtime/src/cbor/cbor.cc:122-130 | The decoder that moves pos_ computes the decoding function, errors included. |
| Calendar.EpochDaysCount | runtime/src/core/timestamp.cc:54-57 | Day numbers count the days: 1970-01-01 is 0, the next day is one more, under the Gregorian leap rule. |
| Calendar.EpochDaysOfDate | runtime/src/core/timestamp.cc:58-75 | The date of a day number has that number. |
| Calendar.DateOfEpochDays | runtime/src/core/timestamp.cc:54-75 | The day number of a valid date has that date. |
| TimestampProps.ComposeDecompose | runtime/src/core/timestamp.cc:58-82 | Composing a decomposed instant gives it back, before 1970 too. |
| TimestampProps.DecomposeCompose | runtime/src/core/timestamp.cc:58-82 | Decomposing a composed civil time gives it back. |
| TimestampProps.Window | runtime/src/core/timestamp.cc:230-237 | The checked window is exactly the years 0000 to 9999. |
| TimestampProps.DateTimeRoundTrip | runtime/src/core/timestamp.cc:118-167 | Parsing a formatted date-time gives back the instant, trimmed fraction included. |
| DateTime.AcceptsSpellings | runtime/src/core/timestamp.cc:118-167 | A text parses as an instant exactly when it is one of its spellings: t or T, any number of fraction digits cut to three, z, Z or an offset. |
| TimestampProps.InWindowUnlessOffset | runtime/src/core/timestamp.cc:160-167 | A parsed date-time lies in the window exactly when the offset does not carry its first day back before the window or its last day beyond it; the code does not check. |
| TimestampProps.OffsetLeavesWindow | runtime/src/core/timestamp.cc:160-167 | A text that parses to an instant before the window. |
| HttpDate.HttpDateAccepts | runtime/src/core/timestamp.cc:169-192 | A text parses as an http-date exactly when it is what formatting a whole second of the window writes. |
| HttpDate.HttpDateRoundTrip | runtime/src/core/timestamp.cc:169-192 | Parsing a formatted http-date gives the instant cut to the second. |
| TimestampProps.EpochSecondsExact | runtime/src/core/timestamp.cc:262-282 | The epoch-seconds text is the exact decimal of the instant, its fraction trimmed. |
| Timestamp.ReadDateTime | runtime/src/core/timestamp.cc:118-167 | The parser that moves a position computes the date-time grammar. |
| Timestamp.ReadHttpDate | runtime/src/core/timestamp.cc:169-192 | Likewise for the http-date. |
| Timestamp.FormatInstant | runtime/src/core/timestamp.cc:262-302 | Formatting into a buffer writes those texts. |
| Http1Slicing.SlicingDoesNotMatter | runtime/src/http/http1.cc:24-117 | What is read from a stream of bytes is the same for every way of delivering them exactly when the header section is within the limit or beyond what one more read could bring, and nothing follows a message of known length. |
| Http1RoundTrip.ReadsBack | runtime/src/http/socket_transport.cc:71-123 | A request that was written is read back (start line, the transport's fields and the caller's with values trimmed, body) under every slicing exactly when it carries no transfer-encoding, at most one content-length that says the body's length, a body within the cap and a header section within the limit. |
| Http1RoundTrip.TrimmedStays | runtime/src/http/http1.cc:48-66 | Fields whose values have no blanks around them come back as they were. |
| Http1RoundTrip.RequestLineReadsBack | runtime/src/http/http1.cc:119-127 | Method and target come back from the request line. |
| Http1.ReadHttp1Message | runtime/src/http/http1.cc:24-117 | The reader that grows a buffer and shrinks views computes the reading function, errors included. |
| Http1.WriteRequest | runtime/src/http/socket_transport.cc:71-123 | The checks and the pieces appended to the wire give the written request, or the same refusal. |
| UriProps.DecodeEncode | runtime/src/http/uri.cc:16-64 | Decoding undoes both ways of escaping, for all bytes. |
| UriProps.TargetBack | runtime/src/http/uri.cc:70-140 | The query pairs of a target come back decoded and in order; only a flag without a key is not seen. |
| RouterLabels.LabelsComeBack | runtime/src/server/router.cc:63-99 | A target filled in for a pattern is read back by matching that pattern, query included, exactly when no label is empty and a greedy one does not end in a slash. |
| RouterProps.Ranked | runtime/src/server/router.cc:101-129 | Of two routes of one method that match the same target and differ in shape, exactly one is more specific; with Transitive, the ranking is a strict total order on the matching routes. |
| RouterProps.BestWins | runtime/src/server/router.cc:168-174 | The scan over a bucket finds the route that matches and beats every other match, or nothing exactly when none matches. |
| RouterProps.OrderDoesNotMatter | runtime/src/server/router.cc:143-158 | In whatever order routes are registered, all are admitted or not all, and every request is answered alike. |
| RouterProps.AnswerIs | runtime/src/server/router.cc:160-201 | Dispatch goes to the winner of the method's routes; the Allow list is exactly the other methods with a match, in order; 404 means there is none. A method without a name is never listed. |
| RouterProps.UnnamedMethodNotFound | runtime/src/server/router.cc:178-199 | The input that shows it: a route under the empty name matches, and another method's request for it is not found. |
| Router.Router.AddRoute | runtime/src/server/router.cc:143-158 | The registration that scans a bucket for its shape admits or refuses as specified and keeps the routes in order. |
| Router.Router.Dispatched | runtime/src/server/router.cc:160-201 | The dispatching loops compute the specified answer. |
| Uri.ParseRequestTarget | runtime/src/http/uri.cc:100-140 | The loops that shrink path and query compute the parsed target, errors included. |
| AccessLogProps.Utf8IsExact | runtime/src/server/access_log.cc:57-88 | At a non-ASCII byte the sequence length is n exactly when the next n bytes encode a Unicode scalar value. |
| AccessLogProps.RepairedIsValid | runtime/src/server/access_log.cc:90-143 | What is logged for a text is well-formed, and is the text itself exactly when that is well-formed. |
| AccessLogProps.LogBack | runtime/src/server/access_log.cc:172-230 | A line reads as exactly one JSON object, whose keys are distinct and as given and whose values are the fields, texts repaired. |
| AccessLogProps.OneLine | runtime/src/server/access_log.cc:90-143 | No control byte gets into a line. |
| AccessLog.FormatAccessLog | runtime/src/server/access_log.cc:172-230 | The code that appends key after key builds that line, or aborts exactly on keys that are empty, malformed, built in or repeated. |
| MetricsProps.RunAgrees | runtime/src/server/metrics.cc:326-428 | After any calls the series are the first max_series that were asked for; the counts, sums and cumulative buckets of each are those of all its calls; the dropped observations are exactly the calls of the others. |
| MetricsProps.Conservation | runtime/src/server/metrics.cc:326-428 | Requests over all series plus dropped observations are the calls recorded; requests are successes plus failures; the series stay within the cap. |
| MetricsProps.LevelIsHighest | runtime/src/server/metrics.cc:326-337 | The in-flight gauge of a method is the largest excess of starts over ends on any stretch of calls up to now. |
| MetricsProps.LevelIsNet | runtime/src/server/metrics.cc:370-378 | It is starts less ends exactly when no end ever came without its start. |
| Metrics.MetricsRegistry.Complete | runtime/src/server/metrics.cc:356-399 | The method on the registry's maps and counter does what the function says. |
| Base64.AcceptsEncodings | runtime/src/core/base64.cc:24-89 | A text decodes to some bytes exactly when it is their encoding. |
| Base64.EncodeBytes | runtime/src/core/base64.cc:24-53 | The loop over groups writes the encoding. |
| Base64.DecodeText | runtime/src/core/base64.cc:55-89 | The loop over groups of four computes the decoder, errors included. |

## Left out

- The JSON and raw-text wires of the WebSocket session: the codec behind them is not part of this model; the binary wire is.
- Scheduling failures: the arms that catch a throwing `asio::post` or a thread that cannot be started.
- Error texts of a failed session (`error_`, `write_error_`): a failed call reports failure and the model keeps no text.
- Close reasons, their check in `Kick`, and the grace timer: the timer's firing is the abort step.
- Floating point: `Floats` stands for the conversions between doubles and half floats, single floats and milliseconds; doubles are bit patterns.
- Epoch-seconds text through `strtod`: writing is modelled, reading is not.
- The standard library's own limit on years: the calendar is unbounded here.
- Sockets, TLS, threads and clocks: they are steps that may happen whenever they are enabled.
- `ReadsBack` takes the host and port as a legal field value: `Send` does not check them, name resolution comes first.
- Responses: `ParseStatusLine` and the response writers. The reader's until-end-of-stream mode is modelled.
- The access log's trace id is a field here; the parser of traceparent headers is not part of this model.
- Reading JSON in `AccessLogSpec` leaves out pairs of surrogate escapes, which the writer never produces.
- Application metric families and the exposition text, where numbers are formatted from doubles; durations are whole microseconds.
- Middleware, client addresses, the accept-cap loop, `Headers::Set` and `Headers::Remove`, endpoint parsing.
- Dispatch stops at the handler: its call, and the operation name stamped on the response, are not modelled. Pattern errors carry their kind and not the pattern's text.
