# A verified model of xLLM's streaming, framing and conversion cores

The project models, in Dafny, the algorithms of the repository whose correctness is not
visible in one function: incremental parsers that see their input cut at arbitrary bytes,
protocols between threads, printers and parsers that must agree, and loops whose result
must not depend on an order nobody promised. A `char` stands for one byte, so a `string`
is a byte string.

Each piece is written twice. Methods and classes follow the source: the same fields,
branches, loops and error messages. Functions on values say what one call does; every
method is proved equal to its function, and the results are proved about the functions,
for all inputs, all runs and all schedules.

| file | what it holds |
| --- | --- |
| `Text`, `Json`, `ToolCalls` | byte-string searches, JSON values, tool-call items |
| `Utf8` | holding back a character that a chunk cuts |
| `DsmlSyntax`, `DsmlParams`, `DsmlJson` | the DSML tags as recognisers, the parameters of an invoke, the brace scan of the JSON fallback |
| `DsmlDetector`, `DsmlStreaming`, `DsmlTheorems` | the streaming detector and what it emits under any chunking |
| `DsmlProse`, `DsmlGaps` | exactly when ordinary text does not depend on the chunking, without invokes and around them |
| `DsmlThrowing` | parsing that throws: exactly when it makes the calls depend on the chunking |
| `DsmlFlush` | the finish-time flush for any bytes |
| `DsmlOneShot`, `DsmlRendering` | the parser for complete responses, and written calls that are read back |
| `BaseDetector`, `BaseDetectorTheorems`, `BaseDetectorStreams`, `BaseDetectorFailures` | the detector most formats inherit, exactly when the argument deltas of a call and of a stream of calls add up, and streams for which they do not |
| `MultipartBody`, `MultipartHeaders`, `Multipart`, `MultipartRoundTrip` | multipart/form-data over a chain of blocks (section 5.1.1 of RFC 2046, RFC 7578) |
| `StreamCall`, `StreamRace` | the life of a server-sent-event response, alone and against polling threads |
| `Anthropic`, `AnthropicTheorems`, `AnthropicResults`, `AnthropicTransport` | the Anthropic event stream, also over transports that lose frames |
| `StructJson` | decoding the JSON of `google.protobuf.Struct` |
| `Framing` | JSON and binary data in one body, requests and responses |
| `Rerank` | the rerank fan-in and its answer |
| `Dequant`, `ShardConversion`, `MtpPairing` | block dequantisation three ways, and two key loops of the checkpoint tools |

Main results, hardest first:

* DSML: for well-formed UTF-8 without a quoted `tool_calls` key, and runs in which parsing of
  parameters does not throw, the calls and cached snapshots do not depend on the chunks
  (`ChunkingInvisible`, `EveryMoment`), agree with the one-shot parser
  (`StreamAgreesWithOneShot`), and are the calls that were written down
  (`WrittenCallsArrive`). All chunkings emit the same calls if and only if parsing throws at
  no beginning of the text that ends between characters (`CallsExactly`); a number cut
  behind its minus sign is such a text (`MinusSign`).
* DSML and flush: for any bytes, every index is named once and completed by the one flush if and
  only if no step lost what it had found and no JSON calls were emitted too, or no tool was
  begun (`FlushExactly`).
* DSML, ordinary text: some beginning of each piece of prose around the invokes comes out, and
  nothing else (`OnlyProse`); it is the same under every chunking if and only if no chunk
  boundary lets prose be flushed that later counts as part of a call (`ProseAroundInvokes`,
  `ProseExactly`).
* Anthropic: for every sequence of outputs and every pattern of write and serialisation
  failures, the client's view is a prefix of one well-bracketed message, or such a prefix
  cut by one error event (`ClientView`); without failures it is the whole message
  (`WholeMessageArrives`), and the message holds what the outputs said, character by
  character (`MessageKeepsWhatWasSaid`). What a transport accepts is always well bracketed if
  and only if it accepts nothing after a frame that it lost (`BracketedExactly`).
* Multipart: parsing a rendered form gives back the same parts if and only if no value holds
  the delimiter or exceeds the limit (`FormRoundTrip`), and the parser over the block chain
  refines the one over the joined bytes (`ParseMultipartFormData`).
* Base detector: for a call that begins with an empty slot, no bound is exceeded and the
  deltas concatenate to the final arguments if and only if what two successive snapshots
  agree on stays (`DeltasAddUp`, `FlushAddsUp` with the flush), and so for every index of a
  stream of calls (`StreamAddsUp`). The empty slot is needed too
  (`SlotDecides`); a reset for an undeclared name leaves one if and only if there was one slot
  at most or the first held nothing (`ResetRule`). Streams from the initial state break both
  conditions (`SortedKeysReorder`, `StaleSlot`).
* Stream call: in every interleaving `done` runs once and the controller is not touched after
  it (`DoneOnceAndLast`); one terminal frame, nothing after it (`OneTerminalFrame`).
* Checkpoint tools: the three dequantisations agree for every shape and block size
  (`DequantizeMeaning`, `BlockDequant`, `AllAgree`); exactly when the order of keys does not
  matter (`OrderMattersExactly`, `OrderOfPairs`).

## Model

| member | source | states |
|---|---|---|
| Utf8.SplitIncompleteUtf8 | xllm/function_call/deepseekv32_detector.cpp:76-115 | the two pieces are the input, at most four bytes are held, and what is released is the specified length |
| Utf8.SplitsAtCharacter | xllm/function_call/deepseekv32_detector.cpp:76-115 | on whole characters followed by a cut one, exactly the cut one is held back |
| Utf8.BytesConserved | xllm/function_call/deepseekv32_detector.cpp:720-725 | for any chunks of any bytes, released bytes plus the held tail are the bytes received |
| Utf8.ReleasedAtCharacters | xllm/function_call/deepseekv32_detector.cpp:720-725 | on well-formed input cut anywhere, released text ends between characters and less than four bytes are held |
| DsmlSyntax.HeadGrows | xllm/function_call/deepseekv32_detector.cpp:66-69 | a tag that matched or failed at a position does so however the text goes on |
| DsmlSyntax.PartialBlocks | xllm/function_call/deepseekv32_detector.cpp:66-69 | while a tag is still being written, no later tag can match |
| DsmlSyntax.FirstInvokeGrows | xllm/function_call/deepseekv32_detector.cpp:912-927 | more text neither moves nor renames the first invoke, and does not change it once it is closed |
| DsmlSyntax.SettledPrefix | xllm/function_call/deepseekv32_detector.cpp:917-969 | cutting off text in which no tag matches leaves the same first invoke |
| DsmlParams.ParseParameters | xllm/function_call/deepseekv32_detector.cpp:311-410 | the object members, or the closed parameters with the one still being written, are the specified map; none when parsing throws |
| DsmlParams.CutEndTokens | xllm/function_call/deepseekv32_detector.cpp:372-384 | strips the pieces of an end tag, each as often as it occurs, in the order of the source |
| DsmlParams.FillObject | xllm/function_call/deepseekv32_detector.cpp:118-131 | filling the object gives the same object in every order of the keys, so sorting decides nothing but the text |
| DsmlJson.CountBraces | xllm/function_call/deepseekv32_detector.cpp:763-793 | says whether the braces counted from the first one to the end leave a positive depth |
| DsmlJson.MatchBrace | xllm/function_call/deepseekv32_detector.cpp:859-891 | ends at depth 0 exactly when a brace closes the block, and then reports that brace |
| DsmlJson.NotOpenIsClosed | xllm/function_call/deepseekv32_detector.cpp:763-793 | a depth of 0 or less at the end means that the depth returned to 0 somewhere, so the block is found |
| DsmlDetector.Detector.constructor | xllm/function_call/deepseekv32_detector.cpp:29-71 | the detector starts with empty buffers and no tool |
| DsmlDetector.Detector.ParseStreamingIncrement | xllm/function_call/deepseekv32_detector.cpp:717-983 | every field and the result after one increment, on every branch, exceptions included |
| DsmlDetector.Detector.ParseJson | xllm/function_call/deepseekv32_detector.cpp:830-908 | the fields and the result of the JSON branch |
| DsmlDetector.Detector.ParseInvokes | xllm/function_call/deepseekv32_detector.cpp:910-983 | the fields and the items of the loop over consecutive invokes, also when it throws in the middle |
| DsmlStreaming.LoopThrows | xllm/function_call/deepseekv32_detector.cpp:912-983 | the loop throws exactly if the arguments of an invoke of its text do not parse |
| DsmlStreaming.LoopFollowsInvokes | xllm/function_call/deepseekv32_detector.cpp:912-974 | otherwise it emits and caches exactly what the invokes of its text prescribe |
| DsmlStreaming.FlushedIsSettled | xllm/function_call/deepseekv32_detector.cpp:731-817 | text that is flushed neither contains nor begins an invoke tag |
| DsmlStreaming.SettledInvokes | xllm/function_call/deepseekv32_detector.cpp:810-817 | such text can be dropped without changing what is read off the rest |
| DsmlTheorems.EveryMoment | xllm/function_call/deepseekv32_detector.cpp:717-977 | after any chunks, no step having thrown, what was emitted and cached is what the text received prescribes |
| DsmlTheorems.ChunkingInvisible | xllm/function_call/deepseekv32_detector.cpp:717-977 | two chunkings of one text in which no step throws give the same calls and the same snapshots |
| DsmlThrowing.NeverThrows | xllm/function_call/deepseekv32_detector.cpp:717-983 | a text whose beginnings, cut between characters, all parse throws under no chunking, cut at any byte |
| DsmlThrowing.CallsExactly | xllm/function_call/deepseekv32_detector.cpp:717-983 | all chunkings emit the same calls if and only if every beginning that ends between characters parses |
| DsmlThrowing.CutValueLosesCall | xllm/function_call/deepseekv32_detector.cpp:387-407 | a value that the partial parser throws at: its tag comes out as ordinary text, and the call is never named |
| DsmlThrowing.MinusSign | xllm/function_call/partial_json_parser/src/parser.cpp:98-100 | in particular a number cut behind its minus sign |
| DsmlTheorems.ItemsPerIndex | xllm/function_call/deepseekv32_detector.cpp:942-961 | index k gets the name of call k once, and its arguments once it is closed |
| DsmlFlush.FlushCompletes | xllm/api_service/utils.h:85-123 | for any bytes, nothing lost to a throw and no JSON calls: every index was named once, closed ones streamed exactly their cached arguments and the open one nothing, and the one flush completes it |
| DsmlFlush.FlushExactly | xllm/function_call/deepseekv32_detector.cpp:850-983 | with JSON calls or lost items, not both: this holds if and only if there were neither, or no tool was begun |
| DsmlFlush.JsonCollides | xllm/function_call/deepseekv32_detector.cpp:893-906 | the input: the calls of a JSON block and then an invoke, both numbered from 0, name index 0 twice |
| DsmlTheorems.FlushSound | xllm/api_service/utils.h:85-123 | for any input at all, the flush concerns the open tool only and sends the whole of its arguments |
| DsmlTheorems.RunConsistent | xllm/function_call/deepseekv32_detector.cpp:929-973 | for any input, closed slots hold what was streamed and the open one nothing |
| DsmlTheorems.PlainTextPreserved | xllm/function_call/deepseekv32_detector.cpp:795-817 | text in which nothing looks like a call comes out byte for byte, in any chunks |
| DsmlTheorems.ProseIsSwallowed | xllm/function_call/deepseekv32_detector.cpp:977 | prose that arrives with an opening mark is lost, the same prose before it is kept, for every such prose; the family that shows chunks matter |
| DsmlProse.ProseExactly | xllm/function_call/deepseekv32_detector.cpp:795-817 | for well-formed text without an invoke or a quoted key: all chunkings give the same text if and only if nothing in it looks like a call, or the flush is held back wherever it is cut between characters |
| DsmlGaps.OnlyProse | xllm/function_call/deepseekv32_detector.cpp:810-977 | around invokes, under any chunking: of each piece of prose some beginning comes out, in order, and nothing else |
| DsmlGaps.ProseAroundInvokes | xllm/function_call/deepseekv32_detector.cpp:795-977 | it is the same under every chunking if and only if prose before an invoke is held back wherever it is cut, and the last prose too or nothing in it looks like a call; and what comes out then |
| DsmlTheorems.JsonBlockIsCut | xllm/function_call/deepseekv32_detector.cpp:850-904 | once the braces balance, the block cut out of the text is the block whose calls are emitted, and it starts at the first brace |
| DsmlOneShot.DetectAndParse | xllm/function_call/deepseekv32_detector.cpp:595-715 | the result for a complete response, on every branch |
| DsmlOneShot.ClosedCallsAre | xllm/function_call/deepseekv32_detector.cpp:658-690 | with all tools declared, the calls are the closed invokes in order |
| DsmlOneShot.FramedInvokes | xllm/function_call/deepseekv32_detector.cpp:636-656 | the invokes of a framed block in prose are those of its content |
| DsmlOneShot.FormatsOk | xllm/function_call/deepseekv32_detector.cpp:29-74 | the block tokens of both formats hold no beginning of an invoke tag |
| DsmlOneShot.StreamAgreesWithOneShot | xllm/function_call/deepseekv32_detector.cpp:595-983 | under every chunking, streaming a framed block of declared closed invokes gives the calls of the one-shot parser |
| DsmlRendering.BodyRoundTrip | xllm/function_call/deepseekv32_detector.cpp:337-366 | the parameters of a written body are those that were written, later ones of a name winning |
| DsmlRendering.TextParams | xllm/function_call/deepseekv32_detector.cpp:353-356 | text parameters come back byte for byte, and no names are added |
| DsmlRendering.CallsRoundTrip | xllm/function_call/deepseekv32_detector.cpp:912-974 | what is read off a written text are the calls that were written, with anything but a tag between them |
| DsmlRendering.WrittenCallsArrive | xllm/function_call/deepseekv32_detector.cpp:717-977 | written calls, cut at any byte, are emitted exactly: each name once, each argument object once |
| BaseDetector.EndsWithPartialToken | xllm/function_call/base_format_detector.cpp:114-130 | the least length of a beginning of the token that ends the buffer; 0 exactly when there is none |
| BaseDetector.FindCommonPrefix | xllm/function_call/utils.cpp:30-43 | the common prefix |
| BaseDetector.CommonPrefixLongest | xllm/function_call/utils.cpp:30-43 | every common prefix is a prefix of it |
| BaseDetector.Detector.ParseStreamingIncrement | xllm/function_call/base_format_detector.cpp:132-348 | every field, the result, and whether cutting or printing threw, after one increment |
| BaseDetector.Detector.StreamName | xllm/function_call/base_format_detector.cpp:233-266 | the name item and the slot of a call that begins |
| BaseDetector.Detector.StreamArguments | xllm/function_call/base_format_detector.cpp:268-324 | the delta, the new slot, buffer and index, complete or not, and the two throwing cases |
| BaseDetectorTheorems.PartialSnapshot | xllm/function_call/base_format_detector.cpp:294-317 | one more snapshot throws exactly when it does not start with what was streamed; otherwise the streamed text becomes what two snapshots agree on |
| BaseDetectorTheorems.FinalSnapshot | xllm/function_call/base_format_detector.cpp:280-292 | completing throws exactly when more was streamed than the final length, and leaves the detector ready for the next call |
| BaseDetectorTheorems.DeltasAddUp | xllm/function_call/base_format_detector.cpp:233-340 | for a call that begins in any state whose slot is empty, steps that show nothing new included: name once; no throw and deltas plus what remains in the cache equal to the last snapshot if and only if what two successive different snapshots agree on begins all later ones; a completed call leaves the slots as they were |
| BaseDetectorTheorems.FlushAddsUp | xllm/api_service/utils.h:85-123 | with the flush at the end of the stream instead: the sum is right if and only if, besides that, the call is complete, no older cached entries lie behind it, or nothing remains; with older entries the flush sends what the last of them lacks |
| BaseDetectorTheorems.SlotDecides | xllm/function_call/base_format_detector.cpp:233-304 | from every state between calls, a completed call adds up if and only if its slot was empty and its snapshots agree, so the condition on the slot is needed |
| BaseDetectorStreams.StreamAddsUp | xllm/function_call/base_format_detector.cpp:132-348 | any number of calls with quiet texts between, from the initial state on: no throw and every index summing to its last snapshot if and only if the snapshots of every call agree; then names once and in order |
| BaseDetectorFailures.ResetRule | xllm/function_call/base_format_detector.cpp:205-216 | for every state and every completed call after a reset for an undeclared name: it adds up if and only if its snapshots agree and there was one slot at most or the first was empty |
| BaseDetectorFailures.StaleSlot | xllm/function_call/base_format_detector.cpp:205-216 | calls, as JSON, from the initial state on, that break the rule, and the next call that loses its first bytes |
| BaseDetectorFailures.FlushMisses | xllm/api_service/utils.h:98-117 | calls, as JSON, after which the flush sends the arguments of a dropped call and none of the open one's |
| BaseDetectorFailures.SortedKeysReorder | xllm/function_call/base_format_detector.cpp:274-304 | a call, as JSON, whose key that arrives later is printed before one whose value still grows: the condition fails, and so does its stream |
| BaseDetectorFailures.ExampleParses | xllm/function_call/base_format_detector.cpp:198-216 | texts and a library for which what the two streams above assume of the parser holds |
| BaseDetectorTheorems.TextKept | xllm/function_call/base_format_detector.cpp:157-174 | ordinary text without an end marker is passed on byte for byte; what is held back ends with a beginning of the marker |
| MultipartBody.BodyView.constructor | xllm/api_service/multipart_parser.cpp:208-221 | the view stands for the joined blocks, empty ones left out |
| MultipartBody.BodyView.SpanIndexFor | xllm/api_service/multipart_parser.cpp:315-322 | the last block that starts at or before a position |
| MultipartBody.BodyView.ByteAt | xllm/api_service/multipart_parser.cpp:225-228 | the byte of the joined body |
| MultipartBody.BodyView.EqualsAt | xllm/api_service/multipart_parser.cpp:230-250 | equality with a slice of the joined body, false past its end |
| MultipartBody.BodyView.FindFrom | xllm/api_service/multipart_parser.cpp:252-283 | the least match at or after a position, also across block edges; an empty pattern is found where the search starts |
| MultipartBody.BodyView.CopyTo | xllm/api_service/multipart_parser.cpp:285-299 | the slice of the joined body |
| MultipartBody.BodyView.Slice | xllm/api_service/multipart_parser.cpp:301-313 | the slice, taken without going back; its requires are the two checks of the source |
| MultipartHeaders.CheckBoundary | xllm/api_service/multipart_parser.cpp:61-74 | accepts exactly the boundaries of RFC 2046: 1 to 70 of its characters, no blank at the end |
| MultipartHeaders.ParseParamValue | xllm/api_service/multipart_parser.cpp:76-107 | a quoted or plain parameter value and where the next one starts |
| MultipartHeaders.ParseBoundary | xllm/api_service/multipart_parser.cpp:109-143 | the valid boundary named by the header, or none |
| MultipartHeaders.ParseContentDisposition | xllm/api_service/multipart_parser.cpp:145-177 | name and file name of a form-data disposition, or none |
| MultipartHeaders.ParsePartHeaders | xllm/api_service/multipart_parser.cpp:179-204 | the part the header lines describe, which must be named, or none |
| Multipart.ParseMultipartFormData | xllm/api_service/multipart_parser.cpp:356-421 | over any block chain, the status and parts of the joined body, each error included |
| Multipart.ParsePart | xllm/api_service/multipart_parser.cpp:374-419 | one round of the loop: the cursor moves forward and the slices never go back |
| MultipartRoundTrip.UnquoteEscape | xllm/api_service/multipart_parser.cpp:83-99 | an escaped value in quotes is read back, whatever follows |
| MultipartRoundTrip.HeadersRoundTrip | xllm/api_service/multipart_parser.cpp:145-204 | rendered headers give back name, file name and content type |
| MultipartRoundTrip.HeaderEndFound | xllm/api_service/multipart_parser.cpp:386-391 | the empty line that ends rendered headers is the first one |
| MultipartRoundTrip.DelimiterIsMarker | xllm/api_service/multipart_parser.cpp:61-74 | a delimiter of a valid boundary can start only at its own carriage return, so none straddles the end of a value |
| MultipartRoundTrip.PartsRoundTrip | xllm/api_service/multipart_parser.cpp:374-419 | rendered parts are read back exactly when all values qualify |
| MultipartRoundTrip.BoundaryRoundTrip | xllm/api_service/multipart_parser.cpp:109-143 | every valid boundary is read back from the header, quoted or not |
| MultipartRoundTrip.FormRoundTrip | xllm/api_service/multipart_parser.cpp:356-421 | parsing a rendered form succeeds with the same parts if and only if no value holds the delimiter or is too large |
| StreamCall.StreamCall.constructor | xllm/api_service/stream_call.h:49-66 | a call starts closed, connected and incomplete |
| StreamCall.StreamCall.StartStream | xllm/api_service/stream_call.h:215-233 | opens once and runs `done` then |
| StreamCall.StreamCall.Publish | xllm/api_service/stream_call.h:206-213 | the frame is written and its result joins the status |
| StreamCall.StreamCall.Write | xllm/api_service/stream_call.h:148-167 | the new state and the answer, on a finished stream, a refused message and a good one |
| StreamCall.StreamCall.Finish | xllm/api_service/stream_call.h:169-183 | closes once; complete exactly if the closing frame went out while connected |
| StreamCall.StreamCall.FinishWithError | xllm/api_service/stream_call.h:115-143 | an HTTP error before the stream opened, an error frame after, nothing once it is finished |
| StreamCall.StreamCall.Destroy | xllm/api_service/stream_call.h:68-84 | runs `done` if no stream was opened, and says whether the request counts as served |
| StreamCall.OneTerminalFrame | xllm/api_service/stream_call.h:115-183 | for every sequence of operations: one terminal frame at most, at the end; complete exactly if it is the closing one and all writes succeeded; an HTTP error only with no frame and `done` not run |
| StreamCall.EndsForGood | xllm/api_service/stream_call.h:115-213 | what was published stays, disconnection stays, a terminal frame or rejection ends all output, `done` has run once at the end |
| StreamCall.ServedMeansReceived | xllm/api_service/call.cpp:35-49 | a request counts as served if and only if the client got every frame, the closing one last |
| StreamCall.AcceptedIsDelivered | xllm/api_service/stream_call.h:206-213 | the frames whose own write succeeded are those before the first failure if and only if failures last |
| StreamCall.NonStreamingDiffers | xllm/api_service/stream_call.h:115-143 | on a call that asked for no stream the promise fails: a frame after the closing one |
| StreamRace.DoneOnceAndLast | xllm/api_service/stream_call.h:68-84 | in every interleaving `done` runs at most once, exactly once when the call is gone, and no access to the controller follows |
| StreamRace.ReleasedForGood | xllm/api_service/stream_call.h:185-233 | once `done` has run, no enabled step touches the controller or runs it again |
| StreamRace.NeverStuck | xllm/api_service/stream_call.h:185-233 | some thread inside an operation can always go on, and the lock is free of the worker inside `done` |
| Anthropic.AnthropicHandler.StartNewContentBlock | xllm/api_service/anthropic_service_impl.cpp:337-378 | the block that was open is stopped, then the next index is started; counters and result also when a write fails |
| Anthropic.AnthropicHandler.SendContentBlockDelta | xllm/api_service/anthropic_service_impl.cpp:381-437 | a new block if the kind changes or the call is named, then the delta, none for empty arguments |
| Anthropic.AnthropicHandler.ProcessToolCallStream | xllm/api_service/anthropic_service_impl.cpp:441-493 | the text, then the items in order, up to the first failure |
| Anthropic.AnthropicHandler.SendDeltaToClient | xllm/api_service/anthropic_service_impl.cpp:497-648 | reasoning, text, items, unstreamed arguments of every sequence, then the end of the message |
| Anthropic.AnthropicHandler.OnOutput | xllm/api_service/anthropic_service_impl.cpp:745-792 | the callback: an error, or message_start once and the output |
| Anthropic.MakeUsage | xllm/api_service/anthropic_stream_utils.cpp:23-35 | counts are never negative, and fresh and cached input add up to the prompt |
| AnthropicTheorems.GrowPrinted | xllm/api_service/anthropic_service_impl.cpp:381-437 | the events of a piece are what turns the printed message into the grown one |
| AnthropicTheorems.PieceInStep | xllm/api_service/anthropic_service_impl.cpp:337-437 | sending a piece keeps handler and message in step, or cuts the client's view |
| AnthropicTheorems.EndInStep | xllm/api_service/anthropic_service_impl.cpp:593-645 | so does ending the message |
| AnthropicTheorems.RunInStep | xllm/api_service/anthropic_service_impl.cpp:745-792 | so does every run of the callback |
| AnthropicResults.ClientView | xllm/api_service/anthropic_service_impl.cpp:337-648 | for all outputs and failures: message_start, numbered bracketed blocks with deltas of their kind, message_delta, message_stop, closing frame; a prefix, or one cut by one error |
| AnthropicResults.AcceptedView | xllm/api_service/anthropic_service_impl.cpp:745-792 | the frames a transport accepted are that view if and only if its failures last, and then they are well bracketed |
| AnthropicResults.AcceptedCanBreak | xllm/api_service/anthropic_service_impl.cpp:745-792 | when the first write is lost and the next accepted, they are not: a message that never began |
| AnthropicTransport.BracketedExactly | xllm/api_service/anthropic_service_impl.cpp:337-648 | over all configurations and outputs, what a transport accepts is well bracketed if and only if it accepts nothing after a frame that it lost |
| AnthropicResults.WholeAfterEnd | xllm/api_service/anthropic_service_impl.cpp:593-645 | the message is whole exactly when an output finished or was cancelled |
| AnthropicResults.WholeMessageArrives | xllm/api_service/anthropic_service_impl.cpp:497-648 | without failures the client gets exactly the message described, closing frame included once it ended |
| AnthropicResults.MessageKeepsWhatWasSaid | xllm/api_service/anthropic_service_impl.cpp:381-493 | the blocks hold the texts and arguments character by character in order, and announce the named calls |
| StructJson.ValueRoundTrip | xllm/api_service/anthropic_json.h:87-131 | the wrapper of any value decodes to it |
| StructJson.ObjectRoundTrip | xllm/api_service/anthropic_json.h:46-131 | every object, however nested and whatever its keys, is decoded from its encoding, in every way of writing null and empty |
| StructJson.MessageDecoded | xllm/api_service/anthropic_json.h:109-131 | in a message, the Structs are decoded and nothing else changes |
| Framing.ReserveBinaryPayload | xllm/api_service/mm_service_utils.h:35-49 | succeeds exactly when the total is a `size_t`, and reserves it |
| Framing.BinaryPayload.Append | xllm/api_service/mm_service_utils.h:51-57 | the data is appended and the reference slices it back |
| Framing.BinaryPayload.FillMediaSource | xllm/api_service/mm_service_utils.h:59-75 | a reference into the payload, or base 64 with the payload unchanged |
| Framing.RefsTile | xllm/api_service/mm_service_utils.h:51-57 | the references of any list of media lie without gaps and slice back to the media |
| Framing.DecimalRoundTrip | xllm/api_service/non_stream_call.h:102-103 | a number written in decimal is read back |
| Framing.AcceptedBodies | xllm/api_service/http_request_body.h:30-77 | exactly the header combinations that are accepted |
| Framing.RequestRoundTrip | xllm/api_service/http_request_body.h:30-77 | splitting at the announced length recovers JSON and payload |
| Framing.Call.InitRequestPayload | xllm/api_service/call.cpp:80-96 | the payload is what follows the JSON, or empty with the parameter at fault |
| Framing.NonStreamCall.WriteAndFinish | xllm/api_service/non_stream_call.h:73-107 | attachment, length header and completion, with and without a payload, and the error |
| Framing.RespondAndSplit | xllm/api_service/non_stream_call.h:89-107 | a client that splits at the announced length gets JSON and payload back |
| Framing.LoadedSlice | xllm/api_service/speech_to_text_service_impl.cpp:357-390 | accepted exactly if in range, not empty and within the limit, and then the bytes referred to |
| Framing.LoadSpeechAudio | xllm/api_service/speech_to_text_service_impl.cpp:353-391 | the loader, by reference or inline, on every branch |
| Framing.FilesArrive | xllm/api_service/call.cpp:80-96 | end to end: any list of files behind any JSON is extracted, and each acceptable one is loaded byte for byte |
| Framing.Base64BoundFits | xllm/api_service/speech_to_text_service_impl.cpp:372-377 | the bound lets every file within the limit through if and only if the 64-bit arithmetic does not wrap |
| Rerank.Finalize | xllm/api_service/rerank_service_impl.cpp:31-78 | fails exactly when nothing was scored; otherwise the best documents in descending order, none left out scoring higher, and the usage totals unless zero |
| Rerank.AdvanceKeeps | xllm/api_service/rerank_service_impl.h:78-84 | every step keeps: the counter is the number of completions still to decrement it, the finalizer is unique and comes after all stores |
| Rerank.FinalizedOnce | xllm/api_service/rerank_service_impl.h:78-84 | in every interleaving finalize runs at most once, sees all outputs, and has run once when all have returned |
| Rerank.RerankContext.constructor | xllm/api_service/rerank_service_impl.cpp:104-150 | one sub-request for each document and the query, and a top-n no larger than the documents |
| Rerank.RerankContext.OnComplete | xllm/api_service/rerank_service_impl.h:78-84 | stores, counts down, and answers exactly if it was the last |
| Dequant.AlignedMeaning | tools/dequant_minimax_fp8.py:83-86 | the reshape path multiplies each element by the scale of its block |
| Dequant.RaggedMeaning | tools/dequant_minimax_fp8.py:88-90 | so does repeating and cropping, for every shape, ragged last blocks included |
| Dequant.DequantizeMeaning | tools/dequant_minimax_fp8.py:63-90 | succeeds exactly on matrices with one scale a block, with that meaning, and the path taken does not matter |
| Dequant.ScaleTile | tools/export_mtp.py:415-418 | scales the elements of one tile and leaves all others |
| Dequant.BlockDequant | tools/export_mtp.py:394-420 | the tile loop fails on a wrong scale shape and otherwise means the same |
| Dequant.DequantizedUnique | tools/export_mtp.py:394-420 | that meaning determines the result |
| Dequant.AllAgree | tools/dequant_minimax_fp8.py:63-90 | so all three give the same tensor |
| ShardConversion.ConvertShard | tools/dequant_minimax_fp8.py:147-182 | the loop over the keys, with every way to raise |
| ShardConversion.ScaleIsPaired | tools/dequant_minimax_fp8.py:162-168 | a scale is recognised by its own name exactly when its weight's name ends in `.weight` |
| ShardConversion.OrderDoesNotMatter | tools/dequant_minimax_fp8.py:153-182 | with such names every order converts each weight once, drops its scale, keeps all else, and raises exactly when a scale is missing or does not fit |
| ShardConversion.OrderMattersExactly | tools/dequant_minimax_fp8.py:153-182 | where all scales fit, all orders give one map if and only if every FP8 weight is named so |
| MtpPairing.PairParams | tools/export_mtp.py:452-464 | the pairing loop |
| MtpPairing.PairsFold | tools/export_mtp.py:452-464 | weights with a scale are dequantised, other keys kept, scales dropped; it raises exactly when a scale does not fit |
| MtpPairing.OrderOfPairs | tools/export_mtp.py:452-464 | all orders give the same parameters if and only if the scales of each weight agree |

## Left out

- Regular expressions: the DSML patterns are hand-written recognisers; `$` is the end of the text.
- nlohmann::json, `partial_json_loads`, `is_complete_json` and base 64: functions about which nothing is assumed beyond what a lemma requires. Which texts they throw at is not modelled; the failing streams of BaseDetectorFailures and MinusSign assume of them only what they do with the texts shown.
- Well-formed UTF-8 is lead bytes with the continuation bytes they announce; overlong forms and surrogates are not excluded, so the results cover more texts than RFC 3629 allows.
- DSML detector: the extraction of calls from a parsed JSON block, `parse_base_json` and the sanitisers of markdown fences and placeholders are functions of the text; they do not affect which invokes are read.
- DSML detector: ordinary text of streams in which parsing throws, or in which a quoted `tool_calls` key makes the detector read JSON, is not characterised.
- DsmlFlush.FlushExactly: with lost items and JSON calls in one stream, an index may by coincidence have what it should; such streams are left open.
- Base detector: the declared tools do not change between calls of one detector, so the cached index is the set of their names. When a JSON parse throws, the step is silent like any step with nothing to act on.
- BaseDetectorTheorems.DeltasAddUp: about a call that begins with an empty slot; SlotDecides shows that no other adds up once it is complete, and ResetRule exactly when a reset leaves one. Once arguments were shown, every later text that shows the call shows some; printing that throws ends the call and is not in it. StreamAddsUp is about streams without such resets.
- Multipart: the limit on part sizes and all checks are modelled, memory is not; slices share blocks in the source and are copies here.
- StreamCall: typed RPC calls, which fail the controller instead, and the non-streaming writers of the same class; headers, metrics and logs. The 32-bit status word is the set of its bits.
- AnthropicResults.ClientView: a frame counts as delivered while every write so far returned 0. BracketedExactly is about transports that may lose and accept any frames, over all streams; which single streams survive a loss is not characterised.
- StreamRace: atomics and the mutex are sequentially consistent; the relaxed loads of the source only read the status word, which publishes nothing else.
- Anthropic: the reasoning and tool parsers are whatever they return; ids, models and non-streaming responses are not modelled. The patches that add null fields to message_start and message_delta are left out.
- Rerank: scores are exact and totally ordered, so NaN and cosine similarity are out; token sums do not overflow. `std::sort` may order equal scores as it likes, and no result depends on it.
- Dequant: exact arithmetic instead of bfloat16 and float32; block sizes are natural numbers, zero raising as in Python. A scale tensor of more than two dimensions in the tile loop is not modelled.
- ShardConversion and MtpPairing: dequantisation is a function that may raise; the byte totals of a shard are not computed.
- HTTP and RPC entry points, request building, sleep and wakeup, services over the engine, build and launch scripts: plumbing without an invariant of its own.
