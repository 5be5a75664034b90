# Verified model of Token Gate

Token Gate forwards model requests to one of several upstream backends, translating between the Anthropic Messages API
and the OpenAI Responses API where client and upstream differ. This project models the parts of it whose behaviour
spans many calls, and proves what they keep:

* **The protocol translator.** Two stream converters, each a state machine over decoded events, with the event-stream
  parser and printer beneath them and the converters of whole conversations beside them. Each converter is a class
  whose methods change its fields as the source does and are proved against a specification step; the theorems are
  about that step: the order of every output, conservation of text and of token usage, and exact round trips.
* **The circuit breaker and the scheduler.** Backend rows, changed by single SQL statements; a failure and an
  administrator's edit are a read and a later write, so every interleaving of them is covered. Runs of whole requests
  are shown to be special interleavings and obey stronger rules.
* **The failover loop.** Upstream outcomes and the client's cancellation are arbitrary input.
* **The hourly roll-up.** A materialised sum over a log whose entries may be deleted.

Files hold one module each. `Text`, `Json`, `Sse`, `Frames` and `Blocks` are the common ground; `MessagesEvents` and
`ResponsesEvents` are the two event languages; `ToResponses` and `ToMessages` the stream converters; `ResponsesOrder`,
`ResponsesDeltas`, `MessagesOrder`, `RoundTrip`, `Usage`, `UsageTranslation`, `Batch` and `BatchRoundTrip` their
theorems and those of the converters of complete responses; `Grouping`, `Conversation` and `ConversationRoundTrip` the
request side; `StoredTime`, `Breaker`, `Overlap`, `Disabling`, `BackendTable`, `Scheduler`, `Cooldown`, `Failover` and
`Rollup` the gateway's state. `dafny verify dfyconfig.toml` checks everything.

A second group of modules defines each result once more, in other terms, and proves that the two definitions agree on
all inputs. `ResponsesHistory` and `MessagesHistory` tell what the stream converters write from the events read so far,
without a state; `ResponsesClient` and `MessagesClient` read the written JSON as a client would. `EventReading` says
which frames read as which event, `SseFormat` what a text means line by line, `TimeReading` what time a stored text
shows. `ConversationShapes`, `ResponseShapes` and `UsageReports` go by the fields of arbitrary payloads, `Routing`,
`FailoverReports` and `RollupSums` by plain numbers and sums.

JSON text enters through a parameter `Codec` with an encoder and a decoder. Where a theorem needs it, `Lawful` states
what is relied on: decoding undoes encoding, and an encoded value is one trimmed line.

Some promises hold only under a condition, which the model makes exact. Deltas may follow the end of their block, in
either direction (`MessagesOrder.DeltasInsideIff`, `ResponsesDeltas.DeltasInsideIff`). Overlapping failures may be lost
(`Overlap.NoFailureLostIff`) and may miss or undo a trip (`Overlap.TripsIff`), and a disabling may be undone by requests
that overlap with it (`Disabling.DisabledUntil`, `Disabling.StaysDisabledIff`). Stored times are out of order inside
some seconds (`StoredTime.OrderExact`). A 2xx answer that cannot be adapted or read leaves the client without a response
written (`Failover.OneResponse`), and a cancellation found between tries writes a usage row twice
(`Failover.OneRowPerTryIff`). Translation keeps the account of a stream unless some frame reports more than the usage
known when the response opens and at its ends, as a stream that breaks off early may do
(`UsageTranslation.ToResponsesKeepsIff`, `UsageTranslation.TruncatedLosesTheEnd`). A complete response loses its stop
reason on the way to the Responses API (`BatchRoundTrip.BatchRoundTripIff`), which a stream does not.

Where documents and code differ the code is modelled: `docs/DESIGN.md:280-285` excludes status 400 from failures while
`internal/domain/types.go:161-163` and the failover loop count every status outside 2xx, and `README.md:31-39`
describes routing modes that the scheduler does not have. The event-stream parser departs from sections 9.2.5 and 9.2.6
of the WHATWG HTML standard: it also flushes an event at the end of input, dispatches an event that has a name but no
data, ignores a line without a colon where the standard reads it as a field name, and takes no lone carriage return as
the end of a line.

## Model

| member | source | states |
|---|---|---|
| `Sse.ParseStream` | internal/proxy/translate.go:825-870 | The line loop of the event-stream parser computes the specification `Parse`: comment lines skipped, the last `event` name wins, `data` rows joined by newlines, events flushed at blank lines and at the end of input. |
| `Sse.MarshalStream` | internal/proxy/translate.go:872-888 | The printer loop computes the specification `Print`. |
| `Sse.MarshalEvent` | internal/proxy/translate.go:872-888 | One event prints as an optional name line, one `data:` line per row, and a blank line. |
| `Sse.ParsePrint` | internal/proxy/translate.go:825-888 | Parsing printed text gives every event in canonical form (name and rows as the parser trims them), for all lists whose printed names hold no newline. |
| `Sse.PrintParseRoundTrip` | internal/proxy/translate.go:825-888 | Parsing undoes printing for a list of events if and only if every event is printable: its name is empty, or non-blank without newline or trailing CR, and no data row ends in CR. |
| `Sse.ParseConcat` | internal/proxy/translate.go:825-870 | At a boundary where the first text ends in a blank line, parsing a concatenation is concatenating the parses. |
| `SseFormat.ParseIsMeaning` | internal/proxy/translate.go:825-870 | For every text, taken as lines of known kinds: blocks end at empty lines and at the end of the text; comments, other fields and lines without a colon say nothing; one space after the colon is dropped; the last name wins; data rows are joined by newlines; a block with neither name nor data is no event. |
| `SseFormat.EveryText` | internal/proxy/translate.go:825-870 | Every text is made of such lines, so `ParseIsMeaning` leaves none out. |
| `SseFormat.PrintIsRendered` | internal/proxy/translate.go:872-888 | A printed event is an `event` line unless the name is blank, a `data` line for each row of its data, and an empty line. |
| `EventReading.DataIff` | internal/proxy/translate.go:902-915 | What the data of an event reads as: nothing when blank or `[DONE]`, an object, an empty object for null, and malformed otherwise. |
| `EventReading.ErrorsIff` | internal/proxy/translate.go:452-461 | Reading fails exactly at malformed data of an event that is not a ping. |
| `EventReading.MessagesReadIff` | internal/proxy/translate.go:463-611 | For every Messages event, exactly the frames that read as it, whatever fields are missing or of another kind: `type` before the event name, white space around a type, empty deltas, and the order in which an error looks for its message and code. |
| `EventReading.ResponsesReadIff` | internal/proxy/translate.go:323-434 | For every Responses event, exactly the frames that read as it, whatever fields are missing or of another kind. |
| `EventReading.PingIff` | internal/proxy/translate.go:308-313 | A ping is recognised by its name alone, in any mixture of cases. |
| `Frames.ReadWriteFrames` | internal/proxy/translate.go:890-915 | Frames encoded into event data decode to themselves. |
| `Frames.TextRoundTrip` | internal/proxy/translate.go:825-915 | Frames printed as event-stream text and parsed again are the frames that were written. |
| `MessagesEvents.ReadWrite` | internal/proxy/translate.go:463-613 | Every Messages event the gateway writes is read back by the gateway as that event. |
| `MessagesEvents.ReadAllConcat` | internal/proxy/translate.go:450-463 | Reading frames distributes over concatenation, errors included. |
| `ResponsesEvents.ReadWrite` | internal/proxy/translate.go:307-435 | Every Responses event the gateway writes is read back by the gateway as that event. |
| `ResponsesEvents.ReadAllConcat` | internal/proxy/translate.go:307-323 | Reading frames distributes over concatenation, errors included. |
| `Blocks.OrderedIndexes` | internal/proxy/translate.go:917-924 | The indexes of the kept blocks, each once, in ascending order, whatever order the map yields them in. |
| `Blocks.AscendingUnique` | internal/proxy/translate.go:917-924 | An ascending list is determined by its elements. |
| `ToResponses.CollectTexts` | internal/proxy/translate.go:806-823 | The texts of the output item are those of the given blocks in the given order. |
| `ToResponses.Converter.constructor` | internal/proxy/translate.go:444-449 | A converter starts in the initial state. |
| `ToResponses.Converter.EnsureResponsesCreated` | internal/proxy/translate.go:702-724 | `response.created` is emitted once, with the identity and usage known then. |
| `ToResponses.Converter.EnsureResponsesOutputItemAdded` | internal/proxy/translate.go:726-748 | `response.output_item.added` is emitted once, with the item id and role known then. |
| `ToResponses.Converter.EnsureResponsesContentPartAdded` | internal/proxy/translate.go:750-771 | A part is announced once per index and its block is open from then on. |
| `ToResponses.Converter.CloseOpenResponsesBlocks` | internal/proxy/translate.go:773-804 | Every open block is closed in ascending order of index, with its two done events. |
| `ToResponses.Converter.BuildResponsesOutputItem` | internal/proxy/translate.go:806-823 | The item lists the texts of all blocks by ascending index. |
| `ToResponses.Converter.MessageStart` | internal/proxy/translate.go:465-477 | A start updates identity, role and usage and opens response and item. |
| `ToResponses.Converter.TextDelta` | internal/proxy/translate.go:493-521 | A text delta is appended to its block and emitted. |
| `ToResponses.Converter.MessageStop` | internal/proxy/translate.go:565-604 | The stop closes all blocks and emits the finished item and the completed response. |
| `ToResponses.Converter.Handle` | internal/proxy/translate.go:463-611 | One pass of the switch over event kinds changes the converter exactly as the specification step does, whose output `ResponsesHistory.OutputIsReplies` fixes for every kind. |
| `ToResponses.ConvertFrames` | internal/proxy/translate.go:438-613 | The whole conversion of decoded frames equals folding the specification step and fails at the first malformed frame; `ResponsesHistory.OutputIsReplies` and `ResponsesClient.StreamReadsBack` say what that comes to. |
| `ToResponses.ConvertStream` | internal/proxy/translate.go:438-613 | The conversion of event-stream text equals the specification on parsed text. |
| `ToResponses.RunAppend` | internal/proxy/translate.go:450-611 | A run over a concatenation is a run over the first part continued over the second. |
| `ResponsesHistory.OutputIsReplies` | internal/proxy/translate.go:438-613 | For every input the converter writes exactly the answers that the events read so far call for, told without its state: identity, role, usage, stop reason and sequence are the last ones read, a part is announced at its first event and ended at its first end, and a stop lists all texts by ascending index. |
| `ResponsesHistory.FailuresPassOn` | internal/proxy/translate.go:605-610 | For every input the errors written are the failures read, in order, with message and code. |
| `ResponsesHistory.OneItem` | internal/proxy/translate.go:702-823 | In a stream with one message every event names the same item, the id of the message. |
| `ResponsesClient.WrittenReadsBack` | internal/proxy/translate.go:702-823 | A reader of its own that insists on every documented field of every event, also those the gateway does not read, reads each written event as it was. |
| `ResponsesClient.StreamReadsBack` | internal/proxy/translate.go:438-613 | What that reader finds in a translated stream is, frame by frame, what the events sent call for. |
| `ResponsesClient.CompletedOnTheWire` | internal/proxy/translate.go:565-604 | Whatever came before, the last two frames at a `message_stop` show the finished item and the completed response with that item as its one output, under the last id, role, model and usage. |
| `ResponsesClient.OutputTexts` | internal/proxy/translate.go:565-604 | The texts under `response.output` of the last frame are those read for every named index, by ascending index. |
| `ToMessages.Converter.constructor` | internal/proxy/translate.go:301-306 | A converter starts in the initial state. |
| `ToMessages.Converter.EnsureAnthropicMessageStart` | internal/proxy/translate.go:635-663 | `message_start` is emitted once, with the identity and start usage known then. |
| `ToMessages.Converter.EnsureAnthropicContentBlockStart` | internal/proxy/translate.go:665-683 | `content_block_start` is emitted once per index. |
| `ToMessages.Converter.CloseOpenAnthropicBlocks` | internal/proxy/translate.go:685-700 | Every open block is stopped in ascending order of index. |
| `ToMessages.Converter.TextDelta` | internal/proxy/translate.go:351-374 | A text delta is appended to its block and emitted. |
| `ToMessages.Converter.Created` | internal/proxy/translate.go:325-332 | `response.created` updates identity and start usage and starts the message. |
| `ToMessages.Converter.Completed` | internal/proxy/translate.go:398-427 | `response.completed` stops all blocks and emits `message_delta` and `message_stop`. |
| `ToMessages.Converter.Handle` | internal/proxy/translate.go:323-434 | One pass of the switch over event kinds changes the converter exactly as the specification step does, whose output `MessagesHistory.OutputIsReplies` fixes for every kind. |
| `ToMessages.ConvertFrames` | internal/proxy/translate.go:295-436 | The whole conversion of decoded frames equals folding the specification step and fails at the first malformed frame; `MessagesHistory.OutputIsReplies` and `MessagesClient.StreamReadsBack` say what that comes to. |
| `ToMessages.ConvertStream` | internal/proxy/translate.go:295-436 | The conversion of event-stream text equals the specification on parsed text. |
| `ToMessages.RunAppend` | internal/proxy/translate.go:307-434 | A run over a concatenation is a run over the first part continued over the second. |
| `MessagesHistory.OutputIsReplies` | internal/proxy/translate.go:295-436 | For every input the converter writes exactly the answers that the events read so far call for, told without its state: identity, role and usage are the last ones read, a block starts at its first event and ends at its first end, and a completed response ends the open blocks in ascending order. |
| `MessagesHistory.NoticesPassOn` | internal/proxy/translate.go:308-434 | For every input the errors and pings written are the failures and pings read, in order, with their messages. |
| `MessagesHistory.TextConserved` | internal/proxy/translate.go:351-374 | For every input and index the deltas written are the deltas read. |
| `MessagesClient.WrittenReadsBack` | internal/proxy/translate.go:351-700 | A reader of its own that insists on every documented field of every event reads each written event as it was; `message_start` is empty and not stopped, and leaves out an id, model or usage it does not have. |
| `MessagesClient.StreamReadsBack` | internal/proxy/translate.go:295-436 | What that reader finds in a translated stream is, frame by frame, what the events sent call for. |
| `MessagesClient.EndOnTheWire` | internal/proxy/translate.go:398-427 | Whatever came before, a completed response ends the stream with its stop reason, `end_turn` for none, its stop sequence and its usage, and a stop. |
| `ResponsesOrder.OutputWellFormed` | internal/proxy/translate.go:438-613 | For arbitrary input events the written stream is well formed: created and item at most once and in that order before any part, one part and one done pair per index, done texts equal to the deltas, no open part at completion. |
| `ResponsesOrder.WellFormedMeans` | internal/proxy/translate.go:702-804 | Well-formedness spelled out by positions in the output, with every part closed before completion. |
| `ResponsesOrder.TextConserved` | internal/proxy/translate.go:493-521 | For arbitrary input the deltas written for an index concatenate to the text read for it, and a part is written exactly for the indexes the input touches. |
| `ResponsesOrder.CompletedText` | internal/proxy/translate.go:565-604 | At every `message_stop`, whatever came before, the completed item lists by ascending index the text read so far for every index that was touched. |
| `ResponsesDeltas.DoneMeansClosed` | internal/proxy/translate.go:522-558 | A text done event is written for an index exactly when the input has stopped its block, or ended a message after using it. |
| `ResponsesDeltas.DeltasInsideIff` | internal/proxy/translate.go:493-521 | Every delta precedes the text done event of its part if and only if the input sends no text for a block it has closed; the condition speaks of the input alone. |
| `ResponsesDeltas.LateTextExists` | internal/proxy/translate.go:565-604 | Text after a stop of the message makes a delta follow its text done event. |
| `MessagesOrder.OutputWellFormed` | internal/proxy/translate.go:295-436 | For arbitrary input events the written stream is well formed: one start before all blocks, one start and at most one later stop per index, deltas after their start, no open block when the message ends. |
| `MessagesOrder.WellFormedMeans` | internal/proxy/translate.go:635-700 | Well-formedness spelled out by positions in the output. |
| `MessagesOrder.EndMeansClosed` | internal/proxy/translate.go:381-397 | A stop is written for an index exactly when the input has opened and then closed its part. |
| `MessagesOrder.DeltasInsideIff` | internal/proxy/translate.go:344-374 | Every delta precedes the stop of its block if and only if the input sends no text for a part it has closed; the condition speaks of the input alone. |
| `MessagesOrder.LateTextExists` | internal/proxy/translate.go:344-374 | A second part that reuses a content index makes a delta follow its stop. |
| `RoundTrip.RunWithoutSkips` | internal/proxy/translate.go:450-463 | Frames that are passed over make no difference wherever they stand. |
| `RoundTrip.RoundTripExact` | internal/proxy/translate.go:295-613 | Converting any text message there and back, with passed-over frames anywhere, yields a predicted stream: blocks repaired to be properly bracketed, identity and stop reason defaulted, a missing final usage taken from the start. |
| `RoundTrip.RepairedIsSame` | internal/proxy/translate.go:478-558 | The repaired blocks are the ones sent if and only if the blocks sent are properly bracketed. |
| `RoundTrip.RoundTripIdentityIff` | internal/proxy/translate.go:295-613 | There and back is the identity, passed-over frames aside, if and only if the role is assistant, id and model are absent or not blank, the stop reason is not blank and the blocks are bracketed. |
| `RoundTrip.FramesRoundTrip` | internal/proxy/translate.go:295-613 | The exact round trip on decoded frames. |
| `RoundTrip.TextRoundTripExact` | internal/proxy/translate.go:295-613 | The exact round trip on event-stream text. |
| `RoundTrip.FillersAreSkipped` | internal/proxy/translate.go:452-461 | Pings, empty events and end markers are passed over wherever they stand. |
| `RoundTrip.DocumentedRoundTrip` | internal/proxy/translate.go:295-613 | A complete interleaved text stream as the Messages API documents it, with pings and end markers at any place, returns unchanged without them. |
| `RoundTrip.ToolBlockBecomesEmptyText` | internal/proxy/translate.go:478-532 | A tool block is not carried over and leaves an empty text block behind. |
| `Usage.AnthropicCacheTokens` | internal/handler/handle_log.go:407-417 | Cache tokens from the totals or, where a total is zero, from its details. |
| `Usage.SumUsageDetailTokens` | internal/handler/handle_log.go:419-425 | The sum of detail values over a map visited in any order. |
| `Usage.SumAnyKey` | internal/handler/handle_log.go:419-425 | The sum does not depend on the order in which keys are visited. |
| `Usage.UsageFromPayload` | internal/handler/handle_log.go:357-370 | The pointwise maximum of the usages found at the three places of a payload. |
| `Usage.MergeCandidate` | internal/handler/handle_log.go:363-368 | An empty usage object changes nothing, any other is merged by pointwise maximum of what `UsageReports.NormalizeIff` says it is worth. |
| `Usage.ExtractUsage` | internal/handler/handle_log.go:329-348 | The fold over stream events computes the extracted usage, skipping what does not decode; `UsageReports.ExtractBounds` and `UsageReports.ReportIsLogged` say what it is. |
| `Usage.ExtractIsLeastBound` | internal/handler/handle_log.go:329-348 | The extracted usage is the least upper bound of the usages of all events. |
| `Usage.ReportsAgree` | internal/handler/handle_log.go:372-398 | Every triple of counts, reported under the Responses or the Chat Completions names, normalizes to itself. |
| `Usage.MessagesReportAgrees` | internal/handler/handle_log.go:372-417 | A Messages report is worth the Responses report in which its cached tokens are part of the input. |
| `Usage.CacheIsPartOfInput` | internal/handler/handle_log.go:372-398 | For Anthropic counts the input exceeds the cached tokens by the uncached input, whatever the fields hold. |
| `UsageReports.NormalizeIff` | internal/handler/handle_log.go:372-425 | What a usage object is worth is exactly what its fields say: the first of two names that is not zero, cached tokens by totals or by the sum of their details, counted into the input when they are reported apart. |
| `UsageReports.DecimalIsRead` | internal/handler/handle_log.go:510-529 | A count given as decimal text, with or without a sign, is read as that number if it fits 64 bits and as zero otherwise. |
| `UsageReports.PaddingIgnored` | internal/handler/handle_log.go:510-529 | White space around a count given as text does not matter. |
| `UsageReports.JunkCountsNothing` | internal/handler/handle_log.go:510-529 | Only the decimal text of a number that fits 64 bits counts at all. |
| `UsageReports.SmallSums` | internal/handler/handle_log.go:419-425 | The details of nothing sum to zero and those of one entry to that entry. |
| `UsageReports.ExtractBounds` | internal/handler/handle_log.go:329-370 | The usage logged for a stream is the least bound, not below zero, of what every non-empty usage object under `usage`, `response.usage` or `message.usage` of its frames is worth. |
| `UsageReports.SingleUsage` | internal/handler/handle_log.go:329-370 | A stream with one usage object is logged with what that is worth. |
| `UsageReports.ReportIsLogged` | internal/handler/handle_log.go:329-398 | A frame that holds counts under the Responses or the Chat Completions names, at any of the three places, is logged with those counts. |
| `UsageReports.MessagesReportIsLogged` | internal/handler/handle_log.go:329-417 | A frame that holds a Messages report at any of the three places is logged with its cached tokens counted into the input. |
| `UsageTranslation.ToResponsesNeverAdds` | internal/proxy/translate.go:438-613 | For arbitrary input translation to Responses never increases the extracted usage. |
| `UsageTranslation.ToMessagesNeverAdds` | internal/proxy/translate.go:295-436 | For arbitrary input translation to Messages never increases the extracted usage. |
| `UsageTranslation.ToResponsesBills` | internal/proxy/translate.go:463-611 | For every input that can be read the extracted usage after translation is exactly the largest of the usages known when the response opens and at every stop. |
| `UsageTranslation.ToResponsesKeepsIff` | internal/proxy/translate.go:463-611 | The account is kept if and only if no frame of the input reports more than that. |
| `UsageTranslation.ToResponsesKeepsUsage` | internal/proxy/translate.go:465-604 | For a stream with one start and a final stop this is the larger of the first and the last usage. |
| `UsageTranslation.TruncatedLosesTheEnd` | internal/proxy/translate.go:559-564 | A stream that breaks off before its stop is billed for its start alone. |
| `UsageTranslation.TruncatedExample` | internal/proxy/translate.go:559-564 | Such a stream whose final usage of seven tokens is lost. |
| `UsageTranslation.ToMessagesBills` | internal/proxy/translate.go:323-434 | For every input that can be read the extracted usage after translation is exactly the largest of the usages known when the message starts and at every completion. |
| `UsageTranslation.ToMessagesKeepsIff` | internal/proxy/translate.go:323-434 | The account is kept if and only if no frame of the input reports more than that. |
| `UsageTranslation.ToMessagesKeepsUsage` | internal/proxy/translate.go:325-427 | For a stream with one created and a final completed event this is the larger of their usages. |
| `Batch.ConvertOutputBlocks` | internal/proxy/translate.go:1194-1222 | The loop over content blocks computes the specification list. |
| `Batch.StreamingRefinesBatch` | internal/proxy/translate.go:183-203 | For every complete text stream with indexes 0..n-1, passed-over frames anywhere, the completed response has the texts, role, id and model that the non-streaming converter gives for the assembled message. |
| `ResponseShapes.ConvertedShows` | internal/proxy/translate.go:183-203 | What a complete Messages response becomes, field by field for every payload: one message item whose content is the text blocks as output_text, other objects copied and values that are no objects dropped, or a trimmed string; usage only when there is one. |
| `BatchRoundTrip.ConvertOutput` | internal/proxy/translate.go:1162-1192 | The loop over output items computes the specification content. |
| `ResponseShapes.ConvertedBackShows` | internal/proxy/translate.go:148-181 | What a complete Responses response becomes, field by field for every payload: the content of message items, a tool use for each call, text items that are not blank, `output_text` when they give nothing, `end_turn` for no stop reason. |
| `ResponseShapes.ItemGives` | internal/proxy/translate.go:1162-1192 | The blocks each output item of any kind gives. |
| `BatchRoundTrip.BlockReturns` | internal/proxy/translate.go:1194-1222 | One content block there and back: an entry that is no object is dropped, a text block keeps its text, an object of any other type is unchanged. |
| `BatchRoundTrip.ContentReturns` | internal/proxy/translate.go:1127-1222 | A content list there and back keeps its objects in order. |
| `BatchRoundTrip.MessageReturns` | internal/proxy/translate.go:148-203 | A complete message there and back keeps id, model, usage and content; its stop reason becomes `end_turn` and its stop sequence is lost. |
| `BatchRoundTrip.BatchRoundTripIff` | internal/proxy/translate.go:148-203 | Complete messages return as sent if and only if they are the assistant's, ended their turn without a stop sequence and hold only blocks that return. |
| `Grouping.AppendContentTurns` | internal/proxy/translate.go:1497-1511 | Appending content appends exactly its blocks, under its role, and keeps the messages alternating. |
| `Grouping.AppendOneByOne` | internal/proxy/translate.go:1497-1528 | Adding blocks together or one by one gives the same messages. |
| `Grouping.GroupMeaning` | internal/proxy/translate.go:1497-1542 | Merging by role loses nothing, keeps the order and leaves no two neighbours with one role. |
| `Grouping.GroupingUnique` | internal/proxy/translate.go:1497-1542 | There is only one alternating conversation with a given list of turns. |
| `Grouping.GroupFlatten` | internal/proxy/translate.go:1497-1542 | Merging the turns of an alternating conversation gives it back. |
| `Conversation.ConvertMessage` | internal/proxy/translate.go:1224-1269 | The loop that splits a message at tool blocks computes the specification items. |
| `Conversation.ConvertMessagesToInput` | internal/proxy/translate.go:1017-1033 | The loop over messages computes the specification input. |
| `Conversation.AppendAnthropicMessageContent` | internal/proxy/translate.go:1497-1511 | The appended or extended list is the specification `AppendContent`. |
| `Conversation.ConvertItem` | internal/proxy/translate.go:1041-1065 | One input item changes the messages as the specification does; `ConversationShapes.EntryContributes` says what the item adds. |
| `Conversation.ConvertInputToMessages` | internal/proxy/translate.go:1035-1076 | The loop over input items, and the string and default cases, compute the specification; `ConversationShapes.InputMeaning` and `ConversationShapes.StringInput` say what it is. |
| `Conversation.MergingKeepsOrder` | internal/proxy/translate.go:1035-1076 | For every input the messages are non-empty and their blocks are those of the items in order; they alternate if and only if no bare string follows a turn of the user. |
| `Conversation.ObjectsMergeUniquely` | internal/proxy/translate.go:1035-1076 | For an input of objects the messages are the only alternating conversation with the items' blocks in order. |
| `Conversation.ToolItemsPlaced` | internal/proxy/translate.go:1048-1054 | Every function call stands in a message of the assistant and every function call output in one of the user. |
| `Conversation.BareStringsStaySplit` | internal/proxy/translate.go:1041-1043 | Two bare strings in a row stay two neighbouring messages of the user. |
| `ConversationShapes.EntryContributes` | internal/proxy/translate.go:1041-1065 | What an input item of any kind contributes, field by field: its role, user by default; its content as a list entry by entry, as a string unless blank, or only its text; a call with its id, name and decoded arguments, `{}` when they are no object; an output with its call id. |
| `ConversationShapes.InputMeaning` | internal/proxy/translate.go:1035-1076 | The messages made of a list of input items hold, block by block and in order, what each item contributes. |
| `ConversationShapes.StringInput` | internal/proxy/translate.go:1035-1043 | A string, or a list of one string, is one message of the user with that text; a missing input is no message. |
| `ConversationShapes.StringContent` | internal/proxy/translate.go:1055-1065 | String content is worth the same as a list of one input_text, and nothing when it is blank. |
| `ConversationShapes.MessageBecomesItems` | internal/proxy/translate.go:1224-1269 | What a message of any kind becomes: every block one piece in order, a tool_use a call and a tool_result its output, text as input_text, the rest copied; pieces between tool blocks share one message item, none is empty, and a blank string gives nothing. |
| `ConversationShapes.MessagesMeaning` | internal/proxy/translate.go:1017-1033 | The input made of a list of messages is, in order, what each message becomes; an entry that is no object is passed through. |
| `ConversationRoundTrip.ConversationReturns` | internal/proxy/translate.go:1017-1076 | Every conversation, converted there and back, returns as the merged list of its blocks, each changed in a stated way. |
| `ConversationRoundTrip.ConversationRoundTripIff` | internal/proxy/translate.go:1017-1076 | There and back is the identity if and only if the messages are non-empty, alternate, and hold only blocks that return unchanged. |
| `ConversationRoundTrip.MergedConversationReturns` | internal/proxy/translate.go:1497-1542 | Without alternation the same blocks return in order with neighbouring messages of one role merged. |
| `ConversationRoundTrip.TextUnchanged` | internal/proxy/translate.go:1370-1417 | Text blocks return unchanged under either role. |
| `ConversationRoundTrip.ToolUseUnchanged` | internal/proxy/translate.go:1419-1476 | A tool use with an object input returns unchanged if and only if it is the assistant's and its id is empty or not blank. |
| `ConversationRoundTrip.ToolResultUnchanged` | internal/proxy/translate.go:1434-1495 | A tool result with a string, or with any number of text blocks but one, returns unchanged if and only if it is the user's. |
| `ConversationRoundTrip.SingleTextResultBecomesString` | internal/proxy/translate.go:1442-1457 | A tool result with a single text block comes back as a string. |
| `ConversationRoundTrip.OtherUnchanged` | internal/proxy/translate.go:1405-1417 | Blocks of every other kind, and values that are no objects, return unchanged. |
| `StoredTime.OrderExact` | internal/store/store.go:674-676 | Comparing two stored times as texts is time order, except within one second, where it is wrong exactly when one trimmed fraction is a proper prefix of the other. |
| `StoredTime.SecondsAreOrdered` | internal/store/store.go:674-676 | Times of different seconds compare correctly. |
| `StoredTime.FormatInjective` | internal/store/store.go:674-676 | Two times never share a text. |
| `StoredTime.WholeSecondsExact` | internal/store/store_backend.go:694-701 | Whole seconds, and so whole hours, compare exactly. |
| `StoredTime.WholeSecondReadsLast` | internal/store/store_backend.go:519 | Within a second the whole second reads as later than every other time of it. |
| `TimeReading.FormatShows` | internal/store/store.go:674-676 | Every stored text shows its time in RFC 3339 layout: the Gregorian calendar in closed form, the clock, and a fraction without trailing zeros. |
| `Breaker.RowInvariant` | internal/store/store_backend.go:415-522 | Under every interleaving of split failures, successes, selections and stale administrator writes each row is normal below the threshold without a time, abnormal from it on with one, or disabled without one. |
| `Breaker.RecoverableIff` | internal/store/store_backend.go:386-388 | Some selection recovers a row if and only if it is abnormal with a recovery time; an imported abnormal row has none. |
| `Breaker.DueExact` | internal/store/store_backend.go:515-522 | Which selections recover a tripped row, in terms of times instead of texts. |
| `Breaker.NeverTripsEarly` | internal/store/store_backend.go:482-513 | Under every interleaving the count is at most the failure writes made, so a trip needs a threshold of them. |
| `Breaker.SoundUnderAnyThresholds` | internal/config/config.go:54-58 | Whatever thresholds successive starts read, an abnormal row has a recovery time and a positive count, and no other row has a time. |
| `Breaker.LoweredThreshold` | internal/config/config.go:54-58 | A lower threshold leaves a normal row at it, so the count's side of the invariant is one of a single threshold. |
| `Overlap.OverlappingFailures` | internal/store/store_backend.go:482-513 | Failures that overlap in any way raise the count by at least one and at most their number. |
| `Overlap.OverlapBoundsAreMet` | internal/store/store_backend.go:482-513 | Both bounds are met: serial failures all count, failures that all read first count once and may cross the threshold without a trip. |
| `Overlap.NoFailureLostIff` | internal/store/store_backend.go:482-513 | Overlapping failures of a backend nobody was working on all count if and only if no other failure of it is written between the read and the write of any of them. |
| `Overlap.ChainRun` | internal/store/store_backend.go:482-513 | In general the count grows by the length of the chain of failures, each read after the one before was written, that ends with the last one written. |
| `Overlap.TripsIff` | internal/store/store_backend.go:482-513 | Overlapping failures leave the backend tripped if and only if its count and that chain reach the threshold; when their number just reaches it, if and only if none is lost. |
| `Overlap.TripCanBeUndone` | internal/store/store_backend.go:504-508 | A failure that reads early and writes last makes a tripped backend normal again. |
| `Disabling.DisabledUntil` | internal/store/store_backend.go:469-513 | The exact steps that take a backend out of the disabled status: a success, or a failure or an edit that read the row earlier, or an edit to normal. |
| `Disabling.DisablingCanBeUndone` | internal/store/store_backend.go:482-513 | A failure that began before the administrator disabled a backend makes it normal again. |
| `Disabling.DisablingSettles` | internal/handler/handle_backend.go:441-457 | The administrator's write leaves every copy of the row disabled when no earlier caller still holds one. |
| `Disabling.StaysDisabledIff` | internal/store/store_backend.go:469-513 | Once every call that read before the disabling is over, a backend stays disabled through a run, whatever overlaps, if and only if no success of it is reported and no edit asks for the normal status. |
| `BackendTable.Store.CreateBackend` | internal/store/store_backend.go:291-336 | A new row has the given status, a count of zero, no recovery time and the next id. |
| `BackendTable.Store.HandleCreateBackend` | internal/handler/handle_backend.go:248-347 | A backend made by the administrator is normal. |
| `BackendTable.Store.DeleteBackend` | internal/store/store_backend.go:524-527 | Exactly the named row goes away. |
| `BackendTable.Store.GetBackend` | internal/store/store_backend.go:457-467 | The stored row, or nothing when the id is unknown. |
| `BackendTable.Store.MarkBackendSuccess` | internal/store/store_backend.go:469-480 | The row becomes normal with no failures whatever it was. |
| `BackendTable.Store.MarkBackendFailure` | internal/store/store_backend.go:482-513 | Read, decision and write change the table as the specification of a failure does; an unknown id is reported. |
| `BackendTable.Store.RecoverExpiredBackends` | internal/store/store_backend.go:515-522 | Exactly the due rows become normal with no failures. |
| `BackendTable.Store.HandleUpdateBackend` | internal/handler/handle_backend.go:350-463 | The administrator's status change resets count and time only when the status differs; other statuses are refused and change nothing. |
| `BackendTable.OperationsAreSteps` | internal/store/store_backend.go:482-513 | Whole operations are special runs of the interleaved steps. |
| `BackendTable.TableInvariant` | internal/store/store_backend.go:415-522 | The row invariant holds in every table that whole operations reach. |
| `BackendTable.CountIsExact` | internal/store/store_backend.go:469-522 | When operations do not overlap, the count is exactly the failures since the last success, recovery or change of status by hand, and a backend is tripped exactly when it is enabled and that many reach the threshold. |
| `BackendTable.TimeIsLastFailure` | internal/store/store_backend.go:482-513 | When operations do not overlap, a tripped backend holds the recovery time its last failure asked for: a failure of a backend already tripped replaces it. |
| `Scheduler.SelectBackend` | internal/scheduler/scheduler.go:38-71 | The selection holds exactly the eligible backends by weight descending and id ascending; the error means there is none. |
| `Scheduler.StableSort` | internal/scheduler/scheduler.go:60-65 | Sorting gives an ordered permutation. |
| `Scheduler.SelectedIff` | internal/scheduler/scheduler.go:49-58 | A backend is selected if and only if it is stored, normal and supports the model. |
| `Scheduler.SelectionIsUnique` | internal/scheduler/scheduler.go:38-71 | The selection depends on which backends are stored, not on the order they are listed in. |
| `Scheduler.NormalizeList` | internal/store/store.go:740-759 | The loop computes the normalized list. |
| `Scheduler.NormalListMeaning` | internal/store/store.go:740-759 | A normalized list holds each trimmed, non-blank value exactly once and nothing else. |
| `Scheduler.NormalListFixed` | internal/store/store.go:697-703 | Normalizing again on reading changes nothing. |
| `Scheduler.NormalizeMap` | internal/store/store.go:761-778 | Keys and values trimmed, blank ones dropped, in whatever order the map is visited. |
| `Scheduler.NormalMapMeaning` | internal/store/store.go:761-778 | A normalized map has only trimmed, non-blank keys and values. |
| `Scheduler.NormalMapFixed` | internal/store/store.go:705-711 | Normalizing again on reading changes nothing. |
| `Scheduler.PublicModels` | internal/app/app.go:220-253 | The loops collect exactly the models some normal backend promises. |
| `Scheduler.MappingModels` | internal/app/app.go:232-241 | The client and upstream names of the usable mappings, in whatever order the map is visited. |
| `Scheduler.AdvertisedIsServed` | internal/app/app.go:220-270 | Every advertised model yields a candidate, and every candidate asks its upstream for a non-empty name. |
| `Scheduler.PromiseIsKept` | internal/scheduler/scheduler.go:83-123 | A backend that promises a model is eligible for it. |
| `Routing.EligibleIff` | internal/scheduler/scheduler.go:83-123 | A backend may serve a model exactly when it is normal and some listed pattern takes it (blank or a star any model, a wildcard what the glob takes, anything else itself) or a mapping with a usable upstream name has it as client name. |
| `Routing.SelectionMeans` | internal/scheduler/scheduler.go:38-71 | A selection holds just the stored backends that may serve, heavier ones first and of equally heavy ones the one with the smaller id. |
| `Routing.MappedIsRenamed` | internal/handler/handle_backend.go:1399-1407 | A mapped model is asked for under its upstream name, any other as it is. |
| `Routing.MappedIff` | internal/handler/handle_backend.go:1399-1407 | The same for mappings that were never normalized. |
| `Routing.FirstsStay` | internal/store/store.go:740-759 | Of equal values in a list the first one stays in its place. |
| `Routing.PromisesIff` | internal/app/app.go:220-253 | What a backend adds to the public list: while it is normal its client names, and the names it lists that are no patterns and no upstream names. |
| `Cooldown.SelectedIsSelectable` | internal/scheduler/scheduler.go:38-71 | Whatever is selected from a listing of the table is normal in the table. |
| `Cooldown.DisabledStep` | internal/store/store_backend.go:469-522 | Among whole operations only an administrator's edit to normal or a deletion changes a disabled row. |
| `Cooldown.DisabledSafety` | internal/scheduler/scheduler.go:38-71 | Over every run a disabled backend is in no selection and its row does not change until an administrator acts. |
| `Cooldown.CooldownSafety` | internal/scheduler/scheduler.go:38-71 | Over every run a tripped backend stays as it was tripped and in no selection while requests select before its recovery time and no administrator resets it. |
| `Cooldown.CooldownEnds` | internal/store/store_backend.go:515-522 | After any such run the next selection finds the backend normal with count zero if and only if its time is not before the recovery time; no selection of an earlier second does and every selection of a later second does. |
| `Failover.Try` | internal/app/app.go:406-640 | One pass of the loop yields the stated row, report and response, and says whether the request ends; `FailoverReports` says in plain terms which they are. |
| `Failover.TryCandidates` | internal/app/app.go:384-649 | The loop and what follows it compute the specification trace of reports, usage rows and responses. |
| `Failover.HandleProxy` | internal/app/app.go:349-649 | The request from the selection on, with its error cases; no usage row is written when no backend is available. `FailoverReports` says in plain terms what a selected request comes to. |
| `Failover.Accounting` | internal/app/app.go:384-649 | For every outcome, cancelled or not: the reports are those of the candidates tried, in order, a failure for each failed exchange and a success for a 2xx; there is a usage row per try, numbered from one, and one more when a cancellation is found between tries; every row but the last holds its try's status, and the last holds 499 after any cancellation. A row shows the response fields of the last try whose response was read, so a transport failure shows those of an earlier try. |
| `Failover.TriesUncanceled` | internal/app/app.go:384-649 | Without cancellation candidates are tried in order up to the first that answers 2xx. |
| `Failover.OneRowPerTryIff` | internal/app/app.go:384-390 | There is exactly one usage row per try if and only if no cancellation is found between two tries. |
| `Failover.CancellationRepeatsARow` | internal/app/app.go:384-390 | A cancellation found between two tries writes the finished try a second time with status 499. |
| `Failover.RepeatedRowExample` | internal/app/app.go:384-390 | Two rows for one try. |
| `Failover.OneResponse` | internal/app/app.go:548-649 | For all inputs a request gets at most one response, and none exactly when it ends at a 2xx answer that could not be adapted or read. |
| `Failover.MarksAreCandidates` | internal/app/app.go:469-548 | For all inputs reports are on candidates only, none twice, and a success comes last. |
| `Failover.ProxyIsLegal` | internal/app/app.go:384-649 | A proxied request is an operation of the runs that the cooldown theorems are about. |
| `FailoverReports.ReportsIff` | internal/app/app.go:384-548 | For every candidate: a failure is reported exactly when it was tried and did not answer, answered unreadably or with a status outside 200..299, and nobody had cancelled; a success exactly when it was tried and answered within. |
| `FailoverReports.ReportsInOrder` | internal/app/app.go:384-548 | The reports come in the order of the candidates. |
| `FailoverReports.TriedIff` | internal/app/app.go:384-649 | A candidate is tried exactly when no cancellation and no 2xx answer came before. |
| `FailoverReports.RowsSay` | internal/app/app.go:384-649 | The row of every try names its attempt and backend and tells of its outcome: the upstream's own status for an answer, 503 for an exchange that failed or a 2xx answer not delivered, 499 for a cancellation; its response fields are those of the last answer read. |
| `FailoverReports.NoCandidates` | internal/app/app.go:643-660 | Without candidates one row names no backend. |
| `FailoverReports.ResponseIs` | internal/app/app.go:548-649 | The response of every request: the upstream's own exactly when an accepted answer could be passed on, the cancellation, or no backend available. |
| `Rollup.Store.AppendUsageLog` | internal/store/store_log.go:47-117 | One transaction appends the log, with the store's time when it has none, and adds it to its hour. |
| `Rollup.Store.UpsertStats` | internal/store/store_backend.go:608-671 | The row of the log's backend, model and hour grows by the log; other rows stay. |
| `Rollup.Store.Contribution` | internal/store/store_backend.go:613-632 | A log counts as one success with its sums or as one failure without. |
| `Rollup.Store.ClearUsageLogs` | internal/store/store_log.go:259-265 | All logs go, the hourly rows stay. |
| `Rollup.Store.DeleteUsageLogsFiltered` | internal/store/store_log.go:267-274 | Exactly the matching logs go, the hourly rows stay. |
| `Rollup.RollupEqualsHistory` | internal/store/store_log.go:47-117 | After any mix of appends, clears and deletes the row of every backend, model and hour is what all logs ever appended there add up to, under the latest name; there is a row exactly when there was such a log. |
| `Rollup.NameIffLogged` | internal/store/store_backend.go:608-671 | A row is expected exactly for the keys of logs that were counted. |
| `Rollup.PassesExact` | internal/store/store_backend.go:681-706 | The filter's comparison of hour texts is a comparison of hours, with either bound missing or not. |
| `Rollup.QueryExact` | internal/store/store_backend.go:529-706 | Whatever the filters by name, model and hours, a query returns exactly the rows they ask for, each the sum of all logs ever appended to its hour; the name asked for is the latest one of the hour. |
| `Rollup.RenamedInTheHour` | internal/store/store_backend.go:642-643 | After a rename within an hour the old name finds nothing and the new one counts the logs of both. |
| `Rollup.QueryTotal` | internal/store/store_backend.go:529-706 | What a query returns for a backend and model over some hours adds up to the rows asked for, whatever the filters. |
| `Rollup.RangeQueryEqualsHistory` | internal/store/store_backend.go:529-706 | A query by hours, open or closed at either end, and perhaps by model returns what the logs ever appended in the range add up to. |
| `RollupSums.FoldFigures` | internal/store/store_backend.go:608-671 | What logs add up to, figure by figure: a status in 200..299 is a success and adds each of its six figures to its own sum, any other is one failure and adds nothing else; logs without backend, name or model do not count. |
| `RollupSums.RowFigures` | internal/store/store_log.go:47-117 | Every stored row shows those figures of all logs ever appended to its hour, and the trimmed name of the last one. |
| `RollupSums.NameIsLast` | internal/store/store_backend.go:642-643 | The name of a row is the trimmed name of the last log that landed there. |
| `RollupSums.AppendedGrows` | internal/store/store_log.go:47-60 | A log keeps its time or takes the store's when it has none, and comes after all earlier ones. |
| `RollupSums.DeletesJustMatches` | internal/store/store_log.go:267-274 | A filtered delete removes every log that matches and no other. |
| `RollupSums.DeletesInOrder` | internal/store/store_log.go:267-274 | Deleting keeps the order of what is left. |
| `RollupSums.QueryFilters` | internal/store/store_backend.go:681-706 | A query returns a row exactly when it is stored and passes each filter that is not blank or missing. |

## Left out

- JSON syntax: values are a datatype, and text is reached only through `Codec`. A number keeps the integer it truncates
  to and its remaining digits; exponents, float rounding and 64-bit overflow are not modelled.
- Characters: texts are sequences of code points, not of bytes; the byte order of stored times, which are ASCII, is
  unaffected.
- The 4 MiB line limit of the event-stream scanner (`internal/proxy/translate.go:827`) and its error.
- HTTP, TLS, compression, SOCKS5, request bodies, headers, logging and tracing: upstream results are input to
  `Failover`.
- SQL and its errors: a statement or a transaction is one step that succeeds; indexes, paging and migration are left
  out.
- `path.Match`: an arbitrary predicate parameter of the scheduler.
- The clock: times are input. The cooldown is added by the caller, so any recovery time may be given; the zero time,
  which reads back as no time, and years above 9999 are outside the ordering theorems.
- `ImportBackends`: it may create abnormal rows without a recovery time, and normal rows at the threshold, so rows it
  makes are outside the breaker's invariant; `Breaker.RecoverableIff` shows what follows for them.
- Other fields of a backend: an administrator's update is modelled for status, count and recovery time only, and the
  console flows that write a backend back unchanged in these fields appear as edits that keep the status.
- Endpoints, tools, `tool_choice`, system prompts and instructions: finite renamings without state.
- The request wrappers around the modelled converters.
- A threshold that changes between starts: `Breaker.RowInvariant` is about one threshold, and
  `Breaker.SoundUnderAnyThresholds` states what is left of it under several.
- The branch for `ErrCrossProtocolStreamingNotSupported`, which `PrepareExchange` never returns.
- Requests rejected before a backend is selected: each writes one error response and one usage row.
- The result lists of `ListBackendHourlyModelStats` beside its rows (range ends, backend and model names) and their
  sorting.
- Dashboards, search, settings, client keys, audit events and the frontend.
- BackendTable.Store.HandleUpdateBackend: covers the status, count and recovery time, because the other fields of the
  form, and the errors in them, do not touch the breaker.
- Sse.ParseStream: does not model the scanner's line limit, because a too long line is an error of the library.
- Scheduler.PublicModels: returns a set, because the source lists a map in no fixed order.
- Failover.HandleProxy: starts at the selection, because what precedes it has no loop and no shared state.
