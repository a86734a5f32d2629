# kotlin-analyzer, modelled in Dafny

kotlin-analyzer is a Kotlin language server. A Rust process speaks the
Language Server Protocol to the editor. It forwards most requests, as
JSON-RPC 2.0 over `Content-Length` framed stdio, to a JVM "sidecar" that
does the Kotlin analysis, and converts the sidecar's JSON answers into LSP
types. A small Python script drives the server by hand over the same framing.

This project models the parts of that system that decide what goes over the
wire and what comes back. Each part is modelled on its own terms:

- **`Framing`, `JsonRpc`.** The JSON-RPC message types and the framing codec
  (`jsonrpc.rs`). The header scanner and the body reader are methods over a
  byte-stream `Reader` class. Each method is proved equal to a recursive
  specification function. Encoding followed by reading gives the message back.
- **`LspClient`.** The manual client (`scripts/test-lsp-manually.py`). It is a
  class whose stdout is a `Reader`, whose stdin is the byte sequence written
  so far, and whose request counter is a field. The proofs cover Python's
  header parsing (`strip`, `split(':', 1)`, `int()`), the "skip until my id"
  loop, and the frame round trip.
- **`SidecarBridge`.** The bridge to the sidecar (`bridge.rs`). It is a class
  holding:
  - the lifecycle state;
  - the wrapping `u64` id counter;
  - the list of pending request ids;
  - whether the request channel has a receiver;
  - the messages the writer task received.

  The reply the sidecar eventually sends is a parameter, so each call is
  sequential.
- **`DocumentState`.** The document store (`state.rs`): a class over two maps,
  with its unit tests restated as scenario methods over arbitrary URIs and
  texts.
- **`Converters`.** The pure converters of `server.rs`: diagnostics,
  locations and goto shaping, completion items, semantic-token remapping,
  workspace-edit grouping, formatting edits and symbol kinds.
- **`Project`.** Project resolution (`project.rs`):
  - build-system detection and source-root discovery;
  - the Gradle init-script output parser, a loop with an in-section flag;
  - the `.kotlin-analyzer.json` manual override;
  - flag merging.
- **`Cli`.** The command-line flags of `main.rs`.
- **`Configuration`, `Errors`, `Lsp`.** The serde decoding of `Config`
  (`config.rs`), the error enums (`error.rs`) and the LSP value types the
  converters build.

Support modules:

- `Wrappers` holds `Option` and `Result`.
- `Json` is the `serde_json::Value` model with field decoding, plus the
  integer helpers `TruncU32` (`as u32`) and `SaturatingPred`
  (`saturating_sub(1)`).
- `Text` holds UTF-8 encoding, decimal rendering, trimming and `str::lines`.
- `Seqs` holds `filter_map` and `position`.
- `Stream` holds the byte reader and writer.

The file system is a set of existing paths. `Url::parse`, `serde_json`
text (de)serialisation and `json.dumps`/`json.loads` are function
parameters. Child-process results (the sidecar's reply, the Gradle run, the
formatter run) are parameters too.

## Model

| member | source | states |
|---|---|---|
| `JsonRpc.NewRequest` | server/src/jsonrpc.rs:40-47 | a request carries version "2.0", the given id, method and params |
| `JsonRpc.Notification` | server/src/jsonrpc.rs:49-56 | a notification carries version "2.0" and no id |
| `JsonRpc.RequestJsonShape` | server/src/jsonrpc.rs:11-18 | the serialised request has exactly `jsonrpc`, `id`, `method` and, only when present, `params`; a notification has no `id` member |
| `JsonRpc.RequestJsonRoundTrip` | server/src/jsonrpc.rs:153-211 | serialising a request and decoding it gives the same request (non-null params) |
| `JsonRpc.NullParamsReadAsAbsent` | server/src/jsonrpc.rs:11-18 | `params: Some(null)` serialises to `null` and reads back as absent |
| `JsonRpc.SuccessResponseDecodes` | server/src/jsonrpc.rs:178-186 | a success response object decodes with its id and result and no error |
| `JsonRpc.ErrorResponseDecodes` | server/src/jsonrpc.rs:187-197 | an error response decodes with its code and message and no result |
| `JsonRpc.ResponseNeedsVersion` | server/src/jsonrpc.rs:21-29 | an object without a string `jsonrpc` member is not a response |
| `JsonRpc.ResponseFromBytes` | server/src/jsonrpc.rs:97-98 | an empty or unparsable body, or one that is not a response, is `JsonParse`; a delivered response is the decoding of the parsed body |
| `JsonRpc.EncodeMessage` | server/src/jsonrpc.rs:139-147 | the frame is the ASCII header with the UTF-8 length of the body, followed by the body |
| `JsonRpc.EncodeText` | server/src/jsonrpc.rs:141-146 | the buffer is the header's bytes followed by the body's UTF-8 bytes, and its length is the sum of the two |
| `Framing.HeaderUtf8` | server/src/jsonrpc.rs:65-68 | the header's UTF-8 encoding is its character codes, one byte each |
| `JsonRpc.WriteMessage` | server/src/jsonrpc.rs:59-78 | the writer receives exactly one frame appended to what it had |
| `JsonRpc.WriteText` | server/src/jsonrpc.rs:64-74 | the writer gains the header's bytes and then the body's UTF-8 bytes, appended to what it had |
| `JsonRpc.ParseUsize` | server/src/jsonrpc.rs:125-128 | a value parses exactly when, after one optional `+`, it is a non-empty run of digits below 2^64; a run of digits parses to its decimal value and `+` followed by digits to the value of those digits; empty text or a lone `+` is rejected |
| `JsonRpc.ScanHeaders` | server/src/jsonrpc.rs:104-136 | the header scan never moves backwards and stays within the stream |
| `JsonRpc.ReadContentLength` | server/src/jsonrpc.rs:104-136 | the reader loop returns what the header-scan specification returns and stops where it does |
| `JsonRpc.CopyBody` | server/src/jsonrpc.rs:90-91 | the body buffer is a new array holding exactly the bytes read |
| `JsonRpc.ReadMessage` | server/src/jsonrpc.rs:82-101 | reading a message returns what the read specification returns and consumes exactly what it consumes |
| `JsonRpc.ReadMessageSpec` | server/src/jsonrpc.rs:82-101 | reading never moves backwards and stays within the stream |
| `JsonRpc.MessageAfterHeaders` | server/src/jsonrpc.rs:85-100 | after the headers, reading never moves backwards and stays within the stream |
| `JsonRpc.RustTrimHeaderLine` | server/src/jsonrpc.rs:120 | `trim` removes the `\r\n` of a length line whose value ends in a non-blank character, and nothing else |
| `JsonRpc.LengthLineValue` | server/src/jsonrpc.rs:116-124 | such a length line is one line, and after trimming it carries the `Content-Length: ` prefix followed by exactly its value |
| `JsonRpc.BadLengthLine` | server/src/jsonrpc.rs:122-128 | a length line whose value does not parse ends the headers right after that line with `InvalidJsonRpc("invalid Content-Length: " + value)`, whatever length came before |
| `JsonRpc.LengthLine` | server/src/jsonrpc.rs:125-129 | a `Content-Length: N` line records N and the scan continues after it |
| `JsonRpc.BlankLine` | server/src/jsonrpc.rs:120-135 | a blank line ends the headers with the last recorded length, or `MissingContentLength` when none |
| `JsonRpc.NoLengthBeforeBlank` | server/src/jsonrpc.rs:132-135 | headers that end without a length are `MissingContentLength` |
| `JsonRpc.EofInsideHeaders` | server/src/jsonrpc.rs:104-136 | whenever the stream ends before any line trims to nothing and no length value fails to parse, the headers end in `Ok(None)` at the end of the stream, whatever lengths were read |
| `JsonRpc.EofAfterLengthLine` | server/src/jsonrpc.rs:116-118 | a length line followed by end of stream is a clean end (`Ok(None)`), not a message |
| `JsonRpc.LengthThenBlank` | server/src/jsonrpc.rs:120-135 | a length line followed by a blank line yields that length, just after the blank line |
| `JsonRpc.LaterLengthWins` | server/src/jsonrpc.rs:125-129 | of two length lines, the later one is used |
| `JsonRpc.ScanFrameHeader` | server/src/jsonrpc.rs:104-136 | the header the encoder writes is read back as exactly its length |
| `JsonRpc.ReadFramedMessage` | server/src/jsonrpc.rs:82-101 | a complete frame is read as the decoding of exactly its body, and reading stops right after it |
| `JsonRpc.FramedHeaders` | server/src/jsonrpc.rs:104-136 | the headers of a frame announce its body's length and end exactly where the body starts |
| `JsonRpc.ReadAnnouncedBody` | server/src/jsonrpc.rs:90-100 | after a header announcing N bytes that are all present, exactly those N bytes are decoded |
| `JsonRpc.TruncatedBody` | server/src/jsonrpc.rs:90-93 | a body shorter than announced ends the stream cleanly (`Ok(None)`) |
| `JsonRpc.EncodeThenRead` | server/src/jsonrpc.rs:139-147 | the frame the encoder writes is read back as the same body (encode/read round trip) |
| `JsonRpc.ScanHeadersOutcomes` | server/src/jsonrpc.rs:104-136 | the only header errors are `MissingContentLength` and `InvalidJsonRpc` for a bad length; a length is always below 2^64 |
| `LspClient.RequestEnvelope` | scripts/test-lsp-manually.py:38-43 | the request dict has exactly the keys `jsonrpc`, `id`, `method`, `params`, with version "2.0" |
| `LspClient.NotificationEnvelope` | scripts/test-lsp-manually.py:88-92 | the notification dict has exactly `jsonrpc`, `method`, `params`: no `id` |
| `LspClient.FrameIsFrameOf` | scripts/test-lsp-manually.py:45-49 | the client's frame is the server's frame of the UTF-8 body: the two framings agree |
| `LspClient.FrameLayout` | scripts/test-lsp-manually.py:45-49 | the frame is `Content-Length: N\r\n\r\n` in ASCII followed by the N body bytes |
| `LspClient.ReadHeaders` | scripts/test-lsp-manually.py:71-78 | the header loop never moves backwards and stays within the stream |
| `LspClient.PyInt` | scripts/test-lsp-manually.py:80 | `int()` accepts exactly an optional sign and digits where single `_` separate digits; a run of digits is its decimal value |
| `LspClient.DigitsArePyDigits` | scripts/test-lsp-manually.py:80 | every plain run of digits is accepted by `int()` |
| `LspClient.DroppedDigits` | scripts/test-lsp-manually.py:80 | dropping the separators from accepted digits leaves a non-empty run of plain digits, whose decimal value is the result |
| `LspClient.DropUnderscores` | scripts/test-lsp-manually.py:80 | removing separators never lengthens the text and leaves plain digits unchanged |
| `LspClient.UnderscoreSeparator` | scripts/test-lsp-manually.py:80 | `"1_0"` is 10 |
| `LspClient.SignedUnderscoreSeparator` | scripts/test-lsp-manually.py:80 | `"-2_5"` is -25 |
| `LspClient.MisplacedUnderscores` | scripts/test-lsp-manually.py:80 | `"1__0"`, `"_1"`, `"1_"` and `"+"` raise |
| `LspClient.DecodeBody` | scripts/test-lsp-manually.py:83 | a body either decodes to a message or raises `JSONDecodeError`; an empty body always raises |
| `LspClient.NextMessage` | scripts/test-lsp-manually.py:69-85 | `_read_message` stays within the stream, and a returned message always consumed input |
| `LspClient.MessageAfter` | scripts/test-lsp-manually.py:80-85 | after the headers, reading stays within the stream, and a returned message consumed input |
| `LspClient.ReadAnnouncedBody` | scripts/test-lsp-manually.py:69-85 | after a header block announcing N > 0 bytes that are all present, `_read_message` decodes exactly those bytes |
| `LspClient.AnnouncedBody` | scripts/test-lsp-manually.py:80-83 | with N > 0 announced and present, the body read is exactly those N bytes |
| `LspClient.DecimalLength` | scripts/test-lsp-manually.py:80 | the decimal length the client writes is read back as exactly that length |
| `LspClient.ReadHeaderBlock` | scripts/test-lsp-manually.py:72-78 | a `Content-Length: N` header block is read as exactly that one header, stopping after the blank line |
| `LspClient.FrameRoundTrip` | scripts/test-lsp-manually.py:69-85 | a frame the client writes is read back by `_read_message` as exactly its body |
| `LspClient.EndOfStream` | scripts/test-lsp-manually.py:73-75 | at end of stream `_read_message` returns None without consuming anything |
| `LspClient.NoPositiveLength` | scripts/test-lsp-manually.py:80-85 | an absent, zero or negative length returns None after the headers |
| `LspClient.NonIntegerLength` | scripts/test-lsp-manually.py:80 | a length `int()` rejects raises `ValueError` quoting the value |
| `LspClient.EnvelopeIds` | scripts/test-lsp-manually.py:61 | a request is answered by its own id; a notification answers no id |
| `LspClient.AwaitResponse` | scripts/test-lsp-manually.py:56-67 | waiting stays within the stream and returns only `{}` (end of stream, or a `null` body) or a message that answers the id |
| `LspClient.NullReplyEndsWait` | scripts/test-lsp-manually.py:57-59 | a framed body that `json.loads` reads as `None` ends the wait with `{}` right after that frame |
| `LspClient.AwaitAtEnd` | scripts/test-lsp-manually.py:57-59 | an exhausted stream answers `{}` at once |
| `LspClient.AwaitSkips` | scripts/test-lsp-manually.py:63-67 | a message that does not answer the id is skipped and waiting resumes right after it |
| `LspClient.AwaitMatches` | scripts/test-lsp-manually.py:61-62 | the message that answers the id is returned and nothing after it is read |
| `LspClient.InterleavedNotifications` | scripts/test-lsp-manually.py:55-67 | two notifications before the reply are skipped and the reply is returned, ending after it |
| `LspClient.RStripAll` | scripts/test-lsp-manually.py:112 | one right-stripped line per ready line, in order |
| `LspClient.Client.constructor` | scripts/test-lsp-manually.py:20-28 | the process is running, nothing is written, the counter is 0 |
| `LspClient.Client.ReadMessage` | scripts/test-lsp-manually.py:69-85 | the method returns and consumes what `NextMessage` specifies |
| `LspClient.Client.ReadHeaderLines` | scripts/test-lsp-manually.py:71-78 | the header loop returns and consumes what `ReadHeaders` specifies |
| `LspClient.Client.ReadBody` | scripts/test-lsp-manually.py:80-85 | the rest of the read returns and consumes what `MessageAfter` specifies |
| `LspClient.Client.SendRequest` | scripts/test-lsp-manually.py:35-67 | the counter goes up by one; stdin gains exactly the framed request with the new id; the result and stdout position are those of `AwaitResponse` for that id |
| `LspClient.Client.AwaitReply` | scripts/test-lsp-manually.py:56-67 | the loop returns and consumes what `AwaitResponse` specifies, `{}` for a `null` body included |
| `LspClient.Client.SendNotification` | scripts/test-lsp-manually.py:87-102 | stdin gains exactly the framed notification; the counter is unchanged |
| `LspClient.Client.ReadStderr` | scripts/test-lsp-manually.py:104-117 | every ready line is returned right-stripped, in order, and none remains ready |
| `LspClient.Client.Close` | scripts/test-lsp-manually.py:119-122 | the process is no longer running |
| `SidecarBridge.DispatchUnmatched` | server/src/bridge.rs:275-281 | a response without an id, or with an id nobody waits for, changes nothing |
| `SidecarBridge.DispatchMatched` | server/src/bridge.rs:284-297 | a matched response removes exactly the first pending entry with its id and resolves it with the response's outcome |
| `SidecarBridge.OwnReplyResolves` | server/src/bridge.rs:284-297 | the reply to a fresh id resolves that request and leaves the earlier pending entries as they were |
| `SidecarBridge.ErrorResponseResolvesToErr` | server/src/bridge.rs:286-291 | an error response resolves to `MalformedResponse("error {code}: {message}")` |
| `SidecarBridge.SuccessResolvesToResult` | server/src/bridge.rs:292-294 | a success response resolves to its result, or to `null` when there is none |
| `SidecarBridge.MissingResultIsNull` | server/src/bridge.rs:292-294 | a response without `result`, or with `"result": null`, resolves to `Ok(null)` |
| `SidecarBridge.Bridge.constructor` | server/src/bridge.rs:46-59 | a new bridge is stopped; the next id is 1; nothing is pending or sent; the request receiver is already gone |
| `SidecarBridge.Bridge.NextId` | server/src/bridge.rs:270-272 | returns the old counter and advances it modulo 2^64; before any wrap-around the id is not pending |
| `SidecarBridge.Bridge.DispatchResponse` | server/src/bridge.rs:274-298 | the pending list and the delivery are those of `Dispatched` |
| `SidecarBridge.Bridge.AwaitReply` | server/src/bridge.rs:220-229 | with no reply the entry stays pending; the request's own reply removes exactly that entry and yields its outcome |
| `SidecarBridge.Bridge.StartAsWritten` | server/src/bridge.rs:67-202 | a spawn failure is `SpawnFailed` and nothing is sent; otherwise `initialize` goes out with the next id; its reply gives `Ok` and Ready, or its error; no reply is `Timeout(30000)` with the entry pending; a reply that resolves another entry leaves the table as dispatched and gives `Timeout(30000)` with the state Starting; `request_tx` stays as it was |
| `SidecarBridge.Bridge.Start` | server/src/bridge.rs:67-202 | the same exchange as written: a spawn failure is `SpawnFailed` and sends nothing; no reply is `Timeout(30000)` with the entry pending; a reply that resolves another entry leaves the table as dispatched and gives `Timeout(30000)` with the state Starting; an error reply is returned; the state ends Ready (exactly when `Ok`) or Starting; and after a spawn `request_tx` reaches the writer task |
| `SidecarBridge.Bridge.Request` | server/src/bridge.rs:205-230 | outside Ready it is `NotReady` and nothing changes; with the channel closed it is `Crashed` and the entry stays; otherwise the request is sent; a reply for its id is the result, and a reply that resolves another entry leaves the table as dispatched and gives `Timeout(60000)` |
| `SidecarBridge.Bridge.Notify` | server/src/bridge.rs:233-240 | sends the notification when the channel is open, else `Crashed`; no id and no pending entry |
| `SidecarBridge.Bridge.Shutdown` | server/src/bridge.rs:243-262 | always `Ok` and Stopped; when not already stopped, a `shutdown` request with a fresh id is sent first |
| `SidecarBridge.Bridge.OnReaderEof` | server/src/bridge.rs:116-124 | end of the sidecar's output degrades the bridge unless it is stopped |
| `SidecarBridge.FirstIds` | server/src/bridge.rs:347-369 | a new bridge is stopped with nothing pending and hands out 1 then 2 |
| `SidecarBridge.RequestAfterStartAsWritten` | server/src/bridge.rs:46-59 | as written: `start` succeeds, then a request fails with `Crashed("request channel closed")` and stays pending |
| `SidecarBridge.RequestAfterStart` | server/src/bridge.rs:205-230 | corrected: the same exchange sends the request and resolves it with the reply |
| `DocumentState.DocumentStore.constructor` | server/src/state.rs:9-20 | a new store has no documents and no diagnostics |
| `DocumentState.DocumentStore.Open` | server/src/state.rs:23-26 | stores the document under its URI, replacing any earlier one |
| `DocumentState.DocumentStore.Change` | server/src/state.rs:28-36 | succeeds exactly when the URI is open, and only then replaces it; a closed URI is not inserted |
| `DocumentState.DocumentStore.Close` | server/src/state.rs:38-40 | removes the URI and reports whether it was open |
| `DocumentState.DocumentStore.Get` | server/src/state.rs:42-44 | returns the document exactly when the URI is open |
| `DocumentState.DocumentStore.IsOpen` | server/src/state.rs:56-58 | true exactly when the URI is open |
| `DocumentState.DocumentStore.All` | server/src/state.rs:51-53 | lists every open document once with its URI, in some order |
| `DocumentState.DocumentStore.AllDocuments` | server/src/state.rs:47-49 | one entry per open URI: each entry is the document of a distinct open URI, every open URI has an entry, so the list is as long as the table |
| `DocumentState.DocumentStore.SetDiagnostics` | server/src/state.rs:60-62 | replaces one URI's cached diagnostics; documents are untouched |
| `DocumentState.DocumentStore.GetDiagnostics` | server/src/state.rs:64-66 | returns the cached list exactly when one exists |
| `DocumentState.OpenAndRetrieve` | server/src/state.rs:77-86 | what is opened is what is got back |
| `DocumentState.ReopenOverwrites` | server/src/state.rs:23-26 | reopening a URI keeps the later document |
| `DocumentState.ChangeNonexistent` | server/src/state.rs:100-105 | changing an unopened URI fails and does not open it |
| `DocumentState.MultipleChanges` | server/src/state.rs:146-157 | successive changes succeed and keep the last text and version |
| `DocumentState.IsOpenTracksState` | server/src/state.rs:107-134 | `is_open` follows open and close; a second close reports false |
| `DocumentState.AllDocumentsCount` | server/src/state.rs:136-144 | three distinct URIs give three documents |
| `DocumentState.OtherUriUntouched` | server/src/state.rs:23-40 | operations on one URI leave another URI's document as it was |
| `DocumentState.DiagnosticsSurviveClose` | server/src/state.rs:60-66 | cached diagnostics survive closing and reopening the document |
| `Converters.SeverityTable` | server/src/server.rs:217-223 | `ERROR`, `WARNING`, `INFO`/`INFORMATION` and `HINT` map to their severities; any other name is an error |
| `Converters.CompletionKindTable` | server/src/server.rs:1477-1489 | the known kind names map as listed; any other name is plain text |
| `Converters.SymbolKindTable` | server/src/server.rs:2039-2054 | the known symbol kinds map as listed; any other kind is a variable |
| `Converters.ZeroBasedLine` | server/src/server.rs:226-229 | a 1-based line becomes the 0-based `u32` line; 0 stays 0 |
| `Converters.DiagnosticOf` | server/src/server.rs:216-253 | an entry is kept exactly when severity and message are strings and line is an unsigned integer |
| `Converters.DiagnosticPositions` | server/src/server.rs:226-237 | lines move from 1-based to 0-based (0 stays 0); a missing end line is the start line, a missing column 0, a missing end column one past the column |
| `Converters.DiagnosticSource` | server/src/server.rs:239-252 | a kept diagnostic keeps the message and severity and names `kotlin-analyzer` as its source |
| `Converters.ParseDiagnostics` | server/src/server.rs:208-256 | no `diagnostics` array gives none; never more diagnostics than entries |
| `Converters.MalformedDiagnosticDropped` | server/src/server.rs:214-226 | a malformed entry is dropped and its neighbours keep their order |
| `Converters.WellFormedDiagnosticsKept` | server/src/server.rs:208-256 | with every entry well formed, the i-th diagnostic comes from the i-th entry |
| `Converters.LocationOf` | server/src/server.rs:1519-1533 | a location is kept exactly when it has a parsable `uri` and an unsigned `line`; its range is empty |
| `Converters.GotoShape` | server/src/server.rs:764-775 | no location gives no answer, one gives a scalar, several give an array |
| `Converters.GotoShapeKeepsLocations` | server/src/server.rs:764-775 | shaping loses no location and invents none |
| `Converters.ParseLocations` | server/src/server.rs:1513-1536 | no `locations` array gives none; never more locations than entries |
| `Converters.WellFormedLocationsKept` | server/src/server.rs:1513-1536 | when every entry has a parsable `uri` and a `line`, all are kept in order |
| `Converters.GotoDefinition` | server/src/server.rs:763-780 | a failed sidecar request gives no answer; otherwise the answer carries exactly the parsed locations |
| `Converters.ParseCompletionItems` | server/src/server.rs:1468-1511 | no `items` array gives none; never more items than entries |
| `Converters.LabelledCompletionItemsKept` | server/src/server.rs:1468-1511 | when every entry has a string `label`, all are kept in order, each with its label |
| `Converters.CompletionItemOf` | server/src/server.rs:1476-1509 | an item is kept exactly when its `label` is a string; it has a kind exactly when `kind` is a string |
| `Converters.UnknownCompletionKindIsText` | server/src/server.rs:1477-1489 | an item of unknown kind is kept as text, not dropped |
| `Converters.U32At` | server/src/server.rs:1863-1867 | a token field, 0 when not an unsigned integer, is truncated to `u32` |
| `Converters.MapTokenTypeMeaning` | server/src/server.rs:1869-1882 | a type the sidecar legend names maps to that name's index in the local legend, or 0 when the local legend lacks it; without a legend or a string entry the raw type is kept |
| `Converters.ParseSemanticTokens` | server/src/server.rs:1830-1896 | one token per complete group of five values, in order, each built from its own group; no `data` array gives none |
| `Converters.GroupsOfFive` | server/src/server.rs:1859-1861 | stopping at the first incomplete group leaves `len / 5` groups |
| `Converters.EditOf` | server/src/server.rs:1625-1669 | an edit is kept exactly when it has a string `uri` that parses, a `range` member and a string `newText` |
| `Converters.EditDefaults` | server/src/server.rs:1639-1656 | a missing start line and missing columns are 0; a missing end line is the start line |
| `Converters.ParseWorkspaceEdits` | server/src/server.rs:1616-1673 | a URI has an entry exactly when some edit belongs to it, and that entry holds all of its edits in input order |
| `Converters.GroupedSkip` | server/src/server.rs:1624-1661 | a skipped entry leaves the grouping unchanged |
| `Converters.GroupedAdd` | server/src/server.rs:1663-1669 | a kept entry is appended to its own URI only |
| `Converters.SingleEdit` | server/src/server.rs:1663-1669 | one entry contributes its edit to its own URI and nothing to others |
| `Converters.FormattingEditsMeaning` | server/src/server.rs:820-891 | an edit exists exactly when the document is open, a formatter is configured and its output differs from the text; it is one edit from (0, 0) to the line after the last, carrying the output |
| `Converters.LineCount` | server/src/server.rs:851 | the line count `str::lines` gives is the number of newlines, plus one for an unterminated last line |
| `Project.DetectionPriority` | server/src/project.rs:52-60 | Gradle exactly when a Gradle build file exists; Maven only without one and with `pom.xml`; none otherwise |
| `Project.FindKotlinSourceRoots` | server/src/project.rs:389-397 | every source root returned exists |
| `Project.SourceRootCandidates` | server/src/project.rs:389-397 | the roots are the existing ones among `src/main/kotlin`, `src/main/java`, `src`, in that order |
| `Project.MergeFlags` | server/src/project.rs:233-238 | the merge loop computes `MergedFlags` |
| `Project.MergeKeepsFlags` | server/src/project.rs:233-238 | the project's flags come first, unchanged |
| `Project.MergeMembers` | server/src/project.rs:233-238 | a flag is in the merge exactly when it is in either list |
| `Project.MergeNoDuplicates` | server/src/project.rs:233-238 | merging adds no duplicate to a duplicate-free list |
| `Project.KeysExclusive` | server/src/project.rs:218-230 | a section line matches at most one key prefix |
| `Project.ReadSectionLine` | server/src/project.rs:218-230 | one section line updates the facts to those of the longer section |
| `Project.ParseGradleOutput` | server/src/project.rs:190-241 | the parse loop yields `GradleModel`: the facts of the trimmed lines between the markers, with the configured flags merged |
| `Project.OutsideMarkersIgnored` | server/src/project.rs:203-216 | lines before the start marker and after the end marker are ignored |
| `Project.MarkerTrims` | server/src/project.rs:206-213 | the markers are unchanged by trimming |
| `Project.ExistingPaths` | server/src/project.rs:322-348 | every path kept exists |
| `Project.ExistingPathsKept` | server/src/project.rs:322-348 | when all paths exist, each is kept in order, joined to the root when relative |
| `Project.MissingPathDropped` | server/src/project.rs:322-348 | a missing path is dropped; the rest keep their order |
| `Project.ResolveManualConfig` | server/src/project.rs:313-373 | the method computes `ManualModel` |
| `Project.ManualJdkHome` | server/src/project.rs:357-360 | a readable, well-formed manual file resolves, and its `jdkHome` wins |
| `Project.ResolveProject` | server/src/project.rs:69-91 | a manual file overrides detection; otherwise Gradle gives the parsed model, Maven its own outcome, and no build system the existing source roots with the configured flags |
| `Project.ManualOverridesDetection` | server/src/project.rs:491-510 | with a manual file next to a Gradle build, the manual settings win |
| `Configuration.StringItems` | server/src/config.rs:3-12 | a decoded string list has one string per array item, in order |
| `Configuration.EmptyObjectIsDefault` | server/src/config.rs:98-103 | `{}` decodes to the default configuration |
| `Configuration.MissingMembersDefault` | server/src/config.rs:89-97 | every missing member takes its default value |
| `Configuration.OnlyJavaHome` | server/src/config.rs:89-97 | a config with only `javaHome` is the default with that Java home |
| `Configuration.StringsRoundTrip` | server/src/config.rs:70-88 | a list of strings decodes to itself |
| `Cli.FirstLevelWins` | server/src/main.rs:66-78 | the first argument that names a level decides it |
| `Cli.DefaultLevel` | server/src/main.rs:66-78 | with no level argument, the level is `info` |
| `Cli.TrailingLevelFlag` | server/src/main.rs:68-70 | a bare `--log-level` in last position names nothing |
| `Cli.FirstFileWins` | server/src/main.rs:80-90 | the first argument that mentions the log file decides it |
| `Cli.TrailingFileFlag` | server/src/main.rs:82-84 | a bare `--log-file` first mentioned last gives no file |
| `Cli.NoLogFile` | server/src/main.rs:80-90 | with no mention, there is no log file |
| `Cli.ProgramNameScanned` | server/src/main.rs:80-90 | the program name is scanned too: `--log-file=x` in position 0 is honoured |

## Left out

- Child processes and tasks are left out:
  - spawning the sidecar, Gradle, Maven and the formatter;
  - the tokio reader and writer tasks, channels, mutexes and the request timeout;
  - the stderr forwarder.

  Their results enter as parameters. Each bridge call is sequential: a request's reply either arrives or does not (`None` means it is still pending).
- I/O errors of reads and writes are not modelled. Streams are byte sequences that are complete when read.
- JSON text is not modelled. `serde_json` parsing and printing, and Python's `json.dumps`/`json.loads`, are function parameters over the `Value` model. Serde's acceptance of arrays in place of structs is not modelled.
- `Url::parse` is a parameter, and file-system checks are a set of existing paths. Paths are joined Unix-style.
- Header lines are decoded as Latin-1, which is exact for ASCII header text. Python's UTF-8 decode of non-ASCII header bytes is not modelled.
- `trim`/`strip` remove ASCII white space only. Unicode white space is not modelled.
- `resolve_gradle_project` is reduced to its outcome. The init script, the wrapper lookup (`find_gradle_wrapper`) and the process are left out. The outcome is the captured stdout or the error, which is then parsed.
- `resolve_maven_project`'s classpath command is not modelled. Its outcome is a parameter.
- `save_cache`/`load_cache` (project.rs:400-420) are serialisation to disk and are left out.
- Among the `server.rs` converters, these are not part of this model: `parse_text_edits`, `parse_signatures`, `parse_code_actions`, `parse_workspace_symbols`, `parse_inlay_hints`, `parse_code_lenses` and the call and type hierarchy parsers.
- The request handlers around the converters are reduced to the converters plus the goto and formatting shaping. This covers hover, references, rename, debouncing and `initialize` capabilities.
- The formatter's command line is not modelled. `server.rs` reads `config.formatting_path`, which the `Config` of `server/src/config.rs` does not declare.
- `Converters.DiagnosticPositions`: without an `endColumn`, the end column is `col + 1` truncated to `u32`, as in a release build. A debug build would panic on overflow of `col + 1`; that case is not modelled. The contract states the end column as one past the column only when that stays below 2^32.
- JSON numbers are integers only. A float such as `1.0` is not modelled: Python would match it against the integer id `1`, and serde's `as_u64` rejects `3.0`.
- The bridge reader task's error branch (bridge.rs:125-128) is not modelled as a state. A read error ends dispatching and leaves the bridge Ready; the model shows this only as requests whose reply never arrives (`None`), which time out.
- `LspClient.PyInt`: only ASCII digits are modelled. Python's `int()` also accepts other Unicode decimal digits, which a Latin-1 header line cannot hold beyond ASCII anyway.
- `LspClient.DecodeBody`: a body that is not valid UTF-8 raises `UnicodeDecodeError` in Python (test-lsp-manually.py:83). The model reports it as `JsonDecodeError`, since `loads` is a parameter on the raw bytes.
- `find_java`, `update_config`, `Drop` for `Bridge`, logging, `src/lib.rs` and the integration tests are not part of this model.
- `DocumentState.DocumentStore.All`: a `HashMap`'s iteration order is unspecified. The contract says which pairs are listed, not in what order.

## Findings

| source | as written | input that shows it | evidently intended | confidence | as-written member | corrected member |
|---|---|---|---|---|---|---|
| server/src/bridge.rs:47 | `new` creates `request_tx` and drops its receiver at once. `start` (lines 138-157) gives the writer task a fresh channel and sends only `initialize` on it; `request_tx` is never replaced, so every later `request_tx.send` fails. | `start` succeeds on a reply to `initialize`. Then `request("textDocument/hover", None)` returns `Crashed("request channel closed")` and leaves its pending entry behind. | `request` and `notify` send on the writer task's channel, so they reach the sidecar | not executed | `SidecarBridge.RequestAfterStartAsWritten` (with `SidecarBridge.Bridge.StartAsWritten`) | `SidecarBridge.RequestAfterStart` (with `SidecarBridge.Bridge.Start`) |
