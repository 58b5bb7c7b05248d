# tini, modelled in Dafny

tini is a small asynchronous HTTP/1.1 library for Java. It has a server and a client on
`java.nio` asynchronous channels and a thin dispatch layer that maps requests to
application handlers. This project models its message-handling core and proves properties
of that model:

- **The event-driven parser** (`HttpParser` with `RequestParser` and `ResponseParser`). It
  reads the start line, the header block, a fixed-length or chunked body and the trailers of
  every message on a connection, and reports each part to registered handlers as an event.
  The model runs the parser over the whole byte sequence a connection delivers, one
  mode of the parser's continuation stack at a time. The class `HttpParsing.HttpParser` does
  this on an `array<byte>` read buffer, and its methods are proved equal to the functional
  specification `HttpParsing.Parse`.
- **The blocking request reader of the aio server** (`aio/HttpRequest`). It reads the
  request line and the headers byte by byte, and reads chunked or fixed-length bodies on
  demand. The constructor's first read into its 128-octet `ByteBuffer` is modelled on its own
  (`ReadBuffers`).
- **The serializers.** `WritableMessage`, which `ServerResponse` extends, and the
  separate `aio/HttpResponse`. `ClientRequest` extends `MessageSerializer`, which is not
  part of this model; its request head is run through `WritableMessage`'s code. They settle the framing header and the
  connection header, write the head once, frame each write as a chunk when no length is
  known, and write the last chunk on `end`. The sink or channel is modelled as the list of
  writes it receives.
- **The response pipelines** (`ReadablePipeline` with its `ChannelWriter`, and
  `WritablePipeline`). They let only the response at the head of the queue write to the
  channel and buffer the others until their turn.
- **The request and response pipelines** (`ServerRequestPipeline`, `RequestPipeline`,
  `ClientResponsePipeline`). They route parser events to the message at the head of their
  queue.
- **The dispatch rules** of the pipelined servers, the aio server and the Netty handler.
  These choose the handler registered for a URI and the handler method for an HTTP method.
- **`AsyncTask`'s dependency notification.**
- **Supporting pieces:** the start lines with their parsers, the handler lists of the
  parsers and messages, and the Java text and number conversions the code relies on.

A connection's input is a finite byte sequence. A read that never completes is the end of
that sequence. Everything written is a sequence of byte strings.

## Model

| member | source | states |
|---|---|---|
| Text.TrimStartShape | src/main/java/org/tini/parser/HttpParser.java:194 | `trim` drops exactly the leading characters at or below U+0020: the result is a suffix and starts above U+0020 |
| Text.TrimEndShape | src/main/java/org/tini/parser/HttpParser.java:680 | `trim` drops exactly the trailing characters at or below U+0020: the result is a prefix and ends above U+0020 |
| Text.ToLower | src/main/java/org/tini/common/WritableMessage.java:70 | lower-casing keeps the length and maps every character on its own |
| Text.ToUpper | src/main/java/org/tini/server/ServerRequestPipeline.java:218 | upper-casing keeps the length and maps every character on its own |
| Text.ToLowerIdempotent | src/main/java/org/tini/parser/HttpParser.java:301 | lower-casing a lower-cased name changes nothing |
| Text.DecodeAscii | src/main/java/org/tini/parser/HttpParser.java:382 | US-ASCII decoding yields one character per byte |
| Text.DecodeAsciiIndex | src/main/java/org/tini/parser/HttpParser.java:382 | each byte decodes on its own, bytes above 127 to U+FFFD |
| Text.EncodeAscii | src/main/java/org/tini/common/WritableMessage.java:218-220 | US-ASCII encoding yields one byte per character |
| Text.EncodeAsciiIndex | src/main/java/org/tini/common/WritableMessage.java:218-220 | each character encodes on its own, characters above 127 to '?' |
| Text.EncodeAsciiConcat | src/main/java/org/tini/common/WritableMessage.java:218-220 | encoding the pieces of a header line one by one equals encoding the whole line |
| Text.AsciiRoundTrip | src/main/java/org/tini/common/WritableMessage.java:49 | text made of ASCII characters comes back unchanged from encoding followed by decoding |
| Text.DigitOf | src/main/java/org/tini/parser/HttpParser.java:689 | `Character.digit` yields -1 or a digit value below 36 |
| Text.ParseInt | src/main/java/org/tini/parser/HttpParser.java:549 | `Integer.parseInt` succeeds only on non-empty text and only with a value in the 32-bit range |
| Text.ToHexString | src/main/java/org/tini/common/WritableMessage.java:117 | `Integer.toHexString` never yields the empty string |
| Text.NatToString | src/main/java/org/tini/aio/HttpResponse.java:113 | the decimal rendering never yields the empty string |
| Text.HexDigitsValue | src/main/java/org/tini/common/WritableMessage.java:117 | the hexadecimal rendering consists of hexadecimal digits whose value is the number |
| Text.DecDigitsValue | src/main/java/org/tini/server/ServerResponse.java:97 | the decimal rendering consists of decimal digits whose value is the number |
| Text.HexRoundTrip | src/main/java/org/tini/parser/HttpParser.java:679-690 | `Integer.parseInt(_, 16)` reads back every size that `Integer.toHexString` writes |
| Text.DecimalRoundTrip | src/main/java/org/tini/parser/ResponseParser.java:73 | `Integer.parseInt` reads back every 32-bit value that `String.valueOf` writes, negatives included |
| Text.HexHasNoSeparators | src/main/java/org/tini/parser/HttpParser.java:683 | a hexadecimal size contains no ';', whitespace or control character, so the size scan takes all of it |
| Text.DecimalHasNoWhitespace | src/main/java/org/tini/server/ServerResponse.java:97 | a decimal status code contains no whitespace, so it is one token of the status line |
| HttpText.FindNonWhitespace | src/main/java/org/tini/parser/HttpParser.java:649-657 | the index returned is the first non-whitespace index at or after the offset, or the length |
| HttpText.FindWhitespace | src/main/java/org/tini/parser/HttpParser.java:659-667 | the index returned is the first whitespace index at or after the offset, or the length |
| HttpText.FindEndOfString | src/main/java/org/tini/parser/HttpParser.java:669-677 | the index returned is one past the last non-whitespace character, or 0 |
| HttpText.FindNameEnd | src/main/java/org/tini/parser/HttpParser.java:596-602 | the name ends at the first ':' or whitespace character |
| HttpText.FindColonEnd | src/main/java/org/tini/parser/HttpParser.java:603-609 | the index returned is one past the first ':' after the name, or the length |
| HttpText.SplitHeader | src/main/java/org/tini/parser/HttpParser.java:588-624 | the name contains no ':' and no whitespace, the value has no whitespace at either end, and both come from the line |
| HttpText.SplitHeaderOfWritten | src/main/java/org/tini/parser/HttpParser.java:588-624 | splitting a line written as `name: value` CRLF gives back that name and that value |
| HttpText.SplitHeaderExtended | src/main/java/org/tini/parser/HttpParser.java:588-624 | trailing whitespace such as the CRLF kept on a line does not change the split |
| HttpText.NextToken | src/main/java/org/tini/parser/HttpParser.java:626-647 | each token of a start line contains no whitespace |
| HttpText.RestFrom | src/main/java/org/tini/parser/HttpParser.java:640-646 | the last part of a start line has no whitespace at either end |
| HttpText.SplitInitialLine | src/main/java/org/tini/parser/HttpParser.java:626-647 | the first two parts contain no whitespace and the third has none at either end |
| HttpText.SplitInitialLineOfWritten | src/main/java/org/tini/parser/HttpParser.java:626-647 | a start line written as three parts separated by single spaces, followed by CRLF, splits into those three parts |
| HttpText.SplitInitialLineMissingPart | src/main/java/org/tini/parser/HttpParser.java:626-647 | a line with only two tokens yields an empty third part |
| HttpText.SplitInitialLineOneToken | src/main/java/org/tini/parser/HttpParser.java:626-647 | a line with one token yields empty second and third parts |
| HttpText.SplitInitialLineExtended | src/main/java/org/tini/parser/HttpParser.java:626-647 | trailing whitespace such as the line terminator does not change the split |
| HttpText.Lookup | src/main/java/org/tini/parser/HttpParser.java:304 | `Map.get` finds a value list exactly when the name is present, and the list it returns is the one stored |
| HttpText.AddValue | src/main/java/org/tini/parser/HttpParser.java:303-309 | adding a value grows the map by one entry only for a new name |
| HttpText.AddValueLookup | src/main/java/org/tini/parser/HttpParser.java:299-311 | after an add, the name's list is the old list plus the value, and every other name is unchanged |
| HttpText.AddValueNames | src/main/java/org/tini/parser/HttpParser.java:299-311 | names keep their arrival order, a new name goes last, and names stay unique |
| HttpText.FramingOfWritten | src/main/java/org/tini/parser/HttpParser.java:534-557 | with no content-length the length is -1, a written decimal length is read back, and a body is chunked exactly when the first transfer-encoding value is "chunked" |
| HttpText.FirstExtStart | src/main/java/org/tini/parser/HttpParser.java:681-687 | the size digits end at the first ';', whitespace or control character |
| HttpText.ChunkSizeOfWritten | src/main/java/org/tini/parser/HttpParser.java:679-690 | a size line written as hex digits, an optional `;` extension and CRLF is read back as the size |
| HttpText.ChunkFrame | src/main/java/org/tini/common/WritableMessage.java:116-124 | a chunk frame is the hex size, CRLF, the data and CRLF, so its length is their sum |
| StartLines.ParseRequestLine | src/main/java/org/tini/parser/RequestParser.java:62-87 | a line fails only as malformed, and it fails exactly when the split yields an empty part; a parsed line has two tokens and a trimmed version |
| StartLines.ParseResponseLine | src/main/java/org/tini/parser/ResponseParser.java:65-91 | a parsed code is a 32-bit value; a line is malformed exactly when a part is empty, and a non-numeric code is a bad response line |
| StartLines.RequestLineRoundTrip | src/main/java/org/tini/parser/RequestLine.java:61-63 | a request line read back from its own `toString` and CRLF is the same request line |
| StartLines.MissingPartIsMalformed | src/main/java/org/tini/parser/RequestParser.java:64-68 | "GET /x" CRLF and "GET " CRLF are malformed request lines |
| StartLines.ResponseLineRoundTrip | src/main/java/org/tini/parser/ResponseParser.java:64-91 | a status line written in wire order (version, code, phrase) is read back as the same response line |
| StartLines.NonNumericCodeIsBad | src/main/java/org/tini/parser/ResponseParser.java:85-88 | a status line whose code is not a number is a bad response line, not a malformed one |
| StartLines.ToStringIsNotWireOrder | src/main/java/org/tini/parser/ResponseLine.java:67-69 | `toString` puts the code first, so its output does not parse back as a status line |
| StartLines.CallsTo | src/main/java/org/tini/parser/RequestParser.java:71-79 | one notification per handler, in registration order |
| StartLines.Reached | src/main/java/org/tini/parser/ResponseParser.java:76-83 | notification stops right after the first handler that throws, and reaches all handlers when none throws |
| StartLines.NoThrowerReachesAll | src/main/java/org/tini/parser/ResponseParser.java:76-83 | without a throwing handler, the single try around the loop reaches every handler |
| StartLines.HandlerList.constructor | src/main/java/org/tini/parser/RequestParser.java:50-52 | a new parser has no start-line handlers |
| StartLines.HandlerList.Add | src/main/java/org/tini/parser/RequestParser.java:50-52 | a handler joins the end of the list |
| StartLines.HandlerList.NotifyEach | src/main/java/org/tini/parser/RequestParser.java:69-79 | each handler has its own try, so every handler is notified in order, throwing or not |
| StartLines.HandlerList.NotifyUntilThrow | src/main/java/org/tini/parser/ResponseParser.java:76-83 | one try encloses the loop, so handlers after the first thrower are not notified |
| HttpParsing.LineEnd | src/main/java/org/tini/parser/HttpParser.java:360-382 | a found line ends with LF or with the byte -1, and reading always moves forward while input remains |
| HttpParsing.LineOfWritten | src/main/java/org/tini/parser/HttpParser.java:363-375 | a line written as plain octets and CRLF is found with its terminator included |
| HttpParsing.LineKeepsTerminator | src/main/java/org/tini/parser/HttpParser.java:382 | the decoded line keeps its terminator |
| HttpParsing.ChunkSizeOutcome | src/main/java/org/tini/parser/HttpParser.java:407-460 | a size line never moves the parser back |
| HttpParsing.LineOutcome | src/main/java/org/tini/parser/HttpParser.java:383-404 | a handled line never moves the parser back |
| HttpParsing.LineStep | src/main/java/org/tini/parser/HttpParser.java:313-404 | each line step consumes input, or else shortens the stack of pending modes |
| HttpParsing.BodyStep | src/main/java/org/tini/parser/HttpParser.java:236-279 | each body step consumes input or shortens the pending stack |
| HttpParsing.FixedBody | src/main/java/org/tini/parser/HttpParser.java:242-278 | a fixed-length body step consumes input or shortens the pending stack |
| HttpParsing.TrailersStep | src/main/java/org/tini/parser/HttpParser.java:289-296 | the trailers step consumes nothing and shortens the pending stack |
| HttpParsing.Step | src/main/java/org/tini/parser/HttpParser.java:158-460 | every step makes progress, so a run over a finite buffer ends |
| HttpParsing.RunAfterStep | src/main/java/org/tini/parser/HttpParser.java:158-460 | a run is the events of one step followed by the run from the state that step leaves |
| HttpParsing.HttpParser.constructor | src/main/java/org/tini/parser/HttpParser.java:78-89 | a new parser starts at the beginning of its buffer, with no headers, modes or events |
| HttpParsing.HttpParser.GetAByte | src/main/java/org/tini/parser/HttpParser.java:351-358 | yields the next octet as a Java `byte` and advances, or yields -1 without advancing |
| HttpParsing.HttpParser.InflightLine | src/main/java/org/tini/parser/HttpParser.java:360-382 | the loop reads exactly up to the line end `LineEnd` finds and decodes that span |
| HttpParsing.HttpParser.SendDataToApp | src/main/java/org/tini/parser/HttpParser.java:485-502 | the data handler is given the next `size` octets, and the position moves past them |
| HttpParsing.HttpParser.ParseHeaderLine | src/main/java/org/tini/parser/HttpParser.java:299-311 | the header map becomes the old map with the line's value added under its lower-cased name |
| HttpParsing.HttpParser.StartLineCompleted | src/main/java/org/tini/parser/RequestParser.java:62-89 | the start-line handler leaves the state and events that `StartLineOutcome` specifies |
| HttpParsing.HttpParser.HeaderLineCompleted | src/main/java/org/tini/parser/HttpParser.java:166-213 | the header-line handler leaves the state and events that `HeaderLineOutcome` specifies |
| HttpParsing.HttpParser.ChunkSizeCompleted | src/main/java/org/tini/parser/HttpParser.java:411-445 | the size-line handler leaves the state and events that `ChunkSizeOutcome` specifies |
| HttpParsing.HttpParser.LineCompleted | src/main/java/org/tini/parser/HttpParser.java:383-404 | the handler of the current line mode leaves the state and events that `LineOutcome` specifies |
| HttpParsing.HttpParser.ReadLineStep | src/main/java/org/tini/parser/HttpParser.java:313-404 | reading a line and handling it is the step `LineStep` |
| HttpParsing.HttpParser.HandleLine | src/main/java/org/tini/parser/HttpParser.java:383-404 | a line at its limit runs `failed` and then `completed`; a found line runs `completed` |
| HttpParsing.HttpParser.FindData | src/main/java/org/tini/parser/HttpParser.java:236-279 | `findData` leaves the state and events that `BodyStep` specifies |
| HttpParsing.HttpParser.FixedLengthBody | src/main/java/org/tini/parser/HttpParser.java:242-278 | a fixed-length body leaves the state and events that `FixedBody` specifies |
| HttpParsing.HttpParser.FindTrailers | src/main/java/org/tini/parser/HttpParser.java:289-296 | `findTrailers` leaves the state and events that `TrailersStep` specifies |
| HttpParsing.HttpParser.StepOnce | src/main/java/org/tini/parser/HttpParser.java:158-460 | running the innermost pending mode is the step `Step` |
| HttpParsing.HttpParser.Go | src/main/java/org/tini/parser/RequestParser.java:57-107 | `go()` delivers exactly the events of the run from a start line |
| HttpParsing.ParseBuffer | src/main/java/org/tini/parser/RequestParser.java:57-107 | a parser over a fresh buffer delivers exactly the events of `Parse` |
| ParserProperties.RequestLineStep | src/main/java/org/tini/parser/RequestParser.java:62-80 | a written request line is reported and followed by a header block |
| ParserProperties.ResponseLineStep | src/main/java/org/tini/parser/ResponseParser.java:65-84 | a written status line is reported and followed by a header block |
| ParserProperties.MalformedRequestLineStops | src/main/java/org/tini/parser/RequestParser.java:64-68 | a malformed request line reports a failure and parsing stops |
| ParserProperties.LongLineFails | src/main/java/org/tini/parser/HttpParser.java:383-390 | a line that reaches its limit runs the failure handler of its mode |
| ParserProperties.HeaderLineStep | src/main/java/org/tini/parser/HttpParser.java:188-210 | a written header line is stored under its lower-cased name and the header block goes on |
| ParserProperties.HeaderLineRun | src/main/java/org/tini/parser/HttpParser.java:188-210 | the same, stated over whole runs |
| ParserProperties.RepeatedHeaderKeepsOrder | src/main/java/org/tini/parser/HttpParser.java:299-311 | two lines with the same name leave both values in arrival order |
| ParserProperties.AddValueTwice | src/main/java/org/tini/parser/HttpParser.java:299-311 | adding two values under one name gives the list of both, in order |
| ParserProperties.BlankLineStep | src/main/java/org/tini/parser/HttpParser.java:167-187 | a blank line reports the header map and moves on to the body, or ends the trailers |
| ParserProperties.ContinuationLineHeld | src/main/java/org/tini/parser/HttpParser.java:192-196 | a line starting with space or tab is trimmed and held, not stored |
| ParserProperties.HeldLinesReplaceNext | src/main/java/org/tini/parser/HttpParser.java:197-209 | held lines are concatenated and parsed in place of the next line, which is dropped |
| ParserProperties.UnframedBodyStep | src/main/java/org/tini/parser/HttpParser.java:264-277 | a message without framing headers has no body bytes and delivers one empty buffer |
| ParserProperties.PlainTrailersStep | src/main/java/org/tini/parser/HttpParser.java:289-296 | after a message that is not chunked the next start line is read |
| ParserProperties.ChunkedTrailersStep | src/main/java/org/tini/parser/HttpParser.java:289-292 | after a chunked body a trailer block is parsed into a fresh map |
| ParserProperties.FixedBodyStep | src/main/java/org/tini/parser/HttpParser.java:242-263 | a body of declared length within the buffer is delivered whole |
| ParserProperties.DeclaredBodyStep | src/main/java/org/tini/parser/HttpParser.java:242-263 | the same for a body whose length is read from a written content-length header |
| ParserProperties.LineAfterBodyDropped | src/main/java/org/tini/parser/HttpParser.java:247-252 | after a fixed-length body one line is read and discarded, whatever it holds |
| ParserProperties.HexLine | src/main/java/org/tini/parser/HttpParser.java:679-690 | a size line as a sender writes it is read back as the size |
| ParserProperties.ChunkSizeStep | src/main/java/org/tini/parser/HttpParser.java:434-437 | a chunk within the buffer is delivered to the data handler |
| ParserProperties.ChunkEndStep | src/main/java/org/tini/parser/HttpParser.java:462-470 | the CRLF after a chunk's bytes leads to the next size line |
| ParserProperties.LastChunkStep | src/main/java/org/tini/parser/HttpParser.java:423-433 | the last-chunk line delivers the empty end-of-body buffer and then the trailers |
| ParserProperties.ChunkTooLargeStops | src/main/java/org/tini/parser/HttpParser.java:415-422 | a size from 8192 on is a failure for the data handler and stops the body |
| ParserProperties.ChunkRun | src/main/java/org/tini/parser/HttpParser.java:407-483 | one framed chunk delivers its bytes and leads to the next size line |
| ParserProperties.LastChunkRun | src/main/java/org/tini/parser/HttpParser.java:423-433 | the last chunk and the empty trailer block end the message |
| ParserProperties.ChunkedBodyRun | src/main/java/org/tini/common/WritableMessage.java:111-163 | a chunked body as the serializer writes it is delivered chunk by chunk, in order, followed by the empty buffer |
| ParserProperties.BodylessRequestRun | src/main/java/org/tini/parser/RequestParser.java:57-107 | a request without headers or body reports its line, the empty map and the empty buffer, then reads the next start line |
| ParserProperties.EmptyHeadersRun | src/main/java/org/tini/parser/HttpParser.java:167-187 | an empty header block reports the empty map, the empty body and then the next start line |
| ParserProperties.RunAtEnd | src/main/java/org/tini/parser/HttpParser.java:313-318 | at the end of the buffer no further start line is read and the run ends |
| ParserProperties.BodylessRun | src/main/java/org/tini/parser/RequestParser.java:57-107 | a sequence of bodyless requests yields three events per request, in order |
| ParserProperties.BodylessRequestsInOrder | src/main/java/org/tini/parser/RequestParser.java:57-107 | parsing a pipelined stream of bodyless requests reports every request in arrival order |
| AioRequest.JavaChar | src/main/java/org/tini/aio/HttpRequest.java:392 | the `(char)` cast keeps non-negative values and sign-extends negative bytes to U+FF80 and above |
| AioRequest.SignedByte | src/main/java/org/tini/aio/HttpRequest.java:156-172 | an octet read as a Java byte is itself below 128 and negative from 128 on |
| AioRequest.LineFrom | src/main/java/org/tini/aio/HttpRequest.java:370-395 | a line never holds CR or LF, and reading moves forward while input remains |
| AioRequest.HeaderLineFrom | src/main/java/org/tini/aio/HttpRequest.java:302-330 | a header line, when read, moves the position forward |
| AioRequest.FramingOfWritten | src/main/java/org/tini/aio/HttpRequest.java:130-153 | with no content-length the length is -1, a written decimal length is read back, and a body is chunked exactly when the transfer-encoding is "chunked" |
| AioRequest.ChunksFrom | src/main/java/org/tini/aio/HttpRequest.java:190-265 | reading chunks never moves back or past the input |
| AioRequest.HttpRequest.constructor | src/main/java/org/tini/aio/HttpRequest.java:35-47 | a new request has read its request line and header block from the start of the input |
| AioRequest.HttpRequest.Read | src/main/java/org/tini/aio/HttpRequest.java:156-172 | yields the next octet as a Java byte and advances, or yields -1 without advancing |
| AioRequest.HttpRequest.ReadLine | src/main/java/org/tini/aio/HttpRequest.java:370-395 | reads exactly the line `LineFrom` specifies |
| AioRequest.HttpRequest.ReadHeader | src/main/java/org/tini/aio/HttpRequest.java:302-330 | reads exactly the header line `HeaderLineFrom` specifies |
| AioRequest.HttpRequest.ReadHeaders | src/main/java/org/tini/aio/HttpRequest.java:272-300 | reads exactly the header block `HeadersFrom` specifies |
| AioRequest.HttpRequest.ReadRequestLine | src/main/java/org/tini/aio/HttpRequest.java:175-186 | stores the three parts of the split request line |
| AioRequest.HttpRequest.OnData | src/main/java/org/tini/aio/HttpRequest.java:96-123 | a chunked body is read chunk by chunk; a positive content length issues one channel read that starts with the rest of the input; any other body completes at once, empty |
| AioRequest.HttpRequest.ReadChunk | src/main/java/org/tini/aio/HttpRequest.java:190-265 | delivers exactly the notices `ChunksFrom` specifies |
| AioRequest.ChunkEnds | src/main/java/org/tini/aio/HttpRequest.java:196-204 | an unreadable size is reported, a zero size completes the body, and a size beyond the rest of the input issues a channel read for what is missing |
| AioRequest.ChunkDelivered | src/main/java/org/tini/aio/HttpRequest.java:205-224 | a chunk within the input is delivered with its size and reading goes on after its CRLF |
| AioRequest.LineOfWritten | src/main/java/org/tini/aio/HttpRequest.java:370-395 | a written line is read back without its terminator, which is consumed |
| AioRequest.HeaderLineOfWritten | src/main/java/org/tini/aio/HttpRequest.java:302-330 | a written header line is read back; at the end of input there is none |
| AioRequest.HeaderBlockOfWritten | src/main/java/org/tini/aio/HttpRequest.java:272-300 | a written header block is read into the map its lines fold to |
| AioRequest.EmptyBlock | src/main/java/org/tini/aio/HttpRequest.java:276 | an immediately empty line ends the block with no headers added |
| AioRequest.HeadersLowerCase | src/main/java/org/tini/aio/HttpRequest.java:284 | every header name stored is lower case |
| AioRequest.SplitHeaderText | src/main/java/org/tini/aio/HttpRequest.java:332-368 | `name: value` splits back into its name and value |
| AioRequest.LaterHeaderOverwrites | src/main/java/org/tini/aio/HttpRequest.java:283-285 | a later header with the same name replaces the earlier value, in the earlier place |
| AioRequest.TwoHeaders | src/main/java/org/tini/aio/HttpRequest.java:283-297 | two headers with different names are stored in order |
| AioRequest.ObsFoldJoins | src/main/java/org/tini/aio/HttpRequest.java:279-281 | a continuation line is joined to the previous value with one space |
| AioRequest.ChunkSizeOfHex | src/main/java/org/tini/aio/HttpRequest.java:450-461 | `getChunkSize` reads back the size `Integer.toHexString` writes |
| AioRequest.ChunkedBodyOfWritten | src/main/java/org/tini/aio/HttpRequest.java:190-265 | a written chunked body is delivered chunk by chunk with each size, then completes |
| AioRequest.ChunkStep | src/main/java/org/tini/aio/HttpRequest.java:205-224 | one written chunk is delivered with its size, and reading continues after it |
| AioRequest.LastChunkLine | src/main/java/org/tini/aio/HttpRequest.java:201-204 | the last-chunk line completes the body |
| AioRequest.RequestLineOfWritten | src/main/java/org/tini/aio/HttpRequest.java:175-186 | a written request line is read back as its text |
| AioRequest.SplitRequestLine | src/main/java/org/tini/aio/HttpRequest.java:397-418 | a request line of three tokens splits into those tokens |
| ReadBuffers.Allocate | src/main/java/org/tini/aio/HttpRequest.java:29 | a new buffer offers all of its capacity to be read, every octet NUL |
| ReadBuffers.ChannelRead | src/main/java/org/tini/aio/HttpRequest.java:39 | a channel read stores the octets received at the position and moves the position past them, leaving the limit and the other octets as they were |
| ReadBuffers.RewindPadsWithNuls | src/main/java/org/tini/aio/HttpRequest.java:39-40 | after the first read and `rewind`, the buffer offers the octets received followed by NULs up to the capacity |
| ReadBuffers.FlipOffersReceived | src/main/java/org/tini/aio/HttpRequest.java:163-168 | a buffer filled by a read and then limited to what was read offers exactly the octets received |
| ReadBuffers.AfterHead | src/main/java/org/tini/aio/HttpRequest.java:105-106 | when head and body arrive in one short read, the octets after the head are the body and then NULs as written, and only the body with `flip` |
| ReadBuffers.ShortPostPadded | src/main/java/org/tini/aio/HttpRequest.java:39-40 | a 41-octet POST with the body "abc" leaves 90 octets after its head, "abc" and 87 NULs, where 3 were sent |
| Text.Keys | src/main/java/org/tini/common/WritableMessage.java:217 | one key per entry, in map order |
| HeaderMaps.Get | src/main/java/org/tini/common/WritableMessage.java:220 | `Map.get` finds a value exactly when the name is a key |
| HeaderMaps.Put | src/main/java/org/tini/common/WritableMessage.java:70 | a put adds an entry only for a new name |
| HeaderMaps.PutGet | src/main/java/org/tini/common/WritableMessage.java:70 | after a put the name maps to the new value and every other name is unchanged |
| HeaderMaps.PutKeys | src/main/java/org/tini/common/WritableMessage.java:70 | names keep their order, a new one going last |
| HeaderMaps.Remove | src/main/java/org/tini/common/WritableMessage.java:173 | a remove never adds an entry |
| HeaderMaps.RemoveGet | src/main/java/org/tini/common/WritableMessage.java:173 | after a remove the name is absent and every other name keeps its value |
| HeaderMaps.PutNew | src/main/java/org/tini/common/WritableMessage.java:177 | a name that is not yet present is put at the end |
| HeaderMaps.PutSame | src/main/java/org/tini/common/WritableMessage.java:202-205 | putting the value a name already has changes nothing |
| Messages.HeadersCalls | src/main/java/org/tini/common/ReadableMessage.java:70-74 | one headers call per handler, in registration order |
| Messages.TrailersCalls | src/main/java/org/tini/common/ReadableMessage.java:82-86 | one trailers call per handler, in registration order |
| Messages.ReadableMessage.constructor | src/main/java/org/tini/common/ReadableMessage.java:36-37 | a new message has no handlers and has delivered nothing |
| Messages.ReadableMessage.OnHeaders | src/main/java/org/tini/common/ReadableMessage.java:44-47 | headers handlers accumulate in registration order |
| Messages.ReadableMessage.OnData | src/main/java/org/tini/common/ReadableMessage.java:54-57 | a new data handler replaces the earlier one |
| Messages.ReadableMessage.OnTrailers | src/main/java/org/tini/common/ReadableMessage.java:64-67 | trailers handlers accumulate in registration order |
| Messages.ReadableMessage.HeadersReceived | src/main/java/org/tini/common/ReadableMessage.java:70-74 | every headers handler is told about the map, in registration order |
| Messages.ReadableMessage.DataReceived | src/main/java/org/tini/common/ReadableMessage.java:76-80 | the data handler, if there is one, is told about the data; without one nothing happens |
| Messages.ReadableMessage.TrailersReceived | src/main/java/org/tini/common/ReadableMessage.java:82-86 | every trailers handler is told about the map, in registration order |
| Messages.HeadersCallsSnoc | src/main/java/org/tini/common/ReadableMessage.java:71-73 | a handler registered later is told after the earlier ones |
| Messages.TrailersCallsSnoc | src/main/java/org/tini/common/ReadableMessage.java:83-85 | a handler registered later is told after the earlier ones |
| Messages.ServerRequest.constructor | src/main/java/org/tini/server/ServerRequest.java:47-50 | a new request holds its request line and an empty header map |
| Messages.ServerRequest.SetHeaders | src/main/java/org/tini/server/ServerRequest.java:52-54 | the parser's map replaces the whole header map |
| Messages.ServerRequest.GetHeader | src/main/java/org/tini/server/ServerRequest.java:67-75 | a value is returned exactly when the name has a non-empty list, and it is the first value |
| Serializer.DoCloseOf | src/main/java/org/tini/server/ServerResponse.java:107-120 | the decision is `Closing`, and only the headers may change |
| Serializer.TransferEncodingOf | src/main/java/org/tini/common/WritableMessage.java:170-180 | only the headers and the chunked flag may change |
| Serializer.WriteHeadOf | src/main/java/org/tini/common/WritableMessage.java:193-235 | the head is written once: on a written head nothing happens, otherwise the output is the first line and the settled headers |
| Serializer.WriteOf | src/main/java/org/tini/common/WritableMessage.java:111-131 | a write marks the head written and the message as having a body, and only adds to the sink |
| Serializer.EndOf | src/main/java/org/tini/common/WritableMessage.java:136-168 | `end` changes only the headers, flags and sink |
| Serializer.HostOf | src/main/java/org/tini/client/ClientRequest.java:110-118 | only the headers may change |
| Serializer.WriteHeadPublicOf | src/main/java/org/tini/common/WritableMessage.java:184-191 | the public `writeHead` marks the head written and changes only headers, flag and sink |
| Serializer.AddHeaderOf | src/main/java/org/tini/common/WritableMessage.java:66-71 | only the headers and the sink may change |
| Serializer.PairsOf | src/main/java/org/tini/common/WritableMessage.java:80-84 | one pair per value, in order |
| Serializer.WritableMessage.Response | src/main/java/org/tini/server/ServerResponse.java:60-66 | a new response is 200 "OK" with a Server header and a Date header |
| Serializer.WritableMessage.Request | src/main/java/org/tini/client/ClientRequest.java:56-65 | a missing or empty path becomes "/", and the request starts with no headers |
| Serializer.WritableMessage.AddHeader | src/main/java/org/tini/common/WritableMessage.java:66-71 | the new state is `AddHeaderOf` of the old one |
| Serializer.WritableMessage.AddHeaders | src/main/java/org/tini/common/WritableMessage.java:78-85 | every value of every name is added through `addHeader`, in order |
| Serializer.WritableMessage.AddValues | src/main/java/org/tini/common/WritableMessage.java:80-83 | every value of one name is added through `addHeader`, in order |
| Serializer.WritableMessage.SetContentType | src/main/java/org/tini/common/WritableMessage.java:92-94 | the content-type header is put |
| Serializer.WritableMessage.SetStatus | src/main/java/org/tini/server/ServerResponse.java:74-77 | both the code and the reason phrase are replaced |
| Serializer.WritableMessage.DoClose | src/main/java/org/tini/server/ServerResponse.java:107-120 | the decision and the new state are those of `DoCloseOf` |
| Serializer.WritableMessage.SetTransferEncoding | src/main/java/org/tini/common/WritableMessage.java:170-180 | the new state is that of `TransferEncodingOf` |
| Serializer.WritableMessage.SerializeHead | src/main/java/org/tini/common/WritableMessage.java:193-235 | the bytes and the new state are those of `WriteHeadOf` |
| Serializer.WritableMessage.Write | src/main/java/org/tini/common/WritableMessage.java:111-131 | the new state is that of `WriteOf` |
| Serializer.WritableMessage.End | src/main/java/org/tini/common/WritableMessage.java:136-168 | the new state is that of `EndOf` |
| Serializer.WritableMessage.WriteHead | src/main/java/org/tini/client/ClientRequest.java:110-130 | the new state is that of `WriteHeadPublicOf` |
| Serializer.FrameBytes | src/main/java/org/tini/common/WritableMessage.java:115-126 | the bytes are the chunk frame of the data when chunked, the data itself otherwise |
| Serializer.SerializeHeaders | src/main/java/org/tini/common/WritableMessage.java:217-223 | the loop writes one lower-cased header line per header, in map order |
| Serializer.HeaderSectionSnoc | src/main/java/org/tini/common/WritableMessage.java:217-223 | a header added last is written last |
| Serializer.AddAllConcat | src/main/java/org/tini/common/WritableMessage.java:78-85 | adding two lists of pairs is adding their concatenation |
| SerializerProperties.HeadHeaders | src/main/java/org/tini/common/WritableMessage.java:170-205 | the head carries the connection header `doClose` chose and transfer-encoding chunked exactly when no content-length is set |
| SerializerProperties.DoCloseHeaders | src/main/java/org/tini/server/ServerResponse.java:107-120 | `doClose` touches no header but the connection header |
| SerializerProperties.DoCloseSettles | src/main/java/org/tini/server/ServerResponse.java:113-118 | once the connection header says what `doClose` decides, `doClose` changes nothing |
| SerializerProperties.FirstWrite | src/main/java/org/tini/common/WritableMessage.java:111-131 | the first write puts out the head and the framed data together, and settles the message |
| SerializerProperties.SettledWrite | src/main/java/org/tini/common/WritableMessage.java:115-127 | a write on a settled message adds only its framed data |
| SerializerProperties.SettledWrites | src/main/java/org/tini/common/WritableMessage.java:115-127 | writes on a settled message add their framed data one after the other |
| SerializerProperties.SettledEnd | src/main/java/org/tini/common/WritableMessage.java:151-160 | ending a settled message adds the last chunk exactly when the body is chunked |
| SerializerProperties.ChunkFrames | src/main/java/org/tini/common/WritableMessage.java:116-124 | chunk frames followed by the last chunk are the chunked body |
| SerializerProperties.PlainFrames | src/main/java/org/tini/common/WritableMessage.java:125-126 | unframed writes are the data as it is |
| SerializerProperties.MessageOutput | src/main/java/org/tini/common/WritableMessage.java:111-168 | writes followed by `end` output the head, then the body chunked or plain, then the last chunk when chunked |
| SerializerProperties.EndWithoutBody | src/main/java/org/tini/common/WritableMessage.java:144-150 | `end` without a write outputs the head alone, marks the end of the message, and changes no header but the connection header `doClose` decides |
| SerializerProperties.EndOnce | src/main/java/org/tini/common/WritableMessage.java:139-142 | a second `end` does nothing |
| SerializerProperties.RequestHost | src/main/java/org/tini/client/ClientRequest.java:111-118 | a request without a host header gets "host", or "host:port" when the port is not 80 |
| SerializerProperties.TransferEncodingGet | src/main/java/org/tini/common/WritableMessage.java:170-180 | settling the framing touches no header but transfer-encoding |
| SerializerProperties.HeadAlone | src/main/java/org/tini/client/ClientRequest.java:119-129 | the public `writeHead` on a message without a body outputs the head alone, keeps the framing headers as set, and for a request has the response read next |
| SerializerProperties.HeadBeforeWrite | src/main/java/org/tini/common/WritableMessage.java:111-131 | a head sent by `writeHead` before any write announces no transfer-encoding, yet the write that follows is framed as a chunk |
| SerializerProperties.AddAllGet | src/main/java/org/tini/common/WritableMessage.java:78-85 | after `addHeaders` a name holds the last value added for it, or its old value |
| AioResponse.WriteHeadOf | src/main/java/org/tini/aio/HttpResponse.java:102-133 | the head is written once: on a written head nothing changes |
| AioResponse.WriteOf | src/main/java/org/tini/aio/HttpResponse.java:80-88 | a write marks the head written and changes only the headers and the writes |
| AioResponse.EndOf | src/main/java/org/tini/aio/HttpResponse.java:93-100 | `end` changes only the headers, the head flag and the writes |
| AioResponse.HttpResponse.constructor | src/main/java/org/tini/aio/HttpResponse.java:33-35 | a new response is 200 "OK" with no headers and nothing written |
| AioResponse.HttpResponse.SetStatus | src/main/java/org/tini/aio/HttpResponse.java:42-45 | both the code and the message are replaced |
| AioResponse.HttpResponse.SetContentType | src/main/java/org/tini/aio/HttpResponse.java:52-54 | the content-type header is put |
| AioResponse.HttpResponse.AddHeader | src/main/java/org/tini/aio/HttpResponse.java:62-64 | the header is put under the name as given, not lower-cased |
| AioResponse.HttpResponse.WriteHead | src/main/java/org/tini/aio/HttpResponse.java:102-133 | the new state is that of `WriteHeadOf` |
| AioResponse.HttpResponse.Write | src/main/java/org/tini/aio/HttpResponse.java:80-88 | the new state is that of `WriteOf` |
| AioResponse.HttpResponse.End | src/main/java/org/tini/aio/HttpResponse.java:93-100 | the new state is that of `EndOf` |
| AioResponse.HeadBytesOf | src/main/java/org/tini/aio/HttpResponse.java:118-126 | the head is the status line, one lower-cased line per header and CRLF |
| AioResponse.HeadOutput | src/main/java/org/tini/aio/HttpResponse.java:102-133 | the head goes out once, before anything else |
| AioResponse.WriteOutput | src/main/java/org/tini/aio/HttpResponse.java:80-88 | the four channel writes of `write` put one chunk frame on the wire |
| AioResponse.LaterWrites | src/main/java/org/tini/aio/HttpResponse.java:80-88 | after the head, each write adds its chunk frame |
| AioResponse.ResponseOutput | src/main/java/org/tini/aio/HttpResponse.java:80-100 | writes followed by `end` output the head, the chunk frames and the last chunk |
| AioResponse.LastChunkOutput | src/main/java/org/tini/aio/HttpResponse.java:93-100 | on a response whose head is out, `end` adds the last chunk and nothing else |
| AioResponse.AllWritesWriteHead | src/main/java/org/tini/aio/HttpResponse.java:80-82 | writing first settles the head exactly as `writeHead` does |
| AioResponse.EndTwice | src/main/java/org/tini/aio/HttpResponse.java:93-100 | `closed` is never set, so a second `end` writes the last chunk again |
| AioResponse.FramingHeader | src/main/java/org/tini/aio/HttpResponse.java:106-108 | without a content-length key the head carries Transfer-Encoding: chunked and every other header as it was |
| AioResponse.CapitalisedLengthStillChunked | src/main/java/org/tini/aio/HttpResponse.java:62-64 | a header added as "Content-Length" is not seen by the framing check, so the body is still chunked |
| AioResponse.StatusLineParses | src/main/java/org/tini/aio/HttpResponse.java:111-117 | the status line, with its trailing space, is read back by the response parser |
| AioResponse.TrailingWhitespace | src/main/java/org/tini/parser/HttpParser.java:640-646 | a trailing space before CRLF does not change how a status line parses |
| ReadablePipelines.FlushOf | src/main/java/org/tini/common/ReadablePipeline.java:188-204 | a flush never lengthens the queue |
| ReadablePipelines.FlushCompletedOf | src/main/java/org/tini/common/ReadablePipeline.java:84-108 | `flushCompleted` never lengthens the queue |
| ReadablePipelines.LoopOf | src/main/java/org/tini/common/ReadablePipeline.java:88-98 | the loop never lengthens the queue |
| ReadablePipelines.ReadablePipeline.constructor | src/main/java/org/tini/common/ReadablePipeline.java:55-83 | a new pipeline has no writers and has written nothing |
| ReadablePipelines.ReadablePipeline.Push | src/main/java/org/tini/common/ReadablePipeline.java:44 | a writer joins the tail of the queue |
| ReadablePipelines.ReadablePipeline.Take | src/main/java/org/tini/common/ReadablePipeline.java:93 | the head comes off the queue and is returned |
| ReadablePipelines.ReadablePipeline.FlushWriter | src/main/java/org/tini/common/ReadablePipeline.java:188-204 | the new state and the waiting flag are those of `FlushOf` |
| ReadablePipelines.ReadablePipeline.FlushCompleted | src/main/java/org/tini/common/ReadablePipeline.java:84-108 | the new state and the waiting flag are those of `FlushCompletedOf` |
| ReadablePipelines.ChannelWriter.constructor | src/main/java/org/tini/common/ReadablePipeline.java:113-116 | a new writer is not ended and holds no buffers |
| ReadablePipelines.ChannelWriter.Write | src/main/java/org/tini/common/ReadablePipeline.java:124-175 | the writer at the head writes to the channel; any other writer buffers the bytes |
| ReadablePipelines.ChannelWriter.CloseWhenDone | src/main/java/org/tini/common/ReadablePipeline.java:177-180 | sets the flag of the whole pipeline |
| ReadablePipelines.ChannelWriter.End | src/main/java/org/tini/common/ReadablePipeline.java:182-186 | marks the writer ended and flushes it |
| ReadablePipelines.ChannelWriter.Flush | src/main/java/org/tini/common/ReadablePipeline.java:188-204 | the new pipeline state is that of `FlushOf` |
| ReadablePipelines.SettlesTransitive | src/main/java/org/tini/common/ReadablePipeline.java:84-108 | the settling order is transitive |
| ReadablePipelines.FlushSettles | src/main/java/org/tini/common/ReadablePipeline.java:188-204 | a flush keeps the close-when-done flag, only drops writers from the head, only adds to the channel, and closes it only once the queue is empty and closing was asked for |
| ReadablePipelines.FlushCompletedSettles | src/main/java/org/tini/common/ReadablePipeline.java:84-108 | `flushCompleted` only drops writers from the head and only adds to the channel |
| ReadablePipelines.LoopSettles | src/main/java/org/tini/common/ReadablePipeline.java:88-98 | the loop only drops writers from the head and only adds to the channel |
| ReadablePipelines.FlushHead | src/main/java/org/tini/common/ReadablePipeline.java:188-204 | flushing the head writer writes its buffers in order, takes it off and continues with the next |
| ReadablePipelines.DoubleTakeDropsWriter | src/main/java/org/tini/common/ReadablePipeline.java:91-93 | the loop takes a second writer after the one it flushed, whose buffers are never written |
| ReadablePipelines.LastWriterLeavesWaiting | src/main/java/org/tini/common/ReadablePipeline.java:91-97 | when the queue runs dry, the second `take` waits |
| WritablePipelines.FlushOf | src/main/java/org/tini/common/WritablePipeline.java:128-144 | a flush never lengthens the queue |
| WritablePipelines.FlushCompletedOf | src/main/java/org/tini/common/WritablePipeline.java:147-171 | `flushCompleted` never lengthens the queue |
| WritablePipelines.LoopOf | src/main/java/org/tini/common/WritablePipeline.java:151-161 | the loop never lengthens the queue |
| WritablePipelines.Peek | src/main/java/org/tini/common/WritablePipeline.java:69 | `peek` yields the head exactly when the queue is not empty |
| WritablePipelines.WritablePipeline.constructor | src/main/java/org/tini/common/WritablePipeline.java:48-51 | a new pipeline has an empty queue, no buffers and no flags |
| WritablePipelines.WritablePipeline.Push | src/main/java/org/tini/common/WritablePipeline.java:54-56 | the message joins the tail of the queue |
| WritablePipelines.WritablePipeline.Poll | src/main/java/org/tini/server/ServerRequestPipeline.java:142 | `poll` yields the head, if any, and removes it |
| WritablePipelines.WritablePipeline.Write | src/main/java/org/tini/common/WritablePipeline.java:67-115 | the new state and the handler notice are those of `WriteOf` |
| WritablePipelines.WritablePipeline.CloseWhenDone | src/main/java/org/tini/common/WritablePipeline.java:118-120 | sets only the close flag |
| WritablePipelines.WritablePipeline.End | src/main/java/org/tini/common/WritablePipeline.java:123-126 | the new state and waiting flag are those of `EndOf` |
| WritablePipelines.WritablePipeline.Flush | src/main/java/org/tini/common/WritablePipeline.java:128-144 | the new state and waiting flag are those of `FlushOf` |
| WritablePipelines.WritablePipeline.FlushCompleted | src/main/java/org/tini/common/WritablePipeline.java:147-171 | the new state and waiting flag are those of `FlushCompletedOf` |
| WritablePipelines.SettlesTransitive | src/main/java/org/tini/common/WritablePipeline.java:147-171 | the settling order is transitive |
| WritablePipelines.FlushSettles | src/main/java/org/tini/common/WritablePipeline.java:128-144 | a flush only drops messages from the head and only adds to the channel |
| WritablePipelines.FlushCompletedSettles | src/main/java/org/tini/common/WritablePipeline.java:147-171 | `flushCompleted` only drops messages from the head and only adds to the channel |
| WritablePipelines.LoopSettles | src/main/java/org/tini/common/WritablePipeline.java:151-161 | the loop only drops messages from the head and only adds to the channel |
| WritablePipelines.FlushWithoutBuffers | src/main/java/org/tini/common/WritablePipeline.java:128-144 | with nothing left to write, flushing the head takes it off and closes the channel if asked to |
| WritablePipelines.Repeat | src/main/java/org/tini/common/WritablePipeline.java:58-64 | `k` copies of the buffer list have `k` times its length |
| WritablePipelines.FlushDrains | src/main/java/org/tini/common/WritablePipeline.java:128-171 | flushing the head writes the shared buffers, and again for every later ended message the loop takes |
| WritablePipelines.BufferedChunkWrittenTwice | src/main/java/org/tini/common/WritablePipeline.java:58-64 | the buffers are shared by all messages, so a buffered chunk can be written twice |
| Dispatch.FirstAnnotated | src/main/java/org/tini/server/ServerRequestPipeline.java:238-252 | the first method carrying the annotation, or none when no method carries it |
| Dispatch.LastService | src/main/java/org/tini/server/ServerRequestPipeline.java:243-246 | the last method named "service", or none when there is none |
| Dispatch.SelectMethod | src/main/java/org/tini/server/ServerRequestPipeline.java:238-252 | the loop picks the method `Selected` specifies |
| Dispatch.InvokeApp | src/main/java/org/tini/server/ServerRequestPipeline.java:213-280 | the calls on the response are those `DispatchOf` specifies |
| Dispatch.SelectionRule | src/main/java/org/tini/server/ServerRequestPipeline.java:238-252 | a method is selected unless none is annotated and none is named "service"; an annotated one wins over every "service" |
| Dispatch.NotFoundRule | src/main/java/org/tini/server/ServerRequestPipeline.java:230-237 | without a handler for the URI or a default one, the response is given 404 and is not ended |
| Dispatch.MethodNotAllowedRule | src/main/java/org/tini/server/ServerRequestPipeline.java:275-279 | a handler without a matching method gives 405 and ends the response |
| Dispatch.UnknownMethodRule | src/main/java/org/tini/server/ServerRequestPipeline.java:217-225 | an HTTP method outside the annotation set gives 500 and ends the response in the pipelined servers; the aio server and the Netty handler set 500 and then dispatch as for GET |
| Dispatch.InvocationRule | src/main/java/org/tini/server/ServerRequestPipeline.java:253-274 | a method is invoked only when it is the selected one; a failing invocation is answered with 500 and the end of the response, except that in the aio server and the Netty handler an argument rejection escapes |
| Dispatch.EndsOnce | src/main/java/org/tini/server/ServerRequestPipeline.java:213-280 | the response is ended at most once, as the last call, right after a 500 or 405 status |
| Dispatch.LookupEndsOnce | src/main/java/org/tini/server/ServerRequestPipeline.java:230-279 | the same once the annotation is known |
| Dispatch.MethodNameCaseInsensitive | src/main/java/org/tini/server/ServerRequestPipeline.java:218 | the HTTP method name is matched without regard to case |
| Dispatch.Server.constructor | src/main/java/org/tini/aio/Server.java:29-31 | a new server has no handlers |
| Dispatch.Server.Use | src/main/java/org/tini/aio/Server.java:40-42 | registers a handler under a path, or as the default, replacing any earlier one |
| Dispatch.Server.Serve | src/main/java/org/tini/aio/Server.java:102-159 | dispatch follows the rules of `DispatchOf` |
| Dispatch.UseThenFind | src/main/java/org/tini/aio/Server.java:116-117 | after `use` (lines 40-42), the lookup of the URI finds the handler just registered for it, or the default when no exact one exists |
| Dispatch.RequestHandler.constructor | src/main/java/org/tini/core/RequestHandler.java:38-41 | a new handler holds the registry and no current message |
| Dispatch.RequestHandler.MessageReceived | src/main/java/org/tini/core/RequestHandler.java:44-56 | a full message becomes the current one and is dispatched; a chunk changes nothing |
| Routing.Accessed | src/main/java/org/tini/client/ClientResponsePipeline.java:50-145 | a peek, poll or take reaches the head; only a take on an empty queue waits |
| Routing.DataEvents | src/main/java/org/tini/parser/HttpParser.java:485-502 | one data event per buffer, in order |
| Routing.Targets | src/main/java/org/tini/server/ServerRequestPipeline.java:156-166 | `n` targets, all the same message |
| Routing.DataGoesToHead | src/main/java/org/tini/server/ServerRequestPipeline.java:156-166 | data leaves the head request in place and goes to it |
| Routing.RouteAppend | src/main/java/org/tini/server/ServerRequestPipeline.java:97-207 | routing two runs of events one after the other is routing their concatenation |
| Routing.BodyGoesToHead | src/main/java/org/tini/client/ClientResponsePipeline.java:76-140 | headers, data and trailers all go to the message at the head, and the trailers take it off |
| Routing.ServerMessageRoutes | src/main/java/org/tini/server/ServerRequestPipeline.java:97-194 | every event of a request goes to the request its request line created, which leaves the queue with the trailers |
| Routing.ClientMessageRoutes | src/main/java/org/tini/client/ClientResponsePipeline.java:45-140 | every event of a response goes to the response at the head, which leaves with the trailers |
| Routing.ClientWaitsOnEmptyQueue | src/main/java/org/tini/client/ClientResponsePipeline.java:91 | on the client a take on an empty queue waits; on the server nothing waits |
| Routing.CallsOn | src/main/java/org/tini/server/ServerRequestPipeline.java:111-117 | one call per action, all on the same response |
| Routing.ServerRequestPipeline.constructor | src/main/java/org/tini/server/ServerRequestPipeline.java:58-87 | a new pipeline has no requests and no calls |
| Routing.ServerRequestPipeline.RequestLineCompleted | src/main/java/org/tini/server/ServerRequestPipeline.java:97-109 | a new request joins the queue and its new response joins the writable pipeline |
| Routing.ServerRequestPipeline.RequestLineFailed | src/main/java/org/tini/server/ServerRequestPipeline.java:111-117 | a new response, never pushed, is given 400 and ended |
| Routing.ServerRequestPipeline.HeadersCompleted | src/main/java/org/tini/server/ServerRequestPipeline.java:122-132 | the head request receives the headers; on an empty queue the `null` head crashes the handler |
| Routing.ServerRequestPipeline.HeadersFailed | src/main/java/org/tini/server/ServerRequestPipeline.java:140-150 | the polled response is given 500 and ended; a `null` one crashes the handler |
| Routing.ServerRequestPipeline.DataCompleted | src/main/java/org/tini/server/ServerRequestPipeline.java:156-166 | a piece of the body goes to the head request, which stays |
| Routing.ServerRequestPipeline.PollRequest | src/main/java/org/tini/server/ServerRequestPipeline.java:171 | removes the head request, if any |
| Routing.ServerRequestPipeline.DataFailed | src/main/java/org/tini/server/ServerRequestPipeline.java:169-179 | a body failure removes the head request |
| Routing.ServerRequestPipeline.TrailersCompleted | src/main/java/org/tini/server/ServerRequestPipeline.java:184-194 | the trailers remove the head request and go to it |
| Routing.ServerRequestPipeline.TrailersFailed | src/main/java/org/tini/server/ServerRequestPipeline.java:197-207 | a trailer failure removes the head request |
| Routing.RequestPipeline.constructor | src/main/java/org/tini/server/RequestPipeline.java:49-60 | a new pipeline has no request, no response and no calls |
| Routing.RequestPipeline.RequestLineCompleted | src/main/java/org/tini/server/RequestPipeline.java:66-80 | a request line makes a new request and response pair |
| Routing.RequestPipeline.RequestLineFailed | src/main/java/org/tini/server/RequestPipeline.java:82-94 | a new response, outside the pair, is given 400 and ended |
| Routing.RequestPipeline.HeadersCompleted | src/main/java/org/tini/server/RequestPipeline.java:99-109 | the request receives the headers; close-when-done follows the connection header as it was before the headers were set |
| Routing.RequestPipeline.HeadersFailed | src/main/java/org/tini/server/RequestPipeline.java:111-117 | the pair's response is given 500 and ended; without a response the handler crashes |
| Routing.FreshRequestHasNoConnection | src/main/java/org/tini/server/RequestPipeline.java:101-104 | a request whose headers are not yet set has no connection header, so that check never closes |
| Routing.ClientResponse.constructor | src/main/java/org/tini/client/ClientResponse.java:33-35 | a new response has no response line and no handlers |
| Routing.ClientResponsePipeline.constructor | src/main/java/org/tini/client/ClientResponsePipeline.java:33-35 | a new pipeline expects no responses |
| Routing.ClientResponsePipeline.Push | src/main/java/org/tini/client/ClientResponsePipeline.java:31 | a sent request's response is expected after the earlier ones |
| Routing.ClientResponsePipeline.ResponseLineCompleted | src/main/java/org/tini/client/ClientResponsePipeline.java:45-57 | the head response receives the response line; an empty queue crashes the handler |
| Routing.ClientResponsePipeline.HeadersCompleted | src/main/java/org/tini/client/ClientResponsePipeline.java:76-86 | headers go to the head response, which stays |
| Routing.ClientResponsePipeline.DataCompleted | src/main/java/org/tini/client/ClientResponsePipeline.java:103-113 | a piece of the body goes to the head response, which stays |
| Routing.ClientResponsePipeline.TakeResponse | src/main/java/org/tini/client/ClientResponsePipeline.java:91 | removes the head; on an empty queue it waits |
| Routing.ClientResponsePipeline.Failed | src/main/java/org/tini/client/ClientResponsePipeline.java:88-99 | a failure takes the head response and reports to it |
| Routing.ClientResponsePipeline.TrailersCompleted | src/main/java/org/tini/client/ClientResponsePipeline.java:130-140 | the trailers take the head response and go to it |
| Tasks.Copies | src/main/java/org/tini/core/AsyncTask.java:59-63 | `n` copies of a task |
| Tasks.Reached | src/main/java/org/tini/core/AsyncTask.java:71-75 | the tasks the calls reach, in order |
| Tasks.AsyncTask.constructor | src/main/java/org/tini/core/AsyncTask.java:34-36 | a new task has its name and no dependents |
| Tasks.AsyncTask.DependsOn | src/main/java/org/tini/core/AsyncTask.java:59-63 | the caller joins the list of each named task once per time it is named |
| Tasks.AsyncTask.NotifyDone | src/main/java/org/tini/core/AsyncTask.java:71-75 | `take` is called on every dependent, in order, with this task's name, result and error |
| Tasks.TakesReachList | src/main/java/org/tini/core/AsyncTask.java:71-75 | the notifications reach exactly the listed tasks, in order and with repetitions, with the same name, result and error |
| Tasks.OccurrencesAppend | src/main/java/org/tini/core/AsyncTask.java:61 | counting over a concatenation adds the counts |
| Tasks.OccurrencesOfCopies | src/main/java/org/tini/core/AsyncTask.java:61 | `n` copies of a task contain it `n` times |
| Tasks.NotifiedPerRegistration | src/main/java/org/tini/core/AsyncTask.java:59-75 | a task named `k` times by `dependsOn` is notified `k` more times |

## Left out

- Socket I/O: the parsers read from a complete byte sequence. The parser's 1024-byte read buffer, the aio request reader's 128-octet buffer window, `readSome`, read timeouts and closed-channel handling are not modelled. A read that never completes ends the sequence.
- Locks, `synchronized` and threads are not modelled. Each call runs alone.
- Blocking `take` on an empty queue: the flushing loops and the client pipeline report it as a returned `waits`/`hung` flag. A precondition requiring a non-empty queue would have ruled out the very states in which the loops block.
- A `NullPointerException` on a `null` head is reported as a returned `crashed` flag, and the state is left as the source leaves it.
- Reflection: a handler is a list of methods, each with a name, a set of annotations (GET, POST, PUT, DELETE, HEAD, OPTIONS) and the invocation made on it. Only the `Invoke` call is recorded. What the application then does with the response is not modelled.
- `IdleTimeoutTask` and the idle connection watcher are not modelled. Logging is not modelled either.
- The Date header's value is a constructor parameter, since it depends on the clock.
- `write(String)` goes through UTF-8, which is not modelled. Bodies are byte sequences.
- Header maps are `ConcurrentHashMap`s, whose iteration order is unspecified. The model uses insertion order, so the header lines of a head come out in the order the headers were added.
- Case folding (`toLowerCase`, `toUpperCase`, `equalsIgnoreCase`) acts on ASCII letters only.
- The Netty-based `HttpServer`, `ServerResponsePipeline`, `ClientConnection`, `HttpClient`, `Utils`, `Proxy`, `ProxyHandler`, `TiniRequest`, `TiniResponse` and `core/Server` are not part of this model. `ClientResponse` is modelled only as a holder of its response line and handlers.
- `MessageSerializer`, which `ClientRequest` extends, is not part of this model. The client request is run through `WritableMessage`'s code (`Serializer.WritableMessage.Request`, `Serializer.HostOf`, `Serializer.WritableMessage.WriteHead`), on the assumption that `MessageSerializer` serializes as `WritableMessage` does.
- Tasks.AsyncTask.Start and Tasks.AsyncTask.Take: the defaults do nothing, so they carry no contract.
- Messages.ReadableMessage.FailureReceived: the source does nothing with a failure, so it carries no contract.
- The request and response pair that `RequestPipeline` keeps in an array is modelled as two fields.
- The sources disagree on some pipeline signatures. The request pipelines call `push`, `peek`, `poll` and `take` on their own queue, which `ReadablePipeline` does not declare in this revision. The model gives the queues those operations, including `WritablePipeline.Poll`.
- The keep-alive response stream (a chunked response followed by one of fixed length) is proved piece by piece: `ChunkedBodyRun`, `FixedBodyStep`, `LineAfterBodyDropped` and `PlainTrailersStep`. No single lemma covers the whole stream.
- Starting the response parser after the head is written is modelled only as the `ReadNext` completion of the request's head write.
- That the server registers its routes before accepting connections is a matter of ordering and is not modelled.
- The line-length and header-size checks of the aio request reader have empty branches, so exceeding them changes nothing.
- AioRequest.HttpRequest.OnData: the channel read it issues for a fixed-length body is recorded as a notice; what the channel then returns is not modelled. The octets it copies and the size of its buffer come from the rest of the input, not from the 128-octet `readBuffer` window, and the NUL padding that window gets after a short first read (see Findings) is not modelled.
- AioRequest.HttpRequest.ReadChunk: "at hand" means the rest of the input, not the 128-octet `readBuffer` window that `chunkSize <= readBuffer.remaining()` tests. A chunk that crosses the window's end is delivered from the input where the source issues a channel read. The channel read for a chunk beyond the input is recorded, not performed.
- AioRequest.ChunksFrom: the same gap as ReadChunk. The test of a chunk's size is against the rest of the input, not against the 128-octet window.
- AioRequest.ChunkEnds: "beyond the bytes at hand" means past the end of the input, not past the 128-octet window.
- AioRequest.ChunkDelivered: any chunk within the input is delivered. The source delivers from its buffer only a chunk within the 128-octet window.
- AioRequest.ChunkedBodyOfWritten: in the source this holds only while every chunk lies within the 128-octet window. A larger chunk takes the channel-read path.
- AioRequest.ChunkStep: the same gap: the source delivers a chunk from its buffer only when the chunk lies within the 128-octet window.

## Findings

| source | as written | input that shows it | evidently intended | confidence | as-written member | corrected member |
|---|---|---|---|---|---|---|
| src/main/java/org/tini/aio/HttpRequest.java:39-40 | after the first `channel.read`, `rewind()` keeps the limit at the capacity of 128, so the octets never received are read as NULs | "POST / HTTP/1.1", "Content-Length: 3" and the body "abc", 41 octets in one read: after the 38-octet head the buffer offers "abc" and 87 NULs, 90 octets, which `onData` copies | `flip()`, so that only the octets received are read, as `read()` does when it refills the buffer | not executed; high | ReadBuffers.ShortPostPadded | ReadBuffers.FlipOffersReceived |

The aio request reader of this model reads the octets as received, as `ReadBuffers.FirstWindow` offers them.
