# Verified models of the server's protocol and codec code

This project models, in Dafny 4.11, the parts of the repository that compute
something: the HTTP/1.x push parser and its URL parser, SHA-1, the nested game
messages, two small in-place algorithms of the Lua C API, and the Base64 encoder.
`dafny verify dfyconfig.toml` checks everything.

## How it is laid out

The HTTP parser is modelled twice. `HttpMachine` is a reference machine that looks
at one byte at a time: `Step` consumes a byte, `Run` a stretch of bytes, `Call` is one
call of `http_parser_execute`, and the trace it builds is the list of callbacks with
adjacent data callbacks joined. `HttpParser` is the parser as the C code has it: a class
whose methods update its fields, with marks into the caller's buffer, the inner loops
over header names and values, the `memchr` fast skip and bulk body reads. `Execute` is
proved to do exactly what `Call` says. All laws about the parser are then proved of the
reference machine, on all inputs:

- `HttpInvariant`: one inductive invariant that makes every `assert` of the C code hold;
  the asserts themselves stand in the methods of the class.
- `HttpSplit`, `HttpManyCalls`: what happens when a buffer is cut in two, or in many.
- `HttpGrammar`: the order of callbacks. `HttpBudget`: the limit on header bytes.
- `HttpMethod`, `HttpNames`, `HttpOptions`: the recognisers of methods, header names,
  connection options (in any Connection value) and the chunked coding.
- `HttpLengths`, `HttpChunked`, `HttpTrailer`: Content-Length, chunk sizes, chunked bodies
  and their trailers.
- `HttpRequest`, `HttpRoundTrip`: printed requests come back, in any buffers.
- `HttpHead`, `HttpLines`, `HttpMessage`, `HttpExchange`: any start line, header lines of
  every meaning, and what they say about the body, the connection and other protocols;
  whole exchanges of messages, printed and read again. These laws name none of the
  parser's own decisions. `HttpExamples` works out three of them byte by byte.
- `HttpHeadExactly`, `HttpChunkedExactly`, `HttpLineErrors`: the other direction, from what
  is taken to how it was printed, and what is refused.
- `HttpClasses`: the character tables in the words of the RFCs.
- `HttpDriver`: the class fed with buffer after buffer, to which these laws carry over.
- `HttpUrl`, `HttpUrlParser`: `http_parser_parse_url`. `HttpUrlTrip` and `HttpUrlForms` print
  URLs and read them again; `HttpUrlGrammar`, `HttpHostGrammar` and `HttpUrlExactly` are a
  grammar and the proof that exactly its words are accepted.

`Sha1Spec` is FIPS 180-4, `Sha1` the streaming code with its own macros and its in-place
schedule, `Sha1Vectors` ties the specification to integers and to the digest of "abc".
`ProtoWire` and `ProtoSpec` say what the wire format and the messages mean (messages are
parsed by folding fields into them); `ProtoBytes` spells the bytes of the messages out;
`ProtoUtf8` is the check of strings; `ProtoStream`,
`ProtoMessages`, `ProtoLogic` and `ProtoGuest` are the coded streams and the generated
classes with their parse, size, print and merge methods; `ProtoTransfer` sends and
receives whole messages.
`LuaRef` and `LuaStack` are `luaL_ref`/`luaL_unref` and `lua_rotate`. `Base64` holds the
encoder and a decoder for section 4 of RFC 4648.

## Where the code differs from what one would expect

The model follows the code in these points, and each is stated as a result.

- The fast skip looks at the first byte of each stretch of an unmatched header value
  only, so whether an illegal byte is refused depends on where a buffer ends
  (`HttpSplit.DirtySplitFails`). `HttpSplit.SplitInvariance` gives the exact condition.
- A call that ends inside the loop over a header name or value counts one byte twice.
  `HttpBudget.HeaderBudget` is the exact account: the count is the number of header bytes
  plus the number of such calls.
- The table of hexadecimal digits is written out for 128 bytes only, so a byte from 128 up
  reads as the digit 0 in a chunk size (`HttpLengths.HighByteReadsAsZero`).
- The flags set by a Connection header are not always the options it names.
  `HttpOptions.ListHeard` says for every value what the parser hears, and
  `HttpOptions.UnderstoodExactly` when that is what the value names: if and only if each
  option named, unless its flag is set already, is named by an element that is listened
  to and holds no tab. Options get lost behind a comma that stands right after a proper
  beginning of `close`, `keep-alive` or `upgrade`, as in `c, close` (`CloseIsMissed`); by
  a tab behind them (`CloseWithTabIsMissed`) or anywhere in their element
  (`TabLosesOption`); and behind a leading comma (`CloseBehindCommaIsMissed`). An empty
  element (`CloseBehindNothingIsMissed`), and a tab (`TabEndsListening`) or an underscore
  that begins a later element, end recognition for the rest of the value (`OffForGood`).
- A folded line shows its first blank in the value, and an option that the line before it
  had matched up to its end is forgotten (`HttpLines.RunFold`), unless a comma ended that
  line (`HttpLineErrors.FoldBehindComma`). A folded Content-Length is refused
  (`HttpLines.FoldedLengthIsRefused`).
- Each line end in front of a response is reported as the beginning of a message
  (`HttpHead.RunStatusLine`); in front of a request it is not.
- `http_parser_parse_url` is to take "host:port" only from a CONNECT request. It also takes
  an '@' in front and a '?' behind, with any number of '#', because empty fields are not
  recorded (`HttpUrlExactly.ConnectExactly`).
- The carry test of the SHA-1 counter is exact below 2^29 bytes per update; above, it
  always reports a carry (`Sha1Code.CarryIsExact`).
- A message that was cut off inside a sub-message is parsed as if the sub-message ended
  there: the length is clipped (`ProtoSpec.CutShortIsParsed`). So parsing two byte strings
  in a row is parsing one after the other exactly if the first is whole
  (`ProtoSpec.LogicConcatExactly`).
- Serializing does not refuse what parsing refuses. A message comes back if and only if
  sub-messages and unknown groups are nested at most 100 deep in it
  (`ProtoSpec.LogicRoundTrip`) and a nickname is UTF-8 (`ProtoSpec.GuestRoundTrip`).
- A comment says that a port is at most 2^16; the code accepts at most 2^16 - 1.
- Freeing a reference that is free already, whichever it is, ties the free list into a
  loop (`LuaRef.FreedTwiceLoops`); the list stays finite if and only if the number freed
  was not free (`LuaRef.UnrefThreads`).

## Model

| member | source | states |
|---|---|---|
| HttpParser.HttpParser.constructor | src/3rd/http_parser/http_parser.c:2145-2153 | a fresh parser has the initial fields, no error, and satisfies the invariant |
| HttpParser.HttpParser.Execute | src/3rd/http_parser/http_parser.c:634-2093 | on every buffer, if the machine goes well, the fields, the number of bytes taken and the joined callbacks are those of the byte-at-a-time machine; if it stops with an error other than the header limit, errno and the number of bytes are its own; if it stops for the header limit, it is only said that errno is an error; after an error, fields and callbacks are open; an empty buffer is the end of the stream, accepted in the states listed; a parser in error does nothing; never more than the buffer is taken |
| HttpParser.HttpParser.ExecuteData | src/3rd/http_parser/http_parser.c:702-2093 | the main loop with marks, inner loops, fast skip and bulk bodies refines the byte machine on a non-empty buffer; open are errno and the number of bytes where the machine stops for the header limit, and fields and callbacks after any error |
| HttpParser.HttpParser.ExecuteEof | src/3rd/http_parser/http_parser.c:653-675 | end of stream completes a body read until end of file, is harmless between messages, and is an error elsewhere |
| HttpParser.HttpParser.Turn | src/3rd/http_parser/http_parser.c:702-2063 | one turn of the loop, from any state and with reexecution, takes as many bytes as the machine does and leaves marks that stand for the data not yet reported |
| HttpParser.HttpParser.StartMarks | src/3rd/http_parser/http_parser.c:677-700 | the marks set at the start of a call add nothing to the joined callbacks |
| HttpParser.HttpParser.FlushMarks | src/3rd/http_parser/http_parser.c:2065-2087 | at the end of a call the data since the mark is reported; at most one mark is set |
| HttpParser.HttpParser.CountHeaderSize | src/3rd/http_parser/http_parser.c:154-161 | counting fails exactly past the limit |
| HttpParser.HttpParser.StartCase | src/3rd/http_parser/http_parser.c:711-780 | the start states do to fields and callbacks what the machine's step does |
| HttpParser.HttpParser.StartResCase | src/3rd/http_parser/http_parser.c:758-780 | the same for the first byte of a response, line ends included |
| HttpParser.HttpParser.StartReqCase | src/3rd/http_parser/http_parser.c:954-995 | the same for the first byte of a request, with the first guess of the method |
| HttpParser.HttpParser.ResponseVersionCase | src/3rd/http_parser/http_parser.c:781-869 | the same for the version of a status line |
| HttpParser.HttpParser.StatusCodeCase | src/3rd/http_parser/http_parser.c:870-915 | the same for the status code, refused above 999 |
| HttpParser.HttpParser.StatusStartCase | src/3rd/http_parser/http_parser.c:916-933 | the same for the byte behind the status code, with the mark that starts the reason phrase |
| HttpParser.HttpParser.StatusTextCase | src/3rd/http_parser/http_parser.c:934-953 | the same for a byte of the reason phrase and the end of its line |
| HttpParser.HttpParser.MethodCase | src/3rd/http_parser/http_parser.c:997-1051 | the same for a byte of the method, with the switches between guesses |
| HttpParser.HttpParser.UrlStartCase | src/3rd/http_parser/http_parser.c:1053-1069 | the same for the blanks before a URL and its first byte, which sets the mark |
| HttpParser.HttpParser.UrlCase | src/3rd/http_parser/http_parser.c:1071-1124 | the same for a byte of the URL behind the first, whether it goes on or ends the URL |
| HttpParser.HttpParser.UrlEndCase | src/3rd/http_parser/http_parser.c:1103-1118 | the same for the byte that ends a URL: its data is reported, and a line end makes it version 0.9 |
| HttpParser.HttpParser.RequestHttpCase | src/3rd/http_parser/http_parser.c:1126-1158 | the same for the letters of "HTTP/" in a request line |
| HttpParser.HttpParser.RequestVersionCase | src/3rd/http_parser/http_parser.c:1160-1246 | the same for the digits of the version of a request line and its end |
| HttpParser.HttpParser.FieldStartCase | src/3rd/http_parser/http_parser.c:1248-1296 | the same for the first byte of a header line |
| HttpParser.HttpParser.FieldLoop | src/3rd/http_parser/http_parser.c:1298-1425 | the inner loop over a header name, with its own count, agrees with byte-at-a-time reading |
| HttpParser.HttpParser.FieldScan | src/3rd/http_parser/http_parser.c:1302-1408 | the matcher held in a local variable tracks the machine's over the whole scan, and at every byte it is in a state that the switch has a case for (the assert behind "Unknown header_state") |
| HttpParser.HttpParser.ValueStartCase | src/3rd/http_parser/http_parser.c:1442-1504 | the first byte of a value does what the machine's step does |
| HttpParser.HttpParser.ValueDiscardCase | src/3rd/http_parser/http_parser.c:1427-1440 | the same for blanks before a value |
| HttpParser.HttpParser.ValueDiscardLwsCase | src/3rd/http_parser/http_parser.c:1744-1773 | the same after an empty value: a folded line, or an empty data callback and the next line |
| HttpParser.HttpParser.ValueLoop | src/3rd/http_parser/http_parser.c:1506-1695 | the inner loop over a header value agrees with byte-at-a-time reading, whether it ends at a line end, at the end of the buffer, or in an error |
| HttpParser.HttpParser.ValueScan | src/3rd/http_parser/http_parser.c:1510-1685 | the same for the scan itself, including jumps of the fast skip |
| HttpParser.HttpParser.FindLineEnd | src/3rd/http_parser/http_parser.c:1531-1553 | the two memchr searches find the first line end in reach, or there is none |
| HttpParser.HttpParser.ContentLengthChar | src/3rd/http_parser/http_parser.c:1565-1590 | a further character of Content-Length does what the machine's step does, with 64-bit arithmetic |
| HttpParser.HttpParser.MatcherChar | src/3rd/http_parser/http_parser.c:1592-1685 | a further character of any matched value does what the machine's step does |
| HttpParser.HttpParser.LineEndCase | src/3rd/http_parser/http_parser.c:1697-1742 | the same for line ends and folded lines |
| HttpParser.HttpParser.HeadersAlmostDoneCase | src/3rd/http_parser/http_parser.c:1775-1834 | the same for the end of the header section and the answer of its callback |
| HttpParser.HttpParser.TakeReply | src/3rd/http_parser/http_parser.c:1805-1832 | the answers 0, 1 and 2 of the callback and any other do what the machine's step does |
| HttpParser.HttpParser.HeadersDoneCase | src/3rd/http_parser/http_parser.c:1836-1880 | the same for the choice of body framing, which HttpMessage.RunMessage and HttpExchange.RestIsLeft state from the printed head |
| HttpParser.HttpParser.NeedsEof | src/3rd/http_parser/http_parser.c:2096-2115 | the method's early returns decide as the predicate does |
| HttpParser.HttpParser.KeepAlive | src/3rd/http_parser/http_parser.c:2118-2134 | the same for keep-alive, which HttpMessage.Persistence states from the printed head |
| HttpParser.HttpParser.BodyLoop | src/3rd/http_parser/http_parser.c:1882-1917 | reading a body or chunk in bulk agrees with reading it byte by byte; the remaining length is neither 0 nor the sentinel |
| HttpParser.HttpParser.EofLoop | src/3rd/http_parser/http_parser.c:1919-1923 | the same for a body that ends with the stream |
| HttpParser.HttpParser.MessageDoneCase | src/3rd/http_parser/http_parser.c:1925-1932 | completing a message does what the machine's step does |
| HttpParser.HttpParser.ChunkSizeCase | src/3rd/http_parser/http_parser.c:1934-2013 | the chunk-size states do what the machine's step does, and their asserts hold |
| HttpParser.HttpParser.ChunkEndCase | src/3rd/http_parser/http_parser.c:2038-2044 | the same for the carriage return after a chunk, whose bytes are reported; the length left is 0 and the flag is set |
| HttpParser.HttpParser.ChunkDoneCase | src/3rd/http_parser/http_parser.c:2046-2052 | the same for the line feed after a chunk, which resets the count |
| HttpMachine.LookingAgainTerminates | src/3rd/http_parser/http_parser.c:66-67 | looking at a byte again always goes to a state from which fewer further looks are possible, so reexecution terminates |
| HttpMachine.RunConcat | src/3rd/http_parser/http_parser.c:702-706 | running over two stretches of bytes is running over their concatenation |
| HttpInvariant.LookKeepsInvariant | src/3rd/http_parser/http_parser.c:708-2060 | every state of the switch, on every byte, keeps the invariant over state, matcher, flags, length and count, and reports no unhandled state |
| HttpInvariant.RunKeepsInvariant | src/3rd/http_parser/http_parser.c:702-2063 | the invariant holds after every run: no unknown matcher state, chunk states only with the chunked flag, count 1 at a chunk size, a body length that is neither 0 nor the sentinel |
| HttpInvariant.CallKeepsInvariant | src/3rd/http_parser/http_parser.c:634-2093 | every call ends in a state from which the next one may start, or in a proper error |
| HttpInvariant.InitIsResting | src/3rd/http_parser/http_parser.c:2145-2153 | the invariant holds of a fresh parser of every type |
| HttpInvariant.BodyLengthOk | src/3rd/http_parser/http_parser.c:1887-1888 | in a body or chunk the remaining length is positive and not the sentinel |
| HttpInvariant.RunKeepsTrace | src/3rd/http_parser/http_parser.c:677-700 | whenever a state is in the middle of data, the trace ends in that data, so resuming there is sound |
| HttpSplit.SplitInvariance | src/3rd/http_parser/http_parser.c:677-700 | if one call over d1 + d2 goes well, the two calls go well exactly if the byte behind the cut is legal or not skipped over and the budget has room for the byte counted twice; then all fields but the count, and the joined callbacks, are the same, and the count differs by at most one |
| HttpSplit.DirtySplitFails | src/3rd/http_parser/http_parser.c:1527-1558 | an illegal byte in the middle of a buffer is passed over, and refused at the start of one |
| HttpManyCalls.ManyCalls | src/3rd/http_parser/http_parser.c:677-700 | any number of non-empty buffers give the same messages as one run over all bytes, when no cut is unclean and the budget has room for one byte per buffer |
| HttpManyCalls.CleanCalls | src/3rd/http_parser/http_parser.c:1527-1563 | it is enough that the callbacks show only legal bytes in header values |
| HttpManyCalls.CleanRunSplits | src/3rd/http_parser/http_parser.c:1527-1563 | an illegal byte that was skipped over shows in the trace for good |
| HttpGrammar.CallbackProtocol | src/3rd/http_parser/http_parser.c:954-2052 | from a fresh request parser and any buffers, the joined callbacks follow the grammar of messages: begin, url, name and value pairs, headers complete, then no body, one body of the announced length, or chunks of their announced lengths with a trailer, then message complete; nothing follows a message that is not kept alive |
| HttpGrammar.RunMatches | src/3rd/http_parser/http_parser.c:708-2060 | the state of the parser always corresponds to the phase of the grammar that the trace has reached |
| HttpGrammar.GrowAdvances | src/3rd/http_parser/http_parser.c:105-134 | however a stretch of data is divided into callbacks, the grammar is in the same phase behind it |
| HttpBudget.HeaderBudget | src/3rd/http_parser/http_parser.c:154-161 | over any sequence of calls the count is exactly the header bytes since its last reset plus the calls that ended inside an inner loop, and at most 80 KiB while there is no error; the parser is stopped for overflow only with that sum at 80 KiB |
| HttpMethod.MethodRecogniser | src/3rd/http_parser/http_parser.c:954-1051 | the parser moves on to the URL with method m exactly when the bytes before the space are the whole name of m |
| HttpMethod.RunName | src/3rd/http_parser/http_parser.c:997-1051 | each of the 33 names is accepted, by way of the guesses on its way |
| HttpMethod.GuessHasPrefix | src/3rd/http_parser/http_parser.c:1013-1038 | the bytes read so far are always the first `index` characters of the guessed name |
| HttpNames.NameRecogniser | src/3rd/http_parser/http_parser.c:1298-1415 | after a header name the matcher is in the state of connection, content-length, transfer-encoding or upgrade exactly when the name is that word in any case, proxy-connection counting as connection |
| HttpNames.NameStateKnows | src/3rd/http_parser/http_parser.c:1309-1402 | at every character the matcher state says which special names the letters so far can still become |
| HttpOptions.ListHeard | src/3rd/http_parser/http_parser.c:1600-1685 | over any pieces between commas, with blanks, tabs or nothing in them, the value matcher ends with exactly the options of the elements it listens to |
| HttpOptions.ConnectionOptions | src/3rd/http_parser/http_parser.c:1487-1735 | for every legal value, when the line of a Connection header is over, the parser goes on with exactly the flags of the elements listened to between its commas |
| HttpOptions.UnderstoodExactly | src/3rd/http_parser/http_parser.c:1600-1685 | the flags set are those of the options the list names if and only if each option named is set already or named by an element that is listened to and holds no tab |
| HttpOptions.HeardGetsThrough | src/3rd/http_parser/http_parser.c:1600-1685 | each flag is set exactly when it was set before or an element that is listened to and holds no tab names its option |
| HttpOptions.UnderstoodWhole | src/3rd/http_parser/http_parser.c:1622-1660 | sufficient for that is a list without tabs and empty elements, in which no element but the last is the mere beginning of an option and every later one begins with a token character that is no underscore |
| HttpOptions.NotedIsNamed | src/3rd/http_parser/http_parser.c:1715-1731 | close, keep-alive and upgrade are each set exactly when the list names them in any case |
| HttpOptions.DeafMisses | src/3rd/http_parser/http_parser.c:1622-1651 | in any list, the element behind the mere beginning of an option, or behind a leading comma, is missed whatever it is, and the one after it is listened to |
| HttpOptions.OffForGood | src/3rd/http_parser/http_parser.c:1603-1651 | once recognition has ended, no further element of any list is heard |
| HttpOptions.CloseIsMissed | src/3rd/http_parser/http_parser.c:1633-1641 | the list "c, close" names close and is heard to name nothing |
| HttpOptions.TabEndsListening | src/3rd/http_parser/http_parser.c:1603-1620 | in any list, a tab that begins a later element ends recognition |
| HttpOptions.TabLosesOption | src/3rd/http_parser/http_parser.c:1664-1679 | an element with a tab anywhere in it sets no flag |
| HttpOptions.CloseWithTabIsMissed | src/3rd/http_parser/http_parser.c:1664-1679 | "close" and a tab names close and is heard to name nothing |
| HttpOptions.CloseBehindNothingIsMissed | src/3rd/http_parser/http_parser.c:1603-1620 | behind an element and an empty element, close is named and not heard |
| HttpOptions.CloseBehindCommaIsMissed | src/3rd/http_parser/http_parser.c:1487-1504 | behind a leading comma, close is named and not heard |
| HttpOptions.ChunkedRecogniser | src/3rd/http_parser/http_parser.c:1462-1602 | the chunked flag is set exactly by "chunked" in any case followed by nothing but spaces |
| HttpOptions.OptionsSet | src/3rd/http_parser/http_parser.c:1708-1735 | the flag of a fully matched value is set once, at the end of the line |
| HttpLengths.ContentLengthExact | src/3rd/http_parser/http_parser.c:1466-1590 | a value of digits and spaces whose number is at most 0xFFFFFFFFFFFFFFF9 is taken at its exact value; every other value is refused; nothing wraps |
| HttpLengths.ChunkSizeExact | src/3rd/http_parser/http_parser.c:1934-1984 | a chunk size of digits is taken at its exact hexadecimal value up to 0xFFFFFFFFFFFFFFEF and refused above |
| HttpLengths.UnhexDigits | src/3rd/http_parser/http_parser.c:224-233 | a byte is taken for a hexadecimal digit exactly if it is one or lies in the half of the table that is not written out |
| HttpLengths.HighByteReadsAsZero | src/3rd/http_parser/http_parser.c:224-233 | a byte from 128 up is read as a digit 0 |
| HttpChunked.ChunkedCoding | src/3rd/http_parser/http_parser.c:1934-2052 | the encoding of any list of non-empty chunks, with extensions, an empty trailer and under any splitting into buffers, is reported chunk by chunk: its length, its bytes, its end, and then the end of the message |
| HttpChunked.ChunkEventsDeliver | src/3rd/http_parser/http_parser.c:2015-2036 | the body bytes reported are the concatenation of the chunks |
| HttpTrailer.TrailedCoding | src/3rd/http_parser/http_parser.c:1934-2052 | the same with a trailer of plain headers: under any non-empty buffers that the budget has room for, chunks and then header names and values are reported whole and in order, and the parser is ready for the next message or closed |
| HttpTrailer.RunBodyWithTrailer | src/3rd/http_parser/http_parser.c:1775-1790 | the end of a trailer completes the last chunk and the message, and leaves the fields of a completed message |
| HttpRequest.RunStartLine | src/3rd/http_parser/http_parser.c:954-1246 | a printed start line leaves the method, version 1.1 and the URL, and makes exactly the callbacks begin and url |
| HttpRequest.RunPlainHeader | src/3rd/http_parser/http_parser.c:1248-1735 | a header line without special meaning is reported with exactly its name and value and changes no other field |
| HttpRequest.RunLengthHeader | src/3rd/http_parser/http_parser.c:1466-1590 | a printed Content-Length header sets exactly the length printed |
| HttpRequest.RunRequest | src/3rd/http_parser/http_parser.c:954-1932 | a printed request is reported with its method, URL, headers and body, and the parser is ready for the next |
| HttpRequest.RequestRoundTrip | src/3rd/http_parser/http_parser.c:954-1932 | any list of printed requests comes back in order, with nothing added |
| HttpRequest.PathIsValidUrl | src/3rd/http_parser/http_parser.c:566-580 | every path of URL characters may be sent |
| HttpRoundTrip.BufferedRoundTrip | src/3rd/http_parser/http_parser.c:634-2093 | the same from a fresh parser, whatever non-empty buffers the bytes come in, as long as each header section leaves one byte of the budget per buffer |
| HttpRoundTrip.PrintedUrlIsValid | src/3rd/http_parser/http_parser.c:486-632 | a URL printed from its components is accepted as the URL of a request |
| HttpRoundTrip.SameUrlStates | src/3rd/http_parser/http_parser.c:486-632 | the request parser and the URL parser step through a URL in the same states |
| HttpDriver.FeedAll | src/3rd/http_parser/http_parser.c:634-2093 | an object fed buffer by buffer until one fails has the errno, fields and joined callbacks of the machine over the same buffers |
| HttpDriver.FeedFresh | src/3rd/http_parser/http_parser.c:634-2093 | the joined callbacks of a fresh object keep to the grammar, and its count is the exact account |
| HttpDriver.FeedRequests | src/3rd/http_parser/http_parser.c:634-2093 | a fresh object fed printed requests in any buffers reports exactly these requests |
| HttpHead.RunRequestLine | src/3rd/http_parser/http_parser.c:954-1246 | a printed request line, with any method, CONNECT included, any target of its kind, any version or none, any spaces and either line end, behind any line ends, sets exactly the numbers and the method printed and makes exactly the callbacks begin and url |
| HttpHead.RunStatusLine | src/3rd/http_parser/http_parser.c:758-953 | the same for a printed status line: version, status code and reason phrase, if there is one; each line end in front begins a message of its own |
| HttpHead.EitherIsRead | src/3rd/http_parser/http_parser.c:721-757 | a parser of both kinds reads what begins with "HT" as a parser of responses does, what begins with "HE" or another letter as a parser of requests does, and refuses any other byte behind an H |
| HttpHeadExactly.StartExactly | src/3rd/http_parser/http_parser.c:758-1246 | for every byte string: a parser of requests, or of responses, comes to the header lines for the first time behind it if and only if it is a printed start line of that kind |
| HttpHeadExactly.RequestIsSpelled | src/3rd/http_parser/http_parser.c:954-1246 | whatever leads to the header lines can be taken apart into line ends, a whole method name, spaces, a target, a version without leading zero of at most 999, and a line end |
| HttpHeadExactly.ResponseIsSpelled | src/3rd/http_parser/http_parser.c:758-953 | the same for a status line, with a status code of at most 999 |
| HttpLines.RunLine | src/3rd/http_parser/http_parser.c:1248-1742 | any header line, with any blanks, value and line end, is reported with its name and value and sets exactly what it says: the options that get through, the chunked coding, an upgrade, or a length |
| HttpLines.RunLines | src/3rd/http_parser/http_parser.c:1248-1742 | any header section sets each flag exactly if some line says so, and the length exactly if a line gives one |
| HttpLines.RunFold | src/3rd/http_parser/http_parser.c:1697-1742 | a folded line of legal bytes is shown as more of the value; an option still pending is forgotten |
| HttpLines.FoldedLengthIsRefused | src/3rd/http_parser/http_parser.c:1466-1476 | a Content-Length that is folded is refused |
| HttpLineErrors.NameExactly | src/3rd/http_parser/http_parser.c:1248-1425 | a header name goes on with a token character and ends with a colon; every other byte is refused in it, in front of it and behind it |
| HttpLineErrors.SecondLengthIsRefused | src/3rd/http_parser/http_parser.c:1466-1480 | a second Content-Length is refused at its first digit, even if it is the same |
| HttpLineErrors.BareReturnIsRefused | src/3rd/http_parser/http_parser.c:1697-1705 | behind a carriage return in a value, an empty value or the blank line only a line feed will do |
| HttpLineErrors.FoldOfNothing | src/3rd/http_parser/http_parser.c:1744-1750 | a fold behind nothing but blanks is read like as many blanks |
| HttpLineErrors.FoldBehindComma | src/3rd/http_parser/http_parser.c:1707-1713 | a list of options that is folded behind a comma goes on behind the fold as behind a space |
| HttpMessage.RunHeadEndTo | src/3rd/http_parser/http_parser.c:1775-1834 | at the end of any printed head there is an error if the lines say both a length and chunked, or if the answer is none of 0, 1 and 2; else the callbacks show the numbers, the upgrade and the length that the head says |
| HttpMessage.Persistence | src/3rd/http_parser/http_parser.c:2096-2134 | behind any printed head the connection is kept exactly if the version and the options that get through say so, and the body does not go on to the end of the stream |
| HttpMessage.OneKindSuits | src/3rd/http_parser/http_parser.c:1836-1880 | every head without contradiction announces exactly one of nothing, a length, chunks, and a body up to the end of the stream |
| HttpMessage.RunMessage | src/3rd/http_parser/http_parser.c:954-2052 | any printed message whose content is what its head announces is reported with its head, its content and the decision on the connection, and the parser is where that decision says |
| HttpMessage.RunUnended | src/3rd/http_parser/http_parser.c:1836-1923 | a response that announces nothing and may have a body is read up to the end of the stream |
| HttpExchange.ClosedRefuses | src/3rd/http_parser/http_parser.c:711-719 | behind a message that is not kept alive line ends are skipped, any other byte is refused with HPE_CLOSED_CONNECTION, and no callback follows |
| HttpExchange.ConnectionKept | src/3rd/http_parser/http_parser.c:2118-2134 | behind any printed message: kept alive, the parser is at the next message; else the next byte that is no line end is refused and no callback follows |
| HttpExchange.RequestKept | src/3rd/http_parser/http_parser.c:2118-2134 | a request is kept alive if and only if major and minor are both positive and no line gets close through, or one of them is zero and some line gets keep-alive through |
| HttpExchange.RestIsLeft | src/3rd/http_parser/http_parser.c:1845-1852 | behind a message that switches to another protocol the call returns, and whatever follows is left alone |
| HttpExchange.RunMessages | src/3rd/http_parser/http_parser.c:954-2052 | any list of printed messages of one kind that keep the connection is reported message by message |
| HttpExchange.BufferedExchange | src/3rd/http_parser/http_parser.c:634-2093 | the same from a fresh parser and in any buffers with room, with a last message that may close the connection or switch to another protocol |
| HttpExchange.BufferedUnended | src/3rd/http_parser/http_parser.c:1919-1923 | the same for a response that is read up to the end of the stream |
| HttpDriver.FeedExchange | src/3rd/http_parser/http_parser.c:634-2093 | a fresh object fed printed messages in any buffers makes exactly their callbacks and is ready for the next message or closed |
| HttpDriver.Handshake | src/3rd/http_parser/http_parser.c:1843-1851 | a fresh object fed a request to upgrade and any bytes behind it in one call reports the request whole and takes exactly its bytes |
| HttpDriver.FeedToEnd | src/3rd/http_parser/http_parser.c:653-675 | a response without length is completed by the end of the stream |
| HttpDriver.FeedAndEnd | src/3rd/http_parser/http_parser.c:653-675 | for requests, in any buffers, the end of the stream is accepted if and only if the callbacks are between two messages or behind the last one |
| HttpExamples.HelloIsDelivered | src/3rd/http_parser/http_parser.c:1857-1859 | a chunked POST of "hello" makes exactly these eleven callbacks |
| HttpExamples.SecondIsRefused | src/3rd/http_parser/http_parser.c:711-719 | behind a request with "Connection: close" a second request is refused at its first letter |
| HttpExamples.FramesAreLeft | src/3rd/http_parser/http_parser.c:1843-1851 | the call that reads a web socket handshake returns behind its blank line, whatever frames follow |
| HttpChunkedExactly.TakenIsEncoded | src/3rd/http_parser/http_parser.c:1934-2052 | whatever leads to the trailer is an encoding of chunks, each with as many bytes as its size says, and a last chunk of size zero |
| HttpClasses.TokenIsNoDelimiter | src/3rd/http_parser/http_parser.c:189-222 | a byte is a token character exactly if it is visible and no delimiter of section 3.2.6 of RFC 7230, and stands for itself in lower case |
| HttpClasses.UserinfoIsStandard | src/3rd/http_parser/http_parser.c:417-422 | the characters of userinfo are those of section 3.2.1 of RFC 3986 |
| HttpClasses.UrlCharIsLax | src/3rd/http_parser/http_parser.c:243-291 | a path, query or fragment may hold what section 3.3 of RFC 3986 allows, and the other visible characters but the two delimiters |
| HttpClasses.ZoneCharIsStandard | src/3rd/http_parser/http_parser.c:2233-2239 | the characters of a zone are those of section 2 of RFC 6874 |
| HttpClasses.HeaderCharIsNoControl | src/3rd/http_parser/http_parser.c:438-443 | a header value holds visible characters, blanks, line ends and bytes from 128 up |
| HttpClasses.LettersAndDigits | src/3rd/http_parser/http_parser.c:412-416 | letters, hexadecimal digits, and lower case by setting one bit |
| HttpClasses.HostCharIsStrict | src/3rd/http_parser/http_parser.c:429-429 | a host name is of letters, digits, dots and hyphens |
| HttpClasses.Limits | src/3rd/http_parser/http_parser.h:63-64 | the limit on header bytes is 80 KiB, that on ports 2^16 - 1, and lengths have 64 bits |
| HttpUrlParser.UrlParts.Parse | src/3rd/http_parser/http_parser.c:2342-2444 | the result is zero exactly on the accepted URLs, which are those of HttpUrlExactly.AcceptedExactly and ConnectExactly; then exactly the fields found are set, each with its offset and length, and the port is the number of its digits |
| HttpUrlParser.UrlParts.FirstPassOver | src/3rd/http_parser/http_parser.c:2355-2414 | the loop that compares each field with the last one records exactly the stretch of bytes of each field |
| HttpUrlParser.UrlParts.ParseHost | src/3rd/http_parser/http_parser.c:2255-2335 | the authority is accepted exactly in the accepting states, and userinfo, host and port are exactly their stretches |
| HttpUrlParser.Strtoul | src/3rd/http_parser/http_parser.c:2432-2434 | the decimal value of the digits up to the first byte that is none |
| HttpUrlParser.PortEnds | src/3rd/http_parser/http_parser.c:2432-2434 | strtoul reads the digits of the port and no others: the byte behind an authority is no digit |
| HttpUrl.RankGrows | src/3rd/http_parser/http_parser.c:486-632 | no state of the URL automaton comes back once it was left, so every field is one stretch |
| HttpUrl.HostRankGrows | src/3rd/http_parser/http_parser.c:2173-2252 | the same for the authority automaton |
| HttpUrl.FoundInOrder | src/3rd/http_parser/http_parser.c:2342-2444 | the ranges found lie within the buffer, do not overlap, and stand in the order scheme, userinfo, host, port, path, query, fragment |
| HttpUrl.HostNotEmpty | src/3rd/http_parser/http_parser.c:2317-2333 | an accepted authority has a host |
| HttpUrlTrip.UrlRoundTrip | src/3rd/http_parser/http_parser.c:2173-2444 | a URL printed from scheme, userinfo, host name or bracketed address with zone, port, path, query and fragment is accepted and gives back exactly these, and the port's number |
| HttpUrlTrip.AuthorityBelow | src/3rd/http_parser/http_parser.c:2255-2335 | where the second pass finds userinfo, host and port of a printed authority |
| HttpUrlForms.OriginRoundTrip | src/3rd/http_parser/http_parser.c:2355-2424 | a path with or without query and fragment is accepted with exactly these and nothing else |
| HttpUrlForms.AsteriskRoundTrip | src/3rd/http_parser/http_parser.c:2355-2424 | "*" is accepted as a path and as nothing else |
| HttpUrlForms.ConnectRoundTrip | src/3rd/http_parser/http_parser.c:2425-2444 | a CONNECT target is accepted if and only if it has a port of at most 2^16 - 1, with exactly its host and port |
| HttpUrlForms.NoHostIsRefused | src/3rd/http_parser/http_parser.c:2409-2414 | a scheme with no host behind it is refused, whatever path follows |
| HttpUrlGrammar.ScannedHasShape | src/3rd/http_parser/http_parser.c:486-632 | whatever the URL automaton passes can be taken apart into scheme, server, path, query and fragment, spelled as the grammar says |
| HttpUrlGrammar.SpelledIsScanned | src/3rd/http_parser/http_parser.c:486-632 | every word of the grammar is passed, into the state that its parts say |
| HttpUrlGrammar.FieldsAreParts | src/3rd/http_parser/http_parser.c:2355-2414 | the fields found in a word are its parts, without the marks in front of query and fragment |
| HttpHostGrammar.AuthExactly | src/3rd/http_parser/http_parser.c:2173-2335 | for every byte string: it is accepted as an authority if and only if it is userinfo and '@', a host name or bracketed address with zone, and a port |
| HttpHostGrammar.AuthSpans | src/3rd/http_parser/http_parser.c:2255-2335 | the second pass finds exactly userinfo, host and port of such a word |
| HttpUrlExactly.AcceptedExactly | src/3rd/http_parser/http_parser.c:2342-2444 | for every byte string: it is accepted as a URL if and only if it is a word of the grammar, with an authority if and only if it has a scheme, and a port of at most 2^16 - 1 |
| HttpUrlExactly.SpelledIsAccepted | src/3rd/http_parser/http_parser.c:2342-2444 | from a word of the grammar all seven fields come back, and the number of its port |
| HttpUrlExactly.SpelledOnce | src/3rd/http_parser/http_parser.c:486-632 | no byte string is two words of the grammar |
| HttpUrlExactly.ConnectExactly | src/3rd/http_parser/http_parser.c:2342-2444 | for every byte string: it is accepted as a CONNECT target if and only if it is a host and a port of at most 2^16 - 1, with or without '@' in front and '?' and '#'s behind |
| HttpUrlExactly.TargetExactly | src/3rd/http_parser/http_parser.c:1053-1124 | the targets that a request line takes are exactly the words of the grammar with something behind the scheme |
| HttpUrlExactly.ConnectTargetExactly | src/3rd/http_parser/http_parser.c:1053-1124 | a CONNECT request line takes exactly what may stand behind a scheme |
| Sha1Code.NextWord | src/3rd/crypt/sha1.c:99-111 | the byte swap and the 16-word schedule overwritten in place give word i of the 80-word schedule and keep the last sixteen words |
| Sha1Code.MixIn | src/3rd/crypt/sha1.c:113-118 | one macro R0 to R4, on renamed variables, is one round with shifted registers |
| Sha1Code.Transform | src/3rd/crypt/sha1.c:121-171 | the transform is the compression of section 6.1.2 of FIPS 180-4, for every state and block |
| Sha1Code.SwapIsBigEndian | src/3rd/crypt/sha1.c:107-108 | the rotations and masks turn a little-endian word into a big-endian one |
| Sha1Code.MixIsF | src/3rd/crypt/sha1.c:114-118 | the expressions of the macros are Ch, Parity and Maj |
| Sha1Code.CarryIsExact | src/3rd/crypt/sha1.c:197-199 | after an update the counter is the old one plus 8 len modulo 2^64 exactly when len is below 2^29 or the low word really wraps |
| Sha1Code.StreamIsCounted | src/3rd/crypt/sha1.c:197-199 | after any updates below 2^29 bytes each the counter is 8 times the total modulo 2^64 |
| Sha1Code.Context.constructor | src/3rd/crypt/sha1.c:174-184 | a fresh context stands for the empty message |
| Sha1Code.Context.Update | src/3rd/crypt/sha1.c:187-213 | the state is the fold of the compression over the whole blocks of everything put in, the buffer holds the rest, and the counter moves as stated, exactly when the carry test is right |
| Sha1Code.Context.HashWhole | src/3rd/crypt/sha1.c:200-207 | completing the buffered block and hashing blocks in place is hashing the concatenation |
| Sha1Code.Context.FinalCount | src/3rd/crypt/sha1.c:222-225 | the eight bytes of the counter, most significant first |
| Sha1Code.Context.Pad | src/3rd/crypt/sha1.c:226-229 | the padding loop ends, after exactly the zero bytes of section 5.1.1 of FIPS 180-4 |
| Sha1Code.Context.Final | src/3rd/crypt/sha1.c:216-242 | the digest is that of the padded message with the counter in its length field |
| Sha1Code.CryptSha1 | src/3rd/crypt/sha1.c:245-255 | below 2^29 bytes the result is the SHA-1 digest; from there on the length field is 2^32 bits too large |
| Sha1Code.CodeIsStandard | src/3rd/crypt/sha1.c:97-118 | the rotations, constants and schedule word of the macros are those of FIPS 180-4 |
| Sha1Vectors.RotationByOne | src/3rd/crypt/sha1.c:97-97 | a rotation by one doubles the number and adds the bit that is lost |
| Sha1Vectors.RotationsAre | src/3rd/crypt/sha1.c:97-97 | a rotation by five is five by one, and two more by one undo a rotation by thirty |
| Sha1Vectors.ConstantsAreRoots | src/3rd/crypt/sha1.c:114-118 | each constant is the integer part of 2^30 times the square root of 2, 3, 5 or 10 |
| Sha1Vectors.FunctionsAre | src/3rd/crypt/sha1.c:114-118 | bit by bit, Ch takes one of its arguments as the first says, Maj is the bit that two agree on, and Parity gives the third bit back from its result |
| Sha1Vectors.InitialCounts | src/3rd/crypt/sha1.c:174-184 | the initial value counts up and down in hexadecimal digits |
| Sha1Vectors.AbcDigest | src/3rd/crypt/sha1.c:76-78 | through all eighty rounds, the digest of "abc" is the one that the source gives |
| ProtoWire.VarintRoundTrip | src/proto/game.pb.cc:9233-9264 | a written varint is read back at its value and length, whatever follows |
| ProtoWire.VarintIsBase128 | src/3rd/protobuf/google/protobuf/io/coded_stream.h:1164-1173 | a written varint is the number in base 128, lowest digit first, with the high bit in every byte but the last |
| ProtoWire.ReadIsBase128 | src/3rd/protobuf/google/protobuf/io/coded_stream.cc:321-328 | whatever is read as a varint ends with the first byte below 128 and has the value of its digits in base 128; if none is read, no byte in reach is below 128 |
| ProtoWire.ThreeHundred | src/3rd/protobuf/google/protobuf/io/coded_stream.h:1164-1173 | 300 is written as AC 02 and read back from it |
| ProtoWire.TwosComplement | src/proto/game.pb.cc:9239-9260 | an int32 is sent as the 64-bit number congruent to it, and read as the int32 congruent to the number received |
| ProtoStream.CodedInput.ReadVarint64 | src/3rd/protobuf/google/protobuf/io/coded_stream.cc:528-556 | the loop takes the bytes up to the first below 128, at most ten, and gives their value in base 128 modulo 2^64 |
| ProtoStream.CodedOutput.WriteVarint | src/3rd/protobuf/google/protobuf/io/coded_stream.h:1164-1173 | the loop appends exactly the varint |
| ProtoBytes.FieldOnTheWire | src/3rd/protobuf/google/protobuf/wire_format.cc:191-227 | every field is written as the varint of eight times its number plus its type, followed by a varint, four or eight bytes lowest first, a length and as many bytes, or fields and an end tag |
| ProtoBytes.EventOnTheWire | src/proto/game.pb.cc:9233-9264 | the bytes of an OptionEvent, with their tags, from its four numbers |
| ProtoBytes.FrameOnTheWire | src/proto/game.pb.cc:9601-9626 | the bytes of a FrameOpts, with their tags and lengths |
| ProtoBytes.LogicOnTheWire | src/proto/game.pb.cc:9936-9961 | the bytes of a LogicFrame, with their tags and lengths |
| ProtoBytes.UserOnTheWire | src/proto/game.pb.cc:1533-1574 | the bytes of a UserCenterInfo, with their tags and lengths |
| ProtoBytes.GuestOnTheWire | src/proto/game.pb.cc:1949-1971 | the bytes of a GuestLoginRes, with their tags and lengths |
| ProtoWire.FieldRoundTrip | src/proto/game.pb.cc:9233-9264 | a written field of any wire type is read back, whatever follows, if and only if groups are nested within the depth that is left |
| ProtoWire.GroupRoundTrip | src/3rd/protobuf/google/protobuf/wire_format.cc:146-164 | the fields of a group are read back up to the tag that ends it, if and only if none is nested too deep |
| ProtoWire.ReadIsValid | src/3rd/protobuf/google/protobuf/wire_format.cc:84-144 | whatever is read is a field that can be written, nested within the depth that is left |
| ProtoWire.VarintSizeIsLength | src/3rd/protobuf/google/protobuf/io/coded_stream.h:1252-1270 | the size computed from the logarithm, by a multiplication and a division by 64, is the length written, for all 64-bit numbers |
| ProtoWire.Int32SizeIsLength | src/proto/game.pb.cc:9312-9338 | the size computed for an int32, ten bytes when negative, is the length written |
| ProtoWire.ParseEncoded | src/proto/game.pb.cc:9150-9229 | parsing encoded fields merges them in order, if and only if none is nested too deep |
| ProtoWire.ParseConcat | src/proto/game.pb.cc:9150-9229 | parsing two encodings in a row, whoever wrote them, merges the second into the result of the first, if no field of the first says it is longer than it is |
| ProtoSpec.ParseEncodedEvent | src/proto/game.pb.cc:9150-9381 | parsing a serialized OptionEvent into a message is merging it, if and only if its unknown groups are not nested too deep |
| ProtoSpec.ParseEncodedFrame | src/proto/game.pb.cc:9546-9718 | parsing a serialized FrameOpts into a message is merging it, if and only if nothing in it is nested too deep |
| ProtoSpec.LogicRoundTrip | src/proto/game.pb.cc:9881-9961 | parsing a serialized LogicFrame gives it back, unknown fields included, if and only if sub-messages and groups are nested within the depth that is left |
| ProtoSpec.LogicMergeHomomorphism | src/proto/game.pb.cc:9881-10053 | parsing two serialized LogicFrames in a row equals merging the second into the first, and fails if and only if one of them is nested too deep |
| ProtoSpec.LogicKeepsUnknown | src/proto/game.pb.cc:9915-9925 | a field of another number may stand anywhere between fields: it is kept, in its place among the other unknown ones, and changes nothing else, unless it is nested too deep |
| ProtoSpec.ParsedLogicIsGood | src/proto/game.pb.cc:9915-9925 | a parsed LogicFrame can be serialized and parsed again: at every level its unknown fields are fields that can be written, none is one that is known, and none is nested too deep |
| ProtoSpec.LogicConcatExactly | src/3rd/protobuf/google/protobuf/io/coded_stream.cc:116-134 | for every byte string that is parsed: it goes together with all bytes behind it, parsed after it, if and only if no sub-message in it says it is longer than it is |
| ProtoSpec.CutShortIsParsed | src/3rd/protobuf/google/protobuf/io/coded_stream.cc:116-134 | the tag of a sub-message and the length 5 with nothing behind are parsed as one empty sub-message |
| ProtoSpec.LogicIsSized | src/proto/game.pb.cc:9991-10025 | in a message whose encoding has at most 2^31 - 1 bytes the encodings of all sub-messages have |
| ProtoSpec.GuestRoundTrip | src/proto/game.pb.cc:1894-1971 | parsing a serialized GuestLoginRes gives it back, unknown fields included, if and only if the nickname is UTF-8 and nothing is nested too deep |
| ProtoSpec.GuestMergeHomomorphism | src/proto/game.pb.cc:1894-2060 | parsing two serialized GuestLoginRes in a row equals merging, the sub-message being merged and not replaced, and fails if and only if one of them cannot be read back |
| ProtoSpec.ParsedGuestIsGood | src/proto/game.pb.cc:1928-1938 | the same for a parsed GuestLoginRes |
| ProtoStream.CodedOutput.WriteInt32 | src/proto/game.pb.cc:9239-9242 | a field is written with its tag exactly when it is not zero |
| ProtoStream.CodedInput.SkipField | src/3rd/protobuf/google/protobuf/wire_format.cc:84-144 | an unknown field of any wire type is read and returned, and nothing behind it; a group must end with its own tag, and its nesting is taken from the budget and given back |
| ProtoStream.CodedInput.SkipMessage | src/3rd/protobuf/google/protobuf/wire_format.cc:146-164 | the loop reads exactly the fields of a group, and the last tag tells whether it was the right end |
| ProtoStream.CodedInput.PushLimit | src/3rd/protobuf/google/protobuf/io/coded_stream.cc:116-150 | the length of a sub-message becomes the limit, or the limit stays where it was if that is nearer; it fails without a length of 31 bits and when the budget of nesting is used up |
| ProtoStream.CodedOutput.WriteUnknown | src/3rd/protobuf/google/protobuf/wire_format.cc:191-227 | exactly the encoding of the unknown fields is appended |
| ProtoStream.UnknownSize | src/3rd/protobuf/google/protobuf/wire_format.cc:322-368 | the size of the unknown fields is the length of their encoding |
| ProtoUtf8.IsStructurallyValid | src/3rd/protobuf/google/protobuf/stubs/structurally_valid.cc:556-564 | the bytes are accepted if and only if they are UTF-8 as section 4 of RFC 3629 defines it |
| ProtoUtf8.GenericScan | src/3rd/protobuf/google/protobuf/stubs/structurally_valid.cc:387-495 | the scan by the state table, which backs up over a character that is broken off, stops behind the last whole character |
| ProtoUtf8.TableStep | src/3rd/protobuf/google/protobuf/stubs/structurally_valid.cc:125-312 | the table ends a character exactly where the grammar does, and is illegal exactly where no character goes on |
| ProtoMessages.OptionEvent.MergePartialFromCodedStream | src/proto/game.pb.cc:9150-9229 | the loop succeeds at a proper end exactly when the bytes are fields; then each field found replaces the old one and unknown ones are kept in order |
| ProtoMessages.EventSizeIsLength | src/proto/game.pb.cc:9301-9343 | the length of the encoding of an OptionEvent is what its unknown fields and the sizes of its non-zero fields add up to |
| ProtoMessages.OptionEvent.ByteSizeLong | src/proto/game.pb.cc:9301-9343 | the size is the length of the encoding, unknown fields counted, and is cached |
| ProtoMessages.OptionEvent.SerializeWithCachedSizes | src/proto/game.pb.cc:9233-9264 | exactly the encoding is appended, unknown fields at the end |
| ProtoMessages.OptionEvent.MergeFrom | src/proto/game.pb.cc:9362-9381 | non-zero fields replace the old ones; unknown fields are appended |
| ProtoMessages.OptionEvent.Clear | src/proto/game.pb.cc:9061-9071 | all fields are zero |
| ProtoMessages.FrameOpts.MergePartialFromCodedStream | src/proto/game.pb.cc:9546-9597 | the loop agrees with the fold over fields; sub-messages are appended in order, and a bad one fails the whole; unknown fields are kept in order |
| ProtoMessages.FrameOpts.ReadOpt | src/proto/game.pb.cc:9568-9572 | the sub-message is parsed within its length or what is left, one level deeper, and the limit of the stream is back afterwards |
| ProtoMessages.FrameOpts.ByteSizeLong | src/proto/game.pb.cc:9656-9690 | the size is the length of the encoding, unknown fields counted, and every sub-message caches its own |
| ProtoMessages.FrameOpts.SerializeWithCachedSizes | src/proto/game.pb.cc:9601-9626 | with sizes cached, exactly the encoding is appended, unknown fields at the end |
| ProtoMessages.FrameOpts.MergeFrom | src/proto/game.pb.cc:9707-9718 | sub-messages are copied behind the old ones; unknown fields are appended |
| ProtoMessages.FrameOpts.Clear | src/proto/game.pb.cc:9470-9479 | the message is empty |
| ProtoLogic.LogicFrame.MergePartialFromCodedStream | src/proto/game.pb.cc:9881-9932 | the loop agrees with the fold over fields, two levels of sub-messages deep; unknown fields are kept in order |
| ProtoLogic.LogicFrame.ByteSizeLong | src/proto/game.pb.cc:9991-10025 | the size is the length of the encoding, unknown fields counted, and sizes are cached at every level |
| ProtoLogic.LogicFrame.SerializeWithCachedSizes | src/proto/game.pb.cc:9936-9961 | with sizes cached at every level, exactly the encoding is appended, unknown fields at the end |
| ProtoLogic.LogicFrame.MergeFrom | src/proto/game.pb.cc:10042-10053 | sub-messages are copied behind the old ones, to the last level; unknown fields are appended |
| ProtoLogic.LogicFrame.Clear | src/proto/game.pb.cc:9805-9814 | the message is empty |
| ProtoGuest.UserCenterInfo.MergePartialFromCodedStream | src/proto/game.pb.cc:1435-1529 | the loop agrees with the fold over fields; the last nickname wins, and one that is not UTF-8 fails the whole; unknown fields are kept in order |
| ProtoGuest.UserCenterInfo.ByteSizeLong | src/proto/game.pb.cc:1622-1673 | the size is the length of the encoding, unknown fields counted, and is cached |
| ProtoGuest.UserCenterInfo.SerializeWithCachedSizes | src/proto/game.pb.cc:1533-1574 | exactly the encoding is appended, unknown fields at the end |
| ProtoGuest.UserCenterInfo.MergeFrom | src/proto/game.pb.cc:1690-1713 | fields that are not empty or zero replace the old ones; unknown fields are appended |
| ProtoGuest.GuestLoginRes.MergePartialFromCodedStream | src/proto/game.pb.cc:1894-1945 | the loop agrees with the fold over fields; a second sub-message is merged into the first; unknown fields are kept in order |
| ProtoGuest.GuestLoginRes.ByteSizeLong | src/proto/game.pb.cc:2000-2030 | the size is the length of the encoding, unknown fields counted, and the sub-message caches its own |
| ProtoGuest.GuestLoginRes.SerializeWithCachedSizes | src/proto/game.pb.cc:1949-1971 | with the size cached, exactly the encoding is appended, unknown fields at the end |
| ProtoGuest.GuestLoginRes.MergeFrom | src/proto/game.pb.cc:2047-2060 | the sub-message is created when needed and merged; unknown fields are appended |
| ProtoTransfer.SendLogic | src/3rd/protobuf/google/protobuf/message_lite.cc:338-399 | a LogicFrame that is serialized and parsed from a string arrives as it was, if and only if it nests nothing deeper than 100; the original is not changed |
| ProtoTransfer.SendGuest | src/3rd/protobuf/google/protobuf/message_lite.cc:338-399 | the same for a GuestLoginRes, if and only if its nickname is UTF-8 as well |
| ProtoTransfer.SerializeLogic | src/3rd/protobuf/google/protobuf/message_lite.cc:367-399 | the bytes written are as many as the size computed before, so the error for a size that does not agree is never reached; above 2^31 - 1 bytes nothing is written |
| ProtoTransfer.ParseLogicFrom | src/3rd/protobuf/google/protobuf/message_lite.cc:203-211 | a string is accepted if and only if it is parsed to its end, and what was in the message before is gone |
| LuaRef.ThreadsOnce | src/3rd/lua/lauxlib.c:592-624 | at most one list is threaded from a slot, so the free list is finite and acyclic |
| LuaRef.BorderIsUsed | src/3rd/lua/lauxlib.c:609-610 | when nothing is free, the only border lua_rawlen can return is the number of indices in use |
| LuaRef.RefKeeps | src/3rd/lua/lauxlib.c:595-613 | luaL_ref returns a reference that is not live, the last one freed or else the next index, and keeps free and live references a partition of the indices in use |
| LuaRef.UnrefKeeps | src/3rd/lua/lauxlib.c:616-624 | luaL_unref of a live reference puts it in front of the free list and keeps the partition |
| LuaRef.FreedTwiceLoops | src/3rd/lua/lauxlib.c:616-624 | freeing any reference that is free already leaves no finite list |
| LuaRef.UnrefThreads | src/3rd/lua/lauxlib.c:616-624 | for every number, the free list is finite after freeing it if and only if it was not free |
| LuaRef.UnrefRepresents | src/3rd/lua/lauxlib.c:616-624 | the table goes on standing for the references as freed if and only if the number was live or is one of those ignored |
| LuaRef.TakenThenFreed | src/3rd/lua/lauxlib.c:592-624 | freeing the reference just reused restores free list and live references |
| LuaRef.HistoryKeeps | src/3rd/lua/lauxlib.c:592-624 | over any history the partition, the list and the values of live slots are kept |
| LuaRef.LiveKeepsValue | src/3rd/lua/lauxlib.c:592-624 | a live slot keeps its value until it is freed, whatever else is referenced or freed |
| LuaRef.Registry.Ref | src/3rd/lua/lauxlib.c:595-613 | nil has its own reference and changes nothing; any other value gets the reference and table of the specification |
| LuaRef.Registry.Unref | src/3rd/lua/lauxlib.c:616-624 | a negative reference changes nothing; a live one is freed |
| LuaStack.Reverse | src/3rd/lua/lapi.c:193-200 | the two-pointer loop reverses the segment and leaves the rest alone |
| LuaStack.Rotate | src/3rd/lua/lapi.c:207-220 | three reversals rotate the segment by n, leave the rest of the stack alone and keep all values |
| LuaStack.RotatedAt | src/3rd/lua/lapi.c:203-206 | position i goes to (i + n) modulo the length |
| LuaStack.RotatedTwice | src/3rd/lua/lapi.c:203-206 | rotations add up |
| LuaStack.RotatedBack | src/3rd/lua/lapi.c:203-206 | rotating by n and by -n undo each other |
| LuaStack.RotatedParts | src/3rd/lua/lapi.c:203-206 | a rotation exchanges the two parts, the same for n and n minus the length, and keeps the multiset |
| Base64.Base64Encode | src/3rd/crypt/base64_encoder.c:13-60 | the buffer holds exactly the encoding and its terminator, and each slot is written once |
| Base64.EncodeDecode | src/3rd/crypt/base64_encoder.c:31-56 | decoding the encoding gives the bytes back |
| Base64.DecodeEncode | src/3rd/crypt/base64_encoder.c:31-56 | the encoding is the only text that decodes to the bytes |
| Base64.EncodeIsInjective | src/3rd/crypt/base64_encoder.c:31-56 | different bytes have different encodings |
| Base64.EncodedLength | src/3rd/crypt/base64_encoder.c:22-22 | the length is four times the number of bytes divided by three, rounded up |
| Base64.PaddingIsLast | src/3rd/crypt/base64_encoder.c:40-56 | padding stands exactly in the last one or two places, as the length modulo three says |

## Left out

- HttpChunked.ChunkedCoding: header lines in the trailer; HttpTrailer.TrailedCoding has them, if they are without special meaning.
- HttpParser.HttpParser.Execute: buffers of 2^31 bytes and more; callbacks that fail, pause or change the parser, except for the answer of on_headers_complete, which is one fixed number; the fields and the trace of a call that ends in an error; and, where the machine stops for the header limit, which of several errors the loops report and how many bytes they take, because they count a stretch only after scanning it.
- HttpGrammar.CallbackProtocol: is about request parsers; a response parser reports the start of a message again on every leading line end.
- HttpRequest.RequestRoundTrip: covers headers without special meaning and an exact Content-Length; HttpExchange.BufferedExchange covers lines of every meaning and chunked bodies.
- HttpExchange.BufferedExchange: header lines that are folded, which HttpLines.RunFold and HttpLineErrors describe one by one; lines with special meaning in a trailer; a response of a parser that has read a CONNECT request.
- HttpHeadExactly.StartExactly: which error a byte string that is no start line ends in; the methods of HttpParser agree with the machine on that.
- HttpChunkedExactly.TakenIsEncoded: the converse is HttpChunked.ChunkedCoding, of the whole body with its trailer.
- HttpUrlParser.UrlParts.Parse: URLs above 65535 bytes, whose offsets wrap; what strtoul reads past the end of an unterminated buffer; the saturation of strtoul, which is above the port limit anyway.
- Sha1Code.CryptSha1: the big-endian build, wiping of the context, and the static result buffer.
- ProtoMessages.FrameOpts.ByteSizeLong: messages with a part above 2^31 - 1 bytes, the limit of the format.
- ProtoUtf8.GenericScan: reading ASCII eight bytes at a time, and the reasons for stopping that only other tables have.
- ProtoStream.CodedInput.SkipField: input that comes in several buffers; the model has all bytes at hand.
- LuaRef.Registry.Ref: the stack, keys that are no integers, and more than 2^31 - 1 references; the border is a parameter.
- Base64.Base64Encode: which of two static buffers is used, and base64_encode_free.
- The non-strict build of the HTTP parser, `http_parser_pause`, error names and version strings.
- Arenas, reflection, descriptors, `Swap`, `CopyFrom` and the experimental parser of the messages; the other messages repeat what is shown.
- The array serializers of the messages, which write the same bytes through a pointer.
- The rest of the Lua sources, which is garbage collection, calls and coroutines.
- Networking, timers, logging, MySQL, Redis and the script launchers: input and output without algorithms of their own.
