// The parser's enumerations, its record of fields, and its callback trace.
module HttpTypes {
  import opened HttpChars

  const MAX_HEADER_SIZE: nat := 80 * 1024
  const ULLONG_MAX: nat := 0xFFFF_FFFF_FFFF_FFFF
  const TWO_TO_THE_32: nat := 0x1_0000_0000
  const TWO_TO_THE_64: nat := 0x1_0000_0000_0000_0000

  // The states of the parser, in the order of the source's enumeration.
  datatype State =
    | Starting(start: StartingState)
    | ResponseLine(response: ResponseState)
    | ReqMethod
    | ReqSpacesBeforeUrl
    | InUrl(url: UrlState)
    | RequestVersion(version: VersionState)
    | InHeader(header: HeaderLineState)
    | InChunkSize(chunk: ChunkSizeState)
    | InPayload(payload: PayloadState)

  datatype StartingState = Dead | StartReqOrRes | ResOrRespH | StartRes | StartReq

  datatype ResponseState =
    | ResH | ResHT | ResHTT | ResHTTP | ResFirstMajor | ResMajor | ResFirstMinor | ResMinor
    | ResFirstStatusCode | ResStatusCode | ResStatusStart | ResStatus | ResLineAlmostDone

  datatype UrlState =
    | ReqSchema | ReqSchemaSlash | ReqSchemaSlashSlash
    | ReqServerStart | ReqServer | ReqServerWithAt
    | ReqPath | ReqQueryStart | ReqQuery | ReqFragmentStart | ReqFragment

  datatype VersionState =
    | ReqHttpStart | ReqH | ReqHT | ReqHTT | ReqHTTP | ReqFirstMajor | ReqMajor | ReqFirstMinor | ReqMinor
    | ReqLineAlmostDone

  datatype HeaderLineState =
    | FieldStart | FieldName
    | ValueDiscardWs | ValueDiscardWsAlmostDone | ValueDiscardLws
    | ValueStart | ValueText | ValueLws | HeaderAlmostDone
    | HeadersAlmostDone | HeadersDone

  datatype ChunkSizeState = ChunkSizeStart | ChunkSize | ChunkParameters | ChunkSizeAlmostDone

  // The states past `s_headers_done`.
  datatype PayloadState = ChunkData | ChunkDataAlmostDone | ChunkDataDone | BodyIdentity | BodyIdentityEof | MessageDone

  // PARSING_HEADER
  predicate ParsingHeader(s: State) {
    !s.InPayload?
  }

  datatype HeaderState =
    | General | C | CO | CON
    | MatchingConnection | MatchingProxyConnection | MatchingContentLength | MatchingTransferEncoding | MatchingUpgrade
    | Connection | ContentLength | TransferEncoding | Upgrade
    | MatchingChunked
    | TokenStart | MatchingKeepAlive | MatchingClose | MatchingConnectionUpgrade | ConnectionToken
    | Chunked | ConnectionKeepAlive | ConnectionClose | ConnectionUpgrade

  datatype ParserType = Request | Response | Both

  datatype Method =
    | DELETE | GET | HEAD | POST | PUT | CONNECT | OPTIONS | TRACE
    | COPY | LOCK | MKCOL | MOVE | PROPFIND | PROPPATCH | SEARCH | UNLOCK | BIND | REBIND | UNBIND | ACL
    | REPORT | MKACTIVITY | CHECKOUT | MERGE
    | MSEARCH | NOTIFY | SUBSCRIBE | UNSUBSCRIBE
    | PATCH | PURGE | MKCALENDAR | LINK | UNLINK

  // `method_strings`
  function MethodName(m: Method): seq<Octet> {
    match m
    case DELETE => "DELETE"
    case GET => "GET"
    case HEAD => "HEAD"
    case POST => "POST"
    case PUT => "PUT"
    case CONNECT => "CONNECT"
    case OPTIONS => "OPTIONS"
    case TRACE => "TRACE"
    case COPY => "COPY"
    case LOCK => "LOCK"
    case MKCOL => "MKCOL"
    case MOVE => "MOVE"
    case PROPFIND => "PROPFIND"
    case PROPPATCH => "PROPPATCH"
    case SEARCH => "SEARCH"
    case UNLOCK => "UNLOCK"
    case BIND => "BIND"
    case REBIND => "REBIND"
    case UNBIND => "UNBIND"
    case ACL => "ACL"
    case REPORT => "REPORT"
    case MKACTIVITY => "MKACTIVITY"
    case CHECKOUT => "CHECKOUT"
    case MERGE => "MERGE"
    case MSEARCH => "M-SEARCH"
    case NOTIFY => "NOTIFY"
    case SUBSCRIBE => "SUBSCRIBE"
    case UNSUBSCRIBE => "UNSUBSCRIBE"
    case PATCH => "PATCH"
    case PURGE => "PURGE"
    case MKCALENDAR => "MKCALENDAR"
    case LINK => "LINK"
    case UNLINK => "UNLINK"
  }

  datatype Errno =
    | NoError
    | CbHeadersComplete
    | InvalidEofState | HeaderOverflow | ClosedConnection
    | InvalidVersion | InvalidStatus | InvalidMethod | InvalidUrl
    | LfExpected | InvalidHeaderToken | InvalidContentLength | UnexpectedContentLength
    | InvalidChunkSize | InvalidConstant | InvalidInternalState | StrictCheck

  // The bits of the `flags` field.
  datatype Flags = Flags(
    chunked: bool,
    keepAlive: bool,
    close: bool,
    connectionUpgrade: bool,
    trailing: bool,
    upgrade: bool,
    skipBody: bool,
    contentLength: bool)

  const NO_FLAGS := Flags(false, false, false, false, false, false, false, false)

  // What the start line said.
  datatype StartLine = StartLine(major: nat, minor: nat, status: nat, meth: Method)

  // What the application fixes: the lenient bit and what its
  // on_headers_complete callback answers.
  datatype Settings = Settings(lenient: bool, reply: int)

  // The fields of a `struct http_parser` that is in no error state.
  datatype Parser = Parser(
    kind: ParserType,
    flags: Flags,
    state: State,
    headerState: HeaderState,
    index: nat,
    nread: nat,
    contentLength: nat,
    line: StartLine,
    upgrade: bool,
    settings: Settings)

  datatype DataKind = UrlData | Status | Field | Value | Body

  // One callback, with the parser fields the application reads in it.
  datatype Event =
    | Data(kind: DataKind, bytes: seq<Octet>)
    | MessageBegin
    | HeadersComplete(line: StartLine, upgrade: bool, length: nat)
    | ChunkHeader(length: nat)
    | ChunkComplete
    | MessageComplete(keepAlive: bool)

  // Appends a callback to a trace, joining adjacent data callbacks of one kind.
  function Emit(tr: seq<Event>, e: Event): seq<Event> {
    if e.Data? && |tr| > 0 && tr[|tr| - 1].Data? && tr[|tr| - 1].kind == e.kind then
      tr[..|tr| - 1] + [Data(e.kind, tr[|tr| - 1].bytes + e.bytes)]
    else
      tr + [e]
  }

  // A list of callbacks with adjacent data callbacks joined.
  function Join(calls: seq<Event>): seq<Event> {
    if calls == [] then [] else Emit(Join(calls[..|calls| - 1]), calls[|calls| - 1])
  }

  lemma JoinAppend(calls: seq<Event>, e: Event)
    ensures Join(calls + [e]) == Emit(Join(calls), e)
  {
    assert (calls + [e])[..|calls|] == calls;
  }

  lemma EmitTwice(tr: seq<Event>, k: DataKind, a: seq<Octet>, b: seq<Octet>)
    ensures Emit(Emit(tr, Data(k, a)), Data(k, b)) == Emit(tr, Data(k, a + b))
  {
    var once := Emit(tr, Data(k, a));
    if |tr| > 0 && tr[|tr| - 1].Data? && tr[|tr| - 1].kind == k {
      assert once[..|once| - 1] == tr[..|tr| - 1];
      assert tr[|tr| - 1].bytes + a + b == tr[|tr| - 1].bytes + (a + b);
    } else {
      assert once[..|once| - 1] == tr;
    }
  }

  predicate EndsWithData(tr: seq<Event>, k: DataKind) {
    |tr| > 0 && tr[|tr| - 1].Data? && tr[|tr| - 1].kind == k
  }

  // An empty data callback after one of its own kind leaves the joined trace alone.
  lemma EmitEmpty(tr: seq<Event>, k: DataKind)
    requires EndsWithData(tr, k)
    ensures Emit(tr, Data(k, [])) == tr
  {
    assert tr[|tr| - 1].bytes + [] == tr[|tr| - 1].bytes;
    assert tr[..|tr| - 1] + [tr[|tr| - 1]] == tr;
  }
}
