// The reference parser: one byte at a time, with no marks, no fast skips and
// no bulk body reads.  Its trace grows by single bytes, joined as it grows.
module HttpMachine {
  import opened HttpChars
  import opened HttpTypes

  // ----- Decisions taken from the fields of a parser

  function StartState(kind: ParserType): State {
    Starting(if kind.Request? then StartReq else StartRes)
  }

  // http_message_needs_eof
  predicate MessageNeedsEof(ps: Parser) {
    && !ps.kind.Request?
    && !(ps.line.status / 100 == 1 || ps.line.status == 204 || ps.line.status == 304 || ps.flags.skipBody)
    && !ps.flags.chunked
    && ps.contentLength == ULLONG_MAX
  }

  // http_should_keep_alive
  predicate ShouldKeepAlive(ps: Parser) {
    && (if ps.line.major > 0 && ps.line.minor > 0 then !ps.flags.close else ps.flags.keepAlive)
    && !MessageNeedsEof(ps)
  }

  // NEW_MESSAGE
  function NewMessage(ps: Parser): State {
    if ShouldKeepAlive(ps) then StartState(ps.kind) else Starting(Dead)
  }

  // http_parser_init
  function Init(kind: ParserType, settings: Settings): Parser {
    Parser(kind, NO_FLAGS, if kind.Both? then Starting(StartReqOrRes) else StartState(kind), General, 0, 0, 0,
           StartLine(0, 0, 0, DELETE), false, settings)
  }

  // ----- URLs

  datatype UrlResult = UrlNext(state: UrlState) | UrlDead

  // parse_url_char, from s_req_spaces_before_url
  function FirstUrlChar(ch: Octet): UrlResult {
    if ch == '/' || ch == '*' then UrlNext(ReqPath) else if IsAlpha(ch) then UrlNext(ReqSchema) else UrlDead
  }

  // parse_url_char, from inside a URL
  function UrlChar(s: UrlState, ch: Octet): UrlResult {
    if ch == ' ' || ch == CR || ch == LF || ch == TAB || ch == FORM_FEED then UrlDead
    else
      match s
      case ReqSchema =>
        if IsAlpha(ch) then UrlNext(ReqSchema) else if ch == ':' then UrlNext(ReqSchemaSlash) else UrlDead
      case ReqSchemaSlash =>
        if ch == '/' then UrlNext(ReqSchemaSlashSlash) else UrlDead
      case ReqSchemaSlashSlash =>
        if ch == '/' then UrlNext(ReqServerStart) else UrlDead
      case ReqServerWithAt =>
        if ch == '@' then UrlDead else ServerChar(ch)
      case ReqServerStart => ServerChar(ch)
      case ReqServer => ServerChar(ch)
      case ReqPath =>
        if IsUrlChar(ch) then UrlNext(ReqPath)
        else if ch == '?' then UrlNext(ReqQueryStart)
        else if ch == '#' then UrlNext(ReqFragmentStart)
        else UrlDead
      case ReqQueryStart => QueryChar(ch)
      case ReqQuery => QueryChar(ch)
      case ReqFragmentStart =>
        if IsUrlChar(ch) || ch == '?' then UrlNext(ReqFragment)
        else if ch == '#' then UrlNext(ReqFragmentStart)
        else UrlDead
      case ReqFragment =>
        if IsUrlChar(ch) || ch == '?' || ch == '#' then UrlNext(ReqFragment) else UrlDead
  }

  function ServerChar(ch: Octet): UrlResult {
    if ch == '/' then UrlNext(ReqPath)
    else if ch == '?' then UrlNext(ReqQueryStart)
    else if ch == '@' then UrlNext(ReqServerWithAt)
    else if IsUserinfoChar(ch) || ch == '[' || ch == ']' then UrlNext(ReqServer)
    else UrlDead
  }

  function QueryChar(ch: Octet): UrlResult {
    if IsUrlChar(ch) || ch == '?' then UrlNext(ReqQuery) else if ch == '#' then UrlNext(ReqFragmentStart) else UrlDead
  }

  // ----- Methods

  datatype Guess = Known(meth: Method) | Unknown

  // The method guessed from a request's first letter.
  function MethodGuess(ch: Octet): Guess {
    match ch
    case 'A' => Known(ACL)
    case 'B' => Known(BIND)
    case 'C' => Known(CONNECT)
    case 'D' => Known(DELETE)
    case 'G' => Known(GET)
    case 'H' => Known(HEAD)
    case 'L' => Known(LOCK)
    case 'M' => Known(MKCOL)
    case 'N' => Known(NOTIFY)
    case 'O' => Known(OPTIONS)
    case 'P' => Known(POST)
    case 'R' => Known(REPORT)
    case 'S' => Known(SUBSCRIBE)
    case 'T' => Known(TRACE)
    case 'U' => Known(UNLOCK)
    case _ => Unknown
  }

  // How the guess changes on a character that is not the next one of its name.
  function MethodSwitch(m: Method, index: nat, ch: Octet): Guess {
    match (m, index, ch)
    case (POST, 1, 'U') => Known(PUT)
    case (POST, 1, 'A') => Known(PATCH)
    case (CONNECT, 1, 'H') => Known(CHECKOUT)
    case (CONNECT, 2, 'P') => Known(COPY)
    case (MKCOL, 1, 'O') => Known(MOVE)
    case (MKCOL, 1, 'E') => Known(MERGE)
    case (MKCOL, 2, 'A') => Known(MKACTIVITY)
    case (MKCOL, 3, 'A') => Known(MKCALENDAR)
    case (SUBSCRIBE, 1, 'E') => Known(SEARCH)
    case (REPORT, 2, 'B') => Known(REBIND)
    case (POST, 1, 'R') => Known(PROPFIND)
    case (PROPFIND, 4, 'P') => Known(PROPPATCH)
    case (PUT, 2, 'R') => Known(PURGE)
    case (LOCK, 1, 'I') => Known(LINK)
    case (UNLOCK, 2, 'S') => Known(UNSUBSCRIBE)
    case (UNLOCK, 2, 'B') => Known(UNBIND)
    case (UNLOCK, 3, 'I') => Known(UNLINK)
    case (MKCOL, 1, '-') => Known(MSEARCH)
    case _ => Unknown
  }

  // ----- Header names and values

  function FieldInitial(c: Octet): HeaderState {
    match c
    case 'c' => C
    case 'p' => MatchingProxyConnection
    case 't' => MatchingTransferEncoding
    case 'u' => MatchingUpgrade
    case _ => General
  }

  // The word a matching header state is comparing with.
  function Word(hs: HeaderState): seq<Octet> {
    match hs
    case MatchingConnection => "connection"
    case MatchingProxyConnection => "proxy-connection"
    case MatchingContentLength => "content-length"
    case MatchingTransferEncoding => "transfer-encoding"
    case MatchingUpgrade => "upgrade"
    case MatchingChunked => "chunked"
    case MatchingKeepAlive => "keep-alive"
    case MatchingClose => "close"
    case MatchingConnectionUpgrade => "upgrade"
    case _ => ""
  }

  // One character of a word: to `failed` on a mismatch, to `matched` on the last one.
  function MatchChar(hs: HeaderState, index: nat, c: Octet, matched: HeaderState, failed: HeaderState): HeaderState {
    var w := Word(hs);
    if index > |w| || c != CharAt(w, index) then failed
    else if index == |w| - 1 then matched
    else hs
  }

  // The name matcher after the token character `c` read from byte `ch`.
  function FieldMatch(hs: HeaderState, index: nat, c: Octet, ch: Octet): (HeaderState, nat) {
    match hs
    case General => (General, index)
    case C => (if c == 'o' then CO else General, index + 1)
    case CO => (if c == 'n' then CON else General, index + 1)
    case CON => (if c == 'n' then MatchingConnection else if c == 't' then MatchingContentLength else General, index + 1)
    case MatchingConnection => (MatchChar(hs, index + 1, c, Connection, General), index + 1)
    case MatchingProxyConnection => (MatchChar(hs, index + 1, c, Connection, General), index + 1)
    case MatchingContentLength => (MatchChar(hs, index + 1, c, ContentLength, General), index + 1)
    case MatchingTransferEncoding => (MatchChar(hs, index + 1, c, TransferEncoding, General), index + 1)
    case MatchingUpgrade => (MatchChar(hs, index + 1, c, Upgrade, General), index + 1)
    case _ => (if ch != ' ' then General else hs, index)
  }

  // The value matcher of the Connection and Transfer-Encoding headers.
  function ValueMatch(hs: HeaderState, index: nat, c: Octet, ch: Octet): (HeaderState, nat) {
    match hs
    case MatchingChunked => (MatchChar(hs, index + 1, c, Chunked, General), index + 1)
    case TokenStart =>
      (if c == 'k' then MatchingKeepAlive
       else if c == 'c' then MatchingClose
       else if c == 'u' then MatchingConnectionUpgrade
       else if Token(c) != NUL then ConnectionToken
       else if c == ' ' || c == TAB then TokenStart
       else General, index)
    case MatchingKeepAlive => (MatchChar(hs, index + 1, c, ConnectionKeepAlive, ConnectionToken), index + 1)
    case MatchingClose => (MatchChar(hs, index + 1, c, ConnectionClose, ConnectionToken), index + 1)
    case MatchingConnectionUpgrade => (MatchChar(hs, index + 1, c, ConnectionUpgrade, ConnectionToken), index + 1)
    case ConnectionToken => if ch == ',' then (TokenStart, 0) else (hs, index)
    case Chunked => (if ch != ' ' then General else hs, index)
    case ConnectionKeepAlive => ListItemEnd(hs, index, ch)
    case ConnectionClose => ListItemEnd(hs, index, ch)
    case ConnectionUpgrade => ListItemEnd(hs, index, ch)
    case _ => (General, index)
  }

  function ListItemEnd(hs: HeaderState, index: nat, ch: Octet): (HeaderState, nat) {
    if ch == ',' then (TokenStart, 0) else if ch != ' ' then (ConnectionToken, index) else (hs, index)
  }

  // The flags with the option that a fully matched value names.
  function NoteOption(flags: Flags, hs: HeaderState): Flags {
    match hs
    case ConnectionKeepAlive => flags.(keepAlive := true)
    case ConnectionClose => flags.(close := true)
    case ConnectionUpgrade => flags.(connectionUpgrade := true)
    case Chunked => flags.(chunked := true)
    case _ => flags
  }

  // ----- What one state does with one byte

  datatype Act =
    | Next(ps: Parser, tr: seq<Event>)    // the byte is consumed
    | Again(ps: Parser, tr: seq<Event>)   // look at the byte again in the new state
    | Leave(ps: Parser, tr: seq<Event>)   // the byte is consumed and the call returns
    | Err(e: Errno)

  function Goto(ps: Parser, tr: seq<Event>, next: State): Act {
    Next(ps.(state := next), tr)
  }

  function Expect(ps: Parser, tr: seq<Event>, ok: bool, next: State, e: Errno): Act {
    if ok then Goto(ps, tr, next) else Err(e)
  }

  // Consumes the byte as part of a data callback.
  function Show(ps: Parser, tr: seq<Event>, kind: DataKind, ch: Octet): Act {
    Next(ps, Emit(tr, Data(kind, [ch])))
  }

  // The line with a further digit in one of its numbers of at most three digits.
  function MoreDigits(n: nat, ch: Octet): nat
    requires IsNum(ch)
  {
    n * 10 + DigitValue(ch)
  }

  function StartStep(ps: Parser, tr: seq<Event>, ch: Octet): (act: Act)
    requires ps.state.Starting?
  {
    var begun := ps.(flags := NO_FLAGS, contentLength := ULLONG_MAX);
    var lineEnd := ch == CR || ch == LF;
    match ps.state.start
    case Dead => Expect(ps, tr, lineEnd, ps.state, ClosedConnection)
    case StartReqOrRes =>
      if lineEnd then Next(ps, tr)
      else if ch == 'H' then Next(begun.(state := Starting(ResOrRespH)), Emit(tr, MessageBegin))
      else Again(begun.(kind := Request, state := Starting(StartReq)), tr)
    case ResOrRespH =>
      if ch == 'T' then Next(ps.(kind := Response, state := ResponseLine(ResHT)), tr)
      else if ch == 'E' then Next(ps.(kind := Request, line := ps.line.(meth := HEAD), index := 2, state := ReqMethod), tr)
      else Err(InvalidConstant)
    case StartRes =>
      if ch == 'H' then Next(begun.(state := ResponseLine(ResH)), Emit(tr, MessageBegin))
      else if lineEnd then Next(begun, Emit(tr, MessageBegin))
      else Err(InvalidConstant)
    case StartReq =>
      if lineEnd then Next(ps, tr)
      else
        match MethodGuess(ch)
        case Known(m) => Next(begun.(line := ps.line.(meth := m), index := 1, state := ReqMethod), Emit(tr, MessageBegin))
        case Unknown => Err(InvalidMethod)
  }

  function ResponseLineStep(ps: Parser, tr: seq<Event>, ch: Octet): (act: Act)
    requires ps.state.ResponseLine?
  {
    match ps.state.response
    case ResH => Expect(ps, tr, ch == 'T', ResponseLine(ResHT), StrictCheck)
    case ResHT => Expect(ps, tr, ch == 'T', ResponseLine(ResHTT), StrictCheck)
    case ResHTT => Expect(ps, tr, ch == 'P', ResponseLine(ResHTTP), StrictCheck)
    case ResHTTP => Expect(ps, tr, ch == '/', ResponseLine(ResFirstMajor), StrictCheck)
    case ResFirstMajor => FirstMajorStep(ps, tr, ch, ResponseLine(ResMajor))
    case ResMajor => MajorStep(ps, tr, ch, ResponseLine(ResFirstMinor))
    case ResFirstMinor => FirstMinorStep(ps, tr, ch, ResponseLine(ResMinor))
    case ResMinor =>
      if ch == ' ' then Goto(ps, tr, ResponseLine(ResFirstStatusCode)) else MinorStep(ps, tr, ch)
    case ResFirstStatusCode =>
      if IsNum(ch) then Next(ps.(line := ps.line.(status := DigitValue(ch)), state := ResponseLine(ResStatusCode)), tr)
      else Expect(ps, tr, ch == ' ', ps.state, InvalidStatus)
    case ResStatusCode =>
      if IsNum(ch) then
        var n := MoreDigits(ps.line.status, ch);
        if n <= 999 then Next(ps.(line := ps.line.(status := n)), tr) else Err(InvalidStatus)
      else if ch == ' ' then Goto(ps, tr, ResponseLine(ResStatusStart))
      else if ch == CR || ch == LF then Goto(ps, tr, StatusLineEnd(ch))
      else Err(InvalidStatus)
    case ResStatusStart =>
      if ch == CR || ch == LF then Goto(ps, tr, StatusLineEnd(ch))
      else Show(ps.(index := 0, state := ResponseLine(ResStatus)), tr, Status, ch)
    case ResStatus =>
      if ch == CR || ch == LF then Goto(ps, tr, StatusLineEnd(ch)) else Show(ps, tr, Status, ch)
    case ResLineAlmostDone => Expect(ps, tr, ch == LF, InHeader(FieldStart), StrictCheck)
  }

  function StatusLineEnd(ch: Octet): State {
    if ch == CR then ResponseLine(ResLineAlmostDone) else InHeader(FieldStart)
  }

  // The version number, in a response or a request line.
  function FirstMajorStep(ps: Parser, tr: seq<Event>, ch: Octet, next: State): Act {
    if IsNum(ch) then Next(ps.(line := ps.line.(major := DigitValue(ch)), state := next), tr) else Err(InvalidVersion)
  }

  function MajorStep(ps: Parser, tr: seq<Event>, ch: Octet, next: State): Act {
    if ch == '.' then Goto(ps, tr, next)
    else if IsNum(ch) && MoreDigits(ps.line.major, ch) <= 999 then
      Next(ps.(line := ps.line.(major := MoreDigits(ps.line.major, ch))), tr)
    else Err(InvalidVersion)
  }

  function FirstMinorStep(ps: Parser, tr: seq<Event>, ch: Octet, next: State): Act {
    if IsNum(ch) then Next(ps.(line := ps.line.(minor := DigitValue(ch)), state := next), tr) else Err(InvalidVersion)
  }

  function MinorStep(ps: Parser, tr: seq<Event>, ch: Octet): Act {
    if IsNum(ch) && MoreDigits(ps.line.minor, ch) <= 999 then
      Next(ps.(line := ps.line.(minor := MoreDigits(ps.line.minor, ch))), tr)
    else Err(InvalidVersion)
  }

  function MethodStep(ps: Parser, tr: seq<Event>, ch: Octet): (act: Act) {
    var next := CharAt(MethodName(ps.line.meth), ps.index);
    if ch == NUL then Err(InvalidMethod)
    else if ch == ' ' && next == NUL then Next(ps.(state := ReqSpacesBeforeUrl, index := ps.index + 1), tr)
    else if ch == next then Next(ps.(index := ps.index + 1), tr)
    else
      match MethodSwitch(ps.line.meth, ps.index, ch)
      case Known(m) => Next(ps.(line := ps.line.(meth := m), index := ps.index + 1), tr)
      case Unknown => Err(InvalidMethod)
  }

  function UrlStartStep(ps: Parser, tr: seq<Event>, ch: Octet): (act: Act) {
    if ch == ' ' then Next(ps, tr)
    else UrlByte(ps, tr, ch, if ps.line.meth.CONNECT? then UrlChar(ReqServerStart, ch) else FirstUrlChar(ch))
  }

  function UrlByte(ps: Parser, tr: seq<Event>, ch: Octet, r: UrlResult): Act {
    if r.UrlDead? then Err(InvalidUrl) else Show(ps.(state := InUrl(r.state)), tr, UrlData, ch)
  }

  // No white space is allowed before the host.
  predicate BeforeHost(s: UrlState) {
    s.ReqSchema? || s.ReqSchemaSlash? || s.ReqSchemaSlashSlash? || s.ReqServerStart?
  }

  function UrlStep(ps: Parser, tr: seq<Event>, ch: Octet): (act: Act)
    requires ps.state.InUrl?
  {
    if ch != ' ' && ch != CR && ch != LF then UrlByte(ps, tr, ch, UrlChar(ps.state.url, ch))
    else if BeforeHost(ps.state.url) then Err(InvalidUrl)
    else if ch == ' ' then Goto(ps, tr, RequestVersion(ReqHttpStart))
    else Next(ps.(line := ps.line.(major := 0, minor := 9), state := RequestLineEnd(ch)), tr)
  }

  function RequestLineEnd(ch: Octet): State {
    if ch == CR then RequestVersion(ReqLineAlmostDone) else InHeader(FieldStart)
  }

  function RequestVersionStep(ps: Parser, tr: seq<Event>, ch: Octet): (act: Act)
    requires ps.state.RequestVersion?
  {
    match ps.state.version
    case ReqHttpStart =>
      if ch == 'H' then Goto(ps, tr, RequestVersion(ReqH)) else Expect(ps, tr, ch == ' ', ps.state, InvalidConstant)
    case ReqH => Expect(ps, tr, ch == 'T', RequestVersion(ReqHT), StrictCheck)
    case ReqHT => Expect(ps, tr, ch == 'T', RequestVersion(ReqHTT), StrictCheck)
    case ReqHTT => Expect(ps, tr, ch == 'P', RequestVersion(ReqHTTP), StrictCheck)
    case ReqHTTP => Expect(ps, tr, ch == '/', RequestVersion(ReqFirstMajor), StrictCheck)
    case ReqFirstMajor =>
      if ch == '0' then Err(InvalidVersion) else FirstMajorStep(ps, tr, ch, RequestVersion(ReqMajor))
    case ReqMajor => MajorStep(ps, tr, ch, RequestVersion(ReqFirstMinor))
    case ReqFirstMinor => FirstMinorStep(ps, tr, ch, RequestVersion(ReqMinor))
    case ReqMinor =>
      if ch == CR || ch == LF then Goto(ps, tr, RequestLineEnd(ch)) else MinorStep(ps, tr, ch)
    case ReqLineAlmostDone => Expect(ps, tr, ch == LF, InHeader(FieldStart), LfExpected)
  }

  function FieldStartStep(ps: Parser, tr: seq<Event>, ch: Octet): (act: Act) {
    if ch == CR then Goto(ps, tr, InHeader(HeadersAlmostDone))
    else if ch == LF then Again(ps.(state := InHeader(HeadersAlmostDone)), tr)
    else if Token(ch) == NUL then Err(InvalidHeaderToken)
    else Show(ps.(index := 0, headerState := FieldInitial(Token(ch)), state := InHeader(FieldName)), tr, Field, ch)
  }

  function FieldStep(ps: Parser, tr: seq<Event>, ch: Octet): (act: Act) {
    if Token(ch) != NUL then
      var (hs, index) := FieldMatch(ps.headerState, ps.index, Token(ch), ch);
      Show(ps.(headerState := hs, index := index), tr, Field, ch)
    else Expect(ps, tr, ch == ':', InHeader(ValueDiscardWs), InvalidHeaderToken)
  }

  // The first byte of a value, which picks the matcher for the rest.
  function ValueStartStep(ps: Parser, tr: seq<Event>, ch: Octet): (act: Act) {
    var c := Lower(ch);
    var begun := ps.(state := InHeader(ValueText), index := 0);
    if ps.headerState.Upgrade? then
      Show(begun.(flags := ps.flags.(upgrade := true), headerState := General), tr, Value, ch)
    else if !ps.headerState.ContentLength? then Show(begun.(headerState := ValueInitial(ps.headerState, c)), tr, Value, ch)
    else if !IsNum(ch) then Err(InvalidContentLength)
    else if ps.flags.contentLength then Err(UnexpectedContentLength)
    else Show(begun.(flags := ps.flags.(contentLength := true), contentLength := DigitValue(ch)), tr, Value, ch)
  }

  function ValueInitial(hs: HeaderState, c: Octet): HeaderState {
    match hs
    case TransferEncoding => if c == 'c' then MatchingChunked else General
    case Connection =>
      if c == 'k' then MatchingKeepAlive
      else if c == 'c' then MatchingClose
      else if c == 'u' then MatchingConnectionUpgrade
      else ConnectionToken
    case TokenStart => TokenStart
    case _ => General
  }

  // A further byte of a value.  While the fast skip is on (`unchecked`) its
  // character class is not looked at.
  function ValueStep(ps: Parser, tr: seq<Event>, ch: Octet, unchecked: bool): (act: Act) {
    if ch == CR then Goto(ps, tr, InHeader(HeaderAlmostDone))
    else if ch == LF then Again(ps.(state := InHeader(HeaderAlmostDone)), tr)
    else if !unchecked && !ps.settings.lenient && !IsHeaderChar(ch) then Err(InvalidHeaderToken)
    else if ps.headerState.ContentLength? then
      if ch == ' ' then Show(ps, tr, Value, ch)
      else if !IsNum(ch) || (ULLONG_MAX - 10) / 10 < ps.contentLength then Err(InvalidContentLength)
      else Show(ps.(contentLength := MoreDigits(ps.contentLength, ch) % TWO_TO_THE_64), tr, Value, ch)
    else
      var (hs, index) := ValueMatch(ps.headerState, ps.index, Lower(ch), ch);
      var flags := if hs.TokenStart? then NoteOption(ps.flags, ps.headerState) else ps.flags;
      Show(ps.(headerState := hs, index := index, flags := flags), tr, Value, ch)
  }

  function ValueDiscardStep(ps: Parser, tr: seq<Event>, ch: Octet): (act: Act) {
    if ch == ' ' || ch == TAB then Next(ps, tr)
    else if ch == CR then Goto(ps, tr, InHeader(ValueDiscardWsAlmostDone))
    else if ch == LF then Goto(ps, tr, InHeader(ValueDiscardLws))
    else ValueStartStep(ps, tr, ch)
  }

  // After the line end of an empty value: a folded line, or the next header.
  function ValueDiscardLwsStep(ps: Parser, tr: seq<Event>, ch: Octet): (act: Act) {
    if ch == ' ' || ch == TAB then Goto(ps, tr, InHeader(ValueDiscardWs))
    else
      Again(ps.(flags := NoteOption(ps.flags, ps.headerState), state := InHeader(FieldStart)), Emit(tr, Data(Value, [])))
  }

  // After the line end of a value: a folded line, or the next header.
  function ValueLwsStep(ps: Parser, tr: seq<Event>, ch: Octet): (act: Act) {
    if ch == ' ' || ch == TAB then Again(ps.(state := InHeader(ValueStart)), tr)
    else Again(ps.(flags := NoteOption(ps.flags, ps.headerState), state := InHeader(FieldStart)), tr)
  }

  function HeadersAlmostDoneStep(ps: Parser, tr: seq<Event>, ch: Octet): (act: Act) {
    if ch != LF then Err(StrictCheck)
    else if ps.flags.trailing then Again(ps.(state := InPayload(MessageDone)), Emit(tr, ChunkComplete))
    else if ps.flags.chunked && ps.flags.contentLength then Err(UnexpectedContentLength)
    else
      var up := (ps.flags.upgrade && ps.flags.connectionUpgrade) || ps.line.meth.CONNECT?;
      var shown := Emit(tr, HeadersComplete(ps.line, up, ps.contentLength));
      ReplyStep(ps.(state := InHeader(HeadersDone), upgrade := up), shown)
  }

  // What the answer of on_headers_complete changes
  function ReplyStep(ps: Parser, tr: seq<Event>): Act {
    var skipping := ps.flags.(skipBody := true);
    if ps.settings.reply == 0 then Again(ps, tr)
    else if ps.settings.reply == 1 then Again(ps.(flags := skipping), tr)
    else if ps.settings.reply == 2 then Again(ps.(flags := skipping, upgrade := true), tr)
    else Err(CbHeadersComplete)
  }

  function CompletedParser(ps: Parser): Parser {
    ps.(state := NewMessage(ps))
  }

  function CompletedTrace(ps: Parser, tr: seq<Event>): seq<Event> {
    Emit(tr, MessageComplete(ShouldKeepAlive(ps)))
  }

  predicate HasBody(ps: Parser) {
    ps.flags.chunked || (ps.contentLength > 0 && ps.contentLength != ULLONG_MAX)
  }

  // How the body is framed once the header section is over.
  datatype Framing = OtherProtocol | NoBody | ChunkedBody | SizedBody | UntilEof

  function FramingOf(ps: Parser): Framing {
    if ps.upgrade && (ps.line.meth.CONNECT? || ps.flags.skipBody || !HasBody(ps)) then OtherProtocol
    else if ps.flags.skipBody then NoBody
    else if ps.flags.chunked then ChunkedBody
    else if ps.contentLength == 0 then NoBody
    else if ps.contentLength != ULLONG_MAX then SizedBody
    else if MessageNeedsEof(ps) then UntilEof
    else NoBody
  }

  function HeadersDoneStep(ps0: Parser, tr: seq<Event>, ch: Octet): (act: Act) {
    var ps := ps0.(nread := 0);
    if ch != LF then Err(StrictCheck)
    else
      match FramingOf(ps)
      case OtherProtocol => Leave(CompletedParser(ps), CompletedTrace(ps, tr))
      case NoBody => Next(CompletedParser(ps), CompletedTrace(ps, tr))
      case ChunkedBody => Goto(ps, tr, InChunkSize(ChunkSizeStart))
      case SizedBody => Goto(ps, tr, InPayload(BodyIdentity))
      case UntilEof => Goto(ps, tr, InPayload(BodyIdentityEof))
  }

  function ChunkSizeStep(ps: Parser, tr: seq<Event>, ch: Octet): (act: Act)
    requires ps.state.InChunkSize?
  {
    match ps.state.chunk
    case ChunkSizeStart =>
      if Unhex(ch) == -1 then Err(InvalidChunkSize)
      else Next(ps.(contentLength := Unhex(ch), state := InChunkSize(ChunkSize)), tr)
    case ChunkSize =>
      if ch == CR then Goto(ps, tr, InChunkSize(ChunkSizeAlmostDone))
      else if Unhex(ch) == -1 then Expect(ps, tr, ch == ';' || ch == ' ', InChunkSize(ChunkParameters), InvalidChunkSize)
      else if (ULLONG_MAX - 16) / 16 < ps.contentLength then Err(InvalidContentLength)
      else Next(ps.(contentLength := (ps.contentLength * 16 + Unhex(ch)) % TWO_TO_THE_64), tr)
    case ChunkParameters => if ch == CR then Goto(ps, tr, InChunkSize(ChunkSizeAlmostDone)) else Next(ps, tr)
    case ChunkSizeAlmostDone =>
      if ch != LF then Err(StrictCheck)
      else if ps.contentLength == 0 then
        Next(ps.(nread := 0, flags := ps.flags.(trailing := true), state := InHeader(FieldStart)), Emit(tr, ChunkHeader(0)))
      else Next(ps.(nread := 0, state := InPayload(ChunkData)), Emit(tr, ChunkHeader(ps.contentLength)))
  }

  function PayloadStep(ps: Parser, tr: seq<Event>, ch: Octet): (act: Act)
    requires ps.state.InPayload?
  {
    match ps.state.payload
    case ChunkData =>
      if ps.contentLength == 0 then Err(InvalidInternalState)
      else if ps.contentLength == 1 then
        Show(ps.(contentLength := 0, state := InPayload(ChunkDataAlmostDone)), tr, Body, ch)
      else Show(ps.(contentLength := ps.contentLength - 1), tr, Body, ch)
    case ChunkDataAlmostDone => Expect(ps, tr, ch == CR, InPayload(ChunkDataDone), StrictCheck)
    case ChunkDataDone =>
      if ch != LF then Err(StrictCheck)
      else Next(ps.(nread := 0, state := InChunkSize(ChunkSizeStart)), Emit(tr, ChunkComplete))
    case BodyIdentity =>
      if ps.contentLength == 0 then Err(InvalidInternalState)
      else if ps.contentLength == 1 then
        Again(ps.(contentLength := 0, state := InPayload(MessageDone)), Emit(tr, Data(Body, [ch])))
      else Show(ps.(contentLength := ps.contentLength - 1), tr, Body, ch)
    case BodyIdentityEof => Show(ps, tr, Body, ch)
    case MessageDone =>
      if ps.upgrade then Leave(CompletedParser(ps), CompletedTrace(ps, tr))
      else Next(CompletedParser(ps), CompletedTrace(ps, tr))
  }

  function HeaderStep(ps: Parser, tr: seq<Event>, unchecked: bool, ch: Octet): (act: Act)
    requires ps.state.InHeader?
  {
    match ps.state.header
    case FieldStart => FieldStartStep(ps, tr, ch)
    case FieldName => FieldStep(ps, tr, ch)
    case ValueDiscardWs => ValueDiscardStep(ps, tr, ch)
    case ValueDiscardWsAlmostDone => Expect(ps, tr, ch == LF, InHeader(ValueDiscardLws), StrictCheck)
    case ValueDiscardLws => ValueDiscardLwsStep(ps, tr, ch)
    case ValueStart => ValueStartStep(ps, tr, ch)
    case ValueText => ValueStep(ps, tr, ch, unchecked)
    case ValueLws => ValueLwsStep(ps, tr, ch)
    case HeaderAlmostDone => Expect(ps, tr, ch == LF, InHeader(ValueLws), LfExpected)
    case HeadersAlmostDone => HeadersAlmostDoneStep(ps, tr, ch)
    case HeadersDone => HeadersDoneStep(ps, tr, ch)
  }

  // One pass through the switch.
  function Look(ps: Parser, tr: seq<Event>, unchecked: bool, ch: Octet): Act {
    match ps.state
    case Starting(_) => StartStep(ps, tr, ch)
    case ResponseLine(_) => ResponseLineStep(ps, tr, ch)
    case ReqMethod => MethodStep(ps, tr, ch)
    case ReqSpacesBeforeUrl => UrlStartStep(ps, tr, ch)
    case InUrl(_) => UrlStep(ps, tr, ch)
    case RequestVersion(_) => RequestVersionStep(ps, tr, ch)
    case InHeader(_) => HeaderStep(ps, tr, unchecked, ch)
    case InChunkSize(_) => ChunkSizeStep(ps, tr, ch)
    case InPayload(_) => PayloadStep(ps, tr, ch)
  }

  // ----- Bytes, runs and calls

  // Where the byte just consumed was looked at: in the switch, in the inner
  // loop over a header name or value, or skipped over by that loop's fast path.
  datatype Lane = Outer | Inner | Skipping

  datatype Config =
    | Go(ps: Parser, tr: seq<Event>, lane: Lane, pos: nat)
    | Left(ps: Parser, tr: seq<Event>, pos: nat)   // returned early: the rest belongs to another protocol
    | Bad(e: Errno, pos: nat)

  function LaneAfter(before: Parser, after: Parser): Lane {
    if before.state != after.state then Outer
    else if before.state == InHeader(FieldName) then Inner
    else if before.state != InHeader(ValueText) then Outer
    else if before.headerState.General? then Skipping
    else Inner
  }

  // How many more times a byte can be looked at again.
  function Looks(s: State): nat {
    match s
    case Starting(StartReqOrRes) => 1
    case InHeader(ValueText) => 5
    case InHeader(HeaderAlmostDone) => 1
    case InHeader(ValueDiscardLws) => 4
    case InHeader(ValueLws) => 4
    case InHeader(FieldStart) => 3
    case InHeader(HeadersAlmostDone) => 2
    case InPayload(BodyIdentity) => 1
    case _ => 0
  }

  // The states whose bytes are read by a loop of their own.
  predicate OwnLoop(s: State) {
    s == InHeader(FieldName) || s == InHeader(ValueText) || s == InPayload(ChunkData) || s == InPayload(BodyIdentity) ||
    s == InPayload(BodyIdentityEof)
  }

  lemma HeaderLookedAtAgain(ps: Parser, tr: seq<Event>, unchecked: bool, ch: Octet)
    requires ps.state.InHeader? && HeaderStep(ps, tr, unchecked, ch).Again?
    ensures var again := HeaderStep(ps, tr, unchecked, ch).ps.state;
            Looks(again) < Looks(ps.state) && !OwnLoop(again)
  {
    hide Emit, FieldMatch, ValueMatch, Token, IsNum, IsHeaderChar, Lower, NoteOption, FramingOf, CompletedParser, CompletedTrace,
         FieldInitial, ValueInitial;
  }

  lemma LookingAgainTerminates(ps: Parser, tr: seq<Event>, unchecked: bool, ch: Octet)
    requires Look(ps, tr, unchecked, ch).Again?
    ensures Looks(Look(ps, tr, unchecked, ch).ps.state) < Looks(ps.state)
    ensures !OwnLoop(Look(ps, tr, unchecked, ch).ps.state)
  {
    hide Emit, MethodSwitch, MethodGuess, MethodName, CharAt, UrlChar, FirstUrlChar, Unhex, IsNum, HeaderStep, CompletedParser,
         CompletedTrace, BeforeHost;
    if ps.state.InHeader? {
      HeaderLookedAtAgain(ps, tr, unchecked, ch);
    }
  }

  function Dispatch(ps: Parser, tr: seq<Event>, lane: Lane, ch: Octet, pos: nat): Config
    decreases Looks(ps.state)
  {
    match Look(ps, tr, lane.Skipping?, ch)
    case Next(ps', tr') => Go(ps', tr', LaneAfter(ps, ps'), pos + 1)
    case Again(ps', tr') =>
      LookingAgainTerminates(ps, tr, lane.Skipping?, ch);
      Dispatch(ps', tr', Outer, ch, pos)
    case Leave(ps', tr') => Left(ps', tr', pos + 1)
    case Err(e) => Bad(e, pos)
  }

  // One byte: count it if it belongs to a header section, then look at it.
  function Step(c: Config, ch: Octet): Config {
    if !c.Go? then c
    else if !ParsingHeader(c.ps.state) then Dispatch(c.ps, c.tr, c.lane, ch, c.pos)
    else if c.ps.nread + 1 > MAX_HEADER_SIZE then Bad(HeaderOverflow, c.pos)
    else Dispatch(c.ps.(nread := c.ps.nread + 1), c.tr, c.lane, ch, c.pos)
  }

  function Run(c: Config, d: seq<Octet>): Config {
    if d == [] then c else Step(Run(c, d[..|d| - 1]), d[|d| - 1])
  }

  function Begin(ps: Parser, tr: seq<Event>): Config {
    Go(ps, tr, Outer, 0)
  }

  // A call that ends inside an inner loop has counted one byte twice.
  function Finish(c: Config): Config {
    if !c.Go? || c.lane.Outer? then c
    else if c.ps.nread + 1 > MAX_HEADER_SIZE then Bad(HeaderOverflow, c.pos)
    else c.(ps := c.ps.(nread := c.ps.nread + 1), lane := Outer)
  }

  // One call of http_parser_execute on a non-empty buffer.
  function Call(ps: Parser, tr: seq<Event>, d: seq<Octet>): Config {
    Finish(Run(Begin(ps, tr), d))
  }

  lemma RunSnoc(c: Config, d: seq<Octet>, ch: Octet)
    ensures Run(c, d + [ch]) == Step(Run(c, d), ch)
  {
    hide Step;
    assert (d + [ch])[..|d|] == d;
  }

  lemma {:induction false} RunConcat(c: Config, a: seq<Octet>, b: seq<Octet>)
    ensures Run(c, a + b) == Run(Run(c, a), b)
  {
    hide Step;
    if b == [] {
      assert a + b == a;
    } else {
      var init := b[..|b| - 1];
      assert (a + b)[..|a + b| - 1] == a + init;
      RunConcat(c, a, init);
    }
  }
}
