// Whole messages from their bytes: how the body is delimited, when the
// connection goes on, and what the application is told.
module HttpMessage {
  import opened HttpChars
  import opened HttpTypes
  import opened HttpMachine
  import opened HttpBulk
  import opened HttpInvariant
  import opened HttpSplit
  import opened HttpLengths
  import opened HttpChunked
  import opened HttpRequest
  import opened HttpLines
  import opened HttpHead
  import HttpTrailer

  // A start line, header lines, and the blank line that ends them
  datatype Head = Head(start: Start, lines: seq<Line>, end: seq<Octet>)

  // What is sent behind a head
  datatype Content =
    | Nothing
    | Sized(bytes: seq<Octet>)
    | Chunks(body: HttpTrailer.Body)
    | Rest(bytes: seq<Octet>)           // up to the end of the stream

  datatype Message = Message(head: Head, content: Content)

  predicate ValidHead(h: Head) {
    ValidStart(h.start) && ValidLines(h.lines) && IsLineEnd(h.end)
  }

  function HeadText(h: Head): seq<Octet> {
    StartText(h.start) + LinesText(h.lines) + h.end
  }

  function ContentText(k: Content): seq<Octet> {
    match k
    case Nothing => []
    case Sized(bytes) => bytes
    case Chunks(body) => HttpTrailer.EncodeBody(body)
    case Rest(bytes) => bytes
  }

  function MessageText(m: Message): seq<Octet> {
    HeadText(m.head) + ContentText(m.content)
  }

  // ----- What a head means, as sections 3.3.3, 6.3 and 6.7 of RFC 7230 read it

  predicate Connects(h: Head) {
    h.start.RequestLine? && h.start.meth.CONNECT?
  }

  // Another protocol is asked for.
  ghost predicate Upgrades(h: Head) {
    Connects(h) || (SaysUpgrade(h.lines) && Asks(h.lines, ConnectionUpgrade))
  }

  // What is behind the message is not HTTP any more.  The application may
  // decide so by answering 2.
  ghost predicate Switches(h: Head, reply: int) {
    Upgrades(h) || reply == 2
  }

  // A response with one of these codes has no body.
  predicate Bodiless(s: Start) {
    s.StatusLine? && (100 <= DecimalValue(s.code) < 200 || DecimalValue(s.code) == 204 || DecimalValue(s.code) == 304)
  }

  // The body goes on to the end of the stream.
  ghost predicate WantsEof(h: Head, reply: int) {
    h.start.StatusLine? && reply == 0 && !SaysChunked(h.lines) && !SaysLength(h.lines) && !Bodiless(h.start)
  }

  // The connection is kept: from version 1.1 on unless closing it is asked for,
  // before only if keeping it is asked for.
  ghost predicate Persists(h: Head) {
    if MajorSaid(h.start) > 0 && MinorSaid(h.start) > 0 then !Asks(h.lines, ConnectionClose)
    else Asks(h.lines, ConnectionKeepAlive)
  }

  ghost predicate KeptAlive(h: Head, reply: int) {
    Persists(h) && !WantsEof(h, reply)
  }

  // Two ways of framing contradict each other.
  ghost predicate Contradicts(h: Head) {
    SaysChunked(h.lines) && SaysLength(h.lines)
  }

  // No body is expected behind the head: because of the answer 1 or 2, or
  // behind CONNECT, or because none is announced and none wanted.
  ghost predicate SuitsNothing(h: Head, reply: int) {
    || reply != 0 || Connects(h)
    || (!SaysChunked(h.lines) &&
        if SaysLength(h.lines) then LengthSaid(h.lines) == 0 else !WantsEof(h, reply) || Switches(h, reply))
  }

  ghost predicate SuitsSized(h: Head, reply: int, n: nat) {
    reply == 0 && !Connects(h) && SaysLength(h.lines) && LengthSaid(h.lines) == n > 0
  }

  ghost predicate SuitsChunks(h: Head, reply: int) {
    reply == 0 && !Connects(h) && SaysChunked(h.lines)
  }

  ghost predicate SuitsRest(h: Head, reply: int) {
    WantsEof(h, reply) && !Switches(h, reply)
  }

  // The content is what the head announces.
  ghost predicate Suits(m: Message, reply: int) {
    match m.content
    case Nothing => SuitsNothing(m.head, reply)
    case Sized(bytes) => SuitsSized(m.head, reply, |bytes|)
    case Chunks(body) => SuitsChunks(m.head, reply) && HttpTrailer.ValidBody(body, 0)
    case Rest(_) => SuitsRest(m.head, reply)
  }

  lemma {:induction false} LengthIsSaid(ls: seq<Line>)
    requires ValidLines(ls)
    ensures SaysLength(ls) <==> LengthSaid(ls) != ULLONG_MAX
    ensures SaysLength(ls) ==> LengthSaid(ls) <= MAX_CONTENT_LENGTH
  {
    hide ValidLine, GivesLength, DecimalValue;
    if ls != [] {
      var init, l := ls[..|ls| - 1], ls[|ls| - 1];
      LengthMore(ls);
      SaysMore(ls);
      LengthIsSaid(init);
      LengthInRange(l);
    }
  }

  lemma LengthInRange(l: Line)
    requires ValidLine(l)
    ensures GivesLength(l) ==> DecimalValue(l.value) <= MAX_CONTENT_LENGTH
  {
  }

  // Behind every head without contradiction, one kind of content is suitable and no other.
  lemma OneKindSuits(h: Head, reply: int)
    requires ValidHead(h) && !Contradicts(h)
    ensures SuitsNothing(h, reply) || SuitsSized(h, reply, LengthSaid(h.lines)) || SuitsChunks(h, reply) || SuitsRest(h, reply)
    ensures forall n :: SuitsSized(h, reply, n) ==>
                          n == LengthSaid(h.lines) && !SuitsNothing(h, reply) && !SuitsChunks(h, reply) && !SuitsRest(h, reply)
    ensures SuitsChunks(h, reply) ==> !SuitsNothing(h, reply) && !SuitsRest(h, reply)
    ensures SuitsRest(h, reply) ==> !SuitsNothing(h, reply)
  {
    hide SaysChunked, SaysLength, SaysUpgrade, Asks, LengthSaid, Bodiless;
    LengthIsSaid(h.lines);
  }

  // ----- What the application is told

  ghost function HeadCallbacks(h: Head, line: StartLine): seq<Event> {
    StartEvents(h.start) + LineEvents(h.lines) + [HeadersComplete(line, Upgrades(h), LengthSaid(h.lines))]
  }

  function ContentEvents(k: Content): seq<Event> {
    match k
    case Nothing => []
    case Sized(bytes) => [Data(DataKind.Body, bytes)]
    case Chunks(b) => ChunkEvents(b.chunks) + [ChunkHeader(0)] + HeaderEvents(b.trailer) + [ChunkComplete]
    case Rest(bytes) => if bytes == [] then [] else [Data(DataKind.Body, bytes)]
  }

  // The callbacks of a message that is over
  ghost function MessageEvents(m: Message, line: StartLine, reply: int): seq<Event> {
    HeadCallbacks(m.head, line) + ContentEvents(m.content) + [MessageComplete(KeptAlive(m.head, reply))]
  }

  // ----- The end of a head

  // A parser in front of a message of the kind that it reads
  predicate AtMessage(c: Config, s: Start) {
    && c.Go? && c.lane.Outer? && !EndsWithData(c.tr, Field)
    && match s
       case RequestLine(_, _, _, _, _, _) => c.ps.kind == ParserType.Request && c.ps.state == Starting(StartReq)
       case StatusLine(_, _, _, _, _, _, _) =>
         c.ps.kind == ParserType.Response && c.ps.state == Starting(StartRes) && !c.ps.line.meth.CONNECT?
  }

  lemma RunStart(c: Config, s: Start)
    requires AtMessage(c, s) && ValidStart(s) && c.ps.nread + |StartText(s)| <= MAX_HEADER_SIZE
    ensures var n := |StartText(s)|;
            Open(Run(c, StartText(s)), Started(c.ps, s), c.tr + StartEvents(s), c.ps.nread + n, c.pos + n)
  {
    hide Run, ValidStart, StartText, StartEvents, Open, LineSaid, EndsWithData;
    if s.RequestLine? {
      RunRequestLine(c, s);
    } else {
      RunStatusLine(c, s);
    }
  }

  // The fields in front of the blank line
  ghost function HeadParser(ps: Parser, h: Head): Parser {
    ps.(flags := FlagsSaid(h.lines), contentLength := LengthSaid(h.lines), line := LineSaid(h.start, ps.line))
  }

  // What is in front of the blank line
  function Above(h: Head): seq<Octet> {
    StartText(h.start) + LinesText(h.lines)
  }

  lemma RunAbove(c: Config, h: Head)
    requires AtMessage(c, h.start) && ValidHead(h) && c.ps.nread + |Above(h)| <= MAX_HEADER_SIZE
    ensures var n, d := |Above(h)|, Run(c, Above(h));
            && d.Go? && d.lane.Outer?
            && Open(Settle(d), HeadParser(c.ps, h), c.tr + (StartEvents(h.start) + LineEvents(h.lines)), c.ps.nread + n, c.pos + n)
  {
    hide Run, ValidStart, StartText, StartEvents, LinesText, LineEvents, LineSaid, EndsWithData, ValidLines, FlagsSaid, LengthSaid;
    RunStart(c, h.start);
    var s := Run(c, StartText(h.start));
    RunLines(s, h.lines);
    RunConcat(c, StartText(h.start), LinesText(h.lines));
    assert c.tr + StartEvents(h.start) + LineEvents(h.lines) == c.tr + (StartEvents(h.start) + LineEvents(h.lines));
  }

  lemma LookBlankLine(ps: Parser, tr: seq<Event>)
    requires ps.state == InHeader(FieldStart)
    ensures Look(ps, tr, false, CR) == Next(ps.(state := InHeader(HeadersAlmostDone)), tr)
    ensures Look(ps, tr, false, LF) == Again(ps.(state := InHeader(HeadersAlmostDone)), tr)
  {
    hide Emit;
  }

  // The line feed of the blank line
  lemma RunBlankLine(o: Config, e: seq<Octet>)
    requires AtLines(o) && IsLineEnd(e) && o.ps.nread + |e| <= MAX_HEADER_SIZE
    ensures Run(o, e) ==
            Dispatch(o.ps.(state := InHeader(HeadersAlmostDone), nread := o.ps.nread + |e|), o.tr, Outer, LF, o.pos + |e| - 1)
  {
    hide Step, Dispatch, Run, Look;
    var counted := o.ps.(nread := o.ps.nread + 1);
    LookBlankLine(counted, o.tr);
    StepNext(o.ps, o.tr, o.lane, o.pos, e[0]);
    DispatchOnce(counted, o.tr, Outer, e[0], o.pos);
    if e == CRLF {
      var d := Step(o, CR);
      StepNext(d.ps, d.tr, d.lane, d.pos, LF);
      RunOne(o, CR);
      assert CRLF == [CR] + [LF];
      RunSnoc(o, [CR], LF);
    } else {
      RunOne(o, LF);
    }
  }

  // The fields when the header section is over and the application has answered
  ghost function AnsweredParser(ps: Parser, h: Head, reply: int): Parser {
    var said := HeadParser(ps, h);
    said.(flags := said.flags.(skipBody := reply != 0), upgrade := Switches(h, reply), nread := 0)
  }

  lemma LookHeadersEnd(ps: Parser, tr: seq<Event>)
    requires ps.state == InHeader(HeadersAlmostDone) && !ps.flags.trailing && !ps.flags.skipBody
    ensures var up := (ps.flags.upgrade && ps.flags.connectionUpgrade) || ps.line.meth.CONNECT?;
            var reply := ps.settings.reply;
            Look(ps, tr, false, LF) ==
            if ps.flags.chunked && ps.flags.contentLength then Err(UnexpectedContentLength)
            else if reply < 0 || reply > 2 then Err(CbHeadersComplete)
            else
              Again(ps.(state := InHeader(HeadersDone), upgrade := up || reply == 2, flags := ps.flags.(skipBody := reply != 0)),
                    Emit(tr, HeadersComplete(ps.line, up, ps.contentLength)))
  {
    hide Emit;
    assert !ps.flags.skipBody ==> ps.flags.(skipBody := false) == ps.flags;
  }


  // The parser as it looks at the last byte of the head again
  ghost function EndParser(c: Config, h: Head): Parser
    requires c.Go? && Settle(Run(c, Above(h))).Go?
  {
    var o := Settle(Run(c, Above(h)));
    AnsweredParser(c.ps, h, c.ps.settings.reply).(
      state := InHeader(HeadersDone), headerState := o.ps.headerState, index := o.ps.index, nread := c.ps.nread + |HeadText(h)|)
  }

  lemma FlagsAnswered(ls: seq<Line>)
    ensures var flags := FlagsSaid(ls);
            && !flags.trailing && !flags.skipBody && flags.chunked == SaysChunked(ls) && flags.contentLength == SaysLength(ls)
            && flags.upgrade == SaysUpgrade(ls) && flags.connectionUpgrade == Asks(ls, ConnectionUpgrade)
            && flags.close == Asks(ls, ConnectionClose) && flags.keepAlive == Asks(ls, ConnectionKeepAlive)
  {
    hide Asks, SaysChunked, SaysUpgrade, SaysLength;
  }

  // The end of a head: what is wrong with it, or what the application was told
  lemma RunHeadEndTo(c: Config, h: Head)
    requires AtMessage(c, h.start) && ValidHead(h) && c.ps.nread + |HeadText(h)| <= MAX_HEADER_SIZE
    ensures var n, reply := |HeadText(h)|, c.ps.settings.reply;
            && Settle(Run(c, Above(h))).Go? && n > 0
            && Run(c, HeadText(h)) ==
               if Contradicts(h) then Bad(UnexpectedContentLength, c.pos + n - 1)
               else if reply < 0 || reply > 2 then Bad(CbHeadersComplete, c.pos + n - 1)
               else Dispatch(EndParser(c, h), c.tr + HeadCallbacks(h, LineSaid(h.start, c.ps.line)), Outer, LF, c.pos + n - 1)
  {
    hide Run, Dispatch, Look, Emit, ValidStart, ValidLines, FlagsSaid, LengthSaid, StartEvents, LineEvents, Settle, EndsWithData,
         LinesText, StartText, IsLineEnd, Asks, SaysChunked, SaysUpgrade, SaysLength, LineSaid;
    assert |h.end| > 0 && h.end[0] != ' ' && h.end[0] != TAB by { EndIsThere(h.end); }
    RunAbove(c, h);
    var d := Run(c, Above(h));
    SettleKeeps(d);
    SettledRuns(d, h.end);
    RunConcat(c, Above(h), h.end);
    var o := Settle(d);
    RunBlankLine(o, h.end);
    FlagsAnswered(h.lines);
    var ps := o.ps.(state := InHeader(HeadersAlmostDone), nread := o.ps.nread + |h.end|);
    DispatchOnce(ps, o.tr, Outer, LF, c.pos + |HeadText(h)| - 1);
    LookHeadersEnd(ps, o.tr);
    MethodSaid(c, h.start);
    EventsEnd(c.tr, h, ps.line);
  }

  lemma SettleKeeps(d: Config)
    requires d.Go?
    ensures Settle(d).Go? && Settle(d).ps.nread == d.ps.nread && Settle(d).lane == d.lane
  {
  }

  lemma EndIsThere(e: seq<Octet>)
    requires IsLineEnd(e)
    ensures |e| > 0 && e[0] != ' ' && e[0] != TAB
  {
  }

  lemma MethodSaid(c: Config, s: Start)
    requires AtMessage(c, s)
    ensures LineSaid(s, c.ps.line).meth.CONNECT? <==> s.RequestLine? && s.meth.CONNECT?
  {
    hide DecimalValue;
  }

  lemma EventsEnd(tr: seq<Event>, h: Head, line: StartLine)
    ensures Emit(tr + (StartEvents(h.start) + LineEvents(h.lines)), HeadersComplete(line, Upgrades(h), LengthSaid(h.lines))) ==
            tr + HeadCallbacks(h, line)
  {
    hide StartEvents, LineEvents, LengthSaid, Upgrades;
    assert tr + (StartEvents(h.start) + LineEvents(h.lines)) + [HeadersComplete(line, Upgrades(h), LengthSaid(h.lines))] ==
           tr + HeadCallbacks(h, line);
  }

  // ----- Behind the head

  // The message is over: the parser has left, or is ready for the next one, or closed.
  ghost predicate Over(d: Config, c: Config, m: Message, nread: nat)
    requires c.Go?
  {
    var reply, line := c.ps.settings.reply, LineSaid(m.head.start, c.ps.line);
    && (if Switches(m.head, reply) then d.Left? else d.Go? && d.lane.Outer?)
    && d.tr == c.tr + MessageEvents(m, line, reply) && d.pos == c.pos + |MessageText(m)|
    && d.ps.state == Starting(if !KeptAlive(m.head, reply) then StartingState.Dead
                              else if c.ps.kind == ParserType.Request then StartReq else StartRes)
    && d.ps.kind == c.ps.kind && d.ps.settings == c.ps.settings && d.ps.line == line && d.ps.nread == nread
  }

  // The fields that decide about the connection, and what they come from
  ghost predicate Answered(ps: Parser, c: Config, h: Head)
    requires c.Go?
  {
    var reply := c.ps.settings.reply;
    && ps.kind == c.ps.kind && ps.settings == c.ps.settings && ps.line == LineSaid(h.start, c.ps.line)
    && ps.upgrade == Switches(h, reply)
    && ps.flags == FlagsSaid(h.lines).(skipBody := reply != 0, trailing := ps.flags.trailing)
    && (ps.contentLength == LengthSaid(h.lines) || (ps.contentLength == 0 && (SaysLength(h.lines) || SaysChunked(h.lines))))
  }

  lemma EofWanted(ps: Parser, c: Config, h: Head)
    requires AtMessage(c, h.start) && ValidHead(h) && Answered(ps, c, h)
    ensures MessageNeedsEof(ps) == WantsEof(h, c.ps.settings.reply)
  {
    hide FlagsSaid, ValidStart, ValidLines, LengthSaid, Asks, SaysChunked, SaysUpgrade, SaysLength, DecimalValue, EndsWithData;
    FlagsAnswered(h.lines);
    LengthIsSaid(h.lines);
    if h.start.StatusLine? {
      CodeSaid(h.start, c.ps.line);
    }
  }

  lemma CodeSaid(s: Start, before: StartLine)
    requires s.StatusLine?
    ensures LineSaid(s, before).status == DecimalValue(s.code)
    ensures Bodiless(s) <==> DecimalValue(s.code) / 100 == 1 || DecimalValue(s.code) == 204 || DecimalValue(s.code) == 304
  {
    hide DecimalValue;
  }

  // Keeping the connection alive, from the bytes
  lemma Persistence(ps: Parser, c: Config, h: Head)
    requires AtMessage(c, h.start) && ValidHead(h) && Answered(ps, c, h)
    ensures ShouldKeepAlive(ps) == KeptAlive(h, c.ps.settings.reply)
  {
    hide FlagsSaid, ValidStart, ValidLines, LengthSaid, Asks, SaysChunked, SaysUpgrade, SaysLength, DecimalValue, WantsEof,
         MessageNeedsEof, EndsWithData;
    FlagsAnswered(h.lines);
    EofWanted(ps, c, h);
    NumbersSaid(h.start, c.ps.line);
  }

  lemma NumbersSaid(s: Start, before: StartLine)
    ensures LineSaid(s, before).major == MajorSaid(s) && LineSaid(s, before).minor == MinorSaid(s)
  {
    hide DecimalValue;
  }

  // A message that is completed in the fields `ps`
  lemma CompletedIsOver(d: Config, c: Config, m: Message, ps: Parser, tr: seq<Event>, nread: nat)
    requires AtMessage(c, m.head.start) && ValidHead(m.head) && Answered(ps, c, m.head) && ps.nread == nread
    requires tr == c.tr + HeadCallbacks(m.head, LineSaid(m.head.start, c.ps.line)) + ContentEvents(m.content)
    requires if ps.upgrade then d == Left(CompletedParser(ps), CompletedTrace(ps, tr), c.pos + |MessageText(m)|)
             else d == Go(CompletedParser(ps), CompletedTrace(ps, tr), Outer, c.pos + |MessageText(m)|)
    ensures Over(d, c, m, nread)
  {
    hide FlagsSaid, ValidHead, LengthSaid, Asks, SaysChunked, SaysUpgrade, SaysLength, HeadCallbacks, ContentEvents, MessageText,
         Switches, KeptAlive, ShouldKeepAlive, LineSaid, EndsWithData;
    Persistence(ps, c, m.head);
    var line, reply := LineSaid(m.head.start, c.ps.line), c.ps.settings.reply;
    assert c.tr + HeadCallbacks(m.head, line) + ContentEvents(m.content) + [MessageComplete(KeptAlive(m.head, reply))] ==
           c.tr + MessageEvents(m, line, reply);
  }

  // Nothing behind the head
  lemma LookNothing(ps: Parser, tr: seq<Event>)
    requires ps.state == InHeader(HeadersDone) && (ps.line.meth.CONNECT? ==> ps.upgrade)
    requires || ps.flags.skipBody || ps.line.meth.CONNECT?
             || (!ps.flags.chunked &&
                 (ps.contentLength == 0 || (ps.contentLength == ULLONG_MAX && (!MessageNeedsEof(ps) || ps.upgrade))))
    ensures var done := ps.(nread := 0);
            Look(ps, tr, false, LF) ==
            if ps.upgrade then Leave(CompletedParser(done), CompletedTrace(done, tr))
            else Next(CompletedParser(done), CompletedTrace(done, tr))
  {
    hide Emit, CompletedParser, CompletedTrace;
  }

  lemma LookSomething(ps: Parser, tr: seq<Event>)
    requires ps.state == InHeader(HeadersDone) && !ps.flags.skipBody && !ps.line.meth.CONNECT?
    ensures ps.flags.chunked ==> Look(ps, tr, false, LF) == Next(ps.(nread := 0, state := InChunkSize(ChunkSizeStart)), tr)
    ensures !ps.flags.chunked && 0 < ps.contentLength < ULLONG_MAX ==>
              Look(ps, tr, false, LF) == Next(ps.(nread := 0, state := InPayload(BodyIdentity)), tr)
    ensures !ps.flags.chunked && ps.contentLength == ULLONG_MAX && MessageNeedsEof(ps) && !ps.upgrade ==>
              Look(ps, tr, false, LF) == Next(ps.(nread := 0, state := InPayload(BodyIdentityEof)), tr)
  {
    hide Emit, CompletedParser, CompletedTrace;
  }

  // The fields when the body begins
  ghost function BodyParser(c: Config, h: Head, s: State): Parser
    requires c.Go? && Settle(Run(c, Above(h))).Go?
  {
    EndParser(c, h).(state := s, nread := 0)
  }

  ghost function BodyConfig(c: Config, h: Head, s: State): Config
    requires c.Go? && Settle(Run(c, Above(h))).Go?
  {
    Go(BodyParser(c, h, s), c.tr + HeadCallbacks(h, LineSaid(h.start, c.ps.line)), Outer, c.pos + |HeadText(h)|)
  }

  // A head that may stand, and room for it
  ghost predicate Fits(c: Config, h: Head) {
    && AtMessage(c, h.start) && ValidHead(h) && !Contradicts(h) && 0 <= c.ps.settings.reply <= 2
    && c.ps.nread + |HeadText(h)| <= MAX_HEADER_SIZE
  }

  lemma EndIsAnswered(c: Config, h: Head, s: State)
    requires Fits(c, h)
    ensures Settle(Run(c, Above(h))).Go? && Answered(EndParser(c, h), c, h) && Answered(BodyParser(c, h, s), c, h)
    ensures EndParser(c, h).line.meth.CONNECT? <==> Connects(h)
  {
    hide Run, Settle, FlagsSaid, LengthSaid, Asks, SaysChunked, SaysUpgrade, SaysLength, LineSaid, ValidHead, HeadText, HeadCallbacks,
         EndsWithData;
    RunHeadEndTo(c, h);
    FlagsAnswered(h.lines);
    MethodSaid(c, h.start);
  }

  lemma RunEmptyMessage(c: Config, m: Message)
    requires Fits(c, m.head) && m.content.Nothing? && SuitsNothing(m.head, c.ps.settings.reply)
    ensures Over(Run(c, MessageText(m)), c, m, 0)
  {
    hide Run, Settle, Dispatch, Look, FlagsSaid, LengthSaid, Asks, SaysChunked, SaysUpgrade, SaysLength, LineSaid, ValidHead,
         HeadText, HeadCallbacks, Over, CompletedParser, CompletedTrace, EndsWithData, MessageNeedsEof, WantsEof, Above;
    var h := m.head;
    assert MessageText(m) == HeadText(h);
    RunHeadEndTo(c, h);
    EndIsAnswered(c, h, InHeader(HeadersDone));
    FlagsAnswered(h.lines);
    LengthIsSaid(h.lines) by { ValidHeadLines(h); }
    var ps, tr := EndParser(c, h), c.tr + HeadCallbacks(h, LineSaid(h.start, c.ps.line));
    EofWanted(ps, c, h);
    LookNothing(ps, tr);
    DispatchOnce(ps, tr, Outer, LF, c.pos + |HeadText(h)| - 1);
    assert tr + ContentEvents(m.content) == tr;
    CompletedIsOver(Run(c, MessageText(m)), c, m, BodyParser(c, h, InHeader(HeadersDone)), tr, 0);
  }

  lemma ValidHeadLines(h: Head)
    requires ValidHead(h)
    ensures ValidLines(h.lines)
  {
  }

  // Up to where the body begins
  lemma RunHeadOfBody(c: Config, h: Head)
    requires Fits(c, h) && c.ps.settings.reply == 0 && !Connects(h)
    ensures Settle(Run(c, Above(h))).Go?
    ensures SaysChunked(h.lines) ==> Run(c, HeadText(h)) == BodyConfig(c, h, InChunkSize(ChunkSizeStart))
    ensures SaysLength(h.lines) && LengthSaid(h.lines) > 0 ==>
              Run(c, HeadText(h)) == BodyConfig(c, h, InPayload(BodyIdentity))
    ensures SuitsRest(h, 0) ==> Run(c, HeadText(h)) == BodyConfig(c, h, InPayload(BodyIdentityEof))
  {
    hide Run, Settle, Dispatch, Look, FlagsSaid, LengthSaid, Asks, SaysChunked, SaysUpgrade, SaysLength, LineSaid, ValidHead,
         HeadText, HeadCallbacks, EndsWithData, MessageNeedsEof, WantsEof, Above;
    RunHeadEndTo(c, h);
    EndIsAnswered(c, h, InHeader(HeadersDone));
    FlagsAnswered(h.lines);
    LengthIsSaid(h.lines) by { ValidHeadLines(h); }
    var ps, tr := EndParser(c, h), c.tr + HeadCallbacks(h, LineSaid(h.start, c.ps.line));
    EofWanted(ps, c, h);
    LookSomething(ps, tr);
    DispatchOnce(ps, tr, Outer, LF, c.pos + |HeadText(h)| - 1);
    NoLengthWanted(h);
  }

  lemma NoLengthWanted(h: Head)
    ensures WantsEof(h, 0) ==> !SaysChunked(h.lines) && !SaysLength(h.lines)
  {
    hide SaysChunked, SaysLength;
  }

  // A body of known length, up to the end of the message
  lemma RunSized(a: Config, b: seq<Octet>)
    requires a.Go? && a.lane.Outer? && a.ps.state == InPayload(BodyIdentity) && b != [] && a.ps.contentLength == |b|
    requires !EndsWithData(a.tr, DataKind.Body)
    ensures var done, tr := a.ps.(state := InPayload(MessageDone), contentLength := 0), a.tr + [Data(DataKind.Body, b)];
            Run(a, b) ==
            if a.ps.upgrade then Left(CompletedParser(done), CompletedTrace(done, tr), a.pos + |b|)
            else Go(CompletedParser(done), CompletedTrace(done, tr), Outer, a.pos + |b|)
  {
    hide Step, Run, Dispatch, Emit, Look, CompletedParser, CompletedTrace;
    var init, ch := b[..|b| - 1], b[|b| - 1];
    assert b == init + [ch];
    RunNothing(a, b, 0);
    assert b[0..0] == b[..0];
    if init != [] {
      RunBody(a.ps, a.tr, a.pos, init);
    }
    var d := Run(a, init);
    StepLastByte(d.ps, d.tr, d.pos, ch);
    var ps, shown := d.ps.(contentLength := 0, state := InPayload(MessageDone)), Emit(d.tr, Data(DataKind.Body, [ch]));
    AllShown(a.tr, init, ch);
    DispatchOnce(ps, shown, Outer, ch, d.pos);
    LookDone(ps, shown, ch);
    RunSnoc(a, init, ch);
  }

  lemma AllShown(tr: seq<Event>, init: seq<Octet>, ch: Octet)
    requires !EndsWithData(tr, DataKind.Body)
    ensures var shown := if init == [] then tr else Emit(tr, Data(DataKind.Body, init));
            Emit(shown, Data(DataKind.Body, [ch])) == tr + [Data(DataKind.Body, init + [ch])]
  {
    if init != [] {
      EmitTwice(tr, DataKind.Body, init, [ch]);
    }
    assert init == [] ==> init + [ch] == [ch];
  }

  lemma LookDone(ps: Parser, tr: seq<Event>, ch: Octet)
    requires ps.state == InPayload(MessageDone)
    ensures Look(ps, tr, false, ch) ==
            if ps.upgrade then Leave(CompletedParser(ps), CompletedTrace(ps, tr))
            else Next(CompletedParser(ps), CompletedTrace(ps, tr))
  {
    hide Emit, CompletedParser, CompletedTrace;
  }

  lemma HeadShowsNoBody(tr: seq<Event>, h: Head, line: StartLine)
    ensures !EndsWithData(tr + HeadCallbacks(h, line), DataKind.Body)
  {
    hide StartEvents, LineEvents, LengthSaid, Upgrades;
  }

  lemma RunSizedMessage(c: Config, m: Message)
    requires Fits(c, m.head) && m.content.Sized? && SuitsSized(m.head, c.ps.settings.reply, |m.content.bytes|)
    ensures Over(Run(c, MessageText(m)), c, m, 0)
  {
    hide Run, Settle, FlagsSaid, LengthSaid, Asks, SaysChunked, SaysUpgrade, SaysLength, LineSaid, ValidHead, HeadText, HeadCallbacks,
         Over, CompletedParser, CompletedTrace, EndsWithData, WantsEof, Above;
    var h, b := m.head, m.content.bytes;
    RunHeadOfBody(c, h);
    EndIsAnswered(c, h, InPayload(BodyIdentity));
    var a := BodyConfig(c, h, InPayload(BodyIdentity));
    HeadShowsNoBody(c.tr, h, LineSaid(h.start, c.ps.line));
    RunSized(a, b);
    RunConcat(c, HeadText(h), b);
    CompletedIsOver(Run(c, MessageText(m)), c, m, a.ps.(state := InPayload(MessageDone), contentLength := 0),
                    a.tr + ContentEvents(m.content), 0);
  }

  // How much of the header budget a message leaves to the next
  function Carried(k: Content): nat {
    if k.Chunks? then |HeadersText(k.body.trailer)| + 2 else 0
  }

  lemma TrailedShown(tr: seq<Event>, b: HttpTrailer.Body, ps: Parser)
    ensures CompletedTrace(ps, tr + ContentEvents(Chunks(b))) == tr + HttpTrailer.TrailedEvents(b, ShouldKeepAlive(ps))
  {
    hide ShouldKeepAlive, ChunkEvents, HeaderEvents;
  }

  lemma RunChunkedMessage(c: Config, m: Message)
    requires Fits(c, m.head) && m.content.Chunks? && SuitsChunks(m.head, c.ps.settings.reply)
    requires HttpTrailer.ValidBody(m.content.body, 0)
    ensures Over(Run(c, MessageText(m)), c, m, Carried(m.content))
  {
    hide Run, Settle, FlagsSaid, LengthSaid, Asks, SaysChunked, SaysUpgrade, SaysLength, LineSaid, ValidHead, HeadText, HeadCallbacks,
         Over, CompletedParser, CompletedTrace, EndsWithData, WantsEof, Above, HttpTrailer.ValidBody, HttpTrailer.EncodeBody,
         HttpTrailer.TrailedEvents, HeadersText, ShouldKeepAlive, ContentEvents;
    var h, b := m.head, m.content.body;
    RunHeadOfBody(c, h);
    EndIsAnswered(c, h, InChunkSize(ChunkSizeStart));
    var a := BodyConfig(c, h, InChunkSize(ChunkSizeStart));
    HttpTrailer.RunBodyWithTrailer(a, b);
    RunConcat(c, HeadText(h), HttpTrailer.EncodeBody(b));
    var d := Run(c, MessageText(m));
    var done := LastParser(a).(nread := Carried(m.content), headerState := d.ps.headerState, index := d.ps.index);
    HttpTrailer.AliveAlike(done, LastParser(a));
    TrailedShown(a.tr, b, done);
    ChunksLeave(a, d, done, c, m);
  }

  lemma ChunksLeave(a: Config, d: Config, done: Parser, c: Config, m: Message)
    requires Fits(c, m.head) && SaysChunked(m.head.lines) && a.Go? && !d.Bad? && Answered(a.ps, c, m.head)
    requires a.tr == c.tr + HeadCallbacks(m.head, LineSaid(m.head.start, c.ps.line))
    requires done == LastParser(a).(nread := done.nread, headerState := done.headerState, index := done.index)
    requires d.ps == CompletedParser(done) && d.tr == CompletedTrace(done, a.tr + ContentEvents(m.content))
    requires (if a.ps.upgrade then d.Left? else d.Go? && d.lane.Outer?) && d.pos == c.pos + |MessageText(m)|
    ensures Over(d, c, m, done.nread)
  {
    hide FlagsSaid, LengthSaid, Asks, SaysChunked, SaysUpgrade, SaysLength, LineSaid, ValidHead, HeadText, HeadCallbacks, Over,
         CompletedParser, CompletedTrace, EndsWithData, WantsEof, ContentEvents, MessageText;
    CompletedIsOver(d, c, m, done, a.tr + ContentEvents(m.content), done.nread);
  }

  // A message from its bytes, whatever frames its body: the application is told
  // all of it and nothing else, and then the parser leaves, goes on, or closes.
  lemma RunMessage(c: Config, m: Message)
    requires Fits(c, m.head) && Suits(m, c.ps.settings.reply) && !m.content.Rest?
    ensures Over(Run(c, MessageText(m)), c, m, Carried(m.content))
  {
    hide Run, Fits, Over, SuitsNothing, SuitsSized, SuitsChunks, HttpTrailer.ValidBody;
    match m.content {
      case Nothing => RunEmptyMessage(c, m);
      case Sized(_) => RunSizedMessage(c, m);
      case Chunks(_) => RunChunkedMessage(c, m);
    }
  }

  // A response whose body goes on: all that has come is reported, and only the
  // end of the stream completes it, after which the connection is closed.
  lemma RunUnended(c: Config, m: Message)
    requires Fits(c, m.head) && m.content.Rest? && SuitsRest(m.head, c.ps.settings.reply)
    ensures var d := Run(c, MessageText(m));
            && d.Go? && d.lane.Outer? && d.ps.state == InPayload(BodyIdentityEof) && d.pos == c.pos + |MessageText(m)|
            && d.tr == c.tr + (HeadCallbacks(m.head, LineSaid(m.head.start, c.ps.line)) + ContentEvents(m.content))
            && !ShouldKeepAlive(d.ps) && d.ps.nread == 0
  {
    hide Run, Settle, FlagsSaid, LengthSaid, Asks, SaysChunked, SaysUpgrade, SaysLength, LineSaid, ValidHead, HeadText, HeadCallbacks,
         EndsWithData, WantsEof, Above, ShouldKeepAlive;
    var h, b := m.head, m.content.bytes;
    assert c.ps.settings.reply == 0 && !Connects(h) by { RestIsPlain(h, c.ps.settings.reply); }
    RunHeadOfBody(c, h);
    EndIsAnswered(c, h, InPayload(BodyIdentityEof));
    var a := BodyConfig(c, h, InPayload(BodyIdentityEof));
    HeadShowsNoBody(c.tr, h, LineSaid(h.start, c.ps.line));
    RunConcat(c, HeadText(h), b);
    Persistence(a.ps, c, h);
    if b == [] {
      RunNothing(a, b, 0);
      assert b[0..0] == b;
    } else {
      RunBody(a.ps, a.tr, a.pos, b);
      AllShownAtOnce(a.tr, b);
    }
    assert a.tr + ContentEvents(m.content) == c.tr + (HeadCallbacks(h, LineSaid(h.start, c.ps.line)) + ContentEvents(m.content));
  }

  lemma RestIsPlain(h: Head, reply: int)
    requires SuitsRest(h, reply)
    ensures reply == 0 && !Connects(h) && h.start.StatusLine?
  {
    hide SaysChunked, SaysLength, Asks, SaysUpgrade, Bodiless;
  }

  lemma AllShownAtOnce(tr: seq<Event>, b: seq<Octet>)
    requires !EndsWithData(tr, DataKind.Body)
    ensures Emit(tr, Data(DataKind.Body, b)) == tr + [Data(DataKind.Body, b)]
  {
  }
}
