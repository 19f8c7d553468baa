// Messages one after the other on one connection: which follow, which are
// refused, and what is left to another protocol.
module HttpExchange {
  import opened HttpChars
  import opened HttpTypes
  import opened HttpMachine
  import opened HttpBulk
  import opened HttpInvariant
  import opened HttpSplit
  import opened HttpLengths
  import opened HttpChunked
  import opened HttpRequest
  import opened HttpLines
  import opened HttpHead
  import opened HttpMessage
  import opened HttpGrammar
  import opened HttpManyCalls
  import opened HttpRoundTrip
  import HttpTrailer

  // ----- Behind a message that is not kept alive

  lemma StepClosed(c: Config, ch: Octet)
    requires c.Go? && c.lane.Outer? && c.ps.state == Starting(StartingState.Dead) && c.ps.nread < MAX_HEADER_SIZE
    ensures Step(c, ch) ==
            if ch == CR || ch == LF then Go(c.ps.(nread := c.ps.nread + 1), c.tr, Outer, c.pos + 1)
            else Bad(ClosedConnection, c.pos)
  {
    hide Emit;
    StepLooks(c, ch);
  }

  lemma {:induction false} RunClosed(c: Config, lead: seq<Octet>)
    requires c.Go? && c.lane.Outer? && c.ps.state == Starting(StartingState.Dead) && c.ps.nread + |lead| <= MAX_HEADER_SIZE
    requires LineEnds(lead)
    ensures Run(c, lead) == Go(c.ps.(nread := c.ps.nread + |lead|), c.tr, Outer, c.pos + |lead|)
  {
    hide Step;
    if lead != [] {
      RunClosed(c, lead[..|lead| - 1]);
      StepClosed(Run(c, lead[..|lead| - 1]), lead[|lead| - 1]);
    }
  }

  // Line ends pass without a callback; any other byte, and whatever follows it, is refused.
  lemma ClosedRefuses(c: Config, lead: seq<Octet>, ch: Octet, rest: seq<Octet>)
    requires c.Go? && c.lane.Outer? && c.ps.state == Starting(StartingState.Dead) && c.ps.nread + |lead| < MAX_HEADER_SIZE
    requires LineEnds(lead) && ch != CR && ch != LF
    ensures Run(c, lead).Go? && Run(c, lead).tr == c.tr
    ensures Run(c, lead + [ch] + rest) == Bad(ClosedConnection, c.pos + |lead|)
  {
    hide Step, Run;
    RunClosed(c, lead);
    StepClosed(Run(c, lead), ch);
    RunSnoc(c, lead, ch);
    RunConcat(c, lead + [ch], rest);
    RunOfStopped(Run(c, lead + [ch]), rest);
  }

  // Whether a connection is kept, from the bytes of a message: the application
  // is told so, and it is kept exactly if the head says so; if not, the next
  // byte that is no line end is refused and nothing more is reported.
  lemma ConnectionKept(c: Config, m: Message, lead: seq<Octet>, ch: Octet, rest: seq<Octet>)
    requires Fits(c, m.head) && Suits(m, c.ps.settings.reply) && !m.content.Rest? && !Switches(m.head, c.ps.settings.reply)
    requires Carried(m.content) + |lead| < MAX_HEADER_SIZE && LineEnds(lead) && ch != CR && ch != LF
    ensures var d, reply := Run(c, MessageText(m)), c.ps.settings.reply;
            && d.Go? && d.tr == c.tr + MessageEvents(m, LineSaid(m.head.start, c.ps.line), reply)
            && d.tr[|d.tr| - 1] == MessageComplete(KeptAlive(m.head, reply))
            && (KeptAlive(m.head, reply) ==> AtMessage(d, m.head.start))
            && (!KeptAlive(m.head, reply) ==>
                  && Run(c, MessageText(m) + (lead + [ch] + rest)) == Bad(ClosedConnection, d.pos + |lead|)
                  && Run(c, MessageText(m) + lead).Go? && Run(c, MessageText(m) + lead).tr == d.tr)
  {
    hide Run, Suits, KeptAlive, Switches, ValidHead, Contradicts, HeadText, MessageText, LineSaid;
    RunMessage(c, m);
    var d := Run(c, MessageText(m));
    LastEvent(c.tr, m, LineSaid(m.head.start, c.ps.line), c.ps.settings.reply);
    MethodSaid(c, m.head.start);
    if !KeptAlive(m.head, c.ps.settings.reply) {
      ClosedRefuses(d, lead, ch, rest);
      RunConcat(c, MessageText(m), lead + [ch] + rest);
      RunConcat(c, MessageText(m), lead);
    }
  }

  lemma LastEvent(tr: seq<Event>, m: Message, line: StartLine, reply: int)
    ensures var d := tr + MessageEvents(m, line, reply);
            d != [] && d[|d| - 1] == MessageComplete(KeptAlive(m.head, reply)) && !EndsWithData(d, Field)
  {
    hide HeadCallbacks, ContentEvents, KeptAlive;
  }

  // Of a request: it is kept exactly if, from version 1.1 on, no element of a
  // Connection header gets "close" through, or else if one gets "keep-alive" through.
  lemma RequestKept(h: Head, reply: int)
    requires h.start.RequestLine?
    ensures KeptAlive(h, reply) <==>
            if MajorSaid(h.start) > 0 && MinorSaid(h.start) > 0 then !Asks(h.lines, ConnectionClose)
            else Asks(h.lines, ConnectionKeepAlive)
  {
    hide Asks, SaysChunked, SaysLength;
  }

  // ----- Behind a message after which another protocol is spoken

  // The call returns behind the message; not one byte of the rest is looked at.
  lemma RestIsLeft(c: Config, m: Message, rest: seq<Octet>)
    requires Fits(c, m.head) && Suits(m, c.ps.settings.reply) && !m.content.Rest? && Switches(m.head, c.ps.settings.reply)
    ensures var d := Run(c, MessageText(m) + rest);
            && d.Left? && d.pos == c.pos + |MessageText(m)|
            && d.tr == c.tr + MessageEvents(m, LineSaid(m.head.start, c.ps.line), c.ps.settings.reply)
  {
    hide Run, Suits, Fits, MessageText, LineSaid, KeptAlive;
    RunMessage(c, m);
    RunConcat(c, MessageText(m), rest);
    RunOfStopped(Run(c, MessageText(m)), rest);
  }

  // ----- Many messages

  function MessagesText(ms: seq<Message>): seq<Octet> {
    if ms == [] then [] else MessagesText(ms[..|ms| - 1]) + MessageText(ms[|ms| - 1])
  }

  // What the last of the start lines leaves
  function LineAfter(line: StartLine, ms: seq<Message>): StartLine {
    if ms == [] then line else LineSaid(ms[|ms| - 1].head.start, LineAfter(line, ms[..|ms| - 1]))
  }

  ghost function AllMessageEvents(ms: seq<Message>, line: StartLine, reply: int): seq<Event> {
    if ms == [] then []
    else
      var init, m := ms[..|ms| - 1], ms[|ms| - 1];
      AllMessageEvents(init, line, reply) + MessageEvents(m, LineAfter(line, ms), reply)
  }

  function CarriedBy(ms: seq<Message>, n: nat): nat {
    if ms == [] then n else Carried(ms[|ms| - 1].content)
  }

  // A message that may come when `n` bytes of the header budget are taken, and
  // leaves `x` bytes of it at every point
  ghost predicate MayCome(m: Message, response: bool, reply: int, n: nat, x: nat) {
    && m.head.start.StatusLine? == response && ValidHead(m.head) && !Contradicts(m.head) && 0 <= reply <= 2
    && Suits(m, reply) && !m.content.Rest? && (m.content.Chunks? ==> HttpTrailer.ValidBody(m.content.body, x))
    && n + |HeadText(m.head)| + x <= MAX_HEADER_SIZE
  }

  // Messages that may follow each other
  ghost predicate Follow(ms: seq<Message>, response: bool, reply: int, n: nat, x: nat) {
    forall i :: 0 <= i < |ms| ==>
      && MayCome(ms[i], response, reply, CarriedBy(ms[..i], n), x)
      && KeptAlive(ms[i].head, reply) && !Switches(ms[i].head, reply)
  }

  lemma FollowMore(ms: seq<Message>, response: bool, reply: int, n: nat, x: nat)
    requires Follow(ms, response, reply, n, x) && ms != []
    ensures var init, m := ms[..|ms| - 1], ms[|ms| - 1];
            && Follow(init, response, reply, n, x) && MayCome(m, response, reply, CarriedBy(init, n), x)
            && KeptAlive(m.head, reply) && !Switches(m.head, reply)
  {
    hide MayCome, KeptAlive, Switches, CarriedBy;
    var init := ms[..|ms| - 1];
    forall i | 0 <= i < |init|
      ensures MayCome(init[i], response, reply, CarriedBy(init[..i], n), x) && KeptAlive(init[i].head, reply) &&
              !Switches(init[i].head, reply)
    {
      assert init[..i] == ms[..i];
    }
  }

  // A parser of requests, or of responses, between two messages
  predicate BetweenMessages(c: Config, response: bool) {
    && c.Go? && c.lane.Outer? && !EndsWithData(c.tr, Field)
    && if response then
         c.ps.kind == ParserType.Response && c.ps.state == Starting(StartRes) && !c.ps.line.meth.CONNECT?
       else c.ps.kind == ParserType.Request && c.ps.state == Starting(StartReq)
  }

  // The configuration between messages that follow each other
  ghost predicate Arrived(d: Config, c: Config, ms: seq<Message>, response: bool)
    requires c.Go?
  {
    && BetweenMessages(d, response) && d.tr == c.tr + AllMessageEvents(ms, c.ps.line, c.ps.settings.reply)
    && d.pos == c.pos + |MessagesText(ms)| && d.ps.settings == c.ps.settings && d.ps.line == LineAfter(c.ps.line, ms)
    && d.ps.nread == CarriedBy(ms, c.ps.nread)
  }

  lemma OneArrives(c: Config, m: Message, response: bool)
    requires BetweenMessages(c, response) && MayCome(m, response, c.ps.settings.reply, c.ps.nread, 0)
    requires KeptAlive(m.head, c.ps.settings.reply) && !Switches(m.head, c.ps.settings.reply)
    ensures var d, line := Run(c, MessageText(m)), LineSaid(m.head.start, c.ps.line);
            && BetweenMessages(d, response) && d.tr == c.tr + MessageEvents(m, line, c.ps.settings.reply)
            && d.pos == c.pos + |MessageText(m)| && d.ps.settings == c.ps.settings && d.ps.line == line
            && d.ps.nread == Carried(m.content)
  {
    hide Run, Suits, KeptAlive, Switches, ValidHead, Contradicts, HeadText, MessageText, LineSaid, EndsWithData;
    RunMessage(c, m);
    LastEvent(c.tr, m, LineSaid(m.head.start, c.ps.line), c.ps.settings.reply);
    MethodSaid(c, m.head.start);
  }

  lemma NoMessages(c: Config)
    requires c.Go?
    ensures Run(c, MessagesText([])) == c && c.tr + AllMessageEvents([], c.ps.line, c.ps.settings.reply) == c.tr
  {
    hide Step;
    var nothing: seq<Octet> := [];
    RunNothing(c, nothing, 0);
    assert nothing[0..0] == MessagesText([]);
  }

  lemma LessRoomNeeded(m: Message, response: bool, reply: int, n: nat, x: nat)
    requires MayCome(m, response, reply, n, x)
    ensures MayCome(m, response, reply, n, 0)
  {
    hide Suits, ValidHead, Contradicts, HeadText;
    if m.content.Chunks? {
      HttpTrailer.FitsLess(m.content.body, x);
    }
  }

  // Exchange: any messages that are kept alive, framed in any of the ways there
  // are, come back in order.
  lemma {:induction false} RunMessages(c: Config, ms: seq<Message>, response: bool, x: nat)
    requires BetweenMessages(c, response) && Follow(ms, response, c.ps.settings.reply, c.ps.nread, x)
    ensures Arrived(Run(c, MessagesText(ms)), c, ms, response)
  {
    hide Run, Follow, MayCome, KeptAlive, Switches, MessageText, MessageEvents, LineSaid, EndsWithData;
    if ms == [] {
      NoMessages(c);
    } else {
      var init, m, reply := ms[..|ms| - 1], ms[|ms| - 1], c.ps.settings.reply;
      FollowMore(ms, response, reply, c.ps.nread, x);
      RunMessages(c, init, response, x);
      var d := Run(c, MessagesText(init));
      LessRoomNeeded(m, response, reply, d.ps.nread, x);
      OneArrives(d, m, response);
      RunConcat(c, MessagesText(init), MessageText(m));
      assert c.tr + AllMessageEvents(init, c.ps.line, reply) + MessageEvents(m, LineAfter(c.ps.line, ms), reply) ==
             c.tr + AllMessageEvents(ms, c.ps.line, reply);
    }
  }

  // ----- Room in the header budget

  // A head but for its last byte
  lemma AlmostOver(c: Config, h: Head)
    requires Fits(c, h)
    ensures HeadText(h) != [] && Run(c, HeadText(h)[..|HeadText(h)| - 1]).Go?
  {
    hide Run, Step, Dispatch, Look, Settle, ValidStart, ValidLines, StartText, LinesText, EndsWithData, Contradicts, HeadParser;
    RunAbove(c, h);
    var d, t := Run(c, Above(h)), HeadText(h);
    SettleKeeps(d);
    if h.end == CRLF {
      assert t[..|t| - 1] == Above(h) + [CR];
      RunSnoc(c, Above(h), CR);
      SettledStep(d, CR);
      StepBlankLine(Settle(d));
    } else {
      assert t[..|t| - 1] == Above(h);
    }
  }

  lemma StepBlankLine(o: Config)
    requires o.Go? && o.lane.Outer? && o.ps.nread < MAX_HEADER_SIZE
    ensures AtLines(o) ==> Step(o, CR).Go?
  {
    hide Dispatch, Look;
    if AtLines(o) {
      StepNext(o.ps, o.tr, o.lane, o.pos, CR);
      LookBlankLine(o.ps.(nread := o.ps.nread + 1), o.tr);
      DispatchOnce(o.ps.(nread := o.ps.nread + 1), o.tr, Outer, CR, o.pos);
    }
  }

  lemma HeadHasRoom(c: Config, h: Head, x: nat)
    requires Fits(c, h) && c.ps.nread + |HeadText(h)| + x <= MAX_HEADER_SIZE
    ensures Room(c, HeadText(h), x)
  {
    hide Run, Fits, HeadText;
    AlmostOver(c, h);
    var t := HeadText(h);
    var init := t[..|t| - 1];
    forall k | 0 <= k < |t| ensures Run(c, t[..k]).Go? && Run(c, t[..k]).ps.nread + x < MAX_HEADER_SIZE {
      assert t[..k] == init[..k];
      RunCount(c, init, k);
    }
  }

  lemma MessageHasRoom(c: Config, m: Message, response: bool, x: nat)
    requires BetweenMessages(c, response) && MayCome(m, response, c.ps.settings.reply, c.ps.nread, x) && x < MAX_HEADER_SIZE
    ensures Room(c, MessageText(m), x)
  {
    hide Run, ValidHead, HeadText, HeadCallbacks, LineSaid, EndsWithData, Room, HttpTrailer.ValidBody, Contradicts, SaysLength,
         SaysChunked, Asks, LengthSaid, FlagsSaid, HttpTrailer.EncodeBody, Above, Settle;
    var h := m.head;
    HeadHasRoom(c, h, x);
    match m.content {
      case Nothing => assert MessageText(m) == HeadText(h);
      case Sized(b) =>
        RunHeadOfBody(c, h);
        BodyRoom(BodyConfig(c, h, InPayload(BodyIdentity)), b, x);
        RoomJoins(c, HeadText(h), b, x);
      case Chunks(b) =>
        RunHeadOfBody(c, h);
        HttpTrailer.BodyHasRoom(BodyConfig(c, h, InChunkSize(ChunkSizeStart)), b, x);
        RoomJoins(c, HeadText(h), HttpTrailer.EncodeBody(b), x);
    }
  }

  lemma {:induction false} MessagesHaveRoom(c: Config, ms: seq<Message>, response: bool, x: nat)
    requires BetweenMessages(c, response) && Follow(ms, response, c.ps.settings.reply, c.ps.nread, x) && x < MAX_HEADER_SIZE
    ensures Room(c, MessagesText(ms), x)
  {
    hide Run, Follow, MayCome, KeptAlive, Switches, MessageText, Room, EndsWithData;
    if ms == [] {
      NothingNeedsNoRoom(c, x);
    } else {
      var init, m := ms[..|ms| - 1], ms[|ms| - 1];
      FollowMore(ms, response, c.ps.settings.reply, c.ps.nread, x);
      MessagesHaveRoom(c, init, response, x);
      RunMessages(c, init, response, x);
      MessageHasRoom(Run(c, MessagesText(init)), m, response, x);
      RoomJoins(c, MessagesText(init), MessageText(m), x);
    }
  }

  // ----- The values that are shown are legal

  lemma {:induction false} LinesAreClean(ls: seq<Line>)
    requires ValidLines(ls)
    ensures CleanValues(LineEvents(ls))
  {
    hide ValidLine, IsHeaderChar, ValidLines, CleanValues;
    if ls == [] {
      SomeAreClean([], StartLine(0, 0, 0, DELETE), 0, []);
    } else {
      LengthMore(ls);
      LinesAreClean(ls[..|ls| - 1]);
      LineIsClean(ls[|ls| - 1]);
      CleanConcat(LineEvents(ls[..|ls| - 1]), [Data(Field, ls[|ls| - 1].name), Data(Value, ls[|ls| - 1].value)]);
    }
  }

  lemma LineIsClean(l: Line)
    requires ValidLine(l)
    ensures CleanValues([Data(Field, l.name), Data(Value, l.value)])
  {
    hide IsHeaderChar;
    if l.value != [] {
      LegalIsThere(l.value);
    }
  }

  lemma OthersAreClean(s: Start, line: StartLine, up: bool, n: nat, keep: bool)
    ensures CleanValues(StartEvents(s)) && CleanValues([HeadersComplete(line, up, n)]) && CleanValues([MessageComplete(keep)])
    ensures CleanValues([])
  {
  }

  lemma ContentIsClean(k: Content)
    requires k.Chunks? ==> ValidHeaders(k.body.trailer)
    ensures CleanValues(ContentEvents(k))
  {
    hide CleanValues, ChunkEvents, HeaderEvents, IsHeaderChar;
    match k {
      case Nothing => SomeAreClean([], StartLine(0, 0, 0, DELETE), 0, []);
      case Sized(b) => SomeAreClean([], StartLine(0, 0, 0, DELETE), 0, b);
      case Rest(b) => SomeAreClean([], StartLine(0, 0, 0, DELETE), 0, b);
      case Chunks(b) =>
        HttpTrailer.ChunksAreClean(b.chunks);
        TrailerIsClean(b.trailer);
        EdgesAreClean();
        CleanConcat(ChunkEvents(b.chunks), [ChunkHeader(0)]);
        CleanConcat(ChunkEvents(b.chunks) + [ChunkHeader(0)], HeaderEvents(b.trailer));
        CleanConcat(ChunkEvents(b.chunks) + [ChunkHeader(0)] + HeaderEvents(b.trailer), [ChunkComplete]);
    }
  }

  lemma TrailerIsClean(hs: seq<Header>)
    requires ValidHeaders(hs)
    ensures CleanValues(HeaderEvents(hs))
  {
    hide IsHeaderChar, CleanValues;
    HeadersAreClean(hs);
  }

  lemma EdgesAreClean()
    ensures CleanValues([ChunkHeader(0)]) && CleanValues([ChunkComplete])
  {
  }

  lemma MessageIsClean(m: Message, response: bool, line: StartLine, reply: int, n: nat, x: nat)
    requires MayCome(m, response, reply, n, x)
    ensures CleanValues(MessageEvents(m, line, reply))
  {
    hide CleanValues, StartEvents, LineEvents, ContentEvents, LengthSaid, Upgrades, KeptAlive, Suits, Contradicts, HeadText,
         ValidStart, ValidLines;
    var h := m.head;
    if m.content.Chunks? {
      HttpTrailer.FitsLess(m.content.body, x);
    }
    LinesAreClean(h.lines);
    ContentIsClean(m.content);
    OthersAreClean(h.start, line, Upgrades(h), LengthSaid(h.lines), KeptAlive(h, reply));
    CleanConcat(StartEvents(h.start), LineEvents(h.lines));
    CleanConcat(StartEvents(h.start) + LineEvents(h.lines), [HeadersComplete(line, Upgrades(h), LengthSaid(h.lines))]);
    CleanConcat(HeadCallbacks(h, line), ContentEvents(m.content));
    CleanConcat(HeadCallbacks(h, line) + ContentEvents(m.content), [MessageComplete(KeptAlive(h, reply))]);
  }

  lemma {:induction false} MessagesAreClean(ms: seq<Message>, response: bool, line: StartLine, reply: int, n: nat, x: nat)
    requires Follow(ms, response, reply, n, x)
    ensures CleanValues(AllMessageEvents(ms, line, reply))
  {
    hide CleanValues, MessageEvents, MayCome, KeptAlive, Switches, Follow, LineSaid, CarriedBy;
    if ms == [] {
      SomeAreClean([], StartLine(0, 0, 0, DELETE), 0, []);
    } else {
      var init, m := ms[..|ms| - 1], ms[|ms| - 1];
      FollowMore(ms, response, reply, n, x);
      MessagesAreClean(init, response, line, reply, n, x);
      MessageIsClean(m, response, LineAfter(line, ms), reply, CarriedBy(init, n), x);
      CleanConcat(AllMessageEvents(init, line, reply), MessageEvents(m, LineAfter(line, ms), reply));
    }
  }

  // ----- Any buffers

  function KindOf(response: bool): ParserType {
    if response then ParserType.Response else ParserType.Request
  }

  lemma FreshIsBetween(response: bool, settings: Settings)
    ensures var c := Begin(Init(KindOf(response), settings), []);
            BetweenMessages(c, response) && c.ps.nread == 0 && c.ps.settings == settings && Resting(c.ps)
  {
    hide Resting;
    InitIsResting(KindOf(response), settings);
  }

  // The whole of an exchange in one run
  lemma RunExchange(c: Config, ms: seq<Message>, last: Message, response: bool, x: nat)
    requires BetweenMessages(c, response) && Follow(ms, response, c.ps.settings.reply, c.ps.nread, x) && x < MAX_HEADER_SIZE
    requires MayCome(last, response, c.ps.settings.reply, CarriedBy(ms, c.ps.nread), x)
    ensures var m, w := Run(c, MessagesText(ms)), MessagesText(ms) + MessageText(last);
            && m.Go? && m.ps.line == LineAfter(c.ps.line, ms) && m.ps.settings == c.ps.settings
            && m.ps.kind == c.ps.kind && m.tr == c.tr + AllMessageEvents(ms, c.ps.line, c.ps.settings.reply)
            && Over(Run(c, w), m, last, Carried(last.content)) && Room(c, w, x)
  {
    hide Run, Follow, KeptAlive, Switches, MessageText, Room, Over, Suits, ValidHead, Contradicts, HeadText, EndsWithData;
    RunMessages(c, ms, response, x);
    MessagesHaveRoom(c, ms, response, x);
    var m := Run(c, MessagesText(ms));
    MessageHasRoom(m, last, response, x);
    RoomJoins(c, MessagesText(ms), MessageText(last), x);
    LessRoomNeeded(last, response, c.ps.settings.reply, m.ps.nread, x);
    RunMessage(m, last);
    RunConcat(c, MessagesText(ms), MessageText(last));
  }

  // Exchange under any buffers, from a fresh parser: messages that are kept
  // alive, and one more of any kind behind them.
  lemma BufferedExchange(response: bool, settings: Settings, ms: seq<Message>, last: Message, ds: seq<seq<Octet>>)
    requires Follow(ms, response, settings.reply, 0, |ds| + 1)
    requires MayCome(last, response, settings.reply, CarriedBy(ms, 0), |ds| + 1)
    requires (forall i :: 0 <= i < |ds| ==> ds[i] != []) && Concat(ds) == MessagesText(ms) + MessageText(last)
    ensures var ps, reply := Init(KindOf(response), settings), settings.reply;
            var c, line := Feed(ps, [], ds), LineSaid(last.head.start, LineAfter(ps.line, ms));
            && (if Switches(last.head, reply) then c.Left? else c.Go?)
            && c.tr == AllMessageEvents(ms, ps.line, reply) + MessageEvents(last, line, reply)
            && c.ps.state == Starting(if !KeptAlive(last.head, reply) then StartingState.Dead
                                      else if response then StartRes else StartReq)
  {
    hide Run, Follow, KeptAlive, Switches, MessageText, MessagesText, Room, MessageEvents, AllMessageEvents, Concat, Feed,
         CleanValues, LineSaid, LineAfter, Resting, EndsWithData, Suits, ValidHead, Contradicts;
    var ps, reply := Init(KindOf(response), settings), settings.reply;
    var c, x := Begin(ps, []), |ds| + 1;
    FreshIsBetween(response, settings);
    assert x < MAX_HEADER_SIZE && Carried(last.content) + x <= MAX_HEADER_SIZE by { RoomLeft(last, response, reply, CarriedBy(ms, 0), x); }
    RunExchange(c, ms, last, response, x);
    LessRoom(c, Concat(ds), x, |ds|);
    MessagesAreClean(ms, response, ps.line, reply, 0, x);
    MessageIsClean(last, response, LineSaid(last.head.start, LineAfter(ps.line, ms)), reply, CarriedBy(ms, 0), x);
    var shown := MessageEvents(last, LineSaid(last.head.start, LineAfter(ps.line, ms)), reply);
    CleanConcat(AllMessageEvents(ms, ps.line, reply), shown);
    assert [] + AllMessageEvents(ms, ps.line, reply) == AllMessageEvents(ms, ps.line, reply);
    CleanCalls(ps, [], ds);
  }

  lemma RoomLeft(m: Message, response: bool, reply: int, n: nat, x: nat)
    requires MayCome(m, response, reply, n, x)
    ensures x < MAX_HEADER_SIZE && Carried(m.content) + x <= MAX_HEADER_SIZE
  {
    hide Suits, Contradicts, ValidStart, ValidLines, StartText, LinesText;
    assert |HeadText(m.head)| > 0;
    if m.content.Chunks? {
      HttpTrailer.TrailerFits(m.content.body, x);
    }
  }

  // ----- A response that ends with the stream

  lemma RestHasRoom(a: Config, b: seq<Octet>, x: nat)
    requires a.Go? && a.lane.Outer? && a.ps.state == InPayload(BodyIdentityEof) && a.ps.nread == 0 && x < MAX_HEADER_SIZE
    ensures Room(a, b, x)
  {
    hide Run;
    forall k | 0 <= k < |b| ensures Run(a, b[..k]).Go? && Run(a, b[..k]).ps.nread + x < MAX_HEADER_SIZE {
      if k == 0 {
        assert b[..0] == b[0..0];
        RunNothing(a, b, 0);
      } else {
        RunBody(a.ps, a.tr, a.pos, b[..k]);
      }
    }
  }

  // A response whose body goes on to the end of the stream, and leaves `x` bytes of the budget
  ghost predicate MayGoOn(m: Message, reply: int, x: nat) {
    && m.content.Rest? && ValidHead(m.head) && !Contradicts(m.head) && SuitsRest(m.head, reply)
    && |HeadText(m.head)| + x <= MAX_HEADER_SIZE
  }

  lemma UnendedFits(m: Message, settings: Settings, x: nat)
    requires MayGoOn(m, settings.reply, x)
    ensures var c := Begin(Init(ParserType.Response, settings), []);
            Fits(c, m.head) && c.ps.nread == 0 && settings.reply == 0 && !Connects(m.head) && x < MAX_HEADER_SIZE
  {
    hide ValidStart, ValidLines, Contradicts, StartText, LinesText, SuitsRest, Resting;
    RestIsPlain(m.head, settings.reply);
    FreshIsBetween(true, settings);
    assert |HeadText(m.head)| > 0;
  }

  lemma UnendedHasRoom(m: Message, settings: Settings, x: nat)
    requires MayGoOn(m, settings.reply, x)
    ensures Room(Begin(Init(ParserType.Response, settings), []), MessageText(m), x)
  {
    hide Run, Fits, ValidHead, HeadText, HeadCallbacks, LineSaid, Room, Contradicts, SuitsRest, Above, Settle, Connects;
    var c, h := Begin(Init(ParserType.Response, settings), []), m.head;
    UnendedFits(m, settings, x);
    HeadHasRoom(c, h, x);
    RunHeadOfBody(c, h);
    RestHasRoom(BodyConfig(c, h, InPayload(BodyIdentityEof)), m.content.bytes, x);
    RoomJoins(c, HeadText(h), m.content.bytes, x);
  }

  lemma UnendedIsClean(m: Message, line: StartLine, reply: int, x: nat)
    requires MayGoOn(m, reply, x)
    ensures CleanValues(HeadCallbacks(m.head, line) + ContentEvents(m.content))
  {
    hide CleanValues, StartEvents, LineEvents, ContentEvents, LengthSaid, Upgrades, Contradicts, HeadText, ValidStart, ValidLines,
         SuitsRest;
    var h := m.head;
    LinesAreClean(h.lines);
    ContentIsClean(m.content);
    OthersAreClean(h.start, line, Upgrades(h), LengthSaid(h.lines), false);
    CleanConcat(StartEvents(h.start), LineEvents(h.lines));
    CleanConcat(StartEvents(h.start) + LineEvents(h.lines), [HeadersComplete(line, Upgrades(h), LengthSaid(h.lines))]);
    CleanConcat(HeadCallbacks(h, line), ContentEvents(m.content));
  }

  // Under any buffers, what has come of the body has been reported, and the parser waits for more.
  lemma BufferedUnended(settings: Settings, m: Message, ds: seq<seq<Octet>>)
    requires MayGoOn(m, settings.reply, |ds| + 1)
    requires (forall i :: 0 <= i < |ds| ==> ds[i] != []) && Concat(ds) == MessageText(m)
    ensures var ps := Init(ParserType.Response, settings);
            var c := Feed(ps, [], ds);
            && c.Go? && c.ps.state == InPayload(BodyIdentityEof) && !ShouldKeepAlive(c.ps)
            && c.tr == HeadCallbacks(m.head, LineSaid(m.head.start, ps.line)) + ContentEvents(m.content)
  {
    hide Run, Fits, MessageText, Room, HeadCallbacks, ContentEvents, Concat, Feed, CleanValues, LineSaid, Resting, MayGoOn,
         ShouldKeepAlive, SuitsRest;
    var ps, x := Init(ParserType.Response, settings), |ds| + 1;
    var c := Begin(ps, []);
    FreshIsBetween(true, settings);
    UnendedFits(m, settings, x);
    assert m.content.Rest? && SuitsRest(m.head, settings.reply) by { GoesOn(m, settings.reply, x); }
    RunUnended(c, m);
    var d := Run(c, MessageText(m));
    UnendedHasRoom(m, settings, x);
    LessRoom(c, MessageText(m), x, |ds|);
    UnendedIsClean(m, LineSaid(m.head.start, ps.line), settings.reply, x);
    var shown := HeadCallbacks(m.head, LineSaid(m.head.start, ps.line)) + ContentEvents(m.content);
    assert [] + shown == shown;
    CleanCalls(ps, [], ds);
    AliveWithMore(d.ps, Feed(ps, [], ds).ps);
  }

  lemma GoesOn(m: Message, reply: int, x: nat)
    requires MayGoOn(m, reply, x)
    ensures m.content.Rest? && SuitsRest(m.head, reply)
  {
    hide ValidHead, Contradicts, HeadText, SuitsRest;
  }

  lemma AliveWithMore(ps: Parser, ps': Parser)
    requires ps' == ps.(nread := ps'.nread)
    ensures ShouldKeepAlive(ps') == ShouldKeepAlive(ps)
  {
  }
}
