// The parser as it is used: one object, and buffers as they arrive.
module HttpDriver {
  import opened HttpChars
  import opened HttpTypes
  import opened HttpMachine
  import opened HttpInvariant
  import opened HttpGrammar
  import opened HttpChunked
  import opened HttpBudget
  import opened HttpRequest
  import opened HttpRoundTrip
  import opened HttpParser
  import opened HttpLines
  import opened HttpHead
  import opened HttpMessage
  import opened HttpExchange

  // What an object is like when it has been fed what took the machine to `c`
  ghost predicate HasFed(p: HttpParser, c: Config)
    reads p
  {
    if c.Bad? then !p.errno.NoError? else p.errno.NoError? && p.Fields() == c.ps && Join(p.calls) == c.tr
  }

  predicate Buffers(ds: seq<seq<Octet>>) {
    forall i :: 0 <= i < |ds| ==> 0 < |ds[i]| < 0x8000_0000
  }

  // One buffer after the other, until one fails
  method FeedAll(p: HttpParser, ds: seq<seq<Octet>>)
    requires p.Valid() && p.errno.NoError? && Buffers(ds)
    modifies p
    ensures p.Valid() && HasFed(p, Feed(old(p.Fields()), Join(old(p.calls)), ds))
  {
    hide Call, Resting, TraceOk, Join;
    ghost var ps, tr := p.Fields(), Join(p.calls);
    var i := 0;
    while i < |ds| && p.errno == NoError
      invariant 0 <= i <= |ds| && p.Valid() && HasFed(p, Feed(ps, tr, ds[..i]))
    {
      ghost var c := Feed(ps, tr, ds[..i]);
      assert ds[..i + 1][..i] == ds[..i];
      var n := p.Execute(ds[i]);
      i := i + 1;
    }
    if i < |ds| {
      StaysFailed(ps, tr, ds, i);
    }
    assert ds[..|ds|] == ds;
  }

  lemma {:induction false} StaysFailed(ps: Parser, tr: seq<Event>, ds: seq<seq<Octet>>, i: nat)
    requires i <= |ds| && Feed(ps, tr, ds[..i]).Bad?
    ensures Feed(ps, tr, ds).Bad?
    decreases |ds| - i
  {
    hide Call;
    if i == |ds| {
      assert ds[..i] == ds;
    } else {
      assert ds[..i + 1][..i] == ds[..i];
      StaysFailed(ps, tr, ds, i + 1);
    }
  }

  // A fresh parser keeps to the grammar of callbacks and to its budget.
  method FeedFresh(settings: Settings, ds: seq<seq<Octet>>) returns (p: HttpParser)
    requires Buffers(ds)
    ensures fresh(p) && p.Valid() && HasFed(p, Feed(Init(ParserType.Request, settings), [], ds))
    ensures p.errno.NoError? ==>
              var a := AccountFeed(Init(ParserType.Request, settings), [], ds);
              && !PhaseOf(Join(p.calls)).Rejected? && p.nread == a.bytes + a.inside <= MAX_HEADER_SIZE
  {
    hide Feed, AccountFeed, PhaseOf, Matches, Resting;
    p := new HttpParser(ParserType.Request, settings);
    FeedAll(p, ds);
    CallbackProtocol(settings, ds);
    HeaderBudget(ParserType.Request, settings, ds);
  }

  // Printed requests come back from the object's callbacks, whatever the buffers.
  method FeedRequests(lenient: bool, ghost rs: seq<Request>, ds: seq<seq<Octet>>) returns (p: HttpParser)
    requires Buffers(ds) && Concat(ds) == PrintAll(rs) && ValidRequests(rs, |ds|) && |ds| < MAX_HEADER_SIZE
    ensures fresh(p) && p.errno.NoError? && Join(p.calls) == AllEvents(rs, 0)
  {
    hide Feed, Concat, PrintAll, AllEvents, ValidRequests, Resting;
    p := new HttpParser(ParserType.Request, Settings(lenient, 0));
    FeedAll(p, ds);
    BufferedRoundTrip(lenient, rs, ds);
  }

  // Messages that follow each other, and one more, from the bytes to the callbacks
  method FeedExchange(response: bool, settings: Settings, ghost ms: seq<Message>, ghost last: Message, ds: seq<seq<Octet>>)
    returns (p: HttpParser)
    requires Buffers(ds) && Concat(ds) == MessagesText(ms) + MessageText(last)
    requires Follow(ms, response, settings.reply, 0, |ds| + 1)
    requires MayCome(last, response, settings.reply, CarriedBy(ms, 0), |ds| + 1)
    ensures fresh(p) && p.Valid() && p.errno.NoError?
    ensures var line := LineSaid(last.head.start, LineAfter(NO_LINE, ms));
            Join(p.calls) == AllMessageEvents(ms, NO_LINE, settings.reply) + MessageEvents(last, line, settings.reply)
    ensures p.state == Starting(if !KeptAlive(last.head, settings.reply) then StartingState.Dead
                                else if response then StartRes else StartReq)
  {
    hide Feed, Concat, MessagesText, MessageText, Follow, MayCome, KeptAlive, AllMessageEvents, MessageEvents, Resting, LineSaid,
         LineAfter, Switches;
    p := new HttpParser(KindOf(response), settings);
    FeedAll(p, ds);
    BufferedExchange(response, settings, ms, last, ds);
  }

  const NO_LINE := StartLine(0, 0, 0, DELETE)

  // A handshake, and bytes of the other protocol behind it in the same buffer:
  // the call takes the handshake and no more.
  method Handshake(settings: Settings, ghost m: Message, data: seq<Octet>, ghost rest: seq<Octet>)
    returns (p: HttpParser, nparsed: nat)
    requires MayCome(m, false, settings.reply, 0, 1) && Switches(m.head, settings.reply)
    requires data == MessageText(m) + rest && |data| < 0x8000_0000
    ensures fresh(p) && p.errno.NoError? && nparsed == |MessageText(m)|
    ensures Join(p.calls) == MessageEvents(m, LineSaid(m.head.start, NO_LINE), settings.reply)
  {
    hide MessageText, MayCome, MessageEvents, Resting, LineSaid, Switches, Run;
    p := new HttpParser(ParserType.Request, settings);
    FreshIsBetween(false, settings);
    MessageIsThere(m, settings.reply);
    LessRoomNeeded(m, false, settings.reply, 0, 1);
    MayStand(Begin(Init(ParserType.Request, settings), []), m, false);
    RestIsLeft(Begin(Init(ParserType.Request, settings), []), m, rest);
    nparsed := p.Execute(data);
    var events := MessageEvents(m, LineSaid(m.head.start, NO_LINE), settings.reply);
    assert [] + events == events;
  }

  lemma MessageIsThere(m: Message, reply: int)
    requires MayCome(m, false, reply, 0, 1)
    ensures MessageText(m) != []
  {
    hide Suits, Contradicts, ValidStart, ValidLines, StartText, LinesText, ContentText;
  }

  lemma MayStand(c: Config, m: Message, response: bool)
    requires BetweenMessages(c, response) && MayCome(m, response, c.ps.settings.reply, c.ps.nread, 0)
    ensures Fits(c, m.head) && Suits(m, c.ps.settings.reply) && !m.content.Rest?
  {
    hide Suits, Contradicts, ValidHead, HeadText, EndsWithData;
  }

  // A response that ends with the stream: the end completes it, and the
  // application is told that the connection is not kept.
  method FeedToEnd(settings: Settings, ghost m: Message, ds: seq<seq<Octet>>) returns (p: HttpParser)
    requires Buffers(ds) && Concat(ds) == MessageText(m) && MayGoOn(m, settings.reply, |ds| + 1)
    ensures fresh(p) && p.errno.NoError?
    ensures Join(p.calls) ==
            HeadCallbacks(m.head, LineSaid(m.head.start, NO_LINE)) + ContentEvents(m.content) + [MessageComplete(false)]
  {
    hide Feed, Concat, MessageText, MayGoOn, HeadCallbacks, ContentEvents, Resting, LineSaid;
    p := new HttpParser(ParserType.Response, settings);
    FeedAll(p, ds);
    BufferedUnended(settings, m, ds);
    var n := p.Execute([]);
  }

  // The end of the stream between two messages, and in the middle of one
  lemma EndsBetween(ps: Parser, tr: seq<Event>)
    requires Matches(ps, tr) && ps.kind.Request?
    ensures EofIn(ps.state).Expected? <==> PhaseOf(tr).Between? || PhaseOf(tr).Closed?
    ensures !EofIn(ps.state).Completes?
  {
    hide PhaseOf, EndsWithData;
  }

  // Whatever was received, the end of the stream is an error exactly in the
  // middle of a message, and makes no callback.
  method FeedAndEnd(settings: Settings, ds: seq<seq<Octet>>) returns (p: HttpParser)
    requires Buffers(ds)
    ensures fresh(p)
    ensures var c := Feed(Init(ParserType.Request, settings), [], ds);
            !c.Bad? ==>
              && Join(p.calls) == c.tr
              && (p.errno.NoError? <==> PhaseOf(c.tr).Between? || PhaseOf(c.tr).Closed?)
              && (!p.errno.NoError? ==> p.errno.InvalidEofState?)
  {
    hide Feed, PhaseOf, Matches, Resting;
    p := FeedFresh(settings, ds);
    CallbackProtocol(settings, ds);
    if p.errno == NoError {
      EndsBetween(p.Fields(), Join(p.calls));
      var n := p.Execute([]);
    }
  }
}
