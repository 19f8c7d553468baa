// Three messages byte by byte: a chunked request, a request that closes the
// connection, and the handshake of a web socket.
module HttpExamples {
  import opened HttpChars
  import opened HttpTypes
  import opened HttpMachine
  import opened HttpBulk
  import opened HttpInvariant
  import opened HttpNames
  import opened HttpLengths
  import opened HttpChunked
  import opened HttpRequest
  import opened HttpLines
  import opened HttpHead
  import opened HttpMessage
  import opened HttpExchange
  import HttpOptions
  import HttpTrailer

  // ----- Names and values

  // `low` is `w` in lower case.
  predicate LowersTo(w: seq<Octet>, low: seq<Octet>) {
    |w| == |low| && forall k :: 0 <= k < |w| ==> Token(w[k]) == low[k] && Token(w[k]) != NUL
  }

  lemma CalledSo(w: seq<Octet>, low: seq<Octet>)
    requires LowersTo(w, low)
    ensures Lowered(w) == low && (w != [] ==> IsName(w))
  {
    hide Lowered, Token;
    forall k | 0 <= k < |w| ensures Lowered(w)[k] == low[k] {
      LoweredAt(w, k);
    }
  }

  // A value of small letters only
  lemma SmallLetters(v: seq<Octet>)
    requires v != [] && forall k :: 0 <= k < |v| ==> 'a' <= v[k] <= 'z'
    ensures HttpOptions.LegalValue(v) && HttpOptions.Lowers(v) == v
  {
    hide IsHeaderChar, HttpOptions.Lowers;
    forall k | 0 <= k < |v| ensures IsHeaderChar(v[k]) && v[k] != CR && v[k] != LF {
      SmallIsLegal(v[k]);
    }
    assert 'a' <= v[0] <= 'z';
    HttpOptions.LowersSame(v);
  }

  lemma SmallIsLegal(ch: Octet)
    requires 'a' <= ch <= 'z'
    ensures IsHeaderChar(ch)
  {
  }

  // A value without a comma that names an option gets it through.
  lemma OneGetsThrough(v: seq<Octet>, o: HeaderState)
    requires (forall k :: 0 <= k < |v| ==> v[k] != ',' && v[k] != TAB) && HttpOptions.NamedIn(v) == o
    ensures HttpOptions.GetsThrough(HttpOptions.Pieces(v), o)
  {
    hide HttpOptions.NamedIn;
    OnePiece(v);
    var ps := HttpOptions.Pieces(v);
    assert ps[..0] == [] && ps[0] == v;
  }

  lemma {:induction false} OnePiece(v: seq<Octet>)
    requires forall k :: 0 <= k < |v| ==> v[k] != ','
    ensures HttpOptions.Pieces(v) == [v]
  {
    if v != [] {
      OnePiece(v[..|v| - 1]);
      assert v[..|v| - 1] + [v[|v| - 1]] == v;
    }
  }

  // ----- A chunked request

  const POST_HEAD := Head(RequestLine([], POST, " ", "/", Numbered(" ", "1", "1"), CRLF),
                          [Line("Transfer-Encoding", " ", "chunked", CRLF)], CRLF)

  const HELLO := Message(POST_HEAD, Chunks(HttpTrailer.Body([Chunk("5", [], "hello")], "0", [], [])))

  lemma OneLineText(l: Line)
    ensures LinesText([l]) == LineText(l) && LineEvents([l]) == [Data(Field, l.name), Data(Value, l.value)]
  {
    hide LineText;
    assert [l][..0] == [];
  }

  lemma HelloText()
    ensures MessageText(HELLO) ==
            "POST / HTTP/1.1\r\n" + "Transfer-Encoding: chunked\r\n" + "\r\n" + "5\r\nhello\r\n0\r\n\r\n"
  {
    hide StartText, LinesText, HttpTrailer.EncodeBody;
    PostStart();
    PostLine();
    HelloBody();
    assert CRLF == "\r\n";
  }

  lemma PostStart()
    ensures StartText(POST_HEAD.start) == "POST / HTTP/1.1\r\n"
  {
    assert VersionText(Numbered(" ", "1", "1")) == " HTTP/1.1";
    assert MethodName(POST) + [' '] == "POST ";
    hide VersionText, MethodName;
    var nothing: seq<Octet> := [];
    assert nothing + (MethodName(POST) + [' ']) == "POST ";
  }

  lemma PostLine()
    ensures LinesText(POST_HEAD.lines) == "Transfer-Encoding: chunked\r\n"
  {
    OneLineText(POST_HEAD.lines[0]);
    assert POST_HEAD.lines == [POST_HEAD.lines[0]];
  }

  lemma HelloBody()
    ensures HttpTrailer.EncodeBody(HELLO.content.body) == "5\r\nhello\r\n0\r\n\r\n"
  {
    var c := Chunk("5", [], "hello");
    assert [c][..0] == [] && EncodeChunks([c][..0]) == [];
    assert EncodeChunk(c) == "5\r\nhello\r\n";
    assert HttpTrailer.SizeLine("0", []) == "0\r\n";
    assert HeadersText([]) == [];
    hide EncodeChunk, HttpTrailer.SizeLine;
    assert EncodeChunks([c]) == EncodeChunk(c);
  }

  lemma SlashIsTarget()
    ensures ValidTarget(false, "/")
  {
  }

  lemma OneIsNumber()
    ensures ValidNumber("1") && DecimalValue("1") == 1
  {
    assert "1"[..0] == [] && DecimalValue([]) == 0;
  }

  lemma PostIsValid()
    ensures ValidHead(POST_HEAD) && Called(POST_HEAD.lines[0], TRANSFER_ENCODING)
    ensures HttpOptions.IsWord(POST_HEAD.lines[0].value, HttpOptions.CHUNKED_CODING)
  {
    hide Lowered, HttpOptions.LegalValue, HttpOptions.Lowers, ValidTarget, ValidNumber, IsName;
    SlashIsTarget();
    OneIsNumber();
    var l := POST_HEAD.lines[0];
    assert LowersTo(l.name, TRANSFER_ENCODING);
    CalledSo(l.name, TRANSFER_ENCODING);
    SmallLetters(l.value);
    NamesDiffer();
    assert l.value[..7] == l.value;
  }

  // What the lines of a head with one line say
  lemma OneLineSays(ls: seq<Line>)
    requires |ls| == 1
    ensures SaysLength(ls) <==> GivesLength(ls[0])
    ensures forall o :: Asks(ls, o) <==> ForConnection(ls[0]) && HttpOptions.GetsThrough(HttpOptions.Pieces(ls[0].value), o)
    ensures SaysChunked(ls) <==>
            Called(ls[0], TRANSFER_ENCODING) && HttpOptions.IsWord(ls[0].value, HttpOptions.CHUNKED_CODING)
    ensures SaysUpgrade(ls) <==> Called(ls[0], UPGRADE) && ls[0].value != []
  {
    hide Lowered, HttpOptions.GetsThrough, HttpOptions.Pieces, HttpOptions.IsWord, GivesLength, ForConnection;
  }

  lemma HelloIsBody()
    ensures HttpTrailer.ValidBody(HELLO.content.body, 2)
  {
    assert "5"[..0] == [] && HexValue([]) == 0 && HexValue("5") == 5;
    assert "0"[..0] == [] && HexValue("0") == 0;
    assert HeadersText([]) == [];
  }

  // "hello" is delivered, and the parser is ready for the next request.
  lemma HelloIsDelivered()
    ensures var c := Begin(Init(ParserType.Request, Settings(false, 0)), []);
            var d := Run(c, MessageText(HELLO));
            && d.Go? && d.ps.state == Starting(StartReq)
            && d.tr ==
               [MessageBegin, Data(UrlData, "/"), Data(Field, "Transfer-Encoding"), Data(Value, "chunked"),
                HeadersComplete(StartLine(1, 1, 0, POST), false, ULLONG_MAX),
                ChunkHeader(5), Data(DataKind.Body, "hello"), ChunkComplete, ChunkHeader(0), ChunkComplete,
                MessageComplete(true)]
  {
    hide Run, ValidHead, HeadText, Lowered, HttpOptions.IsWord, HttpTrailer.ValidBody, Asks, SaysLength, SaysChunked, SaysUpgrade,
         Resting;
    var c := Begin(Init(ParserType.Request, Settings(false, 0)), []);
    FreshIsBetween(false, Settings(false, 0));
    PostIsValid();
    OneLineSays(POST_HEAD.lines);
    NamesDiffer();
    HelloIsBody();
    HttpTrailer.FitsLess(HELLO.content.body, 2);
    HelloText();
    assert |HeadText(POST_HEAD)| <= 100 by { HeadIsShort(); }
    RunMessage(c, HELLO);
    HelloEvents();
  }

  lemma HeadIsShort()
    ensures |HeadText(POST_HEAD)| <= 100
  {
    hide StartText, LinesText;
    PostStart();
    PostLine();
  }

  lemma HelloEvents()
    ensures !Switches(POST_HEAD, 0) && KeptAlive(POST_HEAD, 0)
    ensures MessageEvents(HELLO, LineSaid(POST_HEAD.start, StartLine(0, 0, 0, DELETE)), 0) ==
            [MessageBegin, Data(UrlData, "/"), Data(Field, "Transfer-Encoding"), Data(Value, "chunked"),
             HeadersComplete(StartLine(1, 1, 0, POST), false, ULLONG_MAX),
             ChunkHeader(5), Data(DataKind.Body, "hello"), ChunkComplete, ChunkHeader(0), ChunkComplete,
             MessageComplete(true)]
  {
    hide Lowered, HttpOptions.IsWord, Asks, SaysLength, SaysChunked, SaysUpgrade, DecimalValue;
    OneIsNumber();
    PostIsValid();
    OneLineSays(POST_HEAD.lines);
    NamesDiffer();
    OneLineText(POST_HEAD.lines[0]);
    assert POST_HEAD.lines == [POST_HEAD.lines[0]];
    var c := Chunk("5", [], "hello");
    assert [c][..0] == [] && ChunkEvents([c]) == [ChunkHeader(5), Data(DataKind.Body, "hello"), ChunkComplete];
    assert HeaderEvents([]) == [];
    assert LengthSaid(POST_HEAD.lines) == ULLONG_MAX;
  }

  // ----- A request that closes the connection

  const GET_LINE := RequestLine([], GET, " ", "/", Numbered(" ", "1", "1"), CRLF)

  const CLOSE_HEAD := Head(GET_LINE, [Line("Connection", " ", "close", CRLF)], CRLF)

  lemma CloseIsValid()
    ensures ValidHead(CLOSE_HEAD) && Called(CLOSE_HEAD.lines[0], CONNECTION)
    ensures HttpOptions.GetsThrough(HttpOptions.Pieces("close"), ConnectionClose)
    ensures |HeadText(CLOSE_HEAD)| <= 100
  {
    hide Lowered, HttpOptions.LegalValue, HttpOptions.Lowers, ValidTarget, ValidNumber, IsName, HttpOptions.Pieces,
         HttpOptions.GetsThrough, HttpOptions.NamedIn;
    SlashIsTarget();
    OneIsNumber();
    var l := CLOSE_HEAD.lines[0];
    assert LowersTo(l.name, CONNECTION);
    CalledSo(l.name, CONNECTION);
    SmallLetters(l.value);
    NamesDiffer();
    HttpOptions.CloseIsNamed();
    OneGetsThrough("close", ConnectionClose);
    OneLineText(l);
    assert CLOSE_HEAD.lines == [l];
    assert |MethodName(GET)| == 3;
  }

  // The application is told that the connection is closed, and a second
  // request behind the first is refused at its first letter.
  lemma SecondIsRefused(rest: seq<Octet>)
    ensures var c, m := Begin(Init(ParserType.Request, Settings(false, 0)), []), Message(CLOSE_HEAD, Content.Nothing);
            var d := Run(c, MessageText(m));
            && d.Go? && d.tr != [] && d.tr[|d.tr| - 1] == MessageComplete(false)
            && Run(c, MessageText(m) + (['G'] + rest)) == Bad(ClosedConnection, |MessageText(m)|)
  {
    hide Run, ValidHead, HeadText, Lowered, HttpOptions.Pieces, HttpOptions.GetsThrough, Asks, SaysLength, SaysChunked, SaysUpgrade,
         Resting;
    var c, m := Begin(Init(ParserType.Request, Settings(false, 0)), []), Message(CLOSE_HEAD, Content.Nothing);
    FreshIsBetween(false, Settings(false, 0));
    CloseIsValid();
    OneLineSays(CLOSE_HEAD.lines);
    NamesDiffer();
    ClosingOptions();
    OneIsNumber();
    RunMessage(c, m);
    ConnectionKept(c, m, [], 'G', rest);
    assert [] + ['G'] + rest == ['G'] + rest;
  }

  lemma ClosingOptions()
    ensures !HttpOptions.GetsThrough(HttpOptions.Pieces("close"), ConnectionUpgrade)
  {
    hide HttpOptions.NamedIn;
    HttpOptions.CloseIsNamed();
    OnePiece("close");
  }

  // ----- The handshake of a web socket

  const SOCKET_HEAD :=
    Head(GET_LINE, [Line("Connection", " ", "upgrade", CRLF), Line("Upgrade", " ", "websocket", CRLF)], CRLF)

  lemma SocketIsValid()
    ensures ValidHead(SOCKET_HEAD) && Called(SOCKET_HEAD.lines[0], CONNECTION) && Called(SOCKET_HEAD.lines[1], UPGRADE)
    ensures HttpOptions.GetsThrough(HttpOptions.Pieces("upgrade"), ConnectionUpgrade)
    ensures |HeadText(SOCKET_HEAD)| <= 100
  {
    hide Lowered, HttpOptions.LegalValue, HttpOptions.Lowers, ValidTarget, ValidNumber, IsName, HttpOptions.Pieces,
         HttpOptions.GetsThrough, HttpOptions.NamedIn, HttpOptions.TrimLeft, HttpOptions.TrimRight, LineText, StartText;
    SlashIsTarget();
    OneIsNumber();
    var k, l := SOCKET_HEAD.lines[0], SOCKET_HEAD.lines[1];
    assert LowersTo(k.name, CONNECTION) && LowersTo(l.name, UPGRADE);
    CalledSo(k.name, CONNECTION);
    CalledSo(l.name, UPGRADE);
    SmallLetters(k.value);
    SmallLetters(l.value);
    NamesDiffer();
    UpgradeIsNamed();
    OneGetsThrough("upgrade", ConnectionUpgrade);
    assert SOCKET_HEAD.lines[..1] == [k];
    OneLineText(k);
    LinesAreShort();
  }

  lemma LinesAreShort()
    ensures |LineText(SOCKET_HEAD.lines[0])| <= 30 && |LineText(SOCKET_HEAD.lines[1])| <= 30 && |StartText(GET_LINE)| <= 30
  {
    assert |MethodName(GET)| == 3;
  }

  lemma UpgradeIsNamed()
    ensures HttpOptions.NamedIn("upgrade") == ConnectionUpgrade
  {
    hide HttpOptions.Lowers, HttpOptions.TrimLeft, HttpOptions.TrimRight;
    var w: seq<Octet> := "upgrade";
    HttpOptions.BlanksAreTrimmed(w);
    HttpOptions.LowersSame(w);
    HttpOptions.OptionLetters();
  }

  // The call returns behind the blank line, whatever frames of the web socket follow.
  lemma FramesAreLeft(rest: seq<Octet>)
    ensures var c, m := Begin(Init(ParserType.Request, Settings(false, 0)), []), Message(SOCKET_HEAD, Content.Nothing);
            var d := Run(c, MessageText(m) + rest);
            d.Left? && d.pos == |MessageText(m)|
  {
    hide Run, ValidHead, HeadText, Lowered, HttpOptions.Pieces, HttpOptions.GetsThrough, SaysLength, SaysChunked, Resting;
    var c, m := Begin(Init(ParserType.Request, Settings(false, 0)), []), Message(SOCKET_HEAD, Content.Nothing);
    FreshIsBetween(false, Settings(false, 0));
    SocketIsValid();
    NamesDiffer();
    NoLengthNorCoding();
    RestIsLeft(c, m, rest);
  }

  lemma NoLengthNorCoding()
    ensures !SaysLength(SOCKET_HEAD.lines) && !SaysChunked(SOCKET_HEAD.lines)
  {
    hide Lowered, ValidHead, HeadText, HttpOptions.GetsThrough, HttpOptions.Pieces, HttpOptions.IsWord;
    SocketIsValid();
    NamesDiffer();
  }
}
