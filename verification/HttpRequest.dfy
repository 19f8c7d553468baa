// Requests in the format of section 3 of RFC 7230: printed, then parsed.
module HttpRequest {
  import opened HttpChars
  import opened HttpTypes
  import opened HttpMachine
  import opened HttpBulk
  import opened HttpInvariant
  import opened HttpMethod
  import opened HttpLengths
  import opened HttpNames

  datatype Header = Header(name: seq<Octet>, value: seq<Octet>)

  // How the body is sent
  datatype Payload = Absent | Announced(bytes: seq<Octet>)

  datatype Request = Request(meth: Method, url: seq<Octet>, headers: seq<Header>, payload: Payload)

  // ----- What may be sent

  // Where parse_url_char is after the whole of `w`.
  function UrlAfter(w: seq<Octet>): UrlResult
    requires w != []
  {
    if |w| == 1 then FirstUrlChar(w[0])
    else
      match UrlAfter(w[..|w| - 1])
      case UrlDead => UrlDead
      case UrlNext(s) => UrlChar(s, w[|w| - 1])
  }

  predicate ValidUrl(w: seq<Octet>) {
    w != [] && UrlAfter(w).UrlNext? && !BeforeHost(UrlAfter(w).state)
  }

  // A name to which the parser gives no meaning
  predicate PlainName(w: seq<Octet>) {
    IsName(w) &&
    var l := Lowered(w);
    l != CONNECTION && l != PROXY_CONNECTION && l != CONTENT_LENGTH && l != TRANSFER_ENCODING && l != UPGRADE
  }

  predicate PlainValue(v: seq<Octet>) {
    v != [] && v[0] != ' ' && v[0] != TAB && NoLineEnd(v) && forall k :: 0 <= k < |v| ==> IsHeaderChar(v[k])
  }

  predicate ValidHeaders(hs: seq<Header>) {
    forall i :: 0 <= i < |hs| ==> PlainName(hs[i].name) && PlainValue(hs[i].value)
  }

  predicate ValidRequest(r: Request) {
    && !r.meth.CONNECT? && ValidUrl(r.url) && ValidHeaders(r.headers)
    && (r.payload.Announced? ==> |r.payload.bytes| <= MAX_CONTENT_LENGTH)
    && |Head(r)| <= MAX_HEADER_SIZE
  }

  // A path of URL characters is a URL that may be sent.
  lemma {:induction false} PathIsValidUrl(w: seq<Octet>)
    requires w != [] && w[0] == '/' && forall k :: 0 <= k < |w| ==> IsUrlChar(w[k])
    ensures ValidUrl(w) && UrlAfter(w) == UrlNext(ReqPath)
  {
    if |w| > 1 {
      PathIsValidUrl(w[..|w| - 1]);
      assert IsUrlChar(w[|w| - 1]);
    }
  }

  // ----- Printing

  const HTTP_1_1: seq<Octet> := " HTTP/1.1\r\n"
  const COLON: seq<Octet> := ": "
  const LENGTH_NAME: seq<Octet> := "Content-Length"

  function Decimal(n: nat): seq<Octet> {
    var digit: seq<Octet> := [('0' as int + n % 10) as char];
    if n < 10 then digit else Decimal(n / 10) + digit
  }

  function StartLineText(r: Request): seq<Octet> {
    MethodName(r.meth) + [' '] + r.url + HTTP_1_1
  }

  function HeaderText(h: Header): seq<Octet> {
    h.name + COLON + h.value + CRLF
  }

  function HeadersText(hs: seq<Header>): seq<Octet> {
    if hs == [] then [] else HeadersText(hs[..|hs| - 1]) + HeaderText(hs[|hs| - 1])
  }

  function LengthHeader(p: Payload): seq<Octet> {
    if p.Absent? then [] else HeaderText(Header(LENGTH_NAME, Decimal(|p.bytes|)))
  }

  function Head(r: Request): seq<Octet> {
    StartLineText(r) + HeadersText(r.headers) + LengthHeader(r.payload) + CRLF
  }

  function BodyText(p: Payload): seq<Octet> {
    if p.Absent? then [] else p.bytes
  }

  function Print(r: Request): seq<Octet> {
    Head(r) + BodyText(r.payload)
  }

  function PrintAll(rs: seq<Request>): seq<Octet> {
    if rs == [] then [] else PrintAll(rs[..|rs| - 1]) + Print(rs[|rs| - 1])
  }

  // ----- The callbacks that should be made

  function HeaderEvents(hs: seq<Header>): seq<Event> {
    if hs == [] then []
    else HeaderEvents(hs[..|hs| - 1]) + [Data(Field, hs[|hs| - 1].name), Data(Value, hs[|hs| - 1].value)]
  }

  function AllHeaders(r: Request): seq<Header> {
    r.headers + if r.payload.Absent? then [] else [Header(LENGTH_NAME, Decimal(|r.payload.bytes|))]
  }

  function AnnouncedLength(p: Payload): nat {
    if p.Absent? then ULLONG_MAX else |p.bytes|
  }

  function Events(r: Request, status: nat): seq<Event> {
    [MessageBegin, Data(UrlData, r.url)] + HeaderEvents(AllHeaders(r)) +
    [HeadersComplete(StartLine(1, 1, status, r.meth), false, AnnouncedLength(r.payload))] +
    (if BodyText(r.payload) == [] then [] else [Data(DataKind.Body, BodyText(r.payload))]) +
    [MessageComplete(true)]
  }

  function AllEvents(rs: seq<Request>, status: nat): seq<Event> {
    if rs == [] then [] else AllEvents(rs[..|rs| - 1], status) + Events(rs[|rs| - 1], status)
  }

  // ----- The start line

  lemma StepUrl(c: Config, ch: Octet)
    requires c.Go? && c.lane.Outer? && c.ps.nread < MAX_HEADER_SIZE && !c.ps.line.meth.CONNECT?
    requires c.ps.state.ReqSpacesBeforeUrl? || c.ps.state.InUrl?
    requires ch != ' ' && ch != CR && ch != LF
    ensures var r := if c.ps.state.InUrl? then UrlChar(c.ps.state.url, ch) else FirstUrlChar(ch);
            r.UrlNext? ==>
              Step(c, ch) ==
              Go(c.ps.(state := InUrl(r.state), nread := c.ps.nread + 1), Emit(c.tr, Data(UrlData, [ch])), Outer, c.pos + 1)
  {
    hide Emit, Dispatch, UrlChar, FirstUrlChar;
    StepNext(c.ps, c.tr, c.lane, c.pos, ch);
    DispatchOnce(c.ps.(nread := c.ps.nread + 1), c.tr, c.lane, ch, c.pos);
  }

  lemma UrlBytes(s: UrlState, ch: Octet)
    ensures UrlChar(s, ch).UrlNext? ==> ch != ' ' && ch != CR && ch != LF
    ensures FirstUrlChar(ch).UrlNext? ==> ch != ' ' && ch != CR && ch != LF
  {
  }

  lemma {:induction false} RunUrl(c: Config, w: seq<Octet>)
    requires c.Go? && c.lane.Outer? && c.ps.state.ReqSpacesBeforeUrl? && !c.ps.line.meth.CONNECT?
    requires c.ps.nread + |w| <= MAX_HEADER_SIZE && w != [] && UrlAfter(w).UrlNext?
    ensures Run(c, w) ==
            Go(c.ps.(state := InUrl(UrlAfter(w).state), nread := c.ps.nread + |w|), Emit(c.tr, Data(UrlData, w)), Outer,
               c.pos + |w|)
  {
    hide Step, Emit, UrlChar, FirstUrlChar;
    var init, ch := w[..|w| - 1], w[|w| - 1];
    assert w == init + [ch];
    UrlBytes(if |w| == 1 then ReqPath else UrlAfter(init).state, ch);
    if |w| == 1 {
      assert w == [ch];
      RunOne(c, ch);
      StepUrl(c, ch);
    } else {
      RunUrl(c, init);
      StepUrl(Run(c, init), ch);
      EmitTwice(c.tr, UrlData, init, [ch]);
    }
  }

  // The configuration after `n` bytes of " HTTP/1.1" and a line end
  function VersionConfig(c: Config, n: nat): Config
    requires c.Go? && n <= 11
  {
    var state := match n
      case 0 => c.ps.state
      case 1 => RequestVersion(ReqHttpStart)
      case 2 => RequestVersion(ReqH)
      case 3 => RequestVersion(ReqHT)
      case 4 => RequestVersion(ReqHTT)
      case 5 => RequestVersion(ReqHTTP)
      case 6 => RequestVersion(ReqFirstMajor)
      case 7 => RequestVersion(ReqMajor)
      case 8 => RequestVersion(ReqFirstMinor)
      case 9 => RequestVersion(ReqMinor)
      case 10 => RequestVersion(ReqLineAlmostDone)
      case _ => InHeader(FieldStart);
    var line := if n < 7 then c.ps.line else if n < 9 then c.ps.line.(major := 1) else c.ps.line.(major := 1, minor := 1);
    Go(c.ps.(state := state, line := line, nread := c.ps.nread + n), c.tr, Outer, c.pos + n)
  }

  lemma LookVersion(c: Config, n: nat)
    requires c.Go? && c.ps.state.InUrl? && !BeforeHost(c.ps.state.url) && n < 11
    ensures var r, next := VersionConfig(c, n), VersionConfig(c, n + 1);
            Look(r.ps.(nread := r.ps.nread + 1), r.tr, false, HTTP_1_1[n]) == Next(next.ps, r.tr)
  {
    hide Emit;
  }

  lemma StepVersion(c: Config, n: nat)
    requires c.Go? && c.lane.Outer? && c.ps.state.InUrl? && !BeforeHost(c.ps.state.url)
    requires n < 11 && c.ps.nread + n < MAX_HEADER_SIZE
    ensures Step(VersionConfig(c, n), HTTP_1_1[n]) == VersionConfig(c, n + 1)
  {
    hide Dispatch, Emit, Look;
    var r := VersionConfig(c, n);
    LookVersion(c, n);
    StepNext(r.ps, r.tr, r.lane, r.pos, HTTP_1_1[n]);
    DispatchOnce(r.ps.(nread := r.ps.nread + 1), r.tr, r.lane, HTTP_1_1[n], r.pos);
  }

  lemma {:induction false} RunVersion(c: Config, n: nat)
    requires c.Go? && c.lane.Outer? && c.ps.state.InUrl? && !BeforeHost(c.ps.state.url)
    requires n <= 11 && c.ps.nread + n <= MAX_HEADER_SIZE
    ensures Run(c, HTTP_1_1[..n]) == VersionConfig(c, n)
  {
    hide Step, VersionConfig, HTTP_1_1;
    if n == 0 {
      RunNothing(c, HTTP_1_1, 0);
      assert HTTP_1_1[..0] == HTTP_1_1[0..0];
      VersionStart(c);
    } else {
      VersionLength();
      RunVersion(c, n - 1);
      StepVersion(c, n - 1);
      assert HTTP_1_1[..n] == HTTP_1_1[..n - 1] + [HTTP_1_1[n - 1]];
      RunSnoc(c, HTTP_1_1[..n - 1], HTTP_1_1[n - 1]);
    }
  }

  lemma VersionLength()
    ensures |HTTP_1_1| == 11
  {
  }

  lemma VersionStart(c: Config)
    requires c.Go? && c.lane.Outer?
    ensures VersionConfig(c, 0) == c
  {
  }

  // A request parser between two messages
  predicate AtStart(c: Config) {
    c.Go? && c.lane.Outer? && c.ps.state == Starting(StartReq) && c.ps.kind == ParserType.Request && c.ps.nread == 0
    && c.ps.settings.reply == 0
  }

  // The fields that the start line of a request sets
  function Lined(ps: Parser, m: Method): Parser {
    ps.(flags := NO_FLAGS, contentLength := ULLONG_MAX, line := StartLine(1, 1, ps.line.status, m))
  }

  // A configuration, but for what the header matcher is up to
  predicate Reached(c: Config, ps: Parser, tr: seq<Event>, n: nat, pos: nat) {
    && c.Go? && c.lane.Outer? && c.tr == tr && c.pos == pos
    && c.ps == ps.(nread := n, state := c.ps.state, headerState := c.ps.headerState, index := c.ps.index)
  }

  // The method and the space behind it
  lemma RunMethod(c: Config, m: Method)
    requires AtStart(c) && |MethodName(m)| + 1 <= MAX_HEADER_SIZE
    ensures Run(c, MethodName(m) + [' ']) == MethodConfig(c, m, |MethodName(m)| + 1, ReqSpacesBeforeUrl)
  {
    hide Step, Run, Emit, MethodName, GuessOnTheWay, MethodConfig;
    var name := MethodName(m);
    FirstGuess(m);
    RunName(c, m, |name|);
    GuessAtEnd(m);
    assert name[..|name|] == name;
    StepMethod(c, m, |name|, ' ');
    RunSnoc(c, name, ' ');
  }

  lemma RunStartLine(c: Config, r: Request)
    requires AtStart(c) && ValidRequest(r)
    ensures var w := StartLineText(r);
            var d := Run(c, w);
            && Reached(d, Lined(c.ps, r.meth), Emit(Emit(c.tr, MessageBegin), Data(UrlData, r.url)), |w|, c.pos + |w|)
            && d.ps.state == InHeader(FieldStart)
  {
    hide Step, Run, Emit, MethodName, HTTP_1_1, UrlAfter, ValidHeaders, Head;
    var name := MethodName(r.meth);
    HeadSize(r);
    VersionLength();
    RunMethod(c, r.meth);
    var b := MethodConfig(c, r.meth, |name| + 1, ReqSpacesBeforeUrl);
    RunUrl(b, r.url);
    RunConcat(c, name + [' '], r.url);
    var u := Run(b, r.url);
    RunVersion(u, 11);
    assert HTTP_1_1[..11] == HTTP_1_1;
    RunConcat(c, name + [' '] + r.url, HTTP_1_1);
  }

  lemma HeadSize(r: Request)
    ensures |Head(r)| == |StartLineText(r)| + |HeadersText(r.headers)| + |LengthHeader(r.payload)| + 2
    ensures |StartLineText(r)| == |MethodName(r.meth)| + 1 + |r.url| + 11
  {
    hide MethodName;
  }

  // ----- Header lines

  // A parser at the start of a header line, or of the end of the section.
  predicate AtLine(c: Config) {
    && c.Go? && c.lane.Outer?
    && (c.ps.state == InHeader(FieldStart) ||
        (c.ps.state == InHeader(ValueLws) && NoteOption(c.ps.flags, c.ps.headerState) == c.ps.flags))
  }

  lemma StepLine(c: Config, ch: Octet)
    requires AtLine(c) && c.ps.nread < MAX_HEADER_SIZE && ch != ' ' && ch != TAB
    ensures Step(c, ch) == Dispatch(c.ps.(state := InHeader(FieldStart), nread := c.ps.nread + 1), c.tr, Outer, ch, c.pos)
  {
    hide Emit, Dispatch, NoteOption;
    StepNext(c.ps, c.tr, c.lane, c.pos, ch);
    DispatchOnce(c.ps.(nread := c.ps.nread + 1), c.tr, c.lane, ch, c.pos);
  }

  // The configuration after a name
  function NameConfig(c: Config, w: seq<Octet>): Config
    requires c.Go? && w != []
  {
    Go(c.ps.(state := InHeader(FieldName), headerState := NameState(w).0, index := NameState(w).1,
             nread := c.ps.nread + |w|),
       Emit(c.tr, Data(Field, w)), if |w| == 1 then Outer else Inner, c.pos + |w|)
  }

  lemma StepNameStart(c: Config, ch: Octet)
    requires AtLine(c) && c.ps.nread < MAX_HEADER_SIZE && Token(ch) != NUL
    ensures Step(c, ch) ==
            Go(c.ps.(state := InHeader(FieldName), headerState := FieldInitial(Token(ch)), index := 0, nread := c.ps.nread + 1),
               Emit(c.tr, Data(Field, [ch])), Outer, c.pos + 1)
  {
    hide Emit, Dispatch, Step, Token, FieldInitial;
    SpaceIsNoToken(ch);
    StepLine(c, ch);
    DispatchOnce(c.ps.(state := InHeader(FieldStart), nread := c.ps.nread + 1), c.tr, Outer, ch, c.pos);
  }

  lemma {:induction false} RunFieldName(c: Config, w: seq<Octet>)
    requires AtLine(c) && c.ps.nread + |w| <= MAX_HEADER_SIZE && IsName(w)
    ensures Run(c, w) == NameConfig(c, w)
  {
    hide Step, Emit, Token, FieldMatch, FieldInitial;
    var init, ch := w[..|w| - 1], w[|w| - 1];
    assert w == init + [ch] && Token(ch) != NUL;
    if |w| == 1 {
      assert w == [ch];
      RunOne(c, ch);
      StepNameStart(c, ch);
    } else {
      RunFieldName(c, init);
      var r := NameConfig(c, init);
      StepFieldChar(r.ps, r.tr, r.lane, r.pos, ch);
      EmitTwice(c.tr, Field, init, [ch]);
    }
  }

  // The configuration after a name and the colon and space behind it
  function ColonConfig(c: Config, w: seq<Octet>): Config
    requires c.Go? && w != []
  {
    Go(c.ps.(state := InHeader(ValueDiscardWs), headerState := NameState(w).0, index := NameState(w).1,
             nread := c.ps.nread + |w| + 2),
       Emit(c.tr, Data(Field, w)), Outer, c.pos + |w| + 2)
  }

  // The space behind a colon
  lemma StepSpace(c: Config)
    requires c.Go? && c.lane.Outer? && c.ps.state == InHeader(ValueDiscardWs) && c.ps.nread < MAX_HEADER_SIZE
    ensures Step(c, ' ') == Go(c.ps.(nread := c.ps.nread + 1), c.tr, Outer, c.pos + 1)
  {
    hide Emit, Dispatch;
    StepNext(c.ps, c.tr, c.lane, c.pos, ' ');
    DispatchOnce(c.ps.(nread := c.ps.nread + 1), c.tr, c.lane, ' ', c.pos);
  }

  lemma RunColon(c: Config, w: seq<Octet>)
    requires AtLine(c) && c.ps.nread + |w| + 2 <= MAX_HEADER_SIZE && IsName(w)
    ensures Run(c, w + COLON) == ColonConfig(c, w)
  {
    hide Step, Emit, Dispatch, NameState, Run, IsName, AtLine;
    assert c.Go? && w != [] by { NameIsThere(c, w); }
    RunFieldName(c, w);
    var r := NameConfig(c, w);
    ColonIsNoToken();
    StepFieldEnd(r.ps, r.tr, r.lane, r.pos, ':');
    StepSpace(Step(r, ':'));
    assert w + COLON == w + [':'] + [' '];
    RunSnoc(c, w, ':');
    RunSnoc(c, w + [':'], ' ');
  }

  lemma NameIsThere(c: Config, w: seq<Octet>)
    requires AtLine(c) && IsName(w)
    ensures c.Go? && w != []
  {
  }

  lemma ColonIsNoToken()
    ensures Token(':') == NUL
  {
  }

  // The configuration inside a value that no matcher looks at
  function ValueConfig(c: Config, v: seq<Octet>): Config
    requires c.Go?
  {
    Go(c.ps.(state := InHeader(ValueText), headerState := General, index := 0, nread := c.ps.nread + |v|),
       Emit(c.tr, Data(Value, v)), if |v| == 1 then Outer else Skipping, c.pos + |v|)
  }

  lemma StepPlainValue(c: Config, ch: Octet)
    requires c.Go? && c.lane.Outer? && c.ps.state == InHeader(ValueDiscardWs) && c.ps.nread < MAX_HEADER_SIZE
    requires NameMatcherOk(c.ps.headerState, c.ps.index)
    requires !c.ps.headerState.Upgrade? && !c.ps.headerState.ContentLength? && !c.ps.headerState.Connection? &&
             !c.ps.headerState.TransferEncoding?
    requires ch != ' ' && ch != TAB && ch != CR && ch != LF
    ensures Step(c, ch) == ValueConfig(c, [ch])
  {
    hide Emit, Dispatch, Lower;
    StepNext(c.ps, c.tr, c.lane, c.pos, ch);
    DispatchOnce(c.ps.(nread := c.ps.nread + 1), c.tr, c.lane, ch, c.pos);
  }

  lemma RunPlainValue(c: Config, v: seq<Octet>)
    requires c.Go? && c.lane.Outer? && c.ps.state == InHeader(ValueDiscardWs) && c.ps.nread + |v| <= MAX_HEADER_SIZE
    requires NameMatcherOk(c.ps.headerState, c.ps.index)
    requires !c.ps.headerState.Upgrade? && !c.ps.headerState.ContentLength? && !c.ps.headerState.Connection? &&
             !c.ps.headerState.TransferEncoding?
    requires PlainValue(v)
    ensures Run(c, v) == ValueConfig(c, v)
  {
    hide Step, Emit, Run, IsHeaderChar, NameMatcherOk;
    StepPlainValue(c, v[0]);
    RunOne(c, v[0]);
    var d, rest := ValueConfig(c, [v[0]]), v[1..];
    assert v == [v[0]] + rest;
    RunConcat(c, [v[0]], rest);
    if rest == [] {
      RunNothing(d, v, |v|);
      assert rest == v[|v|..|v|] && v == [v[0]];
    } else {
      assert forall k :: 0 <= k < |rest| ==> rest[k] == v[k + 1];
      RunSkip(d.ps, d.tr, Outer, d.pos, rest);
      EmitTwice(c.tr, Value, [v[0]], rest);
    }
  }

  // The line feed behind a value
  lemma StepLineFeed(c: Config)
    requires c.Go? && c.lane.Outer? && c.ps.state == InHeader(HeaderAlmostDone) && c.ps.nread < MAX_HEADER_SIZE
    ensures Step(c, LF) == Go(c.ps.(state := InHeader(ValueLws), nread := c.ps.nread + 1), c.tr, Outer, c.pos + 1)
  {
    hide Emit, Dispatch;
    StepNext(c.ps, c.tr, c.lane, c.pos, LF);
    DispatchOnce(c.ps.(nread := c.ps.nread + 1), c.tr, c.lane, LF, c.pos);
  }

  // The line end after a value
  lemma RunValueEnd(c: Config)
    requires c.Go? && c.ps.state == InHeader(ValueText) && c.ps.nread + 2 <= MAX_HEADER_SIZE
    ensures Run(c, CRLF) == Go(c.ps.(state := InHeader(ValueLws), nread := c.ps.nread + 2), c.tr, Outer, c.pos + 2)
  {
    hide Step, Dispatch, Run;
    StepValueEnd(c.ps, c.tr, c.lane, c.pos, CR);
    StepLineFeed(Step(c, CR));
    RunOne(c, CR);
    assert CRLF == [CR] + [LF];
    RunSnoc(c, [CR], LF);
  }

  // The configuration after a header line that left the matcher at `hs`
  function LineConfig(c: Config, h: Header, ps: Parser, hs: HeaderState): Config
    requires c.Go?
  {
    Go(ps.(state := InHeader(ValueLws), headerState := hs, index := 0, nread := c.ps.nread + |HeaderText(h)|),
       c.tr + [Data(Field, h.name), Data(Value, h.value)], Outer, c.pos + |HeaderText(h)|)
  }

  // The two data callbacks of a header, after anything but a name
  lemma HeaderShown(tr: seq<Event>, name: seq<Octet>, value: seq<Octet>)
    requires !EndsWithData(tr, Field)
    ensures Emit(Emit(tr, Data(Field, name)), Data(Value, value)) == tr + [Data(Field, name), Data(Value, value)]
    ensures !EndsWithData(tr + [Data(Field, name), Data(Value, value)], Field)
  {
  }

  lemma RunPlainHeader(c: Config, h: Header)
    requires AtLine(c) && c.ps.nread + |HeaderText(h)| <= MAX_HEADER_SIZE && !EndsWithData(c.tr, Field)
    requires PlainName(h.name) && PlainValue(h.value)
    ensures Run(c, HeaderText(h)) == LineConfig(c, h, c.ps, General)
  {
    hide Step, Emit, Run, NameState, PlainValue, EndsWithData, Knows, NameMatcherOk;
    RunColon(c, h.name);
    NameRecogniser(h.name);
    NameStateOk(h.name);
    var d := ColonConfig(c, h.name);
    RunPlainValue(d, h.value);
    RunConcat(c, h.name + COLON, h.value);
    RunValueEnd(ValueConfig(d, h.value));
    RunConcat(c, h.name + COLON + h.value, CRLF);
    HeaderShown(c.tr, h.name, h.value);
  }

  lemma {:induction false} NameStateOk(w: seq<Octet>)
    requires w != []
    ensures NameMatcherOk(NameState(w).0, NameState(w).1)
  {
    hide FieldMatch, Token, NameMatcherOk;
    if |w| == 1 {
      FieldInitialOk(Token(w[0]));
    } else {
      NameStateOk(w[..|w| - 1]);
      var (hs, index) := NameState(w[..|w| - 1]);
      FieldMatchOk(hs, index, Token(w[|w| - 1]), w[|w| - 1]);
    }
  }

  lemma FieldInitialOk(c: Octet)
    ensures NameMatcherOk(FieldInitial(c), 0)
  {
  }

  // ----- Content-Length

  lemma {:induction false} LoweredAt(w: seq<Octet>, k: nat)
    requires k < |w|
    ensures Lowered(w)[k] == Token(w[k])
  {
    hide Token;
    if k < |w| - 1 {
      LoweredAt(w[..|w| - 1], k);
    }
  }

  lemma LengthNameIsRecognised()
    ensures LENGTH_NAME != [] && IsName(LENGTH_NAME) && NameState(LENGTH_NAME).0.ContentLength?
  {
    hide NameState, Knows, Lowered;
    var w := LENGTH_NAME;
    forall k | 0 <= k < |w| ensures Lowered(w)[k] == Token(w[k]) == CONTENT_LENGTH[k] && Token(w[k]) != NUL {
      LoweredAt(w, k);
    }
    assert Lowered(w) == CONTENT_LENGTH;
    NameRecogniser(w);
  }

  lemma {:induction false} DecimalIsLength(n: nat)
    ensures IsLength(Decimal(n)) && DecimalValue(Decimal(n)) == n
    ensures forall k :: 0 <= k < |Decimal(n)| ==> IsNum(Decimal(n)[k])
  {
    var digit: seq<Octet> := [('0' as int + n % 10) as char];
    if n < 10 {
      assert DecimalValue(digit[..0]) == 0;
    } else {
      DecimalIsLength(n / 10);
      assert (Decimal(n / 10) + digit)[..|Decimal(n / 10)|] == Decimal(n / 10);
    }
  }

  lemma DigitsArePlain(w: seq<Octet>)
    requires w != [] && forall k :: 0 <= k < |w| ==> IsNum(w[k])
    ensures PlainValue(w)
  {
  }

  lemma RunLengthHeader(c: Config, n: nat)
    requires AtLine(c) && !EndsWithData(c.tr, Field) && !c.ps.flags.contentLength && n <= MAX_CONTENT_LENGTH
    requires c.ps.nread + |HeaderText(Header(LENGTH_NAME, Decimal(n)))| <= MAX_HEADER_SIZE
    ensures var h := Header(LENGTH_NAME, Decimal(n));
            Run(c, HeaderText(h)) ==
            LineConfig(c, h, c.ps.(flags := c.ps.flags.(contentLength := true), contentLength := n), ContentLength)
  {
    hide Step, Emit, Run, NameState, PlainValue, EndsWithData, Decimal, IsLength, IsName, LENGTH_NAME, DecimalValue;
    var name, value := LENGTH_NAME, Decimal(n);
    LengthNameIsRecognised();
    RunColon(c, name);
    var d := ColonConfig(c, name);
    DecimalIsLength(n);
    DecimalIsPlain(n);
    ContentLengthExact(d, value);
    RunConcat(c, name + COLON, value);
    RunValueEnd(LengthConfig(d, value, n));
    RunConcat(c, name + COLON + value, CRLF);
    HeaderShown(c.tr, name, value);
  }

  lemma DecimalIsPlain(n: nat)
    ensures Decimal(n) != [] && PlainValue(Decimal(n))
    ensures NoLineEnd(Decimal(n)) && Decimal(n)[0] != ' ' && Decimal(n)[0] != TAB
    ensures forall k :: 0 <= k < |Decimal(n)| ==> IsHeaderChar(Decimal(n)[k])
  {
    hide Decimal;
    DecimalIsLength(n);
    DigitsArePlain(Decimal(n));
  }

  // ----- The end of the header section, and the body

  // A request whose header section is about to end, with none of the options
  // that the header lines of this module cannot set
  predicate AtEndOfHead(c: Config) {
    && AtLine(c) && c.ps.kind == ParserType.Request && c.ps.settings.reply == 0 && !c.ps.line.meth.CONNECT?
    && !c.ps.flags.chunked && !c.ps.flags.trailing && !c.ps.flags.upgrade && !c.ps.flags.skipBody && !c.ps.flags.close
    && c.ps.line.major == 1 && c.ps.line.minor == 1
  }

  // The parser after the message
  function DoneParser(ps: Parser): Parser {
    ps.(state := Starting(StartReq), nread := 0, upgrade := false)
  }

  function HeadConfig(c: Config): Config
    requires c.Go?
  {
    var shown := c.tr + [HeadersComplete(c.ps.line, false, c.ps.contentLength)];
    if c.ps.contentLength == 0 || c.ps.contentLength == ULLONG_MAX then
      Go(DoneParser(c.ps), shown + [MessageComplete(true)], Outer, c.pos + 2)
    else Go(DoneParser(c.ps).(state := InPayload(BodyIdentity)), shown, Outer, c.pos + 2)
  }

  lemma StepHeadEnd(c: Config, ps: Parser)
    requires AtEndOfHead(c) && c.ps.nread + 2 <= MAX_HEADER_SIZE
    requires ps == c.ps.(state := InHeader(HeadersAlmostDone), nread := c.ps.nread + 2)
    ensures Dispatch(ps, c.tr, Outer, LF, c.pos + 1) == HeadConfig(c)
  {
    hide Dispatch, Look;
    DispatchOnce(ps, c.tr, Outer, LF, c.pos + 1);
    LookHeadEnd(ps, c.tr);
    var done := ps.(state := InHeader(HeadersDone), upgrade := false);
    var shown := Emit(c.tr, HeadersComplete(ps.line, false, ps.contentLength));
    DispatchOnce(done, shown, Outer, LF, c.pos + 1);
    LookHeadDone(done, shown);
  }

  lemma LookHeadEnd(ps: Parser, tr: seq<Event>)
    requires ps.state == InHeader(HeadersAlmostDone) && !ps.flags.trailing && !ps.flags.chunked && !ps.flags.upgrade
    requires !ps.line.meth.CONNECT? && ps.settings.reply == 0
    ensures Look(ps, tr, false, LF) ==
            Again(ps.(state := InHeader(HeadersDone), upgrade := false),
                  Emit(tr, HeadersComplete(ps.line, false, ps.contentLength)))
  {
    hide Emit;
  }

  lemma LookHeadDone(ps: Parser, tr: seq<Event>)
    requires ps.state == InHeader(HeadersDone) && !ps.upgrade && ps.kind == ParserType.Request
    requires !ps.flags.chunked && !ps.flags.skipBody && !ps.flags.close && ps.line.major == 1 && ps.line.minor == 1
    ensures Look(ps, tr, false, LF) ==
            if ps.contentLength == 0 || ps.contentLength == ULLONG_MAX then
              Next(ps.(state := Starting(StartReq), nread := 0), Emit(tr, MessageComplete(true)))
            else Next(ps.(state := InPayload(BodyIdentity), nread := 0), tr)
  {
    hide Emit;
  }

  lemma RunHeadEnd(c: Config)
    requires AtEndOfHead(c) && c.ps.nread + 2 <= MAX_HEADER_SIZE
    ensures Run(c, CRLF) == HeadConfig(c)
  {
    hide Emit, Step, Dispatch, Run, HeadConfig, NoteOption;
    StepLine(c, CR);
    DispatchOnce(c.ps.(state := InHeader(FieldStart), nread := c.ps.nread + 1), c.tr, Outer, CR, c.pos);
    var d := Step(c, CR);
    StepNext(d.ps, d.tr, d.lane, d.pos, LF);
    StepHeadEnd(c, d.ps.(nread := d.ps.nread + 1));
    RunOne(c, CR);
    assert CRLF == [CR] + [LF];
    RunSnoc(c, [CR], LF);
  }

  lemma RunBodyToEnd(c: Config, b: seq<Octet>)
    requires c.Go? && c.lane.Outer? && c.ps.state == InPayload(BodyIdentity) && b != [] && c.ps.contentLength == |b|
    requires !c.ps.upgrade && c.ps.kind == ParserType.Request && !c.ps.flags.close
    requires c.ps.line.major == 1 && c.ps.line.minor == 1 && !EndsWithData(c.tr, DataKind.Body)
    ensures Run(c, b) ==
            Go(c.ps.(state := Starting(StartReq), contentLength := 0),
               c.tr + [Data(DataKind.Body, b), MessageComplete(true)], Outer, c.pos + |b|)
  {
    hide Step, Run, Dispatch, Emit, Look;
    var init, ch := b[..|b| - 1], b[|b| - 1];
    assert b == init + [ch];
    RunNothing(c, b, 0);
    assert b[0..0] == b[..0];
    if init != [] {
      RunBody(c.ps, c.tr, c.pos, init);
    }
    var d := Run(c, init);
    StepLastByte(d.ps, d.tr, d.pos, ch);
    var ps, shown := d.ps.(contentLength := 0, state := InPayload(MessageDone)), Emit(d.tr, Data(DataKind.Body, [ch]));
    BodyShown(c.tr, init, ch);
    DispatchOnce(ps, shown, Outer, ch, d.pos);
    LookMessageDone(ps, shown, ch);
    RunSnoc(c, init, ch);
  }

  lemma BodyShown(tr: seq<Event>, init: seq<Octet>, ch: Octet)
    requires !EndsWithData(tr, DataKind.Body)
    ensures var shown := if init == [] then tr else Emit(tr, Data(DataKind.Body, init));
            Emit(Emit(shown, Data(DataKind.Body, [ch])), MessageComplete(true)) ==
            tr + [Data(DataKind.Body, init + [ch]), MessageComplete(true)]
  {
    if init != [] {
      EmitTwice(tr, DataKind.Body, init, [ch]);
    }
    assert init == [] ==> init + [ch] == [ch];
  }

  lemma LookMessageDone(ps: Parser, tr: seq<Event>, ch: Octet)
    requires ps.state == InPayload(MessageDone) && !ps.upgrade && ps.kind == ParserType.Request
    requires !ps.flags.close && ps.line.major == 1 && ps.line.minor == 1
    ensures Look(ps, tr, false, ch) == Next(ps.(state := Starting(StartReq)), Emit(tr, MessageComplete(true)))
  {
    hide Emit;
  }

  // ----- The whole header section

  // A request parser at the start of a header line, with what its header
  // lines have shown so far
  predicate Within(d: Config, ps: Parser, tr: seq<Event>, n: nat, pos: nat) {
    Reached(d, ps, tr, n, pos) && AtLine(d) && !EndsWithData(tr, Field)
  }

  lemma HeadersTextGrows(hs: seq<Header>)
    requires hs != []
    ensures |HeadersText(hs)| == |HeadersText(hs[..|hs| - 1])| + |HeaderText(hs[|hs| - 1])|
  {
    hide HeaderText;
  }

  lemma PlainLineKeeps(c: Config, h: Header, ps: Parser, tr: seq<Event>, n: nat, pos: nat)
    requires Within(c, ps, tr, n, pos)
    ensures Within(LineConfig(c, h, c.ps, General), ps, tr + [Data(Field, h.name), Data(Value, h.value)],
                   n + |HeaderText(h)|, pos + |HeaderText(h)|)
  {
    hide HeaderText;
  }

  lemma {:induction false} RunHeaders(c: Config, hs: seq<Header>)
    requires AtLine(c) && !EndsWithData(c.tr, Field) && ValidHeaders(hs)
    requires c.ps.nread + |HeadersText(hs)| <= MAX_HEADER_SIZE
    ensures var n := |HeadersText(hs)|;
            Within(Run(c, HeadersText(hs)), c.ps, c.tr + HeaderEvents(hs), c.ps.nread + n, c.pos + n)
  {
    hide Step, Run, HeaderText, PlainName, PlainValue, EndsWithData, LineConfig, NoteOption;
    if hs == [] {
      RunNothing(c, [], 0);
      var nothing: seq<Octet> := [];
      assert nothing[0..0] == HeadersText(hs);
      assert c.tr + HeaderEvents(hs) == c.tr;
    } else {
      var init, h := hs[..|hs| - 1], hs[|hs| - 1];
      HeadersTextGrows(hs);
      assert ValidHeaders(init) && PlainName(h.name) && PlainValue(h.value);
      RunHeaders(c, init);
      var d := Run(c, HeadersText(init));
      RunPlainHeader(d, h);
      RunConcat(c, HeadersText(init), HeaderText(h));
      PlainLineKeeps(d, h, c.ps, c.tr + HeaderEvents(init), c.ps.nread + |HeadersText(init)|, c.pos + |HeadersText(init)|);
      assert c.tr + HeaderEvents(init) + [Data(Field, h.name), Data(Value, h.value)] == c.tr + HeaderEvents(hs);
    }
  }

  // The parser at the end of a header section that announces `p`
  function AnnouncedParser(ps: Parser, p: Payload): Parser {
    if p.Absent? then ps else ps.(flags := ps.flags.(contentLength := true), contentLength := |p.bytes|)
  }

  function LengthEvents(p: Payload): seq<Event> {
    if p.Absent? then [] else [Data(Field, LENGTH_NAME), Data(Value, Decimal(|p.bytes|))]
  }

  lemma RunLength(c: Config, p: Payload, ps: Parser, tr: seq<Event>, n: nat, pos: nat)
    requires Within(c, ps, tr, n, pos) && !ps.flags.contentLength
    requires p.Announced? ==> |p.bytes| <= MAX_CONTENT_LENGTH
    requires n + |LengthHeader(p)| <= MAX_HEADER_SIZE
    ensures var w := |LengthHeader(p)|;
            Within(Run(c, LengthHeader(p)), AnnouncedParser(ps, p), tr + LengthEvents(p), n + w, pos + w)
  {
    hide Step, Run, HeaderText, EndsWithData, Decimal, LENGTH_NAME;
    if p.Absent? {
      var nothing: seq<Octet> := [];
      RunNothing(c, nothing, 0);
      assert nothing[0..0] == LengthHeader(p);
      assert tr + LengthEvents(p) == tr;
    } else {
      var size := Decimal(|p.bytes|);
      RunLengthHeader(c, |p.bytes|);
      HeaderShown(tr, LENGTH_NAME, size);
    }
  }

  lemma AllHeadersShown(r: Request)
    ensures HeaderEvents(AllHeaders(r)) == HeaderEvents(r.headers) + LengthEvents(r.payload)
  {
    hide Decimal, LENGTH_NAME;
    var hs := AllHeaders(r);
    if r.payload.Announced? {
      assert hs[..|hs| - 1] == r.headers;
    } else {
      assert hs == r.headers;
    }
  }

  // What the application has been told once the header lines are over
  function HeadEvents(r: Request): seq<Event> {
    [MessageBegin, Data(UrlData, r.url)] + HeaderEvents(AllHeaders(r))
  }

  function HeadLines(r: Request): seq<Octet> {
    StartLineText(r) + HeadersText(r.headers) + LengthHeader(r.payload)
  }

  lemma StartShown(tr: seq<Event>, url: seq<Octet>)
    ensures Emit(Emit(tr, MessageBegin), Data(UrlData, url)) == tr + [MessageBegin, Data(UrlData, url)]
    ensures !EndsWithData(tr + [MessageBegin, Data(UrlData, url)], Field)
  {
  }

  lemma HeadShown(tr: seq<Event>, r: Request)
    ensures tr + [MessageBegin, Data(UrlData, r.url)] + HeaderEvents(r.headers) + LengthEvents(r.payload) == tr + HeadEvents(r)
  {
    hide HeaderEvents, LengthEvents, AllHeaders;
    AllHeadersShown(r);
    Associate(tr, [MessageBegin, Data(UrlData, r.url)], HeaderEvents(r.headers), LengthEvents(r.payload));
  }

  lemma Associate(a: seq<Event>, b: seq<Event>, c: seq<Event>, d: seq<Event>)
    ensures a + b + c + d == a + (b + (c + d))
  {
  }

  lemma RunHeadLines(c: Config, r: Request)
    requires AtStart(c) && ValidRequest(r)
    ensures var n := |HeadLines(r)|;
            Within(Run(c, HeadLines(r)), AnnouncedParser(Lined(c.ps, r.meth), r.payload), c.tr + HeadEvents(r), n, c.pos + n)
  {
    hide Step, Run, Emit, HeadersText, StartLineText, LengthHeader, EndsWithData, ValidHeaders, ValidUrl, HeaderEvents,
         LengthEvents, HeadEvents;
    HeadSize(r);
    StartShown(c.tr, r.url);
    RunStartLine(c, r);
    var s := Run(c, StartLineText(r));
    RunHeaders(s, r.headers);
    RunConcat(c, StartLineText(r), HeadersText(r.headers));
    var h := Run(s, HeadersText(r.headers));
    RunLength(h, r.payload, Lined(c.ps, r.meth), s.tr + HeaderEvents(r.headers), |StartLineText(r)| + |HeadersText(r.headers)|,
              c.pos + |StartLineText(r)| + |HeadersText(r.headers)|);
    RunConcat(c, StartLineText(r) + HeadersText(r.headers), LengthHeader(r.payload));
    HeadShown(c.tr, r);
  }

  // ----- Whole requests

  // One request, from between two messages to between two messages
  lemma RunRequest(c: Config, r: Request)
    requires AtStart(c) && ValidRequest(r)
    ensures var d := Run(c, Print(r));
            && AtStart(d) && d.tr == c.tr + Events(r, c.ps.line.status) && d.pos == c.pos + |Print(r)|
            && d.ps.line.status == c.ps.line.status
  {
    hide Step, Run, Emit, HeadLines, ValidHeaders, ValidUrl, HeaderEvents, AllHeaders, NoteOption;
    HeadLinesSize(r);
    RunHeadLines(c, r);
    var b := Run(c, HeadLines(r));
    RunHeadEnd(b);
    RunConcat(c, HeadLines(r), CRLF);
    var d := HeadConfig(b);
    if BodyText(r.payload) == [] {
      assert Print(r) == Head(r);
      assert d.tr == c.tr + Events(r, c.ps.line.status);
    } else {
      RunBodyToEnd(d, BodyText(r.payload));
      RunConcat(c, Head(r), BodyText(r.payload));
      assert d.tr + [Data(DataKind.Body, BodyText(r.payload)), MessageComplete(true)] == c.tr + Events(r, c.ps.line.status);
    }
  }

  lemma HeadLinesSize(r: Request)
    ensures Head(r) == HeadLines(r) + CRLF
  {
    hide StartLineText, HeadersText, LengthHeader;
  }

  lemma StartGoes(c: Config)
    requires AtStart(c)
    ensures c.Go?
  {
  }

  lemma NoRequests(status: nat)
    ensures PrintAll([]) == [] && AllEvents([], status) == []
  {
  }

  lemma OneMoreRequest(rs: seq<Request>, status: nat)
    requires rs != []
    ensures var init, r := rs[..|rs| - 1], rs[|rs| - 1];
            PrintAll(rs) == PrintAll(init) + Print(r) && AllEvents(rs, status) == AllEvents(init, status) + Events(r, status)
  {
    hide Print, Events;
  }

  // Request round trip: printed one after the other and parsed, any list of
  // requests comes back, method by method, header by header, body by body.
  lemma {:induction false} RequestRoundTrip(c: Config, rs: seq<Request>)
    requires AtStart(c) && forall i :: 0 <= i < |rs| ==> ValidRequest(rs[i])
    ensures var d := Run(c, PrintAll(rs));
            && AtStart(d) && d.tr == c.tr + AllEvents(rs, c.ps.line.status) && d.pos == c.pos + |PrintAll(rs)|
            && d.ps.line.status == c.ps.line.status
  {
    hide Step, Run, Print, PrintAll, Events, AllEvents, ValidRequest, AtStart;
    assert c.Go? by { StartGoes(c); }
    if rs == [] {
      NoRequests(c.ps.line.status);
      var nothing: seq<Octet> := [];
      RunNothing(c, nothing, 0);
      assert nothing[0..0] == PrintAll(rs);
      assert c.tr + AllEvents(rs, c.ps.line.status) == c.tr;
    } else {
      var init, r := rs[..|rs| - 1], rs[|rs| - 1];
      var status := c.ps.line.status;
      RequestRoundTrip(c, init);
      RunRequest(Run(c, PrintAll(init)), r);
      RunConcat(c, PrintAll(init), Print(r));
      OneMoreRequest(rs, status);
      assert c.tr + AllEvents(init, status) + Events(r, status) == c.tr + AllEvents(rs, status);
    }
  }
}
