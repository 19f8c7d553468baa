// Start lines: requests of any version and method, and responses.
module HttpHead {
  import opened HttpChars
  import opened HttpTypes
  import opened HttpMachine
  import opened HttpBulk
  import opened HttpInvariant
  import opened HttpSplit
  import opened HttpMethod
  import opened HttpLengths
  import opened HttpRequest
  import opened HttpLines

  // A version in digits behind spaces, or none, which means version 0.9
  datatype Version = Numbered(gap: seq<Octet>, major: seq<Octet>, minor: seq<Octet>) | Old

  // What stands behind a status code
  datatype Phrase = NoPhrase | Phrase(text: seq<Octet>)

  // A start line, behind any line ends, with spaces before the target or the code
  datatype Start =
    | RequestLine(lead: seq<Octet>, meth: Method, gap: seq<Octet>, target: seq<Octet>, version: Version, end: seq<Octet>)
    | StatusLine(lead: seq<Octet>, major: seq<Octet>, minor: seq<Octet>, gap: seq<Octet>, code: seq<Octet>, phrase: Phrase,
                 end: seq<Octet>)

  // A number of the start line
  predicate ValidNumber(w: seq<Octet>) {
    w != [] && (forall k :: 0 <= k < |w| ==> IsNum(w[k])) && DecimalValue(w) <= 999
  }

  // Where parse_url_char is after the whole of `w`
  function TargetAfter(connect: bool, w: seq<Octet>): UrlResult
    requires w != []
  {
    if |w| == 1 then (if connect then UrlChar(ReqServerStart, w[0]) else FirstUrlChar(w[0]))
    else
      match TargetAfter(connect, w[..|w| - 1])
      case UrlDead => UrlDead
      case UrlNext(s) => UrlChar(s, w[|w| - 1])
  }

  predicate ValidTarget(connect: bool, w: seq<Octet>) {
    w != [] && TargetAfter(connect, w).UrlNext? && !BeforeHost(TargetAfter(connect, w).state)
  }

  predicate LineEnds(w: seq<Octet>) {
    forall k :: 0 <= k < |w| ==> w[k] == CR || w[k] == LF
  }

  predicate Spaces(w: seq<Octet>) {
    forall k :: 0 <= k < |w| ==> w[k] == ' '
  }

  predicate IsGap(w: seq<Octet>) {
    w != [] && Spaces(w)
  }

  predicate ValidVersion(v: Version) {
    v.Numbered? ==> IsGap(v.gap) && ValidNumber(v.major) && v.major[0] != '0' && ValidNumber(v.minor)
  }

  predicate ValidStart(s: Start) {
    && LineEnds(s.lead) && IsGap(s.gap) && IsLineEnd(s.end)
    && match s
       case RequestLine(_, meth, _, target, version, _) => ValidTarget(meth.CONNECT?, target) && ValidVersion(version)
       case StatusLine(_, major, minor, _, code, phrase, _) =>
         && ValidNumber(major) && ValidNumber(minor) && ValidNumber(code)
         && (phrase.Phrase? ==> NoLineEnd(phrase.text))
  }

  // ----- Printing

  const DOT: seq<Octet> := "."
  const HTTP: seq<Octet> := "HTTP/"

  function VersionText(v: Version): seq<Octet> {
    if v.Old? then [] else v.gap + HTTP + v.major + DOT + v.minor
  }

  function PhraseText(p: Phrase): seq<Octet> {
    if p.NoPhrase? then [] else [' '] + p.text
  }

  function StartText(s: Start): seq<Octet> {
    match s
    case RequestLine(lead, meth, gap, target, version, end) =>
      lead + MethodName(meth) + gap + target + VersionText(version) + end
    case StatusLine(lead, major, minor, gap, code, phrase, end) =>
      lead + HTTP + major + DOT + minor + gap + code + PhraseText(phrase) + end
  }

  // ----- What a start line says

  function MajorSaid(s: Start): nat {
    if s.StatusLine? then DecimalValue(s.major) else if s.version.Old? then 0 else DecimalValue(s.version.major)
  }

  function MinorSaid(s: Start): nat {
    if s.StatusLine? then DecimalValue(s.minor) else if s.version.Old? then 9 else DecimalValue(s.version.minor)
  }

  // The fields for the start line; a request leaves the status of an earlier
  // message alone, and a response the method.
  function LineSaid(s: Start, before: StartLine): StartLine {
    if s.RequestLine? then StartLine(MajorSaid(s), MinorSaid(s), before.status, s.meth)
    else StartLine(MajorSaid(s), MinorSaid(s), DecimalValue(s.code), before.meth)
  }

  // Each line end in front of a response begins a message, too.
  function Begins(n: nat): seq<Event> {
    seq(n, _ => MessageBegin)
  }

  function StartEvents(s: Start): seq<Event> {
    if s.RequestLine? then [MessageBegin, Data(UrlData, s.target)]
    else Begins(|s.lead| + 1) + if s.phrase.NoPhrase? || s.phrase.text == [] then [] else [Data(Status, s.phrase.text)]
  }

  // ----- One byte of a start line

  predicate InStartLine(c: Config, n: nat) {
    c.Go? && c.lane.Outer? && ParsingHeader(c.ps.state) && c.ps.nread + n <= MAX_HEADER_SIZE
  }

  lemma StepLooks(c: Config, ch: Octet)
    requires InStartLine(c, 1)
    ensures var counted := c.ps.(nread := c.ps.nread + 1);
            Step(c, ch) == After(counted, Look(counted, c.tr, false, ch), ch, c.pos)
  {
    hide Dispatch, Look;
    StepNext(c.ps, c.tr, c.lane, c.pos, ch);
    DispatchOnce(c.ps.(nread := c.ps.nread + 1), c.tr, c.lane, ch, c.pos);
  }

  // The byte leads to another state and does nothing else.
  function Moves(c: Config, next: State): Config
    requires c.Go?
  {
    Go(c.ps.(state := next, nread := c.ps.nread + 1), c.tr, Outer, c.pos + 1)
  }

  // ----- Numbers

  datatype Number = Major | Minor | Code

  function FirstState(response: bool, n: Number): State {
    match n
    case Major => if response then ResponseLine(ResFirstMajor) else RequestVersion(ReqFirstMajor)
    case Minor => if response then ResponseLine(ResFirstMinor) else RequestVersion(ReqFirstMinor)
    case Code => ResponseLine(ResFirstStatusCode)
  }

  function MoreState(response: bool, n: Number): State {
    match n
    case Major => if response then ResponseLine(ResMajor) else RequestVersion(ReqMajor)
    case Minor => if response then ResponseLine(ResMinor) else RequestVersion(ReqMinor)
    case Code => ResponseLine(ResStatusCode)
  }

  function WithNumber(line: StartLine, n: Number, v: nat): StartLine {
    match n
    case Major => line.(major := v)
    case Minor => line.(minor := v)
    case Code => line.(status := v)
  }

  function NumberConfig(c: Config, response: bool, n: Number, w: seq<Octet>): Config
    requires c.Go?
  {
    Go(c.ps.(state := MoreState(response, n), line := WithNumber(c.ps.line, n, DecimalValue(w)), nread := c.ps.nread + |w|),
       c.tr, Outer, c.pos + |w|)
  }

  lemma StepFirstNumber(c: Config, response: bool, n: Number, ch: Octet)
    requires InStartLine(c, 1) && c.ps.state == FirstState(response, n) && IsNum(ch)
    requires !response && n == Major ==> ch != '0'
    ensures Step(c, ch) == NumberConfig(c, response, n, [ch])
  {
    hide Emit;
    StepLooks(c, ch);
    assert DecimalValue([ch][..0]) == 0;
  }

  function NumberIn(line: StartLine, n: Number): nat {
    match n
    case Major => line.major
    case Minor => line.minor
    case Code => line.status
  }

  lemma DigitIsNoMark(ch: Octet)
    requires IsNum(ch)
    ensures ch != ' ' && ch != '.' && ch != CR && ch != LF
  {
  }

  lemma LookNumber(ps: Parser, tr: seq<Event>, response: bool, n: Number, ch: Octet)
    requires ps.state == MoreState(response, n) && IsNum(ch) && MoreDigits(NumberIn(ps.line, n), ch) <= 999
    ensures Look(ps, tr, false, ch) == Next(ps.(line := WithNumber(ps.line, n, MoreDigits(NumberIn(ps.line, n), ch))), tr)
  {
    hide Emit, IsNum, MoreDigits;
    DigitIsNoMark(ch);
  }

  lemma NumberStates(response: bool, n: Number)
    ensures ParsingHeader(MoreState(response, n)) && !OwnLoop(MoreState(response, n))
  {
  }

  lemma NumberLaws(line: StartLine, n: Number, v: nat, ch: Octet)
    requires IsNum(ch)
    ensures MoreDigits(v, ch) == v * 10 + DigitValue(ch)
    ensures NumberIn(WithNumber(line, n, v), n) == v
    ensures WithNumber(WithNumber(line, n, v), n, MoreDigits(v, ch)) == WithNumber(line, n, MoreDigits(v, ch))
  {
  }

  lemma StepNumber(c: Config, response: bool, n: Number, w: seq<Octet>, ch: Octet)
    requires InStartLine(c, |w| + 1) && c.ps.state == FirstState(response, n) && IsNum(ch)
    requires DecimalValue(w) * 10 + DigitValue(ch) <= 999
    ensures Step(NumberConfig(c, response, n, w), ch) == NumberConfig(c, response, n, w + [ch])
  {
    hide Step, Look, DecimalValue, FirstState, MoreState, WithNumber, NumberIn, IsNum, DigitValue, MoreDigits;
    var r, v := NumberConfig(c, response, n, w), DecimalValue(w);
    assert ParsingHeader(r.ps.state) && !OwnLoop(r.ps.state) by { NumberStates(response, n); }
    StepLooks(r, ch);
    NumberLaws(c.ps.line, n, v, ch);
    LookNumber(r.ps.(nread := r.ps.nread + 1), r.tr, response, n, ch);
    DecimalMore(w + [ch]);
    assert (w + [ch])[..|w|] == w;
  }

  lemma {:induction false} RunNumber(c: Config, response: bool, n: Number, w: seq<Octet>)
    requires InStartLine(c, |w|) && c.ps.state == FirstState(response, n) && ValidNumber(w)
    requires !response && n == Major ==> w[0] != '0'
    ensures Run(c, w) == NumberConfig(c, response, n, w)
  {
    hide Step, NumberConfig, FirstState;
    var init, ch := w[..|w| - 1], w[|w| - 1];
    assert w == init + [ch];
    DecimalMore(w);
    if init == [] {
      assert w == [ch];
      RunOne(c, ch);
      StepFirstNumber(c, response, n, ch);
    } else {
      RunNumber(c, response, n, init);
      StepNumber(c, response, n, init, ch);
      RunSnoc(c, init, ch);
    }
  }

  lemma StepDot(c: Config, response: bool)
    requires InStartLine(c, 1) && c.ps.state == MoreState(response, Major)
    ensures Run(c, DOT) == Moves(c, FirstState(response, Minor))
  {
    hide Emit, Run, Step;
    StepLooks(c, '.');
    RunOne(c, '.');
    assert DOT == ['.'];
  }

  function VersionRead(c: Config, response: bool, major: seq<Octet>, minor: seq<Octet>): Config
    requires c.Go?
  {
    Go(c.ps.(state := MoreState(response, Minor), nread := c.ps.nread + |major| + 1 + |minor|,
             line := c.ps.line.(major := DecimalValue(major), minor := DecimalValue(minor))),
       c.tr, Outer, c.pos + |major| + 1 + |minor|)
  }

  lemma RunNumbers(c: Config, response: bool, major: seq<Octet>, minor: seq<Octet>)
    requires InStartLine(c, |major| + 1 + |minor|) && c.ps.state == FirstState(response, Major)
    requires ValidNumber(major) && ValidNumber(minor) && (!response ==> major[0] != '0')
    ensures Run(c, major + DOT + minor) == VersionRead(c, response, major, minor)
  {
    hide Step, Run, ValidNumber, DecimalValue;
    RunNumber(c, response, Major, major);
    var a := NumberConfig(c, response, Major, major);
    StepDot(a, response);
    RunConcat(c, major, DOT);
    var b := Moves(a, FirstState(response, Minor));
    RunNumber(b, response, Minor, minor);
    RunConcat(c, major + DOT, minor);
    assert |DOT| == 1;
  }

  // ----- The end of a start line

  // The state behind which a line may end
  predicate MayEnd(c: Config) {
    c.Go? && (c.ps.state == RequestVersion(ReqMinor) || c.ps.state == ResponseLine(ResStatusCode) ||
              c.ps.state == ResponseLine(ResStatusStart) || c.ps.state == ResponseLine(ResStatus))
  }

  lemma StepStartEnd(c: Config, ch: Octet)
    requires InStartLine(c, 1) && MayEnd(c) && (ch == CR || ch == LF)
    ensures var almost := if c.ps.state.RequestVersion? then RequestVersion(ReqLineAlmostDone) else ResponseLine(ResLineAlmostDone);
            Step(c, ch) == Moves(c, if ch == CR then almost else InHeader(FieldStart))
  {
    hide Emit;
    StepLooks(c, ch);
  }

  lemma StepStartFeed(c: Config)
    requires InStartLine(c, 1)
    requires c.ps.state == RequestVersion(ReqLineAlmostDone) || c.ps.state == ResponseLine(ResLineAlmostDone)
    ensures Step(c, LF) == Moves(c, InHeader(FieldStart))
  {
    hide Emit;
    StepLooks(c, LF);
  }

  function LineOver(c: Config, n: nat): Config
    requires c.Go?
  {
    Go(c.ps.(state := InHeader(FieldStart), nread := c.ps.nread + n), c.tr, Outer, c.pos + n)
  }

  lemma RunStartEnd(c: Config, e: seq<Octet>)
    requires InStartLine(c, |e|) && MayEnd(c) && IsLineEnd(e)
    ensures Run(c, e) == LineOver(c, |e|)
  {
    hide Step, Run;
    StepStartEnd(c, e[0]);
    if e == CRLF {
      StepStartFeed(Step(c, CR));
      RunOne(c, CR);
      assert CRLF == [CR] + [LF];
      RunSnoc(c, [CR], LF);
    } else {
      RunOne(c, LF);
    }
  }

  // ----- Requests

  // A parser in a state that skips over some bytes
  predicate Skips(s: State, ch: Octet) {
    if ch == CR || ch == LF then s == Starting(StartReq) || s == Starting(StartReqOrRes)
    else ch == ' ' && (s.ReqSpacesBeforeUrl? || s == RequestVersion(ReqHttpStart) || s == ResponseLine(ResFirstStatusCode))
  }

  function Skipped(c: Config, n: nat): Config
    requires c.Go?
  {
    Go(c.ps.(nread := c.ps.nread + n), c.tr, Outer, c.pos + n)
  }

  lemma StepSkips(c: Config, ch: Octet)
    requires InStartLine(c, 1) && Skips(c.ps.state, ch)
    ensures Step(c, ch) == Skipped(c, 1)
  {
    hide Emit;
    StepLooks(c, ch);
  }

  lemma {:induction false} RunSkips(c: Config, w: seq<Octet>)
    requires InStartLine(c, |w|) && forall k :: 0 <= k < |w| ==> Skips(c.ps.state, w[k])
    ensures Run(c, w) == Skipped(c, |w|)
  {
    hide Step, Skips;
    if w != [] {
      var init, ch := w[..|w| - 1], w[|w| - 1];
      RunSkips(c, init);
      StepSkips(Run(c, init), ch);
    }
  }

  lemma RunMethodWord(c: Config, m: Method)
    requires InStartLine(c, |MethodName(m)| + 1) && c.ps.state == Starting(StartReq)
    ensures Run(c, MethodName(m) + [' ']) == MethodConfig(c, m, |MethodName(m)| + 1, ReqSpacesBeforeUrl)
  {
    hide Step, Run, Emit, MethodName, GuessOnTheWay, MethodConfig;
    var name := MethodName(m);
    FirstGuess(m);
    RunName(c, m, |name|);
    GuessAtEnd(m);
    assert name[..|name|] == name;
    StepMethod(c, m, |name|, ' ');
    RunSnoc(c, name, ' ');
  }

  // A method and the spaces behind it
  lemma RunMethodGap(c: Config, m: Method, gap: seq<Octet>)
    requires InStartLine(c, |MethodName(m)| + |gap|) && c.ps.state == Starting(StartReq) && IsGap(gap)
    ensures var n := |MethodName(m)| + |gap|;
            Run(c, MethodName(m) + gap) ==
            Go(c.ps.(flags := NO_FLAGS, contentLength := ULLONG_MAX, line := c.ps.line.(meth := m), index := |MethodName(m)| + 1,
                     state := ReqSpacesBeforeUrl, nread := c.ps.nread + n),
               Emit(c.tr, MessageBegin), Outer, c.pos + n)
  {
    hide Step, Run, Emit, MethodName;
    RunMethodWord(c, m);
    var a := MethodConfig(c, m, |MethodName(m)| + 1, ReqSpacesBeforeUrl);
    RunSkips(a, gap[1..]);
    RunConcat(c, MethodName(m) + [' '], gap[1..]);
    assert MethodName(m) + [' '] + gap[1..] == MethodName(m) + gap;
  }

  lemma StepTarget(c: Config, ch: Octet)
    requires InStartLine(c, 1) && (c.ps.state.ReqSpacesBeforeUrl? || c.ps.state.InUrl?) && ch != ' ' && ch != CR && ch != LF
    ensures var r := if c.ps.state.InUrl? then UrlChar(c.ps.state.url, ch)
                     else if c.ps.line.meth.CONNECT? then UrlChar(ReqServerStart, ch) else FirstUrlChar(ch);
            r.UrlNext? ==>
              Step(c, ch) ==
              Go(c.ps.(state := InUrl(r.state), nread := c.ps.nread + 1), Emit(c.tr, Data(UrlData, [ch])), Outer, c.pos + 1)
  {
    hide Emit, UrlChar, FirstUrlChar;
    StepLooks(c, ch);
  }

  function TargetConfig(c: Config, w: seq<Octet>): Config
    requires c.Go? && w != [] && TargetAfter(c.ps.line.meth.CONNECT?, w).UrlNext?
  {
    Go(c.ps.(state := InUrl(TargetAfter(c.ps.line.meth.CONNECT?, w).state), nread := c.ps.nread + |w|),
       Emit(c.tr, Data(UrlData, w)), Outer, c.pos + |w|)
  }

  lemma {:induction false} RunTarget(c: Config, w: seq<Octet>)
    requires InStartLine(c, |w|) && c.ps.state.ReqSpacesBeforeUrl?
    requires w != [] && TargetAfter(c.ps.line.meth.CONNECT?, w).UrlNext?
    ensures Run(c, w) == TargetConfig(c, w)
  {
    hide Step, Emit, UrlChar, FirstUrlChar;
    var init, ch := w[..|w| - 1], w[|w| - 1];
    assert w == init + [ch];
    UrlBytes(if |w| == 1 then ReqServerStart else TargetAfter(c.ps.line.meth.CONNECT?, init).state, ch);
    if |w| == 1 {
      assert w == [ch];
      RunOne(c, ch);
      StepTarget(c, ch);
    } else {
      RunTarget(c, init);
      StepTarget(Run(c, init), ch);
      EmitTwice(c.tr, UrlData, init, [ch]);
      RunSnoc(c, init, ch);
    }
  }

  function NameState(n: nat): State
    requires n <= 5
  {
    RequestVersion(if n == 0 then ReqHttpStart else if n == 1 then ReqH else if n == 2 then ReqHT else if n == 3 then ReqHTT
                   else if n == 4 then ReqHTTP else ReqFirstMajor)
  }

  function HttpRead(c: Config, n: nat): Config
    requires c.Go? && n <= 5
  {
    Go(c.ps.(state := NameState(n), nread := c.ps.nread + n), c.tr, Outer, c.pos + n)
  }

  lemma StepHttp(c: Config, n: nat)
    requires InStartLine(c, n + 1) && c.ps.state == NameState(0) && n < 5
    ensures Step(HttpRead(c, n), HTTP[n]) == HttpRead(c, n + 1)
  {
    hide Emit;
    StepLooks(HttpRead(c, n), HTTP[n]);
  }

  lemma {:induction false} RunHttp(c: Config, n: nat)
    requires InStartLine(c, n) && c.ps.state == NameState(0) && n <= 5
    ensures |HTTP| == 5 && Run(c, HTTP[..n]) == HttpRead(c, n)
  {
    hide Step, HTTP;
    HttpHasFive();
    if n > 0 {
      StepHttp(c, n - 1);
      RunHttp(c, n - 1);
      assert HTTP[..n] == HTTP[..n - 1] + [HTTP[n - 1]];
      RunSnoc(c, HTTP[..n - 1], HTTP[n - 1]);
    }
  }

  lemma StepTargetEnd(u: Config)
    requires InStartLine(u, 1) && u.ps.state.InUrl? && !BeforeHost(u.ps.state.url)
    ensures Step(u, ' ') == Moves(u, RequestVersion(ReqHttpStart))
  {
    hide Emit, UrlChar;
    StepLooks(u, ' ');
  }

  // The spaces behind a target, and "HTTP/"
  lemma RunGapAndName(u: Config, gap: seq<Octet>)
    requires u.Go? && u.ps.state.InUrl? && !BeforeHost(u.ps.state.url) && InStartLine(u, |gap| + 5) && IsGap(gap)
    ensures Run(u, gap + HTTP) ==
            Go(u.ps.(state := RequestVersion(ReqFirstMajor), nread := u.ps.nread + |gap| + 5), u.tr, Outer, u.pos + |gap| + 5)
  {
    hide Step, Run, HTTP, BeforeHost;
    HttpHasFive();
    StepTargetEnd(u);
    RunOne(u, ' ');
    var a := Moves(u, RequestVersion(ReqHttpStart));
    RunSkips(a, gap[1..]);
    RunConcat(u, [' '], gap[1..]);
    assert [' '] + gap[1..] == gap;
    RunHttp(Run(a, gap[1..]), 5);
    assert HTTP[..5] == HTTP;
    RunConcat(u, gap, HTTP);
  }

  // A target, and the version and line end behind it
  lemma RunVersionText(u: Config, v: Version, end: seq<Octet>)
    requires u.Go? && u.ps.state.InUrl? && !BeforeHost(u.ps.state.url) && InStartLine(u, |VersionText(v)| + |end|) && IsLineEnd(end)
    requires ValidVersion(v)
    ensures var n := |VersionText(v)| + |end|;
            var line := if v.Old? then u.ps.line.(major := 0, minor := 9)
                        else u.ps.line.(major := DecimalValue(v.major), minor := DecimalValue(v.minor));
            Run(u, VersionText(v) + end) ==
            Go(u.ps.(state := InHeader(FieldStart), line := line, nread := u.ps.nread + n), u.tr, Outer, u.pos + n)
  {
    hide Step, Run, ValidNumber, DecimalValue, BeforeHost, FirstState, MoreState, HTTP, IsGap;
    if v.Old? {
      assert VersionText(v) + end == end;
      RunOldEnd(u, end);
    } else {
      VersionIs(v);
      RunGapAndName(u, v.gap);
      StatesAre();
      var a := Run(u, v.gap + HTTP);
      RunNumbers(a, false, v.major, v.minor);
      RunConcat(u, v.gap + HTTP, v.major + DOT + v.minor);
      var b := VersionRead(a, false, v.major, v.minor);
      RunStartEnd(b, end);
      RunConcat(u, v.gap + HTTP + (v.major + DOT + v.minor), end);
    }
  }

  lemma VersionIs(v: Version)
    requires v.Numbered?
    ensures VersionText(v) == v.gap + HTTP + (v.major + DOT + v.minor)
    ensures |VersionText(v)| == |v.gap| + 5 + |v.major| + 1 + |v.minor|
  {
  }

  lemma StatesAre()
    ensures FirstState(false, Major) == RequestVersion(ReqFirstMajor) && MoreState(false, Minor) == RequestVersion(ReqMinor)
    ensures FirstState(true, Major) == ResponseLine(ResFirstMajor) && MoreState(true, Minor) == ResponseLine(ResMinor)
    ensures FirstState(true, Code) == ResponseLine(ResFirstStatusCode) && MoreState(true, Code) == ResponseLine(ResStatusCode)
  {
  }

  lemma StepOldEnd(u: Config, ch: Octet)
    requires InStartLine(u, 1) && u.ps.state.InUrl? && !BeforeHost(u.ps.state.url) && (ch == CR || ch == LF)
    ensures var old' := u.ps.(line := u.ps.line.(major := 0, minor := 9), nread := u.ps.nread + 1);
            Step(u, ch) ==
            Go(old'.(state := if ch == CR then RequestVersion(ReqLineAlmostDone) else InHeader(FieldStart)), u.tr, Outer, u.pos + 1)
  {
    hide Emit;
    StepLooks(u, ch);
  }

  lemma RunOldEnd(u: Config, end: seq<Octet>)
    requires InStartLine(u, |end|) && u.ps.state.InUrl? && !BeforeHost(u.ps.state.url) && IsLineEnd(end)
    ensures Run(u, end) ==
            Go(u.ps.(state := InHeader(FieldStart), line := u.ps.line.(major := 0, minor := 9), nread := u.ps.nread + |end|), u.tr,
               Outer, u.pos + |end|)
  {
    hide Step, Run;
    StepOldEnd(u, end[0]);
    if end == CRLF {
      StepStartFeed(Step(u, CR));
      RunOne(u, CR);
      assert CRLF == [CR] + [LF];
      RunSnoc(u, [CR], LF);
    } else {
      RunOne(u, LF);
    }
  }

  // The fields behind a start line
  function Started(ps: Parser, s: Start): Parser {
    ps.(flags := NO_FLAGS, contentLength := ULLONG_MAX, line := LineSaid(s, ps.line))
  }

  lemma RunRequestLine(c: Config, s: Start)
    requires s.RequestLine? && ValidStart(s) && InStartLine(c, |StartText(s)|) && c.ps.state == Starting(StartReq)
    ensures var n := |StartText(s)|;
            Open(Run(c, StartText(s)), Started(c.ps, s), c.tr + StartEvents(s), c.ps.nread + n, c.pos + n)
  {
    hide Step, Run, Emit, MethodName, ValidNumber, DecimalValue, VersionText, TargetAfter, EndsWithData, IsGap;
    RunSkips(c, s.lead);
    var a := Run(c, s.lead);
    RunMethodGap(a, s.meth, s.gap);
    var word := MethodName(s.meth) + s.gap;
    RunConcat(c, s.lead, word);
    var b := Run(a, word);
    RunTarget(b, s.target);
    RunConcat(c, s.lead + word, s.target);
    var u := TargetConfig(b, s.target);
    RunVersionText(u, s.version, s.end);
    RunConcat(c, s.lead + word + s.target, VersionText(s.version) + s.end);
    assert s.lead + word + s.target + (VersionText(s.version) + s.end) == StartText(s);
    StartShown(c.tr, s.target);
  }

  // ----- Responses

  predicate AtResponse(c: Config, n: nat) {
    InStartLine(c, n) && c.ps.state == Starting(StartRes)
  }

  // The configuration after `n` bytes of "HTTP/"
  function NameConfigAt(c: Config, n: nat): Config
    requires c.Go? && 1 <= n <= 5
  {
    var state := if n == 1 then ResH else if n == 2 then ResHT else if n == 3 then ResHTT else if n == 4 then ResHTTP
                 else ResFirstMajor;
    Go(c.ps.(flags := NO_FLAGS, contentLength := ULLONG_MAX, state := ResponseLine(state), nread := c.ps.nread + n),
       Emit(c.tr, MessageBegin), Outer, c.pos + n)
  }

  lemma StepName(c: Config, n: nat)
    requires AtResponse(c, n + 1) && n < 5
    ensures Step(if n == 0 then c else NameConfigAt(c, n), HTTP[n]) == NameConfigAt(c, n + 1)
  {
    hide Emit;
    StepLooks(if n == 0 then c else NameConfigAt(c, n), HTTP[n]);
  }

  lemma {:induction false} RunNameTo(c: Config, n: nat)
    requires AtResponse(c, n) && 1 <= n <= 5
    ensures Run(c, HTTP[..n]) == NameConfigAt(c, n)
  {
    hide Step, NameConfigAt, HTTP;
    HttpHasFive();
    StepName(c, n - 1);
    assert HTTP[..n] == HTTP[..n - 1] + [HTTP[n - 1]];
    RunSnoc(c, HTTP[..n - 1], HTTP[n - 1]);
    if n == 1 {
      RunNothing(c, HTTP, 0);
      assert HTTP[..0] == HTTP[0..0];
    } else {
      RunNameTo(c, n - 1);
    }
  }

  lemma HttpHasFive()
    ensures |HTTP| == 5
  {
  }

  lemma StepSpaces(c: Config)
    requires InStartLine(c, 1)
    ensures c.ps.state == ResponseLine(ResMinor) ==> Step(c, ' ') == Moves(c, ResponseLine(ResFirstStatusCode))
    ensures c.ps.state == ResponseLine(ResStatusCode) ==> Step(c, ' ') == Moves(c, ResponseLine(ResStatusStart))
  {
    hide Emit;
    StepLooks(c, ' ');
  }

  lemma StepPhrase(c: Config, ch: Octet)
    requires InStartLine(c, 1) && ch != CR && ch != LF
    requires c.ps.state == ResponseLine(ResStatusStart) || c.ps.state == ResponseLine(ResStatus)
    ensures var d := Step(c, ch);
            && d.Go? && d.lane.Outer? && d.tr == Emit(c.tr, Data(Status, [ch])) && d.pos == c.pos + 1
            && d.ps == c.ps.(state := ResponseLine(ResStatus), index := d.ps.index, nread := c.ps.nread + 1)
  {
    hide Emit;
    StepLooks(c, ch);
  }

  // In a phrase, with `w` of it shown
  predicate PhraseRead(d: Config, c: Config, w: seq<Octet>)
    requires c.Go?
  {
    && d.Go? && d.lane.Outer? && d.tr == Emit(c.tr, Data(Status, w)) && d.pos == c.pos + |w|
    && d.ps == c.ps.(state := ResponseLine(ResStatus), index := d.ps.index, nread := c.ps.nread + |w|)
  }

  lemma {:induction false} RunPhrase(c: Config, w: seq<Octet>)
    requires InStartLine(c, |w|) && c.ps.state == ResponseLine(ResStatusStart) && w != [] && NoLineEnd(w)
    ensures PhraseRead(Run(c, w), c, w)
  {
    hide Step, Emit;
    var init, ch := w[..|w| - 1], w[|w| - 1];
    assert w == init + [ch];
    if |w| == 1 {
      assert w == [ch];
      RunOne(c, ch);
      StepPhrase(c, ch);
    } else {
      RunPhrase(c, init);
      StepPhrase(Run(c, init), ch);
      EmitTwice(c.tr, Status, init, [ch]);
      RunSnoc(c, init, ch);
    }
  }

  // What is behind the code, up to the header lines
  lemma RunPhraseText(c: Config, p: Phrase, end: seq<Octet>)
    requires InStartLine(c, |PhraseText(p)| + |end|) && c.ps.state == ResponseLine(ResStatusCode) && IsLineEnd(end)
    requires p.Phrase? ==> NoLineEnd(p.text)
    ensures var n := |PhraseText(p)| + |end|;
            var d := Run(c, PhraseText(p) + end);
            && d.Go? && d.lane.Outer? && d.pos == c.pos + n
            && d.tr == (if p.NoPhrase? || p.text == [] then c.tr else Emit(c.tr, Data(Status, p.text)))
            && d.ps == c.ps.(state := InHeader(FieldStart), index := d.ps.index, nread := c.ps.nread + n)
  {
    hide Step, Run, Emit, NoLineEnd;
    if p.NoPhrase? {
      assert PhraseText(p) + end == end;
      RunStartEnd(c, end);
    } else {
      StepSpaces(c);
      RunOne(c, ' ');
      var s := Moves(c, ResponseLine(ResStatusStart));
      RunConcat(c, [' '], p.text);
      if p.text == [] {
        assert PhraseText(p) == [' '];
        RunStartEnd(s, end);
      } else {
        RunPhrase(s, p.text);
        RunStartEnd(Run(s, p.text), end);
      }
      RunConcat(c, PhraseText(p), end);
    }
  }

  // Line ends in front of a response
  lemma {:induction false} RunLead(c: Config, w: seq<Octet>)
    requires AtResponse(c, |w|) && LineEnds(w)
    ensures w != [] ==>
              Run(c, w) ==
              Go(c.ps.(flags := NO_FLAGS, contentLength := ULLONG_MAX, nread := c.ps.nread + |w|), c.tr + Begins(|w|), Outer,
                 c.pos + |w|)
  {
    hide Step, Emit;
    if w != [] {
      var init, ch := w[..|w| - 1], w[|w| - 1];
      RunLead(c, init);
      StepLead(Run(c, init), ch);
      assert c.tr + Begins(|init|) == if init == [] then c.tr else c.tr + Begins(|init|);
      assert c.tr + Begins(|init|) + [MessageBegin] == c.tr + Begins(|w|);
    }
  }

  lemma StepLead(c: Config, ch: Octet)
    requires AtResponse(c, 1) && (ch == CR || ch == LF)
    ensures Step(c, ch) ==
            Go(c.ps.(flags := NO_FLAGS, contentLength := ULLONG_MAX, nread := c.ps.nread + 1), c.tr + [MessageBegin], Outer, c.pos + 1)
  {
    StepLooks(c, ch);
  }

  lemma StatusShown(tr: seq<Event>, s: Start)
    requires s.StatusLine?
    ensures var begun := Emit(tr + Begins(|s.lead|), MessageBegin);
            var shown := if s.phrase.NoPhrase? || s.phrase.text == [] then begun else Emit(begun, Data(Status, s.phrase.text));
            shown == tr + StartEvents(s) && !EndsWithData(shown, Field)
  {
    assert tr + Begins(|s.lead|) + [MessageBegin] == tr + Begins(|s.lead| + 1);
  }

  // Version and status code of a response
  function CodeText(s: Start): seq<Octet>
    requires s.StatusLine?
  {
    HTTP + (s.major + DOT + s.minor) + s.gap + s.code
  }

  function CodeConfig(c: Config, s: Start): Config
    requires c.Go? && s.StatusLine?
  {
    var n := |CodeText(s)|;
    Go(Started(c.ps, s).(state := ResponseLine(ResStatusCode), nread := c.ps.nread + n), Emit(c.tr, MessageBegin), Outer, c.pos + n)
  }

  lemma RunCode(c: Config, s: Start)
    requires s.StatusLine? && ValidStart(s) && AtResponse(c, |CodeText(s)|)
    ensures Run(c, CodeText(s)) == CodeConfig(c, s)
  {
    hide Step, Run, Emit, ValidNumber, DecimalValue, HTTP, NoLineEnd, FirstState, MoreState, IsLineEnd, LineEnds;
    StatesAre();
    HttpHasFive();
    RunNameTo(c, 5);
    assert HTTP[..5] == HTTP;
    var a := NameConfigAt(c, 5);
    RunNumbers(a, true, s.major, s.minor);
    var version := s.major + DOT + s.minor;
    RunConcat(c, HTTP, version);
    var b := VersionRead(a, true, s.major, s.minor);
    StepSpaces(b);
    RunOne(b, ' ');
    RunSkips(Moves(b, ResponseLine(ResFirstStatusCode)), s.gap[1..]);
    RunConcat(b, [' '], s.gap[1..]);
    assert [' '] + s.gap[1..] == s.gap;
    RunConcat(c, HTTP + version, s.gap);
    RunNumber(Run(b, s.gap), true, Code, s.code);
    RunConcat(c, HTTP + version + s.gap, s.code);
  }

  lemma StatusIs(s: Start)
    requires s.StatusLine?
    ensures StartText(s) == s.lead + (CodeText(s) + (PhraseText(s.phrase) + s.end))
  {
    hide PhraseText, HTTP;
  }

  // A status line, with no line ends in front of it
  lemma RunBareStatus(c: Config, s: Start)
    requires s.StatusLine? && ValidStart(s) && AtResponse(c, |StartText(s)| - |s.lead|)
    ensures var w, n := CodeText(s) + (PhraseText(s.phrase) + s.end), |StartText(s)| - |s.lead|;
            var begun := Emit(c.tr, MessageBegin);
            var shown := if s.phrase.NoPhrase? || s.phrase.text == [] then begun else Emit(begun, Data(Status, s.phrase.text));
            n == |w| && (!EndsWithData(shown, Field) ==> Open(Run(c, w), Started(c.ps, s), shown, c.ps.nread + n, c.pos + n))
  {
    hide Step, Run, Emit, ValidNumber, EndsWithData, NoLineEnd, PhraseText, CodeText, StartText, LineSaid, LineEnds, IsGap;
    StatusIs(s);
    RunCode(c, s);
    RunPhraseText(CodeConfig(c, s), s.phrase, s.end);
    RunConcat(c, CodeText(s), PhraseText(s.phrase) + s.end);
  }

  lemma RunStatusLine(c: Config, s: Start)
    requires s.StatusLine? && ValidStart(s) && AtResponse(c, |StartText(s)|)
    ensures var n := |StartText(s)|;
            Open(Run(c, StartText(s)), Started(c.ps, s), c.tr + StartEvents(s), c.ps.nread + n, c.pos + n)
  {
    hide Step, Run, Emit, ValidNumber, EndsWithData, NoLineEnd, PhraseText, CodeText, StartText, LineSaid, IsGap;
    StatusIs(s);
    RunLead(c, s.lead);
    if s.lead == [] {
      RunNothing(c, [], 0);
      assert c.tr + Begins(0) == c.tr;
    }
    RunBareStatus(Run(c, s.lead), s);
    RunConcat(c, s.lead, CodeText(s) + (PhraseText(s.phrase) + s.end));
    StatusShown(c.tr, s);
  }

  // ----- A parser that takes both

  // The same configuration, with the parser set to one kind of message
  function SetTo(c: Config, response: bool): Config
    requires c.Go?
  {
    Go(c.ps.(kind := if response then ParserType.Response else ParserType.Request,
             state := Starting(if response then StartRes else StartReq)), c.tr, c.lane, c.pos)
  }

  lemma LookEither(ps: Parser, tr: seq<Event>, ch: Octet)
    requires ps.state == Starting(StartReqOrRes) && ch != CR && ch != LF && ch != 'H'
    ensures Look(ps, tr, false, ch) ==
            Again(ps.(flags := NO_FLAGS, contentLength := ULLONG_MAX, kind := ParserType.Request, state := Starting(StartReq)), tr)
  {
    hide Emit;
  }

  lemma LookRequest(ps: Parser, ps': Parser, tr: seq<Event>, ch: Octet)
    requires ps.state == ps'.state == Starting(StartReq) && ch != CR && ch != LF
    requires ps' == ps.(flags := ps'.flags, contentLength := ps'.contentLength)
    ensures Look(ps, tr, false, ch) == Look(ps', tr, false, ch) && !Look(ps, tr, false, ch).Again?
    ensures Look(ps, tr, false, ch).Next? ==> Look(ps, tr, false, ch).ps.state == ReqMethod
  {
    hide Emit, MethodGuess;
  }

  lemma LookH(ps: Parser, tr: seq<Event>)
    ensures ps.state == Starting(StartReqOrRes) ==>
              Look(ps, tr, false, 'H') ==
              Next(ps.(flags := NO_FLAGS, contentLength := ULLONG_MAX, state := Starting(ResOrRespH)), Emit(tr, MessageBegin))
    ensures ps.state == Starting(StartRes) ==>
              Look(ps, tr, false, 'H') ==
              Next(ps.(flags := NO_FLAGS, contentLength := ULLONG_MAX, state := ResponseLine(ResH)), Emit(tr, MessageBegin))
    ensures ps.state == Starting(StartReq) ==>
              Look(ps, tr, false, 'H') ==
              Next(ps.(flags := NO_FLAGS, contentLength := ULLONG_MAX, line := ps.line.(meth := HEAD), index := 1, state := ReqMethod),
                   Emit(tr, MessageBegin))
  {
    hide Emit;
  }

  lemma LookSecond(ps: Parser, tr: seq<Event>, ch: Octet)
    ensures ps.state == Starting(ResOrRespH) ==>
              Look(ps, tr, false, ch) ==
              if ch == 'T' then Next(ps.(kind := ParserType.Response, state := ResponseLine(ResHT)), tr)
              else if ch == 'E' then
                Next(ps.(kind := ParserType.Request, line := ps.line.(meth := HEAD), index := 2, state := ReqMethod), tr)
              else Err(InvalidConstant)
    ensures ps.state == ResponseLine(ResH) && ch == 'T' ==>
              Look(ps, tr, false, ch) == Next(ps.(state := ResponseLine(ResHT)), tr)
    ensures ps.state == ReqMethod && ps.line.meth.HEAD? && ps.index == 1 && ch == 'E' ==>
              Look(ps, tr, false, ch) == Next(ps.(index := 2), tr)
  {
    hide Emit;
  }

  // Two bytes tell a response from a request: whatever begins with "HT" is read
  // as by a parser of responses, what begins with "HE" or another letter as by
  // a parser of requests, and other bytes behind an 'H' are refused.
  lemma EitherIsRead(c: Config, w: seq<Octet>)
    requires InStartLine(c, 2) && c.ps.state == Starting(StartReqOrRes) && |w| >= 2 && w[0] != CR && w[0] != LF
    ensures if w[0] != 'H' || w[1] == 'E' then Run(c, w) == Run(SetTo(c, false), w)
            else if w[1] == 'T' then Run(c, w) == Run(SetTo(c, true), w)
            else Run(c, w) == Bad(InvalidConstant, c.pos + 1)
  {
    hide Step, Run, Look, Dispatch;
    var req, res := SetTo(c, false), SetTo(c, true);
    var rest := w[1..];
    RunCons(c, w);
    RunCons(req, w);
    RunCons(res, w);
    StepLooks(c, w[0]);
    StepLooks(req, w[0]);
    StepLooks(res, w[0]);
    if w[0] != 'H' {
      var begun := c.ps.(nread := c.ps.nread + 1, flags := NO_FLAGS, contentLength := ULLONG_MAX, kind := ParserType.Request,
                         state := Starting(StartReq));
      LookEither(c.ps.(nread := c.ps.nread + 1), c.tr, w[0]);
      LookRequest(begun, req.ps.(nread := req.ps.nread + 1), c.tr, w[0]);
      DispatchOnce(begun, c.tr, Outer, w[0], c.pos);
    } else {
      LookH(c.ps.(nread := c.ps.nread + 1), c.tr);
      LookH(req.ps.(nread := req.ps.nread + 1), c.tr);
      LookH(res.ps.(nread := res.ps.nread + 1), c.tr);
      SecondByte(Step(c, 'H'), Step(req, 'H'), Step(res, 'H'), w[1]);
      RunCons(Step(c, 'H'), rest);
      RunCons(Step(req, 'H'), rest);
      RunCons(Step(res, 'H'), rest);
      if w[1] != 'T' && w[1] != 'E' {
        RunOfStopped(Step(Step(c, 'H'), w[1]), rest[1..]);
      }
    }
  }

  lemma SecondByte(a: Config, req: Config, res: Config, ch: Octet)
    requires InStartLine(a, 1) && InStartLine(req, 1) && InStartLine(res, 1)
    requires a.ps.state == Starting(ResOrRespH)
    requires req.ps == a.ps.(kind := ParserType.Request, line := a.ps.line.(meth := HEAD), index := 1, state := ReqMethod)
    requires res.ps == a.ps.(kind := ParserType.Response, state := ResponseLine(ResH))
    requires req.tr == res.tr == a.tr && req.pos == res.pos == a.pos
    ensures if ch == 'E' then Step(a, ch) == Step(req, ch)
            else if ch == 'T' then Step(a, ch) == Step(res, ch)
            else Step(a, ch) == Bad(InvalidConstant, a.pos)
  {
    hide Look, Step, Dispatch;
    StepLooks(a, ch);
    StepLooks(req, ch);
    StepLooks(res, ch);
    LookSecond(a.ps.(nread := a.ps.nread + 1), a.tr, ch);
    LookSecond(req.ps.(nread := req.ps.nread + 1), req.tr, ch);
    LookSecond(res.ps.(nread := res.ps.nread + 1), res.tr, ch);
  }
}
