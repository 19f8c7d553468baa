// Exactly which start lines are taken: no parser gets to the header lines
// behind anything that is not a printed start line.
module HttpHeadExactly {
  import opened HttpChars
  import opened HttpTypes
  import opened HttpMachine
  import opened HttpBulk
  import opened HttpInvariant
  import opened HttpSplit
  import opened HttpMethod
  import opened HttpLengths
  import opened HttpRequest
  import opened HttpLines
  import opened HttpHead

  // ----- Request lines

  // The parts of a request line as far as it has been read
  datatype Req = Req(lead: seq<Octet>, word: seq<Octet>, gap: seq<Octet>, target: seq<Octet>, space: seq<Octet>, name: seq<Octet>,
                     major: seq<Octet>, dot: seq<Octet>, minor: seq<Octet>, end: seq<Octet>)

  function Told(r: Req): seq<Octet> {
    r.lead + r.word + r.gap + r.target + r.space + r.name + r.major + r.dot + r.minor + r.end
  }

  predicate NoNumbers(r: Req) {
    r.major == [] && r.dot == [] && r.minor == [] && r.end == []
  }

  predicate NoVersion(r: Req) {
    r.space == [] && r.name == [] && r.major == [] && r.dot == [] && r.minor == []
  }

  predicate WordOk(r: Req, line: StartLine) {
    r.word == MethodName(line.meth) && r.gap != []
  }

  predicate TargetOk(r: Req, line: StartLine) {
    WordOk(r, line) && ValidTarget(line.meth.CONNECT?, r.target)
  }

  predicate NameOk(r: Req, line: StartLine, n: nat) {
    TargetOk(r, line) && r.space != [] && n <= |HTTP| && r.name == HTTP[..n]
  }

  predicate MajorOk(r: Req, line: StartLine) {
    NameOk(r, line, 5) && ValidNumber(r.major) && r.major[0] != '0'
  }

  predicate MinorOk(r: Req, line: StartLine) {
    MajorOk(r, line) && r.dot == DOT && ValidNumber(r.minor)
  }

  // How many bytes of "HTTP/" have been read
  function NameLength(v: VersionState): nat {
    match v
    case ReqH => 1
    case ReqHT => 2
    case ReqHTT => 3
    case ReqHTTP => 4
    case ReqFirstMajor => 5
    case _ => 0
  }

  predicate VersionBegun(r: Req, line: StartLine, v: VersionState) {
    match v
    case ReqHttpStart => TargetOk(r, line) && r.space != [] && r.name == [] && NoNumbers(r)
    case ReqMajor => MajorOk(r, line) && line.major == DecimalValue(r.major) && r.dot == [] && r.minor == [] && r.end == []
    case ReqFirstMinor => MajorOk(r, line) && r.dot == DOT && r.minor == [] && r.end == []
    case ReqMinor => MinorOk(r, line) && line.minor == DecimalValue(r.minor) && r.end == []
    case ReqLineAlmostDone => LineOk(r, line) && r.end == [CR]
    case _ => NameOk(r, line, NameLength(v)) && NoNumbers(r)
  }

  predicate LineOk(r: Req, line: StartLine) {
    if r.space == [] then TargetOk(r, line) && NoVersion(r) else MinorOk(r, line)
  }

  predicate Blanks(r: Req) {
    LineEnds(r.lead) && Spaces(r.gap) && Spaces(r.space)
  }

  // What the parts are in a state
  predicate ReqBegun(r: Req, ps: Parser) {
    && Blanks(r)
    && match ps.state
       case Starting(StartReq) => r.word == [] && r.gap == [] && r.target == [] && NoVersion(r) && r.end == []
       case ReqMethod =>
         && 1 <= |r.word| <= |MethodName(ps.line.meth)| && ps.index == |r.word| && r.word == MethodName(ps.line.meth)[..|r.word|]
         && r.gap == [] && r.target == [] && NoVersion(r) && r.end == []
       case ReqSpacesBeforeUrl => WordOk(r, ps.line) && r.target == [] && NoVersion(r) && r.end == []
       case InUrl(s) =>
         && WordOk(r, ps.line) && r.target != [] && TargetAfter(ps.line.meth.CONNECT?, r.target) == UrlNext(s)
         && NoVersion(r) && r.end == []
       case RequestVersion(v) => VersionBegun(r, ps.line, v)
       case InHeader(FieldStart) => LineOk(r, ps.line) && IsLineEnd(r.end)
       case _ => false
  }

  // The parts with the byte that led to a state
  function PutReq(r: Req, s: State, ch: Octet): Req {
    match s
    case Starting(_) => r.(lead := r.lead + [ch])
    case ReqMethod => r.(word := r.word + [ch])
    case ReqSpacesBeforeUrl => r.(gap := r.gap + [ch])
    case InUrl(_) => r.(target := r.target + [ch])
    case RequestVersion(ReqHttpStart) => r.(space := r.space + [ch])
    case RequestVersion(ReqMajor) => r.(major := r.major + [ch])
    case RequestVersion(ReqFirstMinor) => r.(dot := r.dot + [ch])
    case RequestVersion(ReqMinor) => r.(minor := r.minor + [ch])
    case RequestVersion(ReqLineAlmostDone) => r.(end := r.end + [ch])
    case RequestVersion(_) => r.(name := r.name + [ch])
    case _ => r.(end := r.end + [ch])
  }

  // Which part a byte belongs to that led to a state
  function PartOf(s: State): nat {
    match s
    case Starting(_) => 0
    case ReqMethod => 1
    case ReqSpacesBeforeUrl => 2
    case InUrl(_) => 3
    case RequestVersion(ReqHttpStart) => 4
    case RequestVersion(ReqMajor) => 6
    case RequestVersion(ReqFirstMinor) => 7
    case RequestVersion(ReqMinor) => 8
    case RequestVersion(ReqLineAlmostDone) => 9
    case RequestVersion(_) => 5
    case _ => 9
  }

  predicate NothingBehind(r: Req, k: nat) {
    && (k <= 0 ==> r.word == []) && (k <= 1 ==> r.gap == []) && (k <= 2 ==> r.target == []) && (k <= 3 ==> r.space == [])
    && (k <= 4 ==> r.name == []) && (k <= 5 ==> r.major == []) && (k <= 6 ==> r.dot == []) && (k <= 7 ==> r.minor == [])
    && (k <= 8 ==> r.end == [])
  }

  lemma PutIsLast(r: Req, s: State, ch: Octet)
    requires NothingBehind(r, PartOf(s))
    ensures Told(PutReq(r, s, ch)) == Told(r) + [ch]
  {
    hide Told, PutReq;
    if PartOf(s) <= 4 {
      PutInFront(r, s, ch);
    } else {
      PutBehind(r, s, ch);
    }
  }

  lemma PutInFront(r: Req, s: State, ch: Octet)
    requires NothingBehind(r, PartOf(s)) && PartOf(s) <= 4
    ensures Told(PutReq(r, s, ch)) == Told(r) + [ch]
  {
  }

  lemma PutBehind(r: Req, s: State, ch: Octet)
    requires NothingBehind(r, PartOf(s)) && PartOf(s) > 4
    ensures Told(PutReq(r, s, ch)) == Told(r) + [ch]
  {
  }

  // The byte leads from one state to the next, and stands behind the others.
  ghost predicate ReqStep(r: Req, ps: Parser, tr: seq<Event>, ch: Octet) {
    var act := Look(ps, tr, false, ch);
    && !act.Again? && !act.Leave?
    && (act.Next? ==>
          && LaneAfter(ps, act.ps).Outer? && NothingBehind(r, PartOf(act.ps.state))
          && ReqBegun(PutReq(r, act.ps.state, ch), act.ps))
  }

  lemma MoreBlanks(w: seq<Octet>, ch: Octet)
    ensures LineEnds(w) && (ch == CR || ch == LF) ==> LineEnds(w + [ch])
    ensures Spaces(w) && ch == ' ' ==> Spaces(w + [ch])
  {
  }

  lemma StartLeads(r: Req, ps: Parser, tr: seq<Event>, ch: Octet)
    requires ReqBegun(r, ps) && ps.state == Starting(StartReq)
    ensures ReqStep(r, ps, tr, ch)
  {
    hide Emit, MethodGuess, MethodName, TargetAfter, ValidNumber;
    MoreBlanks(r.lead, ch);
    if MethodGuess(ch).Known? {
      FirstLetterFits(ch);
      assert MethodName(MethodGuess(ch).meth)[..1] == [ch];
    }
  }

  lemma MethodLeads(r: Req, ps: Parser, tr: seq<Event>, ch: Octet)
    requires ReqBegun(r, ps) && ps.state == ReqMethod
    ensures ReqStep(r, ps, tr, ch)
  {
    hide Emit, MethodSwitch, MethodName, TargetAfter, ValidNumber;
    MoreBlanks(r.gap, ch);
    var m, n := ps.line.meth, ps.index;
    if ch != NUL {
      NextFits(m, n, ch);
      if ch == ' ' && CharAt(MethodName(m), n) == NUL {
        NameHasNoNul(m);
        assert MethodName(m)[..n] == MethodName(m);
      } else if NextGuess(m, n, ch).Known? {
        var m' := NextGuess(m, n, ch).meth;
        assert MethodName(m')[..n + 1] == MethodName(m')[..n] + [ch];
      }
    }
  }

  lemma NameHasNoNul(m: Method)
    ensures forall k :: 0 <= k < |MethodName(m)| ==> MethodName(m)[k] != NUL
  {
    hide MethodName;
    NameChars(m);
  }

  lemma UrlStartLeads(r: Req, ps: Parser, tr: seq<Event>, ch: Octet)
    requires ReqBegun(r, ps) && ps.state == ReqSpacesBeforeUrl
    ensures ReqStep(r, ps, tr, ch)
  {
    hide Emit, MethodName, UrlChar, FirstUrlChar, ValidNumber;
    MoreBlanks(r.gap, ch);
    assert r.target + [ch] == [ch];
  }

  lemma UrlLeads(r: Req, ps: Parser, tr: seq<Event>, ch: Octet)
    requires ReqBegun(r, ps) && ps.state.InUrl?
    ensures ReqStep(r, ps, tr, ch)
  {
    hide Emit, MethodName, UrlChar, FirstUrlChar, ValidNumber;
    MoreBlanks(r.space, ch);
    assert (r.target + [ch])[..|r.target|] == r.target;
  }

  lemma NameLeads(r: Req, ps: Parser, tr: seq<Event>, ch: Octet)
    requires ReqBegun(r, ps) && ps.state.RequestVersion?
    requires ps.state.version.ReqHttpStart? || 1 <= NameLength(ps.state.version) <= 4
    ensures ReqStep(r, ps, tr, ch)
  {
    hide Emit, MethodName, ValidNumber, ValidTarget;
    MoreBlanks(r.space, ch);
  }

  lemma FirstDigit(ch: Octet)
    ensures IsNum(ch) ==> ValidNumber([ch]) && DecimalValue([ch]) == DigitValue(ch)
  {
    assert [ch][..0] == [] && DecimalValue([]) == 0;
  }

  lemma MoreNumber(w: seq<Octet>, ch: Octet)
    requires ValidNumber(w) && IsNum(ch)
    ensures DecimalValue(w + [ch]) == MoreDigits(DecimalValue(w), ch)
    ensures MoreDigits(DecimalValue(w), ch) <= 999 ==> ValidNumber(w + [ch])
  {
    DecimalMore(w + [ch]);
    assert (w + [ch])[..|w|] == w;
  }

  lemma FirstMajorLeads(r: Req, ps: Parser, tr: seq<Event>, ch: Octet)
    requires ReqBegun(r, ps) && ps.state == RequestVersion(ReqFirstMajor)
    ensures ReqStep(r, ps, tr, ch)
  {
    hide Emit, MethodName, ValidNumber, ValidTarget, IsNum, DecimalValue, MoreDigits;
    FirstDigit(ch);
    assert r.major + [ch] == [ch];
  }

  lemma MajorLeads(r: Req, ps: Parser, tr: seq<Event>, ch: Octet)
    requires ReqBegun(r, ps) && ps.state == RequestVersion(ReqMajor)
    ensures ReqStep(r, ps, tr, ch)
  {
    hide Emit, MethodName, ValidNumber, ValidTarget, IsNum, DecimalValue, MoreDigits;
    if ch != '.' && IsNum(ch) {
      MoreNumber(r.major, ch);
      NotEmpty(r.major);
    }
  }

  lemma NotEmpty(w: seq<Octet>)
    requires ValidNumber(w)
    ensures w != []
  {
  }

  lemma FirstMinorLeads(r: Req, ps: Parser, tr: seq<Event>, ch: Octet)
    requires ReqBegun(r, ps) && ps.state == RequestVersion(ReqFirstMinor)
    ensures ReqStep(r, ps, tr, ch)
  {
    hide Emit, MethodName, ValidNumber, ValidTarget, IsNum, DecimalValue, MoreDigits;
    FirstDigit(ch);
    assert r.minor + [ch] == [ch];
  }

  lemma MinorLeads(r: Req, ps: Parser, tr: seq<Event>, ch: Octet)
    requires ReqBegun(r, ps) && ps.state == RequestVersion(ReqMinor)
    ensures ReqStep(r, ps, tr, ch)
  {
    hide Emit, MethodName, ValidNumber, ValidTarget, IsNum, DecimalValue, MoreDigits;
    assert r.end + [ch] == [ch];
    if IsNum(ch) {
      MoreNumber(r.minor, ch);
    }
  }

  lemma EndLeads(r: Req, ps: Parser, tr: seq<Event>, ch: Octet)
    requires ReqBegun(r, ps) && ps.state == RequestVersion(ReqLineAlmostDone)
    ensures ReqStep(r, ps, tr, ch)
  {
    hide Emit, MethodName, ValidNumber, ValidTarget, IsNum, DecimalValue, MoreDigits;
    assert [CR] + [LF] == CRLF;
  }

  lemma AnyLeads(r: Req, ps: Parser, tr: seq<Event>, ch: Octet)
    requires ReqBegun(r, ps) && ps.state != InHeader(FieldStart)
    ensures ReqStep(r, ps, tr, ch)
  {
    hide ReqStep;
    if ps.state == Starting(StartReq) {
      StartLeads(r, ps, tr, ch);
    } else if ps.state == ReqMethod {
      MethodLeads(r, ps, tr, ch);
    } else if ps.state == ReqSpacesBeforeUrl {
      UrlStartLeads(r, ps, tr, ch);
    } else if ps.state.InUrl? {
      UrlLeads(r, ps, tr, ch);
    } else if ps.state.version.ReqFirstMajor? {
      FirstMajorLeads(r, ps, tr, ch);
    } else if ps.state.version.ReqMajor? {
      MajorLeads(r, ps, tr, ch);
    } else if ps.state.version.ReqFirstMinor? {
      FirstMinorLeads(r, ps, tr, ch);
    } else if ps.state.version.ReqMinor? {
      MinorLeads(r, ps, tr, ch);
    } else if ps.state.version.ReqLineAlmostDone? {
      EndLeads(r, ps, tr, ch);
    } else {
      NameLeads(r, ps, tr, ch);
    }
  }

  // Every part of `w` before its end leaves the parser in the start line.
  predicate StartLineRead(c: Config, w: seq<Octet>) {
    && Run(c, w).Go?
    && forall k :: 0 <= k < |w| ==> Run(c, w[..k]).Go? && Run(c, w[..k]).ps.state != InHeader(FieldStart)
  }

  lemma ReadBefore(c: Config, w: seq<Octet>)
    requires StartLineRead(c, w) && w != []
    ensures var init := w[..|w| - 1]; StartLineRead(c, init) && Run(c, init).Go? && Run(c, init).ps.state != InHeader(FieldStart)
    ensures Run(c, w).Go?
  {
    hide Run;
    var init := w[..|w| - 1];
    forall k | 0 <= k < |init| ensures Run(c, init[..k]).Go? && Run(c, init[..k]).ps.state != InHeader(FieldStart) {
      assert init[..k] == w[..k];
    }
    assert w[..|w| - 1] == init;
  }

  lemma StepIsNext(c: Config, ch: Octet)
    requires c.Go? && c.lane.Outer? && Step(c, ch).Go? && ParsingHeader(c.ps.state)
    ensures var counted := c.ps.(nread := c.ps.nread + 1);
            InStartLine(c, 1) && Step(c, ch) == After(counted, Look(counted, c.tr, false, ch), ch, c.pos)
  {
    hide Dispatch, Look;
    StepLooks(c, ch);
  }

  lemma {:induction false} RequestHasParts(c: Config, w: seq<Octet>) returns (r: Req)
    requires c.Go? && c.lane.Outer? && c.ps.state == Starting(StartReq) && StartLineRead(c, w)
    ensures Run(c, w).lane.Outer? && ReqBegun(r, Run(c, w).ps) && Told(r) == w
  {
    hide Step, StartLineRead, ReqBegun, Look, Told, PutReq, NothingBehind, Dispatch;
    if w == [] {
      r := Req([], [], [], [], [], [], [], [], [], []);
      NothingTold(c);
    } else {
      var init, ch := w[..|w| - 1], w[|w| - 1];
      assert init + [ch] == w;
      ReadBefore(c, w);
      var r0 := RequestHasParts(c, init);
      var d := Run(c, init);
      BegunIsHeader(r0, d.ps);
      StepIsNext(d, ch);
      var counted := d.ps.(nread := d.ps.nread + 1);
      BegunUncounted(r0, d.ps);
      AnyLeads(r0, counted, d.tr, ch);
      var next := Step(d, ch).ps.state;
      PutIsLast(r0, next, ch);
      r := PutReq(r0, next, ch);
    }
  }

  lemma NothingTold(c: Config)
    requires c.Go? && c.ps.state == Starting(StartReq)
    ensures var r := Req([], [], [], [], [], [], [], [], [], []); ReqBegun(r, c.ps) && Told(r) == []
  {
  }

  lemma BegunIsHeader(r: Req, ps: Parser)
    requires ReqBegun(r, ps)
    ensures ParsingHeader(ps.state)
  {
  }

  lemma BegunUncounted(r: Req, ps: Parser)
    requires ReqBegun(r, ps)
    ensures ReqBegun(r, ps.(nread := ps.nread + 1))
  {
  }

  // Request lines: what leads to the header lines is a printed request line.
  lemma RequestIsSpelled(c: Config, w: seq<Octet>) returns (s: Start)
    requires c.Go? && c.lane.Outer? && c.ps.state == Starting(StartReq) && StartLineRead(c, w)
    requires Run(c, w).ps.state == InHeader(FieldStart)
    ensures s.RequestLine? && ValidStart(s) && StartText(s) == w
  {
    hide Run, MethodName, ValidNumber, ValidTarget, HTTP;
    var r := RequestHasParts(c, w);
    HttpHasFive();
    assert HTTP[..5] == HTTP;
    s := RequestLine(r.lead, Run(c, w).ps.line.meth, r.gap, r.target, if r.space == [] then Old else Numbered(r.space, r.major, r.minor),
                     r.end);
  }

  // ----- Status lines

  // The parts of a status line as far as it has been read, the reason phrase
  // with the space before it
  datatype Res = Res(lead: seq<Octet>, name: seq<Octet>, major: seq<Octet>, dot: seq<Octet>, minor: seq<Octet>, gap: seq<Octet>,
                     code: seq<Octet>, phrase: seq<Octet>, end: seq<Octet>)

  function Said(r: Res): seq<Octet> {
    r.lead + r.name + r.major + r.dot + r.minor + r.gap + r.code + r.phrase + r.end
  }

  predicate NothingSaid(r: Res, k: nat) {
    && (k <= 0 ==> r.name == []) && (k <= 1 ==> r.major == []) && (k <= 2 ==> r.dot == []) && (k <= 3 ==> r.minor == [])
    && (k <= 4 ==> r.gap == []) && (k <= 5 ==> r.code == []) && (k <= 6 ==> r.phrase == []) && (k <= 7 ==> r.end == [])
  }

  predicate NumbersOk(r: Res) {
    r.name == HTTP && ValidNumber(r.major) && r.dot == DOT && ValidNumber(r.minor)
  }

  predicate CodeOk(r: Res) {
    NumbersOk(r) && r.gap != [] && ValidNumber(r.code)
  }

  predicate PhraseOk(r: Res) {
    r.phrase != [] ==> r.phrase[0] == ' ' && NoLineEnd(r.phrase[1..])
  }

  function ResNameLength(s: ResponseState): nat {
    match s
    case ResH => 1
    case ResHT => 2
    case ResHTT => 3
    case ResHTTP => 4
    case _ => 5
  }

  predicate StatusBegun(r: Res, line: StartLine, s: ResponseState) {
    match s
    case ResMajor => r.name == HTTP && ValidNumber(r.major) && line.major == DecimalValue(r.major) && NothingSaid(r, 2)
    case ResFirstMinor => r.name == HTTP && ValidNumber(r.major) && r.dot == DOT && NothingSaid(r, 3)
    case ResMinor => NumbersOk(r) && line.minor == DecimalValue(r.minor) && NothingSaid(r, 4)
    case ResFirstStatusCode => NumbersOk(r) && r.gap != [] && NothingSaid(r, 5)
    case ResStatusCode => CodeOk(r) && line.status == DecimalValue(r.code) && NothingSaid(r, 6)
    case ResStatusStart => CodeOk(r) && r.phrase == [' '] && PhraseOk(r) && r.end == []
    case ResStatus => CodeOk(r) && r.phrase != [] && PhraseOk(r) && r.end == []
    case ResLineAlmostDone => CodeOk(r) && PhraseOk(r) && r.end == [CR]
    case _ => |HTTP| == 5 && r.name == HTTP[..ResNameLength(s)] && NothingSaid(r, 1)
  }

  predicate ResBegun(r: Res, ps: Parser) {
    && LineEnds(r.lead) && Spaces(r.gap)
    && match ps.state
       case Starting(StartRes) => NothingSaid(r, 0)
       case ResponseLine(s) => StatusBegun(r, ps.line, s)
       case InHeader(FieldStart) => CodeOk(r) && PhraseOk(r) && IsLineEnd(r.end)
       case _ => false
  }

  function PutRes(r: Res, s: State, ch: Octet): Res {
    match s
    case Starting(_) => r.(lead := r.lead + [ch])
    case ResponseLine(ResMajor) => r.(major := r.major + [ch])
    case ResponseLine(ResFirstMinor) => r.(dot := r.dot + [ch])
    case ResponseLine(ResMinor) => r.(minor := r.minor + [ch])
    case ResponseLine(ResFirstStatusCode) => r.(gap := r.gap + [ch])
    case ResponseLine(ResStatusCode) => r.(code := r.code + [ch])
    case ResponseLine(ResStatusStart) => r.(phrase := r.phrase + [ch])
    case ResponseLine(ResStatus) => r.(phrase := r.phrase + [ch])
    case ResponseLine(ResLineAlmostDone) => r.(end := r.end + [ch])
    case ResponseLine(_) => r.(name := r.name + [ch])
    case _ => r.(end := r.end + [ch])
  }

  function SaidPart(s: State): nat {
    match s
    case Starting(_) => 0
    case ResponseLine(ResMajor) => 2
    case ResponseLine(ResFirstMinor) => 3
    case ResponseLine(ResMinor) => 4
    case ResponseLine(ResFirstStatusCode) => 5
    case ResponseLine(ResStatusCode) => 6
    case ResponseLine(ResStatusStart) => 7
    case ResponseLine(ResStatus) => 7
    case ResponseLine(ResLineAlmostDone) => 8
    case ResponseLine(_) => 1
    case _ => 8
  }

  lemma SaidLast(r: Res, s: State, ch: Octet)
    requires NothingSaid(r, SaidPart(s))
    ensures Said(PutRes(r, s, ch)) == Said(r) + [ch]
  {
    hide Said, PutRes;
    if SaidPart(s) <= 4 {
      SaidInFront(r, s, ch);
    } else {
      SaidBehind(r, s, ch);
    }
  }

  lemma SaidInFront(r: Res, s: State, ch: Octet)
    requires NothingSaid(r, SaidPart(s)) && SaidPart(s) <= 4
    ensures Said(PutRes(r, s, ch)) == Said(r) + [ch]
  {
  }

  lemma SaidBehind(r: Res, s: State, ch: Octet)
    requires NothingSaid(r, SaidPart(s)) && SaidPart(s) > 4
    ensures Said(PutRes(r, s, ch)) == Said(r) + [ch]
  {
  }

  ghost predicate ResStep(r: Res, ps: Parser, tr: seq<Event>, ch: Octet) {
    var act := Look(ps, tr, false, ch);
    && !act.Again? && !act.Leave?
    && (act.Next? ==>
          && LaneAfter(ps, act.ps).Outer? && NothingSaid(r, SaidPart(act.ps.state))
          && ResBegun(PutRes(r, act.ps.state, ch), act.ps))
  }

  lemma LeadSays(r: Res, ps: Parser, tr: seq<Event>, ch: Octet)
    requires ResBegun(r, ps) && ps.state == Starting(StartRes)
    ensures ResStep(r, ps, tr, ch)
  {
    hide Emit, ValidNumber;
    MoreBlanks(r.lead, ch);
    assert [] + [ch] == [ch];
  }

  lemma NameSays(r: Res, ps: Parser, tr: seq<Event>, ch: Octet)
    requires ResBegun(r, ps) && ps.state.ResponseLine? && ResNameLength(ps.state.response) < 5
    ensures ResStep(r, ps, tr, ch)
  {
    hide Emit, ValidNumber;
  }

  lemma FirstMajorSays(r: Res, ps: Parser, tr: seq<Event>, ch: Octet)
    requires ResBegun(r, ps) && ps.state == ResponseLine(ResFirstMajor)
    ensures ResStep(r, ps, tr, ch)
  {
    hide Emit, ValidNumber, IsNum, DecimalValue, MoreDigits;
    FirstDigit(ch);
    assert r.major + [ch] == [ch];
  }

  lemma MajorSays(r: Res, ps: Parser, tr: seq<Event>, ch: Octet)
    requires ResBegun(r, ps) && ps.state == ResponseLine(ResMajor)
    ensures ResStep(r, ps, tr, ch)
  {
    hide Emit, ValidNumber, IsNum, DecimalValue, MoreDigits;
    if ch != '.' && IsNum(ch) {
      MoreNumber(r.major, ch);
    }
  }

  lemma FirstMinorSays(r: Res, ps: Parser, tr: seq<Event>, ch: Octet)
    requires ResBegun(r, ps) && ps.state == ResponseLine(ResFirstMinor)
    ensures ResStep(r, ps, tr, ch)
  {
    hide Emit, ValidNumber, IsNum, DecimalValue, MoreDigits;
    FirstDigit(ch);
    assert r.minor + [ch] == [ch];
  }

  lemma MinorSays(r: Res, ps: Parser, tr: seq<Event>, ch: Octet)
    requires ResBegun(r, ps) && ps.state == ResponseLine(ResMinor)
    ensures ResStep(r, ps, tr, ch)
  {
    hide Emit, ValidNumber, IsNum, DecimalValue, MoreDigits;
    MoreBlanks(r.gap, ch);
    if ch != ' ' && IsNum(ch) {
      MoreNumber(r.minor, ch);
    }
  }

  lemma FirstCodeSays(r: Res, ps: Parser, tr: seq<Event>, ch: Octet)
    requires ResBegun(r, ps) && ps.state == ResponseLine(ResFirstStatusCode)
    ensures ResStep(r, ps, tr, ch)
  {
    hide Emit, ValidNumber, IsNum, DecimalValue, MoreDigits;
    MoreBlanks(r.gap, ch);
    FirstDigit(ch);
    assert r.code + [ch] == [ch];
  }

  lemma CodeSays(r: Res, ps: Parser, tr: seq<Event>, ch: Octet)
    requires ResBegun(r, ps) && ps.state == ResponseLine(ResStatusCode)
    ensures ResStep(r, ps, tr, ch)
  {
    hide Emit, ValidNumber, IsNum, DecimalValue, MoreDigits;
    if IsNum(ch) {
      DigitIsNoMark(ch);
      MoreNumber(r.code, ch);
    }
  }

  lemma PhraseSays(r: Res, ps: Parser, tr: seq<Event>, ch: Octet)
    requires ResBegun(r, ps) && (ps.state == ResponseLine(ResStatusStart) || ps.state == ResponseLine(ResStatus))
    ensures ResStep(r, ps, tr, ch)
  {
    hide Emit, ValidNumber, NoLineEnd, HTTP, DOT;
    MorePhrase(r.phrase, ch);
    assert r.end + [ch] == [ch];
  }

  lemma MorePhrase(w: seq<Octet>, ch: Octet)
    requires w != [] && NoLineEnd(w[1..])
    ensures ch != CR && ch != LF ==> NoLineEnd((w + [ch])[1..])
  {
    assert (w + [ch])[1..] == w[1..] + [ch];
  }

  lemma EndSays(r: Res, ps: Parser, tr: seq<Event>, ch: Octet)
    requires ResBegun(r, ps) && ps.state == ResponseLine(ResLineAlmostDone)
    ensures ResStep(r, ps, tr, ch)
  {
    hide Emit, ValidNumber, NoLineEnd;
    assert [CR] + [LF] == CRLF;
  }

  lemma AnySays(r: Res, ps: Parser, tr: seq<Event>, ch: Octet)
    requires ResBegun(r, ps) && ps.state != InHeader(FieldStart)
    ensures ResStep(r, ps, tr, ch)
  {
    hide ResStep;
    if ps.state == Starting(StartRes) {
      LeadSays(r, ps, tr, ch);
    } else if ps.state.response.ResFirstMajor? {
      FirstMajorSays(r, ps, tr, ch);
    } else if ps.state.response.ResMajor? {
      MajorSays(r, ps, tr, ch);
    } else if ps.state.response.ResFirstMinor? {
      FirstMinorSays(r, ps, tr, ch);
    } else if ps.state.response.ResMinor? {
      MinorSays(r, ps, tr, ch);
    } else if ps.state.response.ResFirstStatusCode? {
      FirstCodeSays(r, ps, tr, ch);
    } else if ps.state.response.ResStatusCode? {
      CodeSays(r, ps, tr, ch);
    } else if ps.state.response.ResStatusStart? || ps.state.response.ResStatus? {
      PhraseSays(r, ps, tr, ch);
    } else if ps.state.response.ResLineAlmostDone? {
      EndSays(r, ps, tr, ch);
    } else {
      NameSays(r, ps, tr, ch);
    }
  }

  lemma {:induction false} ResponseHasParts(c: Config, w: seq<Octet>) returns (r: Res)
    requires c.Go? && c.lane.Outer? && c.ps.state == Starting(StartRes) && StartLineRead(c, w)
    ensures Run(c, w).lane.Outer? && ResBegun(r, Run(c, w).ps) && Said(r) == w
  {
    hide Step, StartLineRead, ResBegun, Look, Said, PutRes, NothingSaid, Dispatch;
    if w == [] {
      r := Res([], [], [], [], [], [], [], [], []);
      NothingYetSaid(c);
    } else {
      var init, ch := w[..|w| - 1], w[|w| - 1];
      assert init + [ch] == w;
      ReadBefore(c, w);
      var r0 := ResponseHasParts(c, init);
      var d := Run(c, init);
      StatusIsHeader(r0, d.ps);
      StepIsNext(d, ch);
      AnySays(r0, d.ps.(nread := d.ps.nread + 1), d.tr, ch);
      var next := Step(d, ch).ps.state;
      SaidLast(r0, next, ch);
      r := PutRes(r0, next, ch);
    }
  }

  lemma NothingYetSaid(c: Config)
    requires c.Go? && c.ps.state == Starting(StartRes)
    ensures var r := Res([], [], [], [], [], [], [], [], []); ResBegun(r, c.ps) && Said(r) == []
  {
  }

  lemma StatusIsHeader(r: Res, ps: Parser)
    requires ResBegun(r, ps)
    ensures ParsingHeader(ps.state) && ResBegun(r, ps.(nread := ps.nread + 1))
  {
  }

  // Status lines: what leads to the header lines is a printed status line.
  lemma ResponseIsSpelled(c: Config, w: seq<Octet>) returns (s: Start)
    requires c.Go? && c.lane.Outer? && c.ps.state == Starting(StartRes) && StartLineRead(c, w)
    requires Run(c, w).ps.state == InHeader(FieldStart)
    ensures s.StatusLine? && ValidStart(s) && StartText(s) == w
  {
    hide Run, ValidNumber, HTTP, NoLineEnd;
    var r := ResponseHasParts(c, w);
    s := StatusLine(r.lead, r.major, r.minor, r.gap, r.code, if r.phrase == [] then NoPhrase else Phrase(r.phrase[1..]), r.end);
    assert PhraseText(s.phrase) == r.phrase;
  }

  // ----- Both directions

  // A start line between line ends
  predicate OneLine(w: seq<Octet>, lead: seq<Octet>, body: seq<Octet>, end: seq<Octet>) {
    w == lead + body + end && LineEnds(lead) && body != [] && NoLineEnd(body) && IsLineEnd(end)
  }

  // Line ends in front, then no line feed but the last
  lemma OneFeed(w: seq<Octet>, lead: seq<Octet>, body: seq<Octet>, end: seq<Octet>)
    requires OneLine(w, lead, body, end)
    ensures |lead| + 2 <= |w| && w[|w| - 1] == LF && w[|lead|] != CR && w[|lead|] != LF
    ensures forall j :: 0 <= j < |lead| ==> w[j] == CR || w[j] == LF
    ensures forall j :: |lead| <= j < |w| - 1 ==> w[j] != LF
  {
    assert w[|lead|] == body[0];
    forall j | |lead| <= j < |w| - 1 ensures w[j] != LF {
      if j < |lead| + |body| {
        assert w[j] == body[j - |lead|];
      }
    }
  }

  // No line is the beginning of another.
  lemma NoLineInLine(w: seq<Octet>, lead: seq<Octet>, body: seq<Octet>, end: seq<Octet>, k: nat, lead': seq<Octet>,
                     body': seq<Octet>, end': seq<Octet>)
    requires OneLine(w, lead, body, end) && k < |w|
    ensures !OneLine(w[..k], lead', body', end')
  {
    hide OneLine;
    OneFeed(w, lead, body, end);
    if OneLine(w[..k], lead', body', end') {
      OneFeed(w[..k], lead', body', end');
      assert false;
    }
  }

  lemma {:induction false} TargetHasNoEnd(connect: bool, w: seq<Octet>)
    requires w != [] && TargetAfter(connect, w).UrlNext?
    ensures NoLineEnd(w)
  {
    hide UrlChar, FirstUrlChar;
    var init, ch := w[..|w| - 1], w[|w| - 1];
    EndIsNoTarget(if |w| > 1 then TargetAfter(connect, init).state else ReqServerStart, ch);
    if |w| > 1 {
      TargetHasNoEnd(connect, init);
    }
    assert w == init + [ch];
  }

  lemma EndIsNoTarget(s: UrlState, ch: Octet)
    ensures ch == CR || ch == LF ==> UrlChar(s, ch).UrlDead? && FirstUrlChar(ch).UrlDead?
  {
  }

  lemma NumberHasNoEnd(w: seq<Octet>)
    requires ValidNumber(w)
    ensures w != [] && NoLineEnd(w)
  {
  }

  lemma GapHasNoEnd(w: seq<Octet>)
    requires IsGap(w)
    ensures w != [] && NoLineEnd(w)
  {
  }

  lemma NoEnds(a: seq<Octet>, b: seq<Octet>)
    requires NoLineEnd(a) && NoLineEnd(b)
    ensures NoLineEnd(a + b)
  {
  }

  lemma FixedHaveNoEnd(m: Method)
    ensures NoLineEnd(HTTP) && NoLineEnd(DOT) && NoLineEnd([' ']) && NoLineEnd([]) && NoLineEnd(MethodName(m)) && HTTP != []
    ensures MethodName(m) != []
  {
    hide MethodName;
    NameChars(m);
    FirstGuess(m);
  }

  function StartBody(s: Start): seq<Octet> {
    if s.RequestLine? then MethodName(s.meth) + s.gap + s.target + VersionText(s.version)
    else HTTP + s.major + DOT + s.minor + s.gap + s.code + PhraseText(s.phrase)
  }

  lemma VersionHasNoEnd(v: Version)
    requires ValidVersion(v)
    ensures NoLineEnd(VersionText(v))
  {
    hide ValidNumber, NoLineEnd, HTTP, DOT, IsGap;
    FixedHaveNoEnd(GET);
    if v.Numbered? {
      GapHasNoEnd(v.gap);
      NumberHasNoEnd(v.major);
      NumberHasNoEnd(v.minor);
      NoEnds(v.gap, HTTP);
      NoEnds(v.gap + HTTP, v.major);
      NoEnds(v.gap + HTTP + v.major, DOT);
      NoEnds(v.gap + HTTP + v.major + DOT, v.minor);
    }
  }

  lemma RequestIsOneLine(s: Start)
    requires s.RequestLine? && ValidStart(s)
    ensures OneLine(StartText(s), s.lead, StartBody(s), s.end)
  {
    hide ValidNumber, NoLineEnd, MethodName, IsGap, VersionText, TargetAfter, LineEnds, ValidVersion;
    FixedHaveNoEnd(s.meth);
    GapHasNoEnd(s.gap);
    TargetHasNoEnd(s.meth.CONNECT?, s.target);
    VersionHasNoEnd(s.version);
    NoEnds(MethodName(s.meth), s.gap);
    NoEnds(MethodName(s.meth) + s.gap, s.target);
    NoEnds(MethodName(s.meth) + s.gap + s.target, VersionText(s.version));
    assert StartText(s) == s.lead + StartBody(s) + s.end;
  }

  lemma StatusIsOneLine(s: Start)
    requires s.StatusLine? && ValidStart(s)
    ensures OneLine(StartText(s), s.lead, StartBody(s), s.end)
  {
    hide ValidNumber, NoLineEnd, HTTP, DOT, IsGap, LineEnds;
    FixedHaveNoEnd(GET);
    NumberHasNoEnd(s.major);
    NumberHasNoEnd(s.minor);
    GapHasNoEnd(s.gap);
    NumberHasNoEnd(s.code);
    if s.phrase.Phrase? {
      NoEnds([' '], s.phrase.text);
    }
    NoEnds(HTTP, s.major);
    NoEnds(HTTP + s.major, DOT);
    NoEnds(HTTP + s.major + DOT, s.minor);
    NoEnds(HTTP + s.major + DOT + s.minor, s.gap);
    NoEnds(HTTP + s.major + DOT + s.minor + s.gap, s.code);
    NoEnds(HTTP + s.major + DOT + s.minor + s.gap + s.code, PhraseText(s.phrase));
    assert StartText(s) == s.lead + StartBody(s) + s.end;
  }

  predicate AtStart(c: Config, response: bool) {
    c.Go? && c.lane.Outer? && c.ps.state == Starting(if response then StartRes else StartReq) && !EndsWithData(c.tr, Field)
  }

  // The parser has come to the header lines, and not before.
  predicate TakesStart(c: Config, w: seq<Octet>) {
    StartLineRead(c, w) && Run(c, w).ps.state == InHeader(FieldStart)
  }

  lemma TakenIsSpelled(c: Config, response: bool, w: seq<Octet>) returns (s: Start)
    requires AtStart(c, response) && TakesStart(c, w)
    ensures s.StatusLine? == response && ValidStart(s) && StartText(s) == w && OneLine(w, s.lead, StartBody(s), s.end)
  {
    hide Run, StartLineRead, ValidStart, StartText, OneLine, StartBody;
    if response {
      s := ResponseIsSpelled(c, w);
      StatusIsOneLine(s);
    } else {
      s := RequestIsSpelled(c, w);
      RequestIsOneLine(s);
    }
  }

  lemma SpelledIsTaken(c: Config, response: bool, s: Start)
    requires AtStart(c, response) && s.StatusLine? == response && ValidStart(s)
    requires c.ps.nread + |StartText(s)| <= MAX_HEADER_SIZE
    ensures TakesStart(c, StartText(s))
  {
    hide Run, Step, ValidStart, StartText, OneLine, StartBody;
    var w := StartText(s);
    if response {
      RunStatusLine(c, s);
      StatusIsOneLine(s);
    } else {
      RunRequestLine(c, s);
      RequestIsOneLine(s);
    }
    assert w[..|w|] == w;
    forall k | 0 <= k < |w| ensures Run(c, w[..k]).Go? && Run(c, w[..k]).ps.state != InHeader(FieldStart) {
      GoesBefore(c, w, k);
      if Run(c, w[..k]).ps.state == InHeader(FieldStart) {
        NotTwice(c, response, s, k);
      }
    }
  }

  lemma GoesBefore(c: Config, w: seq<Octet>, k: nat)
    requires k <= |w| && Run(c, w).Go?
    ensures Run(c, w[..k]).Go?
  {
    hide Run;
    assert w == w[..k] + w[k..];
    RunConcat(c, w[..k], w[k..]);
    if !Run(c, w[..k]).Go? {
      RunOfStopped(Run(c, w[..k]), w[k..]);
    }
  }

  // The first time that the header lines are reached
  lemma {:induction false} NotTwice(c: Config, response: bool, s: Start, k: nat)
    requires AtStart(c, response) && k < |StartText(s)| && OneLine(StartText(s), s.lead, StartBody(s), s.end)
    requires Run(c, StartText(s)).Go?
    ensures Run(c, StartText(s)[..k]).Go? && Run(c, StartText(s)[..k]).ps.state != InHeader(FieldStart)
  {
    hide Run, OneLine, StartBody, StartText;
    var w := StartText(s);
    GoesBefore(c, w, k);
    forall j | 0 <= j < k ensures Run(c, w[..k][..j]).Go? && Run(c, w[..k][..j]).ps.state != InHeader(FieldStart) {
      NotTwice(c, response, s, j);
      assert w[..k][..j] == w[..j];
    }
    if Run(c, w[..k]).ps.state == InHeader(FieldStart) {
      var s' := TakenIsSpelled(c, response, w[..k]);
      NoLineInLine(w, s.lead, StartBody(s), s.end, k, s'.lead, StartBody(s'), s'.end);
    }
  }

  // For all byte strings: a parser of requests or of responses comes to the
  // header lines behind exactly the printed start lines of its kind.
  lemma StartExactly(c: Config, response: bool, w: seq<Octet>)
    requires AtStart(c, response) && c.ps.nread + |w| <= MAX_HEADER_SIZE
    ensures TakesStart(c, w) <==> exists s: Start :: s.StatusLine? == response && ValidStart(s) && StartText(s) == w
  {
    hide Run, ValidStart, StartText, TakesStart;
    if TakesStart(c, w) {
      var s := TakenIsSpelled(c, response, w);
    }
    forall s: Start | s.StatusLine? == response && ValidStart(s) && StartText(s) == w ensures TakesStart(c, w) {
      SpelledIsTaken(c, response, s);
    }
  }
}
