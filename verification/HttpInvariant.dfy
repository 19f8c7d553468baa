// What holds of the parser's fields in every reachable state.  Each of the
// source's assertions follows from it.
module HttpInvariant {
  import opened HttpChars
  import opened HttpTypes
  import opened HttpMachine

  // The length of the word a matching header state is comparing with.
  function WordLength(hs: HeaderState): (n: nat)
    ensures n == |Word(hs)|
  {
    match hs
    case MatchingConnection => 10
    case MatchingProxyConnection => 16
    case MatchingContentLength => 14
    case MatchingTransferEncoding => 17
    case MatchingUpgrade => 7
    case MatchingChunked => 7
    case MatchingKeepAlive => 10
    case MatchingClose => 5
    case MatchingConnectionUpgrade => 7
    case _ => 0
  }

  // What the name matcher can look like.
  predicate NameMatcherOk(hs: HeaderState, index: nat) {
    match hs
    case General => index <= 16
    case C => index == 0
    case CO => index == 1
    case CON => index == 2
    case Connection => index <= 16
    case ContentLength => index <= 16
    case TransferEncoding => index <= 16
    case Upgrade => index <= 16
    case MatchingConnection => index < WordLength(hs) - 1
    case MatchingProxyConnection => index < WordLength(hs) - 1
    case MatchingContentLength => index < WordLength(hs) - 1
    case MatchingTransferEncoding => index < WordLength(hs) - 1
    case MatchingUpgrade => index < WordLength(hs) - 1
    case _ => false
  }

  // The states of the name matcher that the switch over it has a case for
  predicate HasNameCase(hs: HeaderState) {
    match hs
    case General => true
    case C => true
    case CO => true
    case CON => true
    case MatchingConnection => true
    case MatchingProxyConnection => true
    case MatchingContentLength => true
    case MatchingTransferEncoding => true
    case MatchingUpgrade => true
    case Connection => true
    case ContentLength => true
    case TransferEncoding => true
    case Upgrade => true
    case _ => false
  }

  // What the value matcher can look like.
  predicate ValueMatcherOk(hs: HeaderState, index: nat) {
    match hs
    case General => index <= 9
    case ContentLength => index <= 9
    case TokenStart => index == 0
    case ConnectionToken => index <= 9
    case Chunked => index <= 9
    case ConnectionKeepAlive => index <= 9
    case ConnectionClose => index <= 9
    case ConnectionUpgrade => index <= 9
    case MatchingChunked => index < WordLength(hs) - 1
    case MatchingKeepAlive => index < WordLength(hs) - 1
    case MatchingClose => index < WordLength(hs) - 1
    case MatchingConnectionUpgrade => index < WordLength(hs) - 1
    case _ => false
  }

  predicate StartingOk(ps: Parser)
    requires ps.state.Starting?
  {
    match ps.state.start
    case Dead => !ps.kind.Both?
    case StartReqOrRes => ps.kind.Both?
    case ResOrRespH => ps.kind.Both? && ps.flags == NO_FLAGS
    case StartRes => ps.kind.Response?
    case StartReq => ps.kind.Request?
  }

  predicate HeaderOk(ps: Parser)
    requires ps.state.InHeader?
  {
    match ps.state.header
    case FieldName => NameMatcherOk(ps.headerState, ps.index)
    case ValueText =>
      && ValueMatcherOk(ps.headerState, ps.index)
      && (ps.headerState.ContentLength? ==> ps.flags.contentLength && ps.contentLength < ULLONG_MAX)
    case HeadersDone => !ps.flags.trailing
    case _ => true
  }

  predicate PayloadOk(ps: Parser)
    requires ps.state.InPayload?
  {
    match ps.state.payload
    case ChunkData => ps.flags.chunked && !ps.flags.trailing && 0 < ps.contentLength < ULLONG_MAX
    case ChunkDataAlmostDone => ps.flags.chunked && !ps.flags.trailing && ps.contentLength == 0
    case ChunkDataDone => ps.flags.chunked && !ps.flags.trailing
    case BodyIdentity => !ps.flags.trailing && 0 < ps.contentLength < ULLONG_MAX
    case BodyIdentityEof => !ps.flags.trailing && ps.contentLength == ULLONG_MAX && ps.kind.Response?
    case MessageDone => true
  }

  predicate StateOk(ps: Parser) {
    match ps.state
    case Starting(_) => StartingOk(ps)
    case ResponseLine(_) => ps.kind.Response? && ps.flags == NO_FLAGS
    case ReqMethod =>
      ps.kind.Request? && ps.flags == NO_FLAGS && 1 <= ps.index <= MethodLength(ps.line.meth)
    case ReqSpacesBeforeUrl => ps.kind.Request? && ps.flags == NO_FLAGS
    case InUrl(_) => ps.kind.Request? && ps.flags == NO_FLAGS
    case RequestVersion(_) => ps.kind.Request? && ps.flags == NO_FLAGS
    case InHeader(_) => !ps.kind.Both? && HeaderOk(ps)
    case InChunkSize(c) =>
      !ps.kind.Both? && ps.flags.chunked && !ps.flags.trailing && (!c.ChunkSizeStart? ==> ps.contentLength < ULLONG_MAX)
    case InPayload(_) => !ps.kind.Both? && PayloadOk(ps)
  }

  // The invariant of the fields, in resting and in transient states.  The
  // bounds keep every field inside the width it has in the source: 7 bits for
  // the index, 16 for the numbers of the start line, 64 for the length.
  predicate Valid(ps: Parser) {
    && ps.nread <= MAX_HEADER_SIZE
    && ps.index <= 17
    && ps.contentLength <= ULLONG_MAX
    && ps.line.major <= 999 && ps.line.minor <= 999 && ps.line.status <= 999
    && StateOk(ps)
  }

  // States that are only passed through while a byte is looked at again.
  predicate Transient(s: State) {
    s == InHeader(ValueStart) || s == InHeader(HeadersDone) || s == InPayload(MessageDone)
  }

  // The invariant between two bytes.
  predicate Resting(ps: Parser) {
    && Valid(ps)
    && !Transient(ps.state)
    && (ps.state == InChunkSize(ChunkSizeStart) ==> ps.nread == 0)
  }

  // The invariant while a byte is looked at: it has been counted.
  predicate Looking(ps: Parser) {
    && Valid(ps)
    && (ps.state == InChunkSize(ChunkSizeStart) ==> ps.nread == 1)
  }

  predicate ActOk(act: Act) {
    match act
    case Next(ps, _) => Resting(ps)
    case Again(ps, _) => Looking(ps)
    case Leave(ps, _) => Resting(ps)
    case Err(e) => !e.NoError? && !e.InvalidInternalState?
  }

  lemma InitIsResting(kind: ParserType, settings: Settings)
    ensures Resting(Init(kind, settings))
  {
  }

  function MethodLength(m: Method): (n: nat)
    ensures n == |MethodName(m)|
    ensures 3 <= n <= 11
  {
    match m
    case GET | PUT | ACL => 3
    case HEAD | POST | COPY | LOCK | MOVE | BIND | LINK => 4
    case TRACE | MKCOL | MERGE | PATCH | PURGE => 5
    case DELETE | SEARCH | UNLOCK | REBIND | UNBIND | REPORT | NOTIFY | UNLINK => 6
    case CONNECT | OPTIONS => 7
    case PROPFIND | CHECKOUT | MSEARCH => 8
    case PROPPATCH | SUBSCRIBE => 9
    case MKACTIVITY | MKCALENDAR => 10
    case UNSUBSCRIBE => 11
  }

  lemma MethodSwitchOk(m: Method, index: nat, ch: Octet)
    ensures MethodSwitch(m, index, ch).Known? ==>
              1 <= index < MethodLength(m) && index < MethodLength(MethodSwitch(m, index, ch).meth)
  {
    hide MethodName;
  }

  lemma StartStepOk(ps: Parser, tr: seq<Event>, ch: Octet)
    requires Looking(ps) && ps.state.Starting?
    ensures ActOk(StartStep(ps, tr, ch))
  {
    hide Emit, MethodName;
  }

  // Within a start line, and where it ends, the fields are those of the line.
  lemma LineStateOk(ps: Parser, s: State, line: StartLine, index: nat)
    requires Looking(ps) && (ps.state.ResponseLine? || ps.state.RequestVersion?)
    requires s == InHeader(FieldStart) || if ps.state.ResponseLine? then s.ResponseLine? else s.RequestVersion?
    requires line.major <= 999 && line.minor <= 999 && line.status <= 999 && index <= 17
    ensures Resting(ps.(state := s, line := line, index := index))
  {
  }

  // The digits of the version, in either kind of start line
  lemma MajorStepOk(ps: Parser, tr: seq<Event>, ch: Octet, next: State)
    requires Looking(ps) && (ps.state.ResponseLine? || ps.state.RequestVersion?)
    requires if ps.state.ResponseLine? then next.ResponseLine? else next.RequestVersion?
    ensures ActOk(FirstMajorStep(ps, tr, ch, next)) && ActOk(MajorStep(ps, tr, ch, next))
  {
    hide Resting, StateOk;
    LineStateOk(ps, next, ps.line, ps.index);
    if IsNum(ch) {
      LineStateOk(ps, next, ps.line.(major := DigitValue(ch)), ps.index);
      if MoreDigits(ps.line.major, ch) <= 999 {
        LineStateOk(ps, ps.state, ps.line.(major := MoreDigits(ps.line.major, ch)), ps.index);
      }
    }
  }

  lemma MinorStepOk(ps: Parser, tr: seq<Event>, ch: Octet, next: State)
    requires Looking(ps) && (ps.state.ResponseLine? || ps.state.RequestVersion?)
    requires if ps.state.ResponseLine? then next.ResponseLine? else next.RequestVersion?
    ensures ActOk(FirstMinorStep(ps, tr, ch, next)) && ActOk(MinorStep(ps, tr, ch))
  {
    hide Resting, StateOk;
    if IsNum(ch) {
      LineStateOk(ps, next, ps.line.(minor := DigitValue(ch)), ps.index);
      if MoreDigits(ps.line.minor, ch) <= 999 {
        LineStateOk(ps, ps.state, ps.line.(minor := MoreDigits(ps.line.minor, ch)), ps.index);
      }
    }
  }

  lemma ResponseLineStepOk(ps: Parser, tr: seq<Event>, ch: Octet)
    requires Looking(ps) && ps.state.ResponseLine?
    ensures ActOk(ResponseLineStep(ps, tr, ch))
  {
    hide Emit, Resting, StateOk, FirstMajorStep, MajorStep, FirstMinorStep, MinorStep;
    MajorStepOk(ps, tr, ch, ResponseLine(ResMajor));
    MajorStepOk(ps, tr, ch, ResponseLine(ResFirstMinor));
    MinorStepOk(ps, tr, ch, ResponseLine(ResMinor));
    if IsNum(ch) {
      StatusDigitsOk(ps, ch);
    }
    forall s: State | s.ResponseLine? || s == InHeader(FieldStart)
      ensures Resting(ps.(state := s)) && Resting(ps.(state := s, index := 0))
    {
      LineStateOk(ps, s, ps.line, ps.index);
      LineStateOk(ps, s, ps.line, 0);
    }
    assert ps.(state := ps.state) == ps;
  }

  lemma StatusDigitsOk(ps: Parser, ch: Octet)
    requires Looking(ps) && ps.state.ResponseLine? && IsNum(ch)
    ensures Resting(ps.(line := ps.line.(status := DigitValue(ch)), state := ResponseLine(ResStatusCode)))
    ensures MoreDigits(ps.line.status, ch) <= 999 ==>
              Resting(ps.(line := ps.line.(status := MoreDigits(ps.line.status, ch))))
  {
    hide Resting, StateOk;
    LineStateOk(ps, ResponseLine(ResStatusCode), ps.line.(status := DigitValue(ch)), ps.index);
    if MoreDigits(ps.line.status, ch) <= 999 {
      LineStateOk(ps, ps.state, ps.line.(status := MoreDigits(ps.line.status, ch)), ps.index);
    }
  }

  lemma MethodStepOk(ps: Parser, tr: seq<Event>, ch: Octet)
    requires Looking(ps) && ps.state.ReqMethod?
    ensures ActOk(MethodStep(ps, tr, ch))
  {
    hide Emit, MethodName, MethodSwitch;
    MethodSwitchOk(ps.line.meth, ps.index, ch);
  }

  lemma UrlStepOk(ps: Parser, tr: seq<Event>, ch: Octet)
    requires Looking(ps)
    ensures ps.state.ReqSpacesBeforeUrl? ==> ActOk(UrlStartStep(ps, tr, ch))
    ensures ps.state.InUrl? ==> ActOk(UrlStep(ps, tr, ch))
  {
    hide Emit, UrlChar, FirstUrlChar;
  }

  lemma RequestVersionStepOk(ps: Parser, tr: seq<Event>, ch: Octet)
    requires Looking(ps) && ps.state.RequestVersion?
    ensures ActOk(RequestVersionStep(ps, tr, ch))
  {
    hide Emit, Resting, StateOk, FirstMajorStep, MajorStep, FirstMinorStep, MinorStep;
    MajorStepOk(ps, tr, ch, RequestVersion(ReqMajor));
    MajorStepOk(ps, tr, ch, RequestVersion(ReqFirstMinor));
    MinorStepOk(ps, tr, ch, RequestVersion(ReqMinor));
    forall s: State | s.RequestVersion? || s == InHeader(FieldStart) ensures Resting(ps.(state := s)) {
      LineStateOk(ps, s, ps.line, ps.index);
    }
  }

  lemma NameCase(hs: HeaderState, index: nat)
    requires NameMatcherOk(hs, index)
    ensures HasNameCase(hs)
  {
  }

  lemma FieldMatchOk(hs: HeaderState, index: nat, c: Octet, ch: Octet)
    requires NameMatcherOk(hs, index)
    ensures NameMatcherOk(FieldMatch(hs, index, c, ch).0, FieldMatch(hs, index, c, ch).1)
  {
    hide Word;
  }

  lemma ValueMatchOk(hs: HeaderState, index: nat, c: Octet, ch: Octet)
    requires ValueMatcherOk(hs, index) && !hs.ContentLength?
    ensures ValueMatcherOk(ValueMatch(hs, index, c, ch).0, ValueMatch(hs, index, c, ch).1)
    ensures !ValueMatch(hs, index, c, ch).0.ContentLength?
    ensures ValueMatch(hs, index, c, ch).0.TokenStart? ==> !hs.Chunked?
  {
    hide Word;
  }

  // "Shouldn't get here"
  lemma ValueMatcherHasStarted(hs: HeaderState, index: nat)
    requires ValueMatcherOk(hs, index)
    ensures !hs.Connection? && !hs.TransferEncoding?
  {
  }

  lemma FieldStepOk(ps: Parser, tr: seq<Event>, ch: Octet)
    requires Looking(ps)
    ensures ps.state == InHeader(FieldStart) ==> ActOk(FieldStartStep(ps, tr, ch))
    ensures ps.state == InHeader(FieldName) ==> ActOk(FieldStep(ps, tr, ch))
  {
    hide Emit, FieldMatch, Token;
    if ps.state == InHeader(FieldName) {
      FieldMatchOk(ps.headerState, ps.index, Token(ch), ch);
    }
  }

  lemma ValueStartStepOk(ps: Parser, tr: seq<Event>, ch: Octet)
    requires Looking(ps) && ps.state.InHeader?
    ensures ActOk(ValueStartStep(ps, tr, ch))
  {
    hide Emit;
  }

  lemma ValueStepOk(ps: Parser, tr: seq<Event>, ch: Octet, unchecked: bool)
    requires Looking(ps) && ps.state == InHeader(ValueText)
    ensures ActOk(ValueStep(ps, tr, ch, unchecked))
  {
    hide Emit, ValueMatch, NoteOption;
    if !ps.headerState.ContentLength? {
      ValueMatchOk(ps.headerState, ps.index, Lower(ch), ch);
    }
  }

  lemma ValueEndStepOk(ps: Parser, tr: seq<Event>, ch: Octet)
    requires Looking(ps) && ps.state.InHeader?
    ensures ps.state.header.ValueDiscardWs? ==> ActOk(ValueDiscardStep(ps, tr, ch))
    ensures ps.state.header.ValueDiscardLws? ==> ActOk(ValueDiscardLwsStep(ps, tr, ch))
    ensures ps.state.header.ValueLws? ==> ActOk(ValueLwsStep(ps, tr, ch))
  {
    hide Emit, ValueStartStep, NoteOption;
    ValueStartStepOk(ps, tr, ch);
  }

  lemma CompletedOk(ps: Parser)
    requires Looking(ps) && !ps.kind.Both?
    ensures Resting(CompletedParser(ps))
  {
    hide ShouldKeepAlive, HeaderOk, PayloadOk, MethodLength;
  }

  lemma HeadersDoneOk(ps: Parser, flags: Flags, upgrade: bool)
    requires Looking(ps) && ps.state == InHeader(HeadersDone) && !flags.trailing
    ensures Looking(ps.(flags := flags, upgrade := upgrade)) && !ps.flags.trailing
  {
  }

  lemma ReplyStepOk(ps: Parser, tr: seq<Event>)
    requires Looking(ps) && ps.state == InHeader(HeadersDone)
    ensures ActOk(ReplyStep(ps, tr))
  {
    hide Emit, Looking;
    HeadersDoneOk(ps, NO_FLAGS, ps.upgrade);
    HeadersDoneOk(ps, ps.flags.(skipBody := true), ps.upgrade);
    HeadersDoneOk(ps, ps.flags.(skipBody := true), true);
  }

  lemma HeadersAlmostDoneStepOk(ps: Parser, tr: seq<Event>, ch: Octet)
    requires Looking(ps) && ps.state == InHeader(HeadersAlmostDone)
    ensures ActOk(HeadersAlmostDoneStep(ps, tr, ch))
  {
    hide Emit, ReplyStep;
    if !ps.flags.trailing {
      var up := (ps.flags.upgrade && ps.flags.connectionUpgrade) || ps.line.meth.CONNECT?;
      ReplyStepOk(ps.(state := InHeader(HeadersDone), upgrade := up), Emit(tr, HeadersComplete(ps.line, up, ps.contentLength)));
    }
  }

  lemma HeadersDoneStepOk(ps: Parser, tr: seq<Event>, ch: Octet)
    requires Looking(ps) && ps.state == InHeader(HeadersDone)
    ensures ActOk(HeadersDoneStep(ps, tr, ch))
  {
    hide Emit, CompletedParser, CompletedTrace;
    CompletedOk(ps.(nread := 0));
  }

  lemma HeaderStepOk(ps: Parser, tr: seq<Event>, unchecked: bool, ch: Octet)
    requires Looking(ps) && ps.state.InHeader?
    ensures ActOk(HeaderStep(ps, tr, unchecked, ch))
  {
    hide FieldStartStep, FieldStep, ValueDiscardStep, ValueDiscardLwsStep, ValueStartStep, ValueStep, ValueLwsStep,
         HeadersAlmostDoneStep, HeadersDoneStep;
    match ps.state.header {
      case FieldStart => FieldStepOk(ps, tr, ch);
      case FieldName => FieldStepOk(ps, tr, ch);
      case ValueStart => ValueStartStepOk(ps, tr, ch);
      case ValueText => ValueStepOk(ps, tr, ch, unchecked);
      case HeadersAlmostDone => HeadersAlmostDoneStepOk(ps, tr, ch);
      case HeadersDone => HeadersDoneStepOk(ps, tr, ch);
      case _ => ValueEndStepOk(ps, tr, ch);
    }
  }

  lemma ChunkSizeStepOk(ps: Parser, tr: seq<Event>, ch: Octet)
    requires Looking(ps) && ps.state.InChunkSize?
    ensures ActOk(ChunkSizeStep(ps, tr, ch))
  {
    hide Emit, Unhex, Resting;
    match ps.state.chunk {
      case ChunkSizeAlmostDone => SizeLineEndOk(ps, tr, ch);
      case ChunkSizeStart => ChunkStateOk(ps, ChunkSize, if Unhex(ch) == -1 then 0 else Unhex(ch));
      case ChunkSize =>
        ChunkStateOk(ps, ChunkSizeAlmostDone, ps.contentLength);
        ChunkStateOk(ps, ChunkParameters, ps.contentLength);
        if Unhex(ch) != -1 && ps.contentLength <= (ULLONG_MAX - 16) / 16 {
          ChunkStateOk(ps, ChunkSize, ps.contentLength * 16 + Unhex(ch));
        }
      case ChunkParameters =>
        ChunkStateOk(ps, ChunkSizeAlmostDone, ps.contentLength);
        ChunkStateOk(ps, ChunkParameters, ps.contentLength);
    }
  }

  lemma ChunkStateOk(ps: Parser, s: ChunkSizeState, n: nat)
    requires Looking(ps) && ps.state.InChunkSize? && !s.ChunkSizeStart? && n < ULLONG_MAX
    ensures Resting(ps.(state := InChunkSize(s), contentLength := n))
    ensures ps.(contentLength := ps.contentLength) == ps && ps.(state := ps.state) == ps
  {
  }

  lemma SizeLineEndOk(ps: Parser, tr: seq<Event>, ch: Octet)
    requires Looking(ps) && ps.state == InChunkSize(ChunkSizeAlmostDone)
    ensures ActOk(ChunkSizeStep(ps, tr, ch))
  {
    hide Emit, Unhex;
  }

  lemma PayloadStepOk(ps: Parser, tr: seq<Event>, ch: Octet)
    requires Looking(ps) && ps.state.InPayload?
    ensures ActOk(PayloadStep(ps, tr, ch))
  {
    hide Emit, CompletedParser, CompletedTrace;
    CompletedOk(ps);
  }

  // Every pass through the switch keeps the invariant; none meets an unhandled state.
  lemma LookKeepsInvariant(ps: Parser, tr: seq<Event>, unchecked: bool, ch: Octet)
    requires Looking(ps)
    ensures ActOk(Look(ps, tr, unchecked, ch))
  {
    hide StartStep, ResponseLineStep, MethodStep, UrlStartStep, UrlStep, RequestVersionStep, HeaderStep, ChunkSizeStep,
         PayloadStep, Valid;
    match ps.state {
      case Starting(_) => StartStepOk(ps, tr, ch);
      case ResponseLine(_) => ResponseLineStepOk(ps, tr, ch);
      case ReqMethod => MethodStepOk(ps, tr, ch);
      case RequestVersion(_) => RequestVersionStepOk(ps, tr, ch);
      case InHeader(_) => HeaderStepOk(ps, tr, unchecked, ch);
      case InChunkSize(_) => ChunkSizeStepOk(ps, tr, ch);
      case InPayload(_) => PayloadStepOk(ps, tr, ch);
      case _ => UrlStepOk(ps, tr, ch);
    }
  }

  // Only the two inner loops leave a byte half-way, the fast skip only in an unmatched value.
  predicate LaneOk(ps: Parser, lane: Lane) {
    match lane
    case Outer => true
    case Inner => ps.state == InHeader(FieldName) || ps.state == InHeader(ValueText)
    case Skipping => ps.state == InHeader(ValueText) && ps.headerState.General?
  }

  // A configuration whose parser may be in any reachable state.
  predicate ConfigOk(c: Config) {
    match c
    case Go(ps, _, lane, _) => Resting(ps) && LaneOk(ps, lane)
    case Left(ps, _, _) => Resting(ps)
    case Bad(e, _) => !e.NoError? && !e.InvalidInternalState?
  }

  // The fast skip starts at a byte that leaves an unmatched value unmatched.
  lemma LaneAfterOk(ps: Parser, tr: seq<Event>, unchecked: bool, ch: Octet)
    requires Look(ps, tr, unchecked, ch).Next?
    ensures LaneOk(Look(ps, tr, unchecked, ch).ps, LaneAfter(ps, Look(ps, tr, unchecked, ch).ps))
  {
    hide Emit, StartStep, ResponseLineStep, MethodStep, UrlStartStep, UrlStep, RequestVersionStep, ChunkSizeStep,
         PayloadStep, Lower;
    if ps.state == InHeader(ValueText) && ps.headerState.General? {
      assert ValueMatch(ps.headerState, ps.index, Lower(ch), ch) == (General, ps.index);
    }
  }

  lemma {:induction false} DispatchKeepsInvariant(ps: Parser, tr: seq<Event>, lane: Lane, ch: Octet, pos: nat)
    requires Looking(ps)
    ensures ConfigOk(Dispatch(ps, tr, lane, ch, pos))
    decreases Looks(ps.state)
  {
    hide Look, Resting, Looking, Looks;
    LookKeepsInvariant(ps, tr, lane.Skipping?, ch);
    var act := Look(ps, tr, lane.Skipping?, ch);
    if act.Next? {
      LaneAfterOk(ps, tr, lane.Skipping?, ch);
    } else if act.Again? {
      LookingAgainTerminates(ps, tr, lane.Skipping?, ch);
      DispatchKeepsInvariant(act.ps, act.tr, Outer, ch, pos);
    }
  }

  lemma StepKeepsInvariant(c: Config, ch: Octet)
    requires ConfigOk(c)
    ensures ConfigOk(Step(c, ch))
  {
    hide Dispatch, StateOk;
    if c.Go? {
      var counted := c.ps.(nread := c.ps.nread + 1);
      if !ParsingHeader(c.ps.state) {
        DispatchKeepsInvariant(c.ps, c.tr, c.lane, ch, c.pos);
      } else if c.ps.nread + 1 <= MAX_HEADER_SIZE {
        StateOkIgnoresCount(c.ps, c.ps.nread + 1);
        DispatchKeepsInvariant(counted, c.tr, c.lane, ch, c.pos);
      }
    }
  }

  lemma StateOkIgnoresCount(ps: Parser, n: nat)
    ensures StateOk(ps.(nread := n)) == StateOk(ps)
  {
    hide MethodName;
  }

  // Whatever bytes arrive, and however they are split into calls, no assertion
  // fails and no unhandled state is met: every reachable parser is Resting.
  lemma {:induction false} RunKeepsInvariant(c: Config, d: seq<Octet>)
    requires ConfigOk(c)
    ensures ConfigOk(Run(c, d))
  {
    hide Step, ConfigOk;
    if d != [] {
      RunKeepsInvariant(c, d[..|d| - 1]);
      StepKeepsInvariant(Run(c, d[..|d| - 1]), d[|d| - 1]);
    }
  }

  lemma CallKeepsInvariant(ps: Parser, tr: seq<Event>, d: seq<Octet>)
    requires Resting(ps)
    ensures ConfigOk(Call(ps, tr, d))
  {
    hide Run, StateOk;
    RunKeepsInvariant(Begin(ps, tr), d);
    var c := Run(Begin(ps, tr), d);
    if c.Go? {
      StateOkIgnoresCount(c.ps, c.ps.nread + 1);
    }
  }

  // ----- The trace while a data callback is being collected

  // The kind of data that a state is in the middle of.
  datatype Showing = Nothing | Some(kind: DataKind)

  function ShownIn(s: State): Showing {
    match s
    case ResponseLine(ResStatus) => Some(Status)
    case InUrl(_) => Some(UrlData)
    case InHeader(FieldName) => Some(Field)
    case InHeader(ValueText) => Some(Value)
    case _ => Nothing
  }

  predicate ShowsData(s: State) {
    s == ResponseLine(ResStatus) || s.InUrl? || s == InHeader(FieldName) || s == InHeader(ValueText)
  }

  lemma ShowsNothing(s: State)
    requires !ShowsData(s)
    ensures ShownIn(s).Nothing?
  {
  }

  // The trace ends in the data that the state is in the middle of.
  predicate TraceOk(s: State, tr: seq<Event>) {
    ShownIn(s).Some? ==> EndsWithData(tr, ShownIn(s).kind)
  }

  predicate ActTraceOk(act: Act) {
    act.Next? || act.Again? || act.Leave? ==> TraceOk(act.ps.state, act.tr)
  }

  lemma EmitEndsWithData(tr: seq<Event>, k: DataKind, b: seq<Octet>)
    ensures EndsWithData(Emit(tr, Data(k, b)), k)
  {
  }

  // The states that a header section ends in show no data.
  lemma EndStepKeepsTrace(ps: Parser, tr: seq<Event>, ch: Octet)
    requires ps.state.InHeader?
    ensures ActTraceOk(HeadersAlmostDoneStep(ps, tr, ch)) && ActTraceOk(HeadersDoneStep(ps, tr, ch))
  {
    hide Emit, ShouldKeepAlive, FramingOf, EndsWithData;
  }

  lemma ValueStepKeepsTrace(ps: Parser, tr: seq<Event>, unchecked: bool, ch: Octet)
    requires ps.state.InHeader?
    ensures ActTraceOk(ValueStartStep(ps, tr, ch))
    ensures ps.state.header.ValueDiscardWs? ==> ActTraceOk(ValueDiscardStep(ps, tr, ch))
    ensures ps.state.header.ValueText? ==> ActTraceOk(ValueStep(ps, tr, ch, unchecked))
  {
    hide Emit, ValueMatch, IsNum, NoteOption, ValueInitial, EndsWithData, Lower, IsHeaderChar;
    EmitEndsWithData(tr, Value, [ch]);
  }

  lemma HeaderStepKeepsTrace(ps: Parser, tr: seq<Event>, unchecked: bool, ch: Octet)
    requires ps.state.InHeader? && TraceOk(ps.state, tr)
    ensures ActTraceOk(HeaderStep(ps, tr, unchecked, ch))
  {
    hide Emit, FieldMatch, Token, NoteOption, FieldInitial, EndsWithData, ValueStep, ValueStartStep, ValueDiscardStep,
         HeadersAlmostDoneStep, HeadersDoneStep;
    EmitEndsWithData(tr, Field, [ch]);
    EndStepKeepsTrace(ps, tr, ch);
    ValueStepKeepsTrace(ps, tr, unchecked, ch);
  }

  lemma LineStepKeepsTrace(ps: Parser, tr: seq<Event>, ch: Octet)
    requires TraceOk(ps.state, tr)
    ensures ps.state.ResponseLine? ==> ActTraceOk(ResponseLineStep(ps, tr, ch))
    ensures ps.state.ReqSpacesBeforeUrl? ==> ActTraceOk(UrlStartStep(ps, tr, ch))
    ensures ps.state.InUrl? ==> ActTraceOk(UrlStep(ps, tr, ch))
  {
    hide Emit, UrlChar, FirstUrlChar, IsNum, EndsWithData;
    EmitEndsWithData(tr, Status, [ch]);
    EmitEndsWithData(tr, UrlData, [ch]);
  }

  lemma LookKeepsTrace(ps: Parser, tr: seq<Event>, unchecked: bool, ch: Octet)
    requires TraceOk(ps.state, tr)
    ensures ActTraceOk(Look(ps, tr, unchecked, ch))
  {
    hide Emit, MethodSwitch, MethodGuess, MethodName, Unhex, IsNum, ShouldKeepAlive, EndsWithData, HeaderStep,
         ResponseLineStep, UrlStartStep, UrlStep, CharAt;
    match ps.state {
      case InHeader(_) => HeaderStepKeepsTrace(ps, tr, unchecked, ch);
      case ResponseLine(_) => LineStepKeepsTrace(ps, tr, ch);
      case ReqSpacesBeforeUrl => LineStepKeepsTrace(ps, tr, ch);
      case InUrl(_) => LineStepKeepsTrace(ps, tr, ch);
      case _ =>
    }
  }

  predicate ConfigTraceOk(c: Config) {
    c.Go? || c.Left? ==> TraceOk(c.ps.state, c.tr)
  }

  lemma {:induction false} DispatchKeepsTrace(ps: Parser, tr: seq<Event>, lane: Lane, ch: Octet, pos: nat)
    requires TraceOk(ps.state, tr)
    ensures ConfigTraceOk(Dispatch(ps, tr, lane, ch, pos))
    decreases Looks(ps.state)
  {
    hide Look, TraceOk, Looks;
    LookKeepsTrace(ps, tr, lane.Skipping?, ch);
    var act := Look(ps, tr, lane.Skipping?, ch);
    if act.Again? {
      LookingAgainTerminates(ps, tr, lane.Skipping?, ch);
      DispatchKeepsTrace(act.ps, act.tr, Outer, ch, pos);
    }
  }

  // However the bytes arrive, the trace shows the data being collected.
  lemma {:induction false} RunKeepsTrace(c: Config, d: seq<Octet>)
    requires ConfigTraceOk(c)
    ensures ConfigTraceOk(Run(c, d))
  {
    hide TraceOk, Dispatch;
    if d != [] {
      RunKeepsTrace(c, d[..|d| - 1]);
      var r := Run(c, d[..|d| - 1]);
      if r.Go? {
        DispatchKeepsTrace(r.ps, r.tr, r.lane, d[|d| - 1], r.pos);
        DispatchKeepsTrace(r.ps.(nread := r.ps.nread + 1), r.tr, r.lane, d[|d| - 1], r.pos);
      }
    }
  }

  lemma CallKeepsTrace(ps: Parser, tr: seq<Event>, d: seq<Octet>)
    requires TraceOk(ps.state, tr)
    ensures ConfigTraceOk(Call(ps, tr, d))
  {
    hide TraceOk, Run;
    RunKeepsTrace(Begin(ps, tr), d);
  }

  lemma CountedIsLooking(ps: Parser)
    requires Resting(ps) && (ParsingHeader(ps.state) ==> ps.nread < MAX_HEADER_SIZE)
    ensures ParsingHeader(ps.state) ==> Looking(ps.(nread := ps.nread + 1))
    ensures !ParsingHeader(ps.state) ==> Looking(ps)
    ensures ps.state == InHeader(ValueText) ==> ValueMatcherOk(ps.headerState, ps.index)
    ensures ps.state == InHeader(FieldName) ==> NameMatcherOk(ps.headerState, ps.index)
  {
  }

  lemma ChunkedOk(ps: Parser)
    requires Looking(ps)
    ensures ps.state.InChunkSize? ==> ps.flags.chunked && (ps.state.chunk.ChunkSizeStart? ==> ps.nread == 1)
    ensures ps.state == InPayload(ChunkDataAlmostDone) ==> ps.flags.chunked && ps.contentLength == 0
    ensures ps.state == InPayload(ChunkDataDone) ==> ps.flags.chunked
  {
  }

  lemma BodyLengthOk(ps: Parser)
    requires Looking(ps) && (ps.state == InPayload(BodyIdentity) || ps.state == InPayload(ChunkData))
    ensures 0 < ps.contentLength < ULLONG_MAX && (ps.state == InPayload(ChunkData) ==> ps.flags.chunked)
    ensures Looking(ps.(state := InPayload(MessageDone), contentLength := 0))
  {
  }
}
