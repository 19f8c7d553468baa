// The order of callbacks that a request parser keeps to.
module HttpGrammar {
  import opened HttpChars
  import opened HttpTypes
  import opened HttpMachine
  import opened HttpBulk
  import opened HttpInvariant

  // Where a joined trace of callbacks stands:
  //   (begin url (field value)* headers_complete Body complete)*
  // with Body empty, one body of the announced length, or
  //   (chunk_header body chunk_complete)* chunk_header(0) (field value)* chunk_complete
  // each body as long as its chunk header said.
  datatype Phase =
    | Between                             // before a message
    | Closed                              // after a message that was not to be kept alive
    | Begun                               // message_begin
    | Lines(trailer: bool)                // a name may follow, or the end of the section
    | Named(trailer: bool)                // a value has to follow
    | Headed(length: nat)                 // headers_complete
    | Sized(length: nat, got: nat)        // in a body of known length
    | Chunk(length: nat, got: nat)        // in a chunk
    | Chunks                              // between two chunks
    | Trailed                             // after the last chunk_complete
    | Rejected

  // The phase after a callback that does not continue the one before it.
  function Advance(p: Phase, e: Event): Phase {
    match (p, e)
    case (Between, MessageBegin) => Begun
    case (Begun, Data(UrlData, _)) => Lines(false)
    case (Lines(t), Data(Field, _)) => Named(t)
    case (Named(t), Data(Value, _)) => Lines(t)
    case (Lines(false), HeadersComplete(_, _, length)) => Headed(length)
    case (Headed(length), Data(Body, b)) => if |b| <= length then Sized(length, |b|) else Rejected
    case (Headed(_), ChunkHeader(n)) => if n == 0 then Lines(true) else Chunk(n, 0)
    case (Headed(_), MessageComplete(keep)) => if keep then Between else Closed
    case (Sized(length, got), MessageComplete(keep)) =>
      if got != length then Rejected else if keep then Between else Closed
    case (Chunk(n, 0), Data(Body, b)) => if |b| <= n then Chunk(n, |b|) else Rejected
    case (Chunk(n, got), ChunkComplete) => if got == n then Chunks else Rejected
    case (Chunks, ChunkHeader(n)) => if n == 0 then Lines(true) else Chunk(n, 0)
    case (Lines(true), ChunkComplete) => Trailed
    case (Trailed, MessageComplete(keep)) => if keep then Between else Closed
    case _ => Rejected
  }

  // The phase when the last data callback goes on.
  function Grow(p: Phase, b: seq<Octet>): Phase {
    match p
    case Sized(length, got) => if got + |b| <= length then Sized(length, got + |b|) else Rejected
    case Chunk(length, got) => if got + |b| <= length then Chunk(length, got + |b|) else Rejected
    case _ => p
  }

  function PhaseOf(tr: seq<Event>): Phase {
    if tr == [] then Between else Advance(PhaseOf(tr[..|tr| - 1]), tr[|tr| - 1])
  }

  lemma GrowAdvances(p: Phase, k: DataKind, a: seq<Octet>, b: seq<Octet>)
    ensures Advance(p, Data(k, a + b)) == Grow(Advance(p, Data(k, a)), b)
  {
  }

  lemma PhaseOfEmit(tr: seq<Event>, e: Event)
    ensures PhaseOf(Emit(tr, e)) ==
            if e.Data? && EndsWithData(tr, e.kind) then Grow(PhaseOf(tr), e.bytes) else Advance(PhaseOf(tr), e)
    ensures forall k :: EndsWithData(Emit(tr, e), k) <==> e.Data? && e.kind == k
  {
    hide Advance, Grow;
    if e.Data? && EndsWithData(tr, e.kind) {
      var init, last := tr[..|tr| - 1], tr[|tr| - 1];
      assert Emit(tr, e) == init + [Data(e.kind, last.bytes + e.bytes)];
      GrowAdvances(PhaseOf(init), e.kind, last.bytes, e.bytes);
    }
  }

  // ----- The parser keeps to it

  // Which state goes with which phase.
  predicate Matches(ps: Parser, tr: seq<Event>) {
    var p := PhaseOf(tr);
    match ps.state
    case Starting(s) => s == (if p.Closed? then Dead else StartReq) && (p.Closed? || p.Between?)
    case ResponseLine(_) => false
    case ReqMethod => p.Begun?
    case ReqSpacesBeforeUrl => p.Begun?
    case InUrl(_) => p == Lines(false) && EndsWithData(tr, UrlData)
    case RequestVersion(_) => p == Lines(false)
    case InHeader(h) => HeaderMatches(h, ps.flags.trailing, ps.contentLength, p, EndsWithData(tr, Field), EndsWithData(tr, Value))
    case InChunkSize(_) => p.Headed? || p.Chunks?
    case InPayload(s) => PayloadMatches(s, ps.contentLength, p, EndsWithData(tr, Body))
  }

  predicate HeaderMatches(h: HeaderLineState, trailer: bool, length: nat, p: Phase, named: bool, valued: bool) {
    match h
    case FieldStart => p == Lines(trailer)
    case HeadersAlmostDone => p == Lines(trailer)
    case FieldName => p == Named(trailer) && named
    case ValueDiscardWs => p == Named(trailer)
    case ValueDiscardWsAlmostDone => p == Named(trailer)
    case ValueDiscardLws => p == Named(trailer)
    case ValueText => p == Lines(trailer) && valued
    case HeaderAlmostDone => p == Lines(trailer) && valued
    case ValueLws => p == Lines(trailer) && valued
    case ValueStart => p == Lines(trailer) && valued
    case HeadersDone => p == Headed(length)
  }

  predicate PayloadMatches(s: PayloadState, left: nat, p: Phase, inBody: bool) {
    match s
    case ChunkData => p.Chunk? && p.got + left == p.length && (inBody <==> p.got > 0)
    case ChunkDataAlmostDone => p.Chunk? && p.got == p.length
    case ChunkDataDone => p.Chunk? && p.got == p.length
    case BodyIdentity => (p == Headed(left) && !inBody) || (p.Sized? && p.got + left == p.length && inBody)
    case BodyIdentityEof => false
    case MessageDone => (p.Sized? && p.got == p.length) || p.Trailed?
  }

  predicate ActMatches(a: Act) {
    a.Next? || a.Again? || a.Leave? ==> Matches(a.ps, a.tr) && a.ps.kind.Request?
  }

  // What the last callback of a trace says about its phase.
  lemma PhaseOfLast(tr: seq<Event>, k: DataKind)
    requires EndsWithData(tr, k)
    ensures match k
            case Field => PhaseOf(tr).Named? || PhaseOf(tr).Rejected?
            case Value => PhaseOf(tr).Lines? || PhaseOf(tr).Rejected?
            case UrlData => PhaseOf(tr) == Lines(false) || PhaseOf(tr).Rejected?
            case Body => PhaseOf(tr).Sized? || PhaseOf(tr).Chunk? || PhaseOf(tr).Rejected?
            case Status => PhaseOf(tr).Rejected?
  {
  }

  lemma PhaseExcludes(tr: seq<Event>, k: DataKind)
    ensures PhaseOf(tr).Begun? || PhaseOf(tr).Lines? ==> !EndsWithData(tr, Field)
    ensures PhaseOf(tr).Named? ==> !EndsWithData(tr, Value)
    ensures PhaseOf(tr).Begun? ==> !EndsWithData(tr, UrlData)
    ensures PhaseOf(tr).Headed? || PhaseOf(tr).Chunks? ==> !EndsWithData(tr, Body)
  {
    hide PhaseOf;
    forall k | EndsWithData(tr, k) { PhaseOfLast(tr, k); }
  }

  lemma StartMatches(ps: Parser, tr: seq<Event>, ch: Octet)
    requires Looking(ps) && ps.kind.Request? && Matches(ps, tr)
    ensures ps.state.Starting? ==> ActMatches(StartStep(ps, tr, ch))
    ensures ps.state.ReqMethod? ==> ActMatches(MethodStep(ps, tr, ch))
  {
    hide Emit, PhaseOf, EndsWithData, MethodName, MethodSwitch, MethodGuess, CharAt;
    PhaseOfEmit(tr, MessageBegin);
  }

  lemma VersionMatches(ps: Parser, tr: seq<Event>, ch: Octet)
    requires ps.kind.Request? && Matches(ps, tr) && ps.state.RequestVersion? && !ps.flags.trailing
    ensures ActMatches(RequestVersionStep(ps, tr, ch))
  {
    hide Emit, PhaseOf, EndsWithData, IsNum, DigitValue, MoreDigits;
  }

  lemma UrlMatches(ps: Parser, tr: seq<Event>, ch: Octet)
    requires Looking(ps) && ps.kind.Request? && Matches(ps, tr)
    ensures ps.state.ReqSpacesBeforeUrl? ==> ActMatches(UrlStartStep(ps, tr, ch))
    ensures ps.state.InUrl? ==> ActMatches(UrlStep(ps, tr, ch))
  {
    hide Emit, PhaseOf, EndsWithData, UrlChar, FirstUrlChar;
    PhaseOfEmit(tr, Data(UrlData, [ch]));
    PhaseExcludes(tr, UrlData);
  }

  lemma NameMatches(ps: Parser, tr: seq<Event>, ch: Octet)
    requires Looking(ps) && ps.kind.Request? && Matches(ps, tr)
    ensures ps.state == InHeader(FieldStart) ==> ActMatches(FieldStartStep(ps, tr, ch))
    ensures ps.state == InHeader(FieldName) ==> ActMatches(FieldStep(ps, tr, ch))
  {
    hide Emit, PhaseOf, EndsWithData, FieldMatch, FieldInitial, Token;
    PhaseOfEmit(tr, Data(Field, [ch]));
    PhaseExcludes(tr, Field);
  }

  lemma ValueStartShows(ps: Parser, tr: seq<Event>, ch: Octet)
    ensures var act := ValueStartStep(ps, tr, ch);
            !act.Err? ==>
              && act.Next? && act.ps.state == InHeader(ValueText) && act.ps.flags.trailing == ps.flags.trailing
              && act.ps.kind == ps.kind && act.tr == Emit(tr, Data(Value, [ch]))
  {
    hide Emit, ValueInitial, Lower, IsNum, DigitValue;
  }

  lemma ValueStartMatches(ps: Parser, tr: seq<Event>, ch: Octet)
    requires ps.kind.Request? && Matches(ps, tr) && (ps.state == InHeader(ValueStart) || ps.state == InHeader(ValueDiscardWs))
    ensures ActMatches(ValueStartStep(ps, tr, ch))
  {
    hide Emit, PhaseOf, EndsWithData, ValueStartStep;
    ValueStartShows(ps, tr, ch);
    PhaseOfEmit(tr, Data(Value, [ch]));
    PhaseExcludes(tr, Value);
  }

  lemma ValueMatches(ps: Parser, tr: seq<Event>, unchecked: bool, ch: Octet)
    requires Looking(ps) && ps.kind.Request? && Matches(ps, tr)
    requires ps.state == InHeader(ValueText)
    ensures ActMatches(ValueStep(ps, tr, ch, unchecked))
  {
    hide Emit, PhaseOf, EndsWithData, ValueMatch, Lower, IsNum, DigitValue, MoreDigits, NoteOption, IsHeaderChar;
    PhaseOfEmit(tr, Data(Value, [ch]));
    OptionsKeepTrailing(ps.flags, ps.headerState);
  }

  lemma OptionsKeepTrailing(flags: Flags, hs: HeaderState)
    ensures NoteOption(flags, hs).trailing == flags.trailing
  {
    match hs
    case ConnectionKeepAlive =>
    case ConnectionClose =>
    case ConnectionUpgrade =>
    case Chunked =>
    case _ =>
  }

  // Before a value that has not begun
  lemma NoValueMatches(ps: Parser, tr: seq<Event>, unchecked: bool, ch: Octet)
    requires ps.kind.Request? && Matches(ps, tr) && ps.state.InHeader?
    requires var h := ps.state.header; h.ValueDiscardWs? || h.ValueDiscardWsAlmostDone? || h.ValueDiscardLws?
    ensures ActMatches(HeaderStep(ps, tr, unchecked, ch))
  {
    hide Emit, PhaseOf, EndsWithData, ValueStartStep, NoteOption;
    if ps.state.header.ValueDiscardWs? {
      ValueStartMatches(ps, tr, ch);
    }
    PhaseOfEmit(tr, Data(Value, []));
    PhaseExcludes(tr, Value);
    OptionsKeepTrailing(ps.flags, ps.headerState);
  }

  // Behind a value
  lemma ValueEndMatches(ps: Parser, tr: seq<Event>, unchecked: bool, ch: Octet)
    requires ps.kind.Request? && Matches(ps, tr) && ps.state.InHeader?
    requires ps.state.header.HeaderAlmostDone? || ps.state.header.ValueLws?
    ensures ActMatches(HeaderStep(ps, tr, unchecked, ch))
  {
    hide Emit, PhaseOf, EndsWithData, NoteOption;
    OptionsKeepTrailing(ps.flags, ps.headerState);
  }

  lemma CompletedMatches(ps: Parser, tr: seq<Event>)
    requires ps.kind.Request?
    requires PhaseOf(tr).Headed? || (PhaseOf(tr).Sized? && PhaseOf(tr).got == PhaseOf(tr).length) || PhaseOf(tr).Trailed?
    ensures Matches(CompletedParser(ps), CompletedTrace(ps, tr)) && CompletedParser(ps).kind.Request?
  {
    hide Emit, PhaseOf, EndsWithData, ShouldKeepAlive;
    PhaseOfEmit(tr, MessageComplete(ShouldKeepAlive(ps)));
  }

  predicate Upgrading(ps: Parser) {
    (ps.flags.upgrade && ps.flags.connectionUpgrade) || ps.line.meth.CONNECT?
  }

  lemma HeadersAlmostDoneShows(ps: Parser, tr: seq<Event>, ch: Octet)
    ensures var act := HeadersAlmostDoneStep(ps, tr, ch);
            !act.Err? ==>
              && act.Again? && act.ps.kind == ps.kind && act.ps.contentLength == ps.contentLength
              && (ps.flags.trailing ==> act.ps.state == InPayload(MessageDone) && act.tr == Emit(tr, ChunkComplete))
              && (!ps.flags.trailing ==>
                    && act.ps.state == InHeader(HeadersDone)
                    && act.tr == Emit(tr, HeadersComplete(ps.line, Upgrading(ps), ps.contentLength)))
  {
    hide Emit;
  }

  lemma HeadersAlmostDoneMatches(ps: Parser, tr: seq<Event>, ch: Octet)
    requires ps.kind.Request? && Matches(ps, tr) && ps.state == InHeader(HeadersAlmostDone)
    ensures ActMatches(HeadersAlmostDoneStep(ps, tr, ch))
  {
    hide Emit, PhaseOf, EndsWithData, HeadersAlmostDoneStep, Upgrading;
    HeadersAlmostDoneShows(ps, tr, ch);
    PhaseOfEmit(tr, if ps.flags.trailing then ChunkComplete else HeadersComplete(ps.line, Upgrading(ps), ps.contentLength));
  }

  lemma HeadersDoneMatches(ps: Parser, tr: seq<Event>, ch: Octet)
    requires Looking(ps) && ps.kind.Request? && Matches(ps, tr) && ps.state == InHeader(HeadersDone)
    ensures ActMatches(HeadersDoneStep(ps, tr, ch))
  {
    hide Emit, PhaseOf, EndsWithData, ShouldKeepAlive, CompletedParser, CompletedTrace;
    CompletedMatches(ps.(nread := 0), tr);
    PhaseExcludes(tr, Body);
  }

  lemma ChunkSizeMatches(ps: Parser, tr: seq<Event>, ch: Octet)
    requires Looking(ps) && ps.kind.Request? && Matches(ps, tr) && ps.state.InChunkSize?
    ensures ActMatches(ChunkSizeStep(ps, tr, ch))
  {
    hide Emit, PhaseOf, EndsWithData, Unhex;
    PhaseOfEmit(tr, ChunkHeader(ps.contentLength));
  }

  // A further byte of a chunk that is not complete
  lemma ChunkGrows(n: nat, got: nat, ch: Octet)
    requires got < n
    ensures Grow(Chunk(n, got), [ch]) == Chunk(n, got + 1)
    ensures got == 0 ==> Advance(Chunk(n, got), Data(Body, [ch])) == Chunk(n, 1)
  {
  }

  lemma ChunkPhase(ps: Parser, tr: seq<Event>)
    requires Matches(ps, tr) && ps.state == InPayload(ChunkData)
    ensures var p := PhaseOf(tr); p.Chunk? && p.got + ps.contentLength == p.length && (EndsWithData(tr, Body) <==> p.got > 0)
  {
    hide PhaseOf, EndsWithData;
  }

  lemma ChunkShown(ps: Parser, tr: seq<Event>, length: nat, got: nat)
    requires PhaseOf(tr) == Chunk(length, got) && got > 0 && got + ps.contentLength == length && EndsWithData(tr, Body)
    requires ps.state == InPayload(if ps.contentLength == 0 then ChunkDataAlmostDone else ChunkData)
    ensures Matches(ps, tr)
  {
    hide PhaseOf, EndsWithData;
  }

  lemma ChunkDataMatches(ps: Parser, tr: seq<Event>, ch: Octet)
    requires Looking(ps) && ps.kind.Request? && Matches(ps, tr) && ps.state == InPayload(ChunkData)
    ensures ActMatches(PayloadStep(ps, tr, ch))
  {
    hide Emit, PhaseOf, EndsWithData, Grow, Advance, Looking, PayloadStep, Matches;
    BodyLengthOk(ps);
    ChunkPhase(ps, tr);
    var p, shown := PhaseOf(tr), Emit(tr, Data(Body, [ch]));
    PhaseOfEmit(tr, Data(Body, [ch]));
    ChunkGrows(p.length, p.got, ch);
    ChunkDataStep(ps, tr, ch);
    ChunkShown(PayloadStep(ps, tr, ch).ps, shown, p.length, p.got + 1);
  }

  lemma ChunkDataStep(ps: Parser, tr: seq<Event>, ch: Octet)
    requires ps.state == InPayload(ChunkData) && ps.contentLength > 0
    ensures PayloadStep(ps, tr, ch) ==
            Show(ps.(contentLength := ps.contentLength - 1,
                     state := if ps.contentLength == 1 then InPayload(ChunkDataAlmostDone) else ps.state), tr, Body, ch)
  {
    hide Emit;
    assert ps.(state := ps.state) == ps;
  }

  lemma BodyIdentityMatches(ps: Parser, tr: seq<Event>, ch: Octet)
    requires Looking(ps) && ps.kind.Request? && Matches(ps, tr) && ps.state == InPayload(BodyIdentity)
    ensures ActMatches(PayloadStep(ps, tr, ch))
  {
    hide Emit, PhaseOf, EndsWithData;
    BodyLengthOk(ps);
    PhaseOfEmit(tr, Data(Body, [ch]));
  }

  lemma PayloadEndMatches(ps: Parser, tr: seq<Event>, ch: Octet)
    requires ps.kind.Request? && Matches(ps, tr) && ps.state.InPayload?
    requires ps.state != InPayload(ChunkData) && ps.state != InPayload(BodyIdentity) && ps.state != InPayload(MessageDone)
    ensures ActMatches(PayloadStep(ps, tr, ch))
  {
    hide Emit, PhaseOf, EndsWithData;
    PhaseOfEmit(tr, ChunkComplete);
  }

  lemma MessageDoneMatches(ps: Parser, tr: seq<Event>, ch: Octet)
    requires ps.kind.Request? && Matches(ps, tr) && ps.state == InPayload(MessageDone)
    ensures ActMatches(PayloadStep(ps, tr, ch))
  {
    hide Emit, PhaseOf, EndsWithData, ShouldKeepAlive, CompletedParser, CompletedTrace;
    CompletedMatches(ps, tr);
  }

  lemma PayloadStepMatches(ps: Parser, tr: seq<Event>, ch: Octet)
    requires Looking(ps) && ps.kind.Request? && Matches(ps, tr) && ps.state.InPayload?
    ensures ActMatches(PayloadStep(ps, tr, ch))
  {
    hide Matches, Looking, ActMatches, PayloadStep;
    if ps.state == InPayload(ChunkData) {
      ChunkDataMatches(ps, tr, ch);
    } else if ps.state == InPayload(BodyIdentity) {
      BodyIdentityMatches(ps, tr, ch);
    } else if ps.state == InPayload(MessageDone) {
      MessageDoneMatches(ps, tr, ch);
    } else {
      PayloadEndMatches(ps, tr, ch);
    }
  }

  // Each pass through the switch keeps state and phase in step.
  lemma LookMatches(ps: Parser, tr: seq<Event>, unchecked: bool, ch: Octet)
    requires Looking(ps) && ps.kind.Request? && Matches(ps, tr)
    ensures ActMatches(Look(ps, tr, unchecked, ch))
  {
    hide PhaseOf, EndsWithData, Matches, Looking, StartStep, ResponseLineStep, MethodStep, UrlStartStep, UrlStep,
         RequestVersionStep, ChunkSizeStep, PayloadStep, FieldStartStep, FieldStep, ValueDiscardStep, ValueDiscardLwsStep,
         ValueStartStep, ValueStep, ValueLwsStep, HeadersAlmostDoneStep, HeadersDoneStep;
    match ps.state {
      case ResponseLine(_) => RequestHasNoStatusLine(ps, tr);
      case RequestVersion(_) =>
        LineHasNoTrailer(ps);
        VersionMatches(ps, tr, ch);
      case ReqSpacesBeforeUrl => UrlMatches(ps, tr, ch);
      case InUrl(_) => UrlMatches(ps, tr, ch);
      case InHeader(h) =>
        if h.FieldStart? || h.FieldName? {
          NameMatches(ps, tr, ch);
        } else if h.ValueStart? {
          ValueStartMatches(ps, tr, ch);
        } else if h.ValueText? {
          ValueMatches(ps, tr, unchecked, ch);
        } else if h.HeadersAlmostDone? {
          HeadersAlmostDoneMatches(ps, tr, ch);
        } else if h.HeadersDone? {
          HeadersDoneMatches(ps, tr, ch);
        } else if h.ValueDiscardWs? || h.ValueDiscardWsAlmostDone? || h.ValueDiscardLws? {
          NoValueMatches(ps, tr, unchecked, ch);
        } else {
          ValueEndMatches(ps, tr, unchecked, ch);
        }
      case InChunkSize(_) => ChunkSizeMatches(ps, tr, ch);
      case InPayload(_) => PayloadStepMatches(ps, tr, ch);
      case _ => StartMatches(ps, tr, ch);
    }
  }

  lemma LineHasNoTrailer(ps: Parser)
    requires Looking(ps) && ps.state.RequestVersion?
    ensures !ps.flags.trailing
  {
  }

  lemma RequestHasNoStatusLine(ps: Parser, tr: seq<Event>)
    requires Matches(ps, tr)
    ensures !ps.state.ResponseLine?
  {
    hide PhaseOf;
  }

  predicate ConfigMatches(c: Config) {
    c.Go? || c.Left? ==> Matches(c.ps, c.tr) && c.ps.kind.Request?
  }

  lemma {:induction false} DispatchMatches(ps: Parser, tr: seq<Event>, lane: Lane, ch: Octet, pos: nat)
    requires Looking(ps) && ps.kind.Request? && Matches(ps, tr)
    ensures ConfigMatches(Dispatch(ps, tr, lane, ch, pos))
    decreases Looks(ps.state)
  {
    hide Look, Looks, Matches, Looking, Dispatch;
    DispatchOnce(ps, tr, lane, ch, pos);
    LookMatches(ps, tr, lane.Skipping?, ch);
    LookKeepsInvariant(ps, tr, lane.Skipping?, ch);
    var act := Look(ps, tr, lane.Skipping?, ch);
    if act.Again? {
      LookingAgainTerminates(ps, tr, lane.Skipping?, ch);
      DispatchMatches(act.ps, act.tr, Outer, ch, pos);
    }
  }

  lemma CountKeepsMatching(ps: Parser, tr: seq<Event>, n: nat)
    ensures Matches(ps.(nread := n), tr) == Matches(ps, tr)
  {
    hide PhaseOf, EndsWithData;
  }

  lemma {:induction false} RunMatches(c: Config, d: seq<Octet>)
    requires ConfigOk(c) && ConfigMatches(c)
    ensures ConfigMatches(Run(c, d))
  {
    hide Dispatch, Matches, Resting, Looking;
    if d != [] {
      RunMatches(c, d[..|d| - 1]);
      RunKeepsInvariant(c, d[..|d| - 1]);
      var r, ch := Run(c, d[..|d| - 1]), d[|d| - 1];
      if r.Go? {
        CountKeepsMatching(r.ps, r.tr, r.ps.nread + 1);
        if r.ps.nread < MAX_HEADER_SIZE || !ParsingHeader(r.ps.state) {
          CountedIsLooking(r.ps);
          if ParsingHeader(r.ps.state) {
            DispatchMatches(r.ps.(nread := r.ps.nread + 1), r.tr, r.lane, ch, r.pos);
          } else {
            DispatchMatches(r.ps, r.tr, r.lane, ch, r.pos);
          }
        }
      }
    }
  }

  // A run of a request parser over any number of buffers, one call each.
  function Feed(ps: Parser, tr: seq<Event>, ds: seq<seq<Octet>>): Config {
    if ds == [] then Begin(ps, tr)
    else
      var c := Feed(ps, tr, ds[..|ds| - 1]);
      if !c.Bad? then Call(c.ps, c.tr, ds[|ds| - 1]) else c
  }

  // Whatever the buffers are, a fresh request parser keeps to the grammar, and
  // no callback follows a message that was not to be kept alive.
  lemma {:induction false} CallbackProtocol(settings: Settings, ds: seq<seq<Octet>>)
    ensures var c := Feed(Init(Request, settings), [], ds);
            !c.Bad? ==> Resting(c.ps) && Matches(c.ps, c.tr) && c.ps.kind.Request? && !PhaseOf(c.tr).Rejected?
  {
    hide Run, Resting, Matches;
    if ds == [] {
      InitIsResting(Request, settings);
      InitMatches(settings);
    } else {
      CallbackProtocol(settings, ds[..|ds| - 1]);
      var c, d := Feed(Init(Request, settings), [], ds[..|ds| - 1]), ds[|ds| - 1];
      if !c.Bad? {
        CallMatches(c.ps, c.tr, d);
        CallKeepsInvariant(c.ps, c.tr, d);
      }
    }
    var c := Feed(Init(Request, settings), [], ds);
    if !c.Bad? {
      MatchingIsNotRejected(c.ps, c.tr);
    }
  }

  lemma InitMatches(settings: Settings)
    ensures Matches(Init(Request, settings), [])
  {
  }

  lemma CallMatches(ps: Parser, tr: seq<Event>, d: seq<Octet>)
    requires Resting(ps) && Matches(ps, tr) && ps.kind.Request?
    ensures ConfigMatches(Call(ps, tr, d))
  {
    hide Run, Matches, Resting;
    RunMatches(Begin(ps, tr), d);
    var c := Run(Begin(ps, tr), d);
    if c.Go? {
      CountKeepsMatching(c.ps, c.tr, c.ps.nread + 1);
    }
  }

  lemma MatchingIsNotRejected(ps: Parser, tr: seq<Event>)
    requires Matches(ps, tr)
    ensures !PhaseOf(tr).Rejected?
  {
    hide PhaseOf, EndsWithData;
  }
}
