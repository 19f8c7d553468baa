// Splitting invariance: what happens when one buffer is handed over in two calls.
module HttpSplit {
  import opened HttpChars
  import opened HttpTypes
  import opened HttpMachine
  import opened HttpBulk
  import opened HttpInvariant

  // ----- The header byte count does not steer the parser

  function ActCount(a: Act, n: nat): Act {
    match a
    case Next(ps, tr) => Next(ps.(nread := n), tr)
    case Again(ps, tr) => Again(ps.(nread := n), tr)
    case Leave(ps, tr) => Leave(ps.(nread := n), tr)
    case Err(e) => Err(e)
  }

  // The states that start the count afresh.
  predicate Resets(s: State) {
    s == InHeader(HeadersDone) || s == InChunkSize(ChunkSizeAlmostDone) || s == InPayload(ChunkDataDone)
  }

  lemma LineStepIgnoresCount(ps: Parser, n: nat, tr: seq<Event>, ch: Octet)
    ensures ps.state.Starting? ==> StartStep(ps.(nread := n), tr, ch) == ActCount(StartStep(ps, tr, ch), n)
    ensures ps.state.ReqMethod? ==> MethodStep(ps.(nread := n), tr, ch) == ActCount(MethodStep(ps, tr, ch), n)
    ensures ps.state.ReqSpacesBeforeUrl? ==> UrlStartStep(ps.(nread := n), tr, ch) == ActCount(UrlStartStep(ps, tr, ch), n)
    ensures ps.state.InUrl? ==> UrlStep(ps.(nread := n), tr, ch) == ActCount(UrlStep(ps, tr, ch), n)
  {
    hide Emit, MethodSwitch, MethodGuess, MethodName, UrlChar, FirstUrlChar;
  }

  lemma VersionIgnoresCount(ps: Parser, n: nat, tr: seq<Event>, ch: Octet)
    ensures forall next :: FirstMajorStep(ps.(nread := n), tr, ch, next) == ActCount(FirstMajorStep(ps, tr, ch, next), n)
    ensures forall next :: MajorStep(ps.(nread := n), tr, ch, next) == ActCount(MajorStep(ps, tr, ch, next), n)
    ensures forall next :: FirstMinorStep(ps.(nread := n), tr, ch, next) == ActCount(FirstMinorStep(ps, tr, ch, next), n)
    ensures MinorStep(ps.(nread := n), tr, ch) == ActCount(MinorStep(ps, tr, ch), n)
  {
  }

  lemma ResponseLineStepIgnoresCount(ps: Parser, n: nat, tr: seq<Event>, ch: Octet)
    requires ps.state.ResponseLine?
    ensures ResponseLineStep(ps.(nread := n), tr, ch) == ActCount(ResponseLineStep(ps, tr, ch), n)
  {
    hide Emit, FirstMajorStep, MajorStep, FirstMinorStep, MinorStep, MoreDigits, DigitValue, IsNum;
    match ps.state.response {
      case ResStatusCode =>
      case ResStatusStart =>
      case ResStatus =>
      case ResFirstStatusCode =>
      case _ => VersionIgnoresCount(ps, n, tr, ch);
    }
  }

  lemma RequestVersionStepIgnoresCount(ps: Parser, n: nat, tr: seq<Event>, ch: Octet)
    requires ps.state.RequestVersion?
    ensures RequestVersionStep(ps.(nread := n), tr, ch) == ActCount(RequestVersionStep(ps, tr, ch), n)
  {
    hide Emit, FirstMajorStep, MajorStep, FirstMinorStep, MinorStep, MoreDigits, DigitValue, IsNum;
    VersionIgnoresCount(ps, n, tr, ch);
  }

  lemma ValueStepIgnoresCount(ps: Parser, n: nat, tr: seq<Event>, unchecked: bool, ch: Octet)
    ensures ValueStartStep(ps.(nread := n), tr, ch) == ActCount(ValueStartStep(ps, tr, ch), n)
    ensures ValueStep(ps.(nread := n), tr, ch, unchecked) == ActCount(ValueStep(ps, tr, ch, unchecked), n)
  {
    hide Emit, ValueMatch, NoteOption, ValueInitial, IsHeaderChar, Lower, IsNum, MoreDigits, DigitValue;
  }

  lemma CompletedIgnoresCount(ps: Parser, n: nat, tr: seq<Event>)
    ensures CompletedParser(ps.(nread := n)) == CompletedParser(ps).(nread := n)
    ensures CompletedTrace(ps.(nread := n), tr) == CompletedTrace(ps, tr)
  {
    hide Emit;
  }

  lemma HeadersAlmostDoneIgnoresCount(ps: Parser, n: nat, tr: seq<Event>, ch: Octet)
    ensures HeadersAlmostDoneStep(ps.(nread := n), tr, ch) == ActCount(HeadersAlmostDoneStep(ps, tr, ch), n)
  {
    hide Emit;
  }

  lemma HeaderStepIgnoresCount(ps: Parser, n: nat, tr: seq<Event>, unchecked: bool, ch: Octet)
    requires ps.state.InHeader? && !ps.state.header.HeadersDone?
    ensures HeaderStep(ps.(nread := n), tr, unchecked, ch) == ActCount(HeaderStep(ps, tr, unchecked, ch), n)
  {
    hide Emit, FieldMatch, NoteOption, FieldInitial, Token, ValueStartStep, ValueStep, HeadersAlmostDoneStep;
    ValueStepIgnoresCount(ps, n, tr, unchecked, ch);
    HeadersAlmostDoneIgnoresCount(ps, n, tr, ch);
  }

  lemma BodyStepIgnoresCount(ps: Parser, n: nat, tr: seq<Event>, ch: Octet)
    ensures ps.state.InChunkSize? && !Resets(ps.state) ==>
              ChunkSizeStep(ps.(nread := n), tr, ch) == ActCount(ChunkSizeStep(ps, tr, ch), n)
    ensures ps.state.InPayload? && !Resets(ps.state) ==>
              PayloadStep(ps.(nread := n), tr, ch) == ActCount(PayloadStep(ps, tr, ch), n)
  {
    hide Emit, Unhex, CompletedParser, CompletedTrace;
    CompletedIgnoresCount(ps, n, tr);
  }

  lemma ResetIgnoresCount(ps: Parser, n: nat, tr: seq<Event>, unchecked: bool, ch: Octet)
    requires Resets(ps.state)
    ensures Look(ps.(nread := n), tr, unchecked, ch) == Look(ps, tr, unchecked, ch)
    ensures var a := Look(ps, tr, unchecked, ch); (a.Next? || a.Leave? ==> a.ps.nread == 0) && !a.Again?
  {
    hide Emit, ShouldKeepAlive, MessageNeedsEof;
  }

  // The count passes through every case unread, but for the three that reset it.
  lemma LookIgnoresCount(ps: Parser, n: nat, tr: seq<Event>, unchecked: bool, ch: Octet)
    requires !Resets(ps.state)
    ensures Look(ps.(nread := n), tr, unchecked, ch) == ActCount(Look(ps, tr, unchecked, ch), n)
  {
    hide StartStep, ResponseLineStep, MethodStep, UrlStartStep, UrlStep, RequestVersionStep, HeaderStep, ChunkSizeStep,
         PayloadStep;
    match ps.state {
      case ResponseLine(_) => ResponseLineStepIgnoresCount(ps, n, tr, ch);
      case RequestVersion(_) => RequestVersionStepIgnoresCount(ps, n, tr, ch);
      case InHeader(_) => HeaderStepIgnoresCount(ps, n, tr, unchecked, ch);
      case InChunkSize(_) => BodyStepIgnoresCount(ps, n, tr, ch);
      case InPayload(_) => BodyStepIgnoresCount(ps, n, tr, ch);
      case _ => LineStepIgnoresCount(ps, n, tr, ch);
    }
  }

  // A configuration whose count, if it is still `m`, is `n` instead.
  function Recount(c: Config, m: nat, n: nat): Config {
    if !c.Bad? && c.ps.nread == m then c.(ps := c.ps.(nread := n)) else c
  }

  lemma {:induction false} DispatchRecounts(ps: Parser, n: nat, tr: seq<Event>, lane: Lane, ch: Octet, pos: nat)
    requires ps.nread > 0
    ensures Dispatch(ps.(nread := n), tr, lane, ch, pos) == Recount(Dispatch(ps, tr, lane, ch, pos), ps.nread, n)
    decreases Looks(ps.state)
  {
    hide Look, Looks, Dispatch;
    DispatchOnce(ps, tr, lane, ch, pos);
    DispatchOnce(ps.(nread := n), tr, lane, ch, pos);
    var act := Look(ps, tr, lane.Skipping?, ch);
    if Resets(ps.state) {
      ResetIgnoresCount(ps, n, tr, lane.Skipping?, ch);
    } else {
      LookIgnoresCount(ps, n, tr, lane.Skipping?, ch);
      CountIsKept(ps, tr, lane.Skipping?, ch);
      if act.Again? {
        LookingAgainTerminates(ps, tr, lane.Skipping?, ch);
        DispatchRecounts(act.ps, n, act.tr, Outer, ch, pos);
      }
    }
  }

  // A look that does not reset the count keeps it.
  lemma CountIsKept(ps: Parser, tr: seq<Event>, unchecked: bool, ch: Octet)
    requires !Resets(ps.state)
    ensures var a := Look(ps, tr, unchecked, ch); !a.Err? ==> a.ps.nread == ps.nread
  {
    hide Look;
    LookIgnoresCount(ps, ps.nread, tr, unchecked, ch);
    assert ps.(nread := ps.nread) == ps;
  }

  // ----- Positions

  function Moved(c: Config, shift: nat): Config {
    match c
    case Go(ps, tr, lane, pos) => Go(ps, tr, lane, pos + shift)
    case Left(ps, tr, pos) => Left(ps, tr, pos + shift)
    case Bad(e, pos) => Bad(e, pos + shift)
  }

  lemma {:induction false} DispatchMoves(ps: Parser, tr: seq<Event>, lane: Lane, ch: Octet, pos: nat, shift: nat)
    ensures Dispatch(ps, tr, lane, ch, pos + shift) == Moved(Dispatch(ps, tr, lane, ch, pos), shift)
    decreases Looks(ps.state)
  {
    hide Look, Looks, Dispatch;
    DispatchOnce(ps, tr, lane, ch, pos);
    DispatchOnce(ps, tr, lane, ch, pos + shift);
    var act := Look(ps, tr, lane.Skipping?, ch);
    if act.Again? {
      LookingAgainTerminates(ps, tr, lane.Skipping?, ch);
      DispatchMoves(act.ps, act.tr, Outer, ch, pos, shift);
    }
  }

  lemma StepMoves(c: Config, ch: Octet, shift: nat)
    ensures Step(Moved(c, shift), ch) == Moved(Step(c, ch), shift)
  {
    hide Dispatch;
    if c.Go? {
      DispatchMoves(c.ps, c.tr, c.lane, ch, c.pos, shift);
      DispatchMoves(c.ps.(nread := c.ps.nread + 1), c.tr, c.lane, ch, c.pos, shift);
    }
  }

  lemma {:induction false} RunMoves(c: Config, d: seq<Octet>, shift: nat)
    ensures Run(Moved(c, shift), d) == Moved(Run(c, d), shift)
  {
    hide Step, Moved;
    if d != [] {
      RunMoves(c, d[..|d| - 1], shift);
      StepMoves(Run(c, d[..|d| - 1]), d[|d| - 1], shift);
    }
  }

  lemma RunCons(c: Config, d: seq<Octet>)
    requires d != []
    ensures Run(c, d) == Run(Step(c, d[0]), d[1..])
  {
    hide Step, Run;
    assert d == [d[0]] + d[1..];
    RunConcat(c, [d[0]], d[1..]);
    RunOne(c, d[0]);
  }

  // ----- One byte counted twice

  // The first byte of `d` leaves the header section of `c` open.
  predicate StaysOpen(c: Config, ch: Octet) {
    c.Go? && !Step(c, ch).Bad? && Step(c, ch).ps.nread == c.ps.nread + 1
  }

  // How many bytes of `d` are counted before the count of `c` starts afresh.
  function SectionLeft(c: Config, d: seq<Octet>): nat
    decreases |d|
  {
    if d == [] || !c.Go? then 0 else if StaysOpen(c, d[0]) then 1 + SectionLeft(Step(c, d[0]), d[1..]) else 1
  }

  // The count of `c` does not start afresh in `d`.
  predicate SectionOpen(c: Config, d: seq<Octet>)
    decreases |d|
  {
    d == [] || !c.Go? || (StaysOpen(c, d[0]) && SectionOpen(Step(c, d[0]), d[1..]))
  }

  // One more byte counted
  function OneMore(c: Config): Config
    requires !c.Bad?
  {
    c.(ps := c.ps.(nread := c.ps.nread + 1))
  }

  // In a header section, or passing its end on the way to the next one.
  predicate InSection(s: State) {
    ParsingHeader(s) || s == InPayload(MessageDone)
  }

  lemma HeaderStaysInSection(ps: Parser, tr: seq<Event>, unchecked: bool, ch: Octet)
    requires ps.state.InHeader? && !Resets(ps.state)
    ensures var a := HeaderStep(ps, tr, unchecked, ch);
            (a.Next? ==> ParsingHeader(a.ps.state)) && (a.Again? ==> InSection(a.ps.state)) && !a.Leave?
  {
    hide Emit, FieldMatch, ValueMatch, Token, IsNum, MoreDigits, DigitValue, NoteOption, ValueInitial, FieldInitial, Lower,
         IsHeaderChar;
  }

  lemma LookStaysInSection(ps: Parser, tr: seq<Event>, unchecked: bool, ch: Octet)
    requires InSection(ps.state) && !Resets(ps.state)
    ensures var a := Look(ps, tr, unchecked, ch);
            (a.Next? || a.Leave? ==> ParsingHeader(a.ps.state)) && (a.Again? ==> InSection(a.ps.state))
  {
    hide Emit, MethodSwitch, MethodGuess, MethodName, UrlChar, FirstUrlChar, Unhex, IsNum, MoreDigits, DigitValue, ShouldKeepAlive,
         CharAt, HeaderStep;
    if ps.state.InHeader? {
      HeaderStaysInSection(ps, tr, unchecked, ch);
    }
  }

  lemma {:induction false} DispatchCount(ps: Parser, tr: seq<Event>, lane: Lane, ch: Octet, pos: nat)
    requires ps.nread > 0 && InSection(ps.state)
    ensures var c := Dispatch(ps, tr, lane, ch, pos);
            !c.Bad? ==> c.ps.nread == 0 || (c.ps.nread == ps.nread && ParsingHeader(c.ps.state))
    decreases Looks(ps.state)
  {
    hide Look, Looks, Dispatch;
    DispatchOnce(ps, tr, lane, ch, pos);
    if Resets(ps.state) {
      ResetIgnoresCount(ps, 0, tr, lane.Skipping?, ch);
    } else {
      CountIsKept(ps, tr, lane.Skipping?, ch);
      LookStaysInSection(ps, tr, lane.Skipping?, ch);
      var act := Look(ps, tr, lane.Skipping?, ch);
      if act.Again? {
        LookingAgainTerminates(ps, tr, lane.Skipping?, ch);
        DispatchCount(act.ps, act.tr, Outer, ch, pos);
      }
    }
  }

  lemma StepOneMore(c: Config, ch: Octet)
    requires c.Go? && c.ps.nread > 0 && !Step(c, ch).Bad? && ParsingHeader(c.ps.state)
    ensures if c.ps.nread + 2 > MAX_HEADER_SIZE then Step(OneMore(c), ch) == Bad(HeaderOverflow, c.pos)
            else
              Step(OneMore(c), ch) ==
              if Step(c, ch).ps.nread == c.ps.nread + 1 then OneMore(Step(c, ch)) else Step(c, ch)
    ensures Step(c, ch).ps.nread == c.ps.nread + 1 || Step(c, ch).ps.nread == 0
    ensures Step(c, ch).ps.nread == c.ps.nread + 1 ==> ParsingHeader(Step(c, ch).ps.state)
  {
    hide Dispatch;
    var counted := c.ps.(nread := c.ps.nread + 1);
    DispatchRecounts(counted, c.ps.nread + 2, c.tr, c.lane, ch, c.pos);
    DispatchCount(counted, c.tr, c.lane, ch, c.pos);
  }

  // The rest of a run when one byte of its open header section has been counted twice.
  lemma {:induction false} RunOneMore(c: Config, d: seq<Octet>)
    requires c.Go? && c.ps.nread > 0 && ParsingHeader(c.ps.state) && !Run(c, d).Bad?
    ensures if d != [] && c.ps.nread + 1 + SectionLeft(c, d) > MAX_HEADER_SIZE then
              Run(OneMore(c), d).Bad? && Run(OneMore(c), d).e.HeaderOverflow?
            else Run(OneMore(c), d) == if SectionOpen(c, d) then OneMore(Run(c, d)) else Run(c, d)
    decreases |d|
  {
    hide Step;
    if d != [] {
      var next := Step(c, d[0]);
      RunCons(c, d);
      RunCons(OneMore(c), d);
      if next.Bad? {
        RunOfStopped(next, d[1..]);
        assert false;
      }
      StepOneMore(c, d[0]);
      if c.ps.nread + 2 > MAX_HEADER_SIZE {
        RunOfStopped(Bad(HeaderOverflow, c.pos), d[1..]);
      } else if next.Left? {
        RunOfStopped(next, d[1..]);
        RunOfStopped(OneMore(next), d[1..]);
        assert SectionLeft(next, d[1..]) == 0 && SectionOpen(next, d[1..]);
      } else if StaysOpen(c, d[0]) {
        RunOneMore(next, d[1..]);
      }
    }
  }

  // ----- One call against two

  // A second call on `d2` after a first on `d1`.
  function TwoCalls(ps: Parser, tr: seq<Event>, d1: seq<Octet>, d2: seq<Octet>): Config {
    var first := Call(ps, tr, d1);
    if first.Go? then Moved(Call(first.ps, first.tr, d2), |d1|) else first
  }

  // The fast skip is not on, or the byte it would miss is a legal one.
  predicate CleanSplit(m: Config, ch: Octet)
    requires m.Go?
  {
    !m.lane.Skipping? || m.ps.settings.lenient || IsHeaderChar(ch)
  }

  // The bytes of `d` that the byte counted twice at `m` is counted along with:
  // to the end of its header section, and once more if that is not in sight.
  function CountedAlong(m: Config, d: seq<Octet>): nat {
    SectionLeft(m, d) + if SectionOpen(m, d) && Run(m, d).Go? && !Run(m, d).lane.Outer? then 1 else 0
  }

  // Splitting at `m` does not exhaust the header budget.
  predicate WithinBudget(m: Config, d: seq<Octet>)
    requires m.Go?
  {
    m.lane.Outer? || m.ps.nread + 1 + CountedAlong(m, d) <= MAX_HEADER_SIZE
  }

  lemma StepIgnoresLane(m: Config, ch: Octet)
    requires m.Go?
    ensures CleanSplit(m, ch) ==> Step(m.(lane := Outer), ch) == Step(m, ch)
  {
    hide Dispatch;
    if m.ps.settings.lenient || IsHeaderChar(ch) {
      LookIgnoresLane(m.ps, m.tr, ch);
      LookIgnoresLane(m.ps.(nread := m.ps.nread + 1), m.tr, ch);
    }
    DispatchOnce(m.ps, m.tr, m.lane, ch, m.pos);
    DispatchOnce(m.ps, m.tr, Outer, ch, m.pos);
    DispatchOnce(m.ps.(nread := m.ps.nread + 1), m.tr, m.lane, ch, m.pos);
    DispatchOnce(m.ps.(nread := m.ps.nread + 1), m.tr, Outer, ch, m.pos);
  }

  lemma LookIgnoresLane(ps: Parser, tr: seq<Event>, ch: Octet)
    requires ps.settings.lenient || IsHeaderChar(ch)
    ensures Look(ps, tr, true, ch) == Look(ps, tr, false, ch)
  {
    hide Emit, StartStep, ResponseLineStep, MethodStep, UrlStartStep, UrlStep, RequestVersionStep, ChunkSizeStep,
         PayloadStep, FieldStartStep, FieldStep, ValueDiscardStep, ValueDiscardLwsStep, ValueStartStep, ValueLwsStep,
         HeadersAlmostDoneStep, HeadersDoneStep, ValueMatch, Lower, NoteOption;
  }

  lemma {:induction false} DispatchLaneCounted(ps: Parser, tr: seq<Event>, lane: Lane, ch: Octet, pos: nat)
    requires ParsingHeader(ps.state) ==> ps.nread > 0
    ensures var c := Dispatch(ps, tr, lane, ch, pos); c.Go? && !c.lane.Outer? ==> c.ps.nread > 0
    decreases Looks(ps.state)
  {
    hide Look, Looks, Dispatch;
    DispatchOnce(ps, tr, lane, ch, pos);
    var act := Look(ps, tr, lane.Skipping?, ch);
    if Resets(ps.state) {
      ResetIgnoresCount(ps, 0, tr, lane.Skipping?, ch);
    } else {
      CountIsKept(ps, tr, lane.Skipping?, ch);
      if act.Again? {
        LookingAgainTerminates(ps, tr, lane.Skipping?, ch);
        if !ParsingHeader(ps.state) {
          PayloadStaysPayload(ps, tr, lane.Skipping?, ch);
        }
        DispatchLaneCounted(act.ps, act.tr, Outer, ch, pos);
      }
    }
  }

  lemma PayloadStaysPayload(ps: Parser, tr: seq<Event>, unchecked: bool, ch: Octet)
    requires ps.state.InPayload? && Look(ps, tr, unchecked, ch).Again?
    ensures Look(ps, tr, unchecked, ch).ps.state.InPayload?
  {
    hide Emit, ShouldKeepAlive;
  }

  // A byte left half-way has been counted.
  lemma {:induction false} RunLaneCounted(c: Config, d: seq<Octet>)
    requires c.Go? && c.lane.Outer?
    ensures Run(c, d).Go? ==>
              Run(c, d).pos == c.pos + |d| && (!Run(c, d).lane.Outer? ==> Run(c, d).ps.nread > 0)
  {
    hide Dispatch;
    if d != [] {
      RunLaneCounted(c, d[..|d| - 1]);
      var r, ch := Run(c, d[..|d| - 1]), d[|d| - 1];
      if r.Go? {
        if ParsingHeader(r.ps.state) {
          DispatchLaneCounted(r.ps.(nread := r.ps.nread + 1), r.tr, r.lane, ch, r.pos);
          DispatchPos(r.ps.(nread := r.ps.nread + 1), r.tr, r.lane, ch, r.pos);
        } else {
          DispatchLaneCounted(r.ps, r.tr, r.lane, ch, r.pos);
          DispatchPos(r.ps, r.tr, r.lane, ch, r.pos);
        }
      }
    }
  }

  lemma {:induction false} DispatchPos(ps: Parser, tr: seq<Event>, lane: Lane, ch: Octet, pos: nat)
    ensures Dispatch(ps, tr, lane, ch, pos).Go? ==> Dispatch(ps, tr, lane, ch, pos).pos == pos + 1
    decreases Looks(ps.state)
  {
    hide Look, Looks, Dispatch;
    DispatchOnce(ps, tr, lane, ch, pos);
    var act := Look(ps, tr, lane.Skipping?, ch);
    if act.Again? {
      LookingAgainTerminates(ps, tr, lane.Skipping?, ch);
      DispatchPos(act.ps, act.tr, Outer, ch, pos);
    }
  }

  lemma {:induction false} OpenSectionCount(c: Config, d: seq<Octet>)
    requires c.Go? && SectionOpen(c, d) && Run(c, d).Go?
    ensures Run(c, d).ps.nread == c.ps.nread + SectionLeft(c, d)
    decreases |d|
  {
    hide Step;
    if d != [] {
      RunCons(c, d);
      if Step(c, d[0]).Go? {
        OpenSectionCount(Step(c, d[0]), d[1..]);
      } else {
        RunOfStopped(Step(c, d[0]), d[1..]);
      }
    }
  }

  // How far the two calls' counts differ at the end.
  function Excess(m: Config, d: seq<Octet>): nat
    requires m.Go?
  {
    if !m.lane.Outer? && SectionOpen(m, d) then 1 else 0
  }

  // The second of two calls that meet in the middle of a byte run.
  lemma SecondCallInside(m: Config, d: seq<Octet>)
    requires ConfigOk(m) && m.Go? && !m.lane.Outer? && m.ps.nread > 0 && d != [] && CleanSplit(m, d[0])
    requires !Finish(Run(m, d)).Bad?
    ensures var second := Finish(Run(OneMore(m.(lane := Outer)), d));
            if m.ps.nread + 1 + CountedAlong(m, d) > MAX_HEADER_SIZE then second.Bad?
            else
              var one := Finish(Run(m, d));
              !second.Bad? && second == one.(ps := one.ps.(nread := one.ps.nread + Excess(m, d)))
  {
    hide Step, Run, Resting;
    var m0 := m.(lane := Outer);
    StepIgnoresLane(m, d[0]);
    RunCons(m, d);
    RunCons(m0, d);
    RunOneMore(m0, d);
    if SectionOpen(m, d) && Run(m, d).Go? {
      OpenSectionCount(m, d);
    }
  }

  // An illegal byte that the fast skip would have passed over.
  lemma SecondCallDirty(m: Config, d: seq<Octet>)
    requires ConfigOk(m) && m.Go? && d != [] && !CleanSplit(m, d[0])
    ensures Run(OneMore(m.(lane := Outer)), d).Bad?
  {
  }

  lemma LineEndsAreHeaderChars()
    ensures IsHeaderChar(CR) && IsHeaderChar(LF)
  {
  }

  // Between two calls of which the first ends in the switch
  lemma OuterSplit(ps: Parser, tr: seq<Event>, d1: seq<Octet>, d2: seq<Octet>)
    requires Run(Begin(ps, tr), d1).Go? && Run(Begin(ps, tr), d1).lane.Outer?
    ensures Run(Begin(ps, tr), d1).pos == |d1| ==> TwoCalls(ps, tr, d1, d2) == Call(ps, tr, d1 + d2)
  {
    hide Step, Run;
    var c := Begin(ps, tr);
    var m := Run(c, d1);
    RunConcat(c, d1, d2);
    RunMoves(Begin(m.ps, m.tr), d2, |d1|);
    if m.pos == |d1| {
      assert m == Moved(Begin(m.ps, m.tr), |d1|);
    }
  }

  // One call on `d1 + d2` against one on `d1` and one on `d2`.  When the single
  // call goes well, the two go well exactly if the split is clean and leaves the
  // budget unexhausted; they then end in the same fields, but for the count, and
  // have made the same callbacks, adjacent data callbacks joined.
  lemma SplitInvariance(ps: Parser, tr: seq<Event>, d1: seq<Octet>, d2: seq<Octet>)
    requires Resting(ps) && d2 != []
    requires Run(Begin(ps, tr), d1).Go? && !Call(ps, tr, d1 + d2).Bad?
    ensures var m, one, two := Run(Begin(ps, tr), d1), Call(ps, tr, d1 + d2), TwoCalls(ps, tr, d1, d2);
            && (!two.Bad? <==> CleanSplit(m, d2[0]) && WithinBudget(m, d2))
            && (!two.Bad? ==> two == one.(ps := one.ps.(nread := one.ps.nread + Excess(m, d2))))
  {
    hide Step, Run, Resting, CleanSplit, SectionOpen, SectionLeft;
    var c := Begin(ps, tr);
    var m := Run(c, d1);
    RunConcat(c, d1, d2);
    RunKeepsInvariant(c, d1);
    RunLaneCounted(c, d1);
    if m.lane.Outer? {
      OuterSplit(ps, tr, d1, d2);
      OuterSplitIsClean(m, d2[0]);
    } else {
      var first := Call(ps, tr, d1);
      if first.Go? {
        RunMoves(Begin(first.ps, first.tr), d2, |d1|);
      }
      if CleanSplit(m, d2[0]) {
        SecondCallInside(m, d2);
        SectionLeftPositive(m, d2);
      } else {
        SecondCallDirty(m, d2);
      }
    }
  }

  lemma OuterSplitIsClean(m: Config, ch: Octet)
    requires m.Go? && m.lane.Outer?
    ensures CleanSplit(m, ch)
  {
  }

  lemma SectionLeftPositive(m: Config, d: seq<Octet>)
    requires m.Go? && d != []
    ensures SectionLeft(m, d) > 0
  {
    hide Step;
  }

  // Splitting is not always harmless: an unmatched header value in one buffer
  // may hold a byte that no value may contain, but not at the start of a buffer.
  lemma DirtySplitFails(ps: Parser, tr: seq<Event>)
    requires Resting(ps) && ps.state == InHeader(ValueText) && ps.headerState.General?
    requires !ps.settings.lenient && ps.nread + 4 <= MAX_HEADER_SIZE
    ensures !Call(ps, tr, ['a', NUL]).Bad? && TwoCalls(ps, tr, ['a'], [NUL]).Bad?
  {
    hide Step, Run, Emit, Resting;
    var c := Begin(ps, tr);
    RunSkip(ps, tr, Outer, 0, ['a', NUL]);
    RunSkip(ps, tr, Outer, 0, ['a']);
    assert ['a', NUL] == ['a'] + [NUL];
    SplitInvariance(ps, tr, ['a'], [NUL]);
  }
}
