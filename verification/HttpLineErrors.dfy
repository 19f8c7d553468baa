// Header lines that are folded behind nothing or a comma, and those that are refused.
module HttpLineErrors {
  import opened HttpChars
  import opened HttpTypes
  import opened HttpMachine
  import opened HttpBulk
  import opened HttpInvariant
  import opened HttpSplit
  import opened HttpNames
  import opened HttpLengths
  import opened HttpRequest
  import opened HttpLines

  // ----- Names

  lemma StepNoName(c: Config, ch: Octet)
    requires AtLines(c) && c.ps.nread < MAX_HEADER_SIZE && Token(ch) == NUL && ch != CR && ch != LF
    ensures Step(c, ch) == Bad(InvalidHeaderToken, c.pos)
  {
    hide Emit, Dispatch, Token;
    StepNext(c.ps, c.tr, c.lane, c.pos, ch);
    DispatchOnce(c.ps.(nread := c.ps.nread + 1), c.tr, c.lane, ch, c.pos);
  }

  lemma LookBehindName(ps: Parser, tr: seq<Event>, unchecked: bool, ch: Octet)
    requires ps.state == InHeader(FieldName)
    ensures Token(ch) != NUL ==> Look(ps, tr, unchecked, ch).Next? && Look(ps, tr, unchecked, ch).ps.state == InHeader(FieldName)
    ensures Token(ch) == NUL ==>
              Look(ps, tr, unchecked, ch) ==
              if ch == ':' then Next(ps.(state := InHeader(ValueDiscardWs)), tr) else Err(InvalidHeaderToken)
  {
    hide Emit, FieldMatch, Token;
  }

  // A name goes on with a token character and ends with a colon; no other byte
  // may stand in it, begin it, or come between it and the colon.
  lemma NameExactly(c: Config, w: seq<Octet>, ch: Octet)
    requires AtLines(c) && c.ps.nread + |w| < MAX_HEADER_SIZE && (w == [] || IsName(w))
    requires w == [] ==> ch != CR && ch != LF
    ensures var r := Run(c, w + [ch]);
            if IsName([ch]) then r.Go? && r.ps.state == InHeader(FieldName)
            else if ch == ':' && w != [] then r.Go? && r.ps.state == InHeader(ValueDiscardWs) && r.tr == Emit(c.tr, Data(Field, w))
            else r == Bad(InvalidHeaderToken, c.pos + |w|)
  {
    hide Step, Emit, Token, Dispatch, Look, NameState;
    RunSnoc(c, w, ch);
    if w == [] {
      assert Run(c, w) == c;
      ColonIsNoToken();
      if Token(ch) != NUL {
        StepNameStart(c, ch);
      } else {
        StepNoName(c, ch);
      }
    } else {
      RunFieldName(c, w);
      var r := NameConfig(c, w);
      ColonIsNoToken();
      StepNext(r.ps, r.tr, r.lane, r.pos, ch);
      var counted := r.ps.(nread := r.ps.nread + 1);
      DispatchOnce(counted, r.tr, r.lane, ch, r.pos);
      LookBehindName(counted, r.tr, r.lane.Skipping?, ch);
    }
  }

  // ----- Lengths

  lemma LookSecondLength(ps: Parser, tr: seq<Event>, ch: Octet)
    requires ps.state == InHeader(ValueDiscardWs) && ps.headerState.ContentLength? && ps.flags.contentLength && IsNum(ch)
    ensures Look(ps, tr, false, ch) == Err(UnexpectedContentLength)
  {
    hide Emit, Lower;
  }

  // A second length is refused at its first digit, even if it is the same.
  lemma SecondLengthIsRefused(c: Config, l: Line)
    requires AtLines(c) && ValidLine(l) && GivesLength(l) && c.ps.flags.contentLength
    requires c.ps.nread + |LineText(l)| <= MAX_HEADER_SIZE
    ensures Run(c, LineText(l)) == Bad(UnexpectedContentLength, c.pos + |l.name| + 1 + |l.blanks|)
  {
    hide Step, Run, Look, Dispatch, NameState, DecimalValue, HttpOptions.LegalValue, Lowered, NameMatcherOk, IsNum;
    NamesDiffer();
    NameRecogniser(l.name);
    NameStateOk(l.name);
    RunBlanks(c, l.name, l.blanks);
    var before, behind := l.name + [':'] + l.blanks, l.value + l.end;
    var b := BlankConfig(c, l.name, |l.blanks|);
    var counted := b.ps.(nread := b.ps.nread + 1);
    StepNext(b.ps, b.tr, b.lane, b.pos, behind[0]);
    DispatchOnce(counted, b.tr, b.lane, behind[0], b.pos);
    LookSecondLength(counted, b.tr, behind[0]);
    RunCons(b, behind);
    RunOfStopped(Step(b, behind[0]), behind[1..]);
    RunConcat(c, before, behind);
    assert before + behind == LineText(l);
  }

  // ----- Carriage returns

  lemma LookReturn(ps: Parser, tr: seq<Event>, ch: Octet)
    requires ch != LF
    ensures ps.state == InHeader(HeaderAlmostDone) ==> Look(ps, tr, false, ch) == Err(LfExpected)
    ensures ps.state == InHeader(ValueDiscardWsAlmostDone) || ps.state == InHeader(HeadersAlmostDone) ==>
              Look(ps, tr, false, ch) == Err(StrictCheck)
    ensures ps.state == InHeader(FieldStart) ==>
              Look(ps, tr, false, CR) == Next(ps.(state := InHeader(HeadersAlmostDone)), tr)
  {
    hide Emit;
  }

  predicate InReturn(c: Config, s: HeaderLineState) {
    c.Go? && c.lane.Outer? && c.ps.nread < MAX_HEADER_SIZE && c.ps.state == InHeader(s)
  }

  // Behind a carriage return only a line feed will do: in a value, in an empty
  // value, and in the blank line.
  lemma BareReturnIsRefused(c: Config, ch: Octet)
    requires ch != LF
    requires InReturn(c, HeaderAlmostDone) || InReturn(c, ValueDiscardWsAlmostDone) || InReturn(c, HeadersAlmostDone)
    ensures Step(c, ch) == Bad(if c.ps.state == InHeader(HeaderAlmostDone) then LfExpected else StrictCheck, c.pos)
  {
    hide Emit, Dispatch, Look;
    StepNext(c.ps, c.tr, c.lane, c.pos, ch);
    DispatchOnce(c.ps.(nread := c.ps.nread + 1), c.tr, c.lane, ch, c.pos);
    LookReturn(c.ps.(nread := c.ps.nread + 1), c.tr, ch);
  }

  // ----- Folds

  lemma LookEmptyFold(ps: Parser, tr: seq<Event>, ch: Octet)
    requires ps.state == InHeader(ValueDiscardLws) && (ch == ' ' || ch == TAB)
    ensures Look(ps, tr, false, ch) == Next(ps.(state := InHeader(ValueDiscardWs)), tr)
  {
    hide Emit;
  }

  lemma RunEmptyFold(b: Config, e: seq<Octet>, ch: Octet)
    requires b.Go? && b.lane.Outer? && b.ps.state == InHeader(ValueDiscardWs) && IsLineEnd(e) && (ch == ' ' || ch == TAB)
    requires b.ps.nread + |e| < MAX_HEADER_SIZE
    ensures Run(b, e + [ch]) == Go(b.ps.(nread := b.ps.nread + |e| + 1), b.tr, Outer, b.pos + |e| + 1)
  {
    hide Step, Emit, Dispatch, Run, Look;
    RunEmptyEnd(b, e);
    var d := Run(b, e);
    StepNext(d.ps, d.tr, d.lane, d.pos, ch);
    DispatchOnce(d.ps.(nread := d.ps.nread + 1), d.tr, d.lane, ch, d.pos);
    LookEmptyFold(d.ps.(nread := d.ps.nread + 1), d.tr, ch);
    RunSnoc(b, e, ch);
  }

  // A fold behind nothing but blanks is like as many blanks.
  lemma FoldOfNothing(c: Config, name: seq<Octet>, blanks: seq<Octet>, e: seq<Octet>, ch: Octet, more: seq<Octet>)
    requires AtLines(c) && IsName(name) && AllBlanks(blanks) && IsLineEnd(e) && (ch == ' ' || ch == TAB)
    requires AllBlanks(more) && |more| == |blanks| + |e| + 1 && c.ps.nread + |name| + 1 + |more| <= MAX_HEADER_SIZE
    ensures Run(c, name + [':'] + blanks + (e + [ch])) == Run(c, name + [':'] + more)
  {
    hide Emit, NameState, Run, IsName, AllBlanks, IsLineEnd;
    RunBlanks(c, name, blanks);
    RunBlanks(c, name, more);
    NameIsSome(name);
    RunEmptyFold(BlankConfig(c, name, |blanks|), e, ch);
    RunConcat(c, name + [':'] + blanks, e + [ch]);
  }

  lemma LookFoldedList(ps: Parser, tr: seq<Event>, ch: Octet)
    requires ps.headerState.TokenStart? && ps.index == 0
    ensures ps.state == InHeader(ValueText) ==> Look(ps, tr, false, ' ') == Next(ps, Emit(tr, Data(Value, [' '])))
    ensures ps.state == InHeader(ValueStart) && (ch == ' ' || ch == TAB) ==>
              Look(ps, tr, false, ch) == Next(ps.(state := InHeader(ValueText)), Emit(tr, Data(Value, [ch])))
  {
    hide Emit;
  }

  // A list of options that is folded behind a comma goes on behind the fold,
  // as it does behind a space: even a tab there does not end it.
  lemma FoldBehindComma(d: Config, e: seq<Octet>, ch: Octet)
    requires d.Go? && d.lane.Inner? && d.ps.state == InHeader(ValueText) && d.ps.headerState.TokenStart? && d.ps.index == 0
    requires IsLineEnd(e) && (ch == ' ' || ch == TAB) && d.ps.nread + |e| < MAX_HEADER_SIZE
    ensures var spaced, folded := Run(d, [' ']), Run(d, e + [ch]);
            && spaced.Go? && folded.Go? && folded.ps == spaced.ps.(nread := spaced.ps.nread + |e|)
            && folded.tr == Emit(d.tr, Data(Value, [ch])) && folded.pos == d.pos + |e| + 1
  {
    hide Step, Emit, Dispatch, Run, Look;
    RunOne(d, ' ');
    StepNext(d.ps, d.tr, d.lane, d.pos, ' ');
    DispatchOnce(d.ps.(nread := d.ps.nread + 1), d.tr, d.lane, ' ', d.pos);
    LookFoldedList(d.ps.(nread := d.ps.nread + 1), d.tr, ' ');
    RunEnd(d, e);
    var f := Run(d, e);
    var counted := f.ps.(nread := f.ps.nread + 1);
    StepNext(f.ps, f.tr, f.lane, f.pos, ch);
    DispatchOnce(counted, f.tr, Outer, ch, f.pos);
    LookFold(counted, f.tr, ch);
    DispatchOnce(counted.(state := InHeader(ValueStart)), f.tr, Outer, ch, f.pos);
    LookFoldedList(counted.(state := InHeader(ValueStart)), f.tr, ch);
    RunSnoc(d, e, ch);
  }
}
