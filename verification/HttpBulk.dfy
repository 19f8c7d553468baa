// What the reference does over stretches of bytes that the source reads in
// loops of their own.
module HttpBulk {
  import opened HttpChars
  import opened HttpTypes
  import opened HttpMachine

  // A byte that is consumed at once, in a header section or past one.
  lemma StepNext(ps: Parser, tr: seq<Event>, lane: Lane, pos: nat, ch: Octet)
    requires ParsingHeader(ps.state) ==> ps.nread < MAX_HEADER_SIZE
    ensures var counted := if ParsingHeader(ps.state) then ps.(nread := ps.nread + 1) else ps;
            Step(Go(ps, tr, lane, pos), ch) == Dispatch(counted, tr, lane, ch, pos)
  {
    hide Dispatch;
  }

  lemma StepOverflow(ps: Parser, tr: seq<Event>, lane: Lane, pos: nat, ch: Octet)
    requires ParsingHeader(ps.state) && ps.nread == MAX_HEADER_SIZE
    ensures Step(Go(ps, tr, lane, pos), ch) == Bad(HeaderOverflow, pos)
  {
    hide Dispatch;
  }

  // The configuration after one pass through the switch.
  function After(ps: Parser, act: Act, ch: Octet, pos: nat): Config {
    match act
    case Next(ps', tr') => Go(ps', tr', LaneAfter(ps, ps'), pos + 1)
    case Again(ps', tr') => Dispatch(ps', tr', Outer, ch, pos)
    case Leave(ps', tr') => Left(ps', tr', pos + 1)
    case Err(e) => Bad(e, pos)
  }

  lemma DispatchOnce(ps: Parser, tr: seq<Event>, lane: Lane, ch: Octet, pos: nat)
    ensures Dispatch(ps, tr, lane, ch, pos) ==
            After(ps, Look(ps, tr, lane.Skipping?, ch), ch, pos)
  {
    hide Look, Looks;
  }

  lemma {:induction false} RunOfStopped(c: Config, d: seq<Octet>)
    requires !c.Go?
    ensures Run(c, d) == c
  {
    hide Dispatch;
    if d != [] {
      RunOfStopped(c, d[..|d| - 1]);
    }
  }

  lemma RunOne(c: Config, ch: Octet)
    ensures Run(c, [ch]) == Step(c, ch)
  {
    hide Step;
    assert [ch][..0] == [];
  }

  // The slice up to `q + 1` is one step more than the slice up to `q`.
  lemma RunSlice(c: Config, d: seq<Octet>, a: nat, q: nat)
    requires a <= q < |d|
    ensures Run(c, d[a..q + 1]) == Step(Run(c, d[a..q]), d[q])
  {
    hide Step;
    assert d[a..q + 1] == d[a..q] + [d[q]];
    RunSnoc(c, d[a..q], d[q]);
  }

  lemma RunSlices(c: Config, d: seq<Octet>, a: nat, m: nat, q: nat)
    requires a <= m <= q <= |d|
    ensures Run(c, d[a..q]) == Run(Run(c, d[a..m]), d[m..q])
  {
    hide Run;
    assert d[a..q] == d[a..m] + d[m..q];
    RunConcat(c, d[a..m], d[m..q]);
  }

  // A run over a whole buffer, taken up at position `p`.
  lemma RunFrom(c: Config, d: seq<Octet>, p: nat)
    requires p <= |d|
    ensures Run(c, d) == Run(Run(c, d[..p]), d[p..])
    ensures forall q :: p <= q <= |d| ==> Run(c, d[..q]) == Run(Run(c, d[..p]), d[p..q])
  {
    hide Run;
    assert d == d[..p] + d[p..];
    RunConcat(c, d[..p], d[p..]);
    forall q | p <= q <= |d| ensures Run(c, d[..q]) == Run(Run(c, d[..p]), d[p..q]) {
      assert d[..q] == d[..p] + d[p..q];
      RunConcat(c, d[..p], d[p..q]);
    }
  }

  // A run that has left early stays where it is.
  lemma RunLeft(c: Config, d: seq<Octet>, q: nat)
    requires q <= |d| && Run(c, d[..q]).Left?
    ensures Run(c, d) == Run(c, d[..q])
  {
    hide Run;
    RunFrom(c, d, q);
    RunOfStopped(Run(c, d[..q]), d[q..]);
  }

  lemma RunNothing(c: Config, d: seq<Octet>, a: nat)
    requires a <= |d|
    ensures Run(c, d[a..a]) == c
  {
    hide Step;
  }

  lemma StaysBad(v: Config, d: seq<Octet>, p0: nat, p: nat)
    requires p0 <= p <= |d| && Run(v, d[p0..p]).Bad?
    ensures Finish(Run(v, d[p0..])) == Run(v, d[p0..p])
  {
    hide Run, Step;
    RunSlices(v, d, p0, p, |d|);
    RunOfStopped(Run(v, d[p0..p]), d[p..]);
    assert d[p0..|d|] == d[p0..];
    assert d[p..|d|] == d[p..];
  }

  lemma FailsAt(v: Config, d: seq<Octet>, p0: nat, p: nat)
    requires p0 <= p < |d| && Step(Run(v, d[p0..p]), d[p]).Bad?
    ensures Finish(Run(v, d[p0..])) == Step(Run(v, d[p0..p]), d[p])
  {
    hide Run, Step;
    RunSlice(v, d, p0, p);
    StaysBad(v, d, p0, p + 1);
  }

  // Having counted `n` bytes up to `p`, the reference cannot count another.
  lemma OverflowsAt(v: Config, d: seq<Octet>, p0: nat, p: nat, ps: Parser, tr: seq<Event>, lane: Lane, n: nat)
    requires p0 <= p <= |d| && n >= MAX_HEADER_SIZE && ParsingHeader(ps.state)
    requires n > MAX_HEADER_SIZE ==> Run(v, d[p0..p]).Bad? && Run(v, d[p0..p]).e.HeaderOverflow?
    requires n == MAX_HEADER_SIZE ==> Run(v, d[p0..p]) == Go(ps.(nread := n), tr, lane, p)
    requires p == |d| ==> !lane.Outer?
    ensures Finish(Run(v, d[p0..])).Bad? && Finish(Run(v, d[p0..])).e.HeaderOverflow?
  {
    hide Run, Step;
    if n > MAX_HEADER_SIZE {
      StaysBad(v, d, p0, p);
    } else if p < |d| {
      StepOverflow(ps.(nread := n), tr, lane, p, d[p]);
      FailsAt(v, d, p0, p);
    } else {
      assert d[p0..p] == d[p0..];
    }
  }

  // ----- Header names

  lemma StepFieldChar(ps: Parser, tr: seq<Event>, lane: Lane, pos: nat, ch: Octet)
    requires ps.state == InHeader(FieldName) && ps.nread < MAX_HEADER_SIZE && Token(ch) != NUL
    ensures var (hs, index) := FieldMatch(ps.headerState, ps.index, Token(ch), ch);
            Step(Go(ps, tr, lane, pos), ch) ==
            Go(ps.(headerState := hs, index := index, nread := ps.nread + 1), Emit(tr, Data(Field, [ch])), Inner, pos + 1)
  {
    hide Token, FieldMatch, Emit, Dispatch;
    StepNext(ps, tr, lane, pos, ch);
    DispatchOnce(ps.(nread := ps.nread + 1), tr, lane, ch, pos);
  }

  lemma StepFieldEnd(ps: Parser, tr: seq<Event>, lane: Lane, pos: nat, ch: Octet)
    requires ps.state == InHeader(FieldName) && ps.nread < MAX_HEADER_SIZE && Token(ch) == NUL
    ensures Step(Go(ps, tr, lane, pos), ch) ==
            if ch == ':' then Go(ps.(state := InHeader(ValueDiscardWs), nread := ps.nread + 1), tr, Outer, pos + 1)
            else Bad(InvalidHeaderToken, pos)
  {
    hide Token, FieldMatch, Emit, Dispatch;
    StepNext(ps, tr, lane, pos, ch);
    DispatchOnce(ps.(nread := ps.nread + 1), tr, lane, ch, pos);
  }

  // A byte of a header name when `n` bytes have been counted, be it too many.
  lemma StepFieldCounted(r: Config, ps: Parser, tr: seq<Event>, lane: Lane, n: nat, pos: nat, ch: Octet)
    requires ps.state == InHeader(FieldName) && Token(ch) != NUL
    requires if n > MAX_HEADER_SIZE then r.Bad? && r.e.HeaderOverflow? else r == Go(ps.(nread := n), tr, lane, pos)
    ensures var (hs, index) := FieldMatch(ps.headerState, ps.index, Token(ch), ch);
            if n + 1 > MAX_HEADER_SIZE then Step(r, ch).Bad? && Step(r, ch).e.HeaderOverflow?
            else
              Step(r, ch) ==
              Go(ps.(headerState := hs, index := index, nread := n + 1), Emit(tr, Data(Field, [ch])), Inner, pos + 1)
  {
    hide Token, FieldMatch, Emit, Step;
    if n > MAX_HEADER_SIZE {
      StepStopped(r.e, r.pos, ch);
    } else if n == MAX_HEADER_SIZE {
      StepOverflow(ps.(nread := n), tr, lane, pos, ch);
    } else {
      StepFieldChar(ps.(nread := n), tr, lane, pos, ch);
    }
  }

  // ----- Header values

  lemma StepValue(ps: Parser, tr: seq<Event>, lane: Lane, pos: nat, ch: Octet)
    requires ps.state == InHeader(ValueText) && ps.nread < MAX_HEADER_SIZE
    ensures var counted := ps.(nread := ps.nread + 1);
            Step(Go(ps, tr, lane, pos), ch) ==
            After(counted, ValueStep(counted, tr, ch, lane.Skipping?), ch, pos)
  {
    hide ValueStep, Dispatch;
    StepNext(ps, tr, lane, pos, ch);
    DispatchOnce(ps.(nread := ps.nread + 1), tr, lane, ch, pos);
  }

  // A byte of a value that a matcher is looking at, when `n` bytes have been
  // counted, be it too many.
  lemma StepValueCounted(r: Config, ps: Parser, tr: seq<Event>, lane: Lane, n: nat, pos: nat, ch: Octet)
    requires ps.state == InHeader(ValueText) && !ps.headerState.General? && ch != CR && ch != LF && !lane.Skipping?
    requires if n > MAX_HEADER_SIZE then r.Bad? && r.e.HeaderOverflow? else r == Go(ps.(nread := n), tr, lane, pos)
    ensures var act := ValueStep(ps.(nread := n + 1), tr, ch, false);
            if n + 1 > MAX_HEADER_SIZE then Step(r, ch).Bad? && Step(r, ch).e.HeaderOverflow?
            else if act.Next? then Step(r, ch) == Go(act.ps, act.tr, Inner, pos + 1)
            else act.Err? && Step(r, ch) == Bad(act.e, pos)
  {
    hide Emit, Step, ValueMatch, Lower, IsHeaderChar, NoteOption;
    if n > MAX_HEADER_SIZE {
      StepStopped(r.e, r.pos, ch);
    } else if n == MAX_HEADER_SIZE {
      StepOverflow(ps.(nread := n), tr, lane, pos, ch);
    } else {
      StepValue(ps.(nread := n), tr, lane, pos, ch);
    }
  }

  // A byte that no value may contain
  lemma StepValueInvalid(r: Config, ps: Parser, tr: seq<Event>, lane: Lane, n: nat, pos: nat, ch: Octet)
    requires ps.state == InHeader(ValueText) && ch != CR && ch != LF && !lane.Skipping?
    requires !ps.settings.lenient && !IsHeaderChar(ch)
    requires if n > MAX_HEADER_SIZE then r.Bad? && r.e.HeaderOverflow? else r == Go(ps.(nread := n), tr, lane, pos)
    ensures if n + 1 > MAX_HEADER_SIZE then Step(r, ch).Bad? && Step(r, ch).e.HeaderOverflow?
            else Step(r, ch) == Bad(InvalidHeaderToken, pos)
  {
    hide Emit, Step, ValueMatch, Lower, IsHeaderChar, NoteOption;
    if n > MAX_HEADER_SIZE {
      StepStopped(r.e, r.pos, ch);
    } else if n == MAX_HEADER_SIZE {
      StepOverflow(ps.(nread := n), tr, lane, pos, ch);
    } else {
      StepValue(ps.(nread := n), tr, lane, pos, ch);
    }
  }

  // The line end after a value
  lemma StepValueEnd(ps: Parser, tr: seq<Event>, lane: Lane, pos: nat, ch: Octet)
    requires ps.state == InHeader(ValueText) && ps.nread < MAX_HEADER_SIZE && (ch == CR || ch == LF)
    ensures var ended := ps.(state := InHeader(HeaderAlmostDone), nread := ps.nread + 1);
            Step(Go(ps, tr, lane, pos), ch) ==
            if ch == CR then Go(ended, tr, Outer, pos + 1) else Dispatch(ended, tr, Outer, ch, pos)
  {
    hide Emit, Dispatch, ValueMatch, Lower, IsHeaderChar, NoteOption;
    StepValue(ps, tr, lane, pos, ch);
  }

  predicate NoLineEnd(w: seq<Octet>) {
    forall k :: 0 <= k < |w| ==> w[k] != CR && w[k] != LF
  }

  lemma StepSkip(ps: Parser, tr: seq<Event>, lane: Lane, pos: nat, ch: Octet)
    requires ps.state == InHeader(ValueText) && ps.headerState.General? && ps.nread < MAX_HEADER_SIZE
    requires ch != CR && ch != LF
    requires lane.Skipping? || ps.settings.lenient || IsHeaderChar(ch)
    ensures Step(Go(ps, tr, lane, pos), ch) ==
            Go(ps.(nread := ps.nread + 1), Emit(tr, Data(Value, [ch])), Skipping, pos + 1)
  {
    hide Emit, Dispatch, IsHeaderChar, Lower;
    StepValue(ps, tr, lane, pos, ch);
    var counted := ps.(nread := ps.nread + 1);
    assert ValueMatch(counted.headerState, counted.index, Lower(ch), ch) == (General, counted.index);
    assert counted.(headerState := General, index := counted.index, flags := counted.flags) == counted;
  }

  // A stretch of an unmatched value: after its first byte nothing is looked at.
  lemma {:induction false} RunSkip(ps: Parser, tr: seq<Event>, lane: Lane, pos: nat, w: seq<Octet>)
    requires ps.state == InHeader(ValueText) && ps.headerState.General? && ps.nread <= MAX_HEADER_SIZE
    requires w != [] && NoLineEnd(w)
    requires lane.Skipping? || ps.settings.lenient || IsHeaderChar(w[0])
    ensures Run(Go(ps, tr, lane, pos), w) ==
            if ps.nread + |w| > MAX_HEADER_SIZE then Bad(HeaderOverflow, pos + MAX_HEADER_SIZE - ps.nread)
            else Go(ps.(nread := ps.nread + |w|), Emit(tr, Data(Value, w)), Skipping, pos + |w|)
  {
    hide Emit, Step, IsHeaderChar;
    var init, ch := w[..|w| - 1], w[|w| - 1];
    assert w == init + [ch];
    if |w| == 1 {
      assert w == [ch];
      RunOne(Go(ps, tr, lane, pos), ch);
      if ps.nread == MAX_HEADER_SIZE {
        StepOverflow(ps, tr, lane, pos, ch);
      } else {
        StepSkip(ps, tr, lane, pos, ch);
      }
    } else {
      RunSkip(ps, tr, lane, pos, init);
      if ps.nread + |init| < MAX_HEADER_SIZE {
        StepSkip(ps.(nread := ps.nread + |init|), Emit(tr, Data(Value, init)), Skipping, pos + |init|, ch);
        EmitTwice(tr, Value, init, [ch]);
      } else if ps.nread + |init| == MAX_HEADER_SIZE {
        StepOverflow(ps.(nread := ps.nread + |init|), Emit(tr, Data(Value, init)), Skipping, pos + |init|, ch);
      } else {
        RunSnoc(Go(ps, tr, lane, pos), init, ch);
        StepStopped(HeaderOverflow, pos + MAX_HEADER_SIZE - ps.nread, ch);
      }
    }
  }

  // The fast skip from `p` to `q`, where it stops at the first line end in reach.
  lemma RunFastSkip(v: Config, d: seq<Octet>, p0: nat, p: nat, q: nat, ps: Parser, tr: seq<Event>, lane: Lane, n: nat)
    requires p0 <= p < q <= |d| && ps.state == InHeader(ValueText) && ps.headerState.General?
    requires if n > MAX_HEADER_SIZE then Run(v, d[p0..p]).Bad? && Run(v, d[p0..p]).e.HeaderOverflow?
             else Run(v, d[p0..p]) == Go(ps.(nread := n), tr, lane, p)
    requires lane.Skipping? || ps.settings.lenient || IsHeaderChar(d[p])
    requires NoLineEnd(d[p..q]) || (q == |d| && q - p > MAX_HEADER_SIZE && NoLineEnd(d[p..q][..MAX_HEADER_SIZE]))
    ensures if n + (q - p) > MAX_HEADER_SIZE then Run(v, d[p0..q]).Bad? && Run(v, d[p0..q]).e.HeaderOverflow?
            else Run(v, d[p0..q]) == Go(ps.(nread := n + (q - p)), Emit(tr, Data(Value, d[p..q])), Skipping, q)
  {
    hide Emit, Step, IsHeaderChar, Run;
    RunSlices(v, d, p0, p, q);
    if n > MAX_HEADER_SIZE {
      RunOfStopped(Run(v, d[p0..p]), d[p..q]);
    } else if NoLineEnd(d[p..q]) {
      RunSkip(ps.(nread := n), tr, lane, p, d[p..q]);
    } else {
      RunTooLong(ps.(nread := n), tr, lane, p, d[p..q]);
    }
  }

  // More than a whole header section with no line end in sight.
  lemma RunTooLong(ps: Parser, tr: seq<Event>, lane: Lane, pos: nat, w: seq<Octet>)
    requires ps.state == InHeader(ValueText) && ps.headerState.General? && ps.nread <= MAX_HEADER_SIZE
    requires |w| > MAX_HEADER_SIZE && NoLineEnd(w[..MAX_HEADER_SIZE])
    requires lane.Skipping? || ps.settings.lenient || IsHeaderChar(w[0])
    ensures Run(Go(ps, tr, lane, pos), w).Bad? && Run(Go(ps, tr, lane, pos), w).e.HeaderOverflow?
  {
    hide Emit, Step, IsHeaderChar, Run;
    var head, ch, tail := w[..MAX_HEADER_SIZE], w[MAX_HEADER_SIZE], w[MAX_HEADER_SIZE + 1..];
    assert w == (head + [ch]) + tail;
    var c := Go(ps, tr, lane, pos);
    RunSkip(ps, tr, lane, pos, head);
    RunSnoc(c, head, ch);
    if ps.nread == 0 {
      StepOverflow(ps.(nread := MAX_HEADER_SIZE), Emit(tr, Data(Value, head)), Skipping, pos + |head|, ch);
    } else {
      StepStopped(HeaderOverflow, pos + MAX_HEADER_SIZE - ps.nread, ch);
    }
    RunConcat(c, head + [ch], tail);
    RunOfStopped(Run(c, head + [ch]), tail);
  }

  lemma StepStopped(e: Errno, pos: nat, ch: Octet)
    ensures Step(Bad(e, pos), ch) == Bad(e, pos)
  {
    hide Dispatch;
  }

  // ----- Bodies

  // The parser after `n` more bytes of a body or chunk.
  function Taken(ps: Parser, n: nat): Parser
    requires ps.state == InPayload(BodyIdentityEof) || n < ps.contentLength
  {
    if ps.state == InPayload(BodyIdentityEof) then ps else ps.(contentLength := ps.contentLength - n)
  }

  predicate Collecting(ps: Parser, n: nat) {
    || ps.state == InPayload(BodyIdentityEof)
    || ((ps.state == InPayload(BodyIdentity) || ps.state == InPayload(ChunkData)) && n < ps.contentLength)
  }

  lemma StepBody(ps: Parser, tr: seq<Event>, pos: nat, ch: Octet)
    requires Collecting(ps, 1)
    ensures Step(Go(ps, tr, Outer, pos), ch) == Go(Taken(ps, 1), Emit(tr, Data(Body, [ch])), Outer, pos + 1)
  {
    hide Emit, Dispatch;
    StepNext(ps, tr, Outer, pos, ch);
    DispatchOnce(ps, tr, Outer, ch, pos);
  }

  // Part of a body, short of its last byte.
  lemma {:induction false} RunBody(ps: Parser, tr: seq<Event>, pos: nat, w: seq<Octet>)
    requires Collecting(ps, |w|) && w != []
    ensures Run(Go(ps, tr, Outer, pos), w) == Go(Taken(ps, |w|), Emit(tr, Data(Body, w)), Outer, pos + |w|)
  {
    hide Emit, Step;
    var init, ch := w[..|w| - 1], w[|w| - 1];
    assert w == init + [ch];
    if |w| == 1 {
      assert w == [ch];
      RunOne(Go(ps, tr, Outer, pos), ch);
      StepBody(ps, tr, pos, ch);
    } else {
      RunBody(ps, tr, pos, init);
      StepBody(Taken(ps, |init|), Emit(tr, Data(Body, init)), pos + |init|, ch);
      EmitTwice(tr, Body, init, [ch]);
    }
  }

  // The last byte of a chunk, and of a body of known length.
  lemma StepLastByte(ps: Parser, tr: seq<Event>, pos: nat, ch: Octet)
    requires ps.contentLength == 1 && ps.state.InPayload?
    ensures ps.state == InPayload(ChunkData) ==>
              Step(Go(ps, tr, Outer, pos), ch) ==
              Go(ps.(contentLength := 0, state := InPayload(ChunkDataAlmostDone)), Emit(tr, Data(Body, [ch])), Outer, pos + 1)
    ensures ps.state == InPayload(BodyIdentity) ==>
              Step(Go(ps, tr, Outer, pos), ch) ==
              Dispatch(ps.(contentLength := 0, state := InPayload(MessageDone)), Emit(tr, Data(Body, [ch])), Outer, ch, pos)
  {
    hide Emit, Dispatch;
    StepNext(ps, tr, Outer, pos, ch);
    DispatchOnce(ps, tr, Outer, ch, pos);
  }

  // A body of which `left` bytes remain after byte `ch` at `p`.
  function BodyEnd(ps: Parser, left: nat, tr: seq<Event>, ch: Octet, p: nat): Config {
    if left > 0 then Go(ps.(contentLength := left), tr, Outer, p + 1)
    else if ps.state == InPayload(ChunkData) then
      Go(ps.(contentLength := 0, state := InPayload(ChunkDataAlmostDone)), tr, Outer, p + 1)
    else Dispatch(ps.(contentLength := 0, state := InPayload(MessageDone)), tr, Outer, ch, p)
  }

  // The bytes of a body from `p0` through `p`, the last of which may end it.
  lemma RunWholeBody(ps: Parser, tr: seq<Event>, d: seq<Octet>, p0: nat, p: nat)
    requires ps.state == InPayload(BodyIdentity) || ps.state == InPayload(ChunkData)
    requires p0 <= p < |d| && p - p0 < ps.contentLength
    ensures var left := ps.contentLength - (p + 1 - p0);
            var shown := Emit(tr, Data(Body, d[p0..p + 1]));
            Run(Go(ps, tr, Outer, p0), d[p0..p + 1]) ==
            BodyEnd(ps.(contentLength := left), left, shown, d[p], p)
  {
    hide Emit, Step, Run, Dispatch;
    var v := Go(ps, tr, Outer, p0);
    if p + 1 - p0 < ps.contentLength {
      RunBody(ps, tr, p0, d[p0..p + 1]);
    } else {
      RunSlice(v, d, p0, p);
      if p == p0 {
        RunNothing(v, d, p0);
        StepLastByte(ps, tr, p0, d[p]);
        assert d[p0..p + 1] == [d[p]];
      } else {
        RunBody(ps, tr, p0, d[p0..p]);
        StepLastByte(Taken(ps, p - p0), Emit(tr, Data(Body, d[p0..p])), p, d[p]);
        EmitTwice(tr, Body, d[p0..p], [d[p]]);
        assert d[p0..p] + [d[p]] == d[p0..p + 1];
      }
    }
  }
}
