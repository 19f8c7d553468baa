// Any number of buffers: what is lost when a stretch of bytes comes in pieces.
module HttpManyCalls {
  import opened HttpChars
  import opened HttpTypes
  import opened HttpMachine
  import opened HttpBulk
  import opened HttpInvariant
  import opened HttpSplit
  import opened HttpGrammar
  import opened HttpChunked
  import opened HttpBudget

  // ----- Illegal bytes of values leave a trace

  predicate BadValue(e: Event) {
    e.Data? && e.kind.Value? && exists k :: 0 <= k < |e.bytes| && !IsHeaderChar(e.bytes[k])
  }

  // No header value that was shown holds an illegal byte.
  predicate CleanValues(tr: seq<Event>) {
    forall i :: 0 <= i < |tr| ==> !BadValue(tr[i])
  }

  lemma EmitShowsBad(tr: seq<Event>, e: Event)
    requires CleanValues(Emit(tr, e))
    ensures CleanValues(tr) && !BadValue(e)
  {
    var next := Emit(tr, e);
    forall i | 0 <= i < |tr| ensures !BadValue(tr[i]) {
      if i < |next| - 1 {
        assert next[i] == tr[i];
      } else {
        assert next[i].bytes[..|tr[i].bytes|] == tr[i].bytes;
      }
    }
    var last := next[|next| - 1];
    assert !BadValue(last);
    forall k | e.Data? && 0 <= k < |e.bytes| ensures last.bytes[|last.bytes| - |e.bytes| + k] == e.bytes[k] {
    }
  }

  lemma EmitsShowBad(tr: seq<Event>)
    ensures forall e :: CleanValues(Emit(tr, e)) ==> CleanValues(tr)
  {
    forall e | CleanValues(Emit(tr, e)) ensures CleanValues(tr) {
      EmitShowsBad(tr, e);
    }
  }

  predicate StaysClean(tr: seq<Event>, act: Act) {
    !act.Err? && CleanValues(act.tr) ==> CleanValues(tr)
  }

  lemma HeaderStepShowsBad(ps: Parser, tr: seq<Event>, unchecked: bool, ch: Octet)
    requires ps.state.InHeader?
    ensures StaysClean(tr, HeaderStep(ps, tr, unchecked, ch))
  {
    hide Emit, CleanValues, FieldMatch, ValueMatch, Token, IsNum, NoteOption, ValueInitial, FieldInitial, ShouldKeepAlive,
         FramingOf, Lower, IsHeaderChar;
    EmitsShowBad(tr);
  }

  lemma LookShowsBad(ps: Parser, tr: seq<Event>, unchecked: bool, ch: Octet)
    ensures StaysClean(tr, Look(ps, tr, unchecked, ch))
  {
    hide Emit, CleanValues, MethodSwitch, MethodGuess, MethodName, UrlChar, FirstUrlChar, Unhex, IsNum, ShouldKeepAlive,
         CharAt, HeaderStep;
    EmitsShowBad(tr);
    if ps.state.InHeader? {
      HeaderStepShowsBad(ps, tr, unchecked, ch);
    }
  }

  lemma {:induction false} DispatchShowsBad(ps: Parser, tr: seq<Event>, lane: Lane, ch: Octet, pos: nat)
    requires !Dispatch(ps, tr, lane, ch, pos).Bad? && CleanValues(Dispatch(ps, tr, lane, ch, pos).tr)
    ensures CleanValues(tr)
    decreases Looks(ps.state)
  {
    hide Look, Looks, CleanValues, Dispatch;
    DispatchOnce(ps, tr, lane, ch, pos);
    LookShowsBad(ps, tr, lane.Skipping?, ch);
    var act := Look(ps, tr, lane.Skipping?, ch);
    if act.Again? {
      LookingAgainTerminates(ps, tr, lane.Skipping?, ch);
      DispatchShowsBad(act.ps, act.tr, Outer, ch, pos);
    }
  }

  lemma BadByte(ch: Octet)
    requires !IsHeaderChar(ch)
    ensures BadValue(Data(Value, [ch]))
  {
    assert [ch][0] == ch;
  }

  lemma StepShowsBad(c: Config, ch: Octet)
    requires ConfigOk(c) && c.Go? && !Step(c, ch).Bad? && CleanValues(Step(c, ch).tr)
    ensures CleanValues(c.tr) && CleanSplit(c, ch)
  {
    hide Dispatch, CleanValues, StateOk, IsHeaderChar, Emit;
    DispatchShowsBad(if ParsingHeader(c.ps.state) then c.ps.(nread := c.ps.nread + 1) else c.ps, c.tr, c.lane, ch, c.pos);
    if !CleanSplit(c, ch) {
      LineEndsAreHeaderChars();
      StepSkip(c.ps, c.tr, c.lane, c.pos, ch);
      BadByte(ch);
      EmitShowsBad(c.tr, Data(Value, [ch]));
    }
  }

  // A run that shows only legal values can be cut anywhere.
  lemma {:induction false} CleanRunSplits(c: Config, d: seq<Octet>, k: nat)
    requires ConfigOk(c) && !Run(c, d).Bad? && CleanValues(Run(c, d).tr)
    requires k < |d| && Run(c, d[..k]).Go?
    ensures CleanSplit(Run(c, d[..k]), d[k])
    decreases |d|
  {
    hide Step, CleanValues, ConfigOk, CleanSplit;
    var init := d[..|d| - 1];
    RunKeepsInvariant(c, init);
    var r := Run(c, init);
    if r.Go? {
      StepShowsBad(r, d[|d| - 1]);
    } else {
      StopsAt(r, d[|d| - 1]);
    }
    if k < |d| - 1 {
      assert d[..k] == init[..k];
      CleanRunSplits(c, init, k);
    }
  }

  // ----- Counting more does not matter below the limit

  // The same configuration, but for a count that may be up to `x` higher.
  predicate Close(c: Config, c': Config, x: nat) {
    match c
    case Go(ps, tr, lane, pos) =>
      c'.Go? && ps.nread <= c'.ps.nread <= ps.nread + x && c' == Go(ps.(nread := c'.ps.nread), tr, lane, pos)
    case Left(ps, tr, pos) =>
      c'.Left? && ps.nread <= c'.ps.nread <= ps.nread + x && c' == Left(ps.(nread := c'.ps.nread), tr, pos)
    case Bad(_, _) => false
  }

  function Recounted(c: Config, n: nat): Config {
    if c.Bad? then c else c.(ps := c.ps.(nread := n))
  }

  lemma {:induction false} DispatchIgnoresCount(ps: Parser, n: nat, tr: seq<Event>, lane: Lane, ch: Octet, pos: nat)
    ensures Dispatch(ps.(nread := n), tr, lane, ch, pos) ==
            Recounted(Dispatch(ps, tr, lane, ch, pos), if ByteResets(ps, tr, lane.Skipping?, ch) then 0 else n)
    decreases Looks(ps.state)
  {
    hide Look, Looks, Dispatch, Resets;
    DispatchOnce(ps, tr, lane, ch, pos);
    DispatchOnce(ps.(nread := n), tr, lane, ch, pos);
    var act := Look(ps, tr, lane.Skipping?, ch);
    if Resets(ps.state) {
      ResetIgnoresCount(ps, n, tr, lane.Skipping?, ch);
    } else {
      LookIgnoresCount(ps, n, tr, lane.Skipping?, ch);
      if act.Again? {
        LookingAgainTerminates(ps, tr, lane.Skipping?, ch);
        DispatchIgnoresCount(act.ps, n, act.tr, Outer, ch, pos);
      }
    }
  }

  lemma StepStaysClose(c: Config, c': Config, ch: Octet, x: nat)
    requires Close(c, c', x) && c.Go? && !Step(c, ch).Bad? && c.ps.nread + x < MAX_HEADER_SIZE
    ensures Close(Step(c, ch), Step(c', ch), x)
  {
    hide Dispatch, ByteResets;
    var one := if ParsingHeader(c.ps.state) then 1 else 0;
    var counted := c.ps.(nread := c.ps.nread + one);
    assert c.ps.(nread := c.ps.nread) == c.ps && c'.ps.(nread := c'.ps.nread) == c'.ps;
    assert counted.(nread := c'.ps.nread + one) == c'.ps.(nread := c'.ps.nread + one);
    DispatchIgnoresCount(counted, c'.ps.nread + one, c.tr, c.lane, ch, c.pos);
    DispatchTally(counted, c.tr, c.lane, ch, c.pos);
  }

  // At every point of `d` the parser runs, with room for `x` more bytes.
  predicate Room(c: Config, d: seq<Octet>, x: nat) {
    forall k :: 0 <= k < |d| ==> Run(c, d[..k]).Go? && Run(c, d[..k]).ps.nread + x < MAX_HEADER_SIZE
  }

  lemma RoomSplits(c: Config, a: seq<Octet>, b: seq<Octet>, x: nat, y: nat)
    requires Room(c, a + b, x) && y <= x
    ensures Room(c, a, y) && Room(Run(c, a), b, x)
  {
    hide Run;
    forall k | 0 <= k < |a| ensures Run(c, a[..k]).Go? && Run(c, a[..k]).ps.nread + y < MAX_HEADER_SIZE {
      assert a[..k] == (a + b)[..k];
    }
    forall k | 0 <= k < |b|
      ensures Run(Run(c, a), b[..k]).Go? && Run(Run(c, a), b[..k]).ps.nread + x < MAX_HEADER_SIZE
    {
      RunConcat(c, a, b[..k]);
      assert a + b[..k] == (a + b)[..|a| + k];
    }
  }

  lemma {:induction false} RunStaysClose(c: Config, c': Config, d: seq<Octet>, x: nat)
    requires Close(c, c', x) && Room(c, d, x) && !Run(c, d).Bad?
    ensures Close(Run(c, d), Run(c', d), x)
  {
    hide Step, Close;
    if d != [] {
      var init, ch := d[..|d| - 1], d[|d| - 1];
      assert d == init + [ch];
      RoomSplits(c, init, [ch], x, x);
      var r := Run(c, init);
      assert d[..|init|] == init;
      RunStaysClose(c, c', init, x);
      StepStaysClose(r, Run(c', init), ch, x);
    }
  }

  // ----- Many buffers

  // What one run and a sequence of calls agree on
  predicate SameMessages(c: Config, c': Config, x: nat) {
    match c
    case Go(ps, tr, _, _) => c'.Go? && SameFields(ps, c'.ps, x) && c'.tr == tr
    case Left(ps, tr, _) => c'.Left? && SameFields(ps, c'.ps, x) && c'.tr == tr
    case Bad(_, _) => false
  }

  predicate SameFields(ps: Parser, ps': Parser, x: nat) {
    ps.nread <= ps'.nread <= ps.nread + x && ps' == ps.(nread := ps'.nread)
  }

  // A call begins in the switch, wherever the call before it ended.
  lemma FreshLane(m: Config, d: seq<Octet>)
    requires m.Go? && d != [] && CleanSplit(m, d[0])
    ensures Run(m, d) == Moved(Run(Begin(m.ps, m.tr), d), m.pos)
  {
    hide Step, Run, CleanSplit;
    var c, first := Begin(m.ps, m.tr), m.(lane := Outer);
    StepIgnoresLane(m, d[0]);
    RunCons(m, d);
    RunCons(first, d);
    assert first == Moved(c, m.pos);
    RunMoves(c, d, m.pos);
  }

  lemma FreshRoom(m: Config, d: seq<Octet>, x: nat)
    requires m.Go? && d != [] && CleanSplit(m, d[0]) && Room(m, d, x)
    ensures Room(Begin(m.ps, m.tr), d, x)
  {
    hide Run, CleanSplit;
    var c := Begin(m.ps, m.tr);
    forall k | 0 <= k < |d| ensures Run(c, d[..k]).Go? && Run(c, d[..k]).ps.nread + x < MAX_HEADER_SIZE {
      assert Run(m, d[..k]).Go? && Run(m, d[..k]).ps.nread + x < MAX_HEADER_SIZE;
      if k == 0 {
        assert d[..0] == d[0..0];
        RunNothing(c, d, 0);
        RunNothing(m, d, 0);
      } else {
        FreshLane(m, d[..k]);
      }
    }
  }

  // One more call, from where a run got to
  lemma CallStaysClose(m: Config, ps: Parser, d: seq<Octet>, x: nat)
    requires m.Go? && SameFields(m.ps, ps, x) && d != [] && Room(m, d, x) && !Run(m, d).Bad? && CleanSplit(m, d[0])
    requires Run(m, d).ps.nread + x < MAX_HEADER_SIZE
    ensures SameMessages(Run(m, d), Call(ps, m.tr, d), x + 1)
  {
    hide Step, Run, CleanSplit, Room;
    FreshLane(m, d);
    FreshRoom(m, d, x);
    RunStaysClose(Begin(m.ps, m.tr), Begin(ps, m.tr), d, x);
  }

  // Wherever `d` is cut, the byte behind the cut is one that a fresh call takes.
  predicate CleanThroughout(c: Config, d: seq<Octet>) {
    forall k :: 0 <= k < |d| ==> Run(c, d[..k]).Go? ==> CleanSplit(Run(c, d[..k]), d[k])
  }

  // Buffers without number: with no illegal byte skipped over and room in the
  // header budget for one byte per buffer, calls on the pieces end as one run
  // over the whole does, with the same fields but for the count and the same
  // joined callbacks.
  lemma {:induction false} ManyCalls(ps: Parser, tr: seq<Event>, ds: seq<seq<Octet>>, x: nat)
    requires |ds| <= x && forall i :: 0 <= i < |ds| ==> ds[i] != []
    requires var w, c := Concat(ds), Begin(ps, tr);
             Room(c, w, x) && CleanThroughout(c, w) && !Run(c, w).Bad? && Run(c, w).ps.nread + x < MAX_HEADER_SIZE
    ensures SameMessages(Run(Begin(ps, tr), Concat(ds)), Feed(ps, tr, ds), |ds|)
  {
    hide Run, CleanSplit, SameFields, Call;
    var c := Begin(ps, tr);
    if ds == [] {
      RunNothing(c, [], 0);
      var nothing: seq<Octet> := [];
      assert nothing[0..0] == Concat(ds);
      FieldsAreSame(ps);
    } else {
      var init, last, w := ds[..|ds| - 1], ds[|ds| - 1], Concat(ds);
      var before := Concat(init);
      assert w[..|before|] == before && w[|before|] == last[0];
      forall k | 0 <= k < |before| && Run(c, before[..k]).Go? ensures CleanSplit(Run(c, before[..k]), before[k]) {
        assert before[..k] == w[..k];
      }
      RoomSplits(c, before, last, x, x);
      RunConcat(c, before, last);
      ManyCalls(ps, tr, init, x);
      var m, f := Run(c, before), Feed(ps, tr, init);
      LessRoom(m, last, x, |init|);
      assert SameFields(m.ps, f.ps, |init|);
      CallStaysClose(m, f.ps, last, |init|);
    }
  }

  lemma FieldsAreSame(ps: Parser)
    ensures SameFields(ps, ps, 0)
  {
    assert ps.(nread := ps.nread) == ps;
  }

  lemma LessRoom(c: Config, d: seq<Octet>, x: nat, y: nat)
    requires Room(c, d, x) && y <= x
    ensures Room(c, d, y)
  {
    hide Run;
  }

  // The cuts are harmless when the callbacks show no illegal byte in a value.
  lemma CleanCalls(ps: Parser, tr: seq<Event>, ds: seq<seq<Octet>>)
    requires Resting(ps) && forall i :: 0 <= i < |ds| ==> ds[i] != []
    requires var w, c := Concat(ds), Begin(ps, tr);
             && Room(c, w, |ds|) && !Run(c, w).Bad? && Run(c, w).ps.nread + |ds| < MAX_HEADER_SIZE
             && CleanValues(Run(c, w).tr)
    ensures SameMessages(Run(Begin(ps, tr), Concat(ds)), Feed(ps, tr, ds), |ds|)
  {
    hide Run, CleanSplit, SameMessages, CleanValues, Feed, Resting, Room;
    var w, c := Concat(ds), Begin(ps, tr);
    forall k | 0 <= k < |w| && Run(c, w[..k]).Go? ensures CleanSplit(Run(c, w[..k]), w[k]) {
      CleanRunSplits(c, w, k);
    }
    ManyCalls(ps, tr, ds, |ds|);
  }
}
