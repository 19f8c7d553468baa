// Header lines of every meaning, as they are printed and what they say.
module HttpLines {
  import opened HttpChars
  import opened HttpTypes
  import opened HttpMachine
  import opened HttpBulk
  import opened HttpInvariant
  import opened HttpSplit
  import opened HttpNames
  import opened HttpLengths
  import opened HttpRequest
  import HttpOptions

  // A header line: a name, blanks behind its colon, a value, and a line end.
  datatype Line = Line(name: seq<Octet>, blanks: seq<Octet>, value: seq<Octet>, end: seq<Octet>)

  function LineText(l: Line): seq<Octet> {
    l.name + [':'] + l.blanks + l.value + l.end
  }

  function LinesText(ls: seq<Line>): seq<Octet> {
    if ls == [] then [] else LinesText(ls[..|ls| - 1]) + LineText(ls[|ls| - 1])
  }

  // A carriage return may be missing.
  predicate IsLineEnd(e: seq<Octet>) {
    e == CRLF || e == [LF]
  }

  predicate AllBlanks(w: seq<Octet>) {
    forall k :: 0 <= k < |w| ==> w[k] == ' ' || w[k] == TAB
  }

  predicate Called(l: Line, word: seq<Octet>) {
    Lowered(l.name) == word
  }

  predicate ForConnection(l: Line) {
    Called(l, CONNECTION) || Called(l, PROXY_CONNECTION)
  }

  predicate GivesLength(l: Line) {
    Called(l, CONTENT_LENGTH) && l.value != []
  }

  predicate ValidLine(l: Line) {
    && IsName(l.name) && AllBlanks(l.blanks) && IsLineEnd(l.end) && (l.value == [] || HttpOptions.LegalValue(l.value))
    && (GivesLength(l) ==> IsLength(l.value) && DecimalValue(l.value) <= MAX_CONTENT_LENGTH)
  }

  function LineEvents(ls: seq<Line>): seq<Event> {
    if ls == [] then []
    else LineEvents(ls[..|ls| - 1]) + [Data(Field, ls[|ls| - 1].name), Data(Value, ls[|ls| - 1].value)]
  }

  // ----- What lines say

  // Some line for the connection gets the option through.
  ghost predicate Asks(ls: seq<Line>, o: HeaderState) {
    exists i :: 0 <= i < |ls| && ForConnection(ls[i]) && HttpOptions.GetsThrough(HttpOptions.Pieces(ls[i].value), o)
  }

  ghost predicate SaysChunked(ls: seq<Line>) {
    exists i :: 0 <= i < |ls| && Called(ls[i], TRANSFER_ENCODING) && HttpOptions.IsWord(ls[i].value, HttpOptions.CHUNKED_CODING)
  }

  ghost predicate SaysUpgrade(ls: seq<Line>) {
    exists i :: 0 <= i < |ls| && Called(ls[i], UPGRADE) && ls[i].value != []
  }

  ghost predicate SaysLength(ls: seq<Line>) {
    exists i :: 0 <= i < |ls| && GivesLength(ls[i])
  }

  // The length that the last such line gives, or none
  function LengthSaid(ls: seq<Line>): nat {
    if ls == [] then ULLONG_MAX
    else if GivesLength(ls[|ls| - 1]) then DecimalValue(ls[|ls| - 1].value)
    else LengthSaid(ls[..|ls| - 1])
  }

  predicate OneLength(ls: seq<Line>) {
    forall i, j :: 0 <= i < j < |ls| ==> !(GivesLength(ls[i]) && GivesLength(ls[j]))
  }

  predicate ValidLines(ls: seq<Line>) {
    (forall i :: 0 <= i < |ls| ==> ValidLine(ls[i])) && OneLength(ls)
  }

  // The flags behind a header section
  ghost function FlagsSaid(ls: seq<Line>): Flags {
    Flags(SaysChunked(ls), Asks(ls, ConnectionKeepAlive), Asks(ls, ConnectionClose), Asks(ls, ConnectionUpgrade), false,
          SaysUpgrade(ls), false, SaysLength(ls))
  }

  // The flags behind one more line
  function FlagsAfter(flags: Flags, l: Line): Flags {
    if ForConnection(l) then HttpOptions.Heard(HttpOptions.Pieces(l.value), flags)
    else if Called(l, TRANSFER_ENCODING) then
      flags.(chunked := flags.chunked || HttpOptions.IsWord(l.value, HttpOptions.CHUNKED_CODING))
    else if Called(l, UPGRADE) then flags.(upgrade := flags.upgrade || l.value != [])
    else if GivesLength(l) then flags.(contentLength := true)
    else flags
  }

  lemma NamesDiffer()
    ensures |CONNECTION| == 10 && |PROXY_CONNECTION| == 16 && |CONTENT_LENGTH| == 14 && |TRANSFER_ENCODING| == 17 && |UPGRADE| == 7
  {
  }

  lemma AsksMore(ls: seq<Line>, o: HeaderState)
    requires ls != []
    ensures var l := ls[|ls| - 1];
            Asks(ls, o) <==>
            Asks(ls[..|ls| - 1], o) || (ForConnection(l) && HttpOptions.GetsThrough(HttpOptions.Pieces(l.value), o))
  {
    hide ForConnection, HttpOptions.GetsThrough, HttpOptions.Pieces;
    var init := ls[..|ls| - 1];
    if Asks(init, o) {
      var i :| 0 <= i < |init| && ForConnection(init[i]) && HttpOptions.GetsThrough(HttpOptions.Pieces(init[i].value), o);
      assert ls[i] == init[i];
    }
    if Asks(ls, o) {
      var i :| 0 <= i < |ls| && ForConnection(ls[i]) && HttpOptions.GetsThrough(HttpOptions.Pieces(ls[i].value), o);
      assert i < |init| ==> init[i] == ls[i];
    }
  }

  lemma SaysMore(ls: seq<Line>)
    requires ls != []
    ensures var init, l := ls[..|ls| - 1], ls[|ls| - 1];
            && (SaysChunked(ls) <==>
                SaysChunked(init) || (Called(l, TRANSFER_ENCODING) && HttpOptions.IsWord(l.value, HttpOptions.CHUNKED_CODING)))
            && (SaysUpgrade(ls) <==> SaysUpgrade(init) || (Called(l, UPGRADE) && l.value != []))
            && (SaysLength(ls) <==> SaysLength(init) || GivesLength(l))
  {
    hide Called, GivesLength, HttpOptions.IsWord, HttpOptions.CHUNKED_CODING;
    var init, l := ls[..|ls| - 1], ls[|ls| - 1];
    assert forall i :: 0 <= i < |init| ==> ls[i] == init[i];
    assert ls[|init|] == l;
  }

  // Line by line, the flags become those that the whole section says.
  lemma {:induction false} FlagsMore(ls: seq<Line>)
    requires ls != []
    ensures FlagsAfter(FlagsSaid(ls[..|ls| - 1]), ls[|ls| - 1]) == FlagsSaid(ls)
  {
    hide HttpOptions.Heard, HttpOptions.GetsThrough, HttpOptions.Pieces, HttpOptions.IsWord, Asks, SaysChunked, SaysUpgrade,
         SaysLength, HttpOptions.CHUNKED_CODING, Lowered;
    var init, l := ls[..|ls| - 1], ls[|ls| - 1];
    NamesDiffer();
    AsksMore(ls, ConnectionKeepAlive);
    AsksMore(ls, ConnectionClose);
    AsksMore(ls, ConnectionUpgrade);
    SaysMore(ls);
    HttpOptions.HeardGetsThrough(HttpOptions.Pieces(l.value), FlagsSaid(init));
  }

  lemma NothingSaid()
    ensures FlagsSaid([]) == NO_FLAGS
  {
    hide HttpOptions.GetsThrough, HttpOptions.Pieces, HttpOptions.IsWord;
  }

  // ----- A line that is over only when the next byte is no blank

  // The configuration as that byte finds it
  function Settle(d: Config): Config {
    if d.Go? && d.ps.state == InHeader(ValueLws) then
      Go(d.ps.(state := InHeader(FieldStart), flags := NoteOption(d.ps.flags, d.ps.headerState)), d.tr, d.lane, d.pos)
    else if d.Go? && d.ps.state == InHeader(ValueDiscardLws) then
      Go(d.ps.(state := InHeader(FieldStart), flags := NoteOption(d.ps.flags, d.ps.headerState)),
         Emit(d.tr, Data(Value, [])), d.lane, d.pos)
    else d
  }

  lemma SettledStep(d: Config, ch: Octet)
    requires d.Go? && d.lane.Outer? && d.ps.nread < MAX_HEADER_SIZE && ch != ' ' && ch != TAB
    ensures Step(d, ch) == Step(Settle(d), ch)
  {
    hide Emit, Dispatch, NoteOption;
    if d.ps.state == InHeader(ValueLws) || d.ps.state == InHeader(ValueDiscardLws) {
      var e := Settle(d);
      StepNext(d.ps, d.tr, d.lane, d.pos, ch);
      StepNext(e.ps, e.tr, e.lane, e.pos, ch);
      DispatchOnce(d.ps.(nread := d.ps.nread + 1), d.tr, d.lane, ch, d.pos);
    }
  }

  lemma SettledRuns(d: Config, w: seq<Octet>)
    requires d.Go? && d.lane.Outer? && d.ps.nread < MAX_HEADER_SIZE && w != [] && w[0] != ' ' && w[0] != TAB
    ensures Run(d, w) == Run(Settle(d), w)
  {
    hide Step, Run, Settle;
    SettledStep(d, w[0]);
    RunCons(d, w);
    RunCons(Settle(d), w);
  }

  // ----- Names, colons and blanks

  // A parser at the start of a header line, or of the end of the section, with
  // no line still open
  predicate AtLines(c: Config) {
    c.Go? && c.lane.Outer? && c.ps.state == InHeader(FieldStart)
  }

  function BlankConfig(c: Config, name: seq<Octet>, n: nat): Config
    requires c.Go? && name != []
  {
    Go(c.ps.(state := InHeader(ValueDiscardWs), headerState := NameState(name).0, index := NameState(name).1,
             nread := c.ps.nread + |name| + 1 + n),
       Emit(c.tr, Data(Field, name)), Outer, c.pos + |name| + 1 + n)
  }

  lemma StepBlank(c: Config, ch: Octet)
    requires c.Go? && c.lane.Outer? && c.ps.state == InHeader(ValueDiscardWs) && c.ps.nread < MAX_HEADER_SIZE
    requires ch == ' ' || ch == TAB
    ensures Step(c, ch) == Go(c.ps.(nread := c.ps.nread + 1), c.tr, Outer, c.pos + 1)
  {
    hide Emit, Dispatch;
    StepNext(c.ps, c.tr, c.lane, c.pos, ch);
    DispatchOnce(c.ps.(nread := c.ps.nread + 1), c.tr, c.lane, ch, c.pos);
  }

  lemma {:induction false} RunBlanks(c: Config, name: seq<Octet>, w: seq<Octet>)
    requires AtLines(c) && IsName(name) && AllBlanks(w) && c.ps.nread + |name| + 1 + |w| <= MAX_HEADER_SIZE
    ensures Run(c, name + [':'] + w) == BlankConfig(c, name, |w|)
  {
    hide Step, Emit, Dispatch, NameState, Run, Token;
    if w == [] {
      assert name + [':'] + w == name + [':'];
      RunFieldName(c, name);
      var r := NameConfig(c, name);
      ColonIsNoToken();
      StepFieldEnd(r.ps, r.tr, r.lane, r.pos, ':');
      RunSnoc(c, name, ':');
    } else {
      var init, ch := w[..|w| - 1], w[|w| - 1];
      assert name + [':'] + w == name + [':'] + init + [ch];
      RunBlanks(c, name, init);
      StepBlank(BlankConfig(c, name, |init|), ch);
      RunSnoc(c, name + [':'] + init, ch);
    }
  }

  // ----- Line ends

  lemma LookLineFeed(ps: Parser, tr: seq<Event>)
    ensures ps.state == InHeader(HeaderAlmostDone) ==> Look(ps, tr, false, LF) == Next(ps.(state := InHeader(ValueLws)), tr)
    ensures ps.state == InHeader(ValueDiscardWs) ==>
              && Look(ps, tr, false, LF) == Next(ps.(state := InHeader(ValueDiscardLws)), tr)
              && Look(ps, tr, false, CR) == Next(ps.(state := InHeader(ValueDiscardWsAlmostDone)), tr)
    ensures ps.state == InHeader(ValueDiscardWsAlmostDone) ==>
              Look(ps, tr, false, LF) == Next(ps.(state := InHeader(ValueDiscardLws)), tr)
  {
    hide Emit;
  }

  lemma RunEnd(d: Config, e: seq<Octet>)
    requires d.Go? && d.ps.state == InHeader(ValueText) && IsLineEnd(e) && d.ps.nread + |e| <= MAX_HEADER_SIZE
    ensures Run(d, e) == Go(d.ps.(state := InHeader(ValueLws), nread := d.ps.nread + |e|), d.tr, Outer, d.pos + |e|)
  {
    hide Step, Dispatch, Run, Look;
    if e == CRLF {
      RunValueEnd(d);
    } else {
      var ended := d.ps.(state := InHeader(HeaderAlmostDone), nread := d.ps.nread + 1);
      StepValueEnd(d.ps, d.tr, d.lane, d.pos, LF);
      DispatchOnce(ended, d.tr, Outer, LF, d.pos);
      LookLineFeed(ended, d.tr);
      RunOne(d, LF);
    }
  }

  // The line end behind nothing but blanks
  lemma RunEmptyEnd(d: Config, e: seq<Octet>)
    requires d.Go? && d.lane.Outer? && d.ps.state == InHeader(ValueDiscardWs) && IsLineEnd(e)
    requires d.ps.nread + |e| <= MAX_HEADER_SIZE
    ensures Run(d, e) == Go(d.ps.(state := InHeader(ValueDiscardLws), nread := d.ps.nread + |e|), d.tr, Outer, d.pos + |e|)
  {
    hide Step, Dispatch, Run, Look;
    var counted := d.ps.(nread := d.ps.nread + 1);
    LookLineFeed(counted, d.tr);
    if e == CRLF {
      StepNext(d.ps, d.tr, d.lane, d.pos, CR);
      DispatchOnce(counted, d.tr, Outer, CR, d.pos);
      var m := Step(d, CR);
      LookLineFeed(m.ps.(nread := m.ps.nread + 1), m.tr);
      StepNext(m.ps, m.tr, m.lane, m.pos, LF);
      DispatchOnce(m.ps.(nread := m.ps.nread + 1), m.tr, Outer, LF, m.pos);
      RunOne(d, CR);
      assert CRLF == [CR] + [LF];
      RunSnoc(d, [CR], LF);
    } else {
      StepNext(d.ps, d.tr, d.lane, d.pos, LF);
      DispatchOnce(counted, d.tr, Outer, LF, d.pos);
      RunOne(d, LF);
    }
  }

  // ----- Values

  // The value is read, and the parser holds what it says.
  predicate ValueRead(r: Config, d: Config, v: seq<Octet>, flags: Flags, length: nat)
    requires d.Go?
  {
    && r.Go? && r.tr == Emit(d.tr, Data(Value, v)) && r.pos == d.pos + |v| && NoteOption(r.ps.flags, r.ps.headerState) == flags
    && r.ps == d.ps.(state := InHeader(ValueText), headerState := r.ps.headerState, index := r.ps.index, flags := r.ps.flags,
                     contentLength := length, nread := d.ps.nread + |v|)
  }

  predicate BeforeValue(d: Config, n: nat) {
    d.Go? && d.lane.Outer? && d.ps.state == InHeader(ValueDiscardWs) && d.ps.nread + n <= MAX_HEADER_SIZE
  }

  lemma ConnectionSettles(v: seq<Octet>, flags: Flags)
    requires HttpOptions.LegalValue(v)
    ensures HttpOptions.Settled(HttpOptions.Matched(Connection, flags, v)) == HttpOptions.Heard(HttpOptions.Pieces(v), flags)
  {
    hide HttpOptions.Matched, HttpOptions.Settled, HttpOptions.Hears, HttpOptions.Heard, HttpOptions.HearingAt,
         HttpOptions.Pieces, HttpOptions.Joined, IsHeaderChar;
    HttpOptions.LegalHasNoNul(v);
    HttpOptions.PiecesJoin(v);
    HttpOptions.PiecesHaveNoComma(v);
    HttpOptions.FirstPiece(v);
    var ps := HttpOptions.Pieces(v);
    HttpOptions.ListHeard(ps, flags);
    HttpOptions.HeardIsSettled(HttpOptions.Matched(Connection, flags, v), HttpOptions.HearingAt(ps), HttpOptions.Heard(ps, flags));
  }

  lemma RunConnectionValue(d: Config, v: seq<Octet>)
    requires BeforeValue(d, |v|) && d.ps.headerState.Connection? && HttpOptions.LegalValue(v)
    ensures ValueRead(Run(d, v), d, v, HttpOptions.Heard(HttpOptions.Pieces(v), d.ps.flags), d.ps.contentLength)
  {
    hide Run, Emit, HttpOptions.Matched, HttpOptions.Heard, HttpOptions.Pieces, HttpOptions.LegalValue;
    HttpOptions.RunValue(d, v);
    ConnectionSettles(v, d.ps.flags);
  }

  lemma RunCodingValue(d: Config, v: seq<Octet>)
    requires BeforeValue(d, |v|) && d.ps.headerState.TransferEncoding? && HttpOptions.LegalValue(v)
    ensures var flags := d.ps.flags.(chunked := d.ps.flags.chunked || HttpOptions.IsWord(v, HttpOptions.CHUNKED_CODING));
            ValueRead(Run(d, v), d, v, flags, d.ps.contentLength)
  {
    hide Run, Emit, HttpOptions.Matched, HttpOptions.LegalValue, HttpOptions.IsWord;
    HttpOptions.RunValue(d, v);
    assert v != [] by { LegalIsThere(v); }
    HttpOptions.ChunkedRecogniser(v, d.ps.flags);
  }

  lemma LegalIsThere(v: seq<Octet>)
    requires HttpOptions.LegalValue(v)
    ensures v != [] && v[0] != ' ' && v[0] != TAB && v[0] != CR && v[0] != LF && NoLineEnd(v) && PlainValue(v)
    ensures forall k :: 0 <= k < |v| ==> IsHeaderChar(v[k])
  {
    hide IsHeaderChar;
  }

  lemma RunOtherValue(d: Config, v: seq<Octet>)
    requires BeforeValue(d, |v|) && HttpOptions.LegalValue(v) && NameMatcherOk(d.ps.headerState, d.ps.index)
    requires !d.ps.headerState.Upgrade? && !d.ps.headerState.ContentLength? && !d.ps.headerState.Connection? &&
             !d.ps.headerState.TransferEncoding?
    ensures ValueRead(Run(d, v), d, v, d.ps.flags, d.ps.contentLength)
  {
    hide Run, Emit, HttpOptions.LegalValue, NameMatcherOk, PlainValue;
    LegalIsThere(v);
    RunPlainValue(d, v);
  }

  lemma RunLengthValue(d: Config, v: seq<Octet>)
    requires BeforeValue(d, |v|) && HttpOptions.LegalValue(v) && d.ps.headerState.ContentLength? && !d.ps.flags.contentLength
    requires IsLength(v) && DecimalValue(v) <= MAX_CONTENT_LENGTH
    ensures ValueRead(Run(d, v), d, v, d.ps.flags.(contentLength := true), DecimalValue(v))
  {
    hide Run, Emit, HttpOptions.LegalValue, PlainValue, DecimalValue, IsHeaderChar, IsLength;
    LegalIsThere(v);
    ContentLengthExact(d, v);
  }

  lemma StepUpgradeValue(d: Config, ch: Octet)
    requires BeforeValue(d, 1) && d.ps.headerState.Upgrade? && ch != ' ' && ch != TAB && ch != CR && ch != LF
    ensures Step(d, ch) ==
            Go(d.ps.(state := InHeader(ValueText), headerState := General, index := 0, flags := d.ps.flags.(upgrade := true),
                     nread := d.ps.nread + 1),
               Emit(d.tr, Data(Value, [ch])), Outer, d.pos + 1)
  {
    hide Emit, Dispatch, Lower;
    StepNext(d.ps, d.tr, d.lane, d.pos, ch);
    DispatchOnce(d.ps.(nread := d.ps.nread + 1), d.tr, d.lane, ch, d.pos);
  }

  lemma RunUpgradeValue(d: Config, v: seq<Octet>)
    requires BeforeValue(d, |v|) && d.ps.headerState.Upgrade? && HttpOptions.LegalValue(v)
    ensures ValueRead(Run(d, v), d, v, d.ps.flags.(upgrade := true), d.ps.contentLength)
  {
    hide Run, Step, Emit, HttpOptions.LegalValue, PlainValue, IsHeaderChar;
    LegalIsThere(v);
    StepUpgradeValue(d, v[0]);
    var m, rest := Step(d, v[0]), v[1..];
    RunCons(d, v);
    if rest == [] {
      RunNothing(m, v, |v|);
      assert rest == v[|v|..|v|] && v == [v[0]];
    } else {
      assert forall k :: 0 <= k < |rest| ==> rest[k] == v[k + 1];
      RunSkip(m.ps, m.tr, Outer, m.pos, rest);
      EmitTwice(d.tr, Value, [v[0]], rest);
      assert [v[0]] + rest == v;
    }
  }

  // A value behind the name of its line
  lemma RunValueOf(d: Config, l: Line)
    requires BeforeValue(d, |l.value|) && ValidLine(l) && l.value != []
    requires d.ps.headerState == NameState(l.name).0 && d.ps.index == NameState(l.name).1
    requires GivesLength(l) ==> !d.ps.flags.contentLength
    ensures ValueRead(Run(d, l.value), d, l.value, FlagsAfter(d.ps.flags, l),
                      if GivesLength(l) then DecimalValue(l.value) else d.ps.contentLength)
  {
    hide Run, HttpOptions.LegalValue, ValueRead, NameState, NameMatcherOk, HttpOptions.Heard, HttpOptions.Pieces,
         HttpOptions.IsWord, IsLength, DecimalValue, Lowered;
    NamesDiffer();
    NameRecogniser(l.name);
    NameStateOk(l.name);
    if ForConnection(l) {
      RunConnectionValue(d, l.value);
    } else if Called(l, TRANSFER_ENCODING) {
      RunCodingValue(d, l.value);
    } else if Called(l, UPGRADE) {
      RunUpgradeValue(d, l.value);
      assert d.ps.flags.(upgrade := true) == FlagsAfter(d.ps.flags, l);
    } else if Called(l, CONTENT_LENGTH) {
      RunLengthValue(d, l.value);
    } else {
      RunOtherValue(d, l.value);
    }
  }

  // ----- Whole lines

  // A configuration at the start of a line, but for what the header matcher is up to
  predicate Open(d: Config, ps: Parser, tr: seq<Event>, n: nat, pos: nat) {
    && AtLines(d) && d.tr == tr && d.pos == pos && !EndsWithData(tr, Field)
    && d.ps == ps.(nread := n, state := InHeader(FieldStart), headerState := d.ps.headerState, index := d.ps.index)
  }

  // The fields that a line sets
  function Said(ps: Parser, l: Line): Parser {
    ps.(flags := FlagsAfter(ps.flags, l), contentLength := if GivesLength(l) then DecimalValue(l.value) else ps.contentLength)
  }

  lemma {:induction false} NothingHeard(flags: Flags)
    ensures HttpOptions.Heard(HttpOptions.Pieces([]), flags) == flags && !HttpOptions.IsWord([], HttpOptions.CHUNKED_CODING)
  {
    var ps := HttpOptions.Pieces([]);
    assert ps == [[]];
    HttpOptions.OneHeard(ps, flags);
    HttpOptions.NothingIsTaken();
  }

  lemma RunEmptyLine(c: Config, l: Line)
    requires AtLines(c) && ValidLine(l) && l.value == [] && c.ps.nread + |LineText(l)| <= MAX_HEADER_SIZE
    requires !EndsWithData(c.tr, Field)
    ensures var n, d := |LineText(l)|, Run(c, LineText(l));
            && d.Go? && d.lane.Outer?
            && Open(Settle(d), Said(c.ps, l), c.tr + [Data(Field, l.name), Data(Value, l.value)], c.ps.nread + n, c.pos + n)
  {
    hide Step, Run, Emit, NameState, EndsWithData, HttpOptions.Heard, HttpOptions.Pieces, HttpOptions.IsWord, DecimalValue,
         NoteOption, HttpOptions.LegalValue, IsName, Called;
    RunBlanks(c, l.name, l.blanks);
    NameIsSome(l.name);
    var b := BlankConfig(c, l.name, |l.blanks|);
    RunEmptyEnd(b, l.end);
    RunConcat(c, l.name + [':'] + l.blanks, l.end);
    assert LineText(l) == l.name + [':'] + l.blanks + l.end;
    HeaderShown(c.tr, l.name, l.value);
    NothingHeard(c.ps.flags);
    NamesNoOption(l.name, c.ps.flags);
  }

  lemma NameIsSome(name: seq<Octet>)
    requires IsName(name)
    ensures name != []
  {
  }

  // The state behind a name notes no option.
  lemma NamesNoOption(name: seq<Octet>, flags: Flags)
    requires IsName(name)
    ensures NoteOption(flags, NameState(name).0) == flags
  {
    hide NameState, Lowered;
    NameStateOk(name);
  }

  lemma RunFullLine(c: Config, l: Line)
    requires AtLines(c) && ValidLine(l) && l.value != [] && c.ps.nread + |LineText(l)| <= MAX_HEADER_SIZE
    requires !EndsWithData(c.tr, Field) && (GivesLength(l) ==> !c.ps.flags.contentLength)
    ensures var n, d := |LineText(l)|, Run(c, LineText(l));
            && d.Go? && d.lane.Outer?
            && Open(Settle(d), Said(c.ps, l), c.tr + [Data(Field, l.name), Data(Value, l.value)], c.ps.nread + n, c.pos + n)
  {
    hide Step, Run, Emit, NameState, EndsWithData, FlagsAfter, GivesLength, DecimalValue, NoteOption, HttpOptions.LegalValue, IsName,
         IsLength;
    RunBlanks(c, l.name, l.blanks);
    NameIsSome(l.name);
    var before := l.name + [':'] + l.blanks;
    var b := BlankConfig(c, l.name, |l.blanks|);
    RunValueOf(b, l);
    RunConcat(c, before, l.value);
    RunEnd(Run(b, l.value), l.end);
    RunConcat(c, before + l.value, l.end);
    HeaderShown(c.tr, l.name, l.value);
  }

  lemma RunLine(c: Config, l: Line)
    requires AtLines(c) && ValidLine(l) && c.ps.nread + |LineText(l)| <= MAX_HEADER_SIZE
    requires !EndsWithData(c.tr, Field) && (GivesLength(l) ==> !c.ps.flags.contentLength)
    ensures var n, d := |LineText(l)|, Run(c, LineText(l));
            && d.Go? && d.lane.Outer?
            && Open(Settle(d), Said(c.ps, l), c.tr + [Data(Field, l.name), Data(Value, l.value)], c.ps.nread + n, c.pos + n)
  {
    hide Run, Open, ValidLine, LineText, Said, GivesLength;
    if l.value == [] {
      RunEmptyLine(c, l);
    } else {
      RunFullLine(c, l);
    }
  }

  lemma LineBegins(l: Line)
    requires ValidLine(l)
    ensures LineText(l) != [] && LineText(l)[0] != ' ' && LineText(l)[0] != TAB && LineText(l)[0] == l.name[0]
  {
    SpaceIsNoToken(l.name[0]);
  }

  // The fields that a header section sets
  ghost function AllSaid(ps: Parser, ls: seq<Line>): Parser {
    ps.(flags := FlagsSaid(ls), contentLength := LengthSaid(ls))
  }

  lemma LengthMore(ls: seq<Line>)
    requires ValidLines(ls) && ls != []
    ensures var init, l := ls[..|ls| - 1], ls[|ls| - 1];
            && ValidLines(init) && ValidLine(l) && (GivesLength(l) ==> !SaysLength(init))
            && LengthSaid(ls) == (if GivesLength(l) then DecimalValue(l.value) else LengthSaid(init))
            && |LinesText(ls)| == |LinesText(init)| + |LineText(l)|
  {
    hide GivesLength, ValidLine, LineText, DecimalValue;
    var init := ls[..|ls| - 1];
    assert forall i :: 0 <= i < |init| ==> init[i] == ls[i];
  }

  // Header lines: whatever they mean, in order, each is reported with its name
  // and its value, and the flags and the length are those that they say.
  lemma {:induction false} RunLines(c: Config, ls: seq<Line>)
    requires AtLines(c) && ValidLines(ls) && c.ps.nread + |LinesText(ls)| <= MAX_HEADER_SIZE
    requires !EndsWithData(c.tr, Field) && c.ps.flags == NO_FLAGS && c.ps.contentLength == ULLONG_MAX
    ensures var n, d := |LinesText(ls)|, Run(c, LinesText(ls));
            && d.Go? && d.lane.Outer?
            && Open(Settle(d), AllSaid(c.ps, ls), c.tr + LineEvents(ls), c.ps.nread + n, c.pos + n)
  {
    hide Step, Run, LineText, EndsWithData, FlagsSaid, FlagsAfter, GivesLength, DecimalValue, ValidLine, ValidLines, SaysLength;
    if ls == [] {
      var nothing: seq<Octet> := [];
      RunNothing(c, nothing, 0);
      assert nothing[0..0] == LinesText(ls);
      assert c.tr + LineEvents(ls) == c.tr;
      NothingSaid();
    } else {
      var init, l := ls[..|ls| - 1], ls[|ls| - 1];
      LengthMore(ls);
      RunLines(c, init);
      var d := Run(c, LinesText(init));
      FlagsMore(ls);
      assert FlagsSaid(init).contentLength == SaysLength(init) by { LengthFlag(init); }
      LineBegins(l);
      RunLine(Settle(d), l);
      SettledRuns(d, LineText(l));
      RunConcat(c, LinesText(init), LineText(l));
      assert c.tr + LineEvents(init) + [Data(Field, l.name), Data(Value, l.value)] == c.tr + LineEvents(ls);
    }
  }

  lemma LengthFlag(ls: seq<Line>)
    ensures FlagsSaid(ls).contentLength == SaysLength(ls)
  {
    hide Asks, SaysChunked, SaysUpgrade, SaysLength;
  }

  // ----- Folded lines

  // A header value may go on in the next line, if that begins with a blank.
  predicate MayFold(w: seq<Octet>) {
    w != [] && (w[0] == ' ' || w[0] == TAB) && NoLineEnd(w) && forall k :: 0 <= k < |w| ==> IsHeaderChar(w[k])
  }

  // Behind the line end of a value that is matched no further
  predicate Foldable(d: Config, n: nat) {
    && d.Go? && d.lane.Outer? && d.ps.state == InHeader(ValueLws) && d.ps.nread + n <= MAX_HEADER_SIZE
    && !d.ps.headerState.Upgrade? && !d.ps.headerState.Connection? && !d.ps.headerState.TransferEncoding?
  }

  lemma BlankStartsNothing(hs: HeaderState, ch: Octet)
    requires ch == ' ' || ch == TAB
    requires !hs.Connection? && !hs.TransferEncoding? && !hs.TokenStart?
    ensures ValueInitial(hs, Lower(ch)) == General && !IsNum(ch)
  {
  }

  lemma LookFold(ps: Parser, tr: seq<Event>, ch: Octet)
    requires ps.state == InHeader(ValueLws) && (ch == ' ' || ch == TAB)
    ensures Look(ps, tr, false, ch) == Again(ps.(state := InHeader(ValueStart)), tr)
  {
    hide Emit;
  }

  lemma LookFolded(ps: Parser, tr: seq<Event>, ch: Octet)
    requires ps.state == InHeader(ValueStart) && (ch == ' ' || ch == TAB) && !ps.headerState.Upgrade?
    ensures Look(ps, tr, false, ch) ==
            if ps.headerState.ContentLength? then Err(InvalidContentLength)
            else
              Next(ps.(state := InHeader(ValueText), index := 0, headerState := ValueInitial(ps.headerState, Lower(ch))),
                   Emit(tr, Data(Value, [ch])))
  {
    hide Emit, ValueInitial, Lower;
  }

  lemma StepFold(d: Config, ch: Octet)
    requires Foldable(d, 1) && (ch == ' ' || ch == TAB) && !d.ps.headerState.TokenStart?
    ensures Step(d, ch) ==
            if d.ps.headerState.ContentLength? then Bad(InvalidContentLength, d.pos)
            else
              Go(d.ps.(state := InHeader(ValueText), index := 0, headerState := General, nread := d.ps.nread + 1),
                 Emit(d.tr, Data(Value, [ch])), Outer, d.pos + 1)
  {
    hide Emit, Dispatch, Look;
    var counted := d.ps.(nread := d.ps.nread + 1);
    BlankStartsNothing(d.ps.headerState, ch);
    StepNext(d.ps, d.tr, d.lane, d.pos, ch);
    DispatchOnce(counted, d.tr, Outer, ch, d.pos);
    LookFold(counted, d.tr, ch);
    DispatchOnce(counted.(state := InHeader(ValueStart)), d.tr, Outer, ch, d.pos);
    LookFolded(counted.(state := InHeader(ValueStart)), d.tr, ch);
  }

  lemma RunFoldText(d: Config, w: seq<Octet>)
    requires Foldable(d, |w|) && MayFold(w) && !d.ps.headerState.ContentLength? && !d.ps.headerState.TokenStart?
    ensures var r := Run(d, w);
            && r.Go? && r.tr == Emit(d.tr, Data(Value, w)) && r.pos == d.pos + |w|
            && r.ps == d.ps.(state := InHeader(ValueText), headerState := General, index := 0, nread := d.ps.nread + |w|)
  {
    hide Run, Step, Emit, IsHeaderChar;
    StepFold(d, w[0]);
    var m, rest := Step(d, w[0]), w[1..];
    RunCons(d, w);
    if rest == [] {
      RunNothing(m, w, |w|);
      assert rest == w[|w|..|w|] && w == [w[0]];
    } else {
      assert forall k :: 0 <= k < |rest| ==> rest[k] == w[k + 1];
      RunSkip(m.ps, m.tr, Outer, m.pos, rest);
      EmitTwice(d.tr, Value, [w[0]], rest);
      assert [w[0]] + rest == w;
    }
  }

  // The folded line is shown as more of the value, its first blank included;
  // an option that the line before it had matched up to its end is forgotten.
  lemma RunFold(d: Config, w: seq<Octet>, e: seq<Octet>)
    requires Foldable(d, |w| + |e|) && MayFold(w) && IsLineEnd(e)
    requires !d.ps.headerState.ContentLength? && !d.ps.headerState.TokenStart?
    ensures var r, n := Run(d, w + e), |w| + |e|;
            && r == Go(d.ps.(headerState := General, index := 0, nread := d.ps.nread + n), Emit(d.tr, Data(Value, w)), Outer,
                       d.pos + n)
            && Settle(r).ps.flags == d.ps.flags
  {
    hide Run, Emit, MayFold;
    RunFoldText(d, w);
    RunEnd(Run(d, w), e);
    RunConcat(d, w, e);
  }

  // A Content-Length must not be folded.
  lemma FoldedLengthIsRefused(d: Config, w: seq<Octet>)
    requires Foldable(d, 1) && MayFold(w) && d.ps.headerState.ContentLength?
    ensures Run(d, w) == Bad(InvalidContentLength, d.pos)
  {
    hide Run, Step, IsHeaderChar;
    StepFold(d, w[0]);
    RunCons(d, w);
    RunOfStopped(Step(d, w[0]), w[1..]);
  }
}
