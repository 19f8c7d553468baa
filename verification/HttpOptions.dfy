// The header-value recogniser: which options a Connection header names, and
// when a Transfer-Encoding header means the chunked coding.
module HttpOptions {
  import opened HttpChars
  import opened HttpTypes
  import opened HttpMachine
  import opened HttpBulk
  import opened HttpInvariant
  import opened HttpNames
  import HttpRequest

  // ----- The matcher on its own

  datatype Matcher = Matcher(hs: HeaderState, index: nat, flags: Flags)

  function Next(m: Matcher, ch: Octet): Matcher {
    var (hs, index) := ValueMatch(m.hs, m.index, Lower(ch), ch);
    Matcher(hs, index, if hs.TokenStart? then NoteOption(m.flags, m.hs) else m.flags)
  }

  function MatchAll(m: Matcher, v: seq<Octet>): Matcher {
    if v == [] then m else Next(MatchAll(m, v[..|v| - 1]), v[|v| - 1])
  }

  lemma {:induction false} MatchTwo(m: Matcher, v: seq<Octet>, w: seq<Octet>)
    ensures MatchAll(m, v + w) == MatchAll(MatchAll(m, v), w)
  {
    hide Next;
    if w == [] {
      assert v + w == v;
    } else {
      assert (v + w)[..|v + w| - 1] == v + w[..|w| - 1];
      MatchTwo(m, v, w[..|w| - 1]);
    }
  }

  // The matcher after a whole value
  function Matched(hs: HeaderState, flags: Flags, v: seq<Octet>): Matcher
    requires v != []
  {
    MatchAll(Matcher(ValueInitial(hs, Lower(v[0])), 0, flags), v[1..])
  }

  // The flags once the header line is over
  function Settled(m: Matcher): Flags {
    NoteOption(m.flags, m.hs)
  }

  predicate LegalValue(v: seq<Octet>) {
    v != [] && v[0] != ' ' && v[0] != TAB && NoLineEnd(v) && forall k :: 0 <= k < |v| ==> IsHeaderChar(v[k])
  }

  // What the value of a header line does to the parser's fields
  predicate Took(c: Config, d: Config, m: Matcher, v: seq<Octet>)
    requires c.Go?
  {
    && d.Go? && d.tr == Emit(c.tr, Data(Value, v)) && d.pos == c.pos + |v|
    && d.ps == c.ps.(state := InHeader(ValueText), headerState := m.hs, index := m.index, flags := m.flags,
                     nread := c.ps.nread + |v|)
  }

  predicate AtValue(c: Config) {
    && c.Go? && c.lane.Outer? && c.ps.state == InHeader(ValueDiscardWs)
    && (c.ps.headerState.Connection? || c.ps.headerState.TransferEncoding?)
  }

  lemma StepFirst(c: Config, ch: Octet)
    requires AtValue(c) && c.ps.nread < MAX_HEADER_SIZE && ch != ' ' && ch != TAB && ch != CR && ch != LF
    ensures Took(c, Step(c, ch), Matched(c.ps.headerState, c.ps.flags, [ch]), [ch])
  {
    hide Emit, Dispatch, Lower, ValueInitial, ValueMatch;
    StepNext(c.ps, c.tr, c.lane, c.pos, ch);
    DispatchOnce(c.ps.(nread := c.ps.nread + 1), c.tr, c.lane, ch, c.pos);
  }

  lemma StepMore(ps: Parser, tr: seq<Event>, lane: Lane, pos: nat, ch: Octet)
    requires ps.state == InHeader(ValueText) && !ps.headerState.ContentLength? && ps.nread < MAX_HEADER_SIZE
    requires ch != CR && ch != LF && IsHeaderChar(ch)
    ensures var d, m := Step(Go(ps, tr, lane, pos), ch), Next(Matcher(ps.headerState, ps.index, ps.flags), ch);
            && d.Go? && d.tr == Emit(tr, Data(Value, [ch])) && d.pos == pos + 1
            && d.ps == ps.(headerState := m.hs, index := m.index, flags := m.flags, nread := ps.nread + 1)
  {
    hide Emit, Step, Dispatch, Lower, ValueMatch, NoteOption, IsHeaderChar;
    StepValue(ps, tr, lane, pos, ch);
  }

  lemma NextIsNoLength(m: Matcher, ch: Octet)
    ensures !Next(m, ch).hs.ContentLength?
  {
    hide Lower, NoteOption, MatchChar;
    MatchCharIs(m.hs, m.index + 1, Lower(ch));
  }

  lemma MatchCharIs(hs: HeaderState, index: nat, c: Octet)
    ensures forall matched, failed :: MatchChar(hs, index, c, matched, failed) in {matched, failed, hs}
  {
  }

  lemma {:induction false} RunValue(c: Config, v: seq<Octet>)
    requires AtValue(c) && LegalValue(v) && c.ps.nread + |v| <= MAX_HEADER_SIZE
    ensures Took(c, Run(c, v), Matched(c.ps.headerState, c.ps.flags, v), v)
    ensures !Matched(c.ps.headerState, c.ps.flags, v).hs.ContentLength?
  {
    hide Step, Emit, Next, IsHeaderChar, ValueInitial;
    if |v| == 1 {
      assert v == [v[0]];
      RunOne(c, v[0]);
      StepFirst(c, v[0]);
      InitialIsNoLength(c.ps.headerState, Lower(v[0]));
    } else {
      var init, ch := v[..|v| - 1], v[|v| - 1];
      assert v == init + [ch] && IsHeaderChar(ch);
      RunValue(c, init);
      var d, m := Run(c, init), Matched(c.ps.headerState, c.ps.flags, init);
      assert v[1..][..|v| - 2] == init[1..];
      StepMore(d.ps, d.tr, d.lane, d.pos, ch);
      NextIsNoLength(m, ch);
      EmitTwice(c.tr, Value, init, [ch]);
    }
  }

  lemma InitialIsNoLength(hs: HeaderState, c: Octet)
    requires !hs.ContentLength?
    ensures !ValueInitial(hs, c).ContentLength?
  {
  }

  // ----- Words

  // In lower case, for letters
  function Lowers(w: seq<Octet>): (l: seq<Octet>)
    ensures |l| == |w|
  {
    if w == [] then [] else Lowers(w[..|w| - 1]) + [Lower(w[|w| - 1])]
  }

  lemma LowersMore(w: seq<Octet>, ch: Octet)
    ensures Lowers(w + [ch]) == Lowers(w) + [Lower(ch)]
  {
    assert (w + [ch])[..|w|] == w;
  }

  lemma LowersOne(ch: Octet)
    ensures Lowers([ch]) == [Lower(ch)]
  {
    LowersMore([], ch);
    assert [] + [ch] == [ch];
  }

  lemma {:induction false} LowersAt(w: seq<Octet>, k: nat)
    requires k < |w|
    ensures Lowers(w)[k] == Lower(w[k])
  {
    if k < |w| - 1 {
      LowersAt(w[..|w| - 1], k);
    }
  }

  // The word `o` in any case, with or without spaces behind
  predicate IsWord(w: seq<Octet>, o: seq<Octet>) {
    |w| >= |o| && Lowers(w[..|o|]) == o && forall k :: |o| <= k < |w| ==> w[k] == ' '
  }

  // What has not failed to be the word `o` so far
  predicate SoFar(w: seq<Octet>, o: seq<Octet>) {
    if |w| < |o| then Lowers(w) <= o else IsWord(w, o)
  }

  lemma SoFarMore(w: seq<Octet>, o: seq<Octet>, ch: Octet)
    requires o != []
    ensures SoFar(w + [ch], o) <==> SoFar(w, o) && (if |w| < |o| then Lower(ch) == o[|w|] else ch == ' ')
  {
    hide Lower;
    var v := w + [ch];
    LowersMore(w, ch);
    if |w| < |o| {
      PrefixExtends(o, Lowers(w), Lower(ch));
      if |w| == |o| - 1 {
        assert v[..|o|] == v;
      }
    } else {
      assert v[..|o|] == w[..|o|];
    }
  }

  // ----- Connection options, as section 6.1 of RFC 7230 reads them

  const KEEP_ALIVE: seq<Octet> := "keep-alive"
  const CLOSE: seq<Octet> := "close"
  const UPGRADE_OPTION: seq<Octet> := "upgrade"

  lemma OptionLetters()
    ensures |KEEP_ALIVE| == 10 && |CLOSE| == 5 && |UPGRADE_OPTION| == 7
    ensures KEEP_ALIVE[0] == 'k' && CLOSE[0] == 'c' && UPGRADE_OPTION[0] == 'u'
    ensures KEEP_ALIVE[9] == 'e' && CLOSE[4] == 'e' && UPGRADE_OPTION[6] == 'e'
  {
  }

  // The pieces of a value between its commas, whatever they hold
  function Pieces(v: seq<Octet>): (ps: seq<seq<Octet>>)
    ensures ps != []
  {
    if v == [] then [[]]
    else
      var ps, ch := Pieces(v[..|v| - 1]), v[|v| - 1];
      if ch == ',' then ps + [[]] else ps[..|ps| - 1] + [ps[|ps| - 1] + [ch]]
  }

  function Joined(ps: seq<seq<Octet>>): seq<Octet> {
    if ps == [] then []
    else if |ps| == 1 then ps[0]
    else Joined(ps[..|ps| - 1]) + [','] + ps[|ps| - 1]
  }

  predicate NoComma(w: seq<Octet>) {
    forall k :: 0 <= k < |w| ==> w[k] != ',' && w[k] != NUL
  }

  predicate AllPieces(ps: seq<seq<Octet>>) {
    forall i :: 0 <= i < |ps| ==> NoComma(ps[i])
  }

  lemma JoinedSnoc(ps: seq<seq<Octet>>, w: seq<Octet>)
    ensures Joined(ps + [w]) == if ps == [] then w else Joined(ps) + [','] + w
  {
    assert (ps + [w])[..|ps|] == ps;
  }

  lemma JoinedMore(init: seq<seq<Octet>>, last: seq<Octet>, ch: Octet)
    ensures Joined(init + [last] + [[]]) == Joined(init + [last]) + [',']
    ensures Joined(init + [last + [ch]]) == Joined(init + [last]) + [ch]
  {
    hide Joined;
    JoinedSnoc(init, last);
    JoinedSnoc(init, last + [ch]);
    JoinedSnoc(init + [last], []);
    Regroup(Joined(init) + [','], last, [ch]);
  }

  lemma Regroup(a: seq<Octet>, b: seq<Octet>, c: seq<Octet>)
    ensures a + (b + c) == a + b + c
  {
  }

  // Joining the pieces gives the value back.
  lemma {:induction false} PiecesJoin(v: seq<Octet>)
    ensures Joined(Pieces(v)) == v
  {
    hide Joined;
    if v == [] {
      OneJoined([[]]);
    } else {
      var init, ch := v[..|v| - 1], v[|v| - 1];
      PiecesJoin(init);
      var ps := Pieces(init);
      JoinedMore(ps[..|ps| - 1], ps[|ps| - 1], ch);
      assert ps == ps[..|ps| - 1] + [ps[|ps| - 1]] && v == init + [ch];
    }
  }

  lemma {:induction false} PiecesHaveNoComma(v: seq<Octet>)
    requires forall k :: 0 <= k < |v| ==> v[k] != NUL
    ensures AllPieces(Pieces(v))
  {
    if v != [] {
      PiecesHaveNoComma(v[..|v| - 1]);
    }
  }

  lemma {:induction false} FirstPiece(v: seq<Octet>)
    requires v != []
    ensures Pieces(v)[0] != [] ==> Pieces(v)[0][0] == v[0]
  {
    if |v| > 1 {
      FirstPiece(v[..|v| - 1]);
    }
  }

  predicate IsBlank(ch: Octet) {
    ch == ' ' || ch == TAB
  }

  function TrimLeft(w: seq<Octet>): seq<Octet> {
    if w != [] && IsBlank(w[0]) then TrimLeft(w[1..]) else w
  }

  function TrimRight(w: seq<Octet>): seq<Octet> {
    if w != [] && IsBlank(w[|w| - 1]) then TrimRight(w[..|w| - 1]) else w
  }

  // The option that a list element names, blanks around it aside
  function NamedIn(w: seq<Octet>): HeaderState {
    var l := Lowers(TrimRight(TrimLeft(w)));
    if l == KEEP_ALIVE then ConnectionKeepAlive
    else if l == CLOSE then ConnectionClose
    else if l == UPGRADE_OPTION then ConnectionUpgrade
    else ConnectionToken
  }

  // The flags with all options noted that the elements name
  function AllNoted(ps: seq<seq<Octet>>, flags: Flags): Flags {
    if ps == [] then flags else NoteOption(AllNoted(ps[..|ps| - 1], flags), NamedIn(ps[|ps| - 1]))
  }

  // ----- What the parser hears

  // How the parser takes the next element: it listens to it; it takes the comma
  // for part of something else and misses it; it is still waiting for an element
  // to begin; or it has given up on the value.
  datatype Hearing = Listening | Deaf | Waiting | Off

  function SkipSpaces(w: seq<Octet>): (s: seq<Octet>)
    ensures s != [] ==> s[0] != ' '
  {
    if w != [] && w[0] == ' ' then SkipSpaces(w[1..]) else w
  }

  // The beginning of an option, and no more
  predicate BeginsOption(w: seq<Octet>) {
    || (|w| < |KEEP_ALIVE| && Lowers(w) <= KEEP_ALIVE)
    || (|w| < |CLOSE| && Lowers(w) <= CLOSE)
    || (|w| < |UPGRADE_OPTION| && Lowers(w) <= UPGRADE_OPTION)
  }

  // Elements other than the first must begin with a character that is a token
  // character once bit 5 is set.
  predicate Starts(ch: Octet) {
    Token(Lower(ch)) != NUL
  }

  // How the element behind `w` is taken, if `w` was listened to
  function HearingAfter(w: seq<Octet>, first: bool): Hearing {
    var s := SkipSpaces(w);
    if s == [] then (if first then Deaf else Waiting)
    else if !first && !Starts(s[0]) then Off
    else if BeginsOption(s) then Deaf
    else Listening
  }

  // How the element behind `ps` is taken
  function HearingAt(ps: seq<seq<Octet>>): Hearing {
    if ps == [] then Listening
    else
      match HearingAt(ps[..|ps| - 1])
      case Listening => HearingAfter(ps[|ps| - 1], |ps| == 1)
      case Deaf => Listening
      case Waiting => Off
      case Off => Off
  }

  // What is noted of an element that is listened to: its option, if it holds no tab
  function Taken(w: seq<Octet>): HeaderState {
    if TAB in w then ConnectionToken else NamedIn(w)
  }

  function Heard(ps: seq<seq<Octet>>, flags: Flags): Flags {
    if ps == [] then flags
    else
      var init := ps[..|ps| - 1];
      if HearingAt(init).Listening? then NoteOption(Heard(init, flags), Taken(ps[|ps| - 1])) else Heard(init, flags)
  }

  // ----- The matcher within one element

  function MatchingState(o: seq<Octet>): HeaderState {
    if o == KEEP_ALIVE then MatchingKeepAlive else if o == CLOSE then MatchingClose else MatchingConnectionUpgrade
  }

  function CompleteState(o: seq<Octet>): HeaderState {
    if o == KEEP_ALIVE then ConnectionKeepAlive else if o == CLOSE then ConnectionClose else ConnectionUpgrade
  }

  predicate MatchingOption(hs: HeaderState) {
    hs.MatchingKeepAlive? || hs.MatchingClose? || hs.MatchingConnectionUpgrade?
  }

  predicate Complete(hs: HeaderState) {
    hs.ConnectionKeepAlive? || hs.ConnectionClose? || hs.ConnectionUpgrade?
  }

  // The state for the option `o`, of which `w` is the beginning or the whole
  predicate Knows(m: Matcher, w: seq<Octet>, o: seq<Octet>) {
    if |w| < |o| then m.hs == MatchingState(o) && m.index == |w| - 1 else m.hs == CompleteState(o)
  }

  // What the matcher knows after `w`, which began an element
  predicate KnowsOption(m: Matcher, w: seq<Octet>) {
    if SoFar(w, KEEP_ALIVE) then Knows(m, w, KEEP_ALIVE)
    else if SoFar(w, CLOSE) then Knows(m, w, CLOSE)
    else if SoFar(w, UPGRADE_OPTION) then Knows(m, w, UPGRADE_OPTION)
    else m.hs.ConnectionToken?
  }

  predicate IsOption(o: seq<Octet>) {
    o == KEEP_ALIVE || o == CLOSE || o == UPGRADE_OPTION
  }

  lemma WordsAre()
    ensures Word(MatchingKeepAlive) == KEEP_ALIVE && Word(MatchingClose) == CLOSE
    ensures Word(MatchingConnectionUpgrade) == UPGRADE_OPTION
  {
  }

  lemma {:induction false} SoFarBegins(w: seq<Octet>, o: seq<Octet>)
    requires w != [] && SoFar(w, o) && o != []
    ensures Lower(w[0]) == o[0]
  {
    hide Lower;
    if |w| < |o| {
      LowersAt(w, 0);
    } else {
      LowersAt(w[..|o|], 0);
    }
  }

  // No two options begin alike.
  lemma OneOption(w: seq<Octet>)
    requires w != []
    ensures SoFar(w, KEEP_ALIVE) ==> !SoFar(w, CLOSE) && !SoFar(w, UPGRADE_OPTION)
    ensures SoFar(w, CLOSE) ==> !SoFar(w, UPGRADE_OPTION)
    ensures SoFar(w, KEEP_ALIVE) ==> Lower(w[0]) == 'k'
    ensures SoFar(w, CLOSE) ==> Lower(w[0]) == 'c'
    ensures SoFar(w, UPGRADE_OPTION) ==> Lower(w[0]) == 'u'
  {
    hide SoFar, Lower, KEEP_ALIVE, CLOSE, UPGRADE_OPTION;
    OptionLetters();
    if SoFar(w, KEEP_ALIVE) {
      SoFarBegins(w, KEEP_ALIVE);
    }
    if SoFar(w, CLOSE) {
      SoFarBegins(w, CLOSE);
    }
    if SoFar(w, UPGRADE_OPTION) {
      SoFarBegins(w, UPGRADE_OPTION);
    }
  }

  // One more byte of an element, when `o` is the option that is being matched
  lemma KnowsMore(m: Matcher, w: seq<Octet>, ch: Octet, o: seq<Octet>)
    requires w != [] && ch != ',' && IsOption(o) && SoFar(w, o) && Knows(m, w, o)
    ensures var next := Next(m, ch);
            next.flags == m.flags && (if SoFar(w + [ch], o) then Knows(next, w + [ch], o) else next.hs.ConnectionToken?)
  {
    hide SoFar, Lower, NoteOption, KEEP_ALIVE, CLOSE, UPGRADE_OPTION, Word;
    OptionLetters();
    WordsAre();
    SoFarMore(w, o, ch);
  }

  lemma KnowsOptionMore(m: Matcher, w: seq<Octet>, ch: Octet)
    requires w != [] && ch != ',' && KnowsOption(m, w)
    ensures KnowsOption(Next(m, ch), w + [ch]) && Next(m, ch).flags == m.flags
  {
    hide SoFar, Lower, Next, Knows, KEEP_ALIVE, CLOSE, UPGRADE_OPTION;
    OptionLetters();
    OneOption(w);
    SoFarMore(w, KEEP_ALIVE, ch);
    SoFarMore(w, CLOSE, ch);
    SoFarMore(w, UPGRADE_OPTION, ch);
    if SoFar(w, KEEP_ALIVE) {
      KnowsMore(m, w, ch, KEEP_ALIVE);
    } else if SoFar(w, CLOSE) {
      KnowsMore(m, w, ch, CLOSE);
    } else if SoFar(w, UPGRADE_OPTION) {
      KnowsMore(m, w, ch, UPGRADE_OPTION);
    } else {
      TokenGoesOn(m, ch);
    }
  }

  lemma TokenGoesOn(m: Matcher, ch: Octet)
    requires m.hs.ConnectionToken? && ch != ','
    ensures Next(m, ch) == m
  {
  }

  lemma KnowsFirst(ch: Octet, flags: Flags)
    ensures KnowsOption(Matcher(ValueInitial(Connection, Lower(ch)), 0, flags), [ch])
  {
    hide Lower, KEEP_ALIVE, CLOSE, UPGRADE_OPTION;
    OptionLetters();
    LowersOne(ch);
  }

  lemma MatchedMore(hs: HeaderState, flags: Flags, v: seq<Octet>, w: seq<Octet>)
    requires v != []
    ensures Matched(hs, flags, v + w) == MatchAll(Matched(hs, flags, v), w)
  {
    hide MatchAll;
    assert (v + w)[0] == v[0] && (v + w)[1..] == v[1..] + w;
    MatchTwo(Matcher(ValueInitial(hs, Lower(v[0])), 0, flags), v[1..], w);
  }

  lemma MatchedOne(hs: HeaderState, flags: Flags, ch: Octet)
    ensures Matched(hs, flags, [ch]) == Matcher(ValueInitial(hs, Lower(ch)), 0, flags)
  {
    assert [ch][1..] == [];
  }

  lemma MatchOne(m: Matcher, ch: Octet)
    ensures MatchAll(m, [ch]) == Next(m, ch)
  {
    hide Next;
    assert [ch][..0] == [];
  }

  lemma {:induction false} ElementGoesOn(m: Matcher, w: seq<Octet>, more: seq<Octet>)
    requires w != [] && KnowsOption(m, w) && NoComma(more)
    ensures KnowsOption(MatchAll(m, more), w + more) && MatchAll(m, more).flags == m.flags
  {
    hide KnowsOption, Next;
    if more == [] {
      assert w + more == w;
    } else {
      var init, ch := more[..|more| - 1], more[|more| - 1];
      assert w + more == w + init + [ch];
      ElementGoesOn(m, w, init);
      KnowsOptionMore(MatchAll(m, init), w + init, ch);
    }
  }

  // The first element of a value
  lemma FirstElement(w: seq<Octet>, flags: Flags)
    requires w != [] && NoComma(w)
    ensures KnowsOption(Matched(Connection, flags, w), w) && Matched(Connection, flags, w).flags == flags
  {
    hide KnowsOption, MatchAll, ValueInitial;
    assert w == [w[0]] + w[1..];
    KnowsFirst(w[0], flags);
    MatchedOne(Connection, flags, w[0]);
    MatchedMore(Connection, flags, [w[0]], w[1..]);
    ElementGoesOn(Matched(Connection, flags, [w[0]]), [w[0]], w[1..]);
  }

  lemma NextStarts(m: Matcher, ch: Octet)
    requires m.hs.TokenStart? && m.index == 0 && ch != NUL
    ensures Starts(ch) ==> Next(m, ch) == Matcher(ValueInitial(Connection, Lower(ch)), 0, m.flags)
    ensures !Starts(ch) && ch != ' ' ==> Next(m, ch).hs.General? && Next(m, ch).flags == m.flags
    ensures ch == ' ' ==> Next(m, ch) == m
  {
    LowerOfNone(ch);
    LettersStart();
  }

  lemma LettersStart()
    ensures Token('k') != NUL && Token('c') != NUL && Token('u') != NUL && Token(' ') == NUL
  {
  }

  // Bit 5 makes a blank of nothing but a blank or a NUL, and never a tab.
  lemma LowerOfNone(ch: Octet)
    ensures Lower(ch) == ' ' ==> ch == ' ' || ch == NUL
    ensures Lower(ch) != TAB && Lower(' ') == ' '
  {
  }

  lemma {:induction false} StaysDeaf(m: Matcher, w: seq<Octet>)
    requires m.hs.ConnectionToken? && NoComma(w)
    ensures MatchAll(m, w) == m
  {
    hide Next;
    if w != [] {
      StaysDeaf(m, w[..|w| - 1]);
      TokenGoesOn(m, w[|w| - 1]);
    }
  }

  lemma {:induction false} StaysOff(m: Matcher, w: seq<Octet>)
    requires m.hs.General?
    ensures MatchAll(m, w) == m
  {
    if w != [] {
      StaysOff(m, w[..|w| - 1]);
    }
  }

  lemma MatchCons(m: Matcher, w: seq<Octet>)
    requires w != []
    ensures MatchAll(m, w) == MatchAll(Next(m, w[0]), w[1..])
  {
    hide MatchAll, Next;
    assert w == [w[0]] + w[1..];
    MatchTwo(m, [w[0]], w[1..]);
    MatchOne(m, w[0]);
  }

  lemma MatchNothing(m: Matcher)
    ensures MatchAll(m, []) == m
  {
  }

  lemma {:induction false} SpacesAreSkipped(m: Matcher, w: seq<Octet>)
    requires m.hs.TokenStart? && m.index == 0
    ensures MatchAll(m, w) == MatchAll(m, SkipSpaces(w))
    ensures NoComma(w) ==> NoComma(SkipSpaces(w))
    decreases |w|
  {
    hide MatchAll, Next;
    if w != [] && w[0] == ' ' {
      MatchCons(m, w);
      NextStarts(m, ' ');
      SpacesAreSkipped(m, w[1..]);
    }
  }

  // A later element that begins
  lemma LaterElement(m: Matcher, s: seq<Octet>)
    requires m.hs.TokenStart? && m.index == 0 && s != [] && s[0] != ' ' && NoComma(s)
    ensures var d := MatchAll(m, s);
            d.flags == m.flags && if Starts(s[0]) then KnowsOption(d, s) else d.hs.General?
  {
    hide MatchAll, Next, KnowsOption, Starts, ValueInitial;
    MatchCons(m, s);
    NextStarts(m, s[0]);
    if Starts(s[0]) {
      KnowsFirst(s[0], m.flags);
      ElementGoesOn(Next(m, s[0]), [s[0]], s[1..]);
      assert [s[0]] + s[1..] == s;
    } else {
      StaysOff(Next(m, s[0]), s[1..]);
    }
  }

  // ----- What is named and what is taken

  lemma {:induction false} TrimLeftSkips(w: seq<Octet>)
    ensures TrimLeft(SkipSpaces(w)) == TrimLeft(w)
    ensures TAB in w <==> TAB in SkipSpaces(w)
    decreases |w|
  {
    if w != [] && w[0] == ' ' {
      TrimLeftSkips(w[1..]);
      assert w == [w[0]] + w[1..];
    }
  }

  lemma {:induction false} TrimRightOf(core: seq<Octet>, w: seq<Octet>)
    requires core != [] && !IsBlank(core[|core| - 1]) && |core| <= |w| && w[..|core|] == core
    requires forall k :: |core| <= k < |w| ==> w[k] == ' '
    ensures TrimRight(w) == core
    decreases |w|
  {
    if |w| > |core| {
      var init := w[..|w| - 1];
      assert init[..|core|] == core;
      TrimRightOf(core, init);
    } else {
      assert w == core;
    }
  }

  // With no tab in it, trimming takes spaces away on the right and nothing else.
  lemma {:induction false} TrimRightLeaves(w: seq<Octet>)
    requires TAB !in w
    ensures var n := |TrimRight(w)|; n <= |w| && w[..n] == TrimRight(w) && forall k :: n <= k < |w| ==> w[k] == ' '
    decreases |w|
  {
    if w != [] && IsBlank(w[|w| - 1]) {
      assert w[|w| - 1] in w;
      TrimRightLeaves(w[..|w| - 1]);
    }
  }

  lemma WordEndsWell(w: seq<Octet>, o: seq<Octet>)
    requires IsWord(w, o) && IsOption(o)
    ensures |o| <= |w| && !IsBlank(w[|o| - 1]) && !IsBlank(w[0])
  {
    hide Lowers, Lower, KEEP_ALIVE, CLOSE, UPGRADE_OPTION;
    OptionLetters();
    LowersAt(w[..|o|], 0);
    LowersAt(w[..|o|], |o| - 1);
    BlanksAreNoLetters(w[0]);
    BlanksAreNoLetters(w[|o| - 1]);
  }

  lemma BlanksAreNoLetters(ch: Octet)
    ensures IsBlank(ch) ==> Lower(ch) != 'e' && Lower(ch) != 'k' && Lower(ch) != 'c' && Lower(ch) != 'u'
  {
  }

  // An element without leading blanks names an option by itself and spaces exactly
  // if it names it and has no tab.
  lemma WordIsNamed(s: seq<Octet>, o: seq<Octet>)
    requires IsOption(o) && (s != [] ==> s[0] != ' ')
    ensures IsWord(s, o) <==> TAB !in s && Lowers(TrimRight(TrimLeft(s))) == o
  {
    hide Lowers, Lower, KEEP_ALIVE, CLOSE, UPGRADE_OPTION;
    OptionLetters();
    if IsWord(s, o) {
      WordEndsWell(s, o);
      TrimRightOf(s[..|o|], s);
      WordHasNoTab(s, o);
    } else if TAB !in s && Lowers(TrimRight(TrimLeft(s))) == o {
      assert s != [] ==> s[0] in s;
      assert TrimLeft(s) == s;
      TrimRightLeaves(s);
    }
  }

  lemma WordHasNoTab(s: seq<Octet>, o: seq<Octet>)
    requires IsWord(s, o) && IsOption(o)
    ensures TAB !in s
  {
    hide Lower, Lowers;
    forall k | 0 <= k < |s| ensures s[k] != TAB {
      if k < |o| {
        LowersAt(s[..|o|], k);
        OptionHasNoParenthesis(o, k);
      }
    }
  }

  lemma OptionHasNoParenthesis(o: seq<Octet>, k: nat)
    requires IsOption(o) && k < |o|
    ensures o[k] != Lower(TAB)
  {
  }

  lemma TakenIsWord(s: seq<Octet>)
    requires s != [] ==> s[0] != ' '
    ensures Taken(s) == if IsWord(s, KEEP_ALIVE) then ConnectionKeepAlive
                        else if IsWord(s, CLOSE) then ConnectionClose
                        else if IsWord(s, UPGRADE_OPTION) then ConnectionUpgrade
                        else ConnectionToken
  {
    hide IsWord, Lowers, TrimLeft, TrimRight, KEEP_ALIVE, CLOSE, UPGRADE_OPTION;
    WordIsNamed(s, KEEP_ALIVE);
    WordIsNamed(s, CLOSE);
    WordIsNamed(s, UPGRADE_OPTION);
  }

  lemma TakenSkips(w: seq<Octet>)
    ensures Taken(w) == Taken(SkipSpaces(w))
  {
    hide Lowers, TrimLeft, TrimRight, SkipSpaces, KEEP_ALIVE, CLOSE, UPGRADE_OPTION;
    TrimLeftSkips(w);
  }

  // What the matcher knows of an element is how the next is taken, and the option noted.
  lemma KnowsTaken(m: Matcher, s: seq<Octet>)
    requires s != [] && s[0] != ' ' && KnowsOption(m, s)
    ensures if BeginsOption(s) then MatchingOption(m.hs) && Taken(s).ConnectionToken?
            else m.hs == Taken(s) && (Complete(m.hs) || m.hs.ConnectionToken?)
  {
    hide IsWord, Lowers, Taken, KEEP_ALIVE, CLOSE, UPGRADE_OPTION;
    OptionLetters();
    OneOption(s);
    TakenIsWord(s);
    ShortIsNoWord(s);
  }

  lemma ShortIsNoWord(s: seq<Octet>)
    ensures forall o :: |s| < |o| ==> !IsWord(s, o)
  {
  }

  // What does not begin an element names no option.
  lemma NamedStarts(s: seq<Octet>)
    requires s != [] && s[0] != ' ' && !Starts(s[0])
    ensures Taken(s).ConnectionToken?
  {
    hide IsWord, Lowers, Lower, Taken, SoFar, KEEP_ALIVE, CLOSE, UPGRADE_OPTION;
    TakenIsWord(s);
    OneOption(s);
    LettersStart();
    WordIsSoFar(s);
  }

  lemma WordIsSoFar(s: seq<Octet>)
    ensures forall o :: IsWord(s, o) ==> SoFar(s, o)
  {
  }

  lemma NothingIsTaken()
    ensures Taken([]).ConnectionToken?
  {
    hide Lowers;
    OptionLetters();
  }

  // ----- Whole lists

  // How the next element will be taken, and what is settled so far
  predicate Hears(m: Matcher, hearing: Hearing, flags: Flags) {
    match hearing
    case Listening => (Complete(m.hs) || m.hs.ConnectionToken?) && Settled(m) == flags
    case Deaf => MatchingOption(m.hs) && m.flags == flags
    case Waiting => m.hs.TokenStart? && m.index == 0 && m.flags == flags
    case Off => m.hs.General? && m.flags == flags
  }

  // The same behind the comma
  predicate HearsNext(m: Matcher, hearing: Hearing, flags: Flags) {
    match hearing
    case Listening => m == Matcher(TokenStart, 0, flags)
    case Deaf => m.hs.ConnectionToken? && m.flags == flags
    case Waiting => m.hs.General? && m.flags == flags
    case Off => m.hs.General? && m.flags == flags
  }

  lemma HeardIsSettled(m: Matcher, hearing: Hearing, flags: Flags)
    requires Hears(m, hearing, flags)
    ensures Settled(m) == flags
  {
  }

  // No option has a comma in it.
  lemma NoCommaInOption(hs: HeaderState, index: nat)
    requires MatchingOption(hs)
    ensures CharAt(Word(hs), index) != ','
  {
  }

  lemma CommaIsNoToken()
    ensures Lower(',') == ',' && Token(',') == NUL
  {
  }

  lemma CommaHeard(m: Matcher, hearing: Hearing, flags: Flags)
    requires Hears(m, hearing, flags)
    ensures HearsNext(Next(m, ','), hearing, flags)
  {
    hide Word, CharAt, Lower, Token;
    CommaIsNoToken();
    if hearing.Deaf? {
      NoCommaInOption(m.hs, m.index + 1);
    }
  }

  function HearingNext(hearing: Hearing, w: seq<Octet>, first: bool): Hearing {
    match hearing
    case Listening => HearingAfter(w, first)
    case Deaf => Listening
    case Waiting => Off
    case Off => Off
  }

  function NotedNext(hearing: Hearing, w: seq<Octet>, flags: Flags): Flags {
    if hearing.Listening? then NoteOption(flags, Taken(w)) else flags
  }

  lemma NextListened(m: Matcher, w: seq<Octet>)
    requires m.hs.TokenStart? && m.index == 0 && NoComma(w)
    ensures Hears(MatchAll(m, w), HearingAfter(w, false), NoteOption(m.flags, Taken(w)))
  {
    hide MatchAll, Starts, Taken, BeginsOption, KnowsOption, SkipSpaces;
    var s := SkipSpaces(w);
    SpacesAreSkipped(m, w);
    TakenSkips(w);
    if s == [] {
      MatchNothing(m);
      NothingIsTaken();
    } else {
      LaterElement(m, s);
      if Starts(s[0]) {
        KnowsTaken(MatchAll(m, s), s);
      } else {
        NamedStarts(s);
      }
    }
  }

  lemma NextElement(m: Matcher, hearing: Hearing, w: seq<Octet>, flags: Flags)
    requires HearsNext(m, hearing, flags) && NoComma(w)
    ensures Hears(MatchAll(m, w), HearingNext(hearing, w, false), NotedNext(hearing, w, flags))
  {
    hide MatchAll, Taken, HearingAfter;
    match hearing {
      case Listening => NextListened(m, w);
      case Deaf => StaysDeaf(m, w);
      case _ => StaysOff(m, w);
    }
  }

  lemma FirstHeard(w: seq<Octet>, flags: Flags)
    requires w != [] && w[0] != ' ' && NoComma(w)
    ensures Hears(Matched(Connection, flags, w), HearingAfter(w, true), NoteOption(flags, Taken(w)))
  {
    hide Matched, Taken, BeginsOption, KnowsOption;
    FirstElement(w, flags);
    KnowsTaken(Matched(Connection, flags, w), w);
  }

  lemma OneHeard(ps: seq<seq<Octet>>, flags: Flags)
    requires |ps| == 1
    ensures HearingAt(ps) == HearingAfter(ps[0], true) && Heard(ps, flags) == NoteOption(flags, Taken(ps[0]))
  {
    hide HearingAfter, Taken;
    assert ps[..0] == [];
  }

  lemma MoreHeard(ps: seq<seq<Octet>>, flags: Flags)
    requires |ps| > 1
    ensures var init, w := ps[..|ps| - 1], ps[|ps| - 1];
            && HearingAt(ps) == HearingNext(HearingAt(init), w, false)
            && Heard(ps, flags) == NotedNext(HearingAt(init), w, Heard(init, flags))
            && Joined(ps) == Joined(init) + [','] + w
  {
    hide HearingAfter, Taken;
  }

  // A leading comma is taken for the first character of an element.
  lemma LeadingComma(flags: Flags)
    ensures Matched(Connection, flags, [',']) == Matcher(ConnectionToken, 0, flags)
  {
    CommaIsNoToken();
    MatchedOne(Connection, flags, ',');
  }

  predicate FirstOk(ps: seq<seq<Octet>>) {
    ps != [] && AllPieces(ps) && (ps[0] != [] ==> ps[0][0] != ' ')
  }

  // What has been heard when the comma behind `ps` is read
  lemma {:induction false} CommaBehind(ps: seq<seq<Octet>>, flags: Flags)
    requires FirstOk(ps)
    ensures HearsNext(Matched(Connection, flags, Joined(ps) + [',']), HearingAt(ps), Heard(ps, flags))
  {
    hide Matched, HearsNext, Hears, HearingAt, Heard, HearingNext, NotedNext, HearingAfter, Taken, Next, MatchAll, NoteOption, Joined;
    if |ps| == 1 {
      OneHeard(ps, flags);
      OneJoined(ps);
      if ps[0] == [] {
        LeadingCommaHeard(flags);
        assert [] + [','] == [','];
      } else {
        FirstHeard(ps[0], flags);
        CommaHeard(Matched(Connection, flags, ps[0]), HearingAt(ps), Heard(ps, flags));
        MatchedMore(Connection, flags, ps[0], [',']);
        MatchOne(Matched(Connection, flags, ps[0]), ',');
      }
    } else {
      var init, w := ps[..|ps| - 1], ps[|ps| - 1];
      CommaBehind(init, flags);
      MoreHeard(ps, flags);
      var m := Matched(Connection, flags, Joined(init) + [',']);
      NextElement(m, HearingAt(init), w, Heard(init, flags));
      MatchedMore(Connection, flags, Joined(init) + [','], w);
      CommaHeard(MatchAll(m, w), HearingAt(ps), Heard(ps, flags));
      MatchedMore(Connection, flags, Joined(ps), [',']);
      MatchOne(MatchAll(m, w), ',');
    }
  }

  lemma OneJoined(ps: seq<seq<Octet>>)
    requires |ps| == 1
    ensures Joined(ps) == ps[0]
  {
  }

  lemma LeadingCommaHeard(flags: Flags)
    ensures HearsNext(Matched(Connection, flags, [',']), HearingAfter([], true), NoteOption(flags, Taken([])))
  {
    hide Taken, Matched;
    LeadingComma(flags);
    NothingIsTaken();
  }

  // The matcher hears exactly what is said to be heard, whatever the elements hold.
  lemma ListHeard(ps: seq<seq<Octet>>, flags: Flags)
    requires FirstOk(ps) && Joined(ps) != []
    ensures Hears(Matched(Connection, flags, Joined(ps)), HearingAt(ps), Heard(ps, flags))
  {
    hide Matched, HearsNext, Hears, HearingAt, Heard, HearingNext, NotedNext, HearingAfter, Taken, MatchAll, NoteOption, Joined;
    if |ps| == 1 {
      OneHeard(ps, flags);
      OneJoined(ps);
      FirstHeard(ps[0], flags);
    } else {
      var init, w := ps[..|ps| - 1], ps[|ps| - 1];
      CommaBehind(init, flags);
      MoreHeard(ps, flags);
      var m := Matched(Connection, flags, Joined(init) + [',']);
      NextElement(m, HearingAt(init), w, Heard(init, flags));
      MatchedMore(Connection, flags, Joined(init) + [','], w);
    }
  }

  // ----- When what is named is what is heard

  predicate Names(ps: seq<seq<Octet>>, o: HeaderState) {
    exists i :: 0 <= i < |ps| && NamedIn(ps[i]) == o
  }

  // An element that is listened to names the option, and holds no tab.
  predicate GetsThrough(ps: seq<seq<Octet>>, o: HeaderState) {
    exists i :: 0 <= i < |ps| && HearingAt(ps[..i]).Listening? && NamedIn(ps[i]) == o && TAB !in ps[i]
  }

  lemma NamesMore(ps: seq<seq<Octet>>, o: HeaderState)
    requires ps != []
    ensures Names(ps, o) <==> Names(ps[..|ps| - 1], o) || NamedIn(ps[|ps| - 1]) == o
  {
    hide NamedIn;
    var init := ps[..|ps| - 1];
    if Names(init, o) {
      var i :| 0 <= i < |init| && NamedIn(init[i]) == o;
      assert ps[i] == init[i];
    }
    if Names(ps, o) {
      var i :| 0 <= i < |ps| && NamedIn(ps[i]) == o;
      assert i < |init| ==> init[i] == ps[i];
    }
  }

  lemma GetsThroughMore(ps: seq<seq<Octet>>, o: HeaderState)
    requires ps != [] && o != ConnectionToken
    ensures var init, w := ps[..|ps| - 1], ps[|ps| - 1];
            GetsThrough(ps, o) <==> GetsThrough(init, o) || (HearingAt(init).Listening? && Taken(w) == o)
  {
    hide NamedIn, HearingAt;
    var init := ps[..|ps| - 1];
    if GetsThrough(init, o) {
      var i :| 0 <= i < |init| && HearingAt(init[..i]).Listening? && NamedIn(init[i]) == o && TAB !in init[i];
      assert ps[i] == init[i] && ps[..i] == init[..i];
    }
    if GetsThrough(ps, o) {
      var i :| 0 <= i < |ps| && HearingAt(ps[..i]).Listening? && NamedIn(ps[i]) == o && TAB !in ps[i];
      if i < |init| {
        assert init[i] == ps[i] && init[..i] == ps[..i];
      }
    }
  }

  function WithOptions(flags: Flags, close: bool, keepAlive: bool, upgrade: bool): Flags {
    flags.(close := flags.close || close, keepAlive := flags.keepAlive || keepAlive,
           connectionUpgrade := flags.connectionUpgrade || upgrade)
  }

  lemma NoteOne(flags: Flags, o: HeaderState)
    requires o.ConnectionToken? || Complete(o)
    ensures NoteOption(flags, o) == WithOptions(flags, o == ConnectionClose, o == ConnectionKeepAlive, o == ConnectionUpgrade)
  {
  }

  // Read as the RFC says, each flag is set exactly when the list names its option.
  lemma {:induction false} NotedIsNamed(ps: seq<seq<Octet>>, flags: Flags)
    ensures AllNoted(ps, flags) ==
            WithOptions(flags, Names(ps, ConnectionClose), Names(ps, ConnectionKeepAlive), Names(ps, ConnectionUpgrade))
  {
    hide NamedIn, Names, NoteOption;
    if ps == [] {
      NothingNamed();
    } else {
      NamedIsOption(ps[|ps| - 1]);
      NoteOne(AllNoted(ps[..|ps| - 1], flags), NamedIn(ps[|ps| - 1]));
      NotedIsNamed(ps[..|ps| - 1], flags);
      NamesMore(ps, ConnectionClose);
      NamesMore(ps, ConnectionKeepAlive);
      NamesMore(ps, ConnectionUpgrade);
    }
  }

  lemma NothingNamed()
    ensures forall o :: !Names([], o) && !GetsThrough([], o)
  {
  }

  lemma NamedIsOption(w: seq<Octet>)
    ensures NamedIn(w).ConnectionToken? || Complete(NamedIn(w))
    ensures Taken(w).ConnectionToken? || Taken(w) == NamedIn(w)
  {
    hide Lowers, TrimLeft, TrimRight;
  }

  // As the parser reads it, each flag is set exactly when its option gets through.
  lemma {:induction false} HeardGetsThrough(ps: seq<seq<Octet>>, flags: Flags)
    ensures Heard(ps, flags) ==
            WithOptions(flags, GetsThrough(ps, ConnectionClose), GetsThrough(ps, ConnectionKeepAlive),
                        GetsThrough(ps, ConnectionUpgrade))
  {
    hide NamedIn, GetsThrough, HearingAt, Taken, NoteOption;
    if ps == [] {
      NothingNamed();
    } else {
      NamedIsOption(ps[|ps| - 1]);
      NoteOne(Heard(ps[..|ps| - 1], flags), Taken(ps[|ps| - 1]));
      HeardGetsThrough(ps[..|ps| - 1], flags);
      GetsThroughMore(ps, ConnectionClose);
      GetsThroughMore(ps, ConnectionKeepAlive);
      GetsThroughMore(ps, ConnectionUpgrade);
    }
  }

  lemma GetsThroughIsNamed(ps: seq<seq<Octet>>, o: HeaderState)
    requires GetsThrough(ps, o)
    ensures Names(ps, o)
  {
    hide NamedIn, HearingAt;
  }

  // The parser sets the flags that the list asks for exactly if each option that
  // is named, and not set already, is named by an element that is listened to
  // and holds no tab.
  lemma UnderstoodExactly(ps: seq<seq<Octet>>, flags: Flags)
    ensures Heard(ps, flags) == AllNoted(ps, flags) <==>
            && (Names(ps, ConnectionClose) ==> flags.close || GetsThrough(ps, ConnectionClose))
            && (Names(ps, ConnectionKeepAlive) ==> flags.keepAlive || GetsThrough(ps, ConnectionKeepAlive))
            && (Names(ps, ConnectionUpgrade) ==> flags.connectionUpgrade || GetsThrough(ps, ConnectionUpgrade))
  {
    hide Names, GetsThrough, Heard, AllNoted;
    NotedIsNamed(ps, flags);
    HeardGetsThrough(ps, flags);
    forall o | GetsThrough(ps, o) ensures Names(ps, o) {
      GetsThroughIsNamed(ps, o);
    }
  }

  // A list is understood whole when it has no tab, no empty element, no element
  // but the last that is the mere beginning of an option, and no element but the
  // first that begins with anything but a token character other than '_'.
  predicate Plain(ps: seq<seq<Octet>>) {
    && ps != [] && ps[0] != []
    && (forall i :: 0 <= i < |ps| ==> TAB !in ps[i])
    && (forall i :: 0 <= i < |ps| - 1 ==> !BeginsOption(SkipSpaces(ps[i])))
    && (forall i :: 0 < i < |ps| ==> SkipSpaces(ps[i]) != [] && Starts(SkipSpaces(ps[i])[0]))
  }

  lemma {:induction false} PlainIsListenedTo(ps: seq<seq<Octet>>, i: nat)
    requires Plain(ps) && i < |ps| && (ps[0][0] != ' ')
    ensures HearingAt(ps[..i]).Listening?
  {
    hide BeginsOption, Starts;
    if i > 0 {
      PlainIsListenedTo(ps, i - 1);
      assert ps[..i][..i - 1] == ps[..i - 1] && ps[..i][i - 1] == ps[i - 1];
    }
  }

  lemma UnderstoodWhole(ps: seq<seq<Octet>>, flags: Flags)
    requires Plain(ps) && ps[0][0] != ' '
    ensures Heard(ps, flags) == AllNoted(ps, flags)
  {
    hide NamedIn, HearingAt, Heard, AllNoted;
    forall o | Names(ps, o) ensures GetsThrough(ps, o) {
      var i :| 0 <= i < |ps| && NamedIn(ps[i]) == o;
      PlainIsListenedTo(ps, i);
    }
    UnderstoodExactly(ps, flags);
  }

  // ----- How options get lost

  lemma OneMore(ps: seq<seq<Octet>>, w: seq<Octet>)
    ensures (ps + [w])[..|ps|] == ps
  {
  }

  // Behind an element that is the beginning of an option, the next element is
  // missed, whatever it is.
  lemma DeafMisses(ps: seq<seq<Octet>>, w: seq<Octet>, flags: Flags)
    requires HearingAt(ps).Deaf?
    ensures Heard(ps + [w], flags) == Heard(ps, flags) && HearingAt(ps + [w]).Listening?
  {
    hide HearingAfter, Taken;
    OneMore(ps, w);
  }

  // Once listening has ended, it has ended for the rest of the value: behind an
  // empty element, a tab before an element, or an element that begins otherwise.
  lemma {:induction false} OffForGood(ps: seq<seq<Octet>>, more: seq<seq<Octet>>, flags: Flags)
    requires HearingAt(ps).Off? || HearingAt(ps).Waiting?
    ensures Heard(ps + more, flags) == Heard(ps, flags)
    ensures more != [] ==> HearingAt(ps + more).Off?
  {
    hide HearingAfter, Taken;
    if more == [] {
      assert ps + more == ps;
    } else {
      var init := more[..|more| - 1];
      OffForGood(ps, init, flags);
      assert ps + more == ps + init + [more[|more| - 1]];
      if init == [] {
        assert ps + init == ps;
      }
      OneMore(ps + init, more[|more| - 1]);
    }
  }

  // A tab before an element ends listening, if the element was listened to.
  lemma TabEndsListening(ps: seq<seq<Octet>>, w: seq<Octet>)
    requires ps != [] && HearingAt(ps).Listening? && SkipSpaces(w) != [] && SkipSpaces(w)[0] == TAB
    ensures HearingAt(ps + [w]).Off?
  {
    OneMore(ps, w);
    TabStartsNothing();
  }

  lemma TabStartsNothing()
    ensures !Starts(TAB)
  {
  }

  // A tab anywhere in an element loses its option.
  lemma TabLosesOption(ps: seq<seq<Octet>>, w: seq<Octet>, flags: Flags)
    requires TAB in w
    ensures Heard(ps + [w], flags) == Heard(ps, flags)
  {
    OneMore(ps, w);
  }

  // ----- Lists that name close and are not heard to

  lemma {:induction false} LowersSame(w: seq<Octet>)
    requires forall k :: 0 <= k < |w| ==> 'a' <= w[k] <= 'z'
    ensures Lowers(w) == w
  {
    if w != [] {
      LowersSame(w[..|w| - 1]);
    }
  }

  lemma TrimmedIsNamed(w: seq<Octet>)
    requires TrimRight(TrimLeft(w)) == "close"
    ensures NamedIn(w) == ConnectionClose
  {
    LowersSame("close");
    OptionLetters();
  }

  lemma BlanksAreTrimmed(w: seq<Octet>)
    requires w != [] && !IsBlank(w[0]) && !IsBlank(w[|w| - 1])
    ensures TrimRight(TrimLeft(w)) == w
    ensures TrimRight(TrimLeft([' '] + w)) == w && TrimRight(TrimLeft([TAB] + w)) == w && TrimRight(TrimLeft(w + [TAB])) == w
  {
    assert ([' '] + w)[1..] == w && ([TAB] + w)[1..] == w && (w + [TAB])[..|w|] == w;
  }

  lemma CloseIsNamed()
    ensures NamedIn("close") == NamedIn(" close") == NamedIn("close\t") == NamedIn("\tclose") == ConnectionClose
  {
    hide TrimLeft, TrimRight, NamedIn;
    var close: seq<Octet> := "close";
    BlanksAreTrimmed(close);
    assert " close" == [' '] + close && "\tclose" == [TAB] + close && "close\t" == close + [TAB];
    TrimmedIsNamed("close");
    TrimmedIsNamed(" close");
    TrimmedIsNamed("close\t");
    TrimmedIsNamed("\tclose");
  }

  // "c, close"
  lemma CloseIsMissed(flags: Flags)
    ensures Heard(["c", " close"], flags) == flags && AllNoted(["c", " close"], flags).close
  {
    hide NamedIn;
    CloseIsNamed();
    var ps: seq<seq<Octet>> := ["c", " close"];
    BeginningOfClose(flags);
    assert ps == ["c"] + [" close"];
    DeafMisses(["c"], " close", flags);
    NotedIsNamed(ps, flags);
    assert NamedIn(ps[1]) == ConnectionClose;
  }

  lemma BeginningOfClose(flags: Flags)
    ensures HearingAt(["c"]).Deaf? && Heard(["c"], flags) == flags
  {
    LowersSame("c");
    OneHeard(["c"], flags);
    assert SkipSpaces("c") == "c" && BeginsOption("c");
    TakenIsWord("c");
  }

  // "close" and a tab
  lemma CloseWithTabIsMissed(flags: Flags)
    ensures Heard(["close\t"], flags) == flags && AllNoted(["close\t"], flags).close
  {
    hide NamedIn;
    CloseIsNamed();
    var w: seq<Octet> := "close\t";
    assert w[5] == TAB;
    TabLosesOption([], w, flags);
    assert [] + [w] == [w];
    NotedIsNamed([w], flags);
    assert NamedIn([w][0]) == ConnectionClose;
  }

  // "keep-alive,,close", and any other list with an empty element between
  lemma CloseBehindNothingIsMissed(w: seq<Octet>, flags: Flags)
    requires HearingAt([w]).Listening?
    ensures Heard([w, "", "close"], flags) == Heard([w], flags) && AllNoted([w, "", "close"], flags).close
  {
    hide NamedIn;
    CloseIsNamed();
    var ps: seq<seq<Octet>> := [w, "", "close"];
    OneMore([w], "");
    assert [w, ""] == [w] + [""];
    NothingIsTaken();
    OffForGood([w, ""], ["close"], flags);
    assert ps == [w, ""] + ["close"];
    NotedIsNamed(ps, flags);
    assert NamedIn(ps[2]) == ConnectionClose;
  }

  // ",close"
  lemma CloseBehindCommaIsMissed(flags: Flags)
    ensures Heard(["", "close"], flags) == flags && AllNoted(["", "close"], flags).close
  {
    hide NamedIn;
    CloseIsNamed();
    var ps: seq<seq<Octet>> := ["", "close"];
    OneHeard([""], flags);
    NothingIsTaken();
    assert ps == [""] + ["close"];
    DeafMisses([""], "close", flags);
    NotedIsNamed(ps, flags);
    assert NamedIn(ps[1]) == ConnectionClose;
  }

  // ----- Transfer-Encoding

  const CHUNKED_CODING: seq<Octet> := "chunked"

  predicate KnowsCoding(m: Matcher, v: seq<Octet>) {
    if !SoFar(v, CHUNKED_CODING) then m.hs.General?
    else if |v| < 7 then m.hs.MatchingChunked? && m.index == |v| - 1
    else m.hs.Chunked?
  }

  lemma CodingLetters()
    ensures |CHUNKED_CODING| == 7 && CHUNKED_CODING[0] == 'c' && Word(MatchingChunked) == CHUNKED_CODING
  {
  }

  lemma KnowsCodingMore(m: Matcher, v: seq<Octet>, ch: Octet)
    requires KnowsCoding(m, v) && v != []
    ensures KnowsCoding(Next(m, ch), v + [ch])
  {
    hide Lower, SoFar, CHUNKED_CODING, Word;
    CodingLetters();
    SoFarMore(v, CHUNKED_CODING, ch);
  }

  lemma KnowsFirstOfCoding(flags: Flags, ch: Octet)
    ensures KnowsCoding(Matcher(ValueInitial(TransferEncoding, Lower(ch)), 0, flags), [ch])
  {
    hide Lower, CHUNKED_CODING;
    LowersOne(ch);
    CodingLetters();
  }

  lemma {:induction false} CodingKnown(v: seq<Octet>, flags: Flags)
    requires v != []
    ensures KnowsCoding(Matched(TransferEncoding, flags, v), v) && Matched(TransferEncoding, flags, v).flags == flags
  {
    hide KnowsCoding, Next, Lower, ValueInitial;
    var init, ch := v[..|v| - 1], v[|v| - 1];
    assert v == init + [ch];
    if init == [] {
      assert v == [ch];
      MatchedOne(TransferEncoding, flags, ch);
      KnowsFirstOfCoding(flags, ch);
    } else {
      CodingKnown(init, flags);
      var m := Matched(TransferEncoding, flags, init);
      MatchedMore(TransferEncoding, flags, init, [ch]);
      MatchOne(m, ch);
      KnowsCodingMore(m, init, ch);
      CodingKeepsFlags(m, init, ch);
    }
  }

  lemma CodingKeepsFlags(m: Matcher, v: seq<Octet>, ch: Octet)
    requires KnowsCoding(m, v)
    ensures Next(m, ch).flags == m.flags
  {
    hide Lower, SoFar, MatchChar;
    MatchCharIs(m.hs, m.index + 1, Lower(ch));
  }

  // The chunked flag is set exactly by "chunked" in any case, with or without
  // spaces behind; a list of codings that ends in it does not do.
  lemma ChunkedRecogniser(v: seq<Octet>, flags: Flags)
    requires v != []
    ensures Settled(Matched(TransferEncoding, flags, v)) == flags.(chunked := flags.chunked || IsWord(v, CHUNKED_CODING))
  {
    hide Lowers, Matched;
    CodingKnown(v, flags);
    if |v| < 7 {
      assert !IsWord(v, CHUNKED_CODING);
    }
  }

  // ----- The header line as a whole

  // Once the line is over, the parser goes on with the flags that are settled.
  lemma OptionsSet(c: Config, v: seq<Octet>, ch: Octet)
    requires AtValue(c) && LegalValue(v) && c.ps.nread + |v| + 2 < MAX_HEADER_SIZE && ch != ' ' && ch != TAB
    ensures var m := Matched(c.ps.headerState, c.ps.flags, v);
            var d := Run(c, v + CRLF);
            d.Go? &&
            Step(d, ch) == Dispatch(c.ps.(state := InHeader(FieldStart), headerState := m.hs, index := m.index, flags := Settled(m),
                                          nread := c.ps.nread + |v| + 3),
                                    Emit(c.tr, Data(Value, v)), Outer, ch, d.pos)
  {
    hide Step, Emit, Dispatch, Matched, NoteOption, Run;
    RunValue(c, v);
    var b := Run(c, v);
    HttpRequest.RunValueEnd(b);
    RunConcat(c, v, CRLF);
    var d := Run(c, v + CRLF);
    StepNext(d.ps, d.tr, d.lane, d.pos, ch);
    DispatchOnce(d.ps.(nread := d.ps.nread + 1), d.tr, d.lane, ch, d.pos);
  }

  // Connection options: for every legal value, the flags behind it are those
  // that its elements are heard to ask for.
  lemma ConnectionOptions(c: Config, v: seq<Octet>, ch: Octet)
    requires AtValue(c) && c.ps.headerState.Connection? && LegalValue(v) && ch != ' ' && ch != TAB
    requires c.ps.nread + |v| + 2 < MAX_HEADER_SIZE
    ensures var m := Matched(Connection, c.ps.flags, v);
            var d := Run(c, v + CRLF);
            d.Go? &&
            Step(d, ch) == Dispatch(c.ps.(state := InHeader(FieldStart), headerState := m.hs, index := m.index,
                                          flags := Heard(Pieces(v), c.ps.flags), nread := c.ps.nread + |v| + 3),
                                    Emit(c.tr, Data(Value, v)), Outer, ch, d.pos)
  {
    hide Step, Emit, Dispatch, Matched, Settled, Run, Hears, Heard, HearingAt, Pieces, Joined, IsHeaderChar;
    LegalHasNoNul(v);
    PiecesJoin(v);
    PiecesHaveNoComma(v);
    FirstPiece(v);
    var ps := Pieces(v);
    ListHeard(ps, c.ps.flags);
    HeardIsSettled(Matched(Connection, c.ps.flags, v), HearingAt(ps), Heard(ps, c.ps.flags));
    OptionsSet(c, v, ch);
  }

  lemma LegalHasNoNul(v: seq<Octet>)
    requires LegalValue(v)
    ensures forall k :: 0 <= k < |v| ==> v[k] != NUL
  {
  }
}
