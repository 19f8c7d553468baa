// The header budget: what the count in `nread` says about the bytes consumed.
module HttpBudget {
  import opened HttpChars
  import opened HttpTypes
  import opened HttpMachine
  import opened HttpBulk
  import opened HttpInvariant
  import opened HttpSplit
  import opened HttpGrammar

  // What was consumed since the count was last reset: bytes of header sections
  // or chunk size lines, ends of calls, and those of them that came inside an inner loop
  datatype Account = Account(bytes: nat, calls: nat, inside: nat)

  const FRESH := Account(0, 0, 0)

  // Whether looking at a byte passes one of the states that reset the count.
  predicate ByteResets(ps: Parser, tr: seq<Event>, unchecked: bool, ch: Octet)
    decreases Looks(ps.state)
  {
    var act := Look(ps, tr, unchecked, ch);
    Resets(ps.state) ||
    (act.Again? && (LookingAgainTerminates(ps, tr, unchecked, ch); ByteResets(act.ps, act.tr, false, ch)))
  }

  function AccountByte(c: Config, ch: Octet, a: Account): Account {
    if !c.Go? || Step(c, ch).Bad? then a
    else if ByteResets(c.ps, c.tr, c.lane.Skipping?, ch) then FRESH
    else if ParsingHeader(c.ps.state) then a.(bytes := a.bytes + 1)
    else a
  }

  function AccountRun(c: Config, d: seq<Octet>, a: Account): Account {
    if d == [] then a
    else
      var init := d[..|d| - 1];
      AccountByte(Run(c, init), d[|d| - 1], AccountRun(c, init, a))
  }

  // The account after a sequence of calls on a fresh parser
  function AccountFeed(ps: Parser, tr: seq<Event>, ds: seq<seq<Octet>>): Account {
    if ds == [] then FRESH
    else
      var init := ds[..|ds| - 1];
      var c := Feed(ps, tr, init);
      if c.Bad? then AccountFeed(ps, tr, init)
      else AccountCall(c.ps, c.tr, ds[|ds| - 1], AccountFeed(ps, tr, init))
  }

  function AccountCall(ps: Parser, tr: seq<Event>, d: seq<Octet>, a: Account): Account {
    var b := AccountRun(Begin(ps, tr), d, a);
    var c := Run(Begin(ps, tr), d);
    if Finish(c).Bad? then b
    else b.(calls := b.calls + 1, inside := b.inside + if c.Go? && !c.lane.Outer? then 1 else 0)
  }

  predicate Balanced(c: Config, a: Account) {
    a.inside <= a.calls && (!c.Bad? ==> c.ps.nread == a.bytes + a.inside <= MAX_HEADER_SIZE)
  }

  // Where the parser stops for its budget, the account has used it up.
  predicate Explained(c: Config, a: Account) {
    c.Bad? && c.e == HeaderOverflow ==> a.bytes + a.inside == MAX_HEADER_SIZE
  }

  lemma HeaderNeverOverflows(ps: Parser, tr: seq<Event>, unchecked: bool, ch: Octet)
    requires ps.state.InHeader?
    ensures HeaderStep(ps, tr, unchecked, ch) != Err(HeaderOverflow)
  {
    hide Emit, FieldMatch, ValueMatch, Token, IsNum, DigitValue, MoreDigits, IsHeaderChar, Lower, NoteOption, FramingOf,
         CompletedParser, CompletedTrace, FieldInitial, ValueInitial;
  }

  lemma LineNeverOverflows(ps: Parser, tr: seq<Event>, ch: Octet)
    ensures ps.state.ResponseLine? ==> ResponseLineStep(ps, tr, ch) != Err(HeaderOverflow)
    ensures ps.state.RequestVersion? ==> RequestVersionStep(ps, tr, ch) != Err(HeaderOverflow)
  {
    hide Emit, IsNum, DigitValue, MoreDigits;
  }

  lemma LookNeverOverflows(ps: Parser, tr: seq<Event>, unchecked: bool, ch: Octet)
    ensures Look(ps, tr, unchecked, ch) != Err(HeaderOverflow)
  {
    hide Emit, MethodSwitch, MethodGuess, MethodName, CharAt, UrlChar, FirstUrlChar, BeforeHost, Unhex, HeaderStep,
         ResponseLineStep, RequestVersionStep, CompletedParser, CompletedTrace;
    LineNeverOverflows(ps, tr, ch);
    if ps.state.InHeader? {
      HeaderNeverOverflows(ps, tr, unchecked, ch);
    }
  }

  lemma {:induction false} DispatchTally(ps: Parser, tr: seq<Event>, lane: Lane, ch: Octet, pos: nat)
    ensures var d := Dispatch(ps, tr, lane, ch, pos);
            && (!d.Bad? ==> d.ps.nread == if ByteResets(ps, tr, lane.Skipping?, ch) then 0 else ps.nread)
            && (d.Bad? ==> d.e != HeaderOverflow)
    decreases Looks(ps.state)
  {
    hide Look, Looks, Dispatch, Resets;
    DispatchOnce(ps, tr, lane, ch, pos);
    LookNeverOverflows(ps, tr, lane.Skipping?, ch);
    var act := Look(ps, tr, lane.Skipping?, ch);
    if Resets(ps.state) {
      ResetIgnoresCount(ps, ps.nread, tr, lane.Skipping?, ch);
    } else {
      CountIsKept(ps, tr, lane.Skipping?, ch);
      if act.Again? {
        LookingAgainTerminates(ps, tr, lane.Skipping?, ch);
        DispatchTally(act.ps, act.tr, Outer, ch, pos);
      }
    }
  }

  // Counting a byte does not change what it does.
  lemma {:induction false} ResetsIgnoreCount(ps: Parser, n: nat, tr: seq<Event>, unchecked: bool, ch: Octet)
    ensures ByteResets(ps.(nread := n), tr, unchecked, ch) == ByteResets(ps, tr, unchecked, ch)
    decreases Looks(ps.state)
  {
    hide Look, Looks, Resets;
    if !Resets(ps.state) {
      LookIgnoresCount(ps, n, tr, unchecked, ch);
      var act := Look(ps, tr, unchecked, ch);
      if act.Again? {
        LookingAgainTerminates(ps, tr, unchecked, ch);
        ResetsIgnoreCount(act.ps, n, act.tr, false, ch);
      }
    }
  }

  lemma StepBalances(c: Config, ch: Octet, a: Account)
    requires c.Go? && Balanced(c, a)
    ensures Balanced(Step(c, ch), AccountByte(c, ch, a)) && Explained(Step(c, ch), AccountByte(c, ch, a))
  {
    hide Dispatch, ByteResets;
    var n := if ParsingHeader(c.ps.state) then c.ps.nread + 1 else c.ps.nread;
    ResetsIgnoreCount(c.ps, n, c.tr, c.lane.Skipping?, ch);
    assert c.ps.(nread := c.ps.nread) == c.ps;
    DispatchTally(c.ps.(nread := n), c.tr, c.lane, ch, c.pos);
  }

  lemma {:induction false} RunBalances(c: Config, d: seq<Octet>, a: Account)
    requires c.Go? && Balanced(c, a)
    ensures Balanced(Run(c, d), AccountRun(c, d, a)) && Explained(Run(c, d), AccountRun(c, d, a))
  {
    hide Step, ByteResets;
    if d != [] {
      var init, ch := d[..|d| - 1], d[|d| - 1];
      RunBalances(c, init, a);
      var r := Run(c, init);
      if r.Go? {
        StepBalances(r, ch, AccountRun(c, init, a));
      } else {
        StopsAt(r, ch);
      }
    }
  }

  lemma StopsAt(c: Config, ch: Octet)
    requires !c.Go?
    ensures Step(c, ch) == c
  {
    hide Dispatch;
  }

  lemma CallBalances(ps: Parser, tr: seq<Event>, d: seq<Octet>, a: Account)
    requires Balanced(Begin(ps, tr), a)
    ensures Balanced(Call(ps, tr, d), AccountCall(ps, tr, d, a)) && Explained(Call(ps, tr, d), AccountCall(ps, tr, d, a))
  {
    hide Run, AccountRun;
    RunBalances(Begin(ps, tr), d, a);
  }

  // Header budget: however the bytes are handed over, the count is the bytes
  // consumed since its last reset and one for each call that ended inside an
  // inner loop; the parser runs while that is within the limit, and it is
  // stopped for the limit only with the limit used up.
  lemma {:induction false} HeaderBudget(kind: ParserType, settings: Settings, ds: seq<seq<Octet>>)
    ensures var ps := Init(kind, settings);
            var c, a := Feed(ps, [], ds), AccountFeed(ps, [], ds);
            && a.inside <= a.calls
            && (!c.Bad? ==> Resting(c.ps) && c.ps.nread == a.bytes + a.inside <= MAX_HEADER_SIZE)
            && (c.Bad? && c.e == HeaderOverflow ==> a.bytes + a.inside == MAX_HEADER_SIZE)
  {
    hide Run, AccountCall, Call, StateOk;
    var ps := Init(kind, settings);
    if ds == [] {
      InitIsResting(kind, settings);
    } else {
      var init, d := ds[..|ds| - 1], ds[|ds| - 1];
      HeaderBudget(kind, settings, init);
      var c := Feed(ps, [], init);
      if !c.Bad? {
        CallBalances(c.ps, c.tr, d, AccountFeed(ps, [], init));
        CallKeepsInvariant(c.ps, c.tr, d);
      }
    }
  }
}
