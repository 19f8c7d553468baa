// Exactly which authorities are accepted: a grammar, and the automaton of
// http_parse_host proved to accept its words and no others.
module HttpHostGrammar {
  import opened HttpChars
  import opened HttpMachine
  import opened HttpTypes
  import opened HttpLengths
  import opened HttpUrl
  import opened HttpUrlTrip

  // The zone with its '%', the port with its ':'
  datatype Auth = Auth(userinfo: seq<Octet>, at: bool, open: bool, host: seq<Octet>, zone: seq<Octet>, close: bool,
                       port: seq<Octet>)

  const NO_AUTH := Auth([], false, false, [], [], false, [])

  predicate UserinfoOk(w: seq<Octet>) {
    forall k :: 0 <= k < |w| ==> IsUserinfoChar(w[k])
  }

  predicate HostOk(w: seq<Octet>, address: bool) {
    forall k :: 0 <= k < |w| ==> if address then IsHex(w[k]) || w[k] == ':' || w[k] == '.' else IsHostChar(w[k])
  }

  predicate ZoneOk(w: seq<Octet>) {
    w != [] ==> w[0] == '%' && forall k :: 0 < k < |w| ==> IsZoneChar(w[k])
  }

  predicate PortOk(w: seq<Octet>) {
    w != [] ==> w[0] == ':' && forall k :: 0 < k < |w| ==> IsNum(w[k])
  }

  predicate AuthSpelled(a: Auth) {
    UserinfoOk(a.userinfo) && HostOk(a.host, a.open) && ZoneOk(a.zone) && PortOk(a.port)
  }

  function AuthWritten(a: Auth): seq<Octet> {
    a.userinfo + (if a.at then ['@'] else []) + (if a.open then ['['] else []) + a.host + a.zone +
    (if a.close then [']'] else []) + a.port
  }

  // Which parts have been begun in a state
  predicate HostBegun(a: Auth, s: HostState, foundAt: bool) {
    var none := a.host == [] && a.zone == [] && !a.close && a.port == [];
    && (if s.UserinfoStart? || s.UserinfoText? then foundAt && !a.at else a.at == foundAt)
    && (!foundAt ==> a.userinfo == [])
    && match s
       case UserinfoStart => a == NO_AUTH
       case UserinfoText => a.userinfo != [] && !a.open && none
       case HostStart => !a.open && none
       case HostV6Start => a.open && none
       case HostName => !a.open && a.host != [] && a.zone == [] && !a.close && a.port == []
       case HostV6 => a.open && a.host != [] && a.zone == [] && !a.close && a.port == []
       case HostV6ZoneStart => a.open && a.host != [] && a.zone == ['%'] && !a.close && a.port == []
       case HostV6Zone => a.open && a.host != [] && |a.zone| >= 2 && !a.close && a.port == []
       case HostV6End => a.open && a.host != [] && |a.zone| != 1 && a.close && a.port == []
       case HostPortStart => HostIsWhole(a) && a.port == [':']
       case HostPort => HostIsWhole(a) && |a.port| >= 2
       case HostDead => false
  }

  // A name, or an address in brackets, with or without a zone
  predicate HostIsWhole(a: Auth) {
    a.host != [] && (if a.open then |a.zone| != 1 && a.close else a.zone == [] && !a.close)
  }

  predicate HostShape(a: Auth, s: HostState, foundAt: bool, h: seq<Octet>) {
    AuthSpelled(a) && HostBegun(a, s, foundAt) && h == AuthWritten(a)
  }

  function HostPut(a: Auth, s: HostState, ch: Octet): Auth {
    match s
    case UserinfoText => a.(userinfo := a.userinfo + [ch])
    case HostStart => a.(at := true)
    case HostV6Start => a.(open := true)
    case HostName => a.(host := a.host + [ch])
    case HostV6 => a.(host := a.host + [ch])
    case HostV6ZoneStart => a.(zone := a.zone + [ch])
    case HostV6Zone => a.(zone := a.zone + [ch])
    case HostV6End => a.(close := true)
    case HostPortStart => a.(port := a.port + [ch])
    case HostPort => a.(port := a.port + [ch])
    case _ => a
  }

  // What a byte must be to lead from state to state
  predicate HostLeads(s: HostState, ch: Octet, next: HostState) {
    match next
    case UserinfoStart => false
    case HostDead => false
    case UserinfoText => (s == UserinfoStart || s == UserinfoText) && IsUserinfoChar(ch)
    case HostStart => (s == UserinfoStart || s == UserinfoText) && ch == '@'
    case HostV6Start => s == HostStart && ch == '['
    case HostName => (s == HostStart || s == HostName) && IsHostChar(ch)
    case HostV6 => (s == HostV6Start || s == HostV6) && (IsHex(ch) || ch == ':' || ch == '.')
    case HostV6ZoneStart => s == HostV6 && ch == '%'
    case HostV6Zone => (s == HostV6ZoneStart || s == HostV6Zone) && IsZoneChar(ch)
    case HostV6End => (s == HostV6 || s == HostV6Zone) && ch == ']'
    case HostPortStart => (s == HostName || s == HostV6End) && ch == ':'
    case HostPort => (s == HostPortStart || s == HostPort) && IsNum(ch)
  }

  // The automaton moves exactly so.
  lemma HostCharLeads(s: HostState, ch: Octet, next: HostState)
    ensures !next.HostDead? ==> (HostChar(s, ch) == next <==> HostLeads(s, ch, next))
  {
  }

  // ----- From the state to the parts

  // Behind each part the others are empty.
  lemma PortLast(a: Auth, ch: Octet)
    ensures AuthWritten(a.(port := a.port + [ch])) == AuthWritten(a) + [ch]
  {
  }

  lemma CloseLast(a: Auth)
    requires !a.close && a.port == []
    ensures AuthWritten(a.(close := true)) == AuthWritten(a) + [']']
  {
  }

  lemma ZoneLast(a: Auth, ch: Octet)
    requires !a.close && a.port == []
    ensures AuthWritten(a.(zone := a.zone + [ch])) == AuthWritten(a) + [ch]
    ensures a.zone == [] ==> AuthWritten(a.(host := a.host + [ch])) == AuthWritten(a) + [ch]
  {
  }

  lemma FrontLast(a: Auth, ch: Octet)
    requires !a.open && a.host == [] && a.zone == [] && !a.close && a.port == []
    ensures AuthWritten(a.(open := true)) == AuthWritten(a) + ['[']
    ensures !a.at ==> AuthWritten(a.(at := true)) == AuthWritten(a) + ['@']
    ensures !a.at ==> AuthWritten(a.(userinfo := a.userinfo + [ch])) == AuthWritten(a) + [ch]
  {
  }

  // Where a byte is put, it is the last.
  lemma PutIsLast(a: Auth, s: HostState, ch: Octet, next: HostState, foundAt: bool)
    requires HostBegun(a, s, foundAt) && HostLeads(s, ch, next)
    ensures AuthWritten(HostPut(a, next, ch)) == AuthWritten(a) + [ch]
  {
    hide IsUserinfoChar, IsHostChar, IsHex, IsZoneChar, IsNum, AuthWritten;
    match next {
      case HostPort => PortLast(a, ch);
      case HostPortStart => PortLast(a, ch);
      case HostV6End => CloseLast(a);
      case HostV6Zone => ZoneLast(a, ch);
      case HostV6ZoneStart => ZoneLast(a, ch);
      case HostV6 => ZoneLast(a, ch);
      case HostName => ZoneLast(a, ch);
      case _ => FrontLast(a, ch);
    }
  }

  lemma PutIsBegun(a: Auth, s: HostState, ch: Octet, next: HostState, foundAt: bool)
    requires HostBegun(a, s, foundAt) && HostLeads(s, ch, next)
    ensures HostBegun(HostPut(a, next, ch), next, foundAt)
  {
    hide IsUserinfoChar, IsHostChar, IsHex, IsZoneChar, IsNum;
  }

  lemma PutIsSpelled(a: Auth, s: HostState, ch: Octet, next: HostState, foundAt: bool)
    requires AuthSpelled(a) && HostBegun(a, s, foundAt) && HostLeads(s, ch, next)
    ensures AuthSpelled(HostPut(a, next, ch))
  {
    hide IsUserinfoChar, IsHostChar, IsHex, IsZoneChar, IsNum, UserinfoOk, HostOk, ZoneOk, PortOk;
    SpelledMore(a, ch);
  }

  lemma SpelledMore(a: Auth, ch: Octet)
    ensures UserinfoOk(a.userinfo) && IsUserinfoChar(ch) ==> UserinfoOk(a.userinfo + [ch])
    ensures HostOk(a.host, false) && IsHostChar(ch) ==> HostOk(a.host + [ch], false)
    ensures HostOk(a.host, true) && (IsHex(ch) || ch == ':' || ch == '.') ==> HostOk(a.host + [ch], true)
    ensures ZoneOk(a.zone) && (if a.zone == [] then ch == '%' else IsZoneChar(ch)) ==> ZoneOk(a.zone + [ch])
    ensures PortOk(a.port) && (if a.port == [] then ch == ':' else IsNum(ch)) ==> PortOk(a.port + [ch])
    ensures HostOk([], true) && HostOk([], false)
  {
    hide IsUserinfoChar, IsHostChar, IsHex, IsZoneChar, IsNum;
  }

  function AuthOf(h: seq<Octet>, foundAt: bool): Auth {
    if h == [] then NO_AUTH else HostPut(AuthOf(h[..|h| - 1], foundAt), HostScan(h, foundAt), h[|h| - 1])
  }

  lemma DeadForGood(s: HostState, ch: Octet)
    ensures s.HostDead? ==> HostChar(s, ch).HostDead?
  {
  }

  lemma {:induction false} ScannedHasParts(h: seq<Octet>, foundAt: bool)
    requires !HostScan(h, foundAt).HostDead?
    ensures HostShape(AuthOf(h, foundAt), HostScan(h, foundAt), foundAt, h)
  {
    hide HostChar, HostPut, HostBegun, AuthSpelled, AuthWritten, HostLeads;
    if h == [] {
      NothingHosted(foundAt);
    } else {
      var init, ch := h[..|h| - 1], h[|h| - 1];
      var s, next, a := HostScan(init, foundAt), HostScan(h, foundAt), AuthOf(init, foundAt);
      DeadForGood(s, ch);
      ScannedHasParts(init, foundAt);
      HostCharLeads(s, ch, next);
      PutIsLast(a, s, ch, next, foundAt);
      PutIsBegun(a, s, ch, next, foundAt);
      PutIsSpelled(a, s, ch, next, foundAt);
      assert init + [ch] == h;
    }
  }

  lemma NothingHosted(foundAt: bool)
    ensures HostShape(NO_AUTH, if foundAt then UserinfoStart else HostStart, foundAt, [])
  {
  }

  // ----- From the parts to the state

  predicate AuthOk(a: Auth) {
    AuthSpelled(a) && HostIsWhole(a) && |a.port| != 1 && (!a.at ==> a.userinfo == [])
  }

  // The last byte of a part fits, and so does what is before it.
  lemma SpelledLess(a: Auth)
    requires AuthSpelled(a)
    ensures a.userinfo != [] ==> UserinfoOk(a.userinfo[..|a.userinfo| - 1]) && IsUserinfoChar(a.userinfo[|a.userinfo| - 1])
    ensures a.host != [] ==>
              var ch := a.host[|a.host| - 1];
              && HostOk(a.host[..|a.host| - 1], a.open)
              && if a.open then IsHex(ch) || ch == ':' || ch == '.' else IsHostChar(ch)
    ensures |a.zone| > 1 ==>
              && ZoneOk(a.zone[..|a.zone| - 1]) && IsZoneChar(a.zone[|a.zone| - 1])
              && (|a.zone| == 2 ==> a.zone[..1] == ['%'])
    ensures |a.port| > 1 ==>
              && PortOk(a.port[..|a.port| - 1]) && IsNum(a.port[|a.port| - 1])
              && (|a.port| == 2 ==> a.port[..1] == [':'])
    ensures ZoneOk([]) && PortOk([]) && HostOk([], true) && HostOk([], false)
  {
    hide IsUserinfoChar, IsHostChar, IsHex, IsZoneChar, IsNum;
  }

  // What was there before the last byte, and that byte
  lemma PreviousFront(a: Auth, s: HostState, foundAt: bool) returns (a0: Auth, s0: HostState, ch: Octet)
    requires AuthSpelled(a) && HostBegun(a, s, foundAt) && !(s.HostStart? && !foundAt)
    requires s.UserinfoText? || s.HostStart? || s.HostV6Start? || s.HostName? || s.HostV6?
    ensures AuthSpelled(a0) && HostBegun(a0, s0, foundAt) && HostLeads(s0, ch, s) && HostPut(a0, s, ch) == a
  {
    hide IsUserinfoChar, IsHostChar, IsHex, IsZoneChar, IsNum, UserinfoOk, HostOk, ZoneOk, PortOk;
    SpelledLess(a);
    if s.UserinfoText? {
      var init := a.userinfo[..|a.userinfo| - 1];
      a0, s0, ch := a.(userinfo := init), if init == [] then UserinfoStart else UserinfoText, a.userinfo[|a.userinfo| - 1];
      assert init + [ch] == a.userinfo;
    } else if s.HostStart? {
      a0, s0, ch := a.(at := false), if a.userinfo == [] then UserinfoStart else UserinfoText, '@';
    } else if s.HostV6Start? {
      a0, s0, ch := a.(open := false), HostStart, '[';
    } else {
      var init := a.host[..|a.host| - 1];
      var start := if a.open then HostV6Start else HostStart;
      a0, s0, ch := a.(host := init), if init == [] then start else s, a.host[|a.host| - 1];
      assert init + [ch] == a.host;
    }
  }

  lemma PreviousZone(a: Auth, s: HostState, foundAt: bool) returns (a0: Auth, s0: HostState, ch: Octet)
    requires AuthSpelled(a) && HostBegun(a, s, foundAt) && (s.HostV6ZoneStart? || s.HostV6Zone? || s.HostV6End?)
    ensures AuthSpelled(a0) && HostBegun(a0, s0, foundAt) && HostLeads(s0, ch, s) && HostPut(a0, s, ch) == a
  {
    hide IsUserinfoChar, IsHostChar, IsHex, IsZoneChar, IsNum, UserinfoOk, HostOk, ZoneOk, PortOk;
    SpelledLess(a);
    if s.HostV6ZoneStart? {
      a0, s0, ch := a.(zone := []), HostV6, '%';
    } else if s.HostV6Zone? {
      var init := a.zone[..|a.zone| - 1];
      a0, s0, ch := a.(zone := init), if |init| == 1 then HostV6ZoneStart else HostV6Zone, a.zone[|a.zone| - 1];
      assert init + [ch] == a.zone;
    } else {
      a0, s0, ch := a.(close := false), if a.zone == [] then HostV6 else HostV6Zone, ']';
    }
  }

  lemma PreviousPort(a: Auth, s: HostState, foundAt: bool) returns (a0: Auth, s0: HostState, ch: Octet)
    requires AuthSpelled(a) && HostBegun(a, s, foundAt) && (s.HostPortStart? || s.HostPort?)
    ensures AuthSpelled(a0) && HostBegun(a0, s0, foundAt) && HostLeads(s0, ch, s) && HostPut(a0, s, ch) == a
  {
    hide IsUserinfoChar, IsHostChar, IsHex, IsZoneChar, IsNum, UserinfoOk, HostOk, ZoneOk, PortOk;
    SpelledLess(a);
    if s.HostPortStart? {
      a0, s0, ch := a.(port := []), if a.open then HostV6End else HostName, ':';
    } else {
      var init := a.port[..|a.port| - 1];
      a0, s0, ch := a.(port := init), if |init| == 1 then HostPortStart else HostPort, a.port[|a.port| - 1];
      assert init + [ch] == a.port;
    }
  }

  lemma HostSnoc(h: seq<Octet>, ch: Octet, foundAt: bool)
    ensures HostScan(h + [ch], foundAt) == HostChar(HostScan(h, foundAt), ch)
    ensures AuthOf(h + [ch], foundAt) == HostPut(AuthOf(h, foundAt), HostScan(h + [ch], foundAt), ch)
  {
    assert (h + [ch])[..|h|] == h;
  }

  // The automaton reads every word into the state of its parts, and takes it
  // apart into these parts.
  lemma {:induction false} AuthReads(a: Auth, s: HostState, foundAt: bool)
    requires AuthSpelled(a) && HostBegun(a, s, foundAt)
    ensures HostScan(AuthWritten(a), foundAt) == s && AuthOf(AuthWritten(a), foundAt) == a
    decreases |AuthWritten(a)|
  {
    hide HostScan, HostChar, HostPut, HostBegun, AuthSpelled, AuthWritten, HostLeads, AuthOf;
    if s.UserinfoStart? || (s.HostStart? && !foundAt) {
      StartIsEmpty(a, s, foundAt);
    } else {
      var a0, s0, ch;
      if s.UserinfoText? || s.HostStart? || s.HostV6Start? || s.HostName? || s.HostV6? {
        a0, s0, ch := PreviousFront(a, s, foundAt);
      } else if s.HostPortStart? || s.HostPort? {
        a0, s0, ch := PreviousPort(a, s, foundAt);
      } else {
        BackOrDead(a, s, foundAt);
        a0, s0, ch := PreviousZone(a, s, foundAt);
      }
      PutIsLast(a0, s0, ch, s, foundAt);
      AuthReads(a0, s0, foundAt);
      HostSnoc(AuthWritten(a0), ch, foundAt);
      LeadsAlive(s0, ch, s);
      HostCharLeads(s0, ch, s);
    }
  }

  lemma BackOrDead(a: Auth, s: HostState, foundAt: bool)
    ensures HostBegun(a, s, foundAt) ==> !s.HostDead?
  {
  }

  lemma LeadsAlive(s: HostState, ch: Octet, next: HostState)
    requires HostLeads(s, ch, next)
    ensures !next.HostDead?
  {
  }

  lemma StartIsEmpty(a: Auth, s: HostState, foundAt: bool)
    requires HostBegun(a, s, foundAt) && (s.UserinfoStart? || (s.HostStart? && !foundAt))
    ensures a == NO_AUTH && AuthWritten(a) == [] && HostScan([], foundAt) == s && AuthOf([], foundAt) == NO_AUTH
  {
  }

  // ----- The language

  function EndState(a: Auth): HostState {
    if a.port != [] then HostPort else if a.open then HostV6End else HostName
  }

  lemma OkIsBegun(a: Auth)
    requires AuthOk(a)
    ensures HostBegun(a, EndState(a), a.at)
  {
  }

  lemma AcceptedIsOk(a: Auth, s: HostState, foundAt: bool)
    requires AuthSpelled(a) && HostBegun(a, s, foundAt) && (s.HostName? || s.HostV6End? || s.HostPort?)
    ensures AuthOk(a) && a.at == foundAt
  {
  }

  // Accepted are exactly the words of the grammar.
  lemma AuthExactly(h: seq<Octet>, foundAt: bool)
    ensures HostAccepted(h, foundAt) <==> exists a :: AuthOk(a) && a.at == foundAt && AuthWritten(a) == h
  {
    hide HostScan, HostBegun, AuthSpelled, AuthWritten, AuthOf, AuthOk;
    if HostAccepted(h, foundAt) {
      ScannedHasParts(h, foundAt);
      AcceptedIsOk(AuthOf(h, foundAt), HostScan(h, foundAt), foundAt);
    }
    forall a | AuthOk(a) && a.at == foundAt && AuthWritten(a) == h ensures HostAccepted(h, foundAt) {
      OkReads(a);
    }
  }

  lemma OkReads(a: Auth)
    requires AuthOk(a)
    ensures HostScan(AuthWritten(a), a.at) == EndState(a) && HostAccepted(AuthWritten(a), a.at)
    ensures AuthOf(AuthWritten(a), a.at) == a && AuthSpelled(a)
  {
    hide HostScan, HostBegun, AuthWritten, AuthOf, AuthSpelled;
    OkIsBegun(a);
    AuthReads(a, EndState(a), a.at);
  }

  // ----- Where the parts stand

  function AuthBefore(a: Auth, r: int): nat {
    var start := |a.userinfo| + (if a.at then 1 else 0) + if a.open then 1 else 0;
    var end := start + |a.host| + |a.zone|;
    if r <= 1 then 0
    else if r == 2 then |a.userinfo|
    else if r == 3 then |a.userinfo| + if a.at then 1 else 0
    else if r == 4 then start
    else if r == 5 then end
    else if r == 6 then end + if a.close then 1 else 0
    else if r == 7 then end + (if a.close then 1 else 0) + if a.port == [] then 0 else 1
    else end + (if a.close then 1 else 0) + |a.port|
  }

  lemma AllAuthBefore(a: Auth, s: HostState, foundAt: bool, r: int)
    requires HostBegun(a, s, foundAt) && HostRank(s) < r && r <= 8
    ensures AuthBefore(a, r) == |AuthWritten(a)|
  {
  }

  lemma SameAuthBefore(a: Auth, s: HostState, ch: Octet, next: HostState, foundAt: bool, r: int)
    requires HostBegun(a, s, foundAt) && HostLeads(s, ch, next) && r <= HostRank(next)
    ensures AuthBefore(HostPut(a, next, ch), r) == AuthBefore(a, r)
  {
    hide IsUserinfoChar, IsHostChar, IsHex, IsZoneChar, IsNum;
  }

  lemma {:induction false} AuthIsCounted(h: seq<Octet>, foundAt: bool, r: int)
    requires !HostScan(h, foundAt).HostDead? && r <= 8
    ensures HostBelow(h, foundAt, r) == AuthBefore(AuthOf(h, foundAt), r)
  {
    hide HostChar, HostPut, HostBegun, AuthSpelled, AuthWritten, HostLeads, AuthBefore, HostRank;
    ScannedHasParts(h, foundAt);
    if h == [] {
      NothingCounted(r);
    } else {
      var init, ch := h[..|h| - 1], h[|h| - 1];
      DeadForGood(HostScan(init, foundAt), ch);
      if HostRank(HostScan(h, foundAt)) < r {
        AllAuthBefore(AuthOf(h, foundAt), HostScan(h, foundAt), foundAt, r);
      } else {
        AuthIsCounted(init, foundAt, r);
        ScannedHasParts(init, foundAt);
        HostCharLeads(HostScan(init, foundAt), ch, HostScan(h, foundAt));
        SameAuthBefore(AuthOf(init, foundAt), HostScan(init, foundAt), ch, HostScan(h, foundAt), foundAt, r);
      }
    }
  }

  lemma NothingCounted(r: int)
    ensures AuthBefore(NO_AUTH, r) == 0
  {
  }

  // The spans of the second pass are the parts, without delimiters.
  lemma AuthSpans(a: Auth)
    requires AuthOk(a)
    ensures var h, foundAt := AuthWritten(a), a.at;
            && HostBelow(h, foundAt, 1) == 0 && HostBelow(h, foundAt, 2) == |a.userinfo| <= |h|
            && h[0..|a.userinfo|] == a.userinfo
            && HostBelow(h, foundAt, 4) <= HostBelow(h, foundAt, 5) <= |h|
            && h[HostBelow(h, foundAt, 4)..HostBelow(h, foundAt, 5)] == a.host + a.zone
            && HostBelow(h, foundAt, 7) <= HostBelow(h, foundAt, 8) <= |h|
            && h[HostBelow(h, foundAt, 7)..HostBelow(h, foundAt, 8)] == (if a.port == [] then [] else a.port[1..])
  {
    hide HostScan, HostBelow, AuthOf, AuthSpelled, AuthOk, AuthWritten, AuthBefore;
    OkReads(a);
    var h := AuthWritten(a);
    AuthIsCounted(h, a.at, 1);
    AuthIsCounted(h, a.at, 2);
    AuthIsCounted(h, a.at, 4);
    AuthIsCounted(h, a.at, 5);
    AuthIsCounted(h, a.at, 7);
    AuthIsCounted(h, a.at, 8);
    AuthPlaces(a);
  }

  function AtPart(a: Auth): seq<Octet> { if a.at then ['@'] else [] }
  function OpenPart(a: Auth): seq<Octet> { if a.open then ['['] else [] }
  function ClosePart(a: Auth): seq<Octet> { if a.close then [']'] else [] }

  lemma AuthPlaces(a: Auth)
    ensures var h := AuthWritten(a);
            && AuthBefore(a, 1) == 0 && AuthBefore(a, 2) == |a.userinfo| <= |h| && h[0..|a.userinfo|] == a.userinfo
            && AuthBefore(a, 4) <= AuthBefore(a, 5) <= |h| && h[AuthBefore(a, 4)..AuthBefore(a, 5)] == a.host + a.zone
            && AuthBefore(a, 7) <= AuthBefore(a, 8) <= |h|
            && h[AuthBefore(a, 7)..AuthBefore(a, 8)] == (if a.port == [] then [] else a.port[1..])
  {
    hide AuthWritten, AuthBefore, AtPart, OpenPart, ClosePart;
    AuthRegrouped(a);
    var h := AuthWritten(a);
    assert AuthBefore(a, 8) == |h|;
    AuthCuts(a.userinfo, AtPart(a), OpenPart(a), a.host + a.zone, ClosePart(a), a.port);
  }

  lemma AuthRegrouped(a: Auth)
    ensures AuthWritten(a) == a.userinfo + AtPart(a) + OpenPart(a) + (a.host + a.zone) + ClosePart(a) + a.port
    ensures AuthBefore(a, 1) == 0 && AuthBefore(a, 2) == |a.userinfo|
    ensures AuthBefore(a, 4) == |a.userinfo| + |AtPart(a)| + |OpenPart(a)|
    ensures AuthBefore(a, 5) == AuthBefore(a, 4) + |a.host + a.zone|
    ensures AuthBefore(a, 8) == AuthBefore(a, 5) + |ClosePart(a)| + |a.port|
    ensures AuthBefore(a, 7) == AuthBefore(a, 8) - if a.port == [] then 0 else |a.port| - 1
  {
    var front := a.userinfo + AtPart(a) + OpenPart(a);
    assert front + a.host + a.zone == front + (a.host + a.zone);
  }

  lemma AuthCuts(userinfo: seq<Octet>, at: seq<Octet>, open: seq<Octet>, host: seq<Octet>, close: seq<Octet>, port: seq<Octet>)
    ensures var h, lo := userinfo + at + open + host + close + port, |userinfo| + |at| + |open|;
            && h[0..|userinfo|] == userinfo && h[lo..lo + |host|] == host
            && |h| == lo + |host| + |close| + |port|
            && (port != [] ==> h[|h| - |port| + 1..|h|] == port[1..])
  {
  }
}
