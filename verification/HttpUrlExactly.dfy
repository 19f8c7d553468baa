// http_parser_parse_url accepts exactly the words of one grammar, for every
// byte string, and reports the parts of the word.
module HttpUrlExactly {
  import opened HttpChars
  import opened HttpMachine
  import opened HttpTypes
  import opened HttpLengths
  import opened HttpUrl
  import opened HttpUrlTrip
  import opened HttpUrlGrammar
  import opened HttpHostGrammar
  import HttpHead

  function PortDigits(a: Auth): seq<Octet> {
    if a.port == [] then [] else a.port[1..]
  }

  // A URL with a scheme has an authority, any other has none.
  predicate UrlOk(p: Parts, a: Auth) {
    && Spelled(p) && AuthWritten(a) == p.server
    && if p.scheme == [] then a == NO_AUTH else AuthOk(a) && DecimalValue(PortDigits(a)) <= MAX_PORT
  }

  // ----- The '@'

  lemma NoAtInside()
    ensures !IsUserinfoChar('@') && !IsHostChar('@') && !IsHex('@') && !IsZoneChar('@') && !IsNum('@')
  {
  }

  lemma PartsHaveNoAt(a: Auth)
    requires AuthSpelled(a)
    ensures '@' !in a.userinfo && '@' !in a.host && '@' !in a.zone && '@' !in a.port
  {
    hide IsUserinfoChar, IsHostChar, IsHex, IsZoneChar, IsNum;
    NoAtInside();
  }

  lemma AtIsWritten(a: Auth)
    requires AuthSpelled(a)
    ensures '@' in AuthWritten(a) <==> a.at
  {
    hide AuthSpelled;
    PartsHaveNoAt(a);
    if a.at {
      assert AuthWritten(a)[|a.userinfo|] == '@';
    }
  }

  // ----- What is accepted is spelled

  // Without a server, nothing that has a scheme is accepted.
  lemma ServerIsNeeded(b: seq<Octet>)
    requires Accepted(b, false)
    ensures var p := PartsOf(b); Shape(p, Scan(b, false), b) && (p.scheme != [] ==> p.server != [])
  {
    hide Scan, Below, PartsOf, HostAccepted, Spelled, Begun, Front, Authority;
    var p, s := PartsOf(b), Scan(b, false);
    ScannedHasShape(b);
    PartsAreCounted(b, 0);
    PartsAreCounted(b, 1);
    PartsAreCounted(b, 4);
    PartsAreCounted(b, 5);
  }

  lemma ServerIsBehindFront(p: Parts, s: Scanned, b: seq<Octet>)
    requires Shape(p, s, b) && (p.scheme != [] ==> p.server != [])
    ensures b == Written(p) && Spelled(p)
  {
    hide Spelled, EndsWithAt, AllHashes;
    if p.server != [] {
      assert |Rest(p)| >= |p.server|;
    }
  }

  lemma NoServerNoAuthority(p: Parts)
    requires Spelled(p) && p.scheme == []
    ensures UrlOk(p, NO_AUTH)
  {
    hide SchemeOk, ServerOk, PathOk, QueryOk, FragmentOk;
  }

  lemma AcceptedIsSpelled(b: seq<Octet>) returns (a: Auth)
    requires Accepted(b, false)
    ensures UrlOk(PartsOf(b), a) && b == Written(PartsOf(b))
  {
    hide Scan, PartsOf, Spelled, Written, HostAccepted, Authority, FoundAt, AuthOk, AuthWritten, Shape, DecimalValue, OuterHas, PortOf;
    var p := PartsOf(b);
    ServerIsNeeded(b);
    ServerIsBehindFront(p, Scan(b, false), b);
    if p.scheme == [] {
      a := NO_AUTH;
      NoServerNoAuthority(p);
    } else {
      FieldsAreParts(p);
      AuthExactly(p.server, FoundAt(b, false));
      a :| AuthOk(a) && a.at == FoundAt(b, false) && AuthWritten(a) == p.server;
      PortIs(p, a);
    }
  }

  // ----- What is spelled is accepted

  // The texts of the authority are its parts.
  lemma AuthTexts(p: Parts, a: Auth)
    requires Spelled(p) && AuthOk(a) && AuthWritten(a) == p.server
    ensures var b := Written(p);
            && Text(b, false, Userinfo) == a.userinfo && Text(b, false, Host) == a.host + a.zone
            && Text(b, false, Port) == PortDigits(a) && HostAccepted(Authority(b, false), FoundAt(b, false))
  {
    hide Scan, FoundAt, Text, Authority, Spelled, AuthOk, AuthWritten, Written, HostAccepted, HostBelow, Below, Found, Hashes;
    var b := Written(p);
    FieldsAreParts(p);
    OkReads(a);
    AtIsWritten(a);
    AuthSpans(a);
    InnerText(b, Userinfo);
    InnerText(b, Host);
    InnerText(b, Port);
  }

  lemma HasText(b: seq<Octet>, connect: bool, f: UrlField)
    ensures Has(b, connect, f) <==> Text(b, connect, f) != []
  {
    hide Found;
    FoundInBounds(b, connect, f);
  }

  lemma NothingIsZero()
    ensures DecimalValue([]) == 0
  {
  }

  lemma PortIs(p: Parts, a: Auth)
    requires Spelled(p) && AuthOk(a) && AuthWritten(a) == p.server
    ensures PortOf(Written(p), false) == DecimalValue(PortDigits(a))
  {
    hide Text, Has, Spelled, AuthOk, AuthWritten, Written, HostAccepted, DecimalValue, PortDigits;
    AuthTexts(p, a);
    HasText(Written(p), false, Port);
    NothingIsZero();
  }

  // Without an authority there is none of its fields.
  lemma NoInnerText(b: seq<Octet>, f: UrlField)
    requires InAuthority(f) && Authority(b, false) == []
    ensures Text(b, false, f) == []
  {
    hide Authority, Scan, FoundAt, HostBelow, Text;
    InnerText(b, f);
  }

  lemma AnyTexts(p: Parts, a: Auth)
    requires UrlOk(p, a)
    ensures var b := Written(p);
            && Text(b, false, Userinfo) == a.userinfo && Text(b, false, Host) == a.host + a.zone
            && Text(b, false, Port) == PortDigits(a) && PortOf(b, false) == DecimalValue(PortDigits(a)) <= MAX_PORT
  {
    hide Text, Has, Spelled, AuthOk, AuthWritten, Written, HostAccepted, DecimalValue, Authority, FoundAt, OuterHas, Hashes;
    if p.scheme == [] {
      NoAuthIsEmpty();
      FieldsAreParts(p);
      NoInnerText(Written(p), Userinfo);
      NoInnerText(Written(p), Host);
      NoInnerText(Written(p), Port);
      HasText(Written(p), false, Port);
      NothingIsZero();
    } else {
      AuthTexts(p, a);
      PortIs(p, a);
    }
  }

  lemma NoAuthIsEmpty()
    ensures AuthWritten(NO_AUTH) == []
  {
  }

  lemma ServerIsWritten(a: Auth)
    requires AuthOk(a)
    ensures AuthWritten(a) != []
  {
    assert |AuthWritten(a)| >= |a.host|;
  }

  // A word of the grammar is accepted, and reported are its parts.
  lemma SpelledIsAccepted(p: Parts, a: Auth)
    requires UrlOk(p, a)
    ensures var b := Written(p);
            && Accepted(b, false)
            && Text(b, false, Schema) == p.scheme && Text(b, false, Userinfo) == a.userinfo
            && Text(b, false, Host) == a.host + a.zone && Text(b, false, Port) == PortDigits(a)
            && PortOf(b, false) == DecimalValue(PortDigits(a)) && Text(b, false, Path) == p.path
            && Text(b, false, Query) == (if p.query == [] then [] else p.query[1..])
            && Text(b, false, Fragment) == p.fragment[Hashes(p.fragment)..]
  {
    hide Scan, Text, Spelled, AuthOk, AuthWritten, Written, HostAccepted, Authority, FoundAt, OuterHas, Hashes, PortOf, StateOf,
         PortDigits, DecimalValue;
    SpelledIsScanned(p);
    StateIsAlive(p);
    FieldsAreParts(p);
    AnyTexts(p, a);
    if p.scheme != [] {
      ServerIsWritten(a);
      AuthTexts(p, a);
    } else {
      NoAuthIsEmpty();
    }
  }

  // For all byte strings: accepted are exactly the words of the grammar.
  lemma AcceptedExactly(b: seq<Octet>)
    ensures Accepted(b, false) <==> exists p, a :: UrlOk(p, a) && Written(p) == b
  {
    hide Accepted, UrlOk, Written;
    if Accepted(b, false) {
      var a := AcceptedIsSpelled(b);
      assert UrlOk(PartsOf(b), a) && Written(PartsOf(b)) == b;
    }
    forall p, a | UrlOk(p, a) && Written(p) == b ensures Accepted(b, false) {
      SpelledIsAccepted(p, a);
    }
  }

  // No byte string is two words: the grammar is not ambiguous.
  lemma SpelledOnce(p: Parts, p': Parts)
    requires Spelled(p) && Spelled(p') && Written(p) == Written(p')
    ensures p == p'
  {
    hide Spelled, Written, Scan, PartsOf, StateOf;
    SpelledIsScanned(p);
    SpelledIsScanned(p');
  }

  // ----- CONNECT

  // What the parser of a CONNECT target skips
  const SCHEME: seq<Octet> := ['x']
  const FRONT: seq<Octet> := SCHEME + COLON_SLASHES

  lemma FrontScans()
    ensures Scan(FRONT, false) == At(ReqServerStart) && !FoundAt(FRONT, false)
    ensures forall r :: 4 <= r ==> Below(FRONT, false, r) == 4
    ensures Below(FRONT, false, 0) == 0 && Below(FRONT, false, 1) == 1
  {
    hide Scan, Below, FoundAt;
    ScanOfNothing();
    SchemeStage(SCHEME);
  }

  // A CONNECT target is read like the rest of a URL behind "x://".
  lemma {:induction false} ReadBehindFront(b: seq<Octet>)
    ensures Scan(FRONT + b, false) == Scan(b, true) && FoundAt(FRONT + b, false) == FoundAt(b, true)
    ensures forall r :: 4 <= r ==> Below(FRONT + b, false, r) == 4 + Below(b, true, r)
    ensures Rank(Scan(b, true)) >= 3
    ensures Below(FRONT + b, false, 0) == 0 && Below(FRONT + b, false, 1) == 1
    ensures Below(b, true, 0) == 0 && Below(b, true, 1) == 0
  {
    hide ScanNext, Rank;
    if b == [] {
      assert FRONT + b == FRONT;
      FrontScans();
      StartRank();
    } else {
      var init := b[..|b| - 1];
      assert (FRONT + b)[..|FRONT + b| - 1] == FRONT + init;
      ReadBehindFront(init);
      RankGrows(Scan(init, true), b[|b| - 1]);
    }
  }

  lemma StartRank()
    ensures Rank(At(ReqServerStart)) == 3
  {
  }

  // Every field but the scheme stands four bytes further on, so its text is the same.
  lemma SameSpan(b: seq<Octet>, f: UrlField)
    requires f != Schema
    ensures var o, o' := FirstSpan(b, true, f), FirstSpan(FRONT + b, false, f);
            o'.lo == 4 + o.lo && o'.hi == 4 + o.hi && o.lo <= o.hi <= |b|
  {
    hide Scan, Below;
    ReadBehindFront(b);
    FirstInBounds(b, true, f);
  }

  lemma FrontHasScheme(b: seq<Octet>)
    ensures OuterHas(FRONT + b, false, Schema) && !OuterHas(b, true, Schema) && !Has(b, true, Schema)
  {
    hide Scan, Below;
    ReadBehindFront(b);
  }

  lemma SameAuthority(b: seq<Octet>)
    ensures Authority(FRONT + b, false) == Authority(b, true) && FoundAt(FRONT + b, false) == FoundAt(b, true)
  {
    hide Scan, Below, FoundAt, FirstSpan;
    ReadBehindFront(b);
    SameSpan(b, Host);
    SameCut(b, FirstSpan(b, true, Host).lo, FirstSpan(b, true, Host).hi);
  }

  lemma SameFirst(b: seq<Octet>, f: UrlField)
    requires f != Schema
    ensures var o, o' := FirstSpan(b, true, f), FirstSpan(FRONT + b, false, f);
            o'.lo == 4 + o.lo && o'.hi == 4 + o.hi && o.lo <= o.hi <= |b|
    ensures Authority(FRONT + b, false) == Authority(b, true) && FoundAt(FRONT + b, false) == FoundAt(b, true)
    ensures OuterHas(FRONT + b, false, f) <==> OuterHas(b, true, f)
    ensures OuterHas(FRONT + b, false, Schema) && !OuterHas(b, true, Schema) && !Has(b, true, Schema)
  {
    hide Scan, Below, FoundAt, FirstSpan, Has, Authority;
    FrontHasScheme(b);
    SameAuthority(b);
    SameSpan(b, f);
  }

  lemma SameCut(b: seq<Octet>, lo: nat, hi: nat)
    requires lo <= hi <= |b|
    ensures |FRONT| == 4 && (FRONT + b)[4 + lo..4 + hi] == b[lo..hi]
  {
    assert forall k :: lo <= k < hi ==> (FRONT + b)[4 + k] == b[k];
  }

  lemma SameText(b: seq<Octet>, f: UrlField)
    requires f != Schema
    ensures Text(FRONT + b, false, f) == Text(b, true, f) && (Has(FRONT + b, false, f) <==> Has(b, true, f))
    ensures f == Port ==> PortOf(FRONT + b, false) == PortOf(b, true)
  {
    hide Scan, Below, FoundAt, HostSpan, Authority, FirstSpan, DecimalValue;
    SameFirst(b, f);
    FoundInBounds(b, true, f);
    SameCut(b, Found(b, true, f).lo, Found(b, true, f).hi);
  }

  lemma HostHasOuter(b: seq<Octet>)
    requires Has(b, true, Host)
    ensures OuterHas(b, true, Host)
  {
    hide Scan, Below, FoundAt, HostSpan, Authority;
    FoundInBounds(b, true, Host);
  }

  // What a CONNECT target must be, seen from behind the front
  lemma ConnectBehindFront(b: seq<Octet>)
    ensures Accepted(b, true) <==> Accepted(FRONT + b, false) && forall f :: f != Schema ==>
                                     (Has(FRONT + b, false, f) <==> f == Host || f == Port)
  {
    hide Scan, FoundAt, HostAccepted, Authority, Has, OuterHas, PortOf, Text;
    ReadBehindFront(b);
    forall f | f != Schema
      ensures (Has(FRONT + b, false, f) <==> Has(b, true, f)) && (OuterHas(FRONT + b, false, f) <==> OuterHas(b, true, f))
    {
      SameText(b, f);
      SameFirst(b, f);
    }
    SameText(b, Port);
    SameFirst(b, Host);
    DeadIsNoRank(b);
    if Has(b, true, Host) {
      HostHasOuter(b);
    }
    if Accepted(FRONT + b, false) {
      assert OuterHas(FRONT + b, false, Host);
    }
  }

  lemma DeadIsNoRank(b: seq<Octet>)
    ensures Scan(FRONT + b, false).Dead? <==> Scan(b, true).Dead?
  {
    hide Scan;
    ReadBehindFront(b);
  }

  // A host and a port; an '@' in front is ignored, for the userinfo is empty,
  // and so is a '?' behind, with any number of '#'s.
  predicate ConnectOk(a: Auth, tail: seq<Octet>) {
    && AuthOk(a) && a.userinfo == [] && a.port != [] && DecimalValue(PortDigits(a)) <= MAX_PORT
    && (tail != [] ==> tail[0] == '?' && AllHashes(tail[1..]))
  }

  lemma AuthIsServer(a: Auth)
    requires AuthOk(a) && a.userinfo == []
    ensures ServerOk(AuthWritten(a))
  {
    hide ServerByte, AuthSpelled;
    var w := OpenPart(a) + a.host + a.zone + ClosePart(a) + a.port;
    PartsHaveNoAt(a);
    AuthBytes(a);
    assert forall k :: 0 <= k < |w| ==> ServerByte(w[k]);
    assert '@' !in w;
    assert AuthWritten(a) == AtPart(a) + w;
    AtInFront(AtPart(a), w);
  }

  lemma AtInFront(at: seq<Octet>, w: seq<Octet>)
    requires (at == [] || at == ['@']) && '@' !in w && forall k :: 0 <= k < |w| ==> ServerByte(w[k])
    ensures ServerOk(at + w)
  {
    hide ServerByte;
  }

  lemma AuthBytes(a: Auth)
    requires AuthSpelled(a)
    ensures forall k :: 0 <= k < |a.host| ==> ServerByte(a.host[k])
    ensures forall k :: 0 <= k < |a.zone| ==> ServerByte(a.zone[k])
    ensures forall k :: 0 <= k < |a.port| ==> ServerByte(a.port[k])
    ensures ServerByte('[') && ServerByte(']')
  {
  }

  // The parts of the front and a CONNECT target
  function ConnectParts(a: Auth, tail: seq<Octet>): Parts {
    Parts(SCHEME, AuthWritten(a), [], if tail == [] then [] else [tail[0]], if tail == [] then [] else tail[1..])
  }

  lemma ConnectIsSpelled(a: Auth, tail: seq<Octet>)
    requires ConnectOk(a, tail)
    ensures UrlOk(ConnectParts(a, tail), a) && Written(ConnectParts(a, tail)) == FRONT + (AuthWritten(a) + tail)
  {
    hide AuthOk, AuthWritten, DecimalValue, ServerOk, PortDigits;
    AuthIsServer(a);
    var p := ConnectParts(a, tail);
    assert p.server + p.path + p.query + p.fragment == AuthWritten(a) + tail;
  }

  lemma HashesAre(w: seq<Octet>)
    ensures AllHashes(w) <==> w[Hashes(w)..] == []
  {
  }

  lemma DigitsAre(a: Auth)
    requires AuthOk(a)
    ensures a.port != [] <==> PortDigits(a) != []
    ensures a.host != []
  {
  }

  lemma ConnectIsAccepted(a: Auth, tail: seq<Octet>)
    requires ConnectOk(a, tail)
    ensures Accepted(AuthWritten(a) + tail, true)
  {
    hide Accepted, AuthWritten, Text, Has, Hashes, PortDigits, DecimalValue, AuthOk, UrlOk, Written, PortOf;
    var p := ConnectParts(a, tail);
    var b := AuthWritten(a) + tail;
    ConnectIsSpelled(a, tail);
    SpelledIsAccepted(p, a);
    DigitsAre(a);
    HashesAre(p.fragment);
    forall f | f != Schema ensures Has(FRONT + b, false, f) <==> f == Host || f == Port {
      HasText(FRONT + b, false, f);
    }
    ConnectBehindFront(b);
  }

  lemma AcceptedConnectIs(b: seq<Octet>) returns (a: Auth, tail: seq<Octet>)
    requires Accepted(b, true)
    ensures ConnectOk(a, tail) && AuthWritten(a) + tail == b
  {
    hide Accepted, AuthWritten, Text, Has, Hashes, PortDigits, DecimalValue, AuthOk, Written, PortOf, PartsOf, Spelled, AllHashes;
    ConnectBehindFront(b);
    var p := PartsOf(FRONT + b);
    a := AcceptedIsSpelled(FRONT + b);
    SpelledIsAccepted(p, a);
    forall f ensures Has(FRONT + b, false, f) <==> Text(FRONT + b, false, f) != [] {
      HasText(FRONT + b, false, f);
    }
    SchemeIsFront(b, p);
    DigitsAre(a);
    HashesAre(p.fragment);
    tail := p.query + p.fragment;
    TailIs(p);
  }

  lemma SchemeIsFront(b: seq<Octet>, p: Parts)
    requires Text(FRONT + b, false, Schema) == p.scheme && Written(p) == FRONT + b
    ensures p.scheme == SCHEME && p.server + p.path + p.query + p.fragment == b
  {
    hide Scan, Below, Text;
    ReadBehindFront(b);
    OuterText(FRONT + b, Schema);
    assert (FRONT + b)[0..1] == SCHEME;
    assert Written(p) == FRONT + (p.server + p.path + p.query + p.fragment);
    assert (FRONT + b)[4..] == b && (FRONT + (p.server + p.path + p.query + p.fragment))[4..] == p.server + p.path + p.query + p.fragment;
  }

  lemma TailIs(p: Parts)
    requires Spelled(p) && p.path == [] && |p.query| <= 1 && AllHashes(p.fragment)
    ensures var tail := p.query + p.fragment;
            && (tail != [] ==> tail[0] == '?' && AllHashes(tail[1..]))
            && p.server + p.path + p.query + p.fragment == p.server + tail
  {
    hide SchemeOk, ServerOk, PathOk, FragmentOk;
    if p.query == [] {
      assert p.query + p.fragment == [];
    } else {
      assert (p.query + p.fragment)[1..] == p.fragment;
    }
  }

  // For all byte strings: as CONNECT targets are accepted exactly these.
  lemma ConnectExactly(b: seq<Octet>)
    ensures Accepted(b, true) <==> exists a, tail :: ConnectOk(a, tail) && AuthWritten(a) + tail == b
  {
    hide Accepted, ConnectOk, AuthWritten;
    if Accepted(b, true) {
      var a, tail := AcceptedConnectIs(b);
      assert ConnectOk(a, tail) && AuthWritten(a) + tail == b;
    }
    forall a, tail | ConnectOk(a, tail) && AuthWritten(a) + tail == b ensures Accepted(b, true) {
      ConnectIsAccepted(a, tail);
    }
  }

  // ----- The target of a request line

  lemma {:induction false} TargetIsScanned(connect: bool, w: seq<Octet>)
    requires w != []
    ensures var r := HttpHead.TargetAfter(connect, w);
            Scan(w, connect) == if r.UrlDead? then Scanned.Dead else At(r.state)
  {
    hide UrlChar, FirstUrlChar;
    if |w| == 1 {
      assert Scan(w[..0], connect) == ScanStart(connect);
    } else {
      TargetIsScanned(connect, w[..|w| - 1]);
    }
  }

  lemma BegunHasRest(p: Parts, s: UrlState, b: seq<Octet>)
    requires Shape(p, At(s), b) && !BeforeHost(s)
    ensures Rest(p) != []
    ensures b == Written(p)
  {
    hide Spelled;
    assert |Rest(p)| == |p.server| + |p.path| + |p.query| + |p.fragment|;
  }

  lemma RestIsPast(p: Parts)
    requires Spelled(p) && Rest(p) != []
    ensures StateOf(p).At? && !BeforeHost(StateOf(p).state) && Written(p) != []
  {
    hide SchemeOk, ServerOk, PathOk, QueryOk, FragmentOk, AllHashes, EndsWithAt;
  }

  // A request line takes as its target exactly the spelled words with
  // something behind the scheme.
  lemma TargetExactly(w: seq<Octet>)
    ensures HttpHead.ValidTarget(false, w) <==> exists p :: Spelled(p) && Rest(p) != [] && Written(p) == w
  {
    hide Scan, Spelled, Written, Rest, BeforeHost, HttpHead.TargetAfter, StateOf, PartsOf, Shape;
    if w != [] {
      TargetIsScanned(false, w);
    }
    if HttpHead.ValidTarget(false, w) {
      ScannedHasShape(w);
      BegunHasRest(PartsOf(w), HttpHead.TargetAfter(false, w).state, w);
      ShapeIsSpelled(PartsOf(w), Scan(w, false), w);
    }
    forall p | Spelled(p) && Rest(p) != [] && Written(p) == w ensures HttpHead.ValidTarget(false, w) {
      SpelledIsScanned(p);
      RestIsPast(p);
    }
  }

  lemma ShapeIsSpelled(p: Parts, s: Scanned, b: seq<Octet>)
    requires Shape(p, s, b)
    ensures Spelled(p)
  {
  }

  // A CONNECT request takes what may stand behind a scheme.
  lemma ConnectTargetExactly(w: seq<Octet>)
    ensures HttpHead.ValidTarget(true, w) <==> exists p :: Spelled(p) && p.scheme == SCHEME && Rest(p) == w && w != []
  {
    hide Scan, Below, Spelled, Written, Rest, BeforeHost, HttpHead.TargetAfter, StateOf, PartsOf, Shape;
    if w != [] {
      TargetIsScanned(true, w);
      ReadBehindFront(w);
    }
    if HttpHead.ValidTarget(true, w) {
      var b := FRONT + w;
      ScannedHasShape(b);
      BegunHasRest(PartsOf(b), HttpHead.TargetAfter(true, w).state, b);
      ShapeIsSpelled(PartsOf(b), Scan(b, false), b);
      FieldsAreParts(PartsOf(b));
      SchemeIsFront(w, PartsOf(b));
      RestIs(PartsOf(b));
    }
    forall p | Spelled(p) && p.scheme == SCHEME && Rest(p) == w && w != [] ensures HttpHead.ValidTarget(true, w) {
      SpelledIsScanned(p);
      RestIsPast(p);
      BehindScheme(p);
    }
  }

  lemma RestIs(p: Parts)
    ensures Rest(p) == p.server + p.path + p.query + p.fragment
  {
  }

  lemma BehindScheme(p: Parts)
    requires p.scheme == SCHEME
    ensures Written(p) == FRONT + Rest(p)
  {
  }
}
