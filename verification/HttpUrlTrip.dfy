// URLs in the form of section 3 of RFC 3986: printed, then parsed.
module HttpUrlTrip {
  import opened HttpChars
  import opened HttpMachine
  import opened HttpTypes
  import opened HttpLengths
  import opened HttpUrl

  datatype HostText = Name(text: seq<Octet>) | Address(address: seq<Octet>, zone: seq<Octet>)

  // The components of a URL; what is empty is left out when it is printed.
  datatype Url = Url(scheme: seq<Octet>, userinfo: seq<Octet>, host: HostText, port: seq<Octet>,
                     path: seq<Octet>, query: seq<Octet>, fragment: seq<Octet>)

  predicate ValidHost(h: HostText) {
    match h
    case Name(text) => text != [] && forall k :: 0 <= k < |text| ==> IsHostChar(text[k])
    case Address(address, zone) =>
      && address != [] && (forall k :: 0 <= k < |address| ==> IsHex(address[k]) || address[k] == ':' || address[k] == '.')
      && forall k :: 0 <= k < |zone| ==> IsZoneChar(zone[k])
  }

  predicate ValidParts(u: Url) {
    && u.scheme != [] && (forall k :: 0 <= k < |u.scheme| ==> IsAlpha(u.scheme[k]))
    && (forall k :: 0 <= k < |u.userinfo| ==> IsUserinfoChar(u.userinfo[k]))
    && ValidHost(u.host)
    && (forall k :: 0 <= k < |u.port| ==> IsNum(u.port[k])) && DecimalValue(u.port) <= MAX_PORT
    && u.path != [] && u.path[0] == '/' && (forall k :: 0 <= k < |u.path| ==> IsUrlChar(u.path[k]))
    && (forall k :: 0 <= k < |u.query| ==> IsUrlChar(u.query[k]) || u.query[k] == '?')
    && (forall k :: 0 <= k < |u.fragment| ==> IsUrlChar(u.fragment[k]) || u.fragment[k] == '?' || u.fragment[k] == '#')
    && (u.fragment != [] ==> u.fragment[0] != '#')
  }

  // ----- Printing

  function ZoneText(zone: seq<Octet>): seq<Octet> {
    if zone == [] then [] else ['%'] + zone
  }

  // The host as the parser reports it, without brackets
  function BareHost(h: HostText): seq<Octet> {
    match h { case Name(text) => text case Address(address, zone) => address + ZoneText(zone) }
  }

  function HostPrinted(h: HostText): seq<Octet> {
    if h.Name? then h.text else ['['] + BareHost(h) + [']']
  }

  function UserinfoPrinted(userinfo: seq<Octet>): seq<Octet> {
    if userinfo == [] then [] else userinfo + ['@']
  }

  function PortPrinted(port: seq<Octet>): seq<Octet> {
    if port == [] then [] else [':'] + port
  }

  function AuthorityPrinted(u: Url): seq<Octet> {
    UserinfoPrinted(u.userinfo) + (HostPrinted(u.host) + PortPrinted(u.port))
  }

  function After(mark: Octet, text: seq<Octet>): seq<Octet> {
    if text == [] then [] else [mark] + text
  }

  const COLON_SLASHES: seq<Octet> := [':', '/', '/']

  function UrlPrinted(u: Url): seq<Octet> {
    u.scheme + COLON_SLASHES + AuthorityPrinted(u) + u.path + (After('?', u.query) + After('#', u.fragment))
  }

  // ----- Runs of bytes that keep a state, in the first pass

  predicate Steady(b: seq<Octet>, w: seq<Octet>, s: Scanned, connect: bool) {
    w != [] && ScanNext(Scan(b, connect), w[0]) == s && forall k :: 0 < k < |w| ==> ScanNext(s, w[k]) == s
  }

  lemma {:induction false} SteadyScan(b: seq<Octet>, w: seq<Octet>, s: Scanned, connect: bool)
    requires Steady(b, w, s, connect)
    ensures Scan(b + w, connect) == s && FoundAt(b + w, connect) == (FoundAt(b, connect) || s == At(ReqServerWithAt))
    ensures forall r :: Below(b + w, connect, r) == if Rank(s) < r then |b| + |w| else Below(b, connect, r)
  {
    hide ScanNext, Rank;
    var init := w[..|w| - 1];
    assert (b + w)[..|b + w| - 1] == b + init;
    if init == [] {
      assert b + init == b;
    } else {
      SteadyScan(b, init, s, connect);
    }
  }

  // ----- Runs of bytes that keep a state, in the second pass

  predicate HostSteady(h: seq<Octet>, w: seq<Octet>, foundAt: bool, s: HostState) {
    w != [] && HostChar(HostScan(h, foundAt), w[0]) == s && forall k :: 0 < k < |w| ==> HostChar(s, w[k]) == s
  }

  lemma {:induction false} SteadyHost(h: seq<Octet>, w: seq<Octet>, foundAt: bool, s: HostState)
    requires HostSteady(h, w, foundAt, s)
    ensures HostScan(h + w, foundAt) == s
    ensures forall r :: HostBelow(h + w, foundAt, r) == if HostRank(s) < r then |h| + |w| else HostBelow(h, foundAt, r)
  {
    hide HostChar, HostRank;
    var init := w[..|w| - 1];
    assert (h + w)[..|h + w| - 1] == h + init;
    if init == [] {
      assert h + init == h;
    } else {
      SteadyHost(h, init, foundAt, s);
    }
  }

  lemma ScanOfNothing()
    ensures Scan([], false) == BeforeUrl && !FoundAt([], false) && forall r :: Below([], false, r) == 0
  {
  }

  lemma SchemeStage(scheme: seq<Octet>)
    requires scheme != [] && forall k :: 0 <= k < |scheme| ==> IsAlpha(scheme[k])
    ensures var b := scheme + COLON_SLASHES;
            && Scan(b, false) == At(ReqServerStart) && !FoundAt(b, false)
            && Below(b, false, 0) == 0 && Below(b, false, 1) == |scheme| && forall r :: r >= 4 ==> Below(b, false, r) == |b|
  {
    hide Scan, Below, FoundAt;
    ScanOfNothing();
    assert [] + scheme == scheme;
    AlphaScans(scheme);
    SteadyScan([], scheme, At(ReqSchema), false);
    SteadyScan(scheme, [':'], At(ReqSchemaSlash), false);
    SteadyScan(scheme + [':'], ['/'], At(ReqSchemaSlashSlash), false);
    SteadyScan(scheme + [':'] + ['/'], ['/'], At(ReqServerStart), false);
    assert scheme + COLON_SLASHES == scheme + [':'] + ['/'] + ['/'];
  }

  lemma AlphaScans(scheme: seq<Octet>)
    requires scheme != [] && forall k :: 0 <= k < |scheme| ==> IsAlpha(scheme[k])
    ensures Steady([], scheme, At(ReqSchema), false)
  {
  }

  // A byte that keeps the first pass within the authority
  predicate ServerByte(ch: Octet) {
    IsUserinfoChar(ch) || ch == '[' || ch == ']'
  }

  lemma ServerByteScans(s: Scanned, ch: Octet)
    requires ServerByte(ch) && (s == At(ReqServerStart) || s == At(ReqServer) || s == At(ReqServerWithAt))
    ensures ScanNext(s, ch) == At(ReqServer)
  {
  }

  lemma HostIsServerBytes(h: HostText, port: seq<Octet>)
    requires ValidHost(h) && forall k :: 0 <= k < |port| ==> IsNum(port[k])
    ensures var w := HostPrinted(h) + PortPrinted(port); w != [] && forall k :: 0 <= k < |w| ==> ServerByte(w[k])
  {
  }

  lemma AuthorityStage(b: seq<Octet>, u: Url)
    requires Scan(b, false) == At(ReqServerStart) && !FoundAt(b, false) && ValidParts(u)
    ensures var c := b + AuthorityPrinted(u);
            && Scan(c, false) == At(ReqServer) && FoundAt(c, false) == (u.userinfo != [])
            && forall r :: Below(c, false, r) == if 4 < r then |c| else Below(b, false, r)
  {
    hide Scan, Below, FoundAt, ServerByte, ScanNext, IsUserinfoChar;
    var w := HostPrinted(u.host) + PortPrinted(u.port);
    HostIsServerBytes(u.host, u.port);
    UserinfoScans(u.userinfo);
    forall s, k | 0 <= k < |w| && (s == At(ReqServerStart) || s == At(ReqServer) || s == At(ReqServerWithAt))
      ensures ScanNext(s, w[k]) == At(ReqServer)
    {
      ServerByteScans(s, w[k]);
    }
    if u.userinfo == [] {
      assert AuthorityPrinted(u) == w;
      SteadyScan(b, w, At(ReqServer), false);
    } else {
      SteadyScan(b, u.userinfo, At(ReqServer), false);
      SteadyScan(b + u.userinfo, ['@'], At(ReqServerWithAt), false);
      SteadyScan(b + u.userinfo + ['@'], w, At(ReqServer), false);
      assert b + AuthorityPrinted(u) == b + u.userinfo + ['@'] + w;
    }
  }

  lemma UserinfoScans(w: seq<Octet>)
    requires forall k :: 0 <= k < |w| ==> IsUserinfoChar(w[k])
    ensures forall k :: 0 <= k < |w| ==>
              ScanNext(At(ReqServerStart), w[k]) == At(ReqServer) && ScanNext(At(ReqServer), w[k]) == At(ReqServer)
    ensures ScanNext(At(ReqServer), '@') == At(ReqServerWithAt)
  {
  }

  lemma PathScans(w: seq<Octet>)
    requires w != [] && w[0] == '/' && forall k :: 0 <= k < |w| ==> IsUrlChar(w[k])
    ensures ScanNext(At(ReqServer), w[0]) == At(ReqPath)
    ensures forall k :: 0 <= k < |w| ==> ScanNext(At(ReqPath), w[k]) == At(ReqPath)
  {
  }

  lemma QueryScans(w: seq<Octet>)
    requires forall k :: 0 <= k < |w| ==> IsUrlChar(w[k]) || w[k] == '?'
    ensures ScanNext(At(ReqPath), '?') == At(ReqQueryStart)
    ensures forall k :: 0 <= k < |w| ==>
              ScanNext(At(ReqQueryStart), w[k]) == At(ReqQuery) && ScanNext(At(ReqQuery), w[k]) == At(ReqQuery)
  {
  }

  lemma FragmentScans(w: seq<Octet>)
    requires forall k :: 0 <= k < |w| ==> IsUrlChar(w[k]) || w[k] == '?' || w[k] == '#'
    ensures ScanNext(At(ReqPath), '#') == At(ReqFragmentStart) && ScanNext(At(ReqQuery), '#') == At(ReqFragmentStart)
    ensures w != [] && w[0] != '#' ==> ScanNext(At(ReqFragmentStart), w[0]) == At(ReqFragment)
    ensures forall k :: 0 <= k < |w| ==> ScanNext(At(ReqFragment), w[k]) == At(ReqFragment)
  {
  }

  lemma QueryStage(b: seq<Octet>, w: seq<Octet>)
    requires Scan(b, false) == At(ReqPath) && forall k :: 0 <= k < |w| ==> IsUrlChar(w[k]) || w[k] == '?'
    ensures var c := b + After('?', w);
            && Scan(c, false) == At(if w == [] then ReqPath else ReqQuery) && FoundAt(c, false) == FoundAt(b, false)
            && forall r :: Below(c, false, r) == if w == [] || r <= 6 then Below(b, false, r) else if r == 7 then |b| + 1 else |c|
  {
    hide Scan, Below, FoundAt, ScanNext;
    QueryScans(w);
    if w == [] {
      assert b + After('?', w) == b;
    } else {
      SteadyScan(b, ['?'], At(ReqQueryStart), false);
      SteadyScan(b + ['?'], w, At(ReqQuery), false);
      assert b + After('?', w) == b + ['?'] + w;
    }
  }

  lemma FragmentStage(b: seq<Octet>, w: seq<Octet>)
    requires Scan(b, false) == At(ReqPath) || Scan(b, false) == At(ReqQuery)
    requires forall k :: 0 <= k < |w| ==> IsUrlChar(w[k]) || w[k] == '?' || w[k] == '#'
    requires w != [] ==> w[0] != '#'
    ensures var c := b + After('#', w);
            && Scan(c, false) == (if w == [] then Scan(b, false) else At(ReqFragment)) && FoundAt(c, false) == FoundAt(b, false)
            && forall r :: Below(c, false, r) == if w == [] || r <= 8 then Below(b, false, r) else if r == 9 then |b| + 1 else |c|
  {
    hide Scan, Below, FoundAt, ScanNext;
    FragmentScans(w);
    if w == [] {
      assert b + After('#', w) == b;
    } else {
      SteadyScan(b, ['#'], At(ReqFragmentStart), false);
      SteadyScan(b + ['#'], w, At(ReqFragment), false);
      assert b + After('#', w) == b + ['#'] + w;
    }
  }

  // ----- The authority, in the second pass

  lemma HostOfNothing(foundAt: bool)
    ensures HostScan([], foundAt) == if foundAt then UserinfoStart else HostStart
    ensures forall r :: HostBelow([], foundAt, r) == 0
  {
  }

  lemma UserinfoStage(w: seq<Octet>)
    requires forall k :: 0 <= k < |w| ==> IsUserinfoChar(w[k])
    ensures var c, foundAt := UserinfoPrinted(w), w != [];
            && HostScan(c, foundAt) == HostStart
            && forall r :: HostBelow(c, foundAt, r) == if w == [] || r <= 1 then 0 else if r == 2 then |w| else |c|
  {
    hide HostScan, HostBelow;
    HostOfNothing(w != []);
    if w != [] {
      assert [] + w == w;
      UserinfoStays(w);
      SteadyHost([], w, true, UserinfoText);
      AtEndsUserinfo();
      SteadyHost(w, ['@'], true, HostStart);
    }
  }

  lemma UserinfoStays(w: seq<Octet>)
    requires forall k :: 0 <= k < |w| ==> IsUserinfoChar(w[k])
    ensures forall k :: 0 <= k < |w| ==>
              HostChar(UserinfoStart, w[k]) == UserinfoText && HostChar(UserinfoText, w[k]) == UserinfoText
  {
  }

  lemma AtEndsUserinfo()
    ensures HostChar(UserinfoText, '@') == HostStart
  {
  }

  lemma BeforeHost4(h: seq<Octet>, foundAt: bool)
    requires HostScan(h, foundAt) == HostStart
    ensures forall r :: r >= 3 ==> HostBelow(h, foundAt, r) == |h|
  {
    hide HostScan;
  }

  // What the second pass knows once it is past the host
  ghost predicate PastHost(h: seq<Octet>, c: seq<Octet>, foundAt: bool, lo: nat, bare: seq<Octet>) {
    && HostBelow(c, foundAt, 4) == lo && HostBelow(c, foundAt, 5) == lo + |bare| <= |c| && c[lo..lo + |bare|] == bare
    && (forall r :: r <= 2 ==> HostBelow(c, foundAt, r) == HostBelow(h, foundAt, r))
    && (forall r :: r >= 6 ==> HostBelow(c, foundAt, r) == |c|)
  }

  lemma NameStage(h: seq<Octet>, foundAt: bool, text: seq<Octet>)
    requires HostScan(h, foundAt) == HostStart && ValidHost(Name(text))
    ensures HostScan(h + text, foundAt) == HostName && PastHost(h, h + text, foundAt, |h|, text)
  {
    hide HostScan, HostBelow, HostChar;
    BeforeHost4(h, foundAt);
    NameStays(text);
    SteadyHost(h, text, foundAt, HostName);
  }

  // Between `z` and `c` there are bytes of an address only.
  ghost predicate InHost(z: seq<Octet>, c: seq<Octet>, foundAt: bool) {
    && (HostScan(c, foundAt) == HostV6 || HostScan(c, foundAt) == HostV6Zone)
    && (forall r :: r <= 4 ==> HostBelow(c, foundAt, r) == HostBelow(z, foundAt, r))
    && (forall r :: r >= 5 ==> HostBelow(c, foundAt, r) == |c|)
  }

  lemma ZoneStage(z: seq<Octet>, foundAt: bool, zone: seq<Octet>)
    requires HostScan(z, foundAt) == HostV6 && forall k :: 0 <= k < |zone| ==> IsZoneChar(zone[k])
    ensures InHost(z, z + ZoneText(zone), foundAt)
  {
    hide HostScan, HostBelow, HostChar, IsZoneChar, InHost;
    if zone != [] {
      ZonedStage(z, foundAt, zone);
      assert z + ZoneText(zone) == z + ['%'] + zone;
    } else {
      PastV6(z, foundAt);
      assert z + ZoneText(zone) == z;
    }
  }

  lemma ZonedStage(z: seq<Octet>, foundAt: bool, zone: seq<Octet>)
    requires HostScan(z, foundAt) == HostV6 && zone != [] && forall k :: 0 <= k < |zone| ==> IsZoneChar(zone[k])
    ensures InHost(z, z + ['%'] + zone, foundAt)
  {
    hide HostScan, HostBelow, HostChar, IsZoneChar;
    ZoneStays(zone);
    var p := z + ['%'];
    SteadyHost(z, ['%'], foundAt, HostV6ZoneStart);
    SteadyHost(p, zone, foundAt, HostV6Zone);
  }

  lemma PastV6(z: seq<Octet>, foundAt: bool)
    requires HostScan(z, foundAt) == HostV6
    ensures InHost(z, z, foundAt)
  {
    hide HostScan;
  }

  lemma AddressPrinted(h: seq<Octet>, host: HostText)
    requires host.Address?
    ensures h + ['['] + host.address + ZoneText(host.zone) == h + ['['] + BareHost(host)
    ensures h + HostPrinted(host) == h + ['['] + BareHost(host) + [']']
  {
    hide ZoneText;
  }

  lemma AddressStage(h: seq<Octet>, foundAt: bool, host: HostText)
    requires HostScan(h, foundAt) == HostStart && ValidHost(host) && host.Address?
    ensures HostScan(h + HostPrinted(host), foundAt) == HostV6End
    ensures PastHost(h, h + HostPrinted(host), foundAt, |h| + 1, BareHost(host))
  {
    hide HostScan, HostBelow, HostChar, ZoneText;
    BeforeHost4(h, foundAt);
    AddressStays(host.address);
    SteadyHost(h, ['['], foundAt, HostV6Start);
    var a := h + ['['];
    SteadyHost(a, host.address, foundAt, HostV6);
    ZoneStage(a + host.address, foundAt, host.zone);
    var z := a + host.address + ZoneText(host.zone);
    SteadyHost(z, [']'], foundAt, HostV6End);
    AddressPrinted(h, host);
  }

  lemma NameStays(w: seq<Octet>)
    requires forall k :: 0 <= k < |w| ==> IsHostChar(w[k])
    ensures forall k :: 0 <= k < |w| ==> HostChar(HostStart, w[k]) == HostName && HostChar(HostName, w[k]) == HostName
  {
  }

  lemma AddressStays(w: seq<Octet>)
    requires forall k :: 0 <= k < |w| ==> IsHex(w[k]) || w[k] == ':' || w[k] == '.'
    ensures HostChar(HostStart, '[') == HostV6Start
    ensures HostChar(HostV6, ']') == HostV6End && HostChar(HostV6Zone, ']') == HostV6End
    ensures forall k :: 0 <= k < |w| ==> HostChar(HostV6Start, w[k]) == HostV6 && HostChar(HostV6, w[k]) == HostV6
  {
  }

  lemma ZoneStays(zone: seq<Octet>)
    requires forall k :: 0 <= k < |zone| ==> IsZoneChar(zone[k])
    ensures HostChar(HostV6, '%') == HostV6ZoneStart
    ensures forall k :: 0 <= k < |zone| ==>
              HostChar(HostV6ZoneStart, zone[k]) == HostV6Zone && HostChar(HostV6Zone, zone[k]) == HostV6Zone
  {
  }

  lemma HostStage(h: seq<Octet>, foundAt: bool, host: HostText)
    requires HostScan(h, foundAt) == HostStart && ValidHost(host)
    ensures var c := h + HostPrinted(host);
            && (HostScan(c, foundAt) == HostName || HostScan(c, foundAt) == HostV6End)
            && PastHost(h, c, foundAt, if host.Name? then |h| else |h| + 1, BareHost(host))
  {
    hide HostScan, HostBelow, PastHost;
    if host.Name? {
      NameStage(h, foundAt, host.text);
    } else {
      AddressStage(h, foundAt, host);
    }
  }

  lemma PortStays(w: seq<Octet>)
    requires forall k :: 0 <= k < |w| ==> IsNum(w[k])
    ensures HostChar(HostName, ':') == HostPortStart && HostChar(HostV6End, ':') == HostPortStart
    ensures forall k :: 0 <= k < |w| ==> HostChar(HostPortStart, w[k]) == HostPort && HostChar(HostPort, w[k]) == HostPort
  {
  }

  // With no port, the authority ends behind the host.
  lemma NoPortStage(c: seq<Octet>, foundAt: bool)
    requires HostScan(c, foundAt) == HostName || HostScan(c, foundAt) == HostV6End
    ensures HostAccepted(c, foundAt) && HostBelow(c, foundAt, 7) == |c| && HostBelow(c, foundAt, 8) == |c|
  {
    hide HostScan, HostBelow, HostChar;
    PastHostRank(c, foundAt);
  }

  lemma SomePortStage(c: seq<Octet>, foundAt: bool, port: seq<Octet>)
    requires HostScan(c, foundAt) == HostName || HostScan(c, foundAt) == HostV6End
    requires port != [] && forall k :: 0 <= k < |port| ==> IsNum(port[k])
    ensures var d := c + ([':'] + port);
            && HostAccepted(d, foundAt)
            && (forall r :: r <= 5 ==> HostBelow(d, foundAt, r) == HostBelow(c, foundAt, r))
            && HostBelow(d, foundAt, 7) == |d| - |port| && HostBelow(d, foundAt, 8) == |d|
  {
    hide HostScan, HostBelow, HostChar;
    PastHostRank(c, foundAt);
    PortStays(port);
    SteadyHost(c, [':'], foundAt, HostPortStart);
    SteadyHost(c + [':'], port, foundAt, HostPort);
    assert c + ([':'] + port) == c + [':'] + port;
  }

  lemma PortStage(c: seq<Octet>, foundAt: bool, port: seq<Octet>)
    requires HostScan(c, foundAt) == HostName || HostScan(c, foundAt) == HostV6End
    requires forall k :: 0 <= k < |port| ==> IsNum(port[k])
    ensures var d := c + PortPrinted(port);
            && HostAccepted(d, foundAt)
            && (forall r :: r <= 5 ==> HostBelow(d, foundAt, r) == HostBelow(c, foundAt, r))
            && HostBelow(d, foundAt, 7) == |d| - |port| && HostBelow(d, foundAt, 8) == |d|
  {
    hide HostScan, HostBelow, HostAccepted;
    if port == [] {
      NoPortStage(c, foundAt);
      assert c + PortPrinted(port) == c;
    } else {
      SomePortStage(c, foundAt, port);
    }
  }

  lemma PastHostRank(c: seq<Octet>, foundAt: bool)
    requires HostScan(c, foundAt) == HostName || HostScan(c, foundAt) == HostV6End
    ensures forall r :: r >= 6 ==> HostBelow(c, foundAt, r) == |c|
  {
    hide HostScan;
  }

  // How far the printed authority goes before the host
  function HostOffset(u: Url): nat {
    |UserinfoPrinted(u.userinfo)| + if u.host.Name? then 0 else 1
  }

  lemma AuthorityBelow(u: Url)
    requires ValidParts(u)
    ensures var h, foundAt, lo := AuthorityPrinted(u), u.userinfo != [], HostOffset(u);
            && HostAccepted(h, foundAt)
            && HostBelow(h, foundAt, 1) == 0 && HostBelow(h, foundAt, 2) == |u.userinfo|
            && HostBelow(h, foundAt, 4) == lo && HostBelow(h, foundAt, 5) == lo + |BareHost(u.host)|
            && HostBelow(h, foundAt, 7) == |h| - |u.port| && HostBelow(h, foundAt, 8) == |h|
  {
    hide HostScan, HostBelow, HostAccepted, BareHost, HostPrinted, ValidHost;
    var foundAt, before := u.userinfo != [], UserinfoPrinted(u.userinfo);
    UserinfoStage(u.userinfo);
    HostStage(before, foundAt, u.host);
    var c := before + HostPrinted(u.host);
    PortStage(c, foundAt, u.port);
    assert AuthorityPrinted(u) == c + PortPrinted(u.port);
  }

  // The delimiters of an authority, where they stand
  function AtSign(u: Url): seq<Octet> { if u.userinfo == [] then [] else ['@'] }
  function OpenBracket(u: Url): seq<Octet> { if u.host.Name? then [] else ['['] }
  function CloseBracket(u: Url): seq<Octet> { if u.host.Name? then [] else [']'] }
  function PortColon(u: Url): seq<Octet> { if u.port == [] then [] else [':'] }

  lemma AuthorityParts(u: Url)
    ensures var h, lo, bare := AuthorityPrinted(u), HostOffset(u), BareHost(u.host);
            && |u.userinfo| <= |h| && h[0..|u.userinfo|] == u.userinfo
            && lo + |bare| <= |h| && h[lo..lo + |bare|] == bare
            && |u.port| <= |h| && h[|h| - |u.port|..|h|] == u.port
  {
    hide BareHost, AtSign, OpenBracket, CloseBracket, PortColon, AuthorityPrinted, HostOffset;
    AuthorityIs(u);
    Brackets(u.userinfo, AtSign(u), OpenBracket(u), BareHost(u.host), CloseBracket(u), PortColon(u), u.port);
  }

  lemma AuthorityIs(u: Url)
    ensures AuthorityPrinted(u) ==
            u.userinfo + AtSign(u) + (OpenBracket(u) + BareHost(u.host) + CloseBracket(u) + (PortColon(u) + u.port))
    ensures HostOffset(u) == |u.userinfo + AtSign(u)| + |OpenBracket(u)|
  {
    hide BareHost, HostPrinted, UserinfoPrinted, PortPrinted;
    PartsPrinted(u);
  }

  lemma PartsPrinted(u: Url)
    ensures UserinfoPrinted(u.userinfo) == u.userinfo + AtSign(u)
    ensures HostPrinted(u.host) == OpenBracket(u) + BareHost(u.host) + CloseBracket(u)
    ensures PortPrinted(u.port) == PortColon(u) + u.port
  {
  }

  lemma Brackets(userinfo: seq<Octet>, at: seq<Octet>, open: seq<Octet>, bare: seq<Octet>, close: seq<Octet>, colon: seq<Octet>,
                 port: seq<Octet>)
    ensures var h, lo := userinfo + at + (open + bare + close + (colon + port)), |userinfo + at| + |open|;
            && h[0..|userinfo|] == userinfo && h[lo..lo + |bare|] == bare && h[|h| - |port|..|h|] == port
  {
  }

  // ----- Both passes over a whole URL

  lemma FirstPassFinds(u: Url)
    requires ValidParts(u)
    ensures var t, a := UrlPrinted(u), |u.scheme| + 3;
            var p := a + |AuthorityPrinted(u)|;
            var q := p + |u.path|;
            && (Scan(t, false) == At(ReqPath) || Scan(t, false) == At(ReqQuery) || Scan(t, false) == At(ReqFragment))
            && FoundAt(t, false) == (u.userinfo != [])
            && Below(t, false, 0) == 0 && Below(t, false, 1) == |u.scheme|
            && Below(t, false, 4) == a && Below(t, false, 5) == p && Below(t, false, 6) == q
            && Below(t, false, 7) == q + (if u.query == [] then 0 else 1)
            && Below(t, false, 8) == q + |After('?', u.query)|
            && Below(t, false, 9) == |t| - |u.fragment| && Below(t, false, 10) == |t|
  {
    hide Scan, Below, FoundAt, ScanNext, AuthorityPrinted, ValidHost;
    var b := u.scheme + COLON_SLASHES;
    SchemeStage(u.scheme);
    AuthorityStage(b, u);
    var c := b + AuthorityPrinted(u);
    PathScans(u.path);
    SteadyScan(c, u.path, At(ReqPath), false);
    QueryStage(c + u.path, u.query);
    FragmentStage(c + u.path + After('?', u.query), u.fragment);
    Regroup(c + u.path, After('?', u.query), After('#', u.fragment));
  }

  lemma FrontCuts(scheme: seq<Octet>, slashes: seq<Octet>, h: seq<Octet>, path: seq<Octet>, rest: seq<Octet>)
    ensures var t, a := scheme + slashes + h + path + rest, |scheme| + |slashes|;
            && t[0..|scheme|] == scheme && t[a..a + |h|] == h && t[a + |h|..a + |h| + |path|] == path
  {
  }

  lemma BackCuts(front: seq<Octet>, mark: seq<Octet>, query: seq<Octet>, mark': seq<Octet>, fragment: seq<Octet>)
    ensures var t, q := front + ((mark + query) + (mark' + fragment)), |front| + |mark|;
            && t[q..q + |query|] == query && t[|t| - |fragment|..|t|] == fragment
  {
  }

  // Where the components stand in the printed URL
  lemma Layout(u: Url)
    ensures var t, a := UrlPrinted(u), |u.scheme| + 3;
            var p := a + |AuthorityPrinted(u)|;
            var q := p + |u.path|;
            var e := q + |After('?', u.query)|;
            && q <= e <= |t| && |u.fragment| <= |t| && |u.query| <= e
            && t[0..|u.scheme|] == u.scheme && t[a..p] == AuthorityPrinted(u) && t[p..q] == u.path
            && t[e - |u.query|..e] == u.query && t[|t| - |u.fragment|..|t|] == u.fragment
  {
    hide AuthorityPrinted, UrlPrinted, After;
    PrintedIs(u);
    AfterIs('?', u.query);
    AfterIs('#', u.fragment);
    var front := u.scheme + COLON_SLASHES + AuthorityPrinted(u) + u.path;
    FrontCuts(u.scheme, COLON_SLASHES, AuthorityPrinted(u), u.path, After('?', u.query) + After('#', u.fragment));
    BackCuts(front, if u.query == [] then [] else ['?'], u.query, if u.fragment == [] then [] else ['#'], u.fragment);
  }

  lemma Regroup(a: seq<Octet>, b: seq<Octet>, c: seq<Octet>)
    ensures a + b + c == a + (b + c)
  {
  }

  lemma OuterTexts(u: Url)
    requires ValidParts(u)
    ensures var t := UrlPrinted(u);
            && Text(t, false, Schema) == u.scheme && Text(t, false, Path) == u.path
            && Text(t, false, Query) == u.query && Text(t, false, Fragment) == u.fragment
            && Authority(t, false) == AuthorityPrinted(u) && OuterHas(t, false, Host)
  {
    hide Scan, Below, FoundAt, Text, AuthorityPrinted, ValidParts, UrlPrinted, After;
    var t := UrlPrinted(u);
    FirstPassFinds(u);
    AuthorityNotEmpty(u);
    AfterIs('?', u.query);
    Layout(u);
    OuterText(t, Schema);
    OuterText(t, Path);
    OuterText(t, Query);
    OuterText(t, Fragment);
  }

  lemma OuterText(t: seq<Octet>, f: UrlField)
    requires !InAuthority(f)
    ensures var lo, hi := Below(t, false, RankOf(f)), Below(t, false, RankOf(f) + 1);
            lo <= hi <= |t| && Text(t, false, f) == t[lo..hi]
  {
    hide Scan, Below;
    FirstInBounds(t, false, f);
  }

  lemma PrintedIs(u: Url)
    ensures UrlPrinted(u) ==
            u.scheme + COLON_SLASHES + AuthorityPrinted(u) + u.path + (After('?', u.query) + After('#', u.fragment))
    ensures UrlPrinted(u) != []
  {
  }

  lemma AfterIs(mark: Octet, text: seq<Octet>)
    ensures After(mark, text) == (if text == [] then [] else [mark]) + text
  {
  }

  lemma Within(t: seq<Octet>, a: nat, p: nat, lo: nat, hi: nat)
    requires a <= p <= |t| && lo <= hi <= p - a
    ensures t[a..p][lo..hi] == t[a + lo..a + hi]
  {
    forall k | 0 <= k < hi - lo ensures t[a..p][lo..hi][k] == t[a + lo..a + hi][k] {
    }
  }

  lemma InnerText(t: seq<Octet>, f: UrlField)
    requires InAuthority(f)
    ensures var s := HostSpan(Authority(t, false), FoundAt(t, false), f);
            s.lo <= s.hi <= |Authority(t, false)| && Text(t, false, f) == Authority(t, false)[s.lo..s.hi]
  {
    hide Scan, Below, FoundAt, HostBelow;
    HostBelowGrows(Authority(t, false), FoundAt(t, false), HostRankOf(f), HostRankOf(f) + 1);
    FirstInBounds(t, false, Host);
    var o, s := FirstSpan(t, false, Host), HostSpan(Authority(t, false), FoundAt(t, false), f);
    Within(t, o.lo, o.hi, s.lo, s.hi);
  }

  lemma InnerTexts(u: Url)
    requires ValidParts(u)
    ensures var t := UrlPrinted(u);
            && Text(t, false, Userinfo) == u.userinfo && Text(t, false, Host) == BareHost(u.host)
            && Text(t, false, Port) == u.port && HostAccepted(Authority(t, false), FoundAt(t, false))
  {
    hide Scan, Below, FoundAt, HostScan, HostBelow, HostAccepted, Text, Authority, AuthorityPrinted, BareHost, HostOffset,
         UrlPrinted, ValidHost;
    var t := UrlPrinted(u);
    FirstPassFinds(u);
    OuterTexts(u);
    AuthorityBelow(u);
    AuthorityParts(u);
    InnerText(t, Userinfo);
    InnerText(t, Host);
    InnerText(t, Port);
  }

  // URL round trip: from a printed URL come back its components, no more and no less.
  lemma UrlRoundTrip(u: Url)
    requires ValidParts(u)
    ensures var t := UrlPrinted(u);
            && Accepted(t, false) && PortOf(t, false) == DecimalValue(u.port)
            && Text(t, false, Schema) == u.scheme && Text(t, false, Userinfo) == u.userinfo
            && Text(t, false, Host) == BareHost(u.host) && Text(t, false, Port) == u.port
            && Text(t, false, Path) == u.path && Text(t, false, Query) == u.query && Text(t, false, Fragment) == u.fragment
  {
    hide Scan, Below, FoundAt, HostAccepted, Found, Authority, AuthorityPrinted, BareHost, UrlPrinted, ValidHost, DecimalValue,
         FirstSpan;
    var t := UrlPrinted(u);
    FirstPassFinds(u);
    OuterTexts(u);
    InnerTexts(u);
    FoundInBounds(t, false, Port);
    NoPort();
  }

  lemma AuthorityNotEmpty(u: Url)
    requires ValidParts(u)
    ensures AuthorityPrinted(u) != []
  {
    HostIsServerBytes(u.host, u.port);
  }

  lemma NoPort()
    ensures DecimalValue([]) == 0
  {
  }
}
