// The other forms of a request target in section 5.3 of RFC 7230: the origin
// form, the asterisk, and the authority form of CONNECT.
module HttpUrlForms {
  import opened HttpChars
  import opened HttpMachine
  import opened HttpTypes
  import opened HttpLengths
  import opened HttpUrl
  import opened HttpUrlTrip

  // ----- Origin form

  predicate ValidOrigin(path: seq<Octet>, query: seq<Octet>, fragment: seq<Octet>) {
    && path != [] && (path[0] == '/' || path[0] == '*') && (forall k :: 0 <= k < |path| ==> IsUrlChar(path[k]))
    && (forall k :: 0 <= k < |query| ==> IsUrlChar(query[k]) || query[k] == '?')
    && (forall k :: 0 <= k < |fragment| ==> IsUrlChar(fragment[k]) || fragment[k] == '?' || fragment[k] == '#')
    && (fragment != [] ==> fragment[0] != '#')
  }

  function OriginPrinted(path: seq<Octet>, query: seq<Octet>, fragment: seq<Octet>): seq<Octet> {
    path + (After('?', query) + After('#', fragment))
  }

  lemma OriginScans(path: seq<Octet>)
    requires path != [] && (path[0] == '/' || path[0] == '*') && forall k :: 0 <= k < |path| ==> IsUrlChar(path[k])
    ensures Steady([], path, At(ReqPath), false)
  {
  }

  lemma OriginFinds(path: seq<Octet>, query: seq<Octet>, fragment: seq<Octet>)
    requires ValidOrigin(path, query, fragment)
    ensures var t := OriginPrinted(path, query, fragment);
            && !Scan(t, false).Dead? && !FoundAt(t, false)
            && (forall r :: r <= 5 ==> Below(t, false, r) == 0) && Below(t, false, 6) == |path|
            && Below(t, false, 7) == |path| + (if query == [] then 0 else 1)
            && Below(t, false, 8) == |path| + |After('?', query)|
            && Below(t, false, 9) == |t| - |fragment| && Below(t, false, 10) == |t|
  {
    hide Scan, Below, FoundAt, ScanNext;
    ScanOfNothing();
    OriginScans(path);
    assert [] + path == path;
    SteadyScan([], path, At(ReqPath), false);
    QueryStage(path, query);
    FragmentStage(path + After('?', query), fragment);
    Regroup(path, After('?', query), After('#', fragment));
  }

  // Nothing stands in front of rank 5: no scheme, and no authority.
  lemma NoAuthority(t: seq<Octet>, f: UrlField)
    requires (f == Schema || InAuthority(f)) && forall r :: r <= 5 ==> Below(t, false, r) == 0
    ensures !Has(t, false, f) && !OuterHas(t, false, Schema) && !OuterHas(t, false, Host)
  {
    hide Scan, Below, FoundAt, HostBelow;
    FoundInBounds(t, false, f);
  }

  // A path, with or without query and fragment, is accepted with exactly these.
  lemma OriginRoundTrip(path: seq<Octet>, query: seq<Octet>, fragment: seq<Octet>)
    requires ValidOrigin(path, query, fragment)
    ensures var t := OriginPrinted(path, query, fragment);
            && Accepted(t, false) && PortOf(t, false) == 0
            && Text(t, false, Path) == path && Text(t, false, Query) == query && Text(t, false, Fragment) == fragment
            && !Has(t, false, Schema) && !Has(t, false, Host) && !Has(t, false, Port) && !Has(t, false, Userinfo)
  {
    hide Scan, Below, FoundAt, Text, Has, OuterHas, HostAccepted, Authority, OriginPrinted, After, ValidOrigin;
    var t := OriginPrinted(path, query, fragment);
    OriginFinds(path, query, fragment);
    OuterText(t, Path);
    OuterText(t, Query);
    OuterText(t, Fragment);
    NoAuthority(t, Schema);
    NoAuthority(t, Host);
    NoAuthority(t, Port);
    NoAuthority(t, Userinfo);
    OriginCuts(path, query, fragment);
  }

  // Where path, query and fragment stand
  lemma OriginCuts(path: seq<Octet>, query: seq<Octet>, fragment: seq<Octet>)
    ensures var t, q := OriginPrinted(path, query, fragment), |path| + |After('?', query)|;
            && |query| <= |After('?', query)| && q <= |t| && |fragment| <= |t|
            && t[0..|path|] == path && t[q - |query|..q] == query && t[|t| - |fragment|..|t|] == fragment
            && q - |query| == |path| + if query == [] then 0 else 1
  {
    hide After;
    BackCuts(path, if query == [] then [] else ['?'], query, if fragment == [] then [] else ['#'], fragment);
    AfterIs('?', query);
    AfterIs('#', fragment);
  }

  // "*" is accepted as a path, and as nothing else.
  lemma AsteriskRoundTrip(f: UrlField)
    ensures Accepted("*", false) && Text("*", false, Path) == "*"
    ensures Has("*", false, f) ==> f == Path
  {
    hide Accepted, Text, Has, ValidOrigin;
    var t: seq<Octet> := "*";
    AsteriskIsOrigin();
    OriginRoundTrip(t, [], []);
    if f == Query || f == Fragment {
      if Has(t, false, f) {
        NoText(t, f);
      }
    }
  }

  lemma AsteriskIsOrigin()
    ensures ValidOrigin("*", [], []) && OriginPrinted("*", [], []) == "*"
  {
  }

  lemma NoText(t: seq<Octet>, f: UrlField)
    requires Has(t, false, f)
    ensures Text(t, false, f) != []
  {
    hide Found;
    FoundInBounds(t, false, f);
  }

  // ----- Authority form

  lemma ConnectOfNothing()
    ensures Scan([], true) == At(ReqServerStart) && !FoundAt([], true) && forall r :: Below([], true, r) == 0
  {
  }

  lemma ServerScans(w: seq<Octet>)
    requires w != [] && forall k :: 0 <= k < |w| ==> ServerByte(w[k])
    ensures Steady([], w, At(ReqServer), true)
  {
    hide ServerByte, ScanNext;
    assert Scan([], true) == At(ReqServerStart);
    forall k | 0 <= k < |w| ensures ScanNext(At(ReqServer), w[k]) == At(ReqServer) {
      ServerByteScans(At(ReqServer), w[k]);
    }
    ServerByteScans(At(ReqServerStart), w[0]);
  }

  function ConnectPrinted(host: HostText, port: seq<Octet>): seq<Octet> {
    HostPrinted(host) + PortPrinted(port)
  }

  // The first pass gives all of it to the authority.
  lemma ConnectFinds(host: HostText, port: seq<Octet>)
    requires ValidHost(host) && forall k :: 0 <= k < |port| ==> IsNum(port[k])
    ensures var t := ConnectPrinted(host, port);
            && !Scan(t, true).Dead? && !FoundAt(t, true) && OuterHas(t, true, Host) && Authority(t, true) == t
            && (forall r :: r <= 4 ==> Below(t, true, r) == 0) && (forall r :: r >= 5 ==> Below(t, true, r) == |t|)
  {
    hide Scan, Below, FoundAt;
    var t := ConnectPrinted(host, port);
    HostIsServerBytes(host, port);
    ConnectOfNothing();
    ServerScans(t);
    assert [] + t == t;
    SteadyScan([], t, At(ReqServer), true);
    assert t[0..|t|] == t;
  }

  lemma ConnectBelow(host: HostText, port: seq<Octet>)
    requires ValidHost(host) && forall k :: 0 <= k < |port| ==> IsNum(port[k])
    ensures var h, lo := ConnectPrinted(host, port), if host.Name? then 0 else 1;
            && HostAccepted(h, false) && HostBelow(h, false, 1) == 0 && HostBelow(h, false, 2) == 0
            && HostBelow(h, false, 4) == lo && HostBelow(h, false, 5) == lo + |BareHost(host)|
            && HostBelow(h, false, 7) == |h| - |port| && HostBelow(h, false, 8) == |h|
            && lo + |BareHost(host)| <= |h| && h[lo..lo + |BareHost(host)|] == BareHost(host)
            && |port| <= |h| && h[|h| - |port|..] == port && BareHost(host) != []
  {
    hide HostScan, HostBelow, HostAccepted, HostPrinted, BareHost, ValidHost, PortPrinted;
    HostOfNothing(false);
    assert [] + HostPrinted(host) == HostPrinted(host);
    HostStage([], false, host);
    PortStage(HostPrinted(host), false, port);
    ConnectCuts(host, port);
  }

  // Where host and port stand
  lemma ConnectCuts(host: HostText, port: seq<Octet>)
    requires ValidHost(host)
    ensures var h, lo := ConnectPrinted(host, port), if host.Name? then 0 else 1;
            && lo + |BareHost(host)| <= |HostPrinted(host)| <= |h| && h[lo..lo + |BareHost(host)|] == BareHost(host)
            && |port| <= |h| && h[|h| - |port|..] == port && BareHost(host) != []
  {
    hide BareHost, HostPrinted;
    Cuts(if host.Name? then [] else ['['], BareHost(host), if host.Name? then [] else [']'],
         if port == [] then [] else [':'], port);
    HostIs(host);
    assert PortPrinted(port) == (if port == [] then [] else [':']) + port;
  }

  lemma HostIs(host: HostText)
    requires ValidHost(host)
    ensures BareHost(host) != []
    ensures HostPrinted(host) == (if host.Name? then [] else ['[']) + BareHost(host) + if host.Name? then [] else [']']
  {
  }

  lemma Cuts(open: seq<Octet>, bare: seq<Octet>, close: seq<Octet>, colon: seq<Octet>, port: seq<Octet>)
    ensures var h := open + bare + close + (colon + port);
            h[|open|..|open| + |bare|] == bare && h[|h| - |port|..] == port
  {
  }

  lemma ConnectText(t: seq<Octet>, f: UrlField)
    requires !FoundAt(t, true) && Authority(t, true) == t && InAuthority(f)
    requires (forall r :: r <= 4 ==> Below(t, true, r) == 0) && (forall r :: r >= 5 ==> Below(t, true, r) == |t|)
    ensures var lo, hi := HostBelow(t, false, HostRankOf(f)), HostBelow(t, false, HostRankOf(f) + 1);
            lo <= hi <= |t| && Text(t, true, f) == t[lo..hi] && (Has(t, true, f) <==> lo < hi)
  {
    hide Scan, Below, FoundAt, HostBelow, Authority;
    HostBelowGrows(t, false, HostRankOf(f), HostRankOf(f) + 1);
  }

  lemma ConnectHasNo(t: seq<Octet>, f: UrlField)
    requires !InAuthority(f)
    requires (forall r :: r <= 4 ==> Below(t, true, r) == 0) && (forall r :: r >= 5 ==> Below(t, true, r) == |t|)
    ensures !Has(t, true, f)
  {
    hide Scan, Below;
  }

  // The target of a CONNECT request is accepted exactly if it has a port of at
  // most 2^16 - 1, and then with exactly its host and its port.
  lemma ConnectRoundTrip(host: HostText, port: seq<Octet>)
    requires ValidHost(host) && forall k :: 0 <= k < |port| ==> IsNum(port[k])
    ensures var t := ConnectPrinted(host, port);
            && (Accepted(t, true) <==> port != [] && DecimalValue(port) <= MAX_PORT)
            && Text(t, true, Host) == BareHost(host) && Text(t, true, Port) == port
            && (port != [] ==> PortOf(t, true) == DecimalValue(port))
            && !Has(t, true, Schema) && !Has(t, true, Userinfo) && !Has(t, true, Path) && !Has(t, true, Query)
            && !Has(t, true, Fragment)
  {
    hide Scan, Below, FoundAt, Text, Has, HostAccepted, Authority, ConnectPrinted, ValidHost, BareHost, DecimalValue, HostBelow,
         FirstSpan;
    var t := ConnectPrinted(host, port);
    ConnectFinds(host, port);
    ConnectBelow(host, port);
    forall f | !InAuthority(f) ensures !Has(t, true, f) {
      ConnectHasNo(t, f);
    }
    ConnectText(t, Host);
    ConnectText(t, Port);
    ConnectText(t, Userinfo);
    assert t[|t| - |port|..|t|] == port;
    AcceptedConnect(t);
  }

  // What is asked of a CONNECT target, once its authority is accepted
  lemma AcceptedConnect(t: seq<Octet>)
    requires !Scan(t, true).Dead? && !FoundAt(t, true) && OuterHas(t, true, Host) && HostAccepted(Authority(t, true), false)
    requires Has(t, true, Host) && forall f :: f != Host && f != Port ==> !Has(t, true, f)
    ensures Accepted(t, true) <==> Has(t, true, Port) && PortOf(t, true) <= MAX_PORT
  {
    hide Scan, FoundAt, HostAccepted, Authority, Has, OuterHas, PortOf;
  }

  // ----- A scheme without a host

  lemma {:induction false} BelowStays(b: seq<Octet>, w: seq<Octet>, r: int)
    requires b != [] && Rank(Scan(b, false)) >= r
    ensures Below(b + w, false, r) == Below(b, false, r) && Rank(Scan(b + w, false)) >= r
  {
    hide ScanNext, Rank;
    if w == [] {
      assert b + w == b;
    } else {
      var init := w[..|w| - 1];
      assert (b + w)[..|b + w| - 1] == b + init;
      BelowStays(b, init, r);
      RankGrows(Scan(b + init, false), w[|w| - 1]);
    }
  }

  lemma SlashEndsAuthority()
    ensures ScanNext(At(ReqServerStart), '/') == At(ReqPath) && Rank(At(ReqPath)) == 5
  {
  }

  // "http:///path" is refused, whatever follows the third slash.
  lemma NoHostIsRefused(scheme: seq<Octet>, rest: seq<Octet>)
    requires scheme != [] && forall k :: 0 <= k < |scheme| ==> IsAlpha(scheme[k])
    ensures !Accepted(scheme + COLON_SLASHES + (['/'] + rest), false)
  {
    hide Scan, Below, FoundAt, HostAccepted, Authority, Rank, ScanNext;
    var b := scheme + COLON_SLASHES;
    SchemeStage(scheme);
    SlashEndsAuthority();
    SteadyScan(b, ['/'], At(ReqPath), false);
    var t := b + ['/'] + rest;
    assert b + (['/'] + rest) == t;
    BelowStays(b + ['/'], rest, 0);
    BelowStays(b + ['/'], rest, 1);
    BelowStays(b + ['/'], rest, 4);
    BelowStays(b + ['/'], rest, 5);
    SchemeWithoutHost(t);
  }

  lemma SchemeWithoutHost(t: seq<Octet>)
    requires Below(t, false, 0) < Below(t, false, 1) && Below(t, false, 4) == Below(t, false, 5)
    ensures !Accepted(t, false)
  {
    hide Scan, Below, FoundAt, HostAccepted, Authority;
  }
}
