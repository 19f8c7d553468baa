// http_parser_parse_url: what the two passes over a URL find.
module HttpUrl {
  import opened HttpChars
  import opened HttpMachine
  import opened HttpTypes
  import opened HttpLengths

  datatype UrlField = Schema | Host | Port | Path | Query | Fragment | Userinfo

  // From `lo` up to `hi`
  datatype Span = Span(lo: nat, hi: nat)

  // ----- The first pass, with parse_url_char

  datatype Scanned = BeforeUrl | At(state: UrlState) | Dead

  function ScanStart(connect: bool): Scanned {
    if connect then At(ReqServerStart) else BeforeUrl
  }

  function ScanNext(s: Scanned, ch: Octet): Scanned {
    var r := match s
      case BeforeUrl => FirstUrlChar(ch)
      case At(state) => UrlChar(state, ch)
      case Dead => UrlDead;
    if r.UrlNext? then At(r.state) else Scanned.Dead
  }

  // The state after all of `b`
  function Scan(b: seq<Octet>, connect: bool): Scanned {
    if b == [] then ScanStart(connect) else ScanNext(Scan(b[..|b| - 1], connect), b[|b| - 1])
  }

  // How far along a URL a state is; what is sent in one state or two has one rank.
  function Rank(s: Scanned): int {
    match s
    case BeforeUrl => -1
    case Dead => 10
    case At(ReqSchema) => 0
    case At(ReqSchemaSlash) => 1
    case At(ReqSchemaSlashSlash) => 2
    case At(ReqServerStart) => 3
    case At(ReqServer) => 4
    case At(ReqServerWithAt) => 4
    case At(ReqPath) => 5
    case At(ReqQueryStart) => 6
    case At(ReqQuery) => 7
    case At(ReqFragmentStart) => 8
    case At(ReqFragment) => 9
  }

  // A URL is read from left to right: no state comes back once it was left.
  lemma RankGrows(s: Scanned, ch: Octet)
    ensures Rank(s) <= Rank(ScanNext(s, ch))
    ensures s.Dead? ==> ScanNext(s, ch).Dead?
  {
    hide IsUrlChar, IsUserinfoChar, IsAlpha;
  }

  // How many bytes come before those of rank `r`
  function Below(b: seq<Octet>, connect: bool, r: int): (n: nat)
    ensures n <= |b|
  {
    if b == [] then 0
    else if Rank(Scan(b, connect)) < r then |b|
    else Below(b[..|b| - 1], connect, r)
  }

  lemma {:induction false} BelowGrows(b: seq<Octet>, connect: bool, r: int, r': int)
    requires r <= r'
    ensures Below(b, connect, r) <= Below(b, connect, r')
  {
    if b != [] {
      BelowGrows(b[..|b| - 1], connect, r, r');
    }
  }

  function RankOf(f: UrlField): int {
    match f
    case Schema => 0
    case Host => 4
    case Port => 4
    case Userinfo => 4
    case Path => 5
    case Query => 7
    case Fragment => 9
  }

  // The bytes that the first pass gives to a field
  function FirstSpan(b: seq<Octet>, connect: bool, f: UrlField): Span {
    Span(Below(b, connect, RankOf(f)), Below(b, connect, RankOf(f) + 1))
  }

  // Whether the scan passed an '@'
  function FoundAt(b: seq<Octet>, connect: bool): bool {
    b != [] && (Scan(b, connect) == At(ReqServerWithAt) || FoundAt(b[..|b| - 1], connect))
  }

  // ----- The second pass, with http_parse_host_char

  datatype HostState =
    | UserinfoStart | UserinfoText | HostStart | HostV6Start | HostName | HostV6 | HostV6End
    | HostV6ZoneStart | HostV6Zone | HostPortStart | HostPort | HostDead

  function HostChar(s: HostState, ch: Octet): HostState {
    match s
    case UserinfoStart => if ch == '@' then HostStart else if IsUserinfoChar(ch) then UserinfoText else HostDead
    case UserinfoText => if ch == '@' then HostStart else if IsUserinfoChar(ch) then UserinfoText else HostDead
    case HostStart => if ch == '[' then HostV6Start else if IsHostChar(ch) then HostName else HostDead
    case HostName => if IsHostChar(ch) then HostName else if ch == ':' then HostPortStart else HostDead
    case HostV6End => if ch == ':' then HostPortStart else HostDead
    case HostV6 =>
      if ch == ']' then HostV6End
      else if IsHex(ch) || ch == ':' || ch == '.' then HostV6
      else if ch == '%' then HostV6ZoneStart
      else HostDead
    case HostV6Start => if IsHex(ch) || ch == ':' || ch == '.' then HostV6 else HostDead
    case HostV6Zone => if ch == ']' then HostV6End else if IsZoneChar(ch) then HostV6Zone else HostDead
    case HostV6ZoneStart => if IsZoneChar(ch) then HostV6Zone else HostDead
    case HostPort => if IsNum(ch) then HostPort else HostDead
    case HostPortStart => if IsNum(ch) then HostPort else HostDead
    case HostDead => HostDead
  }

  // unreserved / pct-encoded, as in RFC 6874
  predicate IsZoneChar(ch: Octet) {
    IsAlphaNum(ch) || ch == '%' || ch == '.' || ch == '-' || ch == '_' || ch == '~'
  }

  function HostScan(h: seq<Octet>, foundAt: bool): HostState {
    if h == [] then (if foundAt then UserinfoStart else HostStart)
    else HostChar(HostScan(h[..|h| - 1], foundAt), h[|h| - 1])
  }

  function HostRank(s: HostState): int {
    match s
    case UserinfoStart => 0
    case UserinfoText => 1
    case HostStart => 2
    case HostV6Start => 3
    case HostName => 4
    case HostV6 => 4
    case HostV6ZoneStart => 4
    case HostV6Zone => 4
    case HostV6End => 5
    case HostPortStart => 6
    case HostPort => 7
    case HostDead => 8
  }

  lemma HostRankGrows(s: HostState, ch: Octet)
    ensures HostRank(s) <= HostRank(HostChar(s, ch))
  {
    hide IsUserinfoChar, IsHostChar, IsZoneChar, IsHex, IsNum;
  }

  function HostBelow(h: seq<Octet>, foundAt: bool, r: int): (n: nat)
    ensures n <= |h|
  {
    if h == [] then 0
    else if HostRank(HostScan(h, foundAt)) < r then |h|
    else HostBelow(h[..|h| - 1], foundAt, r)
  }

  lemma {:induction false} HostBelowGrows(h: seq<Octet>, foundAt: bool, r: int, r': int)
    requires r <= r'
    ensures HostBelow(h, foundAt, r) <= HostBelow(h, foundAt, r')
  {
    if h != [] {
      HostBelowGrows(h[..|h| - 1], foundAt, r, r');
    }
  }

  function HostRankOf(f: UrlField): int {
    match f
    case Userinfo => 1
    case Port => 7
    case _ => 4
  }

  function HostSpan(h: seq<Octet>, foundAt: bool, f: UrlField): Span {
    Span(HostBelow(h, foundAt, HostRankOf(f)), HostBelow(h, foundAt, HostRankOf(f) + 1))
  }

  predicate HostAccepted(h: seq<Octet>, foundAt: bool) {
    var s := HostScan(h, foundAt);
    s.HostName? || s.HostV6End? || s.HostPort?
  }

  // ----- Both passes

  function Authority(b: seq<Octet>, connect: bool): seq<Octet> {
    var o := FirstSpan(b, connect, Host);
    BelowGrows(b, connect, RankOf(Host), RankOf(Host) + 1);
    b[o.lo..o.hi]
  }

  predicate InAuthority(f: UrlField) {
    f.Host? || f.Port? || f.Userinfo?
  }

  // Where a field stands in the end
  function Found(b: seq<Octet>, connect: bool, f: UrlField): Span {
    var o := FirstSpan(b, connect, f);
    if !InAuthority(f) then o
    else
      var i := HostSpan(Authority(b, connect), FoundAt(b, connect), f);
      Span(o.lo + i.lo, o.lo + i.hi)
  }

  predicate Has(b: seq<Octet>, connect: bool, f: UrlField) {
    Found(b, connect, f).lo < Found(b, connect, f).hi
  }

  function Text(b: seq<Octet>, connect: bool, f: UrlField): seq<Octet> {
    FoundInBounds(b, connect, f);
    b[Found(b, connect, f).lo..Found(b, connect, f).hi]
  }

  // What the port's digits stand for
  function PortOf(b: seq<Octet>, connect: bool): nat {
    if Has(b, connect, Port) then DecimalValue(Text(b, connect, Port)) else 0
  }

  const MAX_PORT: nat := 0xFFFF

  predicate OuterHas(b: seq<Octet>, connect: bool, f: UrlField) {
    FirstSpan(b, connect, f).lo < FirstSpan(b, connect, f).hi
  }

  // When http_parser_parse_url returns zero
  predicate Accepted(b: seq<Octet>, connect: bool) {
    && !Scan(b, connect).Dead?
    && (OuterHas(b, connect, Schema) ==> OuterHas(b, connect, Host))
    && (OuterHas(b, connect, Host) ==> HostAccepted(Authority(b, connect), FoundAt(b, connect)))
    && (connect ==> forall f :: Has(b, connect, f) <==> f == Host || f == Port)
    && PortOf(b, connect) <= MAX_PORT
  }

  // ----- What is found lies in order

  lemma FirstInBounds(b: seq<Octet>, connect: bool, f: UrlField)
    ensures FirstSpan(b, connect, f).lo <= FirstSpan(b, connect, f).hi <= |b|
  {
    hide Scan, Below;
    BelowGrows(b, connect, RankOf(f), RankOf(f) + 1);
  }

  lemma FoundInBounds(b: seq<Octet>, connect: bool, f: UrlField)
    ensures var s := Found(b, connect, f);
            s.lo <= s.hi <= |b| && (InAuthority(f) ==> s.hi <= FirstSpan(b, connect, f).hi && s.lo >= FirstSpan(b, connect, f).lo)
  {
    hide Scan, Below, HostScan, HostBelow;
    BelowGrows(b, connect, RankOf(f), RankOf(f) + 1);
    if InAuthority(f) {
      HostBelowGrows(Authority(b, connect), FoundAt(b, connect), HostRankOf(f), HostRankOf(f) + 1);
    }
  }

  // The order in which the fields of a URL are written
  function Place(f: UrlField): nat {
    match f
    case Schema => 0
    case Userinfo => 1
    case Host => 2
    case Port => 3
    case Path => 4
    case Query => 5
    case Fragment => 6
  }

  // Whatever was found lies within the buffer, no two fields overlap, and they
  // stand in the order of section 3 of RFC 3986.
  lemma FoundInOrder(b: seq<Octet>, connect: bool, f: UrlField, g: UrlField)
    requires Place(f) < Place(g)
    ensures Found(b, connect, f).lo <= Found(b, connect, f).hi <= Found(b, connect, g).lo <= Found(b, connect, g).hi <= |b|
  {
    hide Scan, Below, HostScan, HostBelow;
    FoundInBounds(b, connect, f);
    FoundInBounds(b, connect, g);
    if InAuthority(f) && InAuthority(g) {
      HostBelowGrows(Authority(b, connect), FoundAt(b, connect), HostRankOf(f) + 1, HostRankOf(g));
    } else {
      BelowGrows(b, connect, RankOf(f) + 1, RankOf(g));
    }
  }

  // An authority that is accepted has a host in it.
  lemma {:induction false} HostNotEmpty(h: seq<Octet>, foundAt: bool)
    requires 4 <= HostRank(HostScan(h, foundAt)) < 8
    ensures HostBelow(h, foundAt, 4) < HostBelow(h, foundAt, 5)
  {
    hide IsUserinfoChar, IsHostChar, IsZoneChar, IsHex, IsNum;
    var init := h[..|h| - 1];
    if HostRank(HostScan(h, foundAt)) > 4 {
      HostNotEmpty(init, foundAt);
    }
  }

  lemma {:induction false} PortIsDigits(h: seq<Octet>, foundAt: bool, k: nat)
    requires HostBelow(h, foundAt, 7) <= k < HostBelow(h, foundAt, 8)
    ensures IsNum(h[k])
  {
    hide IsUserinfoChar, IsHostChar, IsZoneChar, IsHex, IsNum;
    var init, ch := h[..|h| - 1], h[|h| - 1];
    HostRankGrows(HostScan(init, foundAt), ch);
    if k < |h| - 1 {
      assert HostRank(HostScan(h, foundAt)) >= 7;
      PortIsDigits(init, foundAt, k);
    }
  }
}
