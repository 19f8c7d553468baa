// http_parser_parse_url and http_parse_host, which fill a struct http_parser_url.
module HttpUrlParser {
  import opened HttpChars
  import opened HttpMachine
  import opened HttpTypes
  import opened HttpLengths
  import opened HttpUrl

  // An entry of `field_data`
  datatype Range = Range(off: nat, len: nat)

  predicate Fits(r: Range, s: Span) {
    r.off == s.lo && r.off + r.len == s.hi
  }

  // The fields of the first pass
  predicate OuterField(f: UrlField) {
    f != Port && f != Userinfo
  }

  // What the switch makes of a state: the field that the byte belongs to, if any.
  datatype Sort = Delimiter | Part(field: UrlField) | Unexpected

  function SortOf(s: Scanned): Sort {
    match s
    case At(ReqSchemaSlash) => Delimiter
    case At(ReqSchemaSlashSlash) => Delimiter
    case At(ReqServerStart) => Delimiter
    case At(ReqQueryStart) => Delimiter
    case At(ReqFragmentStart) => Delimiter
    case At(ReqSchema) => Part(Schema)
    case At(ReqServerWithAt) => Part(Host)
    case At(ReqServer) => Part(Host)
    case At(ReqPath) => Part(Path)
    case At(ReqQuery) => Part(Query)
    case At(ReqFragment) => Part(Fragment)
    case _ => Unexpected
  }

  datatype LastField = NoField | Last(field: UrlField)

  // The fields set so far are those that the first pass has found in `b`.
  predicate FirstPass(b: seq<Octet>, connect: bool, set': set<UrlField>, data: map<UrlField, Range>, last: LastField) {
    && !Scan(b, connect).Dead?
    && (forall f :: f in set' <==> OuterField(f) && OuterHas(b, connect, f))
    && (forall f :: f in set' ==> f in data && Fits(data[f], FirstSpan(b, connect, f)))
    && (last.Last? ==> last.field in set' && RankOf(last.field) <= Rank(Scan(b, connect)))
    && (SortOf(Scan(b, connect)).Part? && b != [] ==> last == Last(SortOf(Scan(b, connect)).field))
  }

  // How one more byte changes where the bytes below a rank end
  lemma BelowNext(b: seq<Octet>, ch: Octet, connect: bool, r: int)
    ensures var s, next := Scan(b, connect), Scan(b + [ch], connect);
            && next == ScanNext(s, ch) && Rank(s) <= Rank(next)
            && Below(b + [ch], connect, r) == (if Rank(next) < r then |b| + 1 else Below(b, connect, r))
            && (Rank(next) < r ==> Below(b, connect, r) == |b|)
            && (b != [] && Rank(s) < r ==> Below(b, connect, r) == |b|)
  {
    hide ScanNext;
    assert (b + [ch])[..|b|] == b;
    RankGrows(Scan(b, connect), ch);
  }

  // How one more byte changes what the first pass has found
  predicate SpanFollows(b: seq<Octet>, ch: Octet, connect: bool, f: UrlField) {
    var before, after := FirstSpan(b, connect, f), FirstSpan(b + [ch], connect, f);
    var was, rank := Rank(Scan(b, connect)), Rank(Scan(b + [ch], connect));
    && was <= rank && Scan(b + [ch], connect) == ScanNext(Scan(b, connect), ch)
    && (if rank == RankOf(f) then
          after == Span(before.lo, |b| + 1) && (if was == rank && b != [] then before.hi == |b| else before.lo == |b|)
        else (after.lo < after.hi <==> before.lo < before.hi) && (before.lo < before.hi ==> after == before))
  }

  lemma SpanNext(b: seq<Octet>, ch: Octet, connect: bool, f: UrlField)
    ensures SpanFollows(b, ch, connect, f)
  {
    hide Scan, Below;
    BelowNext(b, ch, connect, RankOf(f));
    BelowNext(b, ch, connect, RankOf(f) + 1);
    FirstInBounds(b, connect, f);
  }

  lemma PassDelimiter(b: seq<Octet>, ch: Octet, connect: bool, set': set<UrlField>, data: map<UrlField, Range>, last: LastField)
    requires FirstPass(b, connect, set', data, last) && SortOf(Scan(b + [ch], connect)).Delimiter?
    ensures FirstPass(b + [ch], connect, set', data, last)
  {
    hide Scan, FirstSpan, ScanNext;
    SpanNext(b, ch, connect, Host);
    forall f: UrlField
      ensures f in set' <==> OuterField(f) && OuterHas(b + [ch], connect, f)
      ensures f in set' ==> f in data && Fits(data[f], FirstSpan(b + [ch], connect, f))
    {
      SpanNext(b, ch, connect, f);
    }
  }

  lemma PassField(b: seq<Octet>, ch: Octet, connect: bool, set': set<UrlField>, data: map<UrlField, Range>, last: LastField)
    requires FirstPass(b, connect, set', data, last) && SortOf(Scan(b + [ch], connect)).Part?
    ensures var f := SortOf(Scan(b + [ch], connect)).field;
            if last == Last(f) then
              f in data && FirstPass(b + [ch], connect, set' + {f}, data[f := Range(data[f].off, data[f].len + 1)], last)
            else FirstPass(b + [ch], connect, set' + {f}, data[f := Range(|b|, 1)], Last(f))
  {
    hide Scan, FirstSpan, ScanNext;
    var g := SortOf(Scan(b + [ch], connect)).field;
    SpanNext(b, ch, connect, g);
    FirstInBounds(b, connect, g);
    SortHasRank(Scan(b, connect), Scan(b + [ch], connect));
    var data' := if last == Last(g) then data[g := Range(data[g].off, data[g].len + 1)] else data[g := Range(|b|, 1)];
    assert Fits(data'[g], FirstSpan(b + [ch], connect, g)) && OuterHas(b + [ch], connect, g);
    forall f: UrlField | f != g
      ensures f in set' + {g} <==> OuterField(f) && OuterHas(b + [ch], connect, f)
      ensures f in set' + {g} ==> f in data' && Fits(data'[f], FirstSpan(b + [ch], connect, f))
    {
      SpanNext(b, ch, connect, f);
    }
  }

  // A field is the only one of its rank.
  lemma SortHasRank(s: Scanned, next: Scanned)
    requires SortOf(next).Part?
    ensures var g := SortOf(next).field;
            && OuterField(g) && Rank(next) == RankOf(g)
            && (Rank(s) == RankOf(g) ==> SortOf(s) == Part(g))
            && forall f :: OuterField(f) && f != g ==> RankOf(f) != RankOf(g)
  {
  }

  // ----- The second pass

  // How one more byte changes what the second pass has found
  predicate HostSpanFollows(h: seq<Octet>, ch: Octet, foundAt: bool, f: UrlField) {
    var before, after := HostSpan(h, foundAt, f), HostSpan(h + [ch], foundAt, f);
    var was, rank := HostRank(HostScan(h, foundAt)), HostRank(HostScan(h + [ch], foundAt));
    && was <= rank && HostScan(h + [ch], foundAt) == HostChar(HostScan(h, foundAt), ch)
    && (if rank == HostRankOf(f) then
          after == Span(before.lo, |h| + 1) &&
          (if was == rank && h != [] then before.lo < before.hi == |h| else before.lo == |h|)
        else after.hi - after.lo == before.hi - before.lo && (before.lo < before.hi ==> after == before))
  }

  lemma HostBelowNext(h: seq<Octet>, ch: Octet, foundAt: bool, r: int)
    ensures var s, next := HostScan(h, foundAt), HostScan(h + [ch], foundAt);
            && next == HostChar(s, ch) && HostRank(s) <= HostRank(next)
            && HostBelow(h + [ch], foundAt, r) == (if HostRank(next) < r then |h| + 1 else HostBelow(h, foundAt, r))
            && (HostRank(next) < r || (h != [] && HostRank(s) < r) ==> HostBelow(h, foundAt, r) == |h|)
            && (h != [] && HostRank(s) >= r ==> HostBelow(h, foundAt, r) < |h|)
  {
    hide HostChar;
    assert (h + [ch])[..|h|] == h;
    HostRankGrows(HostScan(h, foundAt), ch);
  }

  lemma HostSpanNext(h: seq<Octet>, ch: Octet, foundAt: bool, f: UrlField)
    ensures HostSpanFollows(h, ch, foundAt, f) && HostSpan(h, foundAt, f).lo <= HostSpan(h, foundAt, f).hi <= |h|
  {
    hide HostScan, HostBelow, HostChar, HostRank;
    HostBelowNext(h, ch, foundAt, HostRankOf(f));
    HostBelowNext(h, ch, foundAt, HostRankOf(f) + 1);
    HostBelowGrows(h, foundAt, HostRankOf(f), HostRankOf(f) + 1);
  }

  // The entry of a field found in a span that begins at `base`; that of the host is kept while it is empty.
  predicate Entry(f: UrlField, set': set<UrlField>, data: map<UrlField, Range>, base: nat, s: Span) {
    && (f in set' <==> f.Host? || s.lo < s.hi)
    && (f in set' ==> f in data && data[f].len == s.hi - s.lo && (s.lo < s.hi ==> data[f].off == base + s.lo))
  }

  predicate SecondPass(h: seq<Octet>, foundAt: bool, base: nat, set': set<UrlField>, data: map<UrlField, Range>) {
    && !HostScan(h, foundAt).HostDead?
    && Entry(Userinfo, set', data, base, HostSpan(h, foundAt, Userinfo))
    && Entry(Host, set', data, base, HostSpan(h, foundAt, Host))
    && Entry(Port, set', data, base, HostSpan(h, foundAt, Port))
  }

  // What the first pass found, but for the authority, is left alone.
  predicate Untouched(set': set<UrlField>, data: map<UrlField, Range>, set'': set<UrlField>, data': map<UrlField, Range>) {
    forall f :: !InAuthority(f) ==> (f in set'' <==> f in set') && (f in set' && f in data ==> f in data' && data'[f] == data[f])
  }

  datatype HostSort = HostDelimiter | HostPart(field: UrlField)

  function HostSortOf(s: HostState): HostSort {
    match s
    case HostName => HostPart(Host)
    case HostV6 => HostPart(Host)
    case HostV6ZoneStart => HostPart(Host)
    case HostV6Zone => HostPart(Host)
    case HostPort => HostPart(Port)
    case UserinfoText => HostPart(Userinfo)
    case _ => HostDelimiter
  }

  lemma HostSortHasRank(s: HostState)
    ensures HostSortOf(s).HostPart? ==> InAuthority(HostSortOf(s).field) && HostRank(s) == HostRankOf(HostSortOf(s).field)
    ensures HostSortOf(s).HostDelimiter? ==> HostRank(s) != 1 && HostRank(s) != 4 && HostRank(s) != 7
  {
  }

  // Whether a state is entered, so that its field begins here
  predicate Enters(s: HostState, next: HostState) {
    s != next && !next.HostV6ZoneStart? && !next.HostV6Zone?
  }

  lemma EntersByRank(s: HostState, ch: Octet)
    requires HostSortOf(HostChar(s, ch)).HostPart?
    ensures Enters(s, HostChar(s, ch)) <==> HostRank(s) < HostRank(HostChar(s, ch))
  {
    hide IsUserinfoChar, IsHostChar, IsZoneChar, IsHex, IsNum;
  }

  // The entry of field `g` after one more byte of it
  function Longer(g: UrlField, data: map<UrlField, Range>, enters: bool, at: nat): Range
    requires g in data || (enters && !g.Host?)
  {
    if enters then Range(at, if g.Host? then data[g].len + 1 else 1) else Range(data[g].off, data[g].len + 1)
  }

  lemma PassHostDelimiter(h: seq<Octet>, ch: Octet, foundAt: bool, base: nat, set': set<UrlField>, data: map<UrlField, Range>)
    requires SecondPass(h, foundAt, base, set', data)
    requires var next := HostScan(h + [ch], foundAt); !next.HostDead? && HostSortOf(next).HostDelimiter?
    ensures SecondPass(h + [ch], foundAt, base, set', data)
  {
    hide HostScan, HostSpan, HostChar;
    HostSpanNext(h, ch, foundAt, Userinfo);
    HostSpanNext(h, ch, foundAt, Host);
    HostSpanNext(h, ch, foundAt, Port);
    HostSortHasRank(HostScan(h + [ch], foundAt));
  }

  lemma PassHostField(h: seq<Octet>, ch: Octet, foundAt: bool, base: nat, set': set<UrlField>, data: map<UrlField, Range>)
    requires SecondPass(h, foundAt, base, set', data)
    requires var next := HostScan(h + [ch], foundAt); HostSortOf(next).HostPart?
    ensures var s, next := HostScan(h, foundAt), HostScan(h + [ch], foundAt);
            var g, enters := HostSortOf(next).field, Enters(s, next);
            && InAuthority(g) && (g in data || (enters && !g.Host?))
            && SecondPass(h + [ch], foundAt, base, set' + {g}, data[g := Longer(g, data, enters, base + |h|)])
  {
    hide HostScan, HostSpan, HostChar;
    var s, next := HostScan(h, foundAt), HostScan(h + [ch], foundAt);
    HostSpanNext(h, ch, foundAt, Userinfo);
    HostSpanNext(h, ch, foundAt, Host);
    HostSpanNext(h, ch, foundAt, Port);
    HostSortHasRank(next);
    EntersByRank(s, ch);
    if h == [] {
      StartRank(foundAt);
    }
  }

  lemma StartRank(foundAt: bool)
    ensures HostScan([], foundAt).UserinfoStart? || HostScan([], foundAt).HostStart?
  {
  }

  // ----- Both passes together

  // All that was found is in the struct, and nothing else is.
  predicate Complete(b: seq<Octet>, connect: bool, set': set<UrlField>, data: map<UrlField, Range>) {
    forall f :: (f in set' <==> Has(b, connect, f)) && (f in set' ==> f in data && Fits(data[f], Found(b, connect, f)))
  }

  lemma SecondPassBegins(b: seq<Octet>, connect: bool, set': set<UrlField>, data: map<UrlField, Range>, last: LastField)
    requires FirstPass(b, connect, set', data, last) && Host in set'
    ensures data[Host].off == FirstSpan(b, connect, Host).lo && data[Host].len == |Authority(b, connect)|
    ensures SecondPass([], FoundAt(b, connect), data[Host].off, set', data[Host := Range(data[Host].off, 0)])
  {
    hide Scan, Below;
    FirstInBounds(b, connect, Host);
    StartRank(FoundAt(b, connect));
  }

  lemma BothPasses(b: seq<Octet>, connect: bool, set0: set<UrlField>, data0: map<UrlField, Range>, last: LastField,
                   set': set<UrlField>, data: map<UrlField, Range>)
    requires FirstPass(b, connect, set0, data0, last) && Host in set0 && Untouched(set0, data0, set', data)
    requires SecondPass(Authority(b, connect), FoundAt(b, connect), FirstSpan(b, connect, Host).lo, set', data)
    requires HostAccepted(Authority(b, connect), FoundAt(b, connect))
    ensures Complete(b, connect, set', data)
  {
    hide Scan, FirstSpan, HostScan, HostSpan, Authority, FoundAt;
    var h, foundAt := Authority(b, connect), FoundAt(b, connect);
    HostFound(h, foundAt);
    forall f: UrlField
      ensures (f in set' <==> Has(b, connect, f)) && (f in set' ==> f in data && Fits(data[f], Found(b, connect, f)))
    {
      FoundIs(b, connect, f);
      SpanIsSpan(h, foundAt, f);
    }
  }

  lemma SpanIsSpan(h: seq<Octet>, foundAt: bool, f: UrlField)
    ensures HostSpan(h, foundAt, f).lo <= HostSpan(h, foundAt, f).hi <= |h|
  {
    hide HostBelow;
    HostBelowGrows(h, foundAt, HostRankOf(f), HostRankOf(f) + 1);
  }

  lemma HostFound(h: seq<Octet>, foundAt: bool)
    requires HostAccepted(h, foundAt)
    ensures HostSpan(h, foundAt, Host).lo < HostSpan(h, foundAt, Host).hi
  {
    hide HostScan, HostBelow;
    HostNotEmpty(h, foundAt);
  }

  lemma FoundIs(b: seq<Octet>, connect: bool, f: UrlField)
    ensures Found(b, connect, f) ==
            if !InAuthority(f) then FirstSpan(b, connect, f)
            else
              var (o, i) := (FirstSpan(b, connect, Host), HostSpan(Authority(b, connect), FoundAt(b, connect), f));
              Span(o.lo + i.lo, o.lo + i.hi)
  {
    hide Below, HostSpan, Authority, FoundAt;
  }

  // Without a host there is nothing in the authority.
  lemma OnePass(b: seq<Octet>, connect: bool, set': set<UrlField>, data: map<UrlField, Range>, last: LastField)
    requires FirstPass(b, connect, set', data, last) && Host !in set'
    ensures Complete(b, connect, set', data) && Port !in set'
  {
    hide Scan, Below, HostScan, HostBelow;
    FirstInBounds(b, connect, Host);
    assert Authority(b, connect) == [];
    forall f: UrlField
      ensures (f in set' <==> Has(b, connect, f)) && (f in set' ==> f in data && Fits(data[f], Found(b, connect, f)))
    {
      FoundIs(b, connect, f);
      SpanIsSpan([], FoundAt(b, connect), f);
    }
  }

  class UrlParts {
    var fieldSet: set<UrlField>
    var fieldData: map<UrlField, Range>
    var port: nat

    // http_parser_url_init
    constructor ()
      ensures fieldSet == {} && port == 0
    {
      fieldSet, fieldData, port := {}, map[], 0;
    }

    // http_parse_host
    method ParseHost(buf: seq<Octet>, foundAt: bool, ghost connect: bool, ghost last: LastField) returns (code: int)
      requires FirstPass(buf, connect, fieldSet, fieldData, last) && Host in fieldSet && foundAt == FoundAt(buf, connect)
      modifies `fieldSet, `fieldData
      ensures code == if HostAccepted(Authority(buf, connect), foundAt) then 0 else 1
      ensures code == 0 ==> Complete(buf, connect, fieldSet, fieldData)
    {
      hide FirstPass, SecondPass, Scan, FirstSpan, HostScan, FoundAt, HostChar, Enters, Complete;
      ghost var set0, data0, h := fieldSet, fieldData, Authority(buf, connect);
      SecondPassBegins(buf, connect, fieldSet, fieldData, last);
      HostInData(buf, connect, fieldSet, fieldData, last);
      var p := fieldData[Host].off;
      var end := p + fieldData[Host].len;
      ghost var base := p;
      fieldData := fieldData[Host := Range(p, 0)];
      var s := if foundAt then UserinfoStart else HostStart;
      StartIs(foundAt);
      assert buf[base..end] == h && buf[base..base] == [];
      while p < end
        invariant base <= p <= end <= |buf| && s == HostScan(buf[base..p], foundAt)
        invariant SecondPass(buf[base..p], foundAt, base, fieldSet, fieldData) && Untouched(set0, data0, fieldSet, fieldData)
      {
        ghost var before := buf[base..p];
        assert buf[base..p + 1] == before + [buf[p]];
        HostScanNext(before, buf[p], foundAt);
        var next := HostChar(s, buf[p]);
        if next.HostDead? {
          StaysDead(before + [buf[p]], h[p - base + 1..], foundAt);
          assert before + [buf[p]] + h[p - base + 1..] == h;
          return 1;
        }
        if HostSortOf(next).HostDelimiter? {
          PassHostDelimiter(before, buf[p], foundAt, base, fieldSet, fieldData);
        } else {
          PassHostField(before, buf[p], foundAt, base, fieldSet, fieldData);
          var g := HostSortOf(next).field;
          fieldData := fieldData[g := Longer(g, fieldData, Enters(s, next), p)];
          fieldSet := fieldSet + {g};
        }
        s := next;
        p := p + 1;
      }
      code := if s.HostName? || s.HostV6End? || s.HostPort? then 0 else 1;
      if code == 0 {
        BothPasses(buf, connect, set0, data0, last, fieldSet, fieldData);
      }
    }

    // The first pass, byte by byte
    method FirstPassOver(buf: seq<Octet>, connect: bool) returns (ok: bool, foundAt: bool, ghost last: LastField)
      requires fieldSet == {} && |buf| <= MAX_URL
      modifies `fieldSet, `fieldData
      ensures ok == !Scan(buf, connect).Dead?
      ensures ok ==> FirstPass(buf, connect, fieldSet, fieldData, last) && foundAt == FoundAt(buf, connect)
    {
      hide Scan, FirstPass, ScanNext, FoundAt;
      var s, old', p := ScanStart(connect), NoField, 0;
      foundAt := false;
      FirstPassBegins(connect, fieldData);
      assert buf[..0] == [];
      while p < |buf|
        invariant p <= |buf| && s == Scan(buf[..p], connect) && foundAt == FoundAt(buf[..p], connect)
        invariant FirstPass(buf[..p], connect, fieldSet, fieldData, old')
      {
        ghost var before := buf[..p];
        assert buf[..p + 1] == before + [buf[p]];
        ScanOneMore(before, buf[p], connect);
        s := ScanNext(s, buf[p]);
        if SortOf(s).Unexpected? {
          StaysScannedDead(before + [buf[p]], buf[p + 1..], connect);
          assert before + [buf[p]] + buf[p + 1..] == buf;
          return false, foundAt, NoField;
        }
        if SortOf(s).Delimiter? {
          PassDelimiter(before, buf[p], connect, fieldSet, fieldData, old');
        } else {
          PassField(before, buf[p], connect, fieldSet, fieldData, old');
          foundAt := foundAt || s == At(ReqServerWithAt);
          var uf := SortOf(s).field;
          if old' == Last(uf) {
            fieldData := fieldData[uf := Range(fieldData[uf].off, fieldData[uf].len + 1)];
          } else {
            fieldData := fieldData[uf := Range(p, 1)];
          }
          fieldSet := fieldSet + {uf};
          old' := Last(uf);
        }
        p := p + 1;
      }
      assert buf[..p] == buf;
      ok, last := true, old';
      FirstPassLives(buf, connect, fieldSet, fieldData, last);
    }

    // http_parser_parse_url
    method Parse(buf: seq<Octet>, connect: bool) returns (code: int)
      requires |buf| <= MAX_URL
      modifies this
      ensures code == if Accepted(buf, connect) then 0 else 1
      ensures code == 0 ==> Complete(buf, connect, fieldSet, fieldData) && port == PortOf(buf, connect)
    {
      hide Scan, FirstPass, FirstSpan, HostAccepted, Authority, FoundAt, Found;
      port, fieldSet := 0, {};
      var ok, foundAt;
      ghost var last;
      ok, foundAt, last := FirstPassOver(buf, connect);
      if !ok {
        return 1;
      }
      FirstPassFound(buf, connect, fieldSet, fieldData, last);
      if Schema in fieldSet && Host !in fieldSet {
        return 1;
      }
      if Host in fieldSet {
        code := ParseHost(buf, foundAt, connect, last);
        if code != 0 {
          return;
        }
      } else {
        OnePass(buf, connect, fieldSet, fieldData, last);
      }
      if connect && fieldSet != {Host, Port} {
        SetIsExact(buf, connect, fieldSet, fieldData);
        return 1;
      }
      SetIsExact(buf, connect, fieldSet, fieldData);
      if Port in fieldSet {
        PortEnds(buf, connect);
        var v := Strtoul(buf, fieldData[Port].off);
        assert HostAccepted(Authority(buf, connect), FoundAt(buf, connect));
        OnlyEnd(buf, fieldData[Port].off, DigitsEnd(buf, fieldData[Port].off), Found(buf, connect, Port).hi);
        if v > MAX_PORT {
          return 1;
        }
        port := v;
      }
      code := 0;
    }
  }

  // Offsets and lengths are sixteen bits wide.
  const MAX_URL: nat := 0xFFFF

  // Where the digits from `at` on end
  function DigitsEnd(buf: seq<Octet>, at: nat): (end: nat)
    requires at <= |buf|
    ensures at <= end <= |buf| && (forall k :: at <= k < end ==> IsNum(buf[k])) && (end < |buf| ==> !IsNum(buf[end]))
    decreases |buf| - at
  {
    if at < |buf| && IsNum(buf[at]) then DigitsEnd(buf, at + 1) else at
  }

  lemma NoDigits(w: seq<Octet>)
    requires w == []
    ensures DecimalValue(w) == 0
  {
  }

  lemma OneMoreDigit(buf: seq<Octet>, at: nat, p: nat)
    requires at <= p < |buf| && (forall k :: at <= k < p ==> IsNum(buf[k])) && IsNum(buf[p])
    ensures DecimalValue(buf[at..p + 1]) == DecimalValue(buf[at..p]) * 10 + DigitValue(buf[p])
  {
    hide IsNum;
    var w := buf[at..p + 1];
    assert w[..|w| - 1] == buf[at..p];
  }

  // strtoul in base ten, from a digit: it stops at the first byte that is none.
  method Strtoul(buf: seq<Octet>, at: nat) returns (v: nat)
    requires at <= |buf|
    ensures v == DecimalValue(buf[at..DigitsEnd(buf, at)])
  {
    hide IsNum, DecimalValue, DigitValue;
    var p := at;
    v := 0;
    NoDigits(buf[at..at]);
    while p < |buf| && IsNum(buf[p])
      invariant at <= p <= |buf| && DigitsEnd(buf, p) == DigitsEnd(buf, at) && v == DecimalValue(buf[at..p])
      invariant forall k :: at <= k < p ==> IsNum(buf[k])
    {
      OneMoreDigit(buf, at, p);
      v := v * 10 + DigitValue(buf[p]);
      p := p + 1;
    }
  }

  lemma OnlyEnd(buf: seq<Octet>, at: nat, end: nat, end': nat)
    requires at <= end <= |buf| && (forall k :: at <= k < end ==> IsNum(buf[k])) && (end < |buf| ==> !IsNum(buf[end]))
    requires at <= end' <= |buf| && (forall k :: at <= k < end' ==> IsNum(buf[k])) && (end' < |buf| ==> !IsNum(buf[end']))
    ensures end == end'
  {
    hide IsNum;
  }

  lemma SetIsExact(b: seq<Octet>, connect: bool, set': set<UrlField>, data: map<UrlField, Range>)
    requires Complete(b, connect, set', data)
    ensures set' == {Host, Port} <==> forall f :: Has(b, connect, f) <==> f == Host || f == Port
  {
  }

  lemma FirstPassBegins(connect: bool, data: map<UrlField, Range>)
    ensures FirstPass([], connect, {}, data, NoField) && Scan([], connect) == ScanStart(connect) && !FoundAt([], connect)
  {
  }

  lemma FirstPassLives(b: seq<Octet>, connect: bool, set': set<UrlField>, data: map<UrlField, Range>, last: LastField)
    requires FirstPass(b, connect, set', data, last)
    ensures !Scan(b, connect).Dead?
  {
    hide Scan, FirstSpan;
  }

  lemma FirstPassFound(b: seq<Octet>, connect: bool, set': set<UrlField>, data: map<UrlField, Range>, last: LastField)
    requires FirstPass(b, connect, set', data, last)
    ensures (Schema in set' <==> OuterHas(b, connect, Schema)) && (Host in set' <==> OuterHas(b, connect, Host))
  {
    hide Scan, FirstSpan;
  }

  lemma ScanOneMore(b: seq<Octet>, ch: Octet, connect: bool)
    ensures Scan(b + [ch], connect) == ScanNext(Scan(b, connect), ch)
    ensures FoundAt(b + [ch], connect) == (FoundAt(b, connect) || Scan(b + [ch], connect) == At(ReqServerWithAt))
    ensures SortOf(Scan(b + [ch], connect)).Unexpected? ==> Scan(b + [ch], connect).Dead?
  {
    hide UrlChar, FirstUrlChar;
    assert (b + [ch])[..|b|] == b;
  }

  lemma {:induction false} StaysScannedDead(b: seq<Octet>, rest: seq<Octet>, connect: bool)
    requires Scan(b, connect).Dead?
    ensures Scan(b + rest, connect).Dead?
    decreases |rest|
  {
    if rest == [] {
      assert b + rest == b;
    } else {
      ScanOneMore(b, rest[0], connect);
      StaysScannedDead(b + [rest[0]], rest[1..], connect);
      assert b + [rest[0]] + rest[1..] == b + rest;
    }
  }

  // Up to where the bytes below a rank end, and no further, the ranks are below it.
  lemma {:induction false} BelowIsBelow(b: seq<Octet>, connect: bool, r: int, k: nat)
    requires k <= |b|
    ensures 0 < k <= Below(b, connect, r) ==> Rank(Scan(b[..k], connect)) < r
    ensures k > Below(b, connect, r) ==> Rank(Scan(b[..k], connect)) >= r
  {
    hide Scan, Rank;
    if k == |b| {
      assert b[..k] == b;
    } else {
      var init := b[..|b| - 1];
      assert b[..k] == init[..k];
      BelowIsBelow(init, connect, r, k);
      if Rank(Scan(b, connect)) < r {
        RankKeepsGrowing(b, connect, k);
      }
    }
  }

  lemma {:induction false} RankKeepsGrowing(b: seq<Octet>, connect: bool, k: nat)
    requires k <= |b|
    ensures Rank(Scan(b[..k], connect)) <= Rank(Scan(b, connect))
    decreases |b| - k
  {
    hide Scan, Rank, ScanNext;
    if k == |b| {
      assert b[..k] == b;
    } else {
      ScanOneMore(b[..k], b[k], connect);
      assert b[..k + 1] == b[..k] + [b[k]];
      RankGrows(Scan(b[..k], connect), b[k]);
      RankKeepsGrowing(b, connect, k + 1);
    }
  }

  // The byte behind an authority is no digit, so the port is all that strtoul reads.
  lemma AfterAuthority(b: seq<Octet>, connect: bool)
    requires FirstSpan(b, connect, Host).lo < FirstSpan(b, connect, Host).hi < |b|
    ensures !IsNum(b[FirstSpan(b, connect, Host).hi])
  {
    hide Scan, Below;
    var n := FirstSpan(b, connect, Host).hi;
    BelowIsBelow(b, connect, 4, n);
    BelowIsBelow(b, connect, 5, n);
    BelowIsBelow(b, connect, 5, n + 1);
    assert b[..n + 1] == b[..n] + [b[n]];
    ScanOneMore(b[..n], b[n], connect);
    DigitStaysInServer(Scan(b[..n], connect), b[n]);
  }

  lemma DigitStaysInServer(s: Scanned, ch: Octet)
    requires Rank(s) == 4
    ensures IsNum(ch) ==> Rank(ScanNext(s, ch)) == 4
  {
  }

  lemma PortEnds(b: seq<Octet>, connect: bool)
    requires Has(b, connect, Port)
    ensures var s := Found(b, connect, Port);
            && s.lo < s.hi <= |b| && (forall k :: s.lo <= k < s.hi ==> IsNum(b[k]))
            && (HostAccepted(Authority(b, connect), FoundAt(b, connect)) && s.hi < |b| ==> !IsNum(b[s.hi]))
  {
    hide Scan, Below, HostScan, HostBelow, FoundAt, IsNum;
    var h, foundAt, o, s := Authority(b, connect), FoundAt(b, connect), FirstSpan(b, connect, Host), Found(b, connect, Port);
    FoundInBounds(b, connect, Port);
    FirstInBounds(b, connect, Host);
    forall k | s.lo <= k < s.hi ensures IsNum(b[k]) {
      PortIsDigits(h, foundAt, k - o.lo);
      assert h[k - o.lo] == b[k];
    }
    if HostAccepted(h, foundAt) && s.hi < |b| {
      PortIsLast(h, foundAt);
      AfterAuthority(b, connect);
    }
  }

  lemma PortIsLast(h: seq<Octet>, foundAt: bool)
    requires HostAccepted(h, foundAt)
    ensures HostBelow(h, foundAt, 8) == |h|
  {
  }

  lemma HostInData(b: seq<Octet>, connect: bool, set': set<UrlField>, data: map<UrlField, Range>, last: LastField)
    requires FirstPass(b, connect, set', data, last) && Host in set'
    ensures Host in data && data[Host].off + data[Host].len <= |b|
    ensures b[data[Host].off..data[Host].off + data[Host].len] == Authority(b, connect)
  {
    hide Scan, Below;
    FirstInBounds(b, connect, Host);
  }

  lemma StartIs(foundAt: bool)
    ensures HostScan([], foundAt) == if foundAt then UserinfoStart else HostStart
  {
  }

  lemma HostScanNext(h: seq<Octet>, ch: Octet, foundAt: bool)
    ensures HostScan(h + [ch], foundAt) == HostChar(HostScan(h, foundAt), ch)
  {
    hide HostChar;
    assert (h + [ch])[..|h|] == h;
  }

  lemma {:induction false} StaysDead(h: seq<Octet>, rest: seq<Octet>, foundAt: bool)
    requires HostScan(h, foundAt).HostDead?
    ensures HostScan(h + rest, foundAt).HostDead?
    decreases |rest|
  {
    if rest == [] {
      assert h + rest == h;
    } else {
      HostScanNext(h, rest[0], foundAt);
      StaysDead(h + [rest[0]], rest[1..], foundAt);
      assert h + [rest[0]] + rest[1..] == h + rest;
    }
  }
}
