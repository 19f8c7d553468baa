// Printed requests, handed over in any number of buffers.
module HttpRoundTrip {
  import opened HttpChars
  import opened HttpTypes
  import opened HttpMachine
  import opened HttpBulk
  import opened HttpInvariant
  import opened HttpSplit
  import opened HttpGrammar
  import opened HttpLengths
  import opened HttpChunked
  import opened HttpBudget
  import opened HttpManyCalls
  import opened HttpRequest
  import HttpUrl
  import HttpUrlTrip

  // ----- The count while a request is read

  lemma StepCount(c: Config, ch: Octet)
    ensures Step(c, ch).Go? ==> c.Go? && Step(c, ch).ps.nread <= c.ps.nread + 1
  {
    hide Dispatch, ByteResets;
    if c.Go? {
      DispatchTally(c.ps.(nread := c.ps.nread + 1), c.tr, c.lane, ch, c.pos);
      DispatchTally(c.ps, c.tr, c.lane, ch, c.pos);
    }
  }

  // A run that goes on has gone on all along.
  lemma {:induction false} RunCount(c: Config, d: seq<Octet>, k: nat)
    requires Run(c, d).Go? && k <= |d|
    ensures c.Go? && Run(c, d[..k]).Go? && Run(c, d[..k]).ps.nread <= c.ps.nread + k
  {
    hide Step;
    var init := d[..|d| - if d == [] then 0 else 1];
    if k == |d| {
      assert d[..k] == d;
      if d != [] {
        StepCount(Run(c, init), d[|d| - 1]);
        assert d[..|init|] == init && init[..|init|] == init;
        RunCount(c, init, |init|);
      }
    } else {
      StepCount(Run(c, init), d[|d| - 1]);
      assert d[..k] == init[..k];
      RunCount(c, init, k);
    }
  }

  lemma BodyRoom(c: Config, b: seq<Octet>, x: nat)
    requires c.Go? && c.lane.Outer? && c.ps.state == InPayload(BodyIdentity) && c.ps.contentLength == |b| && c.ps.nread == 0
    requires x < MAX_HEADER_SIZE
    ensures Room(c, b, x)
  {
    hide Run;
    forall k | 0 <= k < |b| ensures Run(c, b[..k]).Go? && Run(c, b[..k]).ps.nread + x < MAX_HEADER_SIZE {
      if k == 0 {
        assert b[..0] == b[0..0];
        RunNothing(c, b, 0);
      } else {
        RunBody(c.ps, c.tr, c.pos, b[..k]);
      }
    }
  }

  lemma HeadRoom(c: Config, d: seq<Octet>, x: nat)
    requires Run(c, d).Go? && c.Go? && c.ps.nread == 0 && |d| + x <= MAX_HEADER_SIZE
    ensures Room(c, d, x)
  {
    hide Run;
    forall k | 0 <= k < |d| ensures Run(c, d[..k]).Go? && Run(c, d[..k]).ps.nread + x < MAX_HEADER_SIZE {
      RunCount(c, d, k);
    }
  }

  lemma RoomJoins(c: Config, a: seq<Octet>, b: seq<Octet>, x: nat)
    requires Room(c, a, x) && Room(Run(c, a), b, x)
    ensures Room(c, a + b, x)
  {
    hide Run;
    forall k | 0 <= k < |a + b|
      ensures Run(c, (a + b)[..k]).Go? && Run(c, (a + b)[..k]).ps.nread + x < MAX_HEADER_SIZE
    {
      if k < |a| {
        assert (a + b)[..k] == a[..k];
      } else {
        assert (a + b)[..k] == a + b[..k - |a|];
        RunConcat(c, a, b[..k - |a|]);
      }
    }
  }

  // The configuration at the end of a header section
  lemma RunHead(c: Config, r: Request)
    requires AtStart(c) && ValidRequest(r)
    ensures var d := Run(c, Head(r));
            && d.Go? && d.lane.Outer? && d.ps.nread == 0
            && (BodyText(r.payload) != [] ==> d.ps.state == InPayload(BodyIdentity) && d.ps.contentLength == |BodyText(r.payload)|)
  {
    hide Step, Run, HeadLines, ValidHeaders, ValidUrl, HeadEvents, NoteOption;
    HeadLinesSize(r);
    RunHeadLines(c, r);
    RunHeadEnd(Run(c, HeadLines(r)));
    RunConcat(c, HeadLines(r), CRLF);
  }

  lemma RequestRoom(c: Config, r: Request, x: nat)
    requires AtStart(c) && ValidRequest(r) && |Head(r)| + x <= MAX_HEADER_SIZE
    ensures Room(c, Print(r), x)
  {
    hide Step, Run, Head, ValidHeaders, ValidUrl, Room;
    HeadSize(r);
    RunHead(c, r);
    HeadRoom(c, Head(r), x);
    var d := Run(c, Head(r));
    if BodyText(r.payload) == [] {
      assert Print(r) == Head(r);
    } else {
      BodyRoom(d, BodyText(r.payload), x);
      RoomJoins(c, Head(r), BodyText(r.payload), x);
    }
  }

  predicate ValidRequests(rs: seq<Request>, x: nat) {
    forall i :: 0 <= i < |rs| ==> ValidRequest(rs[i]) && |Head(rs[i])| + x <= MAX_HEADER_SIZE
  }

  lemma {:induction false} RequestsRoom(c: Config, rs: seq<Request>, x: nat)
    requires AtStart(c) && ValidRequests(rs, x)
    ensures Room(c, PrintAll(rs), x)
  {
    hide Run, Print, ValidRequest, Room, Events;
    if rs == [] {
      NothingNeedsNoRoom(c, x);
    } else {
      var init, r := rs[..|rs| - 1], rs[|rs| - 1];
      RequestsRoom(c, init, x);
      RequestRoundTrip(c, init);
      RequestRoom(Run(c, PrintAll(init)), r, x);
      RoomJoins(c, PrintAll(init), Print(r), x);
    }
  }

  lemma NothingNeedsNoRoom(c: Config, x: nat)
    ensures Room(c, [], x)
  {
  }

  // ----- The callbacks of printed requests show only legal values

  lemma CleanConcat(a: seq<Event>, b: seq<Event>)
    requires CleanValues(a) && CleanValues(b)
    ensures CleanValues(a + b)
  {
    hide BadValue;
  }

  lemma {:induction false} HeadersAreClean(hs: seq<Header>)
    requires forall i :: 0 <= i < |hs| ==> forall k :: 0 <= k < |hs[i].value| ==> IsHeaderChar(hs[i].value[k])
    ensures CleanValues(HeaderEvents(hs))
  {
    if hs != [] {
      HeadersAreClean(hs[..|hs| - 1]);
      CleanConcat(HeaderEvents(hs[..|hs| - 1]), [Data(Field, hs[|hs| - 1].name), Data(Value, hs[|hs| - 1].value)]);
    }
  }

  lemma EventsAreClean(r: Request, status: nat)
    requires ValidRequest(r)
    ensures CleanValues(Events(r, status))
  {
    hide HeaderEvents, CleanValues, Decimal, Head, ValidUrl, IsHeaderChar, LENGTH_NAME, NoLineEnd;
    var hs := AllHeaders(r);
    forall i | 0 <= i < |hs| ensures forall k :: 0 <= k < |hs[i].value| ==> IsHeaderChar(hs[i].value[k]) {
      if i == |r.headers| {
        DecimalIsPlain(|r.payload.bytes|);
      }
    }
    HeadersAreClean(hs);
    SomeAreClean(r.url, StartLine(1, 1, status, r.meth), AnnouncedLength(r.payload), BodyText(r.payload));
    var start, mid := [MessageBegin, Data(UrlData, r.url)], HeaderEvents(hs);
    var end := [HeadersComplete(StartLine(1, 1, status, r.meth), false, AnnouncedLength(r.payload))];
    var body := if BodyText(r.payload) == [] then [] else [Data(DataKind.Body, BodyText(r.payload))];
    CleanConcat(start, mid);
    CleanConcat(start + mid, end);
    CleanConcat(start + mid + end, body);
    CleanConcat(start + mid + end + body, [MessageComplete(true)]);
  }

  lemma SomeAreClean(url: seq<Octet>, line: StartLine, n: nat, body: seq<Octet>)
    ensures CleanValues([MessageBegin, Data(UrlData, url)]) && CleanValues([HeadersComplete(line, false, n)])
    ensures CleanValues([Data(DataKind.Body, body)]) && CleanValues([MessageComplete(true)]) && CleanValues([])
  {
  }

  lemma {:induction false} AllEventsAreClean(rs: seq<Request>, status: nat)
    requires forall i :: 0 <= i < |rs| ==> ValidRequest(rs[i])
    ensures CleanValues(AllEvents(rs, status))
  {
    hide ValidRequest, CleanValues, Events;
    if rs == [] {
      SomeAreClean([], StartLine(0, 0, 0, DELETE), 0, []);
    } else {
      AllEventsAreClean(rs[..|rs| - 1], status);
      EventsAreClean(rs[|rs| - 1], status);
      CleanConcat(AllEvents(rs[..|rs| - 1], status), Events(rs[|rs| - 1], status));
    }
  }

  // ----- Round trip, for a fresh parser and any buffers

  lemma FreshIsAtStart(lenient: bool)
    ensures AtStart(Begin(Init(ParserType.Request, Settings(lenient, 0)), []))
  {
  }

  // Whatever the buffers, as long as each header section leaves one byte of the
  // budget per buffer: every method, URL, header and body comes back, in order.
  lemma BufferedRoundTrip(lenient: bool, rs: seq<Request>, ds: seq<seq<Octet>>)
    requires (forall i :: 0 <= i < |ds| ==> ds[i] != []) && Concat(ds) == PrintAll(rs)
    requires ValidRequests(rs, |ds|) && |ds| < MAX_HEADER_SIZE
    ensures var c := Feed(Init(ParserType.Request, Settings(lenient, 0)), [], ds);
            && c.Go? && c.ps.state == Starting(StartReq) && c.tr == AllEvents(rs, 0) && c.ps.nread <= |ds|
  {
    hide Run, ValidRequest, CleanValues, PrintAll, AllEvents, Concat, Feed, Room, StateOk, Head;
    var ps := Init(ParserType.Request, Settings(lenient, 0));
    var c := Begin(ps, []);
    FreshIsAtStart(lenient);
    InitIsResting(ParserType.Request, Settings(lenient, 0));
    RequestRoundTrip(c, rs);
    RequestsRoom(c, rs, |ds|);
    AllEventsAreClean(rs, 0);
    assert [] + AllEvents(rs, 0) == AllEvents(rs, 0);
    CleanCalls(ps, [], ds);
  }

  // ----- URLs in requests

  // The two parsers step through a URL alike.
  lemma {:induction false} SameUrlStates(w: seq<Octet>)
    requires w != []
    ensures HttpUrl.Scan(w, false) ==
            if UrlAfter(w).UrlNext? then HttpUrl.At(UrlAfter(w).state) else HttpUrl.Scanned.Dead
  {
    hide UrlChar, FirstUrlChar;
    if |w| == 1 {
      assert HttpUrl.Scan(w[..0], false) == HttpUrl.BeforeUrl;
    } else {
      SameUrlStates(w[..|w| - 1]);
    }
  }

  // A URL printed from its components may stand in a request.
  lemma PrintedUrlIsValid(u: HttpUrlTrip.Url)
    requires HttpUrlTrip.ValidParts(u)
    ensures ValidUrl(HttpUrlTrip.UrlPrinted(u))
  {
    hide HttpUrlTrip.UrlPrinted, HttpUrl.Scan, UrlAfter;
    var t := HttpUrlTrip.UrlPrinted(u);
    HttpUrlTrip.FirstPassFinds(u);
    HttpUrlTrip.PrintedIs(u);
    SameUrlStates(t);
  }
}
