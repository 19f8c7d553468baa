// A chunked body with header fields in its trailer part, which section 4.1.2 of
// RFC 7230 allows behind the last chunk.
module HttpTrailer {
  import opened HttpChars
  import opened HttpTypes
  import opened HttpMachine
  import opened HttpBulk
  import opened HttpInvariant
  import opened HttpLengths
  import opened HttpGrammar
  import opened HttpChunked
  import opened HttpManyCalls
  import opened HttpRequest
  import opened HttpRoundTrip

  // A body as sent: chunks, the size line of the last chunk, and the trailer.
  datatype Body = Body(chunks: seq<Chunk>, size: seq<Octet>, ext: seq<Octet>, trailer: seq<Header>)

  function SizeLine(size: seq<Octet>, ext: seq<Octet>): seq<Octet> {
    size + ext + CRLF
  }

  function EncodeBody(b: Body): seq<Octet> {
    EncodeChunks(b.chunks) + SizeLine(b.size, b.ext) + HeadersText(b.trailer) + CRLF
  }

  // Each size line, and the trailer, leave `x` bytes of the header budget.
  predicate ValidBody(b: Body, x: nat) {
    && (forall k :: 0 <= k < |b.chunks| ==>
          ValidChunk(b.chunks[k]) && |SizeLine(b.chunks[k].size, b.chunks[k].ext)| + x <= MAX_HEADER_SIZE)
    && ValidSizeLine(b.size, b.ext, 0) && |SizeLine(b.size, b.ext)| + x <= MAX_HEADER_SIZE
    && ValidHeaders(b.trailer) && |HeadersText(b.trailer)| + 2 + x <= MAX_HEADER_SIZE
  }

  // What the application is told
  function TrailedEvents(b: Body, keepAlive: bool): seq<Event> {
    ChunkEvents(b.chunks) + [ChunkHeader(0)] + HeaderEvents(b.trailer) + [ChunkComplete, MessageComplete(keepAlive)]
  }

  // ----- The end of the trailer

  // A parser in a trailer, at the start of a line
  predicate InTrailer(c: Config) {
    AtLine(c) && c.ps.flags.trailing && c.ps.nread + 2 <= MAX_HEADER_SIZE
  }

  function TrailerDone(ps: Parser): Parser {
    ps.(state := InPayload(MessageDone), nread := ps.nread + 2)
  }

  lemma StepTrailerLine(c: Config)
    requires InTrailer(c)
    ensures Step(c, CR) == Go(c.ps.(state := InHeader(HeadersAlmostDone), nread := c.ps.nread + 1), c.tr, Outer, c.pos + 1)
  {
    hide Dispatch, Look, Step, NoteOption;
    var counted := c.ps.(state := InHeader(FieldStart), nread := c.ps.nread + 1);
    StepLine(c, CR);
    LookTrailerEnd(counted, c.tr);
    DispatchOnce(counted, c.tr, Outer, CR, c.pos);
  }

  lemma RunTrailerEnd(c: Config)
    requires InTrailer(c)
    ensures var d, done := Run(c, CRLF), TrailerDone(c.ps);
            && (if c.ps.upgrade then d.Left? else d.Go? && d.lane.Outer?) && d.ps == CompletedParser(done)
            && d.tr == CompletedTrace(done, Emit(c.tr, ChunkComplete)) && d.pos == c.pos + 2
    ensures Run(c, [CR]).Go? && Run(c, [CR]).ps.nread == c.ps.nread + 1
  {
    hide Step, Run, Emit, CompletedParser, CompletedTrace, NoteOption;
    StepTrailerLine(c);
    var e := Step(c, CR);
    StepTrailerEnd(e.ps, e.tr, e.pos);
    RunOne(c, CR);
    assert CRLF == [CR] + [LF];
    RunSnoc(c, [CR], LF);
  }

  // ----- The trailer

  // The parser at the end of `b`, but for what the header matcher is up to
  predicate Ended(ps: Parser, c: Config, b: Body)
    requires c.Go?
  {
    var done := LastParser(c).(nread := |HeadersText(b.trailer)| + 2, headerState := ps.headerState, index := ps.index);
    ps == CompletedParser(done)
  }

  lemma EndedState(ps: Parser, c: Config, b: Body)
    requires c.Go? && Ended(ps, c, b)
    ensures ps.state == NewMessage(LastParser(c)) && ps.nread == |HeadersText(b.trailer)| + 2
  {
    hide ShouldKeepAlive, HeadersText;
    AliveAlike(LastParser(c).(nread := ps.nread, headerState := ps.headerState, index := ps.index), LastParser(c));
  }

  // After the chunks and the last size line
  function TrailerConfig(c: Config, b: Body): Config
    requires c.Go?
  {
    HeaderConfig(ChunksConfig(c, b.chunks), 0, |SizeLine(b.size, b.ext)|)
  }

  lemma RunToTrailer(c: Config, b: Body)
    requires BetweenChunks(c) && ValidBody(b, 0)
    ensures Run(c, EncodeChunks(b.chunks) + SizeLine(b.size, b.ext)) == TrailerConfig(c, b)
  {
    hide Step, Run, Quiet, ValidSizeLine, ValidChunk, EncodeChunks, ChunkEvents, HeaderConfig;
    ChunksAreQuiet(c, b.chunks);
    SizeLineIsQuiet(ChunksConfig(c, b.chunks), b.size, b.ext, 0);
    RunConcat(c, EncodeChunks(b.chunks), SizeLine(b.size, b.ext));
  }

  lemma TrailerShown(tr: seq<Event>, b: Body, ps: Parser)
    ensures var shown := Emit(tr + ChunkEvents(b.chunks), ChunkHeader(0)) + HeaderEvents(b.trailer);
            CompletedTrace(ps, Emit(shown, ChunkComplete)) == tr + TrailedEvents(b, ShouldKeepAlive(ps))
    ensures !EndsWithData(Emit(tr + ChunkEvents(b.chunks), ChunkHeader(0)), Field)
  {
    hide ShouldKeepAlive, ChunkEvents, HeaderEvents;
  }

  // The header lines of a trailer
  lemma RunTrailer(c: Config, b: Body)
    requires BetweenChunks(c) && ValidBody(b, 0)
    ensures var t, n := TrailerConfig(c, b), |HeadersText(b.trailer)|;
            && t.Go? && Within(Run(t, HeadersText(b.trailer)), t.ps, t.tr + HeaderEvents(b.trailer), n, t.pos + n)
            && t.ps == LastParser(c).(state := InHeader(FieldStart), nread := 0)
            && t.tr == Emit(c.tr + ChunkEvents(b.chunks), ChunkHeader(0))
            && t.pos == c.pos + |EncodeChunks(b.chunks)| + |SizeLine(b.size, b.ext)|
  {
    hide Step, Run, ValidSizeLine, ValidChunk, ChunkEvents, ValidHeaders, Emit, EndsWithData;
    TrailerShown(c.tr, b, c.ps);
    RunHeaders(TrailerConfig(c, b), b.trailer);
  }

  lemma RunBodyWithTrailer(c: Config, b: Body)
    requires BetweenChunks(c) && ValidBody(b, 0)
    ensures var d := Run(c, EncodeBody(b));
            && (if c.ps.upgrade then d.Left? else d.Go? && d.lane.Outer?) && Ended(d.ps, c, b)
            && d.tr == c.tr + TrailedEvents(b, ShouldKeepAlive(LastParser(c))) && d.pos == c.pos + |EncodeBody(b)|
  {
    hide Step, Run, ValidBody, SizeLine, EncodeChunks, HeadersText, ChunkEvents, Emit, NoteOption, TrailerConfig, EndsWithData,
         CompletedTrace, TrailedEvents, HeaderEvents;
    RunToTrailer(c, b);
    RunTrailer(c, b);
    assert |HeadersText(b.trailer)| + 2 <= MAX_HEADER_SIZE by { TrailerFits(b, 0); }
    var t := TrailerConfig(c, b);
    var w := Run(t, HeadersText(b.trailer));
    RunTrailerEnd(w);
    var before := EncodeChunks(b.chunks) + SizeLine(b.size, b.ext);
    RunConcat(c, before, HeadersText(b.trailer));
    RunConcat(c, before + HeadersText(b.trailer), CRLF);
    TrailerShown(c.tr, b, TrailerDone(w.ps));
    AliveAlike(TrailerDone(w.ps), LastParser(c));
  }

  lemma TrailerFits(b: Body, x: nat)
    requires ValidBody(b, x)
    ensures |HeadersText(b.trailer)| + 2 + x <= MAX_HEADER_SIZE
  {
  }

  // Whether the connection may go on does not depend on the count and the matcher.
  lemma AliveAlike(ps: Parser, ps': Parser)
    requires ps == ps'.(nread := ps.nread, headerState := ps.headerState, index := ps.index)
    ensures ShouldKeepAlive(ps) == ShouldKeepAlive(ps')
  {
  }

  // ----- Room in the header budget

  lemma LineEndRoom(c: Config, x: nat)
    requires c.Go? && c.lane.Outer? && c.ps.state == InPayload(ChunkDataAlmostDone) && c.ps.contentLength == 0
    requires c.ps.nread == 0 && x < MAX_HEADER_SIZE
    ensures Room(c, CRLF, x)
  {
    hide Run, Step;
    StepChunkEnd(c.ps, c.tr, c.pos);
    RunNothing(c, CRLF, 0);
    RunOne(c, CR);
    assert CRLF[..0] == CRLF[0..0] && CRLF[..1] == [CR];
  }

  lemma DataRoom(c: Config, data: seq<Octet>, x: nat)
    requires InData(c, data) && c.ps.nread == 0 && x < MAX_HEADER_SIZE
    ensures Room(c, data + CRLF, x)
  {
    hide Run;
    forall k | 0 <= k < |data| ensures Run(c, data[..k]).Go? && Run(c, data[..k]).ps.nread + x < MAX_HEADER_SIZE {
      DataSoFar(c, data, k);
    }
    RunData(c, data);
    LineEndRoom(DataConfig(c, data), x);
    RoomJoins(c, data, CRLF, x);
  }

  lemma ChunkRoom(c: Config, chunk: Chunk, x: nat)
    requires BetweenChunks(c) && ValidChunk(chunk) && |SizeLine(chunk.size, chunk.ext)| + x <= MAX_HEADER_SIZE
    ensures Room(c, EncodeChunk(chunk), x)
  {
    hide Run, Quiet, Room, ValidSizeLine;
    var line, n := SizeLine(chunk.size, chunk.ext), |chunk.data|;
    SizeLineIsQuiet(c, chunk.size, chunk.ext, n);
    HeadRoom(c, line, x);
    DataRoom(HeaderConfig(c, n, |line|), chunk.data, x);
    RoomJoins(c, line, chunk.data + CRLF, x);
    assert EncodeChunk(chunk) == line + (chunk.data + CRLF);
  }

  lemma {:induction false} ChunksRoom(c: Config, cs: seq<Chunk>, x: nat)
    requires BetweenChunks(c)
    requires forall k :: 0 <= k < |cs| ==> ValidChunk(cs[k]) && |SizeLine(cs[k].size, cs[k].ext)| + x <= MAX_HEADER_SIZE
    ensures Room(c, EncodeChunks(cs), x)
  {
    hide Run, Quiet, Room, ValidChunk, EncodeChunk, SizeLine;
    if cs == [] {
      NothingNeedsNoRoom(c, x);
    } else {
      var init, last := cs[..|cs| - 1], cs[|cs| - 1];
      ChunksRoom(c, init, x);
      ChunksAreQuiet(c, init);
      ChunkRoom(ChunksConfig(c, init), last, x);
      RoomJoins(c, EncodeChunks(init), EncodeChunk(last), x);
    }
  }

  lemma TrailerRoom(c: Config, hs: seq<Header>, x: nat)
    requires c.Go? && c.ps.nread == 0 && |HeadersText(hs)| + 2 + x <= MAX_HEADER_SIZE
    requires InTrailer(Run(c, HeadersText(hs)))
    ensures Room(c, HeadersText(hs) + CRLF, x)
  {
    hide Run, AtLine;
    var t := HeadersText(hs);
    RunTrailerEnd(Run(c, t));
    RunConcat(c, t, [CR]);
    RunCount(c, t + [CR], |t| + 1);
    forall k | 0 <= k < |t| + 2
      ensures Run(c, (t + CRLF)[..k]).Go? && Run(c, (t + CRLF)[..k]).ps.nread + x < MAX_HEADER_SIZE
    {
      assert (t + CRLF)[..k] == (t + [CR])[..k];
      RunCount(c, t + [CR], k);
    }
  }

  lemma BodyHasRoom(c: Config, b: Body, x: nat)
    requires BetweenChunks(c) && ValidBody(b, x)
    ensures Room(c, EncodeBody(b), x)
  {
    hide Run, Room, ValidChunk, ValidSizeLine, EncodeChunks, HeadersText, ChunkEvents, EndsWithData;
    ChunksRoom(c, b.chunks, x);
    ChunksAreQuiet(c, b.chunks);
    var line, trailer := SizeLine(b.size, b.ext), HeadersText(b.trailer) + CRLF;
    SizeLineIsQuiet(ChunksConfig(c, b.chunks), b.size, b.ext, 0);
    HeadRoom(ChunksConfig(c, b.chunks), line, x);
    RoomJoins(c, EncodeChunks(b.chunks), line, x);
    RunToTrailer(c, b);
    RunTrailer(c, b);
    TrailerRoom(TrailerConfig(c, b), b.trailer, x);
    RoomJoins(c, EncodeChunks(b.chunks) + line, trailer, x);
    assert EncodeBody(b) == EncodeChunks(b.chunks) + line + trailer;
  }

  // ----- Any buffers

  lemma {:induction false} ChunksAreClean(cs: seq<Chunk>)
    ensures CleanValues(ChunkEvents(cs))
  {
    if cs != [] {
      ChunksAreClean(cs[..|cs| - 1]);
    }
  }

  lemma TrailedIsClean(tr: seq<Event>, b: Body, keepAlive: bool)
    requires CleanValues(tr) && ValidHeaders(b.trailer)
    ensures CleanValues(tr + TrailedEvents(b, keepAlive))
  {
    hide ChunkEvents, HeaderEvents, IsHeaderChar;
    ChunksAreClean(b.chunks);
    HeadersAreClean(b.trailer);
  }

  // A chunked body with a trailer reaches the callbacks whole, header by header
  // and chunk by chunk, under any buffers that the budget has room for.
  lemma TrailedCoding(ps: Parser, tr: seq<Event>, b: Body, ds: seq<seq<Octet>>)
    requires Resting(ps) && BetweenChunks(Begin(ps, tr)) && CleanValues(tr) && ValidBody(b, |ds| + 1)
    requires (forall i :: 0 <= i < |ds| ==> ds[i] != []) && Concat(ds) == EncodeBody(b)
    ensures var c := Feed(ps, tr, ds);
            && (if ps.upgrade then c.Left? else c.Go?)
            && c.tr == tr + TrailedEvents(b, ShouldKeepAlive(LastParser(Begin(ps, tr))))
            && c.ps.state == NewMessage(LastParser(Begin(ps, tr)))
  {
    hide Run, Room, ValidBody, CleanValues, EncodeBody, TrailedEvents, Concat, Feed, Resting, ShouldKeepAlive, Ended, HeadersText,
         LastParser;
    var c := Begin(ps, tr);
    TrailerFits(b, |ds| + 1);
    FitsLess(b, |ds| + 1);
    RunBodyWithTrailer(c, b);
    BodyHasRoom(c, b, |ds| + 1);
    LessRoom(c, EncodeBody(b), |ds| + 1, |ds|);
    TrailedIsClean(tr, b, ShouldKeepAlive(LastParser(c)));
    EndedState(Run(c, EncodeBody(b)).ps, c, b);
    CleanCalls(ps, tr, ds);
  }

  lemma FitsLess(b: Body, x: nat)
    requires ValidBody(b, x)
    ensures ValidBody(b, 0) && ValidHeaders(b.trailer)
  {
    hide ValidChunk, ValidSizeLine, HeadersText, ValidHeaders;
  }
}
