// The chunked transfer coding of section 4.1 of RFC 7230, decoded.
module HttpChunked {
  import opened HttpChars
  import opened HttpTypes
  import opened HttpMachine
  import opened HttpBulk
  import opened HttpInvariant
  import opened HttpLengths
  import opened HttpSplit
  import opened HttpGrammar

  // A chunk as sent: its size in hexadecimal, any chunk extension, its data.
  datatype Chunk = Chunk(size: seq<Octet>, ext: seq<Octet>, data: seq<Octet>)

  predicate ValidSizeLine(size: seq<Octet>, ext: seq<Octet>, n: nat) {
    && size != [] && (forall k :: 0 <= k < |size| ==> Unhex(size[k]) != -1)
    && HexValue(size) == n && n <= MAX_CHUNK_SIZE
    && (ext != [] ==> (ext[0] == ';' || ext[0] == ' ') && forall k :: 0 <= k < |ext| ==> ext[k] != CR)
    && |size| + |ext| + 2 <= MAX_HEADER_SIZE
  }

  predicate ValidChunk(c: Chunk) {
    c.data != [] && ValidSizeLine(c.size, c.ext, |c.data|)
  }

  function EncodeChunk(c: Chunk): seq<Octet> {
    c.size + c.ext + CRLF + c.data + CRLF
  }

  // The last chunk, and an empty trailer
  function EncodeLast(size: seq<Octet>, ext: seq<Octet>): seq<Octet> {
    size + ext + CRLF + CRLF
  }

  function EncodeChunks(cs: seq<Chunk>): seq<Octet> {
    if cs == [] then [] else EncodeChunks(cs[..|cs| - 1]) + EncodeChunk(cs[|cs| - 1])
  }

  function ChunkEvents(cs: seq<Chunk>): seq<Event> {
    if cs == [] then []
    else ChunkEvents(cs[..|cs| - 1]) + [ChunkHeader(|cs[|cs| - 1].data|), Data(Body, cs[|cs| - 1].data), ChunkComplete]
  }

  // ----- Runs that no buffer boundary disturbs

  // At no point of `d` is a byte left half-way.
  predicate Quiet(c: Config, d: seq<Octet>) {
    forall k :: 0 <= k <= |d| ==> Run(c, d[..k]).Go? && Run(c, d[..k]).lane.Outer?
  }

  lemma QuietConcat(c: Config, a: seq<Octet>, b: seq<Octet>)
    requires Quiet(c, a) && Quiet(Run(c, a), b)
    ensures Quiet(c, a + b) && Run(c, a + b) == Run(Run(c, a), b)
  {
    hide Run;
    RunConcat(c, a, b);
    forall k | 0 <= k <= |a + b| ensures Run(c, (a + b)[..k]).Go? && Run(c, (a + b)[..k]).lane.Outer? {
      if k <= |a| {
        assert (a + b)[..k] == a[..k];
      } else {
        assert (a + b)[..k] == a + b[..k - |a|];
        RunConcat(c, a, b[..k - |a|]);
      }
    }
  }

  lemma QuietOne(c: Config, ch: Octet)
    requires c.Go? && c.lane.Outer? && Step(c, ch).Go? && Step(c, ch).lane.Outer?
    ensures Quiet(c, [ch]) && Run(c, [ch]) == Step(c, ch)
  {
    hide Step;
    RunOne(c, ch);
    assert [ch][..0] == [] && [ch][..1] == [ch];
  }

  // ----- One chunk

  // A parser between chunks
  predicate BetweenChunks(c: Config) {
    c.Go? && c.lane.Outer? && c.ps.state == InChunkSize(ChunkSizeStart) && c.ps.nread == 0
  }

  function SizeLineConfig(c: Config, s: ChunkSizeState, n: nat, count: nat): Config
    requires c.Go?
  {
    Go(c.ps.(state := InChunkSize(s), contentLength := n, nread := count), c.tr, Outer, c.pos + count)
  }

  lemma SizeIsQuiet(c: Config, size: seq<Octet>, n: nat)
    requires BetweenChunks(c) && ValidSizeLine(size, [], n)
    ensures Quiet(c, size) && Run(c, size) == SizeLineConfig(c, ChunkSize, n, |size|)
  {
    hide Run, Unhex, IsHex;
    forall k | 0 <= k <= |size| ensures Run(c, size[..k]).Go? && Run(c, size[..k]).lane.Outer? {
      if k == 0 {
        RunNothing(c, size, 0);
      } else {
        HexPrefix(size, k);
        ChunkSizeExact(c, size[..k]);
      }
    }
    ChunkSizeExact(c, size);
  }

  lemma {:induction false} HexPrefix(w: seq<Octet>, k: nat)
    requires IsChunkSize(w) && k <= |w|
    ensures HexValue(w[..k]) <= HexValue(w)
    decreases |w|
  {
    hide Unhex;
    if k < |w| {
      var init := w[..|w| - 1];
      assert init[..k] == w[..k];
      if init == [] {
        assert HexValue(w[..k]) == 0;
      } else {
        HexPrefix(init, k);
      }
    } else {
      assert w[..k] == w;
    }
  }

  lemma StepParameters(c: Config, s: ChunkSizeState, n: nat, count: nat, ch: Octet)
    requires BetweenChunks(c) && count < MAX_HEADER_SIZE
    ensures s.ChunkSize? && (ch == ';' || ch == ' ') ==>
              Step(SizeLineConfig(c, s, n, count), ch) == SizeLineConfig(c, ChunkParameters, n, count + 1)
    ensures s.ChunkParameters? && ch != CR ==>
              Step(SizeLineConfig(c, s, n, count), ch) == SizeLineConfig(c, ChunkParameters, n, count + 1)
    ensures (s.ChunkSize? || s.ChunkParameters?) && ch == CR ==>
              Step(SizeLineConfig(c, s, n, count), ch) == SizeLineConfig(c, ChunkSizeAlmostDone, n, count + 1)
  {
    hide Dispatch;
    var r := SizeLineConfig(c, s, n, count);
    StepNext(r.ps, r.tr, r.lane, r.pos, ch);
    DispatchOnce(r.ps.(nread := r.ps.nread + 1), r.tr, r.lane, ch, r.pos);
  }

  lemma {:induction false} ExtIsQuiet(c: Config, n: nat, count: nat, ext: seq<Octet>)
    requires BetweenChunks(c) && ext != [] && count + |ext| <= MAX_HEADER_SIZE
    requires (ext[0] == ';' || ext[0] == ' ') && forall k :: 0 <= k < |ext| ==> ext[k] != CR
    ensures var s := SizeLineConfig(c, ChunkSize, n, count);
            Quiet(s, ext) && Run(s, ext) == SizeLineConfig(c, ChunkParameters, n, count + |ext|)
  {
    hide Step, Run;
    var s := SizeLineConfig(c, ChunkSize, n, count);
    var init, ch := ext[..|ext| - 1], ext[|ext| - 1];
    assert ext == init + [ch];
    if |ext| == 1 {
      assert ext == [ch];
      StepParameters(c, ChunkSize, n, count, ch);
      QuietOne(s, ch);
    } else {
      ExtIsQuiet(c, n, count, init);
      StepParameters(c, ChunkParameters, n, count + |init|, ch);
      QuietOne(Run(s, init), ch);
      QuietConcat(s, init, [ch]);
    }
  }

  // The line feed after a size line
  function HeaderConfig(c: Config, n: nat, count: nat): Config
    requires c.Go?
  {
    if n == 0 then
      Go(c.ps.(state := InHeader(FieldStart), contentLength := 0, nread := 0, flags := c.ps.flags.(trailing := true)),
         Emit(c.tr, ChunkHeader(0)), Outer, c.pos + count)
    else
      Go(c.ps.(state := InPayload(ChunkData), contentLength := n, nread := 0), Emit(c.tr, ChunkHeader(n)), Outer, c.pos + count)
  }

  lemma StepSizeLineEnd(c: Config, n: nat, count: nat)
    requires BetweenChunks(c) && count < MAX_HEADER_SIZE
    ensures Step(SizeLineConfig(c, ChunkSizeAlmostDone, n, count), LF) == HeaderConfig(c, n, count + 1)
  {
    hide Dispatch, Emit;
    var r := SizeLineConfig(c, ChunkSizeAlmostDone, n, count);
    StepNext(r.ps, r.tr, r.lane, r.pos, LF);
    DispatchOnce(r.ps.(nread := r.ps.nread + 1), r.tr, r.lane, LF, r.pos);
  }

  lemma SizeLineIsQuiet(c: Config, size: seq<Octet>, ext: seq<Octet>, n: nat)
    requires BetweenChunks(c) && ValidSizeLine(size, ext, n)
    ensures var line := size + ext + CRLF;
            Quiet(c, line) && Run(c, line) == HeaderConfig(c, n, |line|)
  {
    hide Step, Run, Quiet, HeaderConfig;
    SizeIsQuiet(c, size, n);
    var s, before := if ext == [] then ChunkSize else ChunkParameters, size + ext;
    if ext == [] {
      assert before == size;
    } else {
      ExtIsQuiet(c, n, |size|, ext);
      QuietConcat(c, size, ext);
    }
    StepParameters(c, s, n, |before|, CR);
    QuietOne(SizeLineConfig(c, s, n, |before|), CR);
    StepSizeLineEnd(c, n, |before| + 1);
    HeaderIsGo(c, n, |before| + 2);
    QuietOne(SizeLineConfig(c, ChunkSizeAlmostDone, n, |before| + 1), LF);
    QuietConcat(c, before, [CR]);
    QuietConcat(c, before + [CR], [LF]);
    assert size + ext + CRLF == before + [CR] + [LF];
  }

  lemma HeaderIsGo(c: Config, n: nat, count: nat)
    requires c.Go?
    ensures HeaderConfig(c, n, count).Go? && HeaderConfig(c, n, count).lane.Outer?
  {
  }

  function DataConfig(c: Config, data: seq<Octet>): Config
    requires c.Go?
  {
    Go(c.ps.(state := InPayload(ChunkDataAlmostDone), contentLength := 0), Emit(c.tr, Data(Body, data)), Outer,
       c.pos + |data|)
  }

  // In the middle of the data of a chunk
  predicate InData(c: Config, data: seq<Octet>) {
    c.Go? && c.lane.Outer? && c.ps.state == InPayload(ChunkData) && c.ps.contentLength == |data| && data != []
  }

  // The data but for its last byte
  lemma DataSoFar(c: Config, data: seq<Octet>, k: nat)
    requires InData(c, data) && k < |data|
    ensures Run(c, data[..k]) ==
            if k == 0 then c else Go(Taken(c.ps, k), Emit(c.tr, Data(Body, data[..k])), Outer, c.pos + k)
  {
    hide Step, Run, Emit;
    if k == 0 {
      assert data[..0] == data[0..0];
      RunNothing(c, data, 0);
    } else {
      RunBody(c.ps, c.tr, c.pos, data[..k]);
    }
  }

  lemma RunData(c: Config, data: seq<Octet>)
    requires InData(c, data)
    ensures Run(c, data) == DataConfig(c, data)
  {
    hide Step, Run, Emit;
    var n := |data| - 1;
    var init, ch := data[..n], data[n];
    assert data == init + [ch];
    DataSoFar(c, data, n);
    RunSnoc(c, init, ch);
    if n == 0 {
      assert data == [ch];
      StepLastByte(c.ps, c.tr, c.pos, ch);
    } else {
      EmitTwice(c.tr, Body, init, [ch]);
      StepLastByte(Taken(c.ps, n), Emit(c.tr, Data(Body, init)), c.pos + n, ch);
    }
  }

  lemma DataIsQuiet(c: Config, data: seq<Octet>)
    requires InData(c, data)
    ensures Quiet(c, data) && Run(c, data) == DataConfig(c, data)
  {
    hide Step, Run, Emit;
    RunData(c, data);
    forall k | 0 <= k <= |data| ensures Run(c, data[..k]).Go? && Run(c, data[..k]).lane.Outer? {
      if k < |data| {
        DataSoFar(c, data, k);
      } else {
        assert data[..k] == data;
      }
    }
  }

  // The configuration after a whole chunk
  function ChunkConfig(c: Config, chunk: Chunk): Config
    requires c.Go?
  {
    Go(c.ps.(contentLength := 0),
       c.tr + [ChunkHeader(|chunk.data|), Data(Body, chunk.data), ChunkComplete], Outer, c.pos + |EncodeChunk(chunk)|)
  }

  lemma StepChunkEnd(ps: Parser, tr: seq<Event>, pos: nat)
    ensures ps.state == InPayload(ChunkDataAlmostDone) && ps.contentLength == 0 ==>
              Step(Go(ps, tr, Outer, pos), CR) == Go(ps.(state := InPayload(ChunkDataDone)), tr, Outer, pos + 1)
    ensures ps.state == InPayload(ChunkDataDone) ==>
              Step(Go(ps, tr, Outer, pos), LF) ==
              Go(ps.(state := InChunkSize(ChunkSizeStart), nread := 0), Emit(tr, ChunkComplete), Outer, pos + 1)
  {
    hide Dispatch, Emit;
    if ps.state.InPayload? {
      StepNext(ps, tr, Outer, pos, CR);
      DispatchOnce(ps, tr, Outer, CR, pos);
      StepNext(ps, tr, Outer, pos, LF);
      DispatchOnce(ps, tr, Outer, LF, pos);
    }
  }

  lemma ChunkIsQuiet(c: Config, chunk: Chunk)
    requires BetweenChunks(c) && ValidChunk(chunk)
    ensures Quiet(c, EncodeChunk(chunk)) && Run(c, EncodeChunk(chunk)) == ChunkConfig(c, chunk)
  {
    hide Step, Run, Quiet, ValidSizeLine;
    var line, n := chunk.size + chunk.ext + CRLF, |chunk.data|;
    SizeLineIsQuiet(c, chunk.size, chunk.ext, n);
    var h := HeaderConfig(c, n, |line|);
    DataIsQuiet(h, chunk.data);
    QuietConcat(c, line, chunk.data);
    var e := DataConfig(h, chunk.data);
    StepChunkEnd(e.ps, e.tr, e.pos);
    QuietOne(e, CR);
    QuietConcat(c, line + chunk.data, [CR]);
    var f := Step(e, CR);
    StepChunkEnd(f.ps, f.tr, f.pos);
    QuietOne(f, LF);
    QuietConcat(c, line + chunk.data + [CR], [LF]);
    assert EncodeChunk(chunk) == line + chunk.data + [CR] + [LF];
    assert c.tr + [ChunkHeader(n)] + [Data(Body, chunk.data)] + [ChunkComplete] ==
           c.tr + [ChunkHeader(n), Data(Body, chunk.data), ChunkComplete];
    assert c.ps.(contentLength := 0) == Run(c, EncodeChunk(chunk)).ps;
  }

  // The configuration after a list of chunks
  function ChunksConfig(c: Config, cs: seq<Chunk>): Config
    requires c.Go?
  {
    Go(if cs == [] then c.ps else c.ps.(contentLength := 0), c.tr + ChunkEvents(cs), Outer, c.pos + |EncodeChunks(cs)|)
  }

  lemma {:induction false} ChunksAreQuiet(c: Config, cs: seq<Chunk>)
    requires BetweenChunks(c) && forall k :: 0 <= k < |cs| ==> ValidChunk(cs[k])
    ensures Quiet(c, EncodeChunks(cs)) && Run(c, EncodeChunks(cs)) == ChunksConfig(c, cs)
  {
    hide Step, Run, Quiet, ValidChunk, EncodeChunk;
    if cs == [] {
      QuietNothing(c);
      assert c.tr + [] == c.tr;
    } else {
      var init, last := cs[..|cs| - 1], cs[|cs| - 1];
      ChunksAreQuiet(c, init);
      ChunkIsQuiet(ChunksConfig(c, init), last);
      QuietConcat(c, EncodeChunks(init), EncodeChunk(last));
      assert c.tr + ChunkEvents(init) + [ChunkHeader(|last.data|), Data(Body, last.data), ChunkComplete] ==
             c.tr + ChunkEvents(cs);
    }
  }

  lemma QuietNothing(c: Config)
    requires c.Go? && c.lane.Outer?
    ensures Quiet(c, []) && Run(c, []) == c
  {
    hide Step;
  }

  // The parser at the end of the last chunk
  function LastParser(c: Config): Parser
    requires c.Go?
  {
    c.ps.(state := InPayload(MessageDone), contentLength := 0, nread := 2, flags := c.ps.flags.(trailing := true))
  }

  function LastConfig(c: Config, n: nat): Config
    requires c.Go?
  {
    var ps := LastParser(c);
    var tr := c.tr + [ChunkHeader(0), ChunkComplete, MessageComplete(ShouldKeepAlive(ps))];
    if ps.upgrade then Left(CompletedParser(ps), tr, c.pos + n) else Go(CompletedParser(ps), tr, Outer, c.pos + n)
  }

  lemma StepTrailerEnd(ps: Parser, tr: seq<Event>, pos: nat)
    requires ps.flags.trailing && ps.nread < MAX_HEADER_SIZE
    ensures ps.state == InHeader(FieldStart) ==>
              Step(Go(ps, tr, Outer, pos), CR) ==
              Go(ps.(state := InHeader(HeadersAlmostDone), nread := ps.nread + 1), tr, Outer, pos + 1)
    ensures ps.state == InHeader(HeadersAlmostDone) ==>
              var done := ps.(state := InPayload(MessageDone), nread := ps.nread + 1);
              var shown := CompletedTrace(done, Emit(tr, ChunkComplete));
              Step(Go(ps, tr, Outer, pos), LF) ==
              if ps.upgrade then Left(CompletedParser(done), shown, pos + 1) else Go(CompletedParser(done), shown, Outer, pos + 1)
  {
    hide Dispatch, Emit, CompletedParser, CompletedTrace, Look;
    var counted := ps.(nread := ps.nread + 1);
    LookTrailerEnd(counted, tr);
    if ps.state.InHeader? {
      StepNext(ps, tr, Outer, pos, CR);
      DispatchOnce(counted, tr, Outer, CR, pos);
      StepNext(ps, tr, Outer, pos, LF);
      DispatchOnce(counted, tr, Outer, LF, pos);
      DispatchOnce(counted.(state := InPayload(MessageDone)), Emit(tr, ChunkComplete), Outer, LF, pos);
    }
  }

  lemma LookTrailerEnd(ps: Parser, tr: seq<Event>)
    requires ps.flags.trailing
    ensures ps.state == InHeader(FieldStart) ==>
              Look(ps, tr, false, CR) == Next(ps.(state := InHeader(HeadersAlmostDone)), tr)
    ensures ps.state == InHeader(HeadersAlmostDone) ==>
              Look(ps, tr, false, LF) == Again(ps.(state := InPayload(MessageDone)), Emit(tr, ChunkComplete))
    ensures var done, shown := ps.(state := InPayload(MessageDone)), Emit(tr, ChunkComplete);
            Look(done, shown, false, LF) ==
            if ps.upgrade then Leave(CompletedParser(done), CompletedTrace(done, shown))
            else Next(CompletedParser(done), CompletedTrace(done, shown))
  {
    hide Emit, CompletedParser, CompletedTrace;
  }

  lemma LastIsQuiet(c: Config, size: seq<Octet>, ext: seq<Octet>)
    requires BetweenChunks(c) && ValidSizeLine(size, ext, 0)
    ensures var d := EncodeLast(size, ext);
            Quiet(c, d[..|d| - 1]) && Run(c, d) == LastConfig(c, |d|)
  {
    hide Step, Run, Quiet, ValidSizeLine;
    var line, d := size + ext + CRLF, EncodeLast(size, ext);
    SizeLineIsQuiet(c, size, ext, 0);
    var h := HeaderConfig(c, 0, |line|);
    StepTrailerEnd(h.ps, h.tr, h.pos);
    QuietOne(h, CR);
    QuietConcat(c, line, [CR]);
    assert d[..|d| - 1] == line + [CR];
    var e := Step(h, CR);
    StepTrailerEnd(e.ps, e.tr, e.pos);
    assert d == line + [CR] + [LF];
    RunSnoc(c, line + [CR], LF);
    CompletedEvents(c.tr, LastParser(c));
  }

  lemma CompletedEvents(tr: seq<Event>, ps: Parser)
    ensures CompletedTrace(ps, Emit(Emit(tr, ChunkHeader(0)), ChunkComplete)) ==
            tr + [ChunkHeader(0), ChunkComplete, MessageComplete(ShouldKeepAlive(ps))]
  {
    hide ShouldKeepAlive;
  }

  // ----- A whole chunked body, under any splitting

  function Concat(ds: seq<seq<Octet>>): seq<Octet> {
    if ds == [] then [] else Concat(ds[..|ds| - 1]) + ds[|ds| - 1]
  }

  // The same fields and the same trace, wherever the buffers began.
  predicate SameUpToPosition(c: Config, c': Config) {
    match c
    case Go(ps, tr, _, _) => c'.Go? && c'.ps == ps && c'.tr == tr
    case Left(ps, tr, _) => c'.Left? && c'.ps == ps && c'.tr == tr
    case Bad(_, _) => false
  }

  // Buffers over a quiet stretch of bytes do as well as one buffer.
  lemma {:induction false} FeedQuietly(ps: Parser, tr: seq<Event>, ds: seq<seq<Octet>>)
    requires forall i :: 0 <= i < |ds| ==> ds[i] != []
    requires var d, c := Concat(ds), Begin(ps, tr);
             && (forall k :: 0 <= k < |d| ==> Run(c, d[..k]).Go? && Run(c, d[..k]).lane.Outer?)
             && !Run(c, d).Bad? && (Run(c, d).Go? ==> Run(c, d).lane.Outer?)
    ensures SameUpToPosition(Run(Begin(ps, tr), Concat(ds)), Feed(ps, tr, ds))
  {
    hide Step, Run;
    var c := Begin(ps, tr);
    if ds == [] {
      RunNothing(c, [], 0);
      assert [][0..0] == Concat(ds);
    } else {
      var init, last, d := ds[..|ds| - 1], ds[|ds| - 1], Concat(ds);
      var before := Concat(init);
      assert d[..|before|] == before;
      forall k | 0 <= k < |before| ensures Run(c, before[..k]).Go? && Run(c, before[..k]).lane.Outer? {
        assert before[..k] == d[..k];
      }
      FeedQuietly(ps, tr, init);
      RunConcat(c, before, last);
      var m := Run(c, before);
      RunLaneCounted(c, before);
      RunMoves(Begin(m.ps, m.tr), last, |before|);
      assert m == Moved(Begin(m.ps, m.tr), |before|);
    }
  }

  // A chunked body reaches the callbacks whole: every chunk with the length its
  // header announced, under any splitting into non-empty buffers.
  lemma ChunkedCoding(ps: Parser, tr: seq<Event>, cs: seq<Chunk>, size: seq<Octet>, ext: seq<Octet>, ds: seq<seq<Octet>>)
    requires BetweenChunks(Begin(ps, tr)) && (forall k :: 0 <= k < |cs| ==> ValidChunk(cs[k])) && ValidSizeLine(size, ext, 0)
    requires (forall i :: 0 <= i < |ds| ==> ds[i] != []) && Concat(ds) == EncodeChunks(cs) + EncodeLast(size, ext)
    ensures var c := Feed(ps, tr, ds);
            var done := LastParser(Begin(ps, tr));
            && !c.Bad? && (c.Left? <==> ps.upgrade) && c.ps == CompletedParser(done)
            && c.tr == tr + ChunkEvents(cs) + [ChunkHeader(0), ChunkComplete, MessageComplete(ShouldKeepAlive(done))]
  {
    hide Step, Run, Quiet, ValidSizeLine, ValidChunk, EncodeLast, EncodeChunks, CompletedParser, ShouldKeepAlive, Concat, Feed,
         ChunkEvents;
    var c, last := Begin(ps, tr), EncodeLast(size, ext);
    ChunksAreQuiet(c, cs);
    LastIsQuiet(ChunksConfig(c, cs), size, ext);
    LastNotEmpty(size, ext);
    QuietButLast(c, EncodeChunks(cs), last);
    FeedQuietly(ps, tr, ds);
  }

  // A quiet run, and another that may end a message with its last byte
  lemma QuietButLast(c: Config, a: seq<Octet>, last: seq<Octet>)
    requires last != [] && Quiet(c, a) && Quiet(Run(c, a), last[..|last| - 1])
    ensures Run(c, a + last) == Run(Run(c, a), last)
    ensures forall k :: 0 <= k < |a + last| ==> Run(c, (a + last)[..k]).Go? && Run(c, (a + last)[..k]).lane.Outer?
  {
    hide Step, Run;
    var init := last[..|last| - 1];
    QuietConcat(c, a, init);
    RunConcat(c, a, last);
    forall k | 0 <= k < |a + last| ensures Run(c, (a + last)[..k]).Go? && Run(c, (a + last)[..k]).lane.Outer? {
      assert (a + last)[..k] == (a + init)[..k];
    }
  }

  lemma LastNotEmpty(size: seq<Octet>, ext: seq<Octet>)
    ensures |EncodeLast(size, ext)| >= 4
  {
  }

  // What on_body delivered
  function BodyBytes(tr: seq<Event>): seq<Octet> {
    if tr == [] then []
    else
      var e := tr[|tr| - 1];
      BodyBytes(tr[..|tr| - 1]) + if e.Data? && e.kind.Body? then e.bytes else []
  }

  lemma BodyBytesAppend(tr: seq<Event>, e: Event)
    ensures BodyBytes(tr + [e]) == BodyBytes(tr) + if e.Data? && e.kind.Body? then e.bytes else []
  {
    assert (tr + [e])[..|tr|] == tr;
  }

  function DataOf(cs: seq<Chunk>): seq<Octet> {
    if cs == [] then [] else DataOf(cs[..|cs| - 1]) + cs[|cs| - 1].data
  }

  // The concatenation of the chunks is what on_body delivers.
  lemma {:induction false} ChunkEventsDeliver(tr: seq<Event>, cs: seq<Chunk>)
    ensures BodyBytes(tr + ChunkEvents(cs)) == BodyBytes(tr) + DataOf(cs)
  {
    hide BodyBytes;
    if cs == [] {
      assert tr + [] == tr;
    } else {
      var init, last := cs[..|cs| - 1], cs[|cs| - 1];
      ChunkEventsDeliver(tr, init);
      var t := tr + ChunkEvents(init);
      var h, b := ChunkHeader(|last.data|), Data(Body, last.data);
      BodyBytesAppend(t, h);
      BodyBytesAppend(t + [h], b);
      BodyBytesAppend(t + [h] + [b], ChunkComplete);
      assert tr + ChunkEvents(cs) == t + [h] + [b] + [ChunkComplete];
    }
  }
}
