// Exactly which bytes are taken as chunks: the parser gets to the trailer
// behind nothing but encoded chunks and a last chunk.
module HttpChunkedExactly {
  import opened HttpChars
  import opened HttpTypes
  import opened HttpMachine
  import opened HttpBulk
  import opened HttpInvariant
  import opened HttpLengths
  import opened HttpSplit
  import opened HttpChunked

  // Whole chunks, and what has been read of the next one
  datatype Part = Part(chunks: seq<Chunk>, size: seq<Octet>, ext: seq<Octet>, line: seq<Octet>, data: seq<Octet>, end: seq<Octet>)

  function PartText(p: Part): seq<Octet> {
    EncodeChunks(p.chunks) + p.size + p.ext + p.line + p.data + p.end
  }

  predicate ExtOk(ext: seq<Octet>) {
    ext != [] ==> (ext[0] == ';' || ext[0] == ' ') && forall k :: 0 <= k < |ext| ==> ext[k] != CR
  }

  predicate SizeOk(p: Part, n: nat) {
    IsChunkSize(p.size) && HexValue(p.size) == n && n <= MAX_CHUNK_SIZE && ExtOk(p.ext)
  }

  predicate ChunksOk(cs: seq<Chunk>) {
    forall k :: 0 <= k < |cs| ==> ValidChunk(cs[k])
  }

  // What the parts are in a state
  predicate PartBegun(p: Part, ps: Parser) {
    && ChunksOk(p.chunks)
    && match ps.state
       case InChunkSize(s) =>
         && p.data == [] && p.end == [] && ps.nread == |p.size| + |p.ext| + |p.line| <= MAX_HEADER_SIZE
         && (match s
             case ChunkSizeStart => p.size == [] && p.ext == [] && p.line == []
             case ChunkSize => SizeOk(p, ps.contentLength) && p.ext == [] && p.line == []
             case ChunkParameters => SizeOk(p, ps.contentLength) && p.ext != [] && p.line == []
             case ChunkSizeAlmostDone => SizeOk(p, ps.contentLength) && p.line == [CR])
       case InPayload(s) =>
         && ValidSizeLine(p.size, p.ext, |p.data| + ps.contentLength) && p.line == CRLF
         && (match s
             case ChunkData => ps.contentLength > 0 && p.end == []
             case ChunkDataAlmostDone => ps.contentLength == 0 && p.data != [] && p.end == []
             case ChunkDataDone => ps.contentLength == 0 && p.data != [] && p.end == [CR]
             case _ => false)
       case InHeader(FieldStart) => ValidSizeLine(p.size, p.ext, 0) && p.line == CRLF && p.data == [] && p.end == []
       case _ => false
  }

  // The parts with a byte that was read in state `s` and led to `next`
  function PutPart(p: Part, s: State, next: State, ch: Octet): Part {
    match next
    case InChunkSize(ChunkSize) => p.(size := p.size + [ch])
    case InChunkSize(ChunkParameters) => p.(ext := p.ext + [ch])
    case InChunkSize(ChunkSizeAlmostDone) => p.(line := p.line + [ch])
    case InHeader(_) => p.(line := p.line + [ch])
    case InPayload(ChunkData) => if s.InChunkSize? then p.(line := p.line + [ch]) else p.(data := p.data + [ch])
    case InPayload(ChunkDataAlmostDone) => p.(data := p.data + [ch])
    case InPayload(_) => p.(end := p.end + [ch])
    case _ => Part(p.chunks + [Chunk(p.size, p.ext, p.data)], [], [], [], [], [])
  }

  ghost predicate PartStep(p: Part, ps: Parser, tr: seq<Event>, ch: Octet) {
    var act := Look(ps, tr, false, ch);
    && !act.Again? && !act.Leave?
    && (act.Next? ==>
          var q := PutPart(p, ps.state, act.ps.state, ch);
          LaneAfter(ps, act.ps).Outer? && PartBegun(q, act.ps) && PartText(q) == PartText(p) + [ch])
  }

  // The parser with the byte counted, if it counts in this state
  function Counted(ps: Parser): Parser {
    if ParsingHeader(ps.state) then ps.(nread := ps.nread + 1) else ps
  }

  lemma FirstHex(ch: Octet)
    requires Unhex(ch) != -1
    ensures IsChunkSize([ch]) && HexValue([ch]) == Unhex(ch)
  {
    hide Unhex;
    assert [ch][..0] == [];
  }

  lemma MoreHex(w: seq<Octet>, ch: Octet)
    requires IsChunkSize(w) && Unhex(ch) != -1
    ensures IsChunkSize(w + [ch]) && HexValue(w + [ch]) == HexValue(w) * 16 + Unhex(ch)
  {
    hide Unhex;
    assert (w + [ch])[..|w|] == w;
  }

  // Where a byte is put, it is the last.
  lemma PutIsLast(p: Part, ch: Octet)
    requires p.data == [] && p.end == []
    ensures p.line == [] && p.ext == [] ==> PartText(p.(size := p.size + [ch])) == PartText(p) + [ch]
    ensures p.line == [] ==> PartText(p.(ext := p.ext + [ch])) == PartText(p) + [ch]
    ensures PartText(p.(line := p.line + [ch])) == PartText(p) + [ch]
  {
    hide EncodeChunks;
  }

  // ----- State by state

  predicate Room(ps: Parser) {
    ps.nread < MAX_HEADER_SIZE
  }

  lemma StartCounts(p: Part, ps: Parser, tr: seq<Event>, ch: Octet)
    requires PartBegun(p, ps) && ps.state == InChunkSize(ChunkSizeStart) && Room(ps)
    ensures PartStep(p, Counted(ps), tr, ch)
  {
    hide Emit, Unhex, HexValue, ValidChunk, EncodeChunks, PartText;
    PutIsLast(p, ch);
    if Unhex(ch) != -1 {
      FirstHex(ch);
      assert [] + [ch] == [ch];
    }
  }

  lemma SizeCounts(p: Part, ps: Parser, tr: seq<Event>, ch: Octet)
    requires PartBegun(p, ps) && ps.state == InChunkSize(ChunkSize) && Room(ps)
    ensures PartStep(p, Counted(ps), tr, ch)
  {
    hide Emit, Unhex, HexValue, ValidChunk, EncodeChunks, ULLONG_MAX, TWO_TO_THE_64, MAX_CHUNK_SIZE, PartText;
    PutIsLast(p, ch);
    if ch == CR {
      assert [] + [ch] == [ch];
    } else if Unhex(ch) != -1 {
      MoreHex(p.size, ch);
      RoomForHexDigit(ps.contentLength, Unhex(ch));
    }
  }

  lemma ParametersCount(p: Part, ps: Parser, tr: seq<Event>, ch: Octet)
    requires PartBegun(p, ps) && ps.state == InChunkSize(ChunkParameters) && Room(ps)
    ensures PartStep(p, Counted(ps), tr, ch)
  {
    hide Emit, Unhex, HexValue, ValidChunk, EncodeChunks, PartText;
    PutIsLast(p, ch);
  }

  lemma LineCounts(p: Part, ps: Parser, tr: seq<Event>, ch: Octet)
    requires PartBegun(p, ps) && ps.state == InChunkSize(ChunkSizeAlmostDone) && Room(ps)
    ensures PartStep(p, Counted(ps), tr, ch)
  {
    hide Emit, Unhex, HexValue, ValidChunk, EncodeChunks, PartText;
    PutIsLast(p, ch);
    assert [CR] + [LF] == CRLF;
  }

  lemma DataCounts(p: Part, ps: Parser, tr: seq<Event>, ch: Octet)
    requires PartBegun(p, ps) && ps.state == InPayload(ChunkData)
    ensures PartStep(p, ps, tr, ch)
  {
    hide Emit, ValidSizeLine, ValidChunk, EncodeChunks;
  }

  lemma EndCounts(p: Part, ps: Parser, tr: seq<Event>, ch: Octet)
    requires PartBegun(p, ps) && (ps.state == InPayload(ChunkDataAlmostDone) || ps.state == InPayload(ChunkDataDone))
    ensures PartStep(p, ps, tr, ch)
  {
    hide Emit, ValidSizeLine, EncodeChunks, EncodeChunk;
    if ps.state == InPayload(ChunkDataDone) && ch == LF {
      var c := Chunk(p.size, p.ext, p.data);
      OneMoreChunk(p.chunks, c);
      assert p.size + p.ext + CRLF + p.data + ([CR] + [LF]) == EncodeChunk(c) by { ChunkIs(c); }
      Grouped(EncodeChunks(p.chunks), p.size, p.ext, p.data);
    }
  }

  lemma OneMoreChunk(cs: seq<Chunk>, c: Chunk)
    ensures EncodeChunks(cs + [c]) == EncodeChunks(cs) + EncodeChunk(c)
  {
    hide EncodeChunk;
    assert (cs + [c])[..|cs|] == cs;
  }

  lemma ChunkIs(c: Chunk)
    ensures EncodeChunk(c) == c.size + c.ext + CRLF + c.data + ([CR] + [LF])
  {
  }

  lemma Grouped(front: seq<Octet>, size: seq<Octet>, ext: seq<Octet>, data: seq<Octet>)
    ensures front + size + ext + CRLF + data + [CR] + [LF] == front + (size + ext + CRLF + data + ([CR] + [LF]))
  {
  }

  lemma AnyCounts(p: Part, ps: Parser, tr: seq<Event>, ch: Octet)
    requires PartBegun(p, ps) && ps.state != InHeader(FieldStart) && (ParsingHeader(ps.state) ==> Room(ps))
    ensures PartStep(p, Counted(ps), tr, ch)
  {
    hide PartStep, ValidSizeLine, SizeOk, ChunksOk;
    if ps.state.InPayload? {
      if ps.state.payload.ChunkData? {
        DataCounts(p, ps, tr, ch);
      } else {
        EndCounts(p, ps, tr, ch);
      }
    } else if ps.state.chunk.ChunkSizeStart? {
      StartCounts(p, ps, tr, ch);
    } else if ps.state.chunk.ChunkSize? {
      SizeCounts(p, ps, tr, ch);
    } else if ps.state.chunk.ChunkParameters? {
      ParametersCount(p, ps, tr, ch);
    } else {
      LineCounts(p, ps, tr, ch);
    }
  }

  // ----- Runs

  // Every part of `w` before its end leaves the parser in the chunks.
  predicate ChunksRead(c: Config, w: seq<Octet>) {
    && Run(c, w).Go?
    && forall k :: 0 <= k < |w| ==> Run(c, w[..k]).Go? && Run(c, w[..k]).ps.state != InHeader(FieldStart)
  }

  lemma ReadBefore(c: Config, w: seq<Octet>)
    requires ChunksRead(c, w) && w != []
    ensures var init := w[..|w| - 1]; ChunksRead(c, init) && Run(c, init).Go? && Run(c, init).ps.state != InHeader(FieldStart)
    ensures Run(c, w).Go?
  {
    hide Run;
    var init := w[..|w| - 1];
    forall k | 0 <= k < |init| ensures Run(c, init[..k]).Go? && Run(c, init[..k]).ps.state != InHeader(FieldStart) {
      assert init[..k] == w[..k];
    }
    assert w[..|w| - 1] == init;
  }

  lemma StepIsNext(d: Config, ch: Octet)
    requires d.Go? && d.lane.Outer? && Step(d, ch).Go?
    ensures ParsingHeader(d.ps.state) ==> Room(d.ps)
    ensures Step(d, ch) == After(Counted(d.ps), Look(Counted(d.ps), d.tr, false, ch), ch, d.pos)
  {
    hide Dispatch, Look;
    StepNext(d.ps, d.tr, d.lane, d.pos, ch);
    DispatchOnce(Counted(d.ps), d.tr, d.lane, ch, d.pos);
  }

  lemma {:induction false} ChunksHaveParts(c: Config, w: seq<Octet>) returns (p: Part)
    requires BetweenChunks(c) && ChunksRead(c, w)
    ensures Run(c, w).lane.Outer? && PartBegun(p, Run(c, w).ps) && PartText(p) == w
  {
    hide Step, ChunksRead, PartBegun, Look, PartText, PutPart, Dispatch;
    if w == [] {
      p := Part([], [], [], [], [], []);
      NothingBegun(c);
    } else {
      var init, ch := w[..|w| - 1], w[|w| - 1];
      assert init + [ch] == w;
      ReadBefore(c, w);
      var p0 := ChunksHaveParts(c, init);
      var d := Run(c, init);
      StepIsNext(d, ch);
      AnyCounts(p0, d.ps, d.tr, ch);
      p := PutPart(p0, d.ps.state, Step(d, ch).ps.state, ch);
    }
  }

  lemma NothingBegun(c: Config)
    requires BetweenChunks(c)
    ensures PartBegun(Part([], [], [], [], [], []), c.ps) && PartText(Part([], [], [], [], [], [])) == []
  {
  }

  // Chunks and the size line of the last chunk
  function AllText(cs: seq<Chunk>, size: seq<Octet>, ext: seq<Octet>): seq<Octet> {
    EncodeChunks(cs) + size + ext + CRLF
  }

  // The parser has come to the trailer, and not before.
  predicate TakesChunks(c: Config, w: seq<Octet>) {
    ChunksRead(c, w) && Run(c, w).ps.state == InHeader(FieldStart)
  }

  lemma TakenIsEncoded(c: Config, w: seq<Octet>) returns (cs: seq<Chunk>, size: seq<Octet>, ext: seq<Octet>)
    requires BetweenChunks(c) && TakesChunks(c, w)
    ensures ChunksOk(cs) && ValidSizeLine(size, ext, 0) && AllText(cs, size, ext) == w
  {
    hide Run, ChunksOk, ValidSizeLine, EncodeChunks;
    var p := ChunksHaveParts(c, w);
    cs, size, ext := p.chunks, p.size, p.ext;
  }
}
