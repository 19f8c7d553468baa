// The length accumulators: Content-Length values and chunk sizes.
module HttpLengths {
  import opened HttpChars
  import opened HttpTypes
  import opened HttpMachine
  import opened HttpBulk

  // The largest values that the two conservative overflow tests let through.
  const MAX_CONTENT_LENGTH: nat := 0xFFFF_FFFF_FFFF_FFF9
  const MAX_CHUNK_SIZE: nat := 0xFFFF_FFFF_FFFF_FFEF

  // ----- Content-Length

  predicate IsDigitOrSpace(c: Octet) {
    IsNum(c) || c == ' '
  }

  // The decimal number written in `w`, spaces dropped.
  function DecimalValue(w: seq<Octet>): nat {
    if w == [] then 0
    else
      var init, c := w[..|w| - 1], w[|w| - 1];
      if IsNum(c) then DecimalValue(init) * 10 + DigitValue(c) else DecimalValue(init)
  }

  // A number in a Content-Length value
  predicate IsLength(w: seq<Octet>) {
    w != [] && IsNum(w[0]) && forall k :: 0 <= k < |w| ==> IsDigitOrSpace(w[k])
  }

  // A parser that is about to read a first Content-Length value, with room for it.
  predicate AtLength(c: Config, n: nat) {
    && c.Go? && c.ps.state == InHeader(ValueDiscardWs) && c.ps.headerState.ContentLength?
    && !c.ps.flags.contentLength && c.ps.nread + n <= MAX_HEADER_SIZE
  }

  // The configuration after `w`, read as the number `value`.
  function LengthConfig(c: Config, w: seq<Octet>, value: nat): Config
    requires c.Go?
  {
    Go(c.ps.(state := InHeader(ValueText), index := 0, flags := c.ps.flags.(contentLength := true), contentLength := value,
             nread := c.ps.nread + |w|),
       Emit(c.tr, Data(Value, w)), if |w| <= 1 then Outer else Inner, c.pos + |w|)
  }

  lemma StepFirstDigit(c: Config, ch: Octet)
    requires AtLength(c, 1) && ch != ' ' && ch != TAB && ch != CR && ch != LF
    ensures Step(c, ch) == if IsNum(ch) then LengthConfig(c, [ch], DigitValue(ch)) else Bad(InvalidContentLength, c.pos)
  {
    hide Emit, Dispatch;
    StepNext(c.ps, c.tr, c.lane, c.pos, ch);
    DispatchOnce(c.ps.(nread := c.ps.nread + 1), c.tr, c.lane, ch, c.pos);
  }

  lemma StepMoreDigits(c: Config, w: seq<Octet>, value: nat, ch: Octet)
    requires AtLength(c, |w| + 1) && w != [] && ch != CR && ch != LF
    requires c.ps.settings.lenient || IsHeaderChar(ch)
    ensures Step(LengthConfig(c, w, value), ch) ==
            if ch == ' ' then LengthConfig(c, w + [ch], value)
            else if IsNum(ch) && value <= (ULLONG_MAX - 10) / 10 then
              LengthConfig(c, w + [ch], (value * 10 + DigitValue(ch)) % TWO_TO_THE_64)
            else Bad(InvalidContentLength, c.pos + |w|)
  {
    hide Emit, Dispatch, IsHeaderChar;
    var s := LengthConfig(c, w, value);
    StepValue(s.ps, s.tr, s.lane, s.pos, ch);
    EmitTwice(c.tr, Value, w, [ch]);
  }

  lemma DecimalMore(w: seq<Octet>)
    requires w != []
    ensures var v, ch := DecimalValue(w[..|w| - 1]), w[|w| - 1];
            DecimalValue(w) == (if IsNum(ch) then v * 10 + DigitValue(ch) else v) && (|w| == 1 ==> v == 0)
  {
  }

  // The test before a digit is added is the test for its result.
  lemma RoomForDigit(v: nat, d: nat)
    requires d < 10
    ensures v <= (ULLONG_MAX - 10) / 10 <==> v * 10 + d <= MAX_CONTENT_LENGTH
    ensures v <= (ULLONG_MAX - 10) / 10 ==> v <= MAX_CONTENT_LENGTH && (v * 10 + d) % TWO_TO_THE_64 == v * 10 + d
    ensures d <= MAX_CONTENT_LENGTH
  {
  }

  // The accumulator takes exactly the numbers of at most MAX_CONTENT_LENGTH, at
  // their exact value, so it never wraps and never meets the ULLONG_MAX marker.
  lemma {:induction false} ContentLengthExact(c: Config, w: seq<Octet>)
    requires AtLength(c, |w|) && w != [] && NoLineEnd(w) && w[0] != ' ' && w[0] != TAB
    requires c.ps.settings.lenient || forall k :: 0 <= k < |w| ==> IsHeaderChar(w[k])
    ensures if IsLength(w) && DecimalValue(w) <= MAX_CONTENT_LENGTH then Run(c, w) == LengthConfig(c, w, DecimalValue(w))
            else Run(c, w).Bad? && Run(c, w).e.InvalidContentLength?
  {
    hide Step, Emit, IsHeaderChar, LengthConfig, DecimalValue, DigitValue, ULLONG_MAX, MAX_CONTENT_LENGTH, TWO_TO_THE_64;
    var init, ch := w[..|w| - 1], w[|w| - 1];
    assert w == init + [ch];
    DecimalMore(w);
    if IsNum(ch) {
      RoomForDigit(DecimalValue(init), DigitValue(ch));
    }
    if |w| == 1 {
      assert w == [ch];
      RunOne(c, ch);
      StepFirstDigit(c, ch);
    } else {
      ContentLengthExact(c, init);
      LengthPrefix(w);
      if IsLength(init) && DecimalValue(init) <= MAX_CONTENT_LENGTH {
        StepMoreDigits(c, init, DecimalValue(init), ch);
      } else {
        StepStopped(InvalidContentLength, Run(c, init).pos, ch);
      }
    }
  }

  lemma LengthPrefix(w: seq<Octet>)
    requires |w| > 1
    ensures IsLength(w) <==> IsLength(w[..|w| - 1]) && IsDigitOrSpace(w[|w| - 1])
  {
  }

  // ----- Chunk sizes

  // The number that the `unhex` table reads in `w`.
  function HexValue(w: seq<Octet>): nat
    requires forall k :: 0 <= k < |w| ==> Unhex(w[k]) != -1
  {
    if w == [] then 0 else HexValue(w[..|w| - 1]) * 16 + Unhex(w[|w| - 1])
  }

  predicate IsChunkSize(w: seq<Octet>) {
    w != [] && forall k :: 0 <= k < |w| ==> Unhex(w[k]) != -1
  }

  // A byte is taken for a hexadecimal digit if it is one, or if it lies past the
  // half of the table that is written out.
  lemma UnhexDigits(c: Octet)
    ensures Unhex(c) != -1 <==> IsHex(c) || c as int >= 128
    ensures c as int >= 128 ==> Unhex(c) == 0
  {
  }

  predicate AtChunkSize(c: Config, n: nat) {
    c.Go? && c.ps.state == InChunkSize(ChunkSizeStart) && c.ps.nread + n <= MAX_HEADER_SIZE
  }

  function ChunkSizeConfig(c: Config, w: seq<Octet>, value: nat): Config
    requires c.Go?
  {
    Go(c.ps.(state := InChunkSize(ChunkSize), contentLength := value, nread := c.ps.nread + |w|), c.tr, Outer, c.pos + |w|)
  }

  lemma StepChunkSizeStart(c: Config, ch: Octet)
    requires AtChunkSize(c, 1)
    ensures Step(c, ch) == if Unhex(ch) == -1 then Bad(InvalidChunkSize, c.pos) else ChunkSizeConfig(c, [ch], Unhex(ch))
  {
    hide Dispatch, Unhex;
    StepNext(c.ps, c.tr, c.lane, c.pos, ch);
    DispatchOnce(c.ps.(nread := c.ps.nread + 1), c.tr, c.lane, ch, c.pos);
  }

  lemma StepChunkSize(c: Config, w: seq<Octet>, value: nat, ch: Octet)
    requires AtChunkSize(c, |w| + 1) && Unhex(ch) != -1
    ensures Step(ChunkSizeConfig(c, w, value), ch) ==
            if value <= (ULLONG_MAX - 16) / 16 then ChunkSizeConfig(c, w + [ch], (value * 16 + Unhex(ch)) % TWO_TO_THE_64)
            else Bad(InvalidContentLength, c.pos + |w|)
  {
    hide Dispatch;
    var s := ChunkSizeConfig(c, w, value);
    StepNext(s.ps, s.tr, s.lane, s.pos, ch);
    DispatchOnce(s.ps.(nread := s.ps.nread + 1), s.tr, s.lane, ch, s.pos);
  }

  lemma HexMore(w: seq<Octet>)
    requires w != [] && forall k :: 0 <= k < |w| ==> Unhex(w[k]) != -1
    ensures HexValue(w) == HexValue(w[..|w| - 1]) * 16 + Unhex(w[|w| - 1]) && (|w| == 1 ==> HexValue(w[..0]) == 0)
  {
  }

  lemma RoomForHexDigit(v: nat, d: nat)
    requires d < 16
    ensures v <= (ULLONG_MAX - 16) / 16 <==> v * 16 + d <= MAX_CHUNK_SIZE
    ensures v <= (ULLONG_MAX - 16) / 16 ==> v <= MAX_CHUNK_SIZE && (v * 16 + d) % TWO_TO_THE_64 == v * 16 + d
    ensures d <= MAX_CHUNK_SIZE
  {
  }

  // The accumulator takes exactly the numbers of at most MAX_CHUNK_SIZE, at their exact value.
  lemma {:induction false} ChunkSizeExact(c: Config, w: seq<Octet>)
    requires IsChunkSize(w) && AtChunkSize(c, |w|)
    ensures if HexValue(w) <= MAX_CHUNK_SIZE then Run(c, w) == ChunkSizeConfig(c, w, HexValue(w))
            else Run(c, w).Bad? && Run(c, w).e.InvalidContentLength?
  {
    hide Step, ChunkSizeConfig, HexValue, Unhex, ULLONG_MAX, MAX_CHUNK_SIZE, TWO_TO_THE_64;
    var init, ch := w[..|w| - 1], w[|w| - 1];
    assert w == init + [ch];
    HexMore(w);
    RoomForHexDigit(HexValue(init), Unhex(ch));
    if |w| == 1 {
      assert w == [ch];
      RunOne(c, ch);
      StepChunkSizeStart(c, ch);
    } else {
      ChunkSizeExact(c, init);
      if HexValue(init) <= MAX_CHUNK_SIZE {
        StepChunkSize(c, init, HexValue(init), ch);
      } else {
        StepStopped(InvalidContentLength, Run(c, init).pos, ch);
      }
    }
  }

  // Not every accepted chunk size is a hexadecimal number: 0x80 reads as a zero.
  lemma HighByteReadsAsZero(c: Config)
    requires AtChunkSize(c, 2)
    ensures Run(c, ['1', 128 as char]) == ChunkSizeConfig(c, ['1', 128 as char], 16) && !IsHex(128 as char)
  {
    hide Step, Run;
    var w: seq<Octet> := ['1', 128 as char];
    var first := w[..1];
    assert first == ['1'] && HexValue(first) == HexValue(first[..0]) * 16 + 1;
    assert HexValue(w) == HexValue(first) * 16;
    ChunkSizeExact(c, w);
  }
}
