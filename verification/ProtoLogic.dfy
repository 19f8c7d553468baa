// LogicFrame, a message of repeated messages of repeated messages.
module ProtoLogic {
  import opened ProtoWire
  import opened ProtoSpec
  import opened ProtoStream
  import opened ProtoMessages

  // The sub-messages of the sub-messages
  ghost function Events(fs: seq<FrameOpts>): set<OptionEvent>
    reads fs`opts
  {
    set f, e | f in fs && e in f.opts :: e
  }

  ghost function FrameValues(fs: seq<FrameOpts>): (r: seq<Frame>)
    reads fs`frameid, fs`opts, fs`unknown
    reads Events(fs)`seatid, Events(fs)`optType, Events(fs)`x, Events(fs)`y, Events(fs)`unknown
    ensures |r| == |fs|
  {
    if fs == [] then []
    else
      var init, last := fs[..|fs| - 1], fs[|fs| - 1];
      assert last in fs && (forall f :: f in init ==> f in fs);
      assert (forall e :: e in last.opts ==> e in Events(fs)) && (forall e :: e in Events(init) ==> e in Events(fs));
      FrameValues(init) + [last.Value()]
  }

  // The sub-message in front of `b`
  function SubFrame(b: seq<Byte>, depth: nat): Option<Frame> {
    var r := ReadClipped(b);
    if r.Read? && depth > 0 then ParseFrame(NO_FRAME, r.value, depth - 1) else None
  }

  // One round of the loop that parses a LogicFrame
  lemma LogicRound(m: Logic, b: seq<Byte>, depth: nat)
    ensures b == [] ==> ParseLogic(m, b, depth) == Some(m)
    ensures b != [] && (ReadTag(b).Fail? || ReadTag(b).value == 0) ==> ParseLogic(m, b, depth).None?
    ensures b != [] && ReadTag(b).Read? && ReadTag(b).value != 0 ==>
              var (tag, rest) := (ReadTag(b).value, b[ReadTag(b).size..]);
              var (n, s, p) := (ReadVarint(rest), ReadClipped(rest), ReadPayload(tag, rest, depth));
              ParseLogic(m, b, depth) ==
              if tag == 8 then
                if n.Fail? then None else ParseLogic(m.(frameid := ToInt32(n.value)), rest[n.size..], depth)
              else if tag == 18 then
                var e := SubFrame(rest, depth);
                if e.None? then None else ParseLogic(m.(frames := m.frames + [e.value]), rest[s.size..], depth)
              else if p.Fail? then None else ParseLogic(m.(unknown := m.unknown + [p.value]), rest[p.size..], depth)
  {
    hide ReadTag, ReadVarint, ReadClipped, ReadPayload, Parse, ParseFrame, ToInt32;
    if b == [] || ReadTag(b).Fail? || ReadTag(b).value == 0 {
      ParseEnd(LOGIC, m, b, depth);
    } else if ReadTag(b).value == 8 {
      ParseVarint(LOGIC, m, b, 1, depth);
    } else if ReadTag(b).value == 18 {
      ParseMessage(LOGIC, m, b, depth);
    } else {
      ParseAny(LOGIC, m, b, depth);
    }
  }

  class LogicFrame {
    var frameid: Int32
    var unsyncFrames: seq<FrameOpts>
    var unknown: seq<Field>
    var cachedSize: Int32

    ghost function Value(): Logic
      reads `frameid, `unsyncFrames, `unknown, unsyncFrames`frameid, unsyncFrames`opts, unsyncFrames`unknown
      reads Events(unsyncFrames)`seatid, Events(unsyncFrames)`optType, Events(unsyncFrames)`x, Events(unsyncFrames)`y
      reads Events(unsyncFrames)`unknown
    {
      Logic(frameid, FrameValues(unsyncFrames), unknown)
    }

    constructor ()
      ensures Value() == NO_LOGIC && cachedSize == 0
    {
      frameid, unsyncFrames, unknown, cachedSize := 0, [], [], 0;
    }

    method Clear()
      modifies `frameid, `unsyncFrames, `unknown
      ensures Value() == NO_LOGIC
    {
      frameid, unsyncFrames, unknown := 0, [], [];
    }

    // The sub-message of a field, added before it is parsed
    method ReadFrame(input: CodedInput, ghost values: seq<Frame>) returns (ok: bool)
      requires input.Valid() && input.budget >= 0 && Shows(unsyncFrames, values)
      modifies `unsyncFrames, input`pos, input`limit, input`legitimateEnd, input`lastTag, input`budget
      ensures input.Valid() && (ok ==> input.limit == old(input.limit) && input.budget == old(input.budget))
      ensures var parsed := SubFrame(old(input.Rest()), old(input.budget));
              && ok == parsed.Some?
              && (ok ==> Shows(unsyncFrames, values + [parsed.value]))
      ensures ok ==>
                var r := ReadClipped(old(input.Rest()));
                r.Read? && input.Rest() == old(input.Rest())[r.size..] && input.pos == old(input.pos) + r.size
    {
      hide ReadClipped, ParseFrame, CodedInput.Rest, Shows;
      ghost var before := unsyncFrames;
      AllThere(before);
      var frame := new FrameOpts();
      unsyncFrames := unsyncFrames + [frame];
      var outer;
      ok, outer := input.PushLimit();
      if ok {
        ok := frame.MergePartialFromCodedStream(input);
        if ok {
          ok := input.PopLimit(outer);
        }
        ShowsMore(before, values, frame);
      }
    }

    method MergePartialFromCodedStream(input: CodedInput) returns (ok: bool)
      requires input.Valid() && input.budget >= 0
      modifies `frameid, `unsyncFrames, `unknown, input`pos, input`limit, input`legitimateEnd, input`lastTag, input`budget
      ensures input.Valid() && (ok ==> input.limit == old(input.limit) && input.budget == old(input.budget))
      ensures var parsed := ParseLogic(old(Value()), old(input.Rest()), old(input.budget));
              && (ok && input.legitimateEnd <==> parsed.Some?)
              && (parsed.Some? ==> Value() == parsed.value && input.Rest() == [])
    {
      hide ReadVarint, ReadTag, ReadPayload, ReadClipped, SubFrame, ParseLogic, CodedInput.Rest, ToInt32, FrameValues, Shows;
      ghost var parsed, values := ParseLogic(Value(), input.Rest(), input.budget), FrameValues(unsyncFrames);
      ShownIsValue(unsyncFrames, values);
      while true
        invariant input.Valid() && input.limit == old(input.limit) && input.budget == old(input.budget)
        invariant Shows(unsyncFrames, values)
        invariant parsed == ParseLogic(Logic(frameid, values, unknown), input.Rest(), input.budget)
        decreases input.limit - input.pos
      {
        LogicRound(Logic(frameid, values, unknown), input.Rest(), input.budget);
        AllThere(unsyncFrames);
        var tag, known := input.ReadTagWithCutoff(TAG_CUTOFF);
        if known && tag == 8 {
          ok, frameid := input.ReadInt32();
        } else if known && tag == 18 {
          ghost var parsed := SubFrame(input.Rest(), input.budget);
          ok := ReadFrame(input, values);
          if ok {
            values := values + [parsed.value];
          }
        } else if tag == 0 {
          ShownIsValue(unsyncFrames, values);
          return true;
        } else {
          var f;
          ok, f := input.SkipField(tag);
          unknown := unknown + [f];
        }
        if !ok {
          return false;
        }
      }
    }

    // One sub-message stores its size; those before it keep theirs.
    method FrameSize(i: nat, ghost values: seq<Frame>) returns (size: nat)
      requires i < |unsyncFrames| && Shows(unsyncFrames, values)
      requires GoodFrame(values[i]) && SizedFrame(values[i]) && |EncodeFrame(values[i])| <= INT_MAX
      requires forall k :: 0 <= k < i ==> FrameCached(unsyncFrames[k])
      modifies unsyncFrames`cachedSize, Events(unsyncFrames)`cachedSize
      ensures size == |EncodeFrame(values[i])| && Shows(unsyncFrames, values)
      ensures forall k :: 0 <= k <= i ==> FrameCached(unsyncFrames[k])
    {
      hide EncodeFrame, EventValues, EncodeEvent, GoodFrame, SizedFrame;
      FitsInt(|EncodeFrame(values[i])|);
      assert unsyncFrames[i] in unsyncFrames;
      assert forall e :: e in unsyncFrames[i].opts ==> e in Events(unsyncFrames);
      size := unsyncFrames[i].ByteSizeLong();
    }

    // Adds up the sizes of the sub-messages, with their tags and lengths.
    method FramesSize(ghost values: seq<Frame>) returns (totalSize: nat)
      requires Shows(unsyncFrames, values)
      requires forall i :: 0 <= i < |values| ==>
                 GoodFrame(values[i]) && SizedFrame(values[i]) && |EncodeFrame(values[i])| <= INT_MAX
      modifies unsyncFrames`cachedSize, Events(unsyncFrames)`cachedSize
      ensures totalSize == |EncodeAll(UnsyncFields(values))| && FramesCached(unsyncFrames) && Shows(unsyncFrames, values)
    {
      hide EncodeAll, UnsyncFields, VarintBytes, EncodeFrame, VarintSize, ToUint32, Shows, FrameCached, GoodFrame, SizedFrame;
      ghost var n, events := |unsyncFrames|, Events(unsyncFrames);
      assert |values| == n by { ShownIsValue(unsyncFrames, values); }
      totalSize := |unsyncFrames|;
      NoFrames(values);
      var i := 0;
      while i < |unsyncFrames|
        invariant 0 <= i <= |unsyncFrames| && Shows(unsyncFrames, values) && Events(unsyncFrames) == events
        invariant totalSize == |EncodeAll(UnsyncFields(values[..i]))| + |unsyncFrames| - i
        invariant forall k :: 0 <= k < i ==> FrameCached(unsyncFrames[k])
      {
        NextFrame(values, i);
        var size := FrameSize(i, values);
        FitsInt(size);
        totalSize := totalSize + size + VarintSize(ToUint32(size));
        i := i + 1;
      }
      assert values[..|unsyncFrames|] == values;
    }

    method ByteSizeLong() returns (totalSize: nat)
      requires GoodLogic(Value()) && SizedLogic(Value())
      modifies `cachedSize, unsyncFrames`cachedSize, Events(unsyncFrames)`cachedSize
      ensures totalSize == |EncodeLogic(Value())| && cachedSize == ToCachedSize(totalSize) && FramesCached(unsyncFrames)
    {
      hide EncodeAll, UnsyncFields, Int32Size, EncodeLogic, EncodeFrame, EncodeEvent, FrameValues, EventValues, Int, GoodFrame,
           SizedFrame, ToCachedSize;
      ghost var values := FrameValues(unsyncFrames);
      LogicIsParts(Value());
      IntSizeIsLength(1, frameid);
      ShownIsValue(unsyncFrames, values);
      var unknownSize := UnknownSize(unknown);
      var framesSize := FramesSize(values);
      ShownIsValue(unsyncFrames, values);
      totalSize := unknownSize + framesSize;
      if frameid != 0 {
        totalSize := totalSize + 1 + Int32Size(frameid);
      }
      cachedSize := ToCachedSize(totalSize);
    }

    method WriteFrames(output: CodedOutput, ghost values: seq<Frame>)
      requires Shows(unsyncFrames, values) && FramesCached(unsyncFrames)
      modifies output
      ensures output.bytes == old(output.bytes) + EncodeAll(UnsyncFields(values))
    {
      hide EncodeAll, UnsyncFields, VarintBytes, EncodeFrame, EncodeEvent, EventValues;
      ghost var start := output.bytes;
      NoFrames(values);
      var i := 0;
      while i < |unsyncFrames|
        invariant 0 <= i <= |unsyncFrames| && output.bytes == start + EncodeAll(UnsyncFields(values[..i]))
        invariant Shows(unsyncFrames, values) && FramesCached(unsyncFrames)
      {
        NextFrame(values, i);
        assert FrameCached(unsyncFrames[i]);
        output.WriteLength(2, unsyncFrames[i].cachedSize);
        unsyncFrames[i].SerializeWithCachedSizes(output);
        i := i + 1;
      }
      assert values[..|unsyncFrames|] == values;
    }

    method SerializeWithCachedSizes(output: CodedOutput)
      requires FramesCached(unsyncFrames)
      modifies output
      ensures output.bytes == old(output.bytes) + EncodeLogic(Value())
    {
      hide EncodeAll, UnsyncFields, EncodeLogic, Int, FrameValues, Shows, FrameCached;
      LogicIsParts(Value());
      ghost var values := FrameValues(unsyncFrames);
      ShownIsValue(unsyncFrames, values);
      AllThere(unsyncFrames);
      output.WriteInt32(1, frameid);
      WriteFrames(output, values);
      output.WriteUnknown(unknown);
      ShownIsValue(unsyncFrames, values);
    }

    // A copy of a sub-message of another message
    method AddCopy(from: FrameOpts, ghost values: seq<Frame>)
      requires Shows(unsyncFrames, values)
      modifies `unsyncFrames
      ensures Shows(unsyncFrames, values + [from.Value()])
    {
      hide EventValues, Shows;
      ghost var before := unsyncFrames;
      AllThere(before);
      var frame := new FrameOpts();
      frame.MergeFrom(from);
      assert [] + from.Value().opts == from.Value().opts && [] + from.unknown == from.unknown;
      unsyncFrames := unsyncFrames + [frame];
      ShowsMore(before, values, frame);
    }

    method AddCopies(from: seq<FrameOpts>, ghost mine: seq<Frame>, ghost values: seq<Frame>)
      requires Shows(unsyncFrames, mine) && Shows(from, values)
      modifies `unsyncFrames
      ensures Shows(unsyncFrames, mine + values)
    {
      hide FrameOpts.Value;
      assert mine + [] == mine;
      var i := 0;
      while i < |from|
        invariant 0 <= i <= |from| && Shows(unsyncFrames, mine + values[..i]) && Shows(from, values)
      {
        AddCopy(from[i], mine + values[..i]);
        assert mine + values[..i] + [values[i]] == mine + values[..i + 1];
        i := i + 1;
      }
      assert values[..|from|] == values;
    }

    method MergeFrom(from: LogicFrame)
      requires from != this
      modifies `frameid, `unsyncFrames, `unknown
      ensures Value() == MergeLogic(old(Value()), from.Value())
    {
      hide FrameValues, Shows;
      ghost var mine, values := FrameValues(unsyncFrames), FrameValues(from.unsyncFrames);
      ShownIsValue(unsyncFrames, mine);
      ShownIsValue(from.unsyncFrames, values);
      AllThere(unsyncFrames);
      AllThere(from.unsyncFrames);
      unknown := unknown + from.unknown;
      AddCopies(from.unsyncFrames, mine, values);
      AllThere(unsyncFrames);
      if from.frameid != 0 {
        frameid := from.frameid;
      }
      ShownIsValue(unsyncFrames, mine + values);
    }
  }

  // The sub-message knows its own size, and so do its sub-messages.
  ghost predicate FrameCached(f: FrameOpts)
    reads f, f.opts
  {
    f.cachedSize == |EncodeFrame(f.Value())| && OptsCached(f.opts)
  }

  ghost predicate FramesCached(fs: seq<FrameOpts>)
    reads fs, Events(fs)
  {
    forall f :: f in fs ==> (assert forall e :: e in f.opts ==> e in Events(fs); FrameCached(f))
  }

  // Being allocated before, the objects are none of those that are made later.
  lemma AllThere(fs: seq<FrameOpts>)
    ensures (forall f :: f in fs ==> allocated(f)) && (forall e :: e in Events(fs) ==> allocated(e))
  {
  }

  ghost function ValueOf(fs: seq<FrameOpts>, i: nat): Frame
    requires i < |fs|
    reads fs, Events(fs)
  {
    assert fs[i] in fs && forall e :: e in fs[i].opts ==> e in Events(fs);
    fs[i].Value()
  }

  // The sub-messages are worth `values`, one by one.
  ghost predicate Shows(fs: seq<FrameOpts>, values: seq<Frame>)
    reads fs, Events(fs)
  {
    |fs| == |values| && forall i :: 0 <= i < |fs| ==> ValueOf(fs, i) == values[i]
  }

  lemma ShowsMore(fs: seq<FrameOpts>, values: seq<Frame>, f: FrameOpts)
    requires Shows(fs, values)
    ensures Shows(fs + [f], values + [f.Value()])
  {
    hide EventValues;
  }

  lemma {:induction false} ShownIsValue(fs: seq<FrameOpts>, values: seq<Frame>)
    ensures Shows(fs, values) <==> FrameValues(fs) == values
  {
    if |fs| == |values| && fs != [] {
      var n := |fs| - 1;
      ShownIsValue(fs[..n], values[..n]);
      assert values == values[..n] + [values[n]];
    }
  }

  lemma LogicIsParts(m: Logic)
    ensures EncodeLogic(m) == EncodeAll(Int(1, m.frameid)) + EncodeAll(UnsyncFields(m.frames)) + EncodeAll(m.unknown)
  {
    hide EncodeAll, Int;
    EncodeAllConcat(Int(1, m.frameid), UnsyncFields(m.frames));
    EncodeAllConcat(Int(1, m.frameid) + UnsyncFields(m.frames), m.unknown);
  }

  lemma NoFrames(values: seq<Frame>)
    ensures EncodeAll(UnsyncFields(values[..0])) == []
  {
  }

  lemma NextFrame(values: seq<Frame>, i: nat)
    requires i < |values|
    ensures var e, before := EncodeFrame(values[i]), EncodeAll(UnsyncFields(values[..i]));
            && EncodeAll(UnsyncFields(values[..i + 1])) == before + (VarintBytes(18) + VarintBytes(|e|) + e)
            && |VarintBytes(18)| == 1 && (|e| <= INT_MAX ==> |VarintBytes(|e|)| == VarintSize(|e|))
  {
    hide EncodeAll, EncodeFrame, VarintSize;
    var next, e := values[..i + 1], EncodeFrame(values[i]);
    assert next[..|next| - 1] == values[..i];
    EncodeAllConcat(UnsyncFields(values[..i]), [Bytes(2, e)]);
    EncodeOne(Bytes(2, e));
    if |e| <= INT_MAX {
      VarintSizeIsLength(|e|);
    }
  }
}
