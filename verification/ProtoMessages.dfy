// The generated message classes of game.pb.cc.
module ProtoMessages {
  import opened ProtoWire
  import opened ProtoSpec
  import opened ProtoStream

  const TAG_CUTOFF: nat := 127

  // ToCachedSize: what an int keeps of a size
  function ToCachedSize(n: nat): Int32 {
    ToInt32(n)
  }

  // The length of a sub-message, as an unsigned int
  function ToUint32(n: nat): nat {
    n % TWO_TO_THE_32
  }

  lemma FitsInt(n: nat)
    requires n <= INT_MAX
    ensures ToUint32(n) == n && ToCachedSize(n) == n
  {
  }

  // One round of the loop that parses an event: the end, a field, or one that is kept
  lemma EventRound(m: Event, b: seq<Byte>, depth: nat)
    ensures b == [] ==> ParseEvent(m, b, depth) == Some(m)
    ensures b != [] && (ReadTag(b).Fail? || ReadTag(b).value == 0) ==> ParseEvent(m, b, depth).None?
    ensures b != [] && ReadTag(b).Read? && ReadTag(b).value != 0 ==>
              var (tag, rest) := (ReadTag(b).value, b[ReadTag(b).size..]);
              var (n, p) := (ReadVarint(rest), ReadPayload(tag, rest, depth));
              ParseEvent(m, b, depth) ==
              if tag in {8, 16, 24, 32} then
                if n.Fail? then None
                else ParseEvent(ApplyEvent(m, Varint(tag / 8, n.value), depth).value, rest[n.size..], depth)
              else if p.Fail? then None else ParseEvent(m.(unknown := m.unknown + [p.value]), rest[p.size..], depth)
  {
    hide ReadTag, ReadVarint, ReadPayload, Parse;
    if b == [] || ReadTag(b).Fail? || ReadTag(b).value == 0 {
      ParseEnd(EVENT, m, b, depth);
    } else if ReadTag(b).value in {8, 16, 24, 32} {
      ParseVarint(EVENT, m, b, ReadTag(b).value / 8, depth);
    } else {
      ParseAny(EVENT, m, b, depth);
    }
  }

  class OptionEvent {
    var seatid: Int32
    var optType: Int32
    var x: Int32
    var y: Int32
    var unknown: seq<Field>
    var cachedSize: Int32

    ghost function Value(): Event
      reads `seatid, `optType, `x, `y, `unknown
    {
      Event(seatid, optType, x, y, unknown)
    }

    constructor ()
      ensures Value() == NO_EVENT && cachedSize == 0
    {
      seatid, optType, x, y, unknown, cachedSize := 0, 0, 0, 0, [], 0;
    }

    method Clear()
      modifies `seatid, `optType, `x, `y, `unknown
      ensures Value() == NO_EVENT
    {
      seatid, optType, x, y, unknown := 0, 0, 0, 0, [];
    }

    method MergePartialFromCodedStream(input: CodedInput) returns (ok: bool)
      requires input.Valid() && input.budget >= 0
      modifies `seatid, `optType, `x, `y, `unknown, input`pos, input`legitimateEnd, input`lastTag, input`budget
      ensures input.Valid() && (ok ==> input.budget == old(input.budget))
      ensures var parsed := ParseEvent(old(Value()), old(input.Rest()), old(input.budget));
              && (ok && input.legitimateEnd <==> parsed.Some?)
              && (parsed.Some? ==> Value() == parsed.value && input.Rest() == [])
    {
      hide ReadVarint, ReadTag, ReadPayload, ParseEvent, CodedInput.Rest, ToInt32;
      ghost var parsed := ParseEvent(Value(), input.Rest(), input.budget);
      while true
        invariant input.Valid() && input.budget == old(input.budget)
        invariant parsed == ParseEvent(Value(), input.Rest(), input.budget)
        decreases input.limit - input.pos
      {
        EventRound(Value(), input.Rest(), input.budget);
        var tag, known := input.ReadTagWithCutoff(TAG_CUTOFF);
        if known && tag == 8 {
          ok, seatid := input.ReadInt32();
        } else if known && tag == 16 {
          ok, optType := input.ReadInt32();
        } else if known && tag == 24 {
          ok, x := input.ReadInt32();
        } else if known && tag == 32 {
          ok, y := input.ReadInt32();
        } else if tag == 0 {
          return true;
        } else {
          var f;
          ok, f := input.SkipField(tag);
          unknown := unknown + [f];
        }
        if !ok {
          return false;
        }
      }
    }

    method ByteSizeLong() returns (totalSize: nat)
      requires ValidFields(unknown)
      modifies `cachedSize
      ensures totalSize == |EncodeEvent(Value())| && cachedSize == ToCachedSize(totalSize)
    {
      hide EncodeEvent, EncodeAll, Int32Size, ToCachedSize;
      EventSizeIsLength(Value());
      totalSize := UnknownSize(unknown);
      if seatid != 0 {
        totalSize := totalSize + 1 + Int32Size(seatid);
      }
      if optType != 0 {
        totalSize := totalSize + 1 + Int32Size(optType);
      }
      assert totalSize == |EncodeAll(unknown)| + IntSize(seatid) + IntSize(optType);
      if x != 0 {
        totalSize := totalSize + 1 + Int32Size(x);
      }
      if y != 0 {
        totalSize := totalSize + 1 + Int32Size(y);
      }
      cachedSize := ToCachedSize(totalSize);
    }

    method SerializeWithCachedSizes(output: CodedOutput)
      modifies output
      ensures output.bytes == old(output.bytes) + EncodeEvent(Value())
    {
      hide EncodeAll, Int;
      EventIsParts(Value());
      output.WriteInt32(1, seatid);
      output.WriteInt32(2, optType);
      output.WriteInt32(3, x);
      output.WriteInt32(4, y);
      output.WriteUnknown(unknown);
    }

    method MergeFrom(from: OptionEvent)
      requires from != this
      modifies `seatid, `optType, `x, `y, `unknown
      ensures Value() == MergeEvent(old(Value()), from.Value())
    {
      unknown := unknown + from.unknown;
      if from.seatid != 0 {
        seatid := from.seatid;
      }
      if from.optType != 0 {
        optType := from.optType;
      }
      if from.x != 0 {
        x := from.x;
      }
      if from.y != 0 {
        y := from.y;
      }
    }
  }

  lemma EventIsParts(m: Event)
    ensures EncodeEvent(m) ==
            EncodeAll(Int(1, m.seatid)) + EncodeAll(Int(2, m.optType)) + EncodeAll(Int(3, m.x)) + EncodeAll(Int(4, m.y)) +
            EncodeAll(m.unknown)
  {
    hide EncodeAll, Int;
    var f2 := Int(1, m.seatid) + Int(2, m.optType);
    var f3 := f2 + Int(3, m.x);
    var f4 := f3 + Int(4, m.y);
    EncodeAllConcat(Int(1, m.seatid), Int(2, m.optType));
    EncodeAllConcat(f2, Int(3, m.x));
    EncodeAllConcat(f3, Int(4, m.y));
    EncodeAllConcat(f4, m.unknown);
  }

  lemma EventSizeIsLength(m: Event)
    ensures |EncodeEvent(m)| ==
            |EncodeAll(m.unknown)| + IntSize(m.seatid) + IntSize(m.optType) + IntSize(m.x) + IntSize(m.y)
  {
    hide EncodeAll, Int, IntSize, EncodeEvent;
    EventIsParts(m);
    IntSizeIsLength(1, m.seatid);
    IntSizeIsLength(2, m.optType);
    IntSizeIsLength(3, m.x);
    IntSizeIsLength(4, m.y);
  }

  // ----- FrameOpts

  ghost function EventValues(es: seq<OptionEvent>): (r: seq<Event>)
    reads es`seatid, es`optType, es`x, es`y, es`unknown
    ensures |r| == |es|
  {
    if es == [] then [] else EventValues(es[..|es| - 1]) + [es[|es| - 1].Value()]
  }

  lemma LastValue(es: seq<OptionEvent>, e: OptionEvent)
    ensures EventValues(es + [e]) == EventValues(es) + [e.Value()]
  {
    assert (es + [e])[..|es|] == es;
  }

  // The sub-message in front of `b`
  function SubEvent(b: seq<Byte>, depth: nat): Option<Event> {
    var r := ReadClipped(b);
    if r.Read? && depth > 0 then ParseEvent(NO_EVENT, r.value, depth - 1) else None
  }

  lemma FrameRound(m: Frame, b: seq<Byte>, depth: nat)
    ensures b == [] ==> ParseFrame(m, b, depth) == Some(m)
    ensures b != [] && (ReadTag(b).Fail? || ReadTag(b).value == 0) ==> ParseFrame(m, b, depth).None?
    ensures b != [] && ReadTag(b).Read? && ReadTag(b).value != 0 ==>
              var (tag, rest) := (ReadTag(b).value, b[ReadTag(b).size..]);
              var (n, s, p) := (ReadVarint(rest), ReadClipped(rest), ReadPayload(tag, rest, depth));
              ParseFrame(m, b, depth) ==
              if tag == 8 then
                if n.Fail? then None else ParseFrame(m.(frameid := ToInt32(n.value)), rest[n.size..], depth)
              else if tag == 18 then
                var e := SubEvent(rest, depth);
                if e.None? then None else ParseFrame(m.(opts := m.opts + [e.value]), rest[s.size..], depth)
              else if p.Fail? then None else ParseFrame(m.(unknown := m.unknown + [p.value]), rest[p.size..], depth)
  {
    hide ReadTag, ReadVarint, ReadClipped, ReadPayload, Parse, ParseEvent, ToInt32;
    if b == [] || ReadTag(b).Fail? || ReadTag(b).value == 0 {
      ParseEnd(FRAME, m, b, depth);
    } else if ReadTag(b).value == 8 {
      ParseVarint(FRAME, m, b, 1, depth);
    } else if ReadTag(b).value == 18 {
      ParseMessage(FRAME, m, b, depth);
    } else {
      ParseAny(FRAME, m, b, depth);
    }
  }

  class FrameOpts {
    var frameid: Int32
    var opts: seq<OptionEvent>
    var unknown: seq<Field>
    var cachedSize: Int32

    ghost function Value(): Frame
      reads `frameid, `opts, `unknown, opts`seatid, opts`optType, opts`x, opts`y, opts`unknown
    {
      Frame(frameid, EventValues(opts), unknown)
    }

    constructor ()
      ensures Value() == NO_FRAME && cachedSize == 0
    {
      frameid, opts, unknown, cachedSize := 0, [], [], 0;
    }

    method Clear()
      modifies `frameid, `opts, `unknown
      ensures Value() == NO_FRAME
    {
      frameid, opts, unknown := 0, [], [];
    }

    // The sub-message of a field, added before it is parsed
    method ReadOpt(input: CodedInput) returns (ok: bool)
      requires input.Valid() && input.budget >= 0
      modifies `opts, input`pos, input`limit, input`legitimateEnd, input`lastTag, input`budget
      ensures input.Valid() && (ok ==> input.limit == old(input.limit) && input.budget == old(input.budget))
      ensures var parsed := SubEvent(old(input.Rest()), old(input.budget));
              && ok == parsed.Some?
              && (ok ==> EventValues(opts) == old(EventValues(opts)) + [parsed.value])
      ensures ok ==>
                var r := ReadClipped(old(input.Rest()));
                r.Read? && input.Rest() == old(input.Rest())[r.size..] && input.pos == old(input.pos) + r.size
    {
      hide ReadClipped, ParseEvent, CodedInput.Rest, EventValues;
      ghost var before := opts;
      var event := new OptionEvent();
      opts := opts + [event];
      var outer;
      ok, outer := input.PushLimit();
      if ok {
        ok := event.MergePartialFromCodedStream(input);
        if ok {
          ok := input.PopLimit(outer);
        }
        LastValue(before, event);
      }
    }

    method MergePartialFromCodedStream(input: CodedInput) returns (ok: bool)
      requires input.Valid() && input.budget >= 0
      modifies `frameid, `opts, `unknown, input`pos, input`limit, input`legitimateEnd, input`lastTag, input`budget
      ensures input.Valid() && (ok ==> input.limit == old(input.limit) && input.budget == old(input.budget))
      ensures var parsed := ParseFrame(old(Value()), old(input.Rest()), old(input.budget));
              && (ok && input.legitimateEnd <==> parsed.Some?)
              && (parsed.Some? ==> Value() == parsed.value && input.Rest() == [])
    {
      hide ReadVarint, ReadTag, ReadPayload, ReadClipped, SubEvent, ParseFrame, CodedInput.Rest, ToInt32, EventValues;
      ghost var parsed, values := ParseFrame(Value(), input.Rest(), input.budget), EventValues(opts);
      while true
        invariant input.Valid() && input.limit == old(input.limit) && input.budget == old(input.budget)
        invariant EventValues(opts) == values
        invariant parsed == ParseFrame(Frame(frameid, values, unknown), input.Rest(), input.budget)
        decreases input.limit - input.pos
      {
        FrameRound(Frame(frameid, values, unknown), input.Rest(), input.budget);
        var tag, known := input.ReadTagWithCutoff(TAG_CUTOFF);
        if known && tag == 8 {
          ok, frameid := input.ReadInt32();
        } else if known && tag == 18 {
          ok := ReadOpt(input);
          values := EventValues(opts);
        } else if tag == 0 {
          return true;
        } else {
          var f;
          ok, f := input.SkipField(tag);
          unknown := unknown + [f];
        }
        if !ok {
          return false;
        }
      }
    }

    // Adds up the sizes of the sub-messages, with their tags and lengths.
    method OptsSize() returns (totalSize: nat)
      requires GoodFrame(Value()) && SizedFrame(Value())
      modifies opts`cachedSize
      ensures totalSize == |EncodeAll(OptFields(EventValues(opts)))| && OptsCached(opts)
    {
      hide EncodeAll, OptFields, VarintBytes, EncodeEvent, EventValues, VarintSize, ToUint32;
      ghost var values := EventValues(opts);
      totalSize := |opts|;
      NoOpts(values);
      var i := 0;
      while i < |opts|
        invariant 0 <= i <= |opts| && EventValues(opts) == values
        invariant totalSize == |EncodeAll(OptFields(values[..i]))| + |opts| - i
        invariant forall k :: 0 <= k < i ==> EventCached(opts[k])
      {
        ValueAt(opts, i);
        NextOpt(values, i);
        assert GoodEvent(values[i]) && |EncodeEvent(values[i])| <= INT_MAX;
        var size := opts[i].ByteSizeLong();
        FitsInt(size);
        totalSize := totalSize + size + VarintSize(ToUint32(size));
        i := i + 1;
      }
      assert opts[..|opts|] == opts && values[..|opts|] == values;
    }

    method ByteSizeLong() returns (totalSize: nat)
      requires GoodFrame(Value()) && SizedFrame(Value())
      modifies `cachedSize, opts`cachedSize
      ensures totalSize == |EncodeFrame(Value())| && cachedSize == ToCachedSize(totalSize) && OptsCached(opts)
    {
      hide EncodeAll, OptFields, Int32Size, EncodeFrame, EncodeEvent, EventValues, Int, ToCachedSize;
      FrameIsParts(Value());
      IntSizeIsLength(1, frameid);
      var unknownSize := UnknownSize(unknown);
      var optsSize := OptsSize();
      totalSize := unknownSize + optsSize;
      if frameid != 0 {
        totalSize := totalSize + 1 + Int32Size(frameid);
      }
      cachedSize := ToCachedSize(totalSize);
    }

    method SerializeWithCachedSizes(output: CodedOutput)
      requires OptsCached(opts)
      modifies output
      ensures output.bytes == old(output.bytes) + EncodeFrame(Value())
    {
      hide EncodeAll, OptFields, VarintBytes, EncodeEvent, EncodeFrame, Int, EventValues;
      FrameIsParts(Value());
      output.WriteInt32(1, frameid);
      ghost var start, values := output.bytes, EventValues(opts);
      NoOpts(values);
      var i := 0;
      while i < |opts|
        invariant 0 <= i <= |opts| && output.bytes == start + EncodeAll(OptFields(values[..i]))
      {
        ValueAt(opts, i);
        NextOpt(values, i);
        output.WriteLength(2, opts[i].cachedSize);
        opts[i].SerializeWithCachedSizes(output);
        i := i + 1;
      }
      assert values[..|opts|] == values;
      output.WriteUnknown(unknown);
    }

    // A copy of a sub-message of another message
    method AddCopy(from: OptionEvent)
      modifies `opts
      ensures EventValues(opts) == old(EventValues(opts)) + [from.Value()]
    {
      hide EventValues;
      var event := new OptionEvent();
      event.MergeFrom(from);
      assert [] + from.unknown == from.unknown;
      LastValue(opts, event);
      opts := opts + [event];
    }

    method MergeFrom(from: FrameOpts)
      requires from != this
      modifies `frameid, `opts, `unknown
      ensures Value() == MergeFrame(old(Value()), from.Value())
    {
      hide EventValues;
      unknown := unknown + from.unknown;
      ghost var values := EventValues(from.opts);
      var i := 0;
      while i < |from.opts|
        invariant 0 <= i <= |from.opts| && EventValues(opts) == old(EventValues(opts)) + values[..i]
        invariant EventValues(from.opts) == values && frameid == old(frameid) && unknown == old(unknown) + from.unknown
      {
        ValueAt(from.opts, i);
        AddCopy(from.opts[i]);
        i := i + 1;
      }
      assert values[..|from.opts|] == values;
      if from.frameid != 0 {
        frameid := from.frameid;
      }
    }
  }

  // The sub-message knows its own size.
  ghost predicate EventCached(e: OptionEvent)
    reads e
  {
    e.cachedSize == |EncodeEvent(e.Value())|
  }

  ghost predicate OptsCached(es: seq<OptionEvent>)
    reads es
  {
    forall i :: 0 <= i < |es| ==> EventCached(es[i])
  }

  lemma {:induction false} ValueAt(es: seq<OptionEvent>, i: nat)
    requires i < |es|
    ensures EventValues(es)[i] == es[i].Value()
  {
    if i < |es| - 1 {
      ValueAt(es[..|es| - 1], i);
    }
  }

  lemma FrameIsParts(m: Frame)
    ensures EncodeFrame(m) == EncodeAll(Int(1, m.frameid)) + EncodeAll(OptFields(m.opts)) + EncodeAll(m.unknown)
  {
    hide EncodeAll, Int;
    EncodeAllConcat(Int(1, m.frameid), OptFields(m.opts));
    EncodeAllConcat(Int(1, m.frameid) + OptFields(m.opts), m.unknown);
  }

  lemma NoOpts(values: seq<Event>)
    ensures EncodeAll(OptFields(values[..0])) == []
  {
  }

  lemma NextOpt(values: seq<Event>, i: nat)
    requires i < |values|
    ensures var e, before := EncodeEvent(values[i]), EncodeAll(OptFields(values[..i]));
            && EncodeAll(OptFields(values[..i + 1])) == before + (VarintBytes(18) + VarintBytes(|e|) + e)
            && |VarintBytes(18)| == 1 && (|e| <= INT_MAX ==> |VarintBytes(|e|)| == VarintSize(|e|))
  {
    hide EncodeAll, EncodeEvent, VarintSize;
    var next, e := values[..i + 1], EncodeEvent(values[i]);
    assert next[..|next| - 1] == values[..i];
    EncodeAllConcat(OptFields(values[..i]), [Bytes(2, e)]);
    EncodeOne(Bytes(2, e));
    if |e| <= INT_MAX {
      VarintSizeIsLength(|e|);
    }
  }
}
