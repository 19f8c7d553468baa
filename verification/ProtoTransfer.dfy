// Whole messages as they are sent and received: SerializeToCodedStream and
// ParseFromString of message_lite.cc.
module ProtoTransfer {
  import opened ProtoWire
  import opened ProtoSpec
  import opened ProtoStream
  import opened ProtoMessages
  import opened ProtoLogic
  import opened ProtoGuest

  method SerializeLogic(m: LogicFrame, output: CodedOutput) returns (ok: bool)
    requires GoodLogic(m.Value()) && SizedLogic(m.Value())
    modifies m`cachedSize, m.unsyncFrames`cachedSize, Events(m.unsyncFrames)`cachedSize, output
    ensures m.Value() == old(m.Value()) && ok == (|EncodeLogic(m.Value())| <= INT_MAX)
    ensures output.bytes == old(output.bytes) + if ok then EncodeLogic(m.Value()) else []
  {
    hide GoodLogic, SizedLogic, EncodeLogic, FrameValues, FramesCached, LogicFrame.Value;
    var size := m.ByteSizeLong();
    if size > INT_MAX {
      return false;
    }
    ghost var before := |output.bytes|;
    m.SerializeWithCachedSizes(output);
    assert |output.bytes| - before == size;
    return true;
  }

  method ParseLogicFrom(m: LogicFrame, data: seq<Byte>) returns (ok: bool)
    modifies m
    ensures var parsed := ParseLogic(NO_LOGIC, data, RECURSION_LIMIT);
            ok == parsed.Some? && (ok ==> m.Value() == parsed.value)
  {
    hide ParseLogic, CodedInput.Rest;
    m.Clear();
    var input := new CodedInput(data);
    ok := m.MergePartialFromCodedStream(input);
    ok := ok && input.legitimateEnd;
  }

  // A message that is sent arrives exactly if it nests nothing too deep.
  method SendLogic(from: LogicFrame) returns (ok: bool, to: LogicFrame)
    requires GoodLogic(from.Value()) && |EncodeLogic(from.Value())| <= INT_MAX
    modifies from`cachedSize, from.unsyncFrames`cachedSize, Events(from.unsyncFrames)`cachedSize
    ensures from.Value() == old(from.Value()) && ok == ReadableLogic(from.Value(), RECURSION_LIMIT)
    ensures fresh(to) && (ok ==> to.Value() == from.Value())
  {
    hide GoodLogic, SizedLogic, EncodeLogic, ReadableLogic, FrameValues, LogicFrame.Value;
    ghost var value := from.Value();
    LogicIsSized(value);
    var output := new CodedOutput();
    var sent := SerializeLogic(from, output);
    assert [] + EncodeLogic(value) == EncodeLogic(value);
    to := new LogicFrame();
    ok := ParseLogicFrom(to, output.bytes);
    LogicRoundTrip(value, RECURSION_LIMIT);
  }

  method SerializeGuest(m: GuestLoginRes, output: CodedOutput) returns (ok: bool)
    requires GoodGuest(m.Value()) && SizedGuest(m.Value())
    modifies m`cachedSize, m.userinfo, output
    ensures m.Value() == old(m.Value()) && ok == (|EncodeGuest(m.Value())| <= INT_MAX)
    ensures output.bytes == old(output.bytes) + if ok then EncodeGuest(m.Value()) else []
  {
    hide GoodGuest, SizedGuest, EncodeGuest;
    var size := m.ByteSizeLong();
    if size > INT_MAX {
      return false;
    }
    ghost var before := |output.bytes|;
    m.SerializeWithCachedSizes(output);
    assert |output.bytes| - before == size;
    return true;
  }

  method ParseGuestFrom(m: GuestLoginRes, data: seq<Byte>) returns (ok: bool)
    modifies m
    ensures var parsed := ParseGuest(NO_GUEST, data, RECURSION_LIMIT);
            ok == parsed.Some? && (ok ==> m.Value() == parsed.value)
  {
    hide ParseGuest, CodedInput.Rest;
    m.Clear();
    var input := new CodedInput(data);
    ok := m.MergePartialFromCodedStream(input);
    ok := ok && input.legitimateEnd;
  }

  // Exactly if it nests nothing too deep and the nickname is UTF-8
  method SendGuest(from: GuestLoginRes) returns (ok: bool, to: GuestLoginRes)
    requires GoodGuest(from.Value()) && |EncodeGuest(from.Value())| <= INT_MAX
    modifies from`cachedSize, from.userinfo
    ensures from.Value() == old(from.Value()) && ok == ReadableGuest(from.Value(), RECURSION_LIMIT)
    ensures fresh(to) && (ok ==> to.Value() == from.Value())
  {
    hide GoodGuest, SizedGuest, EncodeGuest, ReadableGuest;
    ghost var value := from.Value();
    GuestIsSized(value);
    var output := new CodedOutput();
    var sent := SerializeGuest(from, output);
    assert [] + EncodeGuest(value) == EncodeGuest(value);
    to := new GuestLoginRes();
    ok := ParseGuestFrom(to, output.bytes);
    GuestRoundTrip(value, RECURSION_LIMIT);
  }
}
