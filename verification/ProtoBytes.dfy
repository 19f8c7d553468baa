// The bytes of fields and messages: tag by tag, as game.proto numbers the fields.
module ProtoBytes {
  import opened ProtoWire
  import opened ProtoSpec
  import opened ProtoMessages
  import opened ProtoLogic
  import opened ProtoGuest

  // ----- Fields

  // `b` is the tag `t`, eight times the number and the wire type, and what a
  // field of that type has behind it.
  predicate Spells(b: seq<Byte>, t: seq<Byte>, f: Field) {
    && IsVarint(t) && t <= b
    && var rest := b[|t|..];
       match f
       case Varint(number, n) => Base128(t) == 8 * number && IsVarint(rest) && Base128(rest) == n
       case Fixed64(number, bytes) => Base128(t) == 8 * number + 1 && rest == bytes && |bytes| == 8
       case Bytes(number, bytes) => Base128(t) == 8 * number + 2 && Prefixed(rest, bytes)
       case Group(number, fields) =>
         && Base128(t) == 8 * number + 3 && EncodeAll(fields) <= rest
         && var end := rest[|EncodeAll(fields)|..]; IsVarint(end) && Base128(end) == 8 * number + 4
       case Fixed32(number, bytes) => Base128(t) == 8 * number + 5 && rest == bytes && |bytes| == 4
  }

  // A length, and as many bytes
  predicate Prefixed(b: seq<Byte>, bytes: seq<Byte>) {
    && |bytes| <= |b|
    && var length := b[..|b| - |bytes|]; b == length + bytes && IsVarint(length) && Base128(length) == |bytes|
  }

  lemma LengthFirst(bytes: seq<Byte>)
    ensures Prefixed(VarintBytes(|bytes|) + bytes, bytes)
  {
    hide VarintBytes, Base128;
    VarintIsBase128(|bytes|);
    var b := VarintBytes(|bytes|) + bytes;
    assert b[..|b| - |bytes|] == VarintBytes(|bytes|);
  }

  // Every field that may be sent is spelled so.
  lemma FieldOnTheWire(f: Field)
    requires ValidField(f)
    ensures exists t :: Spells(Encode(f), t, f)
  {
    hide VarintBytes, Base128, EncodeAll, Prefixed, IsVarint;
    var t, rest := VarintBytes(Tag(f)), Payload(f);
    VarintIsBase128(Tag(f));
    assert Encode(f) == t + rest && Encode(f)[|t|..] == rest;
    match f {
      case Varint(_, n) => VarintIsBase128(n);
      case Bytes(_, bytes) => LengthFirst(bytes);
      case Group(number, fields) =>
        VarintIsBase128(8 * number + END_GROUP);
        assert rest[|EncodeAll(fields)|..] == VarintBytes(8 * number + END_GROUP);
      case _ =>
    }
    assert Spells(Encode(f), t, f);
  }

  // ----- Messages

  // An int32 field behind its tag, in 64 bits when it is negative
  function Sent(tag: Byte, v: Int32): seq<Byte> {
    if v == 0 then [] else [tag] + VarintBytes(if v < 0 then TWO_TO_THE_64 + v else v)
  }

  // A string or a sub-message behind its tag and its length
  function Part(tag: Byte, b: seq<Byte>): seq<Byte> {
    [tag] + VarintBytes(|b|) + b
  }

  function Parts(tag: Byte, bs: seq<seq<Byte>>): seq<Byte> {
    if bs == [] then [] else Parts(tag, bs[..|bs| - 1]) + Part(tag, bs[|bs| - 1])
  }

  lemma IntIsSent(number: nat, v: Int32)
    requires 1 <= number < 16
    ensures EncodeAll(Int(number, v)) == Sent(8 * number, v)
  {
    hide EncodeAll, VarintBytes;
    if v == 0 {
      EncodeNothing();
    } else {
      EncodeOne(Varint(number, SignExtended(v)));
      OneByte(8 * number);
    }
  }

  lemma BytesArePart(number: nat, b: seq<Byte>)
    requires 1 <= number < 15
    ensures Encode(Bytes(number, b)) == Part(8 * number + 2, b)
  {
    hide VarintBytes;
    OneByte(8 * number + 2);
  }

  // seatid = 1, opt_type = 2, x = 3, y = 4
  lemma EventOnTheWire(m: Event)
    ensures EncodeEvent(m) ==
            Sent(8, m.seatid) + Sent(16, m.optType) + Sent(24, m.x) + Sent(32, m.y) + EncodeAll(m.unknown)
  {
    hide EncodeAll, Int, Sent, EncodeEvent;
    EventIsParts(m);
    IntIsSent(1, m.seatid);
    IntIsSent(2, m.optType);
    IntIsSent(3, m.x);
    IntIsSent(4, m.y);
  }

  function EventEncodings(ms: seq<Event>): seq<seq<Byte>> {
    seq(|ms|, i requires 0 <= i < |ms| => EncodeEvent(ms[i]))
  }

  lemma {:induction false} OptsAreParts(ms: seq<Event>)
    ensures EncodeAll(OptFields(ms)) == Parts(18, EventEncodings(ms))
  {
    hide EncodeAll, EncodeEvent, Part;
    if ms == [] {
      EncodeNothing();
    } else {
      var init, last := ms[..|ms| - 1], ms[|ms| - 1];
      OptsAreParts(init);
      EncodeAllConcat(OptFields(init), [Bytes(2, EncodeEvent(last))]);
      EncodeOne(Bytes(2, EncodeEvent(last)));
      BytesArePart(2, EncodeEvent(last));
      var bs := EventEncodings(ms);
      assert bs[..|bs| - 1] == EventEncodings(init);
    }
  }

  // frameid = 1, opts = 2
  lemma FrameOnTheWire(m: Frame)
    ensures EncodeFrame(m) == Sent(8, m.frameid) + Parts(18, EventEncodings(m.opts)) + EncodeAll(m.unknown)
  {
    hide EncodeAll, Int, Sent, EncodeFrame, OptFields, EventEncodings, Parts;
    FrameIsParts(m);
    IntIsSent(1, m.frameid);
    OptsAreParts(m.opts);
  }

  function FrameEncodings(ms: seq<Frame>): seq<seq<Byte>> {
    seq(|ms|, i requires 0 <= i < |ms| => EncodeFrame(ms[i]))
  }

  lemma {:induction false} FramesAreParts(ms: seq<Frame>)
    ensures EncodeAll(UnsyncFields(ms)) == Parts(18, FrameEncodings(ms))
  {
    hide EncodeAll, EncodeFrame, Part;
    if ms == [] {
      EncodeNothing();
    } else {
      var init, last := ms[..|ms| - 1], ms[|ms| - 1];
      FramesAreParts(init);
      EncodeAllConcat(UnsyncFields(init), [Bytes(2, EncodeFrame(last))]);
      EncodeOne(Bytes(2, EncodeFrame(last)));
      BytesArePart(2, EncodeFrame(last));
      var bs := FrameEncodings(ms);
      assert bs[..|bs| - 1] == FrameEncodings(init);
    }
  }

  // frameid = 1, unsync_frames = 2
  lemma LogicOnTheWire(m: Logic)
    ensures EncodeLogic(m) == Sent(8, m.frameid) + Parts(18, FrameEncodings(m.frames)) + EncodeAll(m.unknown)
  {
    hide EncodeAll, Int, Sent, EncodeLogic, UnsyncFields, FrameEncodings, Parts;
    LogicIsParts(m);
    IntIsSent(1, m.frameid);
    FramesAreParts(m.frames);
  }

  // unick = 1, uface = 2, usex = 3, uvip = 4, uid = 5
  lemma UserOnTheWire(m: User)
    ensures EncodeUser(m) ==
            (if m.unick == [] then [] else Part(10, m.unick)) + Sent(16, m.uface) + Sent(24, m.usex) + Sent(32, m.uvip) +
            Sent(40, m.uid) + EncodeAll(m.unknown)
  {
    hide EncodeAll, Int, Sent, EncodeUser, NickField, VarintBytes;
    UserIsParts(m);
    NickIsParts(m.unick);
    OneByte(10);
    IntIsSent(2, m.uface);
    IntIsSent(3, m.usex);
    IntIsSent(4, m.uvip);
    IntIsSent(5, m.uid);
  }

  // status = 1, userinfo = 2
  lemma GuestOnTheWire(m: Guest)
    ensures EncodeGuest(m) ==
            Sent(8, m.status) + (if m.userinfo.None? then [] else Part(18, EncodeUser(m.userinfo.value))) + EncodeAll(m.unknown)
  {
    hide EncodeAll, Int, Sent, EncodeGuest, EncodeUser, VarintBytes;
    GuestIsParts(m);
    OneByte(18);
    IntIsSent(1, m.status);
  }
}
