// UserCenterInfo, and GuestLoginRes with its singular sub-message.
module ProtoGuest {
  import opened ProtoWire
  import opened ProtoSpec
  import opened ProtoUtf8
  import opened ProtoStream
  import opened ProtoMessages

  // One round of the loop that parses a UserCenterInfo
  lemma UserRound(m: User, b: seq<Byte>, depth: nat)
    ensures b == [] ==> ParseUser(m, b, depth) == Some(m)
    ensures b != [] && (ReadTag(b).Fail? || ReadTag(b).value == 0) ==> ParseUser(m, b, depth).None?
    ensures b != [] && ReadTag(b).Read? && ReadTag(b).value != 0 ==>
              var (tag, rest) := (ReadTag(b).value, b[ReadTag(b).size..]);
              var (n, s, p) := (ReadVarint(rest), ReadDelimited(rest), ReadPayload(tag, rest, depth));
              ParseUser(m, b, depth) ==
              if tag == 10 then
                if s.Fail? || !IsUtf8(s.value) then None else ParseUser(m.(unick := s.value), rest[s.size..], depth)
              else if tag in {16, 24, 32, 40} then
                if n.Fail? then None else ParseUser(WithInt(m, tag / 8, ToInt32(n.value)), rest[n.size..], depth)
              else if p.Fail? then None else ParseUser(m.(unknown := m.unknown + [p.value]), rest[p.size..], depth)
  {
    hide ReadTag, ReadVarint, ReadDelimited, ReadPayload, Parse, ToInt32;
    if b == [] || ReadTag(b).Fail? || ReadTag(b).value == 0 {
      ParseEnd(USER, m, b, depth);
    } else if ReadTag(b).value == 10 {
      ParseString(USER, m, b, 1, depth);
    } else if ReadTag(b).value in {16, 24, 32, 40} {
      ParseVarint(USER, m, b, ReadTag(b).value / 8, depth);
    } else {
      ParseAny(USER, m, b, depth);
    }
  }

  class UserCenterInfo {
    var unick: seq<Byte>
    var uface: Int32
    var usex: Int32
    var uvip: Int32
    var uid: Int32
    var unknown: seq<Field>
    var cachedSize: Int32

    ghost function Value(): User
      reads `unick, `uface, `usex, `uvip, `uid, `unknown
    {
      User(unick, uface, usex, uvip, uid, unknown)
    }

    constructor ()
      ensures Value() == NO_USER && cachedSize == 0
    {
      unick, uface, usex, uvip, uid, unknown, cachedSize := [], 0, 0, 0, 0, [], 0;
    }

    method Clear()
      modifies `unick, `uface, `usex, `uvip, `uid, `unknown
      ensures Value() == NO_USER
    {
      unick, uface, usex, uvip, uid, unknown := [], 0, 0, 0, 0, [];
    }

    // A field that the message knows
    method ReadField(input: CodedInput, tag: nat) returns (ok: bool)
      requires input.Valid() && tag in {10, 16, 24, 32, 40}
      modifies `unick, `uface, `usex, `uvip, `uid, input`pos
      ensures input.Valid()
      ensures tag == 10 ==>
                var r := ReadDelimited(old(input.Rest()));
                && ok == (r.Read? && IsUtf8(r.value))
                && (ok ==> Value() == old(Value()).(unick := r.value))
                && (ok ==> input.Rest() == old(input.Rest())[r.size..] && input.pos == old(input.pos) + r.size)
      ensures tag != 10 ==>
                var r := ReadVarint(old(input.Rest()));
                && ok == r.Read?
                && (ok ==> Value() == WithInt(old(Value()), tag / 8, ToInt32(r.value)))
                && (ok ==> input.Rest() == old(input.Rest())[r.size..] && input.pos == old(input.pos) + r.size)
    {
      hide ReadVarint, ReadDelimited, ToInt32, CodedInput.Rest;
      if tag == 10 {
        ok, unick := input.ReadString();
        if ok {
          ok := IsStructurallyValid(unick);
        }
      } else if tag == 16 {
        ok, uface := input.ReadInt32();
      } else if tag == 24 {
        ok, usex := input.ReadInt32();
      } else if tag == 32 {
        ok, uvip := input.ReadInt32();
      } else {
        ok, uid := input.ReadInt32();
      }
    }

    method MergePartialFromCodedStream(input: CodedInput) returns (ok: bool)
      requires input.Valid() && input.budget >= 0
      modifies `unick, `uface, `usex, `uvip, `uid, `unknown, input`pos, input`legitimateEnd, input`lastTag, input`budget
      ensures input.Valid() && (ok ==> input.budget == old(input.budget))
      ensures var parsed := ParseUser(old(Value()), old(input.Rest()), old(input.budget));
              && (ok && input.legitimateEnd <==> parsed.Some?)
              && (parsed.Some? ==> Value() == parsed.value && input.Rest() == [])
    {
      hide ReadVarint, ReadTag, ReadPayload, ReadDelimited, ParseUser, CodedInput.Rest, ToInt32, WithInt;
      ghost var parsed := ParseUser(Value(), input.Rest(), input.budget);
      while true
        invariant input.Valid() && input.budget == old(input.budget)
        invariant parsed == ParseUser(Value(), input.Rest(), input.budget)
        decreases input.limit - input.pos
      {
        UserRound(Value(), input.Rest(), input.budget);
        var tag, known := input.ReadTagWithCutoff(TAG_CUTOFF);
        if known && tag in {10, 16, 24, 32, 40} {
          ok := ReadField(input, tag);
        } else if tag == 0 {
          return true;
        } else {
          var f;
          ok, f := input.SkipField(tag);
          unknown := unknown + [f];
        }
        if !ok {
          return false;
        }
      }
    }

    method ByteSizeLong() returns (totalSize: nat)
      requires GoodUser(Value())
      modifies `cachedSize
      ensures totalSize == |EncodeUser(Value())| && cachedSize == ToCachedSize(totalSize)
    {
      hide EncodeUser, EncodeAll, Int32Size, VarintSize, ToCachedSize, ToUint32;
      UserSizeIsLength(Value());
      totalSize := UnknownSize(unknown);
      if unick != [] {
        totalSize := totalSize + 1 + (|unick| + VarintSize(ToUint32(|unick|)));
      }
      if uface != 0 {
        totalSize := totalSize + 1 + Int32Size(uface);
      }
      assert totalSize == |EncodeAll(unknown)| + NickSize(unick) + IntSize(uface);
      if usex != 0 {
        totalSize := totalSize + 1 + Int32Size(usex);
      }
      if uvip != 0 {
        totalSize := totalSize + 1 + Int32Size(uvip);
      }
      assert totalSize == |EncodeAll(unknown)| + NickSize(unick) + IntSize(uface) + IntSize(usex) + IntSize(uvip);
      if uid != 0 {
        totalSize := totalSize + 1 + Int32Size(uid);
      }
      cachedSize := ToCachedSize(totalSize);
    }

    method SerializeWithCachedSizes(output: CodedOutput)
      modifies output
      ensures output.bytes == old(output.bytes) + EncodeUser(Value())
    {
      hide EncodeAll, EncodeUser, Int, NickField;
      UserIsParts(Value());
      WriteNick(output);
      output.WriteInt32(2, uface);
      output.WriteInt32(3, usex);
      output.WriteInt32(4, uvip);
      output.WriteInt32(5, uid);
      output.WriteUnknown(unknown);
    }

    method WriteNick(output: CodedOutput)
      modifies output
      ensures output.bytes == old(output.bytes) + EncodeAll(NickField(unick))
    {
      hide EncodeAll, VarintBytes;
      NickIsParts(unick);
      if unick != [] {
        output.WriteLength(1, |unick|);
        output.WriteRaw(unick);
      }
    }

    method MergeFrom(from: UserCenterInfo)
      requires from != this
      modifies `unick, `uface, `usex, `uvip, `uid, `unknown
      ensures Value() == MergeUser(old(Value()), from.Value())
    {
      unknown := unknown + from.unknown;
      if from.unick != [] {
        unick := from.unick;
      }
      if from.uface != 0 {
        uface := from.uface;
      }
      if from.usex != 0 {
        usex := from.usex;
      }
      if from.uvip != 0 {
        uvip := from.uvip;
      }
      if from.uid != 0 {
        uid := from.uid;
      }
    }
  }

  lemma NickIsParts(nick: seq<Byte>)
    ensures EncodeAll(NickField(nick)) == if nick == [] then [] else VarintBytes(10) + VarintBytes(|nick|) + nick
  {
    hide EncodeAll, VarintBytes;
    if nick == [] {
      EncodeNothing();
    } else {
      EncodeOne(Bytes(1, nick));
    }
  }

  lemma UserIsParts(m: User)
    ensures EncodeUser(m) ==
            EncodeAll(NickField(m.unick)) + EncodeAll(Int(2, m.uface)) + EncodeAll(Int(3, m.usex)) +
            EncodeAll(Int(4, m.uvip)) + EncodeAll(Int(5, m.uid)) + EncodeAll(m.unknown)
  {
    hide EncodeAll, Int, NickField;
    var f2 := NickField(m.unick) + Int(2, m.uface);
    var f3 := f2 + Int(3, m.usex);
    var f4 := f3 + Int(4, m.uvip);
    var f5 := f4 + Int(5, m.uid);
    EncodeAllConcat(NickField(m.unick), Int(2, m.uface));
    EncodeAllConcat(f2, Int(3, m.usex));
    EncodeAllConcat(f3, Int(4, m.uvip));
    EncodeAllConcat(f4, Int(5, m.uid));
    EncodeAllConcat(f5, m.unknown);
  }

  function NickSize(nick: seq<Byte>): nat {
    if nick == [] then 0 else 1 + (|nick| + VarintSize(ToUint32(|nick|)))
  }

  lemma NickSizeIsLength(nick: seq<Byte>)
    requires |nick| <= INT_MAX
    ensures |EncodeAll(NickField(nick))| == NickSize(nick)
  {
    hide EncodeAll, VarintBytes, VarintSize;
    NickIsParts(nick);
    OneByte(10);
    VarintSizeIsLength(|nick|);
  }

  lemma UserSizeIsLength(m: User)
    requires |m.unick| <= INT_MAX
    ensures |EncodeUser(m)| ==
            |EncodeAll(m.unknown)| + NickSize(m.unick) + IntSize(m.uface) + IntSize(m.usex) + IntSize(m.uvip) + IntSize(m.uid)
  {
    hide EncodeAll, Int, IntSize, NickSize, NickField, EncodeUser;
    UserIsParts(m);
    NickSizeIsLength(m.unick);
    IntSizeIsLength(2, m.uface);
    IntSizeIsLength(3, m.usex);
    IntSizeIsLength(4, m.uvip);
    IntSizeIsLength(5, m.uid);
  }

  // The sub-message in front of `b`, merged into the one that is there
  function SubUser(info: User, b: seq<Byte>, depth: nat): Option<User> {
    var r := ReadClipped(b);
    if r.Read? && depth > 0 then ParseUser(info, r.value, depth - 1) else None
  }

  // One round of the loop that parses a GuestLoginRes
  lemma GuestRound(m: Guest, b: seq<Byte>, depth: nat)
    ensures b == [] ==> ParseGuest(m, b, depth) == Some(m)
    ensures b != [] && (ReadTag(b).Fail? || ReadTag(b).value == 0) ==> ParseGuest(m, b, depth).None?
    ensures b != [] && ReadTag(b).Read? && ReadTag(b).value != 0 ==>
              var (tag, rest) := (ReadTag(b).value, b[ReadTag(b).size..]);
              var (n, s, p) := (ReadVarint(rest), ReadClipped(rest), ReadPayload(tag, rest, depth));
              ParseGuest(m, b, depth) ==
              if tag == 8 then
                if n.Fail? then None else ParseGuest(m.(status := ToInt32(n.value)), rest[n.size..], depth)
              else if tag == 18 then
                var u := SubUser(UserOf(m), rest, depth);
                if u.None? then None else ParseGuest(m.(userinfo := u), rest[s.size..], depth)
              else if p.Fail? then None else ParseGuest(m.(unknown := m.unknown + [p.value]), rest[p.size..], depth)
  {
    hide ReadTag, ReadVarint, ReadClipped, ReadPayload, Parse, ParseUser, ToInt32;
    if b == [] || ReadTag(b).Fail? || ReadTag(b).value == 0 {
      ParseEnd(GUEST, m, b, depth);
    } else if ReadTag(b).value == 8 {
      ParseVarint(GUEST, m, b, 1, depth);
    } else if ReadTag(b).value == 18 {
      ParseMessage(GUEST, m, b, depth);
    } else {
      ParseAny(GUEST, m, b, depth);
    }
  }

  class GuestLoginRes {
    var status: Int32
    var userinfo: UserCenterInfo?
    var unknown: seq<Field>
    var cachedSize: Int32

    ghost function Info(): Option<User>
      reads `userinfo, userinfo
    {
      if userinfo == null then None else Some(userinfo.Value())
    }

    ghost function Value(): Guest
      reads `status, `userinfo, `unknown, userinfo
    {
      Guest(status, Info(), unknown)
    }

    constructor ()
      ensures Value() == NO_GUEST && cachedSize == 0
    {
      status, userinfo, unknown, cachedSize := 0, null, [], 0;
    }

    method Clear()
      modifies `status, `userinfo, `unknown
      ensures Value() == NO_GUEST
    {
      status, userinfo, unknown := 0, null, [];
    }

    // mutable_userinfo
    method MutableUserinfo() returns (info: UserCenterInfo)
      modifies `userinfo
      ensures userinfo == info && info.Value() == UserOf(old(Value())) && status == old(status)
      ensures if old(userinfo) == null then fresh(info) else info == old(userinfo)
    {
      if userinfo == null {
        userinfo := new UserCenterInfo();
      }
      info := userinfo;
    }

    // The sub-message of a field, merged into the one that is there
    method ReadUserinfo(input: CodedInput) returns (ok: bool)
      requires input.Valid() && input.budget >= 0
      modifies `userinfo, userinfo, input`pos, input`limit, input`legitimateEnd, input`lastTag, input`budget
      ensures input.Valid() && (ok ==> input.limit == old(input.limit) && input.budget == old(input.budget))
      ensures userinfo != null && (userinfo == old(userinfo) || fresh(userinfo))
      ensures var parsed := SubUser(UserOf(old(Value())), old(input.Rest()), old(input.budget));
              && ok == parsed.Some?
              && (ok ==> Info() == parsed)
      ensures ok ==>
                var r := ReadClipped(old(input.Rest()));
                r.Read? && input.Rest() == old(input.Rest())[r.size..] && input.pos == old(input.pos) + r.size
    {
      hide ReadClipped, ParseUser, CodedInput.Rest;
      var info := MutableUserinfo();
      var outer;
      ok, outer := input.PushLimit();
      if ok {
        ok := info.MergePartialFromCodedStream(input);
        if ok {
          ok := input.PopLimit(outer);
        }
      }
    }

    method MergePartialFromCodedStream(input: CodedInput) returns (ok: bool)
      requires input.Valid() && input.budget >= 0
      modifies `status, `userinfo, `unknown, userinfo, input`pos, input`limit, input`legitimateEnd, input`lastTag, input`budget
      ensures input.Valid() && (ok ==> input.limit == old(input.limit) && input.budget == old(input.budget))
      ensures var parsed := ParseGuest(old(Value()), old(input.Rest()), old(input.budget));
              && (ok && input.legitimateEnd <==> parsed.Some?)
              && (parsed.Some? ==> Value() == parsed.value && input.Rest() == [])
    {
      hide ReadVarint, ReadTag, ReadPayload, ReadClipped, SubUser, UserOf, ParseGuest, CodedInput.Rest, ToInt32, Info;
      ghost var parsed, info := ParseGuest(Value(), input.Rest(), input.budget), Info();
      while true
        invariant input.Valid() && input.limit == old(input.limit) && input.budget == old(input.budget)
        invariant parsed == ParseGuest(Guest(status, info, unknown), input.Rest(), input.budget) && Info() == info
        invariant userinfo == old(userinfo) || fresh(userinfo)
        decreases input.limit - input.pos
      {
        GuestRound(Guest(status, info, unknown), input.Rest(), input.budget);
        var tag, known := input.ReadTagWithCutoff(TAG_CUTOFF);
        if known && tag == 8 {
          ok, status := input.ReadInt32();
        } else if known && tag == 18 {
          ok := ReadUserinfo(input);
          info := Info();
          assert ok ==> parsed == ParseGuest(Guest(status, info, unknown), input.Rest(), input.budget);
        } else if tag == 0 {
          return true;
        } else {
          var f;
          ok, f := input.SkipField(tag);
          unknown := unknown + [f];
        }
        if !ok {
          return false;
        }
      }
    }

    method ByteSizeLong() returns (totalSize: nat)
      requires GoodGuest(Value()) && SizedGuest(Value())
      modifies `cachedSize, userinfo
      ensures totalSize == |EncodeGuest(Value())| && cachedSize == ToCachedSize(totalSize) && Value() == old(Value())
      ensures userinfo == null || userinfo.cachedSize == |EncodeUser(userinfo.Value())|
    {
      hide EncodeAll, Int32Size, EncodeUser, EncodeGuest, Int, VarintSize, ToCachedSize, ToUint32;
      GuestIsParts(Value());
      IntSizeIsLength(1, status);
      totalSize := UnknownSize(unknown);
      if userinfo != null {
        var size := userinfo.ByteSizeLong();
        FitsInt(size);
        totalSize := totalSize + 1 + (size + VarintSize(ToUint32(size)));
      }
      if status != 0 {
        totalSize := totalSize + 1 + Int32Size(status);
      }
      cachedSize := ToCachedSize(totalSize);
    }

    method SerializeWithCachedSizes(output: CodedOutput)
      requires userinfo == null || userinfo.cachedSize == |EncodeUser(userinfo.Value())|
      modifies output
      ensures output.bytes == old(output.bytes) + EncodeGuest(Value())
    {
      hide EncodeAll, VarintBytes, EncodeUser, EncodeGuest, Int;
      GuestIsParts(Value());
      output.WriteInt32(1, status);
      if userinfo != null {
        output.WriteLength(2, userinfo.cachedSize);
        userinfo.SerializeWithCachedSizes(output);
      }
      output.WriteUnknown(unknown);
    }

    method MergeFrom(from: GuestLoginRes)
      requires from != this && (from.userinfo == null || from.userinfo != userinfo)
      modifies `status, `userinfo, `unknown, userinfo
      ensures Value() == MergeGuest(old(Value()), from.Value())
    {
      unknown := unknown + from.unknown;
      if from.userinfo != null {
        var info := MutableUserinfo();
        info.MergeFrom(from.userinfo);
      }
      if from.status != 0 {
        status := from.status;
      }
    }
  }

  lemma GuestIsParts(m: Guest)
    ensures EncodeGuest(m) == EncodeAll(Int(1, m.status)) + EncodeAll(InfoField(m.userinfo)) + EncodeAll(m.unknown)
    ensures EncodeAll(InfoField(m.userinfo)) ==
            if m.userinfo.None? then []
            else VarintBytes(18) + VarintBytes(|EncodeUser(m.userinfo.value)|) + EncodeUser(m.userinfo.value)
    ensures |VarintBytes(18)| == 1
    ensures m.userinfo.Some? && |EncodeUser(m.userinfo.value)| <= INT_MAX ==>
              |VarintBytes(|EncodeUser(m.userinfo.value)|)| == VarintSize(|EncodeUser(m.userinfo.value)|)
  {
    hide EncodeAll, Int, VarintBytes, EncodeUser, VarintSize;
    OneByte(18);
    EncodeAllConcat(Int(1, m.status), InfoField(m.userinfo));
    EncodeAllConcat(Int(1, m.status) + InfoField(m.userinfo), m.unknown);
    if m.userinfo.None? {
      EncodeNothing();
    } else {
      var e := EncodeUser(m.userinfo.value);
      EncodeOne(Bytes(2, e));
      if |e| <= INT_MAX {
        VarintSizeIsLength(|e|);
      }
    }
  }
}
