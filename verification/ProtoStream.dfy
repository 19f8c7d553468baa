// The coded streams that messages are parsed from and serialized to.
module ProtoStream {
  import opened ProtoWire
  import opened ProtoSpec

  // Parsing goes on with what merging a field gave.
  function Then<M>(k: Kind<M>, next: Option<M>, b: seq<Byte>, depth: nat): Option<M> {
    if next.None? then None else Parse(k, next.value, b, depth)
  }

  lemma NoSuchField(tag: nat, b: seq<Byte>, depth: nat)
    ensures tag < 8 || tag % 8 == END_GROUP ==> ReadPayload(tag, b, depth).Fail?
    ensures var p := ReadPayload(tag, b, depth);
            p.Read? ==> p.value.number == tag / 8 && (p.value.Varint? <==> tag % 8 == 0) && (p.value.Bytes? <==> tag % 8 == 2)
  {
    hide ReadVarint, ReadDelimited, ReadGroup;
  }

  // One round of a parse loop: a tag, and what stands behind it
  lemma ParseUntagged<M>(k: Kind<M>, m: M, b: seq<Byte>, depth: nat)
    requires b != [] && (ReadTag(b).Fail? || ReadTag(b).value < 8)
    ensures Parse(k, m, b, depth).None?
  {
    hide ReadTag, ReadPayload;
    if ReadTag(b).Read? {
      NoSuchField(ReadTag(b).value, b[ReadTag(b).size..], depth);
    }
  }

  lemma FieldTagged(b: seq<Byte>, depth: nat, sub: nat)
    requires ReadTag(b).Read? && (sub == 0 || ReadTag(b).value != 8 * sub + 2)
    ensures var p := ReadPayload(ReadTag(b).value, b[ReadTag(b).size..], depth);
            ReadField(b, depth, sub) == if p.Fail? then Fail else Read(p.value, ReadTag(b).size + p.size)
  {
    hide ReadTag, ReadPayload;
  }

  lemma ParseTagged<M>(k: Kind<M>, m: M, b: seq<Byte>, depth: nat)
    requires b != [] && ReadTag(b).Read? && (k.sub == 0 || ReadTag(b).value != 8 * k.sub + 2)
    ensures var (tag, rest) := (ReadTag(b).value, b[ReadTag(b).size..]);
            var p := ReadPayload(tag, rest, depth);
            && (p.Fail? ==> Parse(k, m, b, depth).None?)
            && (p.Read? ==> Parse(k, m, b, depth) == Then(k, k.apply(m, p.value, depth), rest[p.size..], depth))
  {
    hide ReadTag, ReadPayload, ReadField;
    FieldTagged(b, depth, k.sub);
    var t := ReadTag(b);
    var p := ReadPayload(t.value, b[t.size..], depth);
    if p.Read? {
      assert b[t.size..][p.size..] == b[t.size + p.size..];
    }
  }

  // What the rounds of a parse loop amount to: an int32 field,
  lemma ParseVarint<M>(k: Kind<M>, m: M, b: seq<Byte>, number: nat, depth: nat)
    requires b != [] && ReadTag(b).Read? && ReadTag(b).value == 8 * number && number > 0
    ensures var rest := b[ReadTag(b).size..];
            var r := ReadVarint(rest);
            Parse(k, m, b, depth) ==
            if r.Fail? then None else Then(k, k.apply(m, Varint(number, r.value), depth), rest[r.size..], depth)
  {
    hide ReadTag, ReadVarint, ReadGroup, Parse, Then;
    ParseTagged(k, m, b, depth);
  }

  // a string,
  lemma ParseString<M>(k: Kind<M>, m: M, b: seq<Byte>, number: nat, depth: nat)
    requires b != [] && ReadTag(b).Read? && ReadTag(b).value == 8 * number + 2 && number > 0 && k.sub == 0
    ensures var rest := b[ReadTag(b).size..];
            var r := ReadDelimited(rest);
            Parse(k, m, b, depth) ==
            if r.Fail? then None else Then(k, k.apply(m, Bytes(number, r.value), depth), rest[r.size..], depth)
  {
    hide ReadTag, ReadDelimited, ReadGroup, Parse, Then;
    ParseTagged(k, m, b, depth);
  }

  // a sub-message,
  lemma ParseMessage<M>(k: Kind<M>, m: M, b: seq<Byte>, depth: nat)
    requires b != [] && ReadTag(b).Read? && ReadTag(b).value == 8 * k.sub + 2 && k.sub > 0
    ensures var rest := b[ReadTag(b).size..];
            var r := ReadClipped(rest);
            Parse(k, m, b, depth) ==
            if r.Fail? then None else Then(k, k.apply(m, Bytes(k.sub, r.value), depth), rest[r.size..], depth)
  {
    hide ReadTag, ReadClipped;
    var t := ReadTag(b);
    var r := ReadClipped(b[t.size..]);
    if r.Read? {
      assert b[t.size..][r.size..] == b[t.size + r.size..];
    }
  }

  // any other field,
  lemma ParseAny<M>(k: Kind<M>, m: M, b: seq<Byte>, depth: nat)
    requires b != [] && ReadTag(b).Read? && (k.sub == 0 || ReadTag(b).value != 8 * k.sub + 2)
    ensures var (tag, rest) := (ReadTag(b).value, b[ReadTag(b).size..]);
            var p := ReadPayload(tag, rest, depth);
            && Parse(k, m, b, depth) ==
               (if p.Fail? then None else Then(k, k.apply(m, p.value, depth), rest[p.size..], depth))
            && (p.Read? ==> p.value.number == tag / 8 && (p.value.Varint? <==> tag % 8 == 0) && (p.value.Bytes? <==> tag % 8 == 2))
  {
    hide ReadTag, ReadPayload, Parse, Then;
    ParseTagged(k, m, b, depth);
    NoSuchField(ReadTag(b).value, b[ReadTag(b).size..], depth);
  }

  // or the end, which is wanted only where nothing is left.
  lemma ParseEnd<M>(k: Kind<M>, m: M, b: seq<Byte>, depth: nat)
    requires b == [] || ReadTag(b).Fail? || ReadTag(b).value == 0
    ensures Parse(k, m, b, depth) == if b == [] then Some(m) else None
  {
    if b != [] {
      hide ReadTag, ReadPayload, Parse;
      ParseUntagged(k, m, b, depth);
    }
  }

  lemma ClippedIs(b: seq<Byte>)
    ensures ReadVarint(b).Fail? ==> ReadClipped(b).Fail?
    ensures ReadVarint(b).Read? ==>
              var (n, rest) := (ReadVarint(b).value, b[ReadVarint(b).size..]);
              ReadClipped(b) ==
              if n > INT_MAX then Fail
              else if n < |rest| then Read(rest[..n], ReadVarint(b).size + n)
              else Read(rest, |b|)
  {
    hide ReadVarint;
    if ReadVarint(b).Read? {
      var rest := b[ReadVarint(b).size..];
      assert rest[..|rest|] == rest;
    }
  }

  // One round of reading a group
  lemma GroupTagged(number: nat, b: seq<Byte>, depth: nat)
    ensures ReadTag(b).Fail? ==> ReadGroup(number, b, depth).Fail?
    ensures ReadTag(b).Read? ==>
              var (tag, size) := (ReadTag(b).value, ReadTag(b).size);
              var p := ReadPayload(tag, b[size..], depth);
              && (tag == 8 * number + END_GROUP ==> ReadGroup(number, b, depth) == Read([], size))
              && (tag != 8 * number + END_GROUP && p.Fail? ==> ReadGroup(number, b, depth).Fail?)
              && (tag != 8 * number + END_GROUP && p.Read? ==>
                    ReadGroup(number, b, depth) == After([p.value], size + p.size, ReadGroup(number, b[size..][p.size..], depth)))
  {
    hide ReadTag, ReadPayload, ReadGroup;
    GroupRound(number, b, depth);
    if ReadTag(b).Read? {
      var tag, size := ReadTag(b).value, ReadTag(b).size;
      var p := ReadPayload(tag, b[size..], depth);
      if p.Read? {
        assert b[size..][p.size..] == b[size + p.size..];
      }
    }
  }

  lemma AfterEnds(fs: seq<Field>, size: nat)
    ensures After(fs, size, Fail).Fail?
    ensures forall r: Read<seq<Field>> :: r.Read? && r.value == [] ==> After(fs, size, r) == Read(fs, size + r.size)
  {
    assert fs + [] == fs;
  }

  lemma AfterNothing(more: Read<seq<Field>>)
    ensures After([], 0, more) == more
  {
    if more.Read? {
      assert [] + more.value == more.value;
    }
  }

  lemma AfterMore(fs: seq<Field>, size: nat, gs: seq<Field>, n: nat, more: Read<seq<Field>>)
    ensures After(fs, size, After(gs, n, more)) == After(fs + gs, size + n, more)
  {
    if more.Read? {
      assert fs + (gs + more.value) == fs + gs + more.value;
    }
  }

  // Each of the first `k` bytes says that another follows.
  predicate GoOn(b: seq<Byte>, k: nat) {
    k <= |b| && forall j :: 0 <= j < k ==> b[j] >= 128
  }

  lemma NoDigits(b: seq<Byte>)
    ensures Base128(b[..0]) == 0 && GoOn(b, 0)
  {
  }

  lemma ReadEnds(b: seq<Byte>, count: nat)
    requires 0 < count <= MAX_VARINT && count <= |b| && GoOn(b, count - 1) && b[count - 1] < 128
    ensures ReadVarint(b) == Read(Base128(b[..count]) % TWO_TO_THE_64, count) && IsVarint(b[..count])
  {
    hide ReadVarintIn, Base128;
    ReadIsBase128(b, MAX_VARINT);
  }

  lemma ReadRunsOut(b: seq<Byte>, count: nat)
    requires GoOn(b, count) && (count == MAX_VARINT || count == |b|)
    ensures ReadVarint(b).Fail?
  {
    hide ReadVarintIn, Base128;
    ReadIsBase128(b, MAX_VARINT);
  }

  lemma OneMoreDigit(b: seq<Byte>, k: nat, n: nat)
    requires k < |b| && n == Base128(b[..k]) % TWO_TO_THE_64
    ensures Base128(b[..k + 1]) % TWO_TO_THE_64 == (n + b[k] % 128 * Pow128(k)) % TWO_TO_THE_64
    ensures GoOn(b, k) && b[k] >= 128 ==> GoOn(b, k + 1)
  {
    hide Pow128;
    assert b[..k + 1][..k] == b[..k];
  }

  class CodedInput {
    const data: seq<Byte>
    var pos: nat
    var limit: nat
    var legitimateEnd: bool
    var lastTag: nat
    var budget: int

    ghost predicate Valid()
      reads `pos, `limit
    {
      pos <= limit <= |data|
    }

    ghost function Rest(): seq<Byte>
      requires Valid()
      reads `pos, `limit
    {
      data[pos..limit]
    }

    constructor (data: seq<Byte>)
      ensures Valid() && Rest() == data && budget == RECURSION_LIMIT
    {
      this.data := data;
      pos, limit, legitimateEnd, lastTag, budget := 0, |data|, false, 0, RECURSION_LIMIT;
    }

    // ReadVarint64Slow: seven bits from each byte, up to one below 128
    method ReadVarint64() returns (ok: bool, n: nat)
      requires Valid()
      modifies `pos
      ensures Valid()
      ensures ok == ReadVarint(old(Rest())).Read?
      ensures ok ==>
                var r := ReadVarint(old(Rest()));
                n == r.value && Rest() == old(Rest())[r.size..] && pos == old(pos) + r.size
      ensures ok ==> IsVarint(data[old(pos)..pos]) && n == Base128(data[old(pos)..pos]) % TWO_TO_THE_64
    {
      hide ReadVarint, Base128, Pow128, GoOn, IsVarint;
      ghost var was := Rest();
      NoDigits(was);
      var count: nat, b: Byte := 0, 128;
      n := 0;
      while b >= 128
        invariant Valid() && count <= MAX_VARINT && pos == old(pos) + count && was == data[old(pos)..limit]
        invariant n == Base128(was[..count]) % TWO_TO_THE_64
        invariant if b >= 128 then GoOn(was, count) else 0 < count && GoOn(was, count - 1) && was[count - 1] == b
        decreases MAX_VARINT - count
      {
        if count == MAX_VARINT || pos == limit {
          ReadRunsOut(was, count);
          return false, 0;
        }
        b := data[pos];
        OneMoreDigit(was, count, n);
        n := (n + b % 128 * Pow128(count)) % TWO_TO_THE_64;
        pos := pos + 1;
        count := count + 1;
      }
      ReadEnds(was, count);
      assert data[old(pos)..pos] == was[..count];
      ok := true;
    }

    // ReadTagWithCutoffNoLastTag: 0 at the end, or where there is no tag
    method ReadTagWithCutoff(cutoff: nat) returns (tag: nat, known: bool)
      requires Valid()
      modifies `pos, `legitimateEnd
      ensures Valid() && known == (1 <= tag <= cutoff) && legitimateEnd == (old(Rest()) == [])
      ensures old(Rest()) == [] ==> tag == 0 && Rest() == []
      ensures old(Rest()) != [] ==>
                var r := ReadTag(old(Rest()));
                tag == (if r.Read? then r.value else 0) && (r.Read? ==> Rest() == old(Rest())[r.size..] && pos == old(pos) + r.size)
    {
      hide ReadVarint;
      legitimateEnd := pos == limit;
      tag := 0;
      if pos < limit {
        var ok, n := ReadVarint64();
        if ok {
          tag := n % TWO_TO_THE_32;
        }
      }
      known := 1 <= tag <= cutoff;
    }

    // ReadPrimitive of an int32
    method ReadInt32() returns (ok: bool, v: Int32)
      requires Valid()
      modifies `pos
      ensures Valid()
      ensures ok == ReadVarint(old(Rest())).Read?
      ensures ok ==>
                var r := ReadVarint(old(Rest()));
                v == ToInt32(r.value) && Rest() == old(Rest())[r.size..] && pos == old(pos) + r.size
    {
      hide ReadVarint;
      var n;
      ok, n := ReadVarint64();
      v := ToInt32(n);
    }

    // ReadString
    method ReadString() returns (ok: bool, s: seq<Byte>)
      requires Valid()
      modifies `pos
      ensures Valid()
      ensures ok == ReadDelimited(old(Rest())).Read?
      ensures ok ==>
                var r := ReadDelimited(old(Rest()));
                s == r.value && Rest() == old(Rest())[r.size..] && pos == old(pos) + r.size
    {
      hide ReadVarint;
      s := [];
      var n;
      ok, n := ReadVarint64();
      if ok {
        var length := n % TWO_TO_THE_32;
        ok := length <= INT_MAX && length <= limit - pos;
        if ok {
          s := data[pos..pos + length];
          pos := pos + length;
        }
      }
    }

    // ReadTag, which also remembers the tag
    method ReadAnyTag() returns (tag: nat)
      requires Valid()
      modifies `pos, `legitimateEnd, `lastTag
      ensures Valid() && lastTag == tag
      ensures old(Rest()) == [] ==> tag == 0 && Rest() == []
      ensures old(Rest()) != [] ==>
                var r := ReadTag(old(Rest()));
                tag == (if r.Read? then r.value else 0) && (r.Read? ==> Rest() == old(Rest())[r.size..] && pos == old(pos) + r.size)
    {
      var known;
      tag, known := ReadTagWithCutoff(0);
      lastTag := tag;
    }

    // ReadLittleEndian32 and ReadLittleEndian64
    method ReadRaw(n: nat) returns (ok: bool, s: seq<Byte>)
      requires Valid()
      modifies `pos
      ensures Valid()
      ensures ok == ReadBytes(old(Rest()), n).Read?
      ensures ok ==> s == ReadBytes(old(Rest()), n).value && Rest() == old(Rest())[n..]
    {
      s := [];
      ok := n <= limit - pos;
      if ok {
        s := data[pos..pos + n];
        pos := pos + n;
      }
    }

    // SkipField, which keeps what it skips
    method SkipField(tag: nat) returns (ok: bool, f: Field)
      requires Valid() && budget >= 0
      modifies `pos, `legitimateEnd, `lastTag, `budget
      ensures Valid()
      ensures ok == ReadPayload(tag, old(Rest()), old(budget)).Read?
      ensures ok ==>
                var r := ReadPayload(tag, old(Rest()), old(budget));
                f == r.value && Rest() == old(Rest())[r.size..] && pos == old(pos) + r.size && budget == old(budget)
      decreases limit - pos, 2
    {
      hide ReadVarint, ReadDelimited, ReadBytes, ReadGroup;
      var number := tag / 8;
      f := Varint(number, 0);
      if number == 0 {
        ok := false;
      } else if tag % 8 == 0 {
        var n;
        ok, n := ReadVarint64();
        f := Varint(number, n);
      } else if tag % 8 == 1 {
        var s;
        ok, s := ReadRaw(8);
        f := Fixed64(number, s);
      } else if tag % 8 == 2 {
        var s;
        ok, s := ReadString();
        f := Bytes(number, s);
      } else if tag % 8 == 3 {
        budget := budget - 1;
        ok := budget >= 0;
        if ok {
          var fs;
          ok, fs := SkipMessage(number);
          ok := ok && lastTag == 8 * number + END_GROUP;
          f := Group(number, fs);
          budget := budget + 1;
        }
      } else if tag % 8 == 5 {
        var s;
        ok, s := ReadRaw(4);
        f := Fixed32(number, s);
      } else {
        ok := false;
      }
    }

    // One round of SkipMessage: the end, or one more field
    method SkipNext(ghost number: nat) returns (ok: bool, fs: seq<Field>)
      requires Valid() && number > 0 && budget >= 0
      modifies `pos, `legitimateEnd, `lastTag, `budget
      ensures Valid() && (ok ==> budget == old(budget))
      ensures var r := ReadGroup(number, old(Rest()), old(budget));
              if ok && fs != [] then old(pos) < pos && r == After(fs, pos - old(pos), ReadGroup(number, Rest(), budget))
              else
                && (ok && lastTag == 8 * number + END_GROUP <==> r.Read?)
                && (r.Read? ==> r.value == [] && pos == old(pos) + r.size)
      decreases limit - pos, 0
    {
      hide ReadTag, ReadPayload, ReadGroup, After, Rest;
      fs := [];
      GroupTagged(number, Rest(), budget);
      var tag := ReadAnyTag();
      NoSuchField(tag, Rest(), budget);
      if tag == 0 {
        return true, fs;
      }
      if tag % 8 == END_GROUP {
        return true, fs;
      }
      var f;
      ok, f := SkipField(tag);
      fs := [f];
    }

    // SkipMessage: the fields up to the end of some group or of the input
    method SkipMessage(ghost number: nat) returns (ok: bool, fs: seq<Field>)
      requires Valid() && number > 0 && budget >= 0
      modifies `pos, `legitimateEnd, `lastTag, `budget
      ensures Valid() && (ok ==> budget == old(budget))
      ensures var r := ReadGroup(number, old(Rest()), old(budget));
              && (ok && lastTag == 8 * number + END_GROUP <==> r.Read?)
              && (r.Read? ==> r.value == fs && pos == old(pos) + r.size)
      decreases limit - pos, 1
    {
      hide ReadTag, ReadPayload, ReadGroup, After;
      ghost var group := ReadGroup(number, Rest(), budget);
      AfterNothing(group);
      fs := [];
      while true
        invariant Valid() && old(pos) <= pos && budget == old(budget)
        invariant group == After(fs, pos - old(pos), ReadGroup(number, Rest(), budget))
        decreases limit - pos
      {
        ghost var size := pos - old(pos);
        AfterEnds(fs, size);
        var more;
        ok, more := SkipNext(number);
        if !ok || more == [] {
          return;
        }
        AfterMore(fs, size, more, pos - old(pos) - size, ReadGroup(number, Rest(), budget));
        fs := fs + more;
      }
    }

    // The length of a sub-message, which becomes the limit while it is parsed,
    // unless that would be past the limit there is
    method PushLimit() returns (ok: bool, outer: nat)
      requires Valid() && budget >= 0
      modifies `pos, `limit, `budget
      ensures Valid() && outer == old(limit) && limit <= outer
      ensures ok == (ReadClipped(old(Rest())).Read? && old(budget) > 0)
      ensures ok ==>
                var r := ReadClipped(old(Rest()));
                && Rest() == r.value && data[limit..outer] == old(Rest())[r.size..] && limit == old(pos) + r.size
                && budget == old(budget) - 1
    {
      hide ReadVarint, ReadClipped;
      outer := limit;
      ghost var was := Rest();
      ClippedIs(was);
      var n;
      ok, n := ReadVarint64();
      ok := ok && n <= INT_MAX;
      if ok {
        ghost var size, rest := ReadVarint(was).size, Rest();
        assert was[size..] == rest;
        if n < limit - pos {
          assert rest[..n] == data[pos..pos + n] && rest[n..] == data[pos + n..outer];
          assert was[size..][n..] == was[size + n..];
          limit := pos + n;
        }
        budget := budget - 1;
        ok := budget >= 0;
      }
    }

    // Whether the sub-message ended where its length said; the outer limit is back.
    method PopLimit(outer: nat) returns (ok: bool)
      requires Valid() && limit <= outer <= |data|
      modifies `limit, `budget
      ensures Valid() && limit == outer && ok == legitimateEnd && budget == old(budget) + 1
      ensures old(Rest()) == [] ==> Rest() == data[old(limit)..outer] && pos == old(limit)
    {
      ok := legitimateEnd;
      limit := outer;
      budget := budget + 1;
    }
  }

  class CodedOutput {
    var bytes: seq<Byte>

    constructor ()
      ensures bytes == []
    {
      bytes := [];
    }

    method WriteVarint(n: nat)
      modifies this
      ensures bytes == old(bytes) + VarintBytes(n)
    {
      var k := n;
      while k >= 128
        invariant bytes + VarintBytes(k) == old(bytes) + VarintBytes(n)
      {
        bytes := bytes + [k % 128 + 128];
        k := k / 128;
      }
      bytes := bytes + [k];
    }

    // WriteInt32, for a field that is sent only when it is not zero
    method WriteInt32(number: nat, v: Int32)
      modifies this
      ensures bytes == old(bytes) + EncodeAll(Int(number, v))
    {
      hide VarintBytes, EncodeAll;
      if v != 0 {
        EncodeOne(Varint(number, SignExtended(v)));
        WriteVarint(8 * number);
        WriteVarint(SignExtended(v));
      } else {
        EncodeNothing();
      }
    }

    // The tag and length of a string or sub-message
    method WriteLength(number: nat, n: nat)
      modifies this
      ensures bytes == old(bytes) + (VarintBytes(8 * number + 2) + VarintBytes(n))
    {
      hide VarintBytes;
      WriteVarint(8 * number + 2);
      WriteVarint(n);
    }

    method WriteRaw(b: seq<Byte>)
      modifies this
      ensures bytes == old(bytes) + b
    {
      bytes := bytes + b;
    }

    // SerializeUnknownFields
    method WriteUnknown(fs: seq<Field>)
      modifies this
      ensures bytes == old(bytes) + EncodeAll(fs)
      decreases fs, 1
    {
      hide Encode;
      var i := 0;
      while i < |fs|
        invariant 0 <= i <= |fs| && bytes + EncodeAll(fs[i..]) == old(bytes) + EncodeAll(fs)
      {
        WriteField(fs[i]);
        assert fs[i..][1..] == fs[i + 1..];
        i := i + 1;
      }
    }

    method WriteField(f: Field)
      modifies this
      ensures bytes == old(bytes) + Encode(f)
      decreases f
    {
      hide VarintBytes, EncodeAll;
      WriteVarint(Tag(f));
      match f {
        case Varint(_, n) => WriteVarint(n);
        case Fixed64(_, b) => WriteRaw(b);
        case Bytes(_, b) =>
          WriteVarint(|b|);
          WriteRaw(b);
        case Group(number, fields) =>
          WriteUnknown(fields);
          WriteVarint(8 * number + END_GROUP);
        case Fixed32(_, b) => WriteRaw(b);
      }
    }
  }

  // ----- ComputeUnknownFieldsSize

  method UnknownSize(fs: seq<Field>) returns (size: nat)
    requires ValidFields(fs)
    ensures size == |EncodeAll(fs)|
    decreases fs, 1
  {
    hide Encode, ValidField;
    size := 0;
    var i := 0;
    while i < |fs|
      invariant 0 <= i <= |fs| && size + |EncodeAll(fs[i..])| == |EncodeAll(fs)|
    {
      var n := FieldSize(fs[i]);
      assert fs[i..][1..] == fs[i + 1..];
      size := size + n;
      i := i + 1;
    }
  }

  method FieldSize(f: Field) returns (size: nat)
    requires ValidField(f)
    ensures size == |Encode(f)|
    decreases f
  {
    hide VarintBytes, EncodeAll, VarintSize;
    VarintSizeIsLength(Tag(f));
    size := VarintSize(Tag(f));
    match f {
      case Varint(_, n) =>
        VarintSizeIsLength(n);
        size := size + VarintSize(n);
      case Fixed64(_, _) => size := size + 8;
      case Bytes(_, b) =>
        VarintSizeIsLength(|b|);
        size := size + VarintSize(|b|) + |b|;
      case Group(number, fields) =>
        var n := UnknownSize(fields);
        VarintSizeIsLength(8 * number + END_GROUP);
        size := size + n + VarintSize(8 * number + END_GROUP);
      case Fixed32(_, _) => size := size + 4;
    }
  }
}
