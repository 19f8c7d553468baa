// The Protocol Buffers wire format: varints, length-delimited fields, and
// parsing as a fold over fields.
module ProtoWire {
  type Byte = x: int | 0 <= x < 256
  type Int32 = x: int | -0x8000_0000 <= x < 0x8000_0000

  const INT_MAX: nat := 0x7FFF_FFFF
  const TWO_TO_THE_32: nat := 0x1_0000_0000
  const TWO_TO_THE_64: nat := 0x1_0000_0000_0000_0000
  const MAX_VARINT: nat := 10

  // How deep messages and groups may be nested
  const RECURSION_LIMIT: nat := 100

  datatype Option<T> = None | Some(value: T)

  // A value and how many bytes it took
  datatype Read<T> = Fail | Read(value: T, size: nat)

  // ----- Varints

  function VarintBytes(n: nat): (b: seq<Byte>)
    ensures b != []
  {
    if n < 128 then [n] else [n % 128 + 128] + VarintBytes(n / 128)
  }

  function ReadVarintIn(b: seq<Byte>, most: nat): (r: Read<nat>)
    ensures r.Read? ==> 1 <= r.size <= |b|
  {
    if b == [] || most == 0 then Fail
    else if b[0] < 128 then Read(b[0], 1)
    else
      match ReadVarintIn(b[1..], most - 1)
      case Fail => Fail
      case Read(n, size) => Read(b[0] - 128 + 128 * n, 1 + size)
  }

  function ReadVarint(b: seq<Byte>): (r: Read<nat>)
    ensures r.Read? ==> 1 <= r.size <= |b| && r.value < TWO_TO_THE_64
  {
    match ReadVarintIn(b, MAX_VARINT)
    case Fail => Fail
    case Read(n, size) => Read(n % TWO_TO_THE_64, size)
  }

  function Pow128(k: nat): (r: nat)
    ensures r > 0
  {
    if k == 0 then 1 else 128 * Pow128(k - 1)
  }

  lemma {:induction false} VarintRoundTrip(n: nat, rest: seq<Byte>, most: nat)
    requires most > 0 && n < Pow128(most)
    ensures ReadVarintIn(VarintBytes(n) + rest, most) == Read(n, |VarintBytes(n)|)
  {
    var b := VarintBytes(n) + rest;
    if n >= 128 {
      VarintRoundTrip(n / 128, rest, most - 1);
      assert b[1..] == VarintBytes(n / 128) + rest;
    }
  }

  lemma Pow128Ten()
    ensures Pow128(MAX_VARINT) >= TWO_TO_THE_64
  {
    assert Pow128(5) == 0x8_0000_0000;
    assert Pow128(MAX_VARINT) == 128 * (128 * (128 * (128 * (128 * Pow128(5)))));
  }

  lemma ReadWrittenVarint(n: nat, rest: seq<Byte>)
    requires n < TWO_TO_THE_64
    ensures ReadVarint(VarintBytes(n) + rest) == Read(n, |VarintBytes(n)|)
  {
    hide VarintBytes, ReadVarintIn, Pow128;
    Pow128Ten();
    VarintRoundTrip(n, rest, MAX_VARINT);
  }

  // What follows a varint does not change it.
  lemma {:induction false} VarintPrefix(b: seq<Byte>, rest: seq<Byte>, most: nat)
    requires ReadVarintIn(b, most).Read?
    ensures ReadVarintIn(b + rest, most) == ReadVarintIn(b, most)
  {
    if b[0] >= 128 {
      VarintPrefix(b[1..], rest, most - 1);
      assert (b + rest)[1..] == b[1..] + rest;
    }
  }

  // ----- What a varint stands for: its digits to the base 128, the lowest first

  function Base128(b: seq<Byte>): nat {
    if b == [] then 0 else Base128(b[..|b| - 1]) + b[|b| - 1] % 128 * Pow128(|b| - 1)
  }

  // Every byte says that another follows, but the last.
  predicate IsVarint(b: seq<Byte>) {
    b != [] && (forall k :: 0 <= k < |b| - 1 ==> b[k] >= 128) && b[|b| - 1] < 128
  }

  lemma {:induction false} LowestFirst(c: Byte, b: seq<Byte>)
    ensures Base128([c] + b) == c % 128 + 128 * Base128(b)
  {
    if b == [] {
      assert [c] + b == [c] && [c][..0] == [];
      assert Base128([c]) == Base128([]) + c % 128 * Pow128(0);
    } else {
      var init := b[..|b| - 1];
      assert ([c] + b)[..|b|] == [c] + init;
      LowestFirst(c, init);
      Raised(b[|b| - 1] % 128, |b| - 1);
    }
  }

  lemma Raised(d: nat, k: nat)
    ensures d * Pow128(k + 1) == 128 * (d * Pow128(k))
  {
    assert Pow128(k + 1) == 128 * Pow128(k);
  }

  // A number is written as its digits, each with the bit that says whether it is the last.
  lemma {:induction false} VarintIsBase128(n: nat)
    ensures IsVarint(VarintBytes(n)) && Base128(VarintBytes(n)) == n
  {
    hide Base128;
    if n < 128 {
      LowestFirst(n, []);
      assert [n] + [] == [n] && Base128([]) == 0 by { NoDigitIsZero(); }
    } else {
      var rest := VarintBytes(n / 128);
      VarintIsBase128(n / 128);
      LowestFirst(n % 128 + 128, rest);
      MoreVarint(n % 128 + 128, rest);
    }
  }

  lemma NoDigitIsZero()
    ensures Base128([]) == 0
  {
  }

  lemma MoreVarint(c: Byte, b: seq<Byte>)
    requires c >= 128 && IsVarint(b)
    ensures IsVarint([c] + b)
  {
    forall k | 0 <= k < |b| ensures ([c] + b)[k] >= 128 {
      assert k > 0 ==> ([c] + b)[k] == b[k - 1];
    }
  }

  // What is read is the number that the bytes up to the first below 128 stand
  // for; it is there exactly if there is such a byte among the first `most`.
  lemma {:induction false} ReadIsBase128(b: seq<Byte>, most: nat)
    ensures var r := ReadVarintIn(b, most);
            && (r.Read? ==> r.size <= most && IsVarint(b[..r.size]) && r.value == Base128(b[..r.size]))
            && (r.Fail? ==> forall k :: 0 <= k < |b| && k < most ==> b[k] >= 128)
  {
    var r := ReadVarintIn(b, most);
    if b != [] && most > 0 {
      if b[0] < 128 {
        LowestFirst(b[0], []);
        assert b[..1] == [b[0]] + [];
      } else {
        ReadIsBase128(b[1..], most - 1);
        if r.Read? {
          var rest := b[1..][..r.size - 1];
          assert b[..r.size] == [b[0]] + rest;
          LowestFirst(b[0], rest);
          MoreVarint(b[0], rest);
        } else {
          forall k | 0 <= k < |b| && k < most ensures b[k] >= 128 {
            assert k > 0 ==> b[k] == b[1..][k - 1];
          }
        }
      }
    }
  }

  // 300, in two bytes
  lemma ThreeHundred()
    ensures VarintBytes(300) == [0xAC, 0x02] && ReadVarint([0xAC, 0x02]) == Read(300, 2)
  {
    assert VarintBytes(2) == [2];
    var b: seq<Byte> := [0xAC, 0x02];
    assert b[1..] == [2] && ReadVarintIn([2], 9) == Read(2, 1);
  }

  // Log2FloorNonZero of a number with its lowest bit set
  function Log2Floor(n: nat): nat {
    if n < 2 then 0 else 1 + Log2Floor(n / 2)
  }

  // VarintSize32 and VarintSize64
  function VarintSize(n: nat): nat {
    (Log2Floor(n) * 9 + 73) / 64
  }

  function Int32Size(v: Int32): nat {
    if v < 0 then MAX_VARINT else VarintSize(v)
  }

  lemma {:induction false} VarintLength(n: nat, k: nat)
    requires k > 0 && n < Pow128(k)
    ensures |VarintBytes(n)| <= k && (k > 1 && n >= Pow128(k - 1) ==> |VarintBytes(n)| == k)
  {
    if n >= 128 {
      VarintLength(n / 128, k - 1);
    }
  }

  lemma OneBit(n: nat)
    ensures Log2Floor(n) == if n < 2 then 0 else 1 + Log2Floor(n / 2)
  {
  }

  lemma FourBits(n: nat)
    ensures n >= 16 ==> Log2Floor(n) == 4 + Log2Floor(n / 16)
    ensures n < 16 ==> Log2Floor(n) < 4
    ensures n < 8 ==> Log2Floor(n) < 3
  {
    hide Log2Floor;
    OneBit(n);
    OneBit(n / 2);
    OneBit(n / 4);
    OneBit(n / 8);
  }

  lemma SevenBits(n: nat)
    ensures n >= 128 ==> Log2Floor(n) == 7 + Log2Floor(n / 128)
    ensures n < 128 ==> Log2Floor(n) < 7
  {
    hide Log2Floor;
    FourBits(n);
    FourBits(n / 16);
    OneBit(n / 16);
    OneBit(n / 32);
    OneBit(n / 64);
  }

  // Seven bits in each byte
  lemma {:induction false} VarintBits(n: nat)
    ensures |VarintBytes(n)| == Log2Floor(n) / 7 + 1
  {
    hide Log2Floor;
    SevenBits(n);
    if n >= 128 {
      VarintBits(n / 128);
    }
  }

  // The division by 64 is as good as the division by 7.
  lemma VarintSizeIsLength(n: nat)
    requires n < TWO_TO_THE_64
    ensures |VarintBytes(n)| == VarintSize(n)
  {
    hide VarintBytes, Log2Floor, Pow128;
    Pow128Ten();
    VarintLength(n, MAX_VARINT);
    VarintBits(n);
  }

  lemma OneByte(n: nat)
    requires n < 128
    ensures VarintBytes(n) == [n]
  {
  }

  // ----- int32 fields

  // A negative number is sent as the 64-bit number with the same low bits.
  function SignExtended(v: Int32): nat {
    if v < 0 then v + TWO_TO_THE_64 else v
  }

  function ToInt32(n: nat): Int32 {
    var low := n % TWO_TO_THE_32;
    if low > INT_MAX then low - TWO_TO_THE_32 else low
  }

  // Two's complement, of 64 bits when sent and of 32 when received
  lemma TwosComplement(v: Int32, n: nat)
    ensures SignExtended(v) < TWO_TO_THE_64 && (SignExtended(v) - v) % TWO_TO_THE_64 == 0
    ensures (n - ToInt32(n)) % TWO_TO_THE_32 == 0
  {
  }

  lemma Int32RoundTrip(v: Int32)
    ensures ToInt32(SignExtended(v)) == v
  {
    if v < 0 {
      assert v + TWO_TO_THE_64 == 0xFFFF_FFFF * TWO_TO_THE_32 + (v + TWO_TO_THE_32);
    }
  }

  lemma Int32SizeIsLength(v: Int32)
    ensures |VarintBytes(SignExtended(v))| == Int32Size(v)
  {
    if v < 0 {
      Pow128Ten();
      assert Pow128(5) == 0x8_0000_0000;
      assert Pow128(9) == 128 * (128 * (128 * (128 * Pow128(5))));
      VarintLength(v + TWO_TO_THE_64, MAX_VARINT);
    } else {
      VarintSizeIsLength(v);
    }
  }

  // ----- Fields

  datatype Field =
    | Varint(number: nat, value: nat)
    | Fixed64(number: nat, bytes: seq<Byte>)
    | Bytes(number: nat, bytes: seq<Byte>)
    | Group(number: nat, fields: seq<Field>)
    | Fixed32(number: nat, bytes: seq<Byte>)

  // The wire type of a field
  function WireType(f: Field): nat {
    match f
    case Varint(_, _) => 0
    case Fixed64(_, _) => 1
    case Bytes(_, _) => 2
    case Group(_, _) => 3
    case Fixed32(_, _) => 5
  }

  const END_GROUP: nat := 4

  function Tag(f: Field): nat {
    8 * f.number + WireType(f)
  }

  function Encode(f: Field): (b: seq<Byte>)
    ensures b != []
  {
    VarintBytes(Tag(f)) + Payload(f)
  }

  // What stands behind the tag of a field
  function Payload(f: Field): seq<Byte>
    decreases f, 0
  {
    match f
    case Varint(_, n) => VarintBytes(n)
    case Fixed64(_, bytes) => bytes
    case Bytes(_, bytes) => VarintBytes(|bytes|) + bytes
    case Group(number, fields) => EncodeAll(fields) + VarintBytes(8 * number + END_GROUP)
    case Fixed32(_, bytes) => bytes
  }

  function EncodeAll(fs: seq<Field>): seq<Byte> {
    if fs == [] then [] else Encode(fs[0]) + EncodeAll(fs[1..])
  }

  predicate ValidField(f: Field) {
    && 1 <= f.number < 0x2000_0000
    && match f {
         case Varint(_, n) => n < TWO_TO_THE_64
         case Fixed64(_, bytes) => |bytes| == 8
         case Bytes(_, bytes) => |bytes| <= INT_MAX
         case Group(_, fields) => forall i :: 0 <= i < |fields| ==> ValidField(fields[i])
         case Fixed32(_, bytes) => |bytes| == 4
       }
  }

  predicate ValidFields(fs: seq<Field>) {
    forall i :: 0 <= i < |fs| ==> ValidField(fs[i])
  }

  // Groups are nested at most `depth` deep in a field.
  predicate Within(f: Field, depth: nat) {
    f.Group? ==> depth > 0 && AllWithin(f.fields, depth - 1)
  }

  predicate AllWithin(fs: seq<Field>, depth: nat) {
    forall i :: 0 <= i < |fs| ==> Within(fs[i], depth)
  }

  function ReadBytes(b: seq<Byte>, n: nat): (r: Read<seq<Byte>>)
    ensures r.Read? ==> r.size == n <= |b|
  {
    if n <= |b| then Read(b[..n], n) else Fail
  }

  // A length in 32 bits, and as many bytes as it says
  function ReadDelimited(b: seq<Byte>): (r: Read<seq<Byte>>)
    ensures r.Read? ==> 1 <= r.size <= |b| && |r.value| < r.size && |r.value| <= INT_MAX
  {
    match ReadVarint(b)
    case Fail => Fail
    case Read(n, size) =>
      var length := n % TWO_TO_THE_32;
      if length > INT_MAX then Fail
      else
        match ReadBytes(b[size..], length)
        case Fail => Fail
        case Read(bytes, _) => Read(bytes, size + length)
  }

  // The length of a sub-message, and as many bytes as it says, or as there are
  function ReadClipped(b: seq<Byte>): (r: Read<seq<Byte>>)
    ensures r.Read? ==> 1 <= r.size <= |b| && |r.value| < r.size && |r.value| <= INT_MAX
  {
    match ReadVarint(b)
    case Fail => Fail
    case Read(n, size) =>
      var rest := b[size..];
      if n > INT_MAX then Fail
      else if n <= |rest| then Read(rest[..n], size + n)
      else Read(rest, |b|)
  }

  // What stands behind a tag, where groups may be nested `depth` deep.  Field
  // number 0 is not read, nor the end of a group that has not begun.
  function ReadPayload(tag: nat, b: seq<Byte>, depth: nat): (r: Read<Field>)
    ensures r.Read? ==> r.size <= |b|
    decreases |b|, 1
  {
    var number := tag / 8;
    if number == 0 then Fail
    else if tag % 8 == 0 then
      match ReadVarint(b) { case Fail => Fail case Read(n, size) => Read(Varint(number, n), size) }
    else if tag % 8 == 1 then
      match ReadBytes(b, 8) { case Fail => Fail case Read(bytes, size) => Read(Fixed64(number, bytes), size) }
    else if tag % 8 == 2 then
      match ReadDelimited(b) { case Fail => Fail case Read(bytes, size) => Read(Bytes(number, bytes), size) }
    else if tag % 8 == 3 && depth > 0 then
      match ReadGroup(number, b, depth - 1) { case Fail => Fail case Read(fs, size) => Read(Group(number, fs), size) }
    else if tag % 8 == 5 then
      match ReadBytes(b, 4) { case Fail => Fail case Read(bytes, size) => Read(Fixed32(number, bytes), size) }
    else Fail
  }

  // The fields of a group, up to the tag that ends it
  function ReadGroup(number: nat, b: seq<Byte>, depth: nat): (r: Read<seq<Field>>)
    ensures r.Read? ==> 1 <= r.size <= |b|
    decreases |b|, 0
  {
    match ReadTag(b)
    case Fail => Fail
    case Read(tag, size) =>
      if tag == 8 * number + END_GROUP then Read([], size)
      else
        match ReadPayload(tag, b[size..], depth)
        case Fail => Fail
        case Read(f, n) => After([f], size + n, ReadGroup(number, b[size + n..], depth))
  }

  // A group goes on after some of its fields.
  function After(fs: seq<Field>, size: nat, more: Read<seq<Field>>): Read<seq<Field>> {
    match more
    case Fail => Fail
    case Read(gs, n) => Read(fs + gs, size + n)
  }

  // One round of reading a group: a tag, and what stands behind it
  lemma GroupRound(number: nat, b: seq<Byte>, depth: nat)
    ensures var t, g := ReadTag(b), ReadGroup(number, b, depth);
            if t.Fail? then g.Fail?
            else if t.value == 8 * number + END_GROUP then g == Read([], t.size)
            else
              var p := ReadPayload(t.value, b[t.size..], depth);
              g ==
              if p.Fail? then Fail else After([p.value], t.size + p.size, ReadGroup(number, b[t.size + p.size..], depth))
  {
    hide ReadTag, ReadPayload, After;
  }

  function ReadTag(b: seq<Byte>): (r: Read<nat>)
    ensures r.Read? ==> 1 <= r.size <= |b|
  {
    match ReadVarint(b)
    case Fail => Fail
    case Read(n, size) => Read(n % TWO_TO_THE_32, size)
  }

  // A field of a message whose sub-messages have the number `sub`, if it is not 0
  function ReadField(b: seq<Byte>, depth: nat, sub: nat): (r: Read<Field>)
    ensures r.Read? ==> 1 <= r.size <= |b|
  {
    match ReadTag(b)
    case Fail => Fail
    case Read(tag, size) =>
      if sub > 0 && tag == 8 * sub + 2 then
        match ReadClipped(b[size..]) { case Fail => Fail case Read(bytes, n) => Read(Bytes(sub, bytes), size + n) }
      else
        match ReadPayload(tag, b[size..], depth) { case Fail => Fail case Read(f, n) => Read(f, size + n) }
  }

  // ----- What follows does not matter

  lemma TagPrefix(b: seq<Byte>, rest: seq<Byte>)
    requires ReadTag(b).Read?
    ensures ReadTag(b + rest) == ReadTag(b) && (b + rest)[ReadTag(b).size..] == b[ReadTag(b).size..] + rest
  {
    VarintPrefix(b, rest, MAX_VARINT);
  }

  lemma DelimitedPrefix(b: seq<Byte>, rest: seq<Byte>)
    requires ReadDelimited(b).Read?
    ensures ReadDelimited(b + rest) == ReadDelimited(b)
  {
    hide ReadVarintIn;
    VarintPrefix(b, rest, MAX_VARINT);
    var n := ReadVarint(b);
    assert (b + rest)[n.size..] == b[n.size..] + rest;
    var length := n.value % TWO_TO_THE_32;
    assert (b[n.size..] + rest)[..length] == b[n.size..][..length];
  }

  lemma {:induction false} PayloadPrefix(tag: nat, b: seq<Byte>, rest: seq<Byte>, depth: nat)
    requires ReadPayload(tag, b, depth).Read?
    ensures ReadPayload(tag, b + rest, depth) == ReadPayload(tag, b, depth)
    decreases |b|, 1
  {
    hide ReadDelimited, ReadVarintIn, ReadGroup;
    if tag % 8 == 0 {
      VarintPrefix(b, rest, MAX_VARINT);
    } else if tag % 8 == 1 {
      assert (b + rest)[..8] == b[..8];
    } else if tag % 8 == 2 {
      DelimitedPrefix(b, rest);
    } else if tag % 8 == 3 {
      GroupPrefix(tag / 8, b, rest, depth - 1);
    } else {
      assert (b + rest)[..4] == b[..4];
    }
  }

  lemma {:induction false} GroupPrefix(number: nat, b: seq<Byte>, rest: seq<Byte>, depth: nat)
    requires ReadGroup(number, b, depth).Read?
    ensures ReadGroup(number, b + rest, depth) == ReadGroup(number, b, depth)
    decreases |b|, 0
  {
    hide ReadTag, ReadPayload, ReadGroup;
    GroupRound(number, b, depth);
    GroupRound(number, b + rest, depth);
    TagPrefix(b, rest);
    var t := ReadTag(b);
    if t.value != 8 * number + END_GROUP {
      PayloadPrefix(t.value, b[t.size..], rest, depth);
      var n := ReadPayload(t.value, b[t.size..], depth).size;
      GroupPrefix(number, b[t.size + n..], rest, depth);
      assert (b + rest)[t.size + n..] == b[t.size + n..] + rest;
    }
  }

  // A field that does not end where its bytes end for want of more
  predicate IsWhole(b: seq<Byte>, depth: nat, sub: nat) {
    match ReadTag(b)
    case Fail => false
    case Read(tag, size) =>
      if sub > 0 && tag == 8 * sub + 2 then ReadDelimited(b[size..]).Read? && ReadClipped(b[size..]).Read?
      else ReadPayload(tag, b[size..], depth).Read?
  }

  lemma ClippedPrefix(b: seq<Byte>, rest: seq<Byte>)
    requires ReadDelimited(b).Read? && ReadClipped(b).Read?
    ensures ReadClipped(b + rest) == ReadClipped(b) == ReadDelimited(b)
  {
    hide ReadVarintIn;
    VarintPrefix(b, rest, MAX_VARINT);
    var n := ReadVarint(b);
    assert (b + rest)[n.size..] == b[n.size..] + rest;
    assert (b[n.size..] + rest)[..n.value] == b[n.size..][..n.value];
  }

  lemma FieldPrefix(b: seq<Byte>, rest: seq<Byte>, depth: nat, sub: nat)
    requires IsWhole(b, depth, sub)
    ensures ReadField(b, depth, sub).Read? && ReadField(b + rest, depth, sub) == ReadField(b, depth, sub)
  {
    hide ReadPayload, ReadTag, ReadClipped, ReadDelimited;
    TagPrefix(b, rest);
    var t := ReadTag(b);
    if sub > 0 && t.value == 8 * sub + 2 {
      ClippedPrefix(b[t.size..], rest);
    } else {
      PayloadPrefix(t.value, b[t.size..], rest, depth);
    }
  }

  // ----- What is written is read back

  lemma TagRoundTrip(tag: nat, rest: seq<Byte>)
    requires tag < TWO_TO_THE_32
    ensures var b := VarintBytes(tag);
            ReadTag(b + rest) == Read(tag, |b|) && (b + rest)[|b|..] == rest
  {
    hide VarintBytes, ReadVarint;
    ReadWrittenVarint(tag, rest);
  }

  lemma DelimitedRoundTrip(bytes: seq<Byte>, rest: seq<Byte>)
    requires |bytes| <= INT_MAX
    ensures var b := VarintBytes(|bytes|) + bytes;
            ReadDelimited(b + rest) == Read(bytes, |b|) && ReadClipped(b + rest) == Read(bytes, |b|)
  {
    hide VarintBytes, ReadVarint;
    var size := VarintBytes(|bytes|);
    assert size + bytes + rest == size + (bytes + rest);
    ReadWrittenVarint(|bytes|, bytes + rest);
    assert (size + bytes + rest)[|size|..] == bytes + rest;
    assert (bytes + rest)[..|bytes|] == bytes;
  }

  lemma {:induction false} PayloadRoundTrip(f: Field, rest: seq<Byte>, depth: nat)
    requires ValidField(f)
    ensures ReadPayload(Tag(f), Payload(f) + rest, depth) == if Within(f, depth) then Read(f, |Payload(f)|) else Fail
    decreases f, 0
  {
    hide VarintBytes, ReadVarint, ReadDelimited, ReadClipped, ReadGroup, EncodeAll;
    match f {
      case Varint(_, n) => ReadWrittenVarint(n, rest);
      case Fixed64(_, bytes) => assert (bytes + rest)[..8] == bytes;
      case Bytes(_, bytes) => DelimitedRoundTrip(bytes, rest);
      case Group(number, fields) =>
        if depth > 0 {
          GroupRoundTrip(number, fields, rest, depth - 1);
        }
      case Fixed32(_, bytes) => assert (bytes + rest)[..4] == bytes;
    }
  }

  lemma TagIsNoEnd(f: Field, number: nat)
    ensures Tag(f) != 8 * number + END_GROUP
  {
    assert Tag(f) % 8 == WireType(f);
  }

  lemma WithinMore(fs: seq<Field>, depth: nat)
    requires fs != []
    ensures AllWithin(fs, depth) <==> Within(fs[0], depth) && AllWithin(fs[1..], depth)
  {
    hide Within;
    if AllWithin(fs[1..], depth) && Within(fs[0], depth) {
      forall i | 0 <= i < |fs| ensures Within(fs[i], depth) {
        assert i > 0 ==> fs[i] == fs[1..][i - 1];
      }
    }
  }

  // The fields of a group are read back exactly if none is nested too deep.
  lemma {:induction false} GroupRoundTrip(number: nat, fs: seq<Field>, rest: seq<Byte>, depth: nat)
    requires ValidFields(fs) && 1 <= number < 0x2000_0000
    ensures var b := EncodeAll(fs) + VarintBytes(8 * number + END_GROUP);
            ReadGroup(number, b + rest, depth) == if AllWithin(fs, depth) then Read(fs, |b|) else Fail
    decreases fs
  {
    hide VarintBytes, ReadTag, ReadPayload, Payload, ReadGroup, Tag, AllWithin, Within;
    var end := VarintBytes(8 * number + END_GROUP);
    if fs == [] {
      GroupEnds(number, rest, depth);
      assert EncodeAll(fs) + end == end;
      assert AllWithin(fs, depth) by { NothingIsWithin(depth); }
    } else {
      var f, tail := fs[0], EncodeAll(fs[1..]) + end;
      var tag, body := VarintBytes(Tag(f)), Payload(f);
      var b := tag + (body + (tail + rest));
      assert EncodeAll(fs) + end + rest == b;
      TagFits(f);
      TagIsNoEnd(f, number);
      TagRoundTrip(Tag(f), body + (tail + rest));
      PayloadRoundTrip(f, tail + rest, depth);
      GroupRoundTrip(number, fs[1..], rest, depth);
      assert b[|tag| + |body|..] == tail + rest;
      GroupRound(number, b, depth);
      WithinMore(fs, depth);
      assert [f] + fs[1..] == fs;
    }
  }

  lemma NothingIsWithin(depth: nat)
    ensures AllWithin([], depth)
  {
  }

  lemma TagFits(f: Field)
    requires ValidField(f)
    ensures Tag(f) < TWO_TO_THE_32
  {
  }

  lemma GroupEnds(number: nat, rest: seq<Byte>, depth: nat)
    requires 1 <= number < 0x2000_0000
    ensures var end := VarintBytes(8 * number + END_GROUP); ReadGroup(number, end + rest, depth) == Read([], |end|)
  {
    hide VarintBytes, ReadTag, ReadPayload;
    TagRoundTrip(8 * number + END_GROUP, rest);
  }

  // A written field is read back exactly if groups are not nested too deep in it.
  lemma FieldRoundTrip(f: Field, rest: seq<Byte>, depth: nat, sub: nat)
    requires ValidField(f)
    ensures ReadField(Encode(f) + rest, depth, sub) == if Within(f, depth) then Read(f, |Encode(f)|) else Fail
  {
    hide VarintBytes, ReadTag, ReadPayload, ReadDelimited, ReadClipped, Payload;
    var tag, body := VarintBytes(Tag(f)), Payload(f);
    assert Encode(f) + rest == tag + (body + rest);
    TagFits(f);
    TagRoundTrip(Tag(f), body + rest);
    if sub > 0 && Tag(f) == 8 * sub + 2 {
      BytesOf(f, sub);
      DelimitedRoundTrip(f.bytes, rest);
    } else {
      PayloadRoundTrip(f, rest, depth);
    }
  }

  lemma BytesOf(f: Field, number: nat)
    requires Tag(f) == 8 * number + 2
    ensures f.Bytes? && f.number == number && Payload(f) == VarintBytes(|f.bytes|) + f.bytes
  {
    assert Tag(f) % 8 == WireType(f);
  }

  // ----- What is read is a field that can be written

  lemma {:induction false} PayloadIsValid(tag: nat, b: seq<Byte>, depth: nat)
    requires ReadPayload(tag, b, depth).Read? && tag < TWO_TO_THE_32
    ensures ValidField(ReadPayload(tag, b, depth).value) && Within(ReadPayload(tag, b, depth).value, depth)
    decreases |b|, 1
  {
    hide ReadVarint, ReadDelimited, ReadGroup, AllWithin;
    if tag % 8 == 3 {
      GroupIsValid(tag / 8, b, depth - 1);
    }
  }

  lemma {:induction false} GroupIsValid(number: nat, b: seq<Byte>, depth: nat)
    requires ReadGroup(number, b, depth).Read?
    ensures ValidFields(ReadGroup(number, b, depth).value) && AllWithin(ReadGroup(number, b, depth).value, depth)
    decreases |b|, 0
  {
    hide ReadVarint, ReadPayload, ValidField, Within;
    var t := ReadTag(b);
    if t.value != 8 * number + END_GROUP {
      PayloadIsValid(t.value, b[t.size..], depth);
      GroupIsValid(number, b[t.size + ReadPayload(t.value, b[t.size..], depth).size..], depth);
    }
  }

  lemma ReadIsValid(b: seq<Byte>, depth: nat, sub: nat)
    requires ReadField(b, depth, sub).Read?
    ensures ValidField(ReadField(b, depth, sub).value) && Within(ReadField(b, depth, sub).value, depth)
  {
    hide ReadVarint, ReadPayload, ReadClipped;
    var t := ReadTag(b);
    if !(sub > 0 && t.value == 8 * sub + 2) {
      PayloadIsValid(t.value, b[t.size..], depth);
    }
  }

  // ----- Messages

  // What a type of message makes of a field, where sub-messages may be nested
  // so deep, and the number of its sub-messages
  datatype Kind<!M> = Kind(apply: (M, Field, nat) -> Option<M>, sub: nat)

  // Merges fields into a message, one after the other.
  function Fold<M>(k: Kind<M>, m: M, fs: seq<Field>, depth: nat): Option<M> {
    if fs == [] then Some(m)
    else
      match k.apply(m, fs[0], depth)
      case None => None
      case Some(next) => Fold(k, next, fs[1..], depth)
  }

  function Parse<M>(k: Kind<M>, m: M, b: seq<Byte>, depth: nat): Option<M>
    decreases |b|
  {
    if b == [] then Some(m)
    else
      match ReadField(b, depth, k.sub)
      case Fail => None
      case Read(f, size) =>
        match k.apply(m, f, depth)
        case None => None
        case Some(next) => Parse(k, next, b[size..], depth)
  }

  // Parsing encoded fields merges them in order, exactly if none is nested too deep.
  lemma {:induction false} ParseEncoded<M>(k: Kind<M>, m: M, fs: seq<Field>, depth: nat)
    requires ValidFields(fs)
    ensures Parse(k, m, EncodeAll(fs), depth) == if AllWithin(fs, depth) then Fold(k, m, fs, depth) else None
    decreases |fs|
  {
    hide Encode, ReadField, ValidField, Within, AllWithin;
    if fs == [] {
      NothingIsWithin(depth);
    } else {
      FieldRoundTrip(fs[0], EncodeAll(fs[1..]), depth, k.sub);
      assert EncodeAll(fs)[|Encode(fs[0])|..] == EncodeAll(fs[1..]);
      WithinMore(fs, depth);
      var next := k.apply(m, fs[0], depth);
      if next.Some? {
        ParseEncoded(k, next.value, fs[1..], depth);
      }
    }
  }

  // No field ends for want of more.
  predicate Whole(b: seq<Byte>, depth: nat, sub: nat)
    decreases |b|
  {
    b == [] ||
    (IsWhole(b, depth, sub) && (FieldPrefix(b, [], depth, sub); Whole(b[ReadField(b, depth, sub).size..], depth, sub)))
  }

  // Concatenation: parsing two encodings in a row merges the second into the
  // result of the first, whatever wrote them, if the first is whole.
  lemma {:induction false} ParseConcat<M>(k: Kind<M>, m: M, a: seq<Byte>, b: seq<Byte>, depth: nat)
    requires Parse(k, m, a, depth).Some? && Whole(a, depth, k.sub)
    ensures Parse(k, m, a + b, depth) == Parse(k, Parse(k, m, a, depth).value, b, depth)
    decreases |a|
  {
    hide ReadField, IsWhole;
    if a == [] {
      assert a + b == b;
    } else {
      FieldPrefix(a, b, depth, k.sub);
      var r := ReadField(a, depth, k.sub);
      ParseConcat(k, k.apply(m, r.value, depth).value, a[r.size..], b, depth);
      assert (a + b)[r.size..] == a[r.size..] + b;
    }
  }
}
