// The Base64 encoder, proved against a decoder for section 4 of RFC 4648.
module Base64 {
  type Byte = x: int | 0 <= x < 256
  type Sextet = x: int | 0 <= x < 64

  datatype Option<T> = None | Some(value: T)

  const MAX_INT: nat := 0x7FFF_FFFF
  const SMALL_CHUNK: nat := 256
  const PAD := '='
  const NUL := '\0'
  const ENCODING := "ABCDEFGHIJKLMNOPQRSTUVWXYZabcdefghijklmnopqrstuvwxyz0123456789+/"

  // ----- The decoder

  // Table 1 of RFC 4648, read from right to left
  function Digit(c: char): Option<Sextet> {
    if 'A' <= c <= 'Z' then Some(c as int - 'A' as int)
    else if 'a' <= c <= 'z' then Some(c as int - 'a' as int + 26)
    else if '0' <= c <= '9' then Some(c as int - '0' as int + 52)
    else if c == '+' then Some(62)
    else if c == '/' then Some(63)
    else None
  }

  // One group of four characters: the last one may be padded, and then its
  // spare bits are zero.
  function DecodeGroup(c0: char, c1: char, c2: char, c3: char, last: bool): Option<seq<Byte>> {
    match (Digit(c0), Digit(c1), Digit(c2), Digit(c3))
    case (Some(a), Some(b), Some(c), Some(d)) => Some([a * 4 + b / 16, b % 16 * 16 + c / 4, c % 4 * 64 + d])
    case (Some(a), Some(b), Some(c), None) =>
      if last && c3 == PAD && c % 4 == 0 then Some([a * 4 + b / 16, b % 16 * 16 + c / 4]) else None
    case (Some(a), Some(b), None, None) =>
      if last && c2 == PAD && c3 == PAD && b % 16 == 0 then Some([a * 4 + b / 16]) else None
    case _ => None
  }

  function Decode(t: string): Option<seq<Byte>> {
    if t == [] then Some([])
    else if |t| < 4 then None
    else
      match DecodeGroup(t[0], t[1], t[2], t[3], |t| == 4)
      case None => None
      case Some(bytes) =>
        match Decode(t[4..])
        case None => None
        case Some(rest) => Some(bytes + rest)
  }

  // ----- What the encoder writes

  function Char(d: Sextet): char {
    ENCODING[d]
  }

  // Bytes side by side, as the shifts in v put them
  function Three(b0: Byte, b1: Byte, b2: Byte): (v: int)
    ensures 0 <= v < 0x100_0000
  {
    b0 as int * 65536 + b1 as int * 256 + b2
  }

  function Two(b0: Byte, b1: Byte): (v: int)
    ensures 0 <= v < 0x1_0000
  {
    b0 as int * 256 + b1
  }

  function Whole(b0: Byte, b1: Byte, b2: Byte): (w: string)
    ensures |w| == 4
  {
    var v := Three(b0, b1, b2);
    [Char(v / 262144), Char(v / 4096 % 64), Char(v / 64 % 64), Char(v % 64)]
  }

  // The padded last group, or nothing
  function Rest(s: seq<Byte>): string
    requires |s| < 3
  {
    if |s| == 1 then [Char(s[0] / 4), Char(s[0] % 4 * 16), PAD, PAD]
    else if |s| == 2 then
      var v := Two(s[0], s[1]);
      [Char(v / 1024), Char(v / 16 % 64), Char(v % 16 * 4), PAD]
    else []
  }

  function Encode(s: seq<Byte>): string {
    if |s| < 3 then Rest(s) else Whole(s[0], s[1], s[2]) + Encode(s[3..])
  }

  // ----- Each undoes the other

  lemma LettersAreTable()
    ensures "ABCDEFGHIJKLMNOPQRSTUVWXYZabcdefghijklmnopqrstuvwxyz" ==
            "ABCDEFGHIJKLMNOPQRSTUVWXYZ" + "abcdefghijklmnopqrstuvwxyz"
  {
  }

  lemma EncodingIsTable()
    ensures ENCODING == "ABCDEFGHIJKLMNOPQRSTUVWXYZabcdefghijklmnopqrstuvwxyz" + "0123456789" + "+/"
  {
  }

  // The table, segment by segment
  lemma Letters(d: Sextet)
    ensures d < 26 ==> "ABCDEFGHIJKLMNOPQRSTUVWXYZ"[d] == ('A' as int + d) as char
    ensures 26 <= d < 52 ==> "abcdefghijklmnopqrstuvwxyz"[d - 26] == ('a' as int + d - 26) as char
  {
  }

  lemma Digits(d: Sextet)
    ensures 52 <= d < 62 ==> "0123456789"[d - 52] == ('0' as int + d - 52) as char
  {
  }

  lemma CharIs(d: Sextet)
    ensures Char(d) ==
            if d < 26 then ('A' as int + d) as char
            else if d < 52 then ('a' as int + d - 26) as char
            else if d < 62 then ('0' as int + d - 52) as char
            else if d == 62 then '+' else '/'
  {
    hide ENCODING;
    EncodingIsTable();
    LettersAreTable();
    Letters(d);
    Digits(d);
  }

  lemma CharDigit(d: Sextet)
    ensures Digit(Char(d)) == Some(d)
  {
    hide Char;
    CharIs(d);
  }

  lemma DigitChar(c: char)
    requires Digit(c).Some?
    ensures Char(Digit(c).value) == c
  {
    hide Char;
    CharDigit(Digit(c).value);
  }

  lemma ShiftThree(b0: Byte, b1: Byte, b2: Byte, v: int)
    requires v == Three(b0, b1, b2)
    ensures v / 262144 == b0 / 4 && v / 4096 % 64 == b0 % 4 * 16 + b1 / 16
    ensures v / 64 % 64 == b1 % 16 * 4 + b2 / 64 && v % 64 == b2 % 64
  {
    ShiftBy12(b0, b1, b2, v);
    ShiftBy6(b0, b1, b2, v);
  }

  lemma Split(q: nat, r: Sextet)
    ensures (64 * q + r) / 64 == q && (64 * q + r) % 64 == r
  {
  }

  lemma ShiftBy12(b0: Byte, b1: Byte, b2: Byte, v: int)
    requires v == Three(b0, b1, b2)
    ensures v / 262144 == b0 / 4 && v / 4096 % 64 == b0 % 4 * 16 + b1 / 16
  {
    assert v / 4096 == b0 * 16 + b1 / 16;
    Split(b0 / 4, b0 % 4 * 16 + b1 / 16);
  }

  lemma ShiftBy6(b0: Byte, b1: Byte, b2: Byte, v: int)
    requires v == Three(b0, b1, b2)
    ensures v / 64 % 64 == b1 % 16 * 4 + b2 / 64 && v % 64 == b2 % 64
  {
    var q: nat := b0 as int * 16 + b1 / 16;
    var d: Sextet := b1 % 16 * 4 + b2 / 64;
    assert v == 64 * (64 * q + d) + b2 % 64;
    Split(64 * q + d, b2 % 64);
    Split(q, d);
  }

  lemma BytesAgain(b0: Byte, b1: Byte, b2: Byte)
    ensures var a, b, c, d := b0 / 4, b0 % 4 * 16 + b1 / 16, b1 % 16 * 4 + b2 / 64, b2 % 64;
            b0 == a * 4 + b / 16 && b1 == b % 16 * 16 + c / 4 && b2 == c % 4 * 64 + d
  {
  }

  lemma ShiftTwo(b0: Byte, b1: Byte, v: int)
    requires v == Two(b0, b1)
    ensures v / 1024 == b0 / 4 && v / 16 % 64 == b0 % 4 * 16 + b1 / 16 && v % 16 == b1 % 16
  {
    assert v / 16 == b0 * 16 + b1 / 16;
  }

  lemma DigitsDecode(a: Sextet, b: Sextet, c: Sextet, d: Sextet, last: bool)
    ensures DecodeGroup(Char(a), Char(b), Char(c), Char(d), last) == Some([a * 4 + b / 16, b % 16 * 16 + c / 4, c % 4 * 64 + d])
    ensures c % 4 == 0 ==> DecodeGroup(Char(a), Char(b), Char(c), PAD, true) == Some([a * 4 + b / 16, b % 16 * 16 + c / 4])
    ensures b % 16 == 0 ==> DecodeGroup(Char(a), Char(b), PAD, PAD, true) == Some([a * 4 + b / 16])
  {
    hide Char, Digit;
    PadIsNoDigit();
    CharDigit(a);
    CharDigit(b);
    CharDigit(c);
    CharDigit(d);
  }

  lemma WholeDecodes(b0: Byte, b1: Byte, b2: Byte, last: bool)
    ensures var w := Whole(b0, b1, b2); DecodeGroup(w[0], w[1], w[2], w[3], last) == Some([b0, b1, b2])
  {
    hide Char, DecodeGroup;
    ShiftThree(b0, b1, b2, Three(b0, b1, b2));
    assert Whole(b0, b1, b2) == [Char(b0 / 4), Char(b0 % 4 * 16 + b1 / 16), Char(b1 % 16 * 4 + b2 / 64), Char(b2 % 64)];
    BytesAgain(b0, b1, b2);
    DigitsDecode(b0 / 4, b0 % 4 * 16 + b1 / 16, b1 % 16 * 4 + b2 / 64, b2 % 64, last);
  }

  lemma OneDecodes(s: seq<Byte>)
    requires |s| == 1
    ensures |Rest(s)| == 4
    ensures var w := Rest(s); DecodeGroup(w[0], w[1], w[2], w[3], true) == Some(s)
  {
    hide Char, DecodeGroup;
    DigitsDecode(s[0] / 4, s[0] % 4 * 16, 0, 0, true);
    assert s == [s[0]];
  }

  lemma TwoDecode(s: seq<Byte>)
    requires |s| == 2
    ensures |Rest(s)| == 4
    ensures var w := Rest(s); DecodeGroup(w[0], w[1], w[2], w[3], true) == Some(s)
  {
    hide Char, DecodeGroup;
    ShiftTwo(s[0], s[1], Two(s[0], s[1]));
    DigitsDecode(s[0] / 4, s[0] % 4 * 16 + s[1] / 16, s[1] % 16 * 4, 0, true);
    assert s == [s[0], s[1]];
  }

  lemma RestDecodes(s: seq<Byte>)
    requires |s| == 1 || |s| == 2
    ensures |Rest(s)| == 4
    ensures var w := Rest(s); DecodeGroup(w[0], w[1], w[2], w[3], true) == Some(s)
  {
    hide Rest, DecodeGroup;
    if |s| == 1 {
      OneDecodes(s);
    } else {
      TwoDecode(s);
    }
  }

  lemma PadIsNoDigit()
    ensures Digit(PAD).None?
  {
  }

  lemma {:induction false} EncodedLength(s: seq<Byte>)
    ensures |Encode(s)| == (|s| + 2) / 3 * 4
  {
    hide Char, Whole;
    if |s| >= 3 {
      EncodedLength(s[3..]);
      assert (|s| + 2) / 3 == (|s| - 3 + 2) / 3 + 1;
    }
  }

  // Decoding what was encoded gives the bytes back.
  lemma {:induction false} EncodeDecode(s: seq<Byte>)
    ensures Decode(Encode(s)) == Some(s)
  {
    hide Char, Digit, DecodeGroup, Whole;
    if |s| >= 3 {
      var w, t := Whole(s[0], s[1], s[2]), Encode(s[3..]);
      WholeDecodes(s[0], s[1], s[2], |t| == 0);
      EncodeDecode(s[3..]);
      assert (w + t)[4..] == t;
      assert s == [s[0], s[1], s[2]] + s[3..];
    } else if s != [] {
      RestDecodes(s);
      assert Encode(s)[4..] == [];
      assert s + [] == s;
    }
  }

  lemma EncodeIsInjective(s: seq<Byte>, s': seq<Byte>)
    requires Encode(s) == Encode(s')
    ensures s == s'
  {
    EncodeDecode(s);
    EncodeDecode(s');
  }

  // Six bits at a time, or eight: the same 24 bits
  lemma Regroup(a: Sextet, b: Sextet, c: Sextet, d: Sextet)
    ensures var b0, b1, b2 := a * 4 + b / 16, b % 16 * 16 + c / 4, c % 4 * 64 + d;
            && b0 / 4 == a && b0 % 4 * 16 + b1 / 16 == b && b1 % 16 * 4 + b2 / 64 == c && b2 % 64 == d
            && (c % 4 == 0 ==> b1 % 16 * 4 == c) && (b % 16 == 0 ==> b0 % 4 * 16 == b)
  {
  }

  lemma GroupEncodes(c0: char, c1: char, c2: char, c3: char, last: bool)
    requires DecodeGroup(c0, c1, c2, c3, last).Some?
    ensures var s := DecodeGroup(c0, c1, c2, c3, last).value;
            && (|s| == 3 || (last && 1 <= |s| <= 2))
            && (if |s| == 3 then Whole(s[0], s[1], s[2]) else Rest(s)) == [c0, c1, c2, c3]
  {
    hide Char, Digit;
    var a, b := Digit(c0).value, Digit(c1).value;
    var c := if Digit(c2).Some? then Digit(c2).value else 0;
    var d := if Digit(c3).Some? then Digit(c3).value else 0;
    DigitChar(c0);
    DigitChar(c1);
    Regroup(a, b, c, d);
    var b0: int, b1: int, b2: int := a as int * 4 + b / 16, b % 16 * 16 + c / 4, c % 4 * 64 + d;
    if Digit(c2).Some? {
      DigitChar(c2);
      if Digit(c3).Some? {
        DigitChar(c3);
        ShiftThree(b0, b1, b2, Three(b0, b1, b2));
      } else {
        ShiftTwo(b0, b1, Two(b0, b1));
      }
    }
  }

  // The only text that decodes to some bytes is what the encoder writes for them.
  lemma {:induction false} DecodeEncode(t: string)
    requires Decode(t).Some?
    ensures Encode(Decode(t).value) == t
  {
    hide Char, Digit, DecodeGroup, Whole;
    if t != [] {
      GroupEncodes(t[0], t[1], t[2], t[3], |t| == 4);
      DecodeEncode(t[4..]);
      var s, rest := DecodeGroup(t[0], t[1], t[2], t[3], |t| == 4).value, Decode(t[4..]).value;
      assert t == [t[0], t[1], t[2], t[3]] + t[4..];
      if |s| == 3 {
        assert (s + rest)[3..] == rest;
      } else {
        assert t[4..] == [] && s + rest == s;
      }
    }
  }

  predicate IsPadded(n: nat, size: nat, k: nat) {
    (n % 3 == 1 && k >= size - 2) || (n % 3 == 2 && k == size - 1)
  }

  lemma PaddedLater(n: nat, size: nat, k: nat)
    requires n >= 3 && k >= 4 && size >= 4
    ensures IsPadded(n, size, k) <==> IsPadded(n - 3, size - 4, k - 4)
  {
  }

  // Padding stands in the last group only, and only behind its first two characters.
  lemma {:induction false} PaddingIsLast(s: seq<Byte>, k: nat)
    requires k < |Encode(s)|
    ensures Encode(s)[k] == PAD <==> IsPadded(|s|, |Encode(s)|, k)
  {
    hide Char, Whole, Rest, IsPadded;
    EncodeFrom(s, 0);
    assert s[0..] == s;
    if |s| < 3 {
      RestPadding(s, k);
    } else {
      var w, t := Whole(s[0], s[1], s[2]), Encode(s[3..]);
      if k >= 4 {
        PaddingIsLast(s[3..], k - 4);
        PaddedLater(|s|, |Encode(s)|, k);
      } else {
        WholeHasNoPadding(s[0], s[1], s[2], k);
        EncodedLength(s[3..]);
        NotPaddedEarly(|s|, |Encode(s)|, k);
      }
    }
  }

  lemma NotPaddedEarly(n: nat, size: nat, k: nat)
    requires k < 4 && n >= 3 && size == 4 + (n - 3 + 2) / 3 * 4
    ensures !IsPadded(n, size, k)
  {
  }

  lemma RestPadding(s: seq<Byte>, k: nat)
    requires |s| < 3 && k < |Rest(s)|
    ensures |Rest(s)| == 4 && s != [] && (Rest(s)[k] == PAD <==> IsPadded(|s|, 4, k))
  {
    hide Char;
    CharsAreNoPad();
  }

  lemma WholeHasNoPadding(b0: Byte, b1: Byte, b2: Byte, k: nat)
    requires k < 4
    ensures Whole(b0, b1, b2)[k] != PAD
  {
    hide Char;
    CharsAreNoPad();
  }

  lemma CharsAreNoPad()
    ensures forall d: Sextet :: Char(d) != PAD
  {
    hide Char;
    forall d: Sextet ensures Char(d) != PAD {
      CharDigit(d);
    }
  }

  // ----- The encoder

  // The only way anything gets into the buffer: one slot, counted once.
  method Put(buffer: array<char>, k: nat, c: char, ghost writes: seq<nat>) returns (ghost writes': seq<nat>)
    requires k < buffer.Length && k < |writes|
    modifies buffer
    ensures buffer[..] == old(buffer[..])[k := c] && writes' == writes[k := writes[k] + 1]
  {
    buffer[k] := c;
    writes' := writes[k := writes[k] + 1];
  }

  // One group of four characters goes into the buffer.
  method PutGroup(buffer: array<char>, j: nat, c0: char, c1: char, c2: char, c3: char, ghost writes: seq<nat>)
    returns (ghost writes': seq<nat>)
    requires j + 4 <= buffer.Length && j + 4 <= |writes|
    modifies buffer
    ensures buffer[..j + 4] == old(buffer[..j]) + [c0, c1, c2, c3]
    ensures |writes'| == |writes|
    ensures forall k :: 0 <= k < |writes| ==> writes'[k] == writes[k] + if j <= k < j + 4 then 1 else 0
  {
    ghost var was := buffer[..];
    writes' := Put(buffer, j, c0, writes);
    writes' := Put(buffer, j + 1, c1, writes');
    writes' := Put(buffer, j + 2, c2, writes');
    writes' := Put(buffer, j + 3, c3, writes');
    assert buffer[..] == was[j := c0][j + 1 := c1][j + 2 := c2][j + 3 := c3];
    assert buffer[..j + 4] == buffer[..][..j + 4] && was[..j] == old(buffer[..j]);
  }

  lemma EncodeFrom(text: seq<Byte>, i: nat)
    requires i <= |text|
    ensures |text| - i >= 3 ==> Encode(text[i..]) == Whole(text[i], text[i + 1], text[i + 2]) + Encode(text[i + 3..])
    ensures |text| - i < 3 ==> Encode(text[i..]) == Rest(text[i..])
  {
    hide Whole, Rest;
    if |text| - i >= 3 {
      assert text[i..][3..] == text[i + 3..];
    }
  }

  // base64_encode.  `writes` counts how often each slot of the buffer is written.
  method Base64Encode(text: seq<Byte>) returns (buffer: array<char>, size: nat, ghost writes: seq<nat>)
    requires (|text| + 2) / 3 * 4 < MAX_INT
    ensures size == |Encode(text)| && size < buffer.Length
    ensures buffer[..size] == Encode(text) && buffer[size] == NUL
    ensures |writes| == size + 1 && forall k :: 0 <= k <= size ==> writes[k] == 1
  {
    hide Encode, Char, Rest, Whole, Three, Two;
    var sz := |text|;
    EncodedLength(text);
    size := (sz + 2) / 3 * 4;
    buffer := new char[if size >= SMALL_CHUNK then size + 1 else SMALL_CHUNK];
    writes := seq(size + 1, k => 0);
    var i, j := 0, 0;
    assert text[0..] == text;
    while i < sz - 2
      invariant 0 <= i <= sz && j + |Encode(text[i..])| == size
      invariant buffer[..j] + Encode(text[i..]) == Encode(text)
      invariant |writes| == size + 1 && forall k :: 0 <= k <= size ==> writes[k] == if k < j then 1 else 0
    {
      EncodeFrom(text, i);
      WholeIs(text[i], text[i + 1], text[i + 2]);
      var v := Three(text[i], text[i + 1], text[i + 2]);
      writes := PutGroup(buffer, j, Char(v / 262144), Char(v / 4096 % 64), Char(v / 64 % 64), Char(v % 64), writes);
      i, j := i + 3, j + 4;
    }
    EncodeFrom(text, i);
    RestIs(text[i..]);
    ghost var done := buffer[..j];
    var padding := sz - i;
    if padding == 1 {
      var v: int := text[i];
      writes := PutGroup(buffer, j, Char(v / 4), Char(v % 4 * 16), PAD, PAD, writes);
    } else if padding == 2 {
      var v := Two(text[i], text[i + 1]);
      writes := PutGroup(buffer, j, Char(v / 1024), Char(v / 16 % 64), Char(v % 16 * 4), PAD, writes);
    }
    assert buffer[..size] == done + Rest(text[i..]);
    assert buffer[..size] == buffer[..][..size];
    writes := Put(buffer, size, NUL, writes);
    assert buffer[..size] == buffer[..][..size];
  }

  lemma WholeIs(b0: Byte, b1: Byte, b2: Byte)
    ensures var v := Three(b0, b1, b2);
            Whole(b0, b1, b2) == [Char(v / 262144), Char(v / 4096 % 64), Char(v / 64 % 64), Char(v % 64)]
  {
  }

  lemma RestIs(s: seq<Byte>)
    requires |s| < 3
    ensures |Rest(s)| == if s == [] then 0 else 4
    ensures |s| == 1 ==> Rest(s) == [Char(s[0] / 4), Char(s[0] % 4 * 16), PAD, PAD]
    ensures |s| == 2 ==> var v := Two(s[0], s[1]); Rest(s) == [Char(v / 1024), Char(v / 16 % 64), Char(v % 16 * 4), PAD]
  {
  }
}
