// The streaming SHA-1 of sha1.c, proved against FIPS 180-4.
module Sha1Code {
  import opened Sha1Spec

  const TWO_TO_THE_29: nat := 0x2000_0000
  const TWO_TO_THE_32: nat := 0x1_0000_0000
  const TWO_TO_THE_64: nat := 0x1_0000_0000_0000_0000

  // ----- One block

  // The macro rol, for the widths it is used with
  function Rol1(x: Word): Word { (x << 1) | (x >> 31) }
  function Rol5(x: Word): Word { (x << 5) | (x >> 27) }
  function Rol8(x: Word): Word { (x << 8) | (x >> 24) }
  function Rol24(x: Word): Word { (x << 24) | (x >> 8) }
  function Rol30(x: Word): Word { (x << 30) | (x >> 2) }

  // Four bytes as a little-endian machine reads them
  function LittleEndian(b0: Byte, b1: Byte, b2: Byte, b3: Byte): Word {
    (b0 as Word) + 0x100 * (b1 as Word) + 0x1_0000 * (b2 as Word) + 0x100_0000 * (b3 as Word)
  }

  // A word of the union
  function Load(block: seq<Byte>, i: nat): Word
    requires |block| == BLOCK && i < 16
  {
    LittleEndian(block[4 * i], block[4 * i + 1], block[4 * i + 2], block[4 * i + 3])
  }

  function Swapped(l: Word): Word {
    (Rol24(l) & 0xFF00FF00) | (Rol8(l) & 0x00FF00FF)
  }

  lemma SwapIsBigEndian(b0: Byte, b1: Byte, b2: Byte, b3: Byte)
    ensures Swapped(LittleEndian(b0, b1, b2, b3)) == WordOf(b0, b1, b2, b3)
  {
  }

  // The constants of the macros R0 to R4
  function Constant(i: nat): Word {
    if i < 20 then 0x5A827999 else if i < 40 then 0x6ED9EBA1 else if i < 60 then 0x8F1BBCDC else 0xCA62C1D6
  }

  // What the macro blk stores
  function Blk(l13: Word, l8: Word, l2: Word, l0: Word): Word {
    Rol1(l13 ^ l8 ^ l2 ^ l0)
  }

  // The code's rotations, constants and schedule are those of the standard.
  lemma CodeIsStandard(x: Word, y: Word, z: Word, u: Word, i: nat)
    ensures Rol5(x) == Rotl5(x) && Rol30(x) == Rotl30(x) && Constant(i) == K(i)
    ensures Blk(x, y, z, u) == Expanded(x, y, z, u)
  {
  }

  // What the macros R0 to R4 mix into z
  function Mix(i: nat, w: Word, x: Word, y: Word): Word {
    if i < 20 then (w & (x ^ y)) ^ y
    else if i < 40 then w ^ x ^ y
    else if i < 60 then ((w | x) & y) | (w & x)
    else w ^ x ^ y
  }

  lemma ChIsMixed(w: Word, x: Word, y: Word)
    ensures (w & (x ^ y)) ^ y == Ch(w, x, y)
  {
  }

  lemma MajIsMixed(w: Word, x: Word, y: Word)
    ensures ((w | x) & y) | (w & x) == Maj(w, x, y)
  {
  }

  lemma MixIsF(i: nat, w: Word, x: Word, y: Word)
    ensures Mix(i, w, x, y) == F(i, w, x, y)
  {
    hide Ch, Maj;
    ChIsMixed(w, x, y);
    MajIsMixed(w, x, y);
  }

  // What the macros add up
  function Added(z: Word, mixed: Word, word: Word, k: Word, rotated: Word): Word {
    z + (mixed + word + k + rotated)
  }

  lemma AnyOrder(z: Word, m: Word, s: Word, k: Word, r: Word)
    ensures Added(z, m, s, k, r) == Plus5(r, m, z, k, s)
  {
  }

  lemma AddedIsRound(v: Word, w: Word, x: Word, y: Word, z: Word, i: nat, word: Word)
    ensures Registers(Added(z, Mix(i, w, x, y), word, Constant(i), Rol5(v)), v, Rol30(w), x, y) ==
            Round(Registers(v, w, x, y, z), i, word)
  {
    hide Mix, F, K, Constant, Rotl5, Rotl30, Rol5, Rol30, Added, Plus5;
    MixIsF(i, w, x, y);
    CodeIsStandard(v, x, y, z, i);
    CodeIsStandard(w, x, y, z, i);
    AnyOrder(z, F(i, w, x, y), word, K(i), Rotl5(v));
  }

  // The last 16 words of the schedule, each at its index modulo 16; what the
  // schedule has not reached still holds the block.
  predicate Scheduled(l: seq<Word>, block: seq<Byte>, i: nat)
    requires |block| == BLOCK
  {
    && |l| == 16
    && (forall j :: i <= j < 16 ==> l[j] == Load(block, j))
    && (forall t: nat :: t < i <= t + 16 ==> l[t % 16] == W(block, t))
  }

  // The macros blk0 and blk
  method NextWord(l: array<Word>, i: nat, ghost block: seq<Byte>) returns (word: Word)
    requires |block| == BLOCK && i < 80 && l.Length == 16 && Scheduled(l[..], block, i)
    modifies l
    ensures word == W(block, i) && Scheduled(l[..], block, i + 1)
  {
    hide Expanded, Blk, Swapped, WordOf, W, Scheduled;
    ghost var was := l[..];
    if i < 16 {
      StillLoaded(was, block, i);
      word := Swapped(l[i]);
    } else {
      FourBack(was, block, i);
      CodeIsStandard(l[(i + 13) % 16], l[(i + 8) % 16], l[(i + 2) % 16], l[i % 16], i);
      word := Blk(l[(i + 13) % 16], l[(i + 8) % 16], l[(i + 2) % 16], l[i % 16]);
    }
    WordAt(block, i);
    l[i % 16] := word;
    assert l[..] == was[i % 16 := word];
    StaysScheduled(was, block, i);
  }

  lemma WordAt(block: seq<Byte>, i: nat)
    requires |block| == BLOCK
    ensures i < 16 ==> W(block, i) == WordOf(block[4 * i], block[4 * i + 1], block[4 * i + 2], block[4 * i + 3])
    ensures i >= 16 ==> W(block, i) == Expanded(W(block, i - 3), W(block, i - 8), W(block, i - 14), W(block, i - 16))
  {
  }

  lemma StillLoaded(l: seq<Word>, block: seq<Byte>, i: nat)
    requires |block| == BLOCK && i < 16 && Scheduled(l, block, i)
    ensures |l| == 16 && Swapped(l[i]) == W(block, i)
  {
    hide WordOf, LittleEndian, Swapped;
    SwapIsBigEndian(block[4 * i], block[4 * i + 1], block[4 * i + 2], block[4 * i + 3]);
  }

  lemma FourBack(l: seq<Word>, block: seq<Byte>, i: nat)
    requires |block| == BLOCK && i >= 16 && Scheduled(l, block, i)
    ensures |l| == 16 && l[(i + 13) % 16] == W(block, i - 3) && l[(i + 8) % 16] == W(block, i - 8)
    ensures l[(i + 2) % 16] == W(block, i - 14) && l[i % 16] == W(block, i - 16)
  {
    hide W, Load;
    assert (i + 13) % 16 == (i - 3) % 16 && (i + 8) % 16 == (i - 8) % 16;
    assert (i + 2) % 16 == (i - 14) % 16 && i % 16 == (i - 16) % 16;
  }

  lemma StaysScheduled(l: seq<Word>, block: seq<Byte>, i: nat)
    requires |block| == BLOCK && Scheduled(l, block, i)
    ensures |l| == 16 && Scheduled(l[i % 16 := W(block, i)], block, i + 1)
  {
    hide W, Load;
    var next := l[i % 16 := W(block, i)];
    forall t: nat | t < i + 1 <= t + 16 ensures next[t % 16] == W(block, t) {
      if t < i {
        assert 0 < i - t < 16;
        DifferByLess(t, i);
      }
    }
  }

  lemma DifferByLess(t: nat, i: nat)
    requires 0 < i - t < 16
    ensures t % 16 != i % 16
  {
  }

  // The macros R0 to R4: z and w change in place.
  method MixIn(v: Word, w: Word, x: Word, y: Word, z: Word, i: nat, l: array<Word>, ghost block: seq<Byte>)
    returns (z': Word, w': Word)
    requires |block| == BLOCK && i < 80 && l.Length == 16 && Scheduled(l[..], block, i)
    modifies l
    ensures Scheduled(l[..], block, i + 1)
    ensures Registers(z', v, w', x, y) == Round(Registers(v, w, x, y, z), i, W(block, i))
  {
    hide Added, Mix, Constant, Rol5, Round, Rol30, W, Scheduled;
    var word := NextWord(l, i, block);
    AddedIsRound(v, w, x, y, z, i, word);
    z', w' := Added(z, Mix(i, w, x, y), word, Constant(i), Rol5(v)), Rol30(w);
  }

  ghost function Value(state: array<Word>): Registers
    requires state.Length == 5
    reads state
  {
    Registers(state[0], state[1], state[2], state[3], state[4])
  }

  lemma LoadedIsScheduled(l: seq<Word>, block: seq<Byte>)
    requires |block| == BLOCK && |l| == 16 && forall j :: 0 <= j < 16 ==> l[j] == Load(block, j)
    ensures Scheduled(l, block, 0)
  {
    hide Load, W;
  }

  lemma RoundsNext(r: Registers, block: seq<Byte>, t: nat)
    requires |block| == BLOCK
    ensures Rounds(r, block, 0) == r
    ensures Rounds(r, block, t + 1) == Round(Rounds(r, block, t), t, W(block, t))
  {
    hide Round, W;
  }

  function Summed(x: Word, y: Word): Word {
    x + y
  }

  lemma SummedIsPlus(x: Word, y: Word)
    ensures Summed(x, y) == Plus(x, y)
  {
  }

  // The working variables are added to the state.
  method AddTo(state: array<Word>, r: Registers)
    requires state.Length == 5
    modifies state
    ensures Value(state) == Sum(old(Value(state)), r)
  {
    hide Plus, Summed;
    SummedIsPlus(state[0], r.a);
    SummedIsPlus(state[1], r.b);
    SummedIsPlus(state[2], r.c);
    SummedIsPlus(state[3], r.d);
    SummedIsPlus(state[4], r.e);
    state[0], state[1] := Summed(state[0], r.a), Summed(state[1], r.b);
    state[2], state[3], state[4] := Summed(state[2], r.c), Summed(state[3], r.d), Summed(state[4], r.e);
  }

  // Five rounds, after which the names of the working variables have gone full circle
  method FiveRounds(a0: Word, b0: Word, c0: Word, d0: Word, e0: Word, i: nat, l: array<Word>, ghost h: Registers,
                    ghost block: seq<Byte>)
    returns (a: Word, b: Word, c: Word, d: Word, e: Word)
    requires |block| == BLOCK && i + 5 <= 80 && l.Length == 16 && Scheduled(l[..], block, i)
    requires Registers(a0, b0, c0, d0, e0) == Rounds(h, block, i)
    modifies l
    ensures Scheduled(l[..], block, i + 5) && Registers(a, b, c, d, e) == Rounds(h, block, i + 5)
  {
    hide Round, W, Scheduled, Rounds;
    a, b, c, d, e := a0, b0, c0, d0, e0;
    e, b := MixIn(a, b, c, d, e, i, l, block);
    RoundsNext(h, block, i);
    d, a := MixIn(e, a, b, c, d, i + 1, l, block);
    RoundsNext(h, block, i + 1);
    c, e := MixIn(d, e, a, b, c, i + 2, l, block);
    RoundsNext(h, block, i + 2);
    b, d := MixIn(c, d, e, a, b, i + 3, l, block);
    RoundsNext(h, block, i + 3);
    a, c := MixIn(b, c, d, e, a, i + 4, l, block);
    RoundsNext(h, block, i + 4);
  }

  // SHA1_Transform
  method Transform(state: array<Word>, buffer: seq<Byte>)
    requires state.Length == 5 && |buffer| == BLOCK
    modifies state
    ensures Value(state) == Compress(old(Value(state)), buffer)
  {
    hide Round, W, Scheduled, Rounds, Sum, Load;
    var l := new Word[16](i requires 0 <= i < 16 => Load(buffer, i));
    var a, b, c, d, e := state[0], state[1], state[2], state[3], state[4];
    ghost var h := Value(state);
    LoadedIsScheduled(l[..], buffer);
    RoundsNext(h, buffer, 0);
    var i := 0;
    while i < 80
      invariant 0 <= i <= 80 && i % 5 == 0 && Value(state) == h
      invariant Scheduled(l[..], buffer, i) && Registers(a, b, c, d, e) == Rounds(h, buffer, i)
    {
      a, b, c, d, e := FiveRounds(a, b, c, d, e, i, l, h, buffer);
      i := i + 5;
    }
    AddTo(state, Registers(a, b, c, d, e));
  }

  // ----- The bit counter

  // What an update of `len` bytes does to the two words of the count
  function Counted(count0: nat, count1: nat, len: nat): (nat, nat) {
    var bits := 8 * len % TWO_TO_THE_64;
    var low := (count0 + bits) % TWO_TO_THE_32;
    (low, (count1 + (if low < bits then 1 else 0) + len / TWO_TO_THE_29) % TWO_TO_THE_32)
  }

  function Bits(count0: nat, count1: nat): nat {
    count1 * TWO_TO_THE_32 + count0
  }

  // A length of `len` bytes: `q` goes into the high word, and `r` into the low one.
  lemma SplitLength(len: nat)
    ensures var q, r := len / TWO_TO_THE_29, 8 * (len % TWO_TO_THE_29);
            8 * len == q * TWO_TO_THE_32 + r && 8 * len % TWO_TO_THE_32 == r < TWO_TO_THE_32
  {
  }

  lemma LowWord(count0: nat, q: nat, r: nat)
    requires count0 < TWO_TO_THE_32 && r < TWO_TO_THE_32
    ensures (count0 + (q * TWO_TO_THE_32 + r)) % TWO_TO_THE_32 ==
            if count0 + r < TWO_TO_THE_32 then count0 + r else count0 + r - TWO_TO_THE_32
  {
  }

  // The carry there is, and the one that the test reports
  lemma CarryReported(count0: nat, count1: nat, len: nat, carry: nat)
    requires count0 < TWO_TO_THE_32 && 8 * len < TWO_TO_THE_64
    requires carry == if count0 + 8 * len % TWO_TO_THE_32 < TWO_TO_THE_32 then 0 else 1
    ensures var (low, high) := Counted(count0, count1, len);
            && low < TWO_TO_THE_32 && low + carry * TWO_TO_THE_32 == count0 + 8 * len % TWO_TO_THE_32
            && high == (count1 + len / TWO_TO_THE_29 + (if len < TWO_TO_THE_29 then carry else 1)) % TWO_TO_THE_32
  {
    SplitLength(len);
    var q, r := len / TWO_TO_THE_29, 8 * (len % TWO_TO_THE_29);
    LowWord(count0, q, r);
    assert 8 * len % TWO_TO_THE_64 == 8 * len;
    assert q == 0 ==> 8 * len == r;
    assert q >= 1 ==> 8 * len >= TWO_TO_THE_32;
  }

  // The carry test sees a wrap-around of the low word in every update shorter
  // than 2^29 bytes; in a longer one it always reports one, rightly or not.
  lemma CarryIsExact(count0: nat, count1: nat, len: nat)
    requires count0 < TWO_TO_THE_32 && count1 < TWO_TO_THE_32 && 8 * len < TWO_TO_THE_64
    ensures var (low, high) := Counted(count0, count1, len);
            && low < TWO_TO_THE_32 && high < TWO_TO_THE_32
            && (Bits(low, high) == (Bits(count0, count1) + 8 * len) % TWO_TO_THE_64 <==>
                len < TWO_TO_THE_29 || count0 + 8 * len % TWO_TO_THE_32 >= TWO_TO_THE_32)
  {
    var q, r := len / TWO_TO_THE_29, 8 * len % TWO_TO_THE_32;
    var carry := if count0 + r < TWO_TO_THE_32 then 0 else 1;
    assert 8 * len == q * TWO_TO_THE_32 + r by { SplitLength(len); }
    CarryReported(count0, count1, len, carry);
    hide Counted;
    var (low, high) := Counted(count0, count1, len);
    SplitSum(count1 + q + carry, low);
    assert Bits(count0, count1) + 8 * len == (count1 + q + carry) * TWO_TO_THE_32 + low;
    ApartByOne(count1 + q);
  }

  lemma SplitSum(high: nat, low: nat)
    requires low < TWO_TO_THE_32
    ensures (high * TWO_TO_THE_32 + low) % TWO_TO_THE_64 == (high % TWO_TO_THE_32) * TWO_TO_THE_32 + low
  {
    var k := high / TWO_TO_THE_32;
    assert high * TWO_TO_THE_32 + low == k * TWO_TO_THE_64 + ((high % TWO_TO_THE_32) * TWO_TO_THE_32 + low);
  }

  lemma ApartByOne(n: nat)
    ensures (n + 1) % TWO_TO_THE_32 != n % TWO_TO_THE_32
  {
  }

  // ----- Streaming

  // The part of a message that fills whole blocks, and the rest
  function Whole(m: seq<Byte>): (w: seq<Byte>)
    ensures |w| % BLOCK == 0
  {
    m[..|m| - |m| % BLOCK]
  }

  function Tail(m: seq<Byte>): seq<Byte> {
    m[|m| - |m| % BLOCK..]
  }

  lemma HashNext(m: seq<Byte>, n: nat)
    requires n % BLOCK == 0 && n + BLOCK <= |m|
    ensures (n + BLOCK) % BLOCK == 0
    ensures HashBlocks(m[..n + BLOCK]) == Compress(HashBlocks(m[..n]), m[n..n + BLOCK])
  {
    hide Compress;
    var w := m[..n + BLOCK];
    assert w[..|w| - BLOCK] == m[..n] && w[|w| - BLOCK..] == m[n..n + BLOCK];
  }

  lemma Modulus(n: nat)
    ensures 8 * n % TWO_TO_THE_32 == 8 * (n % TWO_TO_THE_29)
  {
    var q := n / TWO_TO_THE_29;
    assert 8 * n == q * TWO_TO_THE_32 + 8 * (n % TWO_TO_THE_29);
  }

  lemma PositionFromCount(n: nat)
    ensures (8 * n % TWO_TO_THE_32) / 8 % BLOCK == n % BLOCK
  {
    Modulus(n);
    var q := n / TWO_TO_THE_29;
    assert n == q * TWO_TO_THE_29 + n % TWO_TO_THE_29;
    assert n % BLOCK == (n % TWO_TO_THE_29) % BLOCK by {
      assert TWO_TO_THE_29 == 0x80_0000 * BLOCK;
    }
  }

  lemma SumModulo(x: nat, y: nat)
    ensures (x % TWO_TO_THE_64 + y) % TWO_TO_THE_64 == (x + y) % TWO_TO_THE_64
  {
    assert x + y == (x / TWO_TO_THE_64) * TWO_TO_THE_64 + (x % TWO_TO_THE_64 + y);
  }

  lemma SameModulo(x: nat, k: nat, y: nat)
    requires x == k * TWO_TO_THE_32 + y
    ensures x % TWO_TO_THE_32 == y % TWO_TO_THE_32
  {
  }

  lemma CountFollows(n: nat, count1: nat, len: nat)
    requires len < TWO_TO_THE_64
    ensures var (low, high) := Counted(8 * n % TWO_TO_THE_32, count1, len);
            low == 8 * (n + len) % TWO_TO_THE_32 && high < TWO_TO_THE_32
  {
    Wraps(8 * len);
    SumWraps(8 * n, 8 * len);
    SumWraps(8 * n, 8 * len % TWO_TO_THE_64);
  }

  lemma Wraps(x: nat)
    ensures x % TWO_TO_THE_64 % TWO_TO_THE_32 == x % TWO_TO_THE_32
  {
    var q := x / TWO_TO_THE_64 * TWO_TO_THE_32;
    SameModulo(x, q, x % TWO_TO_THE_64);
  }

  lemma SumWraps(x: nat, y: nat)
    ensures (x % TWO_TO_THE_32 + y) % TWO_TO_THE_32 == (x + y) % TWO_TO_THE_32
    ensures (x + y % TWO_TO_THE_32) % TWO_TO_THE_32 == (x + y) % TWO_TO_THE_32
  {
    SameModulo(x + y, x / TWO_TO_THE_32, x % TWO_TO_THE_32 + y);
    SameModulo(x + y, y / TWO_TO_THE_32, x + y % TWO_TO_THE_32);
  }

  lemma ExactOrNot(n: nat, count0: nat, count1: nat, len: nat)
    requires count0 < TWO_TO_THE_32 && count1 < TWO_TO_THE_32 && 8 * len < TWO_TO_THE_64
    requires Bits(count0, count1) == 8 * n % TWO_TO_THE_64
    ensures var (low, high) := Counted(count0, count1, len);
            Bits(low, high) == 8 * (n + len) % TWO_TO_THE_64 <==>
            len < TWO_TO_THE_29 || count0 + 8 * len % TWO_TO_THE_32 >= TWO_TO_THE_32
  {
    hide Counted, Bits;
    CarryIsExact(count0, count1, len);
    SumModulo(8 * n, 8 * len);
  }

  function CountedAll(lens: seq<nat>): (nat, nat) {
    if lens == [] then (0, 0)
    else
      var (low, high) := CountedAll(lens[..|lens| - 1]);
      Counted(low, high, lens[|lens| - 1])
  }

  function Total(lens: seq<nat>): nat {
    if lens == [] then 0 else Total(lens[..|lens| - 1]) + lens[|lens| - 1]
  }

  // Any updates of less than 2^29 bytes each are counted exactly, modulo 2^64.
  lemma {:induction false} StreamIsCounted(lens: seq<nat>)
    requires forall i :: 0 <= i < |lens| ==> lens[i] < TWO_TO_THE_29
    ensures var (low, high) := CountedAll(lens);
            low < TWO_TO_THE_32 && high < TWO_TO_THE_32 && Bits(low, high) == 8 * Total(lens) % TWO_TO_THE_64
  {
    hide Counted, Bits;
    if lens == [] {
      NoBits();
    } else {
      var init := lens[..|lens| - 1];
      StreamIsCounted(init);
      var (low, high) := CountedAll(init);
      CarryIsExact(low, high, lens[|lens| - 1]);
      ExactOrNot(Total(init), low, high, lens[|lens| - 1]);
    }
  }

  lemma NoBits()
    ensures Bits(0, 0) == 0
  {
  }

  lemma NothingHashed()
    ensures HashBlocks(Whole([])) == INITIAL && Tail([]) == []
  {
  }

  // SHA1_CTX
  class Context {
    const state: array<Word>
    const buffer: array<Byte>
    var count0: nat
    var count1: nat
    ghost var message: seq<Byte>

    // Only the concatenation of what was put in matters.
    ghost predicate Valid()
      reads this, state, buffer
    {
      && Hashed()
      && count0 == 8 * |message| % TWO_TO_THE_32
      && count1 < TWO_TO_THE_32
    }

    // The hash value is that of all whole blocks; the rest is in the buffer.
    ghost predicate Hashed()
      reads `message, state, buffer
    {
      && state.Length == 5 && buffer.Length == BLOCK
      && Value(state) == HashBlocks(Whole(message))
      && buffer[..|message| % BLOCK] == Tail(message)
    }

    // The count is the number of bits put in.
    ghost predicate Exact()
      reads `count0, `count1, `message
    {
      Bits(count0, count1) == 8 * |message| % TWO_TO_THE_64
    }

    // sat_SHA1_Init
    constructor ()
      ensures Valid() && Exact() && message == [] && count0 == 0 && count1 == 0 && fresh(state) && fresh(buffer)
    {
      hide HashBlocks, Whole, Tail, Bits;
      NothingHashed();
      NoBits();
      state := new Word[] [0x67452301, 0xEFCDAB89, 0x98BADCFE, 0x10325476, 0xC3D2E1F0];
      buffer := new Byte[BLOCK];
      count0, count1, message := 0, 0, [];
    }

    // Brings the count up to date.
    method Count(len: nat)
      requires len < TWO_TO_THE_64
      modifies `count0, `count1
      ensures (count0, count1) == Counted(old(count0), old(count1), len)
    {
      var bits := 8 * len % TWO_TO_THE_64;
      count0 := (count0 + bits) % TWO_TO_THE_32;
      ghost var was := count1;
      if count0 < bits {
        count1 := (count1 + 1) % TWO_TO_THE_32;
        SameModulo(was + 1 + len / TWO_TO_THE_29, (was + 1) / TWO_TO_THE_32, count1 + len / TWO_TO_THE_29);
      }
      count1 := (count1 + len / TWO_TO_THE_29) % TWO_TO_THE_32;
    }

    // Completes the block in the buffer and hashes it.
    method HashFilled(data: seq<Byte>, j: nat)
      requires state.Length == 5 && buffer.Length == BLOCK && j == |message| % BLOCK && j + |data| > 63
      requires Value(state) == HashBlocks(Whole(message)) && buffer[..j] == Tail(message)
      modifies state, buffer
      ensures (|message| + (BLOCK - j)) % BLOCK == 0
      ensures Value(state) == HashBlocks((message + data)[..|message| + (BLOCK - j)])
    {
      hide Compress, HashBlocks, Value, Tail;
      ghost var m, n := message + data, |message| - j;
      forall k | 0 <= k < BLOCK - j {
        buffer[j + k] := data[k];
      }
      FilledBlock(message, data, j, buffer[..]);
      HashNext(m, n);
      assert m[..n] == Whole(message);
      Transform(state, buffer[..]);
    }

    // Then hashes blocks where they are.
    method HashWhole(data: seq<Byte>, j: nat) returns (i: nat)
      requires state.Length == 5 && buffer.Length == BLOCK && j == |message| % BLOCK && j + |data| > 63
      requires Value(state) == HashBlocks(Whole(message)) && buffer[..j] == Tail(message)
      modifies state, buffer
      ensures i <= |data| < i + BLOCK && (|message| + i) % BLOCK == 0
      ensures Value(state) == HashBlocks((message + data)[..|message| + i])
    {
      hide Compress, HashBlocks, Value, Tail, Whole;
      HashFilled(data, j);
      i := BLOCK - j;
      ghost var m := message + data;
      while i + 63 < |data|
        invariant 0 <= i <= |data| && (|message| + i) % BLOCK == 0
        invariant Value(state) == HashBlocks(m[..|message| + i])
      {
        HashNext(m, |message| + i);
        LaterBlock(message, data, i);
        Transform(state, data[i..i + BLOCK]);
        i := i + BLOCK;
      }
    }

    // Puts bytes into the buffer, whole blocks into the hash value.
    method Absorb(data: seq<Byte>, j: nat)
      requires Hashed() && j == |message| % BLOCK
      modifies `message, state, buffer
      ensures Hashed() && message == old(message) + data
    {
      hide HashBlocks, Value;
      ghost var m := message + data;
      var i, k := 0, j;
      if j + |data| > 63 {
        i := HashWhole(data, j);
        k := 0;
        WholeAndTail(m, |message| + i);
        assert m[|message| + i..] == data[i..];
      } else {
        WholeAndTail(m, |message| - j);
        assert m[|message| - j..] == Tail(message) + data;
        assert Whole(m) == Whole(message);
        assert data[i..] == data;
      }
      assert Value(state) == HashBlocks(Whole(m)) && buffer[..k] + data[i..] == Tail(m);
      Copy(data[i..], k);
      message := m;
    }

    // sat_SHA1_Update
    method Update(data: seq<Byte>)
      requires Valid() && |data| < TWO_TO_THE_64
      modifies this, state, buffer
      ensures Valid() && message == old(message) + data
      ensures (count0, count1) == Counted(old(count0), old(count1), |data|)
      ensures 8 * |data| < TWO_TO_THE_64 && old(Exact()) ==>
                (Exact() <==> |data| < TWO_TO_THE_29 || old(count0) + 8 * |data| % TWO_TO_THE_32 >= TWO_TO_THE_32)
    {
      hide Hashed, Counted, Bits;
      if 8 * |data| < TWO_TO_THE_64 && Exact() {
        ExactOrNot(|message|, count0, count1, |data|);
      }
      PositionFromCount(|message|);
      CountFollows(|message|, count1, |data|);
      var j := count0 / 8 % BLOCK;
      Count(|data|);
      Absorb(data, j);
    }

    // memcpy into the buffer
    method Copy(data: seq<Byte>, j: nat)
      requires j + |data| <= buffer.Length
      modifies buffer
      ensures buffer[..j + |data|] == old(buffer[..j]) + data
    {
      forall k | 0 <= k < |data| {
        buffer[j + k] := data[k];
      }
    }

    // The count as Final writes it out
    method FinalCount() returns (finalcount: array<Byte>)
      requires count0 < TWO_TO_THE_32
      ensures fresh(finalcount) && finalcount.Length == 8 && finalcount[..] == LengthField(Bits(count0, count1))
    {
      hide ByteAt, CountByte, Bits, LengthField;
      ghost var field := LengthField(Bits(count0, count1));
      EightBytes(Bits(count0, count1));
      finalcount := new Byte[8];
      var i := 0;
      while i < 8
        invariant 0 <= i <= 8 && finalcount[..i] == field[..i]
      {
        ByteOfHalf(count0, count1, i);
        CountByteIs(if i >= 4 then count0 else count1, 3 - i % 4);
        finalcount[i] := CountByte(if i >= 4 then count0 else count1, 3 - i % 4);
        i := i + 1;
      }
    }

    // The loop that pads up to the length field
    method Pad()
      requires Valid()
      modifies this, state, buffer
      ensures Valid() && message == Marked(old(message))
    {
      hide HashBlocks, Value, Counted, Whole, Tail;
      ghost var m, k := message, 0;
      Update([0x80]);
      MarkedSoFar(m, 0);
      PositionFromCount(|message|);
      while count0 / 8 % BLOCK * 8 != 448
        invariant Valid() && message == m + [0x80] + Zeros(k) && k <= PadLength(m)
        invariant count0 / 8 % BLOCK == (|m| + 1 + k) % BLOCK
        decreases PadLength(m) - k
      {
        MarkedSoFar(m, k);
        Update([0]);
        k := k + 1;
        assert Zeros(k) == Zeros(k - 1) + [0];
        PositionFromCount(|message|);
      }
      MarkedSoFar(m, k);
    }

    // The digest is the hash value, byte by byte.
    method WriteDigest(digest: array<Byte>)
      requires state.Length == 5 && digest.Length == 20
      modifies digest
      ensures digest[..] == RegisterBytes(Value(state))
    {
      hide WordByte, DigestByte, RegisterBytes, Value, Register;
      ghost var r := Value(state);
      DigestBytes(state);
      var i := 0;
      while i < 20
        invariant 0 <= i <= 20 && digest[..i] == RegisterBytes(r)[..i] && Value(state) == r
      {
        DigestBytes(state);
        DigestByteIs(state[i / 4], i % 4);
        digest[i] := DigestByte(state[i / 4], i % 4);
        i := i + 1;
      }
    }

    // sat_SHA1_Final
    method Final(digest: array<Byte>)
      requires Valid() && digest.Length == 20 && digest != buffer
      modifies this, state, buffer, digest
      ensures digest[..] == DigestWith(old(message), old(Bits(count0, count1)))
    {
      hide HashBlocks, Counted, LengthField, Marked, RegisterBytes, Value, Bits, Whole, Tail, DigestWith, Exact;
      DigestOfWhole(message, Bits(count0, count1));
      var finalcount := FinalCount();
      Pad();
      Update(finalcount[..]);
      WriteDigest(digest);
    }
  }

  // What Final takes out of a word of the state, and of a word of the count
  function DigestByte(w: Word, k: nat): Byte
    requires k < 4
  {
    LowByteOf(if k == 0 then w >> 24 else if k == 1 then w >> 16 else if k == 2 then w >> 8 else w)
  }

  function LowByteOf(w: Word): Byte {
    (w & 255) as Byte
  }

  lemma DigestByteIs(w: Word, k: nat)
    requires k < 4
    ensures DigestByte(w, k) == WordByte(w, k)
  {
    assert 8 * (3 - k) == if k == 0 then 24 else if k == 1 then 16 else if k == 2 then 8 else 0;
    assert WordByte(w, k) == LowByteOf(w >> (8 * (3 - k)));
    hide LowByteOf, WordByte;
    assert w >> 0 == w;
  }

  function CountByte(count: nat, k: nat): Byte
    requires k < 4
  {
    ((if k == 0 then count else if k == 1 then count / 0x100 else if k == 2 then count / 0x1_0000 else count / 0x100_0000)
     % 256) as Byte
  }

  lemma CountByteIs(count: nat, k: nat)
    requires k < 4
    ensures CountByte(count, k) == ByteAt(count, k)
  {
    assert count / 0x1_0000 == count / 256 / 256 && count / 0x100_0000 == count / 256 / 256 / 256;
    assert ByteAt(count, 0) == (count % 256) as Byte;
    assert k == 1 ==> ByteAt(count, 1) == ByteAt(count / 256, 0);
    assert k == 2 ==> ByteAt(count, 2) == ByteAt(count / 256, 1) == ByteAt(count / 256 / 256, 0);
  }

  lemma DigestOfWhole(m: seq<Byte>, n: nat)
    ensures DigestWith(m, n) == RegisterBytes(HashBlocks(Whole(Marked(m) + LengthField(n))))
  {
    hide HashBlocks, RegisterBytes, Marked, LengthField;
    MarkedLength(m);
    EightBytes(n);
    var w := Marked(m) + LengthField(n);
    assert w[..|w|] == w;
  }

  lemma DigestBytes(state: array<Word>)
    requires state.Length == 5
    ensures var r := RegisterBytes(Value(state));
            |r| == 20 && forall i :: 0 <= i < 20 ==> r[i] == WordByte(state[i / 4], i % 4)
  {
    hide WordByte;
  }

  // The tail and as many new bytes as it takes make the next block.
  lemma FilledBlock(message: seq<Byte>, data: seq<Byte>, j: nat, buffer: seq<Byte>)
    requires j == |message| % BLOCK && j + |data| >= BLOCK && |buffer| == BLOCK
    requires buffer[..j] == Tail(message) && buffer[j..] == data[..BLOCK - j]
    ensures (message + data)[|message| - j..|message| - j + BLOCK] == buffer
  {
    var m, n := message + data, |message| - j;
    var block := m[n..n + BLOCK];
    forall k | 0 <= k < BLOCK ensures block[k] == buffer[k] {
      if k < j {
        assert buffer[k] == buffer[..j][k] == Tail(message)[k];
      } else {
        assert buffer[k] == buffer[j..][k - j];
      }
    }
  }

  lemma LaterBlock(message: seq<Byte>, data: seq<Byte>, i: nat)
    requires i + BLOCK <= |data|
    ensures (message + data)[|message| + i..|message| + i + BLOCK] == data[i..i + BLOCK]
  {
    var block, piece := (message + data)[|message| + i..|message| + i + BLOCK], data[i..i + BLOCK];
    forall k | 0 <= k < BLOCK ensures block[k] == piece[k] {
    }
  }

  lemma WholeAndTail(m: seq<Byte>, n: nat)
    requires n <= |m| < n + BLOCK && n % BLOCK == 0
    ensures Whole(m) == m[..n] && Tail(m) == m[n..] && |m| % BLOCK == |m| - n
  {
  }

  // ----- Padding

  function PadLength(m: seq<Byte>): nat {
    (119 - |m| % BLOCK) % BLOCK
  }

  // Zero bytes are added exactly until the length field fits.
  lemma MarkedSoFar(m: seq<Byte>, k: nat)
    requires k <= PadLength(m)
    ensures (|m| + 1 + k) % BLOCK == 56 <==> k == PadLength(m)
    ensures k == PadLength(m) ==> m + [0x80] + Zeros(k) == Marked(m)
    ensures m + [0x80] + Zeros(0) == m + [0x80]
  {
    var q, r := |m| / BLOCK, |m| % BLOCK;
    assert |m| + 1 + k == BLOCK * q + (r + 1 + k) && r + 1 + k < BLOCK + 57;
  }

  function Pow256(k: nat): (r: nat)
    ensures r > 0
  {
    if k == 0 then 1 else 256 * Pow256(k - 1)
  }

  lemma LowDigit(rest: nat, low: nat)
    ensures (rest * 256 + low) % 256 == low % 256 && (rest * 256 + low) / 256 == rest + low / 256
  {
  }

  lemma {:induction false} LowByte(high: nat, low: nat, p: nat, k: nat)
    requires k < p
    ensures ByteAt(high * Pow256(p) + low, k) == ByteAt(low, k)
  {
    var n, rest := high * Pow256(p) + low, high * Pow256(p - 1);
    assert n == rest * 256 + low;
    LowDigit(rest, low);
    if k > 0 {
      LowByte(high, low / 256, p - 1, k - 1);
    }
  }

  lemma {:induction false} HighByte(high: nat, low: nat, p: nat, k: nat)
    requires low < Pow256(p)
    ensures ByteAt(high * Pow256(p) + low, k + p) == ByteAt(high, k)
  {
    if p > 0 {
      assert high * Pow256(p) == high * Pow256(p - 1) * 256;
      HighByte(high, low / 256, p - 1, k);
    }
  }

  lemma EightBytes(n: nat)
    ensures |LengthField(n)| == 8
  {
    hide ByteAt;
  }

  lemma ByteOfHalf(low: nat, high: nat, i: nat)
    requires low < TWO_TO_THE_32 && i < 8
    ensures ByteAt(if i >= 4 then low else high, 3 - i % 4) == LengthField(Bits(low, high))[i]
  {
    hide ByteAt;
    assert Pow256(4) == TWO_TO_THE_32;
    if i >= 4 {
      LowByte(high, low, 4, 3 - i % 4);
    } else {
      HighByte(high, low, 4, 3 - i % 4);
    }
  }

  // ----- Whole messages

  // crypt_sha1.  The count is exact for less than 2^29 bytes; for more, the
  // length field says 2^32 bits too many.
  method CryptSha1(buffer: seq<Byte>) returns (digest: array<Byte>, size: nat)
    requires |buffer| < 0x8000_0000
    ensures fresh(digest) && size == 20 == digest.Length
    ensures digest[..] == DigestWith(buffer, 8 * |buffer| + if |buffer| < TWO_TO_THE_29 then 0 else TWO_TO_THE_32)
    ensures |buffer| < TWO_TO_THE_29 ==> digest[..] == Sha1(buffer)
  {
    hide DigestWith, Counted, Bits;
    digest := new Byte[20];
    var ctx := new Context();
    assert [] + buffer == buffer;
    ctx.Update(buffer);
    FirstCount(|buffer|);
    ctx.Final(digest);
    size := 20;
  }

  lemma FirstCount(len: nat)
    requires 8 * len < TWO_TO_THE_64 - TWO_TO_THE_32
    ensures var (low, high) := Counted(0, 0, len);
            Bits(low, high) == 8 * len + if len < TWO_TO_THE_29 then 0 else TWO_TO_THE_32
  {
    hide Counted;
    SplitLength(len);
    CarryReported(0, 0, len, 0);
  }
}
