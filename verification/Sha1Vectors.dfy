// SHA-1 by its numbers: what the rotations and constants of FIPS 180-4 are, and
// the digest of "abc", the first test vector of the standard, round by round.
module Sha1Vectors {
  import opened Sha1Spec
  import opened Sha1Code

  // ----- Rotations and constants

  // Rotating by one doubles modulo 2^32, and the bit that falls out comes back below.
  lemma RotationByOne(x: Word)
    ensures Rotl1(x) == x + x + if x < 0x8000_0000 then 0 else 1
  {
    Doubled(x);
    TopBit(x);
    LowestBit(x << 1);
  }

  lemma Doubled(x: Word)
    ensures x << 1 == x + x && (x << 1) & 1 == 0
  {
  }

  lemma TopBit(x: Word)
    ensures x >> 31 == if x < 0x8000_0000 then 0 else 1
  {
  }

  lemma LowestBit(y: Word)
    requires y & 1 == 0
    ensures y | 0 == y && y | 1 == y + 1
  {
  }

  // Rotating by five is rotating by one five times; two more make the rotation by 30 whole.
  lemma RotationsAre(x: Word)
    ensures Rotl5(x) == Rotl1(Rotl1(Rotl1(Rotl1(Rotl1(x)))))
    ensures Rotl1(Rotl1(Rotl30(x))) == x
  {
  }

  // The constants are the square roots of 2, 3, 5 and 10, cut off behind 30 bits.
  lemma ConstantsAreRoots(t: nat)
    requires t < 80
    ensures var k, n := K(t) as nat, if t < 20 then 2 else if t < 40 then 3 else if t < 60 then 5 else 10;
            k * k <= n * 0x1000_0000_0000_0000 < (k + 1) * (k + 1)
  {
  }

  // The first function chooses, the second adds bit by bit, the third takes the majority.
  lemma FunctionsAre(x: Word, y: Word, z: Word)
    ensures Ch(x, y, z) & x == y & x && Ch(x, y, z) & !x == z & !x
    ensures Parity(x, y, z) ^ x ^ y == z
    ensures Maj(x, x, y) == x && Maj(x, y, x) == x && Maj(y, x, x) == x
  {
    Chooses(x, y, z);
    Majority(x, y);
  }

  lemma Chooses(x: Word, y: Word, z: Word)
    ensures Ch(x, y, z) & x == y & x && Ch(x, y, z) & !x == z & !x
  {
  }

  lemma Majority(x: Word, y: Word)
    ensures Maj(x, x, y) == x && Maj(x, y, x) == x && Maj(y, x, x) == x
  {
  }

  // The initial value, byte by byte, counts up and down in hexadecimal digits.
  lemma InitialCounts()
    ensures [INITIAL.a, INITIAL.b, INITIAL.c, INITIAL.d] ==
            [LittleEndian(0x01, 0x23, 0x45, 0x67), LittleEndian(0x89, 0xAB, 0xCD, 0xEF),
             LittleEndian(0xFE, 0xDC, 0xBA, 0x98), LittleEndian(0x76, 0x54, 0x32, 0x10)]
    ensures INITIAL.e == LittleEndian(0xF0, 0xE1, 0xD2, 0xC3)
  {
  }

  // ----- The block of "abc"

  const ABC: seq<Byte> := [0x61, 0x62, 0x63]

  const ABC_BLOCK: seq<Byte> :=
    ABC + [0x80] + Zeros(52) + [0, 0, 0, 0, 0, 0, 0, 24]

  lemma BlockSize()
    ensures |ABC_BLOCK| == BLOCK
  {
  }

  lemma AbcIsPadded()
    ensures Marked(ABC) + LengthField(24) == ABC_BLOCK
  {
    SmallLength(7);
    assert |ABC| == 3 && (119 - 3) % BLOCK == 52;
  }

  lemma {:induction false} SmallLength(k: nat)
    ensures forall j :: 0 <= j <= k ==> ByteAt(0, j) == 0
    ensures forall j :: 0 < j <= k ==> ByteAt(24, j) == 0
    ensures ByteAt(24, 0) == 24
  {
    if k > 0 {
      SmallLength(k - 1);
      assert ByteAt(0, k) == ByteAt(0, k - 1) && ByteAt(24, k) == ByteAt(0, k - 1);
    }
  }

  lemma BlockBytes()
    ensures |ABC_BLOCK| == BLOCK
    ensures ABC_BLOCK[0] == 0x61 && ABC_BLOCK[1] == 0x62 && ABC_BLOCK[2] == 0x63 && ABC_BLOCK[3] == 0x80
    ensures forall k :: 4 <= k < 63 ==> ABC_BLOCK[k] == 0
    ensures ABC_BLOCK[63] == 24
  {
  }

  // Word `t` of its schedule
  function Wd(t: nat): Word {
    BlockSize();
    W(ABC_BLOCK, t)
  }

  lemma WdNext(t: nat)
    requires t >= 16
    ensures Wd(t) == Rotl1(Wd(t - 3) ^ Wd(t - 8) ^ Wd(t - 14) ^ Wd(t - 16))
  {
    hide W;
    BlockSize();
    WordAt(ABC_BLOCK, t);
  }

  lemma WordsTo16()
    ensures Wd(0) == 0x61626380 && Wd(1) == 0x00000000 && Wd(2) == 0x00000000 && Wd(3) == 0x00000000
    ensures Wd(4) == 0x00000000 && Wd(5) == 0x00000000 && Wd(6) == 0x00000000 && Wd(7) == 0x00000000
    ensures Wd(8) == 0x00000000 && Wd(9) == 0x00000000 && Wd(10) == 0x00000000 && Wd(11) == 0x00000000
    ensures Wd(12) == 0x00000000 && Wd(13) == 0x00000000 && Wd(14) == 0x00000000 && Wd(15) == 0x00000018
  {
    hide W, ABC_BLOCK;
    BlockBytes();
    forall t | 0 <= t < 16 ensures Wd(t) == if t == 0 then 0x61626380 else if t == 15 then 24 else 0 {
      WordAt(ABC_BLOCK, t);
    }
  }

  lemma WordsTo32()
    ensures Wd(16) == 0xC2C4C700 && Wd(17) == 0x00000000 && Wd(18) == 0x00000030 && Wd(19) == 0x85898E01
    ensures Wd(20) == 0x00000000 && Wd(21) == 0x00000060 && Wd(22) == 0x0B131C03 && Wd(23) == 0x00000030
    ensures Wd(24) == 0x85898EC1 && Wd(25) == 0x16263806 && Wd(26) == 0x00000000 && Wd(27) == 0x00000180
    ensures Wd(28) == 0x2C4C700C && Wd(29) == 0x000000F0 && Wd(30) == 0x93AFB507 && Wd(31) == 0x5898E048
  {
    hide Wd;
    WordsTo16();
    WdNext(16);
    WdNext(17);
    WdNext(18);
    WdNext(19);
    WdNext(20);
    WdNext(21);
    WdNext(22);
    WdNext(23);
    WdNext(24);
    WdNext(25);
    WdNext(26);
    WdNext(27);
    WdNext(28);
    WdNext(29);
    WdNext(30);
    WdNext(31);
  }

  lemma WordsTo48()
    ensures Wd(32) == 0x8E9A9202 && Wd(33) == 0x00000600 && Wd(34) == 0xB131C0F0 && Wd(35) == 0x16263BC6
    ensures Wd(36) == 0x4EBED41E && Wd(37) == 0x626380A1 && Wd(38) == 0x16263806 && Wd(39) == 0x000018C0
    ensures Wd(40) == 0xD2E138C4 && Wd(41) == 0x00000F00 && Wd(42) == 0x3AFB5079 && Wd(43) == 0x898E04E5
    ensures Wd(44) == 0xE2BA3C2B && Wd(45) == 0x000060C0 && Wd(46) == 0x053A37CD && Wd(47) == 0x74458547
  {
    hide Wd;
    WordsTo32();
    WdNext(32);
    WdNext(33);
    WdNext(34);
    WdNext(35);
    WdNext(36);
    WdNext(37);
    WdNext(38);
    WdNext(39);
    WdNext(40);
    WdNext(41);
    WdNext(42);
    WdNext(43);
    WdNext(44);
    WdNext(45);
    WdNext(46);
    WdNext(47);
  }

  lemma WordsTo64()
    ensures Wd(48) == 0xDA9415ED && Wd(49) == 0x26380A16 && Wd(50) == 0x626383A1 && Wd(51) == 0x4EBF54DE
    ensures Wd(52) == 0x3835B44B && Wd(53) == 0x0000F600 && Wd(54) == 0x1E84C7A3 && Wd(55) == 0x98E04D98
    ensures Wd(56) == 0x651D16A0 && Wd(57) == 0x62658CA1 && Wd(58) == 0x458544D6 && Wd(59) == 0x44584CB7
    ensures Wd(60) == 0x7BA06619 && Wd(61) == 0x6380AEA2 && Wd(62) == 0x0AE55269 && Wd(63) == 0x627B49A1
  {
    hide Wd;
    WordsTo48();
    WdNext(48);
    WdNext(49);
    WdNext(50);
    WdNext(51);
    WdNext(52);
    WdNext(53);
    WdNext(54);
    WdNext(55);
    WdNext(56);
    WdNext(57);
    WdNext(58);
    WdNext(59);
    WdNext(60);
    WdNext(61);
    WdNext(62);
    WdNext(63);
  }

  lemma WordsTo80()
    ensures Wd(64) == 0x7CD45C9D && Wd(65) == 0x000F0000 && Wd(66) == 0xFB50753A && Wd(67) == 0xEC6765E8
    ensures Wd(68) == 0xBA3C2BE2 && Wd(69) == 0x0060C000 && Wd(70) == 0x3A37CD05 && Wd(71) == 0x458546F4
    ensures Wd(72) == 0xB8599DD6 && Wd(73) == 0x380A1A26 && Wd(74) == 0x01E02203 && Wd(75) == 0xE7CC3456
    ensures Wd(76) == 0xE6E60B69 && Wd(77) == 0x00F60A00 && Wd(78) == 0x5795EF4F && Wd(79) == 0x822E0879
  {
    hide Wd;
    WordsTo64();
    WdNext(64);
    WdNext(65);
    WdNext(66);
    WdNext(67);
    WdNext(68);
    WdNext(69);
    WdNext(70);
    WdNext(71);
    WdNext(72);
    WdNext(73);
    WdNext(74);
    WdNext(75);
    WdNext(76);
    WdNext(77);
    WdNext(78);
    WdNext(79);
  }

  // ----- Its 80 rounds

  // The working variables before round `t`
  function At(t: nat): Registers {
    BlockSize();
    Rounds(INITIAL, ABC_BLOCK, t)
  }

  lemma AtNext(t: nat)
    ensures At(0) == INITIAL && At(t + 1) == Round(At(t), t, Wd(t))
  {
    hide Round, W;
    BlockSize();
    RoundsNext(INITIAL, ABC_BLOCK, t);
  }

  lemma RoundsTo10()
    ensures At(10) == Registers(0x8351F929, 0x4B6AE328, 0x27A301F5, 0x664F8C30, 0x0FF1F290)
  {
    hide Wd, At;
    WordsTo16();
    AtNext(0);
    assert At(1) == Registers(0x0116FC33, 0x67452301, 0x7BF36AE2, 0x98BADCFE, 0x10325476);
    AtNext(1);
    assert At(2) == Registers(0x8990536D, 0x0116FC33, 0x59D148C0, 0x7BF36AE2, 0x98BADCFE);
    AtNext(2);
    assert At(3) == Registers(0xA1390F08, 0x8990536D, 0xC045BF0C, 0x59D148C0, 0x7BF36AE2);
    AtNext(3);
    assert At(4) == Registers(0xCDD8E11B, 0xA1390F08, 0x626414DB, 0xC045BF0C, 0x59D148C0);
    AtNext(4);
    assert At(5) == Registers(0xCFD499DE, 0xCDD8E11B, 0x284E43C2, 0x626414DB, 0xC045BF0C);
    AtNext(5);
    assert At(6) == Registers(0x3FC7CA40, 0xCFD499DE, 0xF3763846, 0x284E43C2, 0x626414DB);
    AtNext(6);
    assert At(7) == Registers(0x993E30C1, 0x3FC7CA40, 0xB3F52677, 0xF3763846, 0x284E43C2);
    AtNext(7);
    assert At(8) == Registers(0x9E8C07D4, 0x993E30C1, 0x0FF1F290, 0xB3F52677, 0xF3763846);
    AtNext(8);
    assert At(9) == Registers(0x4B6AE328, 0x9E8C07D4, 0x664F8C30, 0x0FF1F290, 0xB3F52677);
    AtNext(9);
  }

  lemma RoundsTo20()
    ensures At(20) == Registers(0xFD9E1D7D, 0xDC64901D, 0x20AA99CA, 0xD3A49608, 0xC82F758B)
  {
    hide Wd, At;
    WordsTo16();
    WordsTo32();
    RoundsTo10();
    AtNext(10);
    assert At(11) == Registers(0xFBDA9E89, 0x8351F929, 0x12DAB8CA, 0x27A301F5, 0x664F8C30);
    AtNext(11);
    assert At(12) == Registers(0x63188FE4, 0xFBDA9E89, 0x60D47E4A, 0x12DAB8CA, 0x27A301F5);
    AtNext(12);
    assert At(13) == Registers(0x4607B664, 0x63188FE4, 0x7EF6A7A2, 0x60D47E4A, 0x12DAB8CA);
    AtNext(13);
    assert At(14) == Registers(0x9128F695, 0x4607B664, 0x18C623F9, 0x7EF6A7A2, 0x60D47E4A);
    AtNext(14);
    assert At(15) == Registers(0x196BEE77, 0x9128F695, 0x1181ED99, 0x18C623F9, 0x7EF6A7A2);
    AtNext(15);
    assert At(16) == Registers(0x20BDD62F, 0x196BEE77, 0x644A3DA5, 0x1181ED99, 0x18C623F9);
    AtNext(16);
    assert At(17) == Registers(0x4E925823, 0x20BDD62F, 0xC65AFB9D, 0x644A3DA5, 0x1181ED99);
    AtNext(17);
    assert At(18) == Registers(0x82AA6728, 0x4E925823, 0xC82F758B, 0xC65AFB9D, 0x644A3DA5);
    AtNext(18);
    assert At(19) == Registers(0xDC64901D, 0x82AA6728, 0xD3A49608, 0xC82F758B, 0xC65AFB9D);
    AtNext(19);
  }

  lemma RoundsTo30()
    ensures At(30) == Registers(0xC5FBAF5D, 0x8370B52E, 0xD2AA1365, 0x6F8D7EF5, 0x12104EE9)
  {
    hide Wd, At;
    WordsTo32();
    RoundsTo20();
    AtNext(20);
    assert At(21) == Registers(0x1A37B0CA, 0xFD9E1D7D, 0x77192407, 0x20AA99CA, 0xD3A49608);
    AtNext(21);
    assert At(22) == Registers(0x33A23BFC, 0x1A37B0CA, 0x7F67875F, 0x77192407, 0x20AA99CA);
    AtNext(22);
    assert At(23) == Registers(0x21283486, 0x33A23BFC, 0x868DEC32, 0x7F67875F, 0x77192407);
    AtNext(23);
    assert At(24) == Registers(0xD541F12D, 0x21283486, 0x0CE88EFF, 0x868DEC32, 0x7F67875F);
    AtNext(24);
    assert At(25) == Registers(0xC7567DC6, 0xD541F12D, 0x884A0D21, 0x0CE88EFF, 0x868DEC32);
    AtNext(25);
    assert At(26) == Registers(0x48413BA4, 0xC7567DC6, 0x75507C4B, 0x884A0D21, 0x0CE88EFF);
    AtNext(26);
    assert At(27) == Registers(0xBE35FBD5, 0x48413BA4, 0xB1D59F71, 0x75507C4B, 0x884A0D21);
    AtNext(27);
    assert At(28) == Registers(0x4AA84D97, 0xBE35FBD5, 0x12104EE9, 0xB1D59F71, 0x75507C4B);
    AtNext(28);
    assert At(29) == Registers(0x8370B52E, 0x4AA84D97, 0x6F8D7EF5, 0x12104EE9, 0xB1D59F71);
    AtNext(29);
  }

  lemma RoundsTo40()
    ensures At(40) == Registers(0x32DE1CBA, 0x4C986405, 0xF718E5CF, 0x03D447F6, 0xF72EEC32)
  {
    hide Wd, At;
    WordsTo32();
    WordsTo48();
    RoundsTo30();
    AtNext(30);
    assert At(31) == Registers(0x1267B407, 0xC5FBAF5D, 0xA0DC2D4B, 0xD2AA1365, 0x6F8D7EF5);
    AtNext(31);
    assert At(32) == Registers(0x3B845D33, 0x1267B407, 0x717EEBD7, 0xA0DC2D4B, 0xD2AA1365);
    AtNext(32);
    assert At(33) == Registers(0x046FAA0A, 0x3B845D33, 0xC499ED01, 0x717EEBD7, 0xA0DC2D4B);
    AtNext(33);
    assert At(34) == Registers(0x2C0EBC11, 0x046FAA0A, 0xCEE1174C, 0xC499ED01, 0x717EEBD7);
    AtNext(34);
    assert At(35) == Registers(0x21796AD4, 0x2C0EBC11, 0x811BEA82, 0xCEE1174C, 0xC499ED01);
    AtNext(35);
    assert At(36) == Registers(0xDCBBB0CB, 0x21796AD4, 0x4B03AF04, 0x811BEA82, 0xCEE1174C);
    AtNext(36);
    assert At(37) == Registers(0x0F511FD8, 0xDCBBB0CB, 0x085E5AB5, 0x4B03AF04, 0x811BEA82);
    AtNext(37);
    assert At(38) == Registers(0xDC63973F, 0x0F511FD8, 0xF72EEC32, 0x085E5AB5, 0x4B03AF04);
    AtNext(38);
    assert At(39) == Registers(0x4C986405, 0xDC63973F, 0x03D447F6, 0xF72EEC32, 0x085E5AB5);
    AtNext(39);
  }

  lemma RoundsTo50()
    ensures At(50) == Registers(0x120731C5, 0xBAF39337, 0xAFAB40B2, 0x2806E11B, 0x8714787C)
  {
    hide Wd, At;
    WordsTo48();
    WordsTo64();
    RoundsTo40();
    AtNext(40);
    assert At(41) == Registers(0xFC87DEDF, 0x32DE1CBA, 0x53261901, 0xF718E5CF, 0x03D447F6);
    AtNext(41);
    assert At(42) == Registers(0x970A0D5C, 0xFC87DEDF, 0x8CB7872E, 0x53261901, 0xF718E5CF);
    AtNext(42);
    assert At(43) == Registers(0x7F193DC5, 0x970A0D5C, 0xFF21F7B7, 0x8CB7872E, 0x53261901);
    AtNext(43);
    assert At(44) == Registers(0xEE1B1AAF, 0x7F193DC5, 0x25C28357, 0xFF21F7B7, 0x8CB7872E);
    AtNext(44);
    assert At(45) == Registers(0x40F28E09, 0xEE1B1AAF, 0x5FC64F71, 0x25C28357, 0xFF21F7B7);
    AtNext(45);
    assert At(46) == Registers(0x1C51E1F2, 0x40F28E09, 0xFB86C6AB, 0x5FC64F71, 0x25C28357);
    AtNext(46);
    assert At(47) == Registers(0xA01B846C, 0x1C51E1F2, 0x503CA382, 0xFB86C6AB, 0x5FC64F71);
    AtNext(47);
    assert At(48) == Registers(0xBEAD02CA, 0xA01B846C, 0x8714787C, 0x503CA382, 0xFB86C6AB);
    AtNext(48);
    assert At(49) == Registers(0xBAF39337, 0xBEAD02CA, 0x2806E11B, 0x8714787C, 0x503CA382);
    AtNext(49);
  }

  lemma RoundsTo60()
    ensures At(60) == Registers(0x3F52DE5A, 0x09D785FD, 0x3498BFD4, 0xF211824F, 0xD79915AB)
  {
    hide Wd, At;
    WordsTo64();
    RoundsTo50();
    AtNext(50);
    assert At(51) == Registers(0x641DB2CE, 0x120731C5, 0xEEBCE4CD, 0xAFAB40B2, 0x2806E11B);
    AtNext(51);
    assert At(52) == Registers(0x3847AD66, 0x641DB2CE, 0x4481CC71, 0xEEBCE4CD, 0xAFAB40B2);
    AtNext(52);
    assert At(53) == Registers(0xE490436D, 0x3847AD66, 0x99076CB3, 0x4481CC71, 0xEEBCE4CD);
    AtNext(53);
    assert At(54) == Registers(0x27E9F1D8, 0xE490436D, 0x8E11EB59, 0x99076CB3, 0x4481CC71);
    AtNext(54);
    assert At(55) == Registers(0x7B71F76D, 0x27E9F1D8, 0x792410DB, 0x8E11EB59, 0x99076CB3);
    AtNext(55);
    assert At(56) == Registers(0x5E6456AF, 0x7B71F76D, 0x09FA7C76, 0x792410DB, 0x8E11EB59);
    AtNext(56);
    assert At(57) == Registers(0xC846093F, 0x5E6456AF, 0x5EDC7DDB, 0x09FA7C76, 0x792410DB);
    AtNext(57);
    assert At(58) == Registers(0xD262FF50, 0xC846093F, 0xD79915AB, 0x5EDC7DDB, 0x09FA7C76);
    AtNext(58);
    assert At(59) == Registers(0x09D785FD, 0xD262FF50, 0xF211824F, 0xD79915AB, 0x5EDC7DDB);
    AtNext(59);
  }

  lemma RoundsTo70()
    ensures At(70) == Registers(0x3F2588C2, 0x497093C0, 0xDE37534A, 0x030F7CAD, 0x4405957E)
  {
    hide Wd, At;
    WordsTo64();
    WordsTo80();
    RoundsTo60();
    AtNext(60);
    assert At(61) == Registers(0xD756C147, 0x3F52DE5A, 0x4275E17F, 0x3498BFD4, 0xF211824F);
    AtNext(61);
    assert At(62) == Registers(0x548C9CB2, 0xD756C147, 0x8FD4B796, 0x4275E17F, 0x3498BFD4);
    AtNext(62);
    assert At(63) == Registers(0xB66C020B, 0x548C9CB2, 0xF5D5B051, 0x8FD4B796, 0x4275E17F);
    AtNext(63);
    assert At(64) == Registers(0x6B61C9E1, 0xB66C020B, 0x9523272C, 0xF5D5B051, 0x8FD4B796);
    AtNext(64);
    assert At(65) == Registers(0x19DFA7AC, 0x6B61C9E1, 0xED9B0082, 0x9523272C, 0xF5D5B051);
    AtNext(65);
    assert At(66) == Registers(0x101655F9, 0x19DFA7AC, 0x5AD87278, 0xED9B0082, 0x9523272C);
    AtNext(66);
    assert At(67) == Registers(0x0C3DF2B4, 0x101655F9, 0x0677E9EB, 0x5AD87278, 0xED9B0082);
    AtNext(67);
    assert At(68) == Registers(0x78DD4D2B, 0x0C3DF2B4, 0x4405957E, 0x0677E9EB, 0x5AD87278);
    AtNext(68);
    assert At(69) == Registers(0x497093C0, 0x78DD4D2B, 0x030F7CAD, 0x4405957E, 0x0677E9EB);
    AtNext(69);
  }

  lemma RoundsTo80()
    ensures At(80) == Registers(0x42541B35, 0x5738D5E1, 0x21834873, 0x681E6DF6, 0xD8FDF6AD)
  {
    hide Wd, At;
    WordsTo80();
    RoundsTo70();
    AtNext(70);
    assert At(71) == Registers(0xC199F8C7, 0x3F2588C2, 0x125C24F0, 0xDE37534A, 0x030F7CAD);
    AtNext(71);
    assert At(72) == Registers(0x39859DE7, 0xC199F8C7, 0x8FC96230, 0x125C24F0, 0xDE37534A);
    AtNext(72);
    assert At(73) == Registers(0xEDB42DE4, 0x39859DE7, 0xF0667E31, 0x8FC96230, 0x125C24F0);
    AtNext(73);
    assert At(74) == Registers(0x11793F6F, 0xEDB42DE4, 0xCE616779, 0xF0667E31, 0x8FC96230);
    AtNext(74);
    assert At(75) == Registers(0x5EE76897, 0x11793F6F, 0x3B6D0B79, 0xCE616779, 0xF0667E31);
    AtNext(75);
    assert At(76) == Registers(0x63F7DAB7, 0x5EE76897, 0xC45E4FDB, 0x3B6D0B79, 0xCE616779);
    AtNext(76);
    assert At(77) == Registers(0xA079B7D9, 0x63F7DAB7, 0xD7B9DA25, 0xC45E4FDB, 0x3B6D0B79);
    AtNext(77);
    assert At(78) == Registers(0x860D21CC, 0xA079B7D9, 0xD8FDF6AD, 0xD7B9DA25, 0xC45E4FDB);
    AtNext(78);
    assert At(79) == Registers(0x5738D5E1, 0x860D21CC, 0x681E6DF6, 0xD8FDF6AD, 0xD7B9DA25);
    AtNext(79);
  }

  const ABC_DIGEST: seq<Byte> :=
    [0xA9, 0x99, 0x3E, 0x36, 0x47, 0x06, 0x81, 0x6A, 0xBA, 0x3E,
     0x25, 0x71, 0x78, 0x50, 0xC2, 0x6C, 0x9C, 0xD0, 0xD8, 0x9D]

  lemma AbcCompressed()
    ensures |ABC_BLOCK| == BLOCK && Compress(INITIAL, ABC_BLOCK) == Registers(0xA9993E36, 0x4706816A, 0xBA3E2571, 0x7850C26C, 0x9CD0D89D)
  {
    hide Rounds;
    BlockSize();
    RoundsTo80();
  }

  // SHA-1("abc") = a9993e36 4706816a ba3e2571 7850c26c 9cd0d89d
  lemma AbcDigest()
    ensures Sha1(ABC) == ABC_DIGEST
  {
    hide Compress, HashBlocks, ABC_BLOCK, Marked, LengthField;
    AbcIsPadded();
    AbcCompressed();
    OneBlock(ABC_BLOCK);
    BytesOfDigest();
  }

  lemma OneBlock(block: seq<Byte>)
    requires |block| == BLOCK
    ensures HashBlocks(block) == Compress(INITIAL, block)
  {
    hide Compress;
    assert block[..0] == [] && block[0..] == block;
  }

  lemma BytesOfDigest()
    ensures RegisterBytes(Registers(0xA9993E36, 0x4706816A, 0xBA3E2571, 0x7850C26C, 0x9CD0D89D)) == ABC_DIGEST
  {
    hide WordByte, RegisterBytes;
    var r := Registers(0xA9993E36, 0x4706816A, 0xBA3E2571, 0x7850C26C, 0x9CD0D89D);
    BytesOfWord0();
    BytesOfWord1();
    BytesOfWord2();
    BytesOfWord3();
    BytesOfWord4();
    RegisterAt(r, 0);
    RegisterAt(r, 1);
    RegisterAt(r, 2);
    RegisterAt(r, 3);
    RegisterAt(r, 4);
  }

  lemma RegisterAt(r: Registers, k: nat)
    requires k < 5
    ensures var b, w := RegisterBytes(r), Register(r, k);
            && |b| == 20 && b[4 * k] == WordByte(w, 0) && b[4 * k + 1] == WordByte(w, 1) && b[4 * k + 2] == WordByte(w, 2)
            && b[4 * k + 3] == WordByte(w, 3)
  {
    hide WordByte, Register;
  }

  lemma BytesOfWord0()
    ensures WordByte(0xA9993E36, 0) == 0xA9 && WordByte(0xA9993E36, 1) == 0x99
    ensures WordByte(0xA9993E36, 2) == 0x3E && WordByte(0xA9993E36, 3) == 0x36
  {
    hide WordByte;
    WordBytesAre(0xA9993E36);
  }

  lemma BytesOfWord1()
    ensures WordByte(0x4706816A, 0) == 0x47 && WordByte(0x4706816A, 1) == 0x06
    ensures WordByte(0x4706816A, 2) == 0x81 && WordByte(0x4706816A, 3) == 0x6A
  {
    hide WordByte;
    WordBytesAre(0x4706816A);
  }

  lemma BytesOfWord2()
    ensures WordByte(0xBA3E2571, 0) == 0xBA && WordByte(0xBA3E2571, 1) == 0x3E
    ensures WordByte(0xBA3E2571, 2) == 0x25 && WordByte(0xBA3E2571, 3) == 0x71
  {
    hide WordByte;
    WordBytesAre(0xBA3E2571);
  }

  lemma BytesOfWord3()
    ensures WordByte(0x7850C26C, 0) == 0x78 && WordByte(0x7850C26C, 1) == 0x50
    ensures WordByte(0x7850C26C, 2) == 0xC2 && WordByte(0x7850C26C, 3) == 0x6C
  {
    hide WordByte;
    WordBytesAre(0x7850C26C);
  }

  lemma BytesOfWord4()
    ensures WordByte(0x9CD0D89D, 0) == 0x9C && WordByte(0x9CD0D89D, 1) == 0xD0
    ensures WordByte(0x9CD0D89D, 2) == 0xD8 && WordByte(0x9CD0D89D, 3) == 0x9D
  {
    hide WordByte;
    WordBytesAre(0x9CD0D89D);
  }

  lemma WordBytesAre(w: Word)
    ensures WordByte(w, 0) == LowByteOf(w >> 24) && WordByte(w, 1) == LowByteOf(w >> 16)
    ensures WordByte(w, 2) == LowByteOf(w >> 8) && WordByte(w, 3) == LowByteOf(w)
  {
    hide WordByte, LowByteOf;
    DigestByteIs(w, 0);
    DigestByteIs(w, 1);
    DigestByteIs(w, 2);
    DigestByteIs(w, 3);
  }
}
