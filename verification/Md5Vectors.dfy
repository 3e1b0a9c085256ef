/** The digests of the empty message and of "abc", as the test suite of RFC 1321, section A.5,
    gives them: the sixty-four steps of their one chunk, number by number. */
module Md5Vectors {
  import opened Bytes
  import opened Files
  import opened Md5Block
  import opened Md5

  /** One step, with what goes into it and the word it makes. */
  lemma {:induction false} OneTo(q: Chain, x: seq<Word>, i: nat, a: Word, b: Word, c: Word, d: Word, f: Word,
                                 w: Word, s: nat, t: Word, r: Word)
    requires |x| == 16 && i < 64 && s <= 32 && Steps(q, x, i) == Chain(a, b, c, d)
    requires f == Mix(i, b, c, d) && w == x[Index(i)] && s == Shift(i) && t == T(i) && r == Line(f, a, b, w, s, t)
    ensures Steps(q, x, i + 1) == Chain(d, r, b, c)
  {
    hide Line, Mix, Index, Shift, T;
  }

  // ---------------------------------------------------------------------
  // Words and bytes
  // ---------------------------------------------------------------------

  lemma {:induction false} StartIs()
    ensures START == Chain(0x6745_2301, 0xEFCD_AB89, 0x98BA_DCFE, 0x1032_5476)
  {
  }

  /** The starting words, low-order byte first, count up and down again. */
  lemma {:induction false} StartBytes()
    ensures DigestOf(START) == [0x01, 0x23, 0x45, 0x67, 0x89, 0xab, 0xcd, 0xef,
                                0xfe, 0xdc, 0xba, 0x98, 0x76, 0x54, 0x32, 0x10]
  {
    hide DigestOf;
    DigestBytes(START, [0x01, 0x23, 0x45, 0x67, 0x89, 0xab, 0xcd, 0xef,
                        0xfe, 0xdc, 0xba, 0x98, 0x76, 0x54, 0x32, 0x10]);
  }

  /** A message of less than 32 bytes takes one chunk, and its length one byte. */
  lemma {:induction false} PaddedShort(m: seq<Byte>)
    requires |m| < 32
    ensures |Padded(m)| == 64 && Padded(m)[..|m|] == m && Padded(m)[|m|] == 0x80
    ensures forall k :: |m| < k < 64 && k != 56 ==> Padded(m)[k] == 0
    ensures Padded(m)[56] == 8 * |m|
  {
    var n := 8 * |m|;
    LeOfCons(n, 0, 8);
    LeOfZero(7);
    assert PadSize(|m|) == 56 - |m| && Wrap64(n) == n;
    hide Le, PadSize, Wrap64;
    assert Padded(m) == m + [0x80] + Repeat<Byte>(0, 55 - |m|) + ([n] + Repeat<Byte>(0, 7));
    hide Padded;
  }

  lemma {:induction false} OneChunk(m: seq<Byte>)
    requires |Padded(m)| == 64
    ensures Md5Of(m) == DigestOf(Compress(START, Padded(m)))
  {
    hide Compress, Padded, DigestOf;
    var p := Padded(m);
    assert p[..CSUM_CHUNK] == p && p[CSUM_CHUNK..] == [];
    var c := Compress(START, p);
    assert Fold(c, []) == c;
    assert Fold(START, p) == Fold(c, p[CSUM_CHUNK..]);
  }

  /** Four words, as the sixteen bytes they are. */
  lemma {:induction false} DigestBytes(c: Chain, s: seq<Byte>)
    requires |s| == 16
    requires c.a as nat == Number(s[0], s[1], s[2], s[3])
    requires c.b as nat == Number(s[4], s[5], s[6], s[7])
    requires c.c as nat == Number(s[8], s[9], s[10], s[11])
    requires c.d as nat == Number(s[12], s[13], s[14], s[15])
    ensures DigestOf(c) == s
  {
    hide Le, Number;
    FourLe(s[0], s[1], s[2], s[3]);
    FourLe(s[4], s[5], s[6], s[7]);
    FourLe(s[8], s[9], s[10], s[11]);
    FourLe(s[12], s[13], s[14], s[15]);
    assert s == [s[0], s[1], s[2], s[3]] + [s[4], s[5], s[6], s[7]] + [s[8], s[9], s[10], s[11]]
                + [s[12], s[13], s[14], s[15]];
  }

  /** Four bytes of a chunk, as the word they are. */
  lemma {:induction false} WordIs(m: seq<Byte>, k: nat, p: nat, w: Word)
    requires p == 4 * k && p + 4 <= |m| && w as nat == Number(m[p], m[p + 1], m[p + 2], m[p + 3])
    ensures WordAt(m, k) == w
  {
    hide FromLe, Number;
    assert m[p..p + 4] == [m[p], m[p + 1], m[p + 2], m[p + 3]];
    FourLe(m[p], m[p + 1], m[p + 2], m[p + 3]);
    assert (w as nat) as Word == w;
  }

  lemma {:induction false} CompressIs(q: Chain, m: seq<Byte>, x: seq<Word>, s: Chain)
    requires |m| == CSUM_CHUNK && |x| == 16 && Words(m) == x && Steps(q, x, 64) == s
    ensures Compress(q, m) == Chain(Plus(q.a, s.a), Plus(q.b, s.b), Plus(q.c, s.c), Plus(q.d, s.d))
  {
    hide Steps, Words, Plus;
  }

  // ---------------------------------------------------------------------
  // The empty message
  // ---------------------------------------------------------------------

  function EmptyWord(k: nat): (w: Word) {
    if k == 0 then 0x0000_0080 else 0
  }

  function EmptyWords(): (x: seq<Word>)
    ensures |x| == 16
  {
    seq(16, k requires 0 <= k < 16 => EmptyWord(k))
  }

  /** What the first sixteen steps work out. */
  lemma {:induction false} EmptyRound1()
    ensures Mix(0, 0xEFCD_AB89, 0x98BA_DCFE, 0x1032_5476) == 0x98BA_DCFE
    ensures Line(0x98BA_DCFE, 0x6745_2301, 0xEFCD_AB89, 0x0000_0080, 7, 0xD76A_A478) == 0xA520_2774
    ensures Mix(1, 0xA520_2774, 0xEFCD_AB89, 0x98BA_DCFE) == 0xBD9A_FB8A
    ensures Line(0xBD9A_FB8A, 0x1032_5476, 0xA520_2774, 0, 12, 0xE8C7_B756) == 0xF595_92DD
    ensures Mix(2, 0xF595_92DD, 0xA520_2774, 0xEFCD_AB89) == 0xAF48_2B54
    ensures Line(0xAF48_2B54, 0x98BA_DCFE, 0xF595_92DD, 0, 17, 0x2420_70DB) == 0xE7F0_6B23
    ensures Mix(3, 0xE7F0_6B23, 0xF595_92DD, 0xA520_2774) == 0xE590_0655
    ensures Line(0xE590_0655, 0xEFCD_AB89, 0xE7F0_6B23, 0, 22, 0xC1BD_CEEE) == 0x1B16_3203
    ensures Mix(4, 0x1B16_3203, 0xE7F0_6B23, 0xF595_92DD) == 0xE791_A2DF
    ensures Line(0xE791_A2DF, 0xA520_2774, 0x1B16_3203, 0, 7, 0xF57C_0FAF) == 0x3203_3344
    ensures Mix(5, 0x3203_3344, 0x1B16_3203, 0xE7F0_6B23) == 0xD7F2_7A23
    ensures Line(0xD7F2_7A23, 0xF595_92DD, 0x3203_3344, 0, 12, 0x4787_C62A) == 0x2F35_D494
    ensures Mix(6, 0x2F35_D494, 0x3203_3344, 0x1B16_3203) == 0x3203_3207
    ensures Line(0x3203_3207, 0xE7F0_6B23, 0x2F35_D494, 0, 17, 0xA830_4613) == 0xF5B1_58DB
    ensures Mix(7, 0xF5B1_58DB, 0x2F35_D494, 0x3203_3344) == 0x2733_7394
    ensures Line(0x2733_7394, 0x1B16_3203, 0xF5B1_58DB, 0, 22, 0xFD46_9501) == 0x9BC1_3CE9
    ensures Mix(8, 0x9BC1_3CE9, 0xF5B1_58DB, 0x2F35_D494) == 0xB5B5_D8DD
    ensures Line(0xB5B5_D8DD, 0x3203_3344, 0x9BC1_3CE9, 0, 7, 0x6980_98D8) == 0x3893_B991
    ensures Mix(9, 0x3893_B991, 0x9BC1_3CE9, 0xF5B1_58DB) == 0xDDA1_78CB
    ensures Line(0xDDA1_78CB, 0x2F35_D494, 0x3893_B991, 0, 12, 0x8B44_F7AF) == 0xFCE4_A312
    ensures Mix(10, 0xFCE4_A312, 0x3893_B991, 0x9BC1_3CE9) == 0x3B81_BDF9
    ensures Line(0x3B81_BDF9, 0xF5B1_58DB, 0xFCE4_A312, 0, 17, 0xFFFF_5BB1) == 0xE1EF_0576
    ensures Mix(11, 0xE1EF_0576, 0xFCE4_A312, 0x3893_B991) == 0xF8F4_B993
    ensures Line(0xF8F4_B993, 0x9BC1_3CE9, 0xE1EF_0576, 0, 22, 0x895C_D7BE) == 0x7076_8A29
    ensures Mix(12, 0x7076_8A29, 0xE1EF_0576, 0xFCE4_A312) == 0xECE6_2132
    ensures Line(0xECE6_2132, 0x3893_B991, 0x7076_8A29, 0, 7, 0x6B90_1122) == 0xF56C_7CF1
    ensures Mix(13, 0xF56C_7CF1, 0x7076_8A29, 0xE1EF_0576) == 0x70E7_0927
    ensures Line(0x70E7_0927, 0xFCE4_A312, 0xF56C_7CF1, 0, 12, 0xFD98_7193) == 0x3749_43A7
    ensures Mix(14, 0x3749_43A7, 0xF56C_7CF1, 0x7076_8A29) == 0x757E_C8A9
    ensures Line(0x757E_C8A9, 0xE1EF_0576, 0x3749_43A7, 0, 17, 0xA679_438E) == 0x5AA5_3F75
    ensures Mix(15, 0x5AA5_3F75, 0x3749_43A7, 0xF56C_7CF1) == 0xB749_43A5
    ensures Line(0xB749_43A5, 0x7076_8A29, 0x5AA5_3F75, 0, 22, 0x49B4_0821) == 0xD681_9C6A
  {
  }

  lemma {:induction false} EmptySteps0(q: Chain, i: nat)
    requires i == 0 && Steps(q, EmptyWords(), i) == Chain(0x6745_2301, 0xEFCD_AB89, 0x98BA_DCFE, 0x1032_5476)
    ensures Steps(q, EmptyWords(), i + 4) == Chain(0xA520_2774, 0x1B16_3203, 0xE7F0_6B23, 0xF595_92DD)
  {
    hide Steps, Mix, Line;
    EmptyRound1();
    var x := EmptyWords();
    OneTo(q, x, 0, 0x6745_2301, 0xEFCD_AB89, 0x98BA_DCFE, 0x1032_5476,
          0x98BA_DCFE, 0x0000_0080, 7, 0xD76A_A478, 0xA520_2774);
    OneTo(q, x, 1, 0x1032_5476, 0xA520_2774, 0xEFCD_AB89, 0x98BA_DCFE,
          0xBD9A_FB8A, 0, 12, 0xE8C7_B756, 0xF595_92DD);
    OneTo(q, x, 2, 0x98BA_DCFE, 0xF595_92DD, 0xA520_2774, 0xEFCD_AB89,
          0xAF48_2B54, 0, 17, 0x2420_70DB, 0xE7F0_6B23);
    OneTo(q, x, 3, 0xEFCD_AB89, 0xE7F0_6B23, 0xF595_92DD, 0xA520_2774,
          0xE590_0655, 0, 22, 0xC1BD_CEEE, 0x1B16_3203);
  }

  lemma {:induction false} EmptySteps1(q: Chain, i: nat)
    requires i == 4 && Steps(q, EmptyWords(), i) == Chain(0xA520_2774, 0x1B16_3203, 0xE7F0_6B23, 0xF595_92DD)
    ensures Steps(q, EmptyWords(), i + 4) == Chain(0x3203_3344, 0x9BC1_3CE9, 0xF5B1_58DB, 0x2F35_D494)
  {
    hide Steps, Mix, Line;
    EmptyRound1();
    var x := EmptyWords();
    OneTo(q, x, 4, 0xA520_2774, 0x1B16_3203, 0xE7F0_6B23, 0xF595_92DD,
          0xE791_A2DF, 0, 7, 0xF57C_0FAF, 0x3203_3344);
    OneTo(q, x, 5, 0xF595_92DD, 0x3203_3344, 0x1B16_3203, 0xE7F0_6B23,
          0xD7F2_7A23, 0, 12, 0x4787_C62A, 0x2F35_D494);
    OneTo(q, x, 6, 0xE7F0_6B23, 0x2F35_D494, 0x3203_3344, 0x1B16_3203,
          0x3203_3207, 0, 17, 0xA830_4613, 0xF5B1_58DB);
    OneTo(q, x, 7, 0x1B16_3203, 0xF5B1_58DB, 0x2F35_D494, 0x3203_3344,
          0x2733_7394, 0, 22, 0xFD46_9501, 0x9BC1_3CE9);
  }

  lemma {:induction false} EmptySteps2(q: Chain, i: nat)
    requires i == 8 && Steps(q, EmptyWords(), i) == Chain(0x3203_3344, 0x9BC1_3CE9, 0xF5B1_58DB, 0x2F35_D494)
    ensures Steps(q, EmptyWords(), i + 4) == Chain(0x3893_B991, 0x7076_8A29, 0xE1EF_0576, 0xFCE4_A312)
  {
    hide Steps, Mix, Line;
    EmptyRound1();
    var x := EmptyWords();
    OneTo(q, x, 8, 0x3203_3344, 0x9BC1_3CE9, 0xF5B1_58DB, 0x2F35_D494,
          0xB5B5_D8DD, 0, 7, 0x6980_98D8, 0x3893_B991);
    OneTo(q, x, 9, 0x2F35_D494, 0x3893_B991, 0x9BC1_3CE9, 0xF5B1_58DB,
          0xDDA1_78CB, 0, 12, 0x8B44_F7AF, 0xFCE4_A312);
    OneTo(q, x, 10, 0xF5B1_58DB, 0xFCE4_A312, 0x3893_B991, 0x9BC1_3CE9,
          0x3B81_BDF9, 0, 17, 0xFFFF_5BB1, 0xE1EF_0576);
    OneTo(q, x, 11, 0x9BC1_3CE9, 0xE1EF_0576, 0xFCE4_A312, 0x3893_B991,
          0xF8F4_B993, 0, 22, 0x895C_D7BE, 0x7076_8A29);
  }

  lemma {:induction false} EmptySteps3(q: Chain, i: nat)
    requires i == 12 && Steps(q, EmptyWords(), i) == Chain(0x3893_B991, 0x7076_8A29, 0xE1EF_0576, 0xFCE4_A312)
    ensures Steps(q, EmptyWords(), i + 4) == Chain(0xF56C_7CF1, 0xD681_9C6A, 0x5AA5_3F75, 0x3749_43A7)
  {
    hide Steps, Mix, Line;
    EmptyRound1();
    var x := EmptyWords();
    OneTo(q, x, 12, 0x3893_B991, 0x7076_8A29, 0xE1EF_0576, 0xFCE4_A312,
          0xECE6_2132, 0, 7, 0x6B90_1122, 0xF56C_7CF1);
    OneTo(q, x, 13, 0xFCE4_A312, 0xF56C_7CF1, 0x7076_8A29, 0xE1EF_0576,
          0x70E7_0927, 0, 12, 0xFD98_7193, 0x3749_43A7);
    OneTo(q, x, 14, 0xE1EF_0576, 0x3749_43A7, 0xF56C_7CF1, 0x7076_8A29,
          0x757E_C8A9, 0, 17, 0xA679_438E, 0x5AA5_3F75);
    OneTo(q, x, 15, 0x7076_8A29, 0x5AA5_3F75, 0x3749_43A7, 0xF56C_7CF1,
          0xB749_43A5, 0, 22, 0x49B4_0821, 0xD681_9C6A);
  }

  /** What the second sixteen steps work out. */
  lemma {:induction false} EmptyRound2()
    ensures Mix(16, 0xD681_9C6A, 0x5AA5_3F75, 0x3749_43A7) == 0x5EA5_3C72
    ensures Line(0x5EA5_3C72, 0xF56C_7CF1, 0xD681_9C6A, 0, 5, 0xF61E_2562) == 0x1C7D_7513
    ensures Mix(17, 0x1C7D_7513, 0xD681_9C6A, 0x5AA5_3F75) == 0x9C25_B51B
    ensures Line(0x9C25_B51B, 0x3749_43A7, 0x1C7D_7513, 0, 9, 0xC040_B340) == 0x7BD5_7A3A
    ensures Mix(18, 0x7BD5_7A3A, 0x1C7D_7513, 0xD681_9C6A) == 0x5AFD_793B
    ensures Line(0x5AFD_793B, 0x5AA5_3F75, 0x7BD5_7A3A, 0, 14, 0x265E_5A51) == 0xC095_F13A
    ensures Mix(19, 0xC095_F13A, 0x7BD5_7A3A, 0x1C7D_7513) == 0x6395_7B3A
    ensures Line(0x6395_7B3A, 0xD681_9C6A, 0xC095_F13A, 0x0000_0080, 20, 0xE9B6_C7AA) == 0xBD78_2E17
    ensures Mix(20, 0xBD78_2E17, 0xC095_F13A, 0x7BD5_7A3A) == 0xB950_AB12
    ensures Line(0xB950_AB12, 0x1C7D_7513, 0xBD78_2E17, 0, 5, 0xD62F_105D) == 0x3D1E_3E6C
    ensures Mix(21, 0x3D1E_3E6C, 0xBD78_2E17, 0xC095_F13A) == 0x3D7C_3E2D
    ensures Line(0x3D7C_3E2D, 0x7BD5_7A3A, 0x3D1E_3E6C, 0, 9, 0x0244_1453) == 0x68B7_B3E3
    ensures Mix(22, 0x68B7_B3E3, 0x3D1E_3E6C, 0xBD78_2E17) == 0x2836_326B
    ensures Line(0x2836_326B, 0xC095_F13A, 0x68B7_B3E3, 0, 14, 0xD8A1_E681) == 0xEB41_643E
    ensures Mix(23, 0xEB41_643E, 0x68B7_B3E3, 0x3D1E_3E6C) == 0x69A1_A5AF
    ensures Line(0x69A1_A5AF, 0xBD78_2E17, 0xEB41_643E, 0, 20, 0xE7D3_FBC8) == 0xE422_531A
    ensures Mix(24, 0xE422_531A, 0xEB41_643E, 0x68B7_B3E3) == 0xE362_571E
    ensures Line(0xE362_571E, 0x3D1E_3E6C, 0xE422_531A, 0, 5, 0x21E1_CDE6) == 0x306E_C122
    ensures Mix(25, 0x306E_C122, 0xE422_531A, 0xEB41_643E) == 0x2462_5322
    ensures Line(0x2462_5322, 0x68B7_B3E3, 0x306E_C122, 0, 9, 0xC337_07D6) == 0xD28C_77C2
    ensures Mix(26, 0xD28C_77C2, 0x306E_C122, 0xE422_531A) == 0xD04C_D322
    ensures Line(0xD04C_D322, 0xEB41_643E, 0xD28C_77C2, 0, 14, 0xF4D5_0D87) == 0xA3C6_63DA
    ensures Mix(27, 0xA3C6_63DA, 0xD28C_77C2, 0x306E_C122) == 0xE2C6_77C2
    ensures Line(0xE2C6_77C2, 0xE422_531A, 0xA3C6_63DA, 0, 20, 0x455A_14ED) == 0xA057_2807
    ensures Mix(28, 0xA057_2807, 0xA3C6_63DA, 0xD28C_77C2) == 0xA146_201A
    ensures Line(0xA146_201A, 0x306E_C122, 0xA057_2807, 0, 5, 0xA9E3_E905) == 0x1370_7036
    ensures Mix(29, 0x1370_7036, 0xA057_2807, 0xA3C6_63DA) == 0x0351_6817
    ensures Line(0x0351_6817, 0xD28C_77C2, 0x1370_7036, 0, 9, 0xFCEF_A3F8) == 0xAE78_13DB
    ensures Mix(30, 0xAE78_13DB, 0x1370_7036, 0xA057_2807) == 0xB370_5033
    ensures Line(0xB370_5033, 0xA3C6_63DA, 0xAE78_13DB, 0, 14, 0x676F_02D9) == 0x1C31_C384
    ensures Mix(31, 0x1C31_C384, 0xAE78_13DB, 0x1370_7036) == 0xBC38_43CD
    ensures Line(0xBC38_43CD, 0xA057_2807, 0x1C31_C384, 0, 20, 0x8D2A_4C8A) == 0xA220_5F1F
  {
  }

  lemma {:induction false} EmptySteps4(q: Chain, i: nat)
    requires i == 16 && Steps(q, EmptyWords(), i) == Chain(0xF56C_7CF1, 0xD681_9C6A, 0x5AA5_3F75, 0x3749_43A7)
    ensures Steps(q, EmptyWords(), i + 4) == Chain(0x1C7D_7513, 0xBD78_2E17, 0xC095_F13A, 0x7BD5_7A3A)
  {
    hide Steps, Mix, Line;
    EmptyRound2();
    var x := EmptyWords();
    OneTo(q, x, 16, 0xF56C_7CF1, 0xD681_9C6A, 0x5AA5_3F75, 0x3749_43A7,
          0x5EA5_3C72, 0, 5, 0xF61E_2562, 0x1C7D_7513);
    OneTo(q, x, 17, 0x3749_43A7, 0x1C7D_7513, 0xD681_9C6A, 0x5AA5_3F75,
          0x9C25_B51B, 0, 9, 0xC040_B340, 0x7BD5_7A3A);
    OneTo(q, x, 18, 0x5AA5_3F75, 0x7BD5_7A3A, 0x1C7D_7513, 0xD681_9C6A,
          0x5AFD_793B, 0, 14, 0x265E_5A51, 0xC095_F13A);
    OneTo(q, x, 19, 0xD681_9C6A, 0xC095_F13A, 0x7BD5_7A3A, 0x1C7D_7513,
          0x6395_7B3A, 0x0000_0080, 20, 0xE9B6_C7AA, 0xBD78_2E17);
  }

  lemma {:induction false} EmptySteps5(q: Chain, i: nat)
    requires i == 20 && Steps(q, EmptyWords(), i) == Chain(0x1C7D_7513, 0xBD78_2E17, 0xC095_F13A, 0x7BD5_7A3A)
    ensures Steps(q, EmptyWords(), i + 4) == Chain(0x3D1E_3E6C, 0xE422_531A, 0xEB41_643E, 0x68B7_B3E3)
  {
    hide Steps, Mix, Line;
    EmptyRound2();
    var x := EmptyWords();
    OneTo(q, x, 20, 0x1C7D_7513, 0xBD78_2E17, 0xC095_F13A, 0x7BD5_7A3A,
          0xB950_AB12, 0, 5, 0xD62F_105D, 0x3D1E_3E6C);
    OneTo(q, x, 21, 0x7BD5_7A3A, 0x3D1E_3E6C, 0xBD78_2E17, 0xC095_F13A,
          0x3D7C_3E2D, 0, 9, 0x0244_1453, 0x68B7_B3E3);
    OneTo(q, x, 22, 0xC095_F13A, 0x68B7_B3E3, 0x3D1E_3E6C, 0xBD78_2E17,
          0x2836_326B, 0, 14, 0xD8A1_E681, 0xEB41_643E);
    OneTo(q, x, 23, 0xBD78_2E17, 0xEB41_643E, 0x68B7_B3E3, 0x3D1E_3E6C,
          0x69A1_A5AF, 0, 20, 0xE7D3_FBC8, 0xE422_531A);
  }

  lemma {:induction false} EmptySteps6(q: Chain, i: nat)
    requires i == 24 && Steps(q, EmptyWords(), i) == Chain(0x3D1E_3E6C, 0xE422_531A, 0xEB41_643E, 0x68B7_B3E3)
    ensures Steps(q, EmptyWords(), i + 4) == Chain(0x306E_C122, 0xA057_2807, 0xA3C6_63DA, 0xD28C_77C2)
  {
    hide Steps, Mix, Line;
    EmptyRound2();
    var x := EmptyWords();
    OneTo(q, x, 24, 0x3D1E_3E6C, 0xE422_531A, 0xEB41_643E, 0x68B7_B3E3,
          0xE362_571E, 0, 5, 0x21E1_CDE6, 0x306E_C122);
    OneTo(q, x, 25, 0x68B7_B3E3, 0x306E_C122, 0xE422_531A, 0xEB41_643E,
          0x2462_5322, 0, 9, 0xC337_07D6, 0xD28C_77C2);
    OneTo(q, x, 26, 0xEB41_643E, 0xD28C_77C2, 0x306E_C122, 0xE422_531A,
          0xD04C_D322, 0, 14, 0xF4D5_0D87, 0xA3C6_63DA);
    OneTo(q, x, 27, 0xE422_531A, 0xA3C6_63DA, 0xD28C_77C2, 0x306E_C122,
          0xE2C6_77C2, 0, 20, 0x455A_14ED, 0xA057_2807);
  }

  lemma {:induction false} EmptySteps7(q: Chain, i: nat)
    requires i == 28 && Steps(q, EmptyWords(), i) == Chain(0x306E_C122, 0xA057_2807, 0xA3C6_63DA, 0xD28C_77C2)
    ensures Steps(q, EmptyWords(), i + 4) == Chain(0x1370_7036, 0xA220_5F1F, 0x1C31_C384, 0xAE78_13DB)
  {
    hide Steps, Mix, Line;
    EmptyRound2();
    var x := EmptyWords();
    OneTo(q, x, 28, 0x306E_C122, 0xA057_2807, 0xA3C6_63DA, 0xD28C_77C2,
          0xA146_201A, 0, 5, 0xA9E3_E905, 0x1370_7036);
    OneTo(q, x, 29, 0xD28C_77C2, 0x1370_7036, 0xA057_2807, 0xA3C6_63DA,
          0x0351_6817, 0, 9, 0xFCEF_A3F8, 0xAE78_13DB);
    OneTo(q, x, 30, 0xA3C6_63DA, 0xAE78_13DB, 0x1370_7036, 0xA057_2807,
          0xB370_5033, 0, 14, 0x676F_02D9, 0x1C31_C384);
    OneTo(q, x, 31, 0xA057_2807, 0x1C31_C384, 0xAE78_13DB, 0x1370_7036,
          0xBC38_43CD, 0, 20, 0x8D2A_4C8A, 0xA220_5F1F);
  }

  /** What the third sixteen steps work out. */
  lemma {:induction false} EmptyRound3()
    ensures Mix(32, 0xA220_5F1F, 0x1C31_C384, 0xAE78_13DB) == 0x1069_8F40
    ensures Line(0x1069_8F40, 0x1370_7036, 0xA220_5F1F, 0, 4, 0xFFFA_3942) == 0xDF63_EAA1
    ensures Mix(33, 0xDF63_EAA1, 0xA220_5F1F, 0x1C31_C384) == 0x6172_763A
    ensures Line(0x6172_763A, 0xAE78_13DB, 0xDF63_EAA1, 0, 11, 0x8771_F681) == 0xC368_9F5B
    ensures Mix(34, 0xC368_9F5B, 0xDF63_EAA1, 0xA220_5F1F) == 0xBE2B_2AE5
    ensures Line(0xBE2B_2AE5, 0x1C31_C384, 0xC368_9F5B, 0, 16, 0x6D9D_6122) == 0x12F3_E755
    ensures Mix(35, 0x12F3_E755, 0xC368_9F5B, 0xDF63_EAA1) == 0x0EF8_92AF
    ensures Line(0x0EF8_92AF, 0xA220_5F1F, 0x12F3_E755, 0, 23, 0xFDE5_380C) == 0x004B_6669
    ensures Mix(36, 0x004B_6669, 0x12F3_E755, 0xC368_9F5B) == 0xD1D0_1E67
    ensures Line(0xD1D0_1E67, 0xDF63_EAA1, 0x004B_6669, 0, 4, 0xA4BE_EA44) == 0x5F7A_9B2E
    ensures Mix(37, 0x5F7A_9B2E, 0x004B_6669, 0x12F3_E755) == 0x4DC2_1A12
    ensures Line(0x4DC2_1A12, 0xC368_9F5B, 0x5F7A_9B2E, 0, 11, 0x4BDE_CFA9) == 0xABC3_4E16
    ensures Mix(38, 0xABC3_4E16, 0x5F7A_9B2E, 0x004B_6669) == 0xF4F2_B351
    ensures Line(0xF4F2_B351, 0x12F3_E755, 0xABC3_4E16, 0, 16, 0xF6BB_4B60) == 0x91CA_4CB7
    ensures Mix(39, 0x91CA_4CB7, 0xABC3_4E16, 0x5F7A_9B2E) == 0x6573_998F
    ensures Line(0x6573_998F, 0x004B_6669, 0x91CA_4CB7, 0, 23, 0xBEBF_BC70) == 0xC5DC_8C15
    ensures Mix(40, 0xC5DC_8C15, 0x91CA_4CB7, 0xABC3_4E16) == 0xFFD5_8EB4
    ensures Line(0xFFD5_8EB4, 0x5F7A_9B2E, 0xC5DC_8C15, 0, 4, 0x289B_7EC6) == 0x4497_169D
    ensures Mix(41, 0x4497_169D, 0xC5DC_8C15, 0x91CA_4CB7) == 0x1081_D63F
    ensures Line(0x1081_D63F, 0xABC3_4E16, 0x4497_169D, 0x0000_0080, 11, 0xEAA1_27FA) == 0x76FD_93D4
    ensures Mix(42, 0x76FD_93D4, 0x4497_169D, 0xC5DC_8C15) == 0xF7B6_095C
    ensures Line(0xF7B6_095C, 0x91CA_4CB7, 0x76FD_93D4, 0, 16, 0xD4EF_3085) == 0xFD95_F243
    ensures Mix(43, 0xFD95_F243, 0x76FD_93D4, 0x4497_169D) == 0xCFFF_770A
    ensures Line(0xCFFF_770A, 0xC5DC_8C15, 0xFD95_F243, 0, 23, 0x0488_1D05) == 0x0FE3_2453
    ensures Mix(44, 0x0FE3_2453, 0xFD95_F243, 0x76FD_93D4) == 0x848B_45C4
    ensures Line(0x848B_45C4, 0x4497_169D, 0x0FE3_2453, 0, 4, 0xD9D4_D039) == 0x3F55_EDFD
    ensures Mix(45, 0x3F55_EDFD, 0x0FE3_2453, 0xFD95_F243) == 0xCD23_3BED
    ensures Line(0xCD23_3BED, 0x76FD_93D4, 0x3F55_EDFD, 0, 11, 0xE6DB_99E5) == 0x22A3_1F54
    ensures Mix(46, 0x22A3_1F54, 0x3F55_EDFD, 0x0FE3_2453) == 0x1215_D6FA
    ensures Line(0x1215_D6FA, 0xFD95_F243, 0x22A3_1F54, 0, 16, 0x1FA2_7CF8) == 0x68D8_4EA2
    ensures Mix(47, 0x68D8_4EA2, 0x22A3_1F54, 0x3F55_EDFD) == 0x752E_BC0B
    ensures Line(0x752E_BC0B, 0x0FE3_2453, 0x68D8_4EA2, 0, 23, 0xC4AC_5665) == 0xCA7D_2DBD
  {
  }

  lemma {:induction false} EmptySteps8(q: Chain, i: nat)
    requires i == 32 && Steps(q, EmptyWords(), i) == Chain(0x1370_7036, 0xA220_5F1F, 0x1C31_C384, 0xAE78_13DB)
    ensures Steps(q, EmptyWords(), i + 4) == Chain(0xDF63_EAA1, 0x004B_6669, 0x12F3_E755, 0xC368_9F5B)
  {
    hide Steps, Mix, Line;
    EmptyRound3();
    var x := EmptyWords();
    OneTo(q, x, 32, 0x1370_7036, 0xA220_5F1F, 0x1C31_C384, 0xAE78_13DB,
          0x1069_8F40, 0, 4, 0xFFFA_3942, 0xDF63_EAA1);
    OneTo(q, x, 33, 0xAE78_13DB, 0xDF63_EAA1, 0xA220_5F1F, 0x1C31_C384,
          0x6172_763A, 0, 11, 0x8771_F681, 0xC368_9F5B);
    OneTo(q, x, 34, 0x1C31_C384, 0xC368_9F5B, 0xDF63_EAA1, 0xA220_5F1F,
          0xBE2B_2AE5, 0, 16, 0x6D9D_6122, 0x12F3_E755);
    OneTo(q, x, 35, 0xA220_5F1F, 0x12F3_E755, 0xC368_9F5B, 0xDF63_EAA1,
          0x0EF8_92AF, 0, 23, 0xFDE5_380C, 0x004B_6669);
  }

  lemma {:induction false} EmptySteps9(q: Chain, i: nat)
    requires i == 36 && Steps(q, EmptyWords(), i) == Chain(0xDF63_EAA1, 0x004B_6669, 0x12F3_E755, 0xC368_9F5B)
    ensures Steps(q, EmptyWords(), i + 4) == Chain(0x5F7A_9B2E, 0xC5DC_8C15, 0x91CA_4CB7, 0xABC3_4E16)
  {
    hide Steps, Mix, Line;
    EmptyRound3();
    var x := EmptyWords();
    OneTo(q, x, 36, 0xDF63_EAA1, 0x004B_6669, 0x12F3_E755, 0xC368_9F5B,
          0xD1D0_1E67, 0, 4, 0xA4BE_EA44, 0x5F7A_9B2E);
    OneTo(q, x, 37, 0xC368_9F5B, 0x5F7A_9B2E, 0x004B_6669, 0x12F3_E755,
          0x4DC2_1A12, 0, 11, 0x4BDE_CFA9, 0xABC3_4E16);
    OneTo(q, x, 38, 0x12F3_E755, 0xABC3_4E16, 0x5F7A_9B2E, 0x004B_6669,
          0xF4F2_B351, 0, 16, 0xF6BB_4B60, 0x91CA_4CB7);
    OneTo(q, x, 39, 0x004B_6669, 0x91CA_4CB7, 0xABC3_4E16, 0x5F7A_9B2E,
          0x6573_998F, 0, 23, 0xBEBF_BC70, 0xC5DC_8C15);
  }

  lemma {:induction false} EmptySteps10(q: Chain, i: nat)
    requires i == 40 && Steps(q, EmptyWords(), i) == Chain(0x5F7A_9B2E, 0xC5DC_8C15, 0x91CA_4CB7, 0xABC3_4E16)
    ensures Steps(q, EmptyWords(), i + 4) == Chain(0x4497_169D, 0x0FE3_2453, 0xFD95_F243, 0x76FD_93D4)
  {
    hide Steps, Mix, Line;
    EmptyRound3();
    var x := EmptyWords();
    OneTo(q, x, 40, 0x5F7A_9B2E, 0xC5DC_8C15, 0x91CA_4CB7, 0xABC3_4E16,
          0xFFD5_8EB4, 0, 4, 0x289B_7EC6, 0x4497_169D);
    OneTo(q, x, 41, 0xABC3_4E16, 0x4497_169D, 0xC5DC_8C15, 0x91CA_4CB7,
          0x1081_D63F, 0x0000_0080, 11, 0xEAA1_27FA, 0x76FD_93D4);
    OneTo(q, x, 42, 0x91CA_4CB7, 0x76FD_93D4, 0x4497_169D, 0xC5DC_8C15,
          0xF7B6_095C, 0, 16, 0xD4EF_3085, 0xFD95_F243);
    OneTo(q, x, 43, 0xC5DC_8C15, 0xFD95_F243, 0x76FD_93D4, 0x4497_169D,
          0xCFFF_770A, 0, 23, 0x0488_1D05, 0x0FE3_2453);
  }

  lemma {:induction false} EmptySteps11(q: Chain, i: nat)
    requires i == 44 && Steps(q, EmptyWords(), i) == Chain(0x4497_169D, 0x0FE3_2453, 0xFD95_F243, 0x76FD_93D4)
    ensures Steps(q, EmptyWords(), i + 4) == Chain(0x3F55_EDFD, 0xCA7D_2DBD, 0x68D8_4EA2, 0x22A3_1F54)
  {
    hide Steps, Mix, Line;
    EmptyRound3();
    var x := EmptyWords();
    OneTo(q, x, 44, 0x4497_169D, 0x0FE3_2453, 0xFD95_F243, 0x76FD_93D4,
          0x848B_45C4, 0, 4, 0xD9D4_D039, 0x3F55_EDFD);
    OneTo(q, x, 45, 0x76FD_93D4, 0x3F55_EDFD, 0x0FE3_2453, 0xFD95_F243,
          0xCD23_3BED, 0, 11, 0xE6DB_99E5, 0x22A3_1F54);
    OneTo(q, x, 46, 0xFD95_F243, 0x22A3_1F54, 0x3F55_EDFD, 0x0FE3_2453,
          0x1215_D6FA, 0, 16, 0x1FA2_7CF8, 0x68D8_4EA2);
    OneTo(q, x, 47, 0x0FE3_2453, 0x68D8_4EA2, 0x22A3_1F54, 0x3F55_EDFD,
          0x752E_BC0B, 0, 23, 0xC4AC_5665, 0xCA7D_2DBD);
  }

  /** What the last sixteen steps work out. */
  lemma {:induction false} EmptyRound4()
    ensures Mix(48, 0xCA7D_2DBD, 0x68D8_4EA2, 0x22A3_1F54) == 0xB7A5_A31D
    ensures Line(0xB7A5_A31D, 0x3F55_EDFD, 0xCA7D_2DBD, 0x0000_0080, 6, 0xF429_2244) == 0x93AA_2577
    ensures Mix(49, 0x93AA_2577, 0xCA7D_2DBD, 0x68D8_4EA2) == 0x5DD2_98C2
    ensures Line(0x5DD2_98C2, 0x22A3_1F54, 0x93AA_2577, 0, 10, 0x432A_FF97) == 0x1688_DC85
    ensures Mix(50, 0x1688_DC85, 0x93AA_2577, 0xCA7D_2DBD) == 0xA420_FBB0
    ensures Line(0xA420_FBB0, 0x68D8_4EA2, 0x1688_DC85, 0, 15, 0xAB94_23A7) == 0xCD85_B8CB
    ensures Mix(51, 0xCD85_B8CB, 0x1688_DC85, 0x93AA_2577) == 0xFB5D_264E
    ensures Line(0xFB5D_264E, 0xCA7D_2DBD, 0xCD85_B8CB, 0, 21, 0xFC93_A039) == 0x561E_0689
    ensures Mix(52, 0x561E_0689, 0xCD85_B8CB, 0x1688_DC85) == 0x32FA_9F30
    ensures Line(0x32FA_9F30, 0x93AA_2577, 0x561E_0689, 0, 6, 0x655B_59C3) == 0x5625_A114
    ensures Mix(53, 0x5625_A114, 0x561E_0689, 0xCD85_B8CB) == 0x2061_E1BD
    ensures Line(0x2061_E1BD, 0x1688_DC85, 0x5625_A114, 0, 10, 0x8F0C_CC92) == 0x3450_F42B
    ensures Mix(54, 0x3450_F42B, 0x5625_A114, 0x561E_0689) == 0xEBD4_5C6B
    ensures Line(0xEBD4_5C6B, 0xCD85_B8CB, 0x3450_F42B, 0, 15, 0xFFEF_F47D) == 0x392A_D0D0
    ensures Mix(55, 0x392A_D0D0, 0x3450_F42B, 0x5625_A114) == 0x8DAA_2AD0
    ensures Line(0x8DAA_2AD0, 0x561E_0689, 0x392A_D0D0, 0, 21, 0x8584_5DD1) == 0x1E77_FA61
    ensures Mix(56, 0x1E77_FA61, 0x392A_D0D0, 0x3450_F42B) == 0xE6D5_2B25
    ensures Line(0xE6D5_2B25, 0x5625_A114, 0x1E77_FA61, 0, 6, 0x6FA8_7E4F) == 0x474A_9C8C
    ensures Mix(57, 0x474A_9C8C, 0x1E77_FA61, 0x392A_D0D0) == 0xD9A8_45CE
    ensures Line(0xD9A8_45CE, 0x3450_F42B, 0x474A_9C8C, 0, 10, 0xFE2C_E6E0) == 0xDFCE_00BC
    ensures Mix(58, 0xDFCE_00BC, 0x474A_9C8C, 0x1E77_FA61) == 0xB884_9932
    ensures Line(0xB884_9932, 0x392A_D0D0, 0xDFCE_00BC, 0, 15, 0xA301_4314) == 0x3659_4B14
    ensures Mix(59, 0x3659_4B14, 0xDFCE_00BC, 0x474A_9C8C) == 0x6133_6BCB
    ensures Line(0x6133_6BCB, 0x1E77_FA61, 0x3659_4B14, 0, 21, 0x4E08_11A1) == 0x3013_0182
    ensures Mix(60, 0x3013_0182, 0x3659_4B14, 0xDFCE_00BC) == 0x066A_B4D7
    ensures Line(0x066A_B4D7, 0x474A_9C8C, 0x3013_0182, 0, 6, 0xF753_7E82) == 0x7246_FAD3
    ensures Mix(61, 0x7246_FAD3, 0x3013_0182, 0x3659_4B14) == 0xCBF5_FF79
    ensures Line(0xCBF5_FF79, 0xDFCE_00BC, 0x7246_FAD3, 0, 10, 0xBD3A_F235) == 0x6E10_A476
    ensures Mix(62, 0x6E10_A476, 0x7246_FAD3, 0x3013_0182) == 0x9DBA_04AC
    ensures Line(0x9DBA_04AC, 0x3659_4B14, 0x6E10_A476, 0, 15, 0x2AD7_D2BB) == 0xFF4E_A3EB
    ensures Mix(63, 0xFF4E_A3EB, 0x6E10_A476, 0x7246_FAD3) == 0x91EF_0399
    ensures Line(0x91EF_0399, 0x3013_0182, 0xFF4E_A3EB, 0, 21, 0xEB86_D391) == 0x14E4_5506
  {
  }

  lemma {:induction false} EmptySteps12(q: Chain, i: nat)
    requires i == 48 && Steps(q, EmptyWords(), i) == Chain(0x3F55_EDFD, 0xCA7D_2DBD, 0x68D8_4EA2, 0x22A3_1F54)
    ensures Steps(q, EmptyWords(), i + 4) == Chain(0x93AA_2577, 0x561E_0689, 0xCD85_B8CB, 0x1688_DC85)
  {
    hide Steps, Mix, Line;
    EmptyRound4();
    var x := EmptyWords();
    OneTo(q, x, 48, 0x3F55_EDFD, 0xCA7D_2DBD, 0x68D8_4EA2, 0x22A3_1F54,
          0xB7A5_A31D, 0x0000_0080, 6, 0xF429_2244, 0x93AA_2577);
    OneTo(q, x, 49, 0x22A3_1F54, 0x93AA_2577, 0xCA7D_2DBD, 0x68D8_4EA2,
          0x5DD2_98C2, 0, 10, 0x432A_FF97, 0x1688_DC85);
    OneTo(q, x, 50, 0x68D8_4EA2, 0x1688_DC85, 0x93AA_2577, 0xCA7D_2DBD,
          0xA420_FBB0, 0, 15, 0xAB94_23A7, 0xCD85_B8CB);
    OneTo(q, x, 51, 0xCA7D_2DBD, 0xCD85_B8CB, 0x1688_DC85, 0x93AA_2577,
          0xFB5D_264E, 0, 21, 0xFC93_A039, 0x561E_0689);
  }

  lemma {:induction false} EmptySteps13(q: Chain, i: nat)
    requires i == 52 && Steps(q, EmptyWords(), i) == Chain(0x93AA_2577, 0x561E_0689, 0xCD85_B8CB, 0x1688_DC85)
    ensures Steps(q, EmptyWords(), i + 4) == Chain(0x5625_A114, 0x1E77_FA61, 0x392A_D0D0, 0x3450_F42B)
  {
    hide Steps, Mix, Line;
    EmptyRound4();
    var x := EmptyWords();
    OneTo(q, x, 52, 0x93AA_2577, 0x561E_0689, 0xCD85_B8CB, 0x1688_DC85,
          0x32FA_9F30, 0, 6, 0x655B_59C3, 0x5625_A114);
    OneTo(q, x, 53, 0x1688_DC85, 0x5625_A114, 0x561E_0689, 0xCD85_B8CB,
          0x2061_E1BD, 0, 10, 0x8F0C_CC92, 0x3450_F42B);
    OneTo(q, x, 54, 0xCD85_B8CB, 0x3450_F42B, 0x5625_A114, 0x561E_0689,
          0xEBD4_5C6B, 0, 15, 0xFFEF_F47D, 0x392A_D0D0);
    OneTo(q, x, 55, 0x561E_0689, 0x392A_D0D0, 0x3450_F42B, 0x5625_A114,
          0x8DAA_2AD0, 0, 21, 0x8584_5DD1, 0x1E77_FA61);
  }

  lemma {:induction false} EmptySteps14(q: Chain, i: nat)
    requires i == 56 && Steps(q, EmptyWords(), i) == Chain(0x5625_A114, 0x1E77_FA61, 0x392A_D0D0, 0x3450_F42B)
    ensures Steps(q, EmptyWords(), i + 4) == Chain(0x474A_9C8C, 0x3013_0182, 0x3659_4B14, 0xDFCE_00BC)
  {
    hide Steps, Mix, Line;
    EmptyRound4();
    var x := EmptyWords();
    OneTo(q, x, 56, 0x5625_A114, 0x1E77_FA61, 0x392A_D0D0, 0x3450_F42B,
          0xE6D5_2B25, 0, 6, 0x6FA8_7E4F, 0x474A_9C8C);
    OneTo(q, x, 57, 0x3450_F42B, 0x474A_9C8C, 0x1E77_FA61, 0x392A_D0D0,
          0xD9A8_45CE, 0, 10, 0xFE2C_E6E0, 0xDFCE_00BC);
    OneTo(q, x, 58, 0x392A_D0D0, 0xDFCE_00BC, 0x474A_9C8C, 0x1E77_FA61,
          0xB884_9932, 0, 15, 0xA301_4314, 0x3659_4B14);
    OneTo(q, x, 59, 0x1E77_FA61, 0x3659_4B14, 0xDFCE_00BC, 0x474A_9C8C,
          0x6133_6BCB, 0, 21, 0x4E08_11A1, 0x3013_0182);
  }

  lemma {:induction false} EmptySteps15(q: Chain, i: nat)
    requires i == 60 && Steps(q, EmptyWords(), i) == Chain(0x474A_9C8C, 0x3013_0182, 0x3659_4B14, 0xDFCE_00BC)
    ensures Steps(q, EmptyWords(), i + 4) == Chain(0x7246_FAD3, 0x14E4_5506, 0xFF4E_A3EB, 0x6E10_A476)
  {
    hide Steps, Mix, Line;
    EmptyRound4();
    var x := EmptyWords();
    OneTo(q, x, 60, 0x474A_9C8C, 0x3013_0182, 0x3659_4B14, 0xDFCE_00BC,
          0x066A_B4D7, 0, 6, 0xF753_7E82, 0x7246_FAD3);
    OneTo(q, x, 61, 0xDFCE_00BC, 0x7246_FAD3, 0x3013_0182, 0x3659_4B14,
          0xCBF5_FF79, 0, 10, 0xBD3A_F235, 0x6E10_A476);
    OneTo(q, x, 62, 0x3659_4B14, 0x6E10_A476, 0x7246_FAD3, 0x3013_0182,
          0x9DBA_04AC, 0, 15, 0x2AD7_D2BB, 0xFF4E_A3EB);
    OneTo(q, x, 63, 0x3013_0182, 0xFF4E_A3EB, 0x6E10_A476, 0x7246_FAD3,
          0x91EF_0399, 0, 21, 0xEB86_D391, 0x14E4_5506);
  }

  lemma {:induction false} EmptyChain(q: Chain)
    requires q == Chain(0x6745_2301, 0xEFCD_AB89, 0x98BA_DCFE, 0x1032_5476)
    ensures Steps(q, EmptyWords(), 64) == Chain(0x7246_FAD3, 0x14E4_5506, 0xFF4E_A3EB, 0x6E10_A476)
  {
    NoStep(q, EmptyWords());
    hide Steps;
    EmptySteps0(q, 0);
    EmptySteps1(q, 4);
    EmptySteps2(q, 8);
    EmptySteps3(q, 12);
    EmptySteps4(q, 16);
    EmptySteps5(q, 20);
    EmptySteps6(q, 24);
    EmptySteps7(q, 28);
    EmptySteps8(q, 32);
    EmptySteps9(q, 36);
    EmptySteps10(q, 40);
    EmptySteps11(q, 44);
    EmptySteps12(q, 48);
    EmptySteps13(q, 52);
    EmptySteps14(q, 56);
    EmptySteps15(q, 60);
  }

  lemma {:induction false} EmptyPadding()
    ensures |Padded([])| == 64 && Words(Padded([])) == EmptyWords()
  {
    var m := Padded([]);
    PaddedShort([]);
    hide Padded, WordAt;
    forall k | 0 <= k < 16 ensures WordAt(m, k) == EmptyWord(k) {
      EmptyOneWord(m, k);
    }
  }

  lemma {:induction false} EmptyOneWord(m: seq<Byte>, k: nat)
    requires k < 16 && |m| == 64 && m[0] == 0x80
    requires (forall i :: 0 < i < 64 && i != 56 ==> m[i] == 0) && m[56] == 0
    ensures WordAt(m, k) == EmptyWord(k)
  {
    hide WordAt;
    WordIs(m, k, 4 * k, EmptyWord(k));
  }

  lemma {:induction false} EmptySums()
    ensures
      && Plus(0x6745_2301, 0x7246_FAD3) == 0xD98C_1DD4
      && Plus(0xEFCD_AB89, 0x14E4_5506) == 0x04B2_008F
      && Plus(0x98BA_DCFE, 0xFF4E_A3EB) == 0x9809_80E9
      && Plus(0x1032_5476, 0x6E10_A476) == 0x7E42_F8EC
  {
  }

  lemma {:induction false} EmptyBytes()
    ensures DigestOf(Chain(0xD98C_1DD4, 0x04B2_008F, 0x9809_80E9, 0x7E42_F8EC)) ==
            [0xd4, 0x1d, 0x8c, 0xd9, 0x8f, 0x00, 0xb2, 0x04, 0xe9, 0x80, 0x09, 0x98, 0xec, 0xf8, 0x42, 0x7e]
  {
    hide DigestOf;
    DigestBytes(Chain(0xD98C_1DD4, 0x04B2_008F, 0x9809_80E9, 0x7E42_F8EC),
                [0xd4, 0x1d, 0x8c, 0xd9, 0x8f, 0x00, 0xb2, 0x04, 0xe9, 0x80, 0x09, 0x98, 0xec, 0xf8, 0x42, 0x7e]);
  }

  /** The digest of the empty message. */
  lemma {:induction false} EmptyDigest()
    ensures Md5Of([]) ==
            [0xd4, 0x1d, 0x8c, 0xd9, 0x8f, 0x00, 0xb2, 0x04, 0xe9, 0x80, 0x09, 0x98, 0xec, 0xf8, 0x42, 0x7e]
  {
    EmptyPadding();
    StartIs();
    EmptyChain(START);
    EmptySums();
    hide Steps, Padded, Words, Plus, DigestOf, Compress, Md5Of;
    CompressIs(START, Padded([]), EmptyWords(),
               Chain(0x7246_FAD3, 0x14E4_5506, 0xFF4E_A3EB, 0x6E10_A476));
    OneChunk([]);
    EmptyBytes();
  }

  // ---------------------------------------------------------------------
  // The message "abc"
  // ---------------------------------------------------------------------

  function AbcWord(k: nat): (w: Word) {
    if k == 0 then 0x8063_6261 else if k == 14 then 24 else 0
  }

  function AbcWords(): (x: seq<Word>)
    ensures |x| == 16
  {
    seq(16, k requires 0 <= k < 16 => AbcWord(k))
  }

  /** What the first sixteen steps work out. */
  lemma {:induction false} AbcRound1()
    ensures Mix(0, 0xEFCD_AB89, 0x98BA_DCFE, 0x1032_5476) == 0x98BA_DCFE
    ensures Line(0x98BA_DCFE, 0x6745_2301, 0xEFCD_AB89, 0x8063_6261, 7, 0xD76A_A478) == 0xD6D1_17B4
    ensures Mix(1, 0xD6D1_17B4, 0xEFCD_AB89, 0x98BA_DCFE) == 0xCEEB_CBCA
    ensures Line(0xCEEB_CBCA, 0x1032_5476, 0xD6D1_17B4, 0, 12, 0xE8C7_B756) == 0x344A_8432
    ensures Mix(2, 0x344A_8432, 0xD6D1_17B4, 0xEFCD_AB89) == 0xDFC5_2FB9
    ensures Line(0xDFC5_2FB9, 0x98BA_DCFE, 0x344A_8432, 0, 17, 0x2420_70DB) == 0x2F6F_BD72
    ensures Mix(3, 0x2F6F_BD72, 0x344A_8432, 0xD6D1_17B4) == 0xF4DA_86B6
    ensures Line(0xF4DA_86B6, 0xEFCD_AB89, 0x2F6F_BD72, 0, 22, 0xC1BD_CEEE) == 0x7AD9_56F2
    ensures Mix(4, 0x7AD9_56F2, 0x2F6F_BD72, 0x344A_8432) == 0x2E4B_9472
    ensures Line(0x2E4B_9472, 0xD6D1_17B4, 0x7AD9_56F2, 0, 7, 0xF57C_0FAF) == 0xC737_41EF
    ensures Mix(5, 0xC737_41EF, 0x7AD9_56F2, 0x2F6F_BD72) == 0x6A59_FCF2
    ensures Line(0x6A59_FCF2, 0x344A_8432, 0xC737_41EF, 0, 12, 0x4787_C62A) == 0x8BAC_3051
    ensures Mix(6, 0x8BAC_3051, 0xC737_41EF, 0x7AD9_56F2) == 0xF375_46E3
    ensures Line(0xF375_46E3, 0x2F6F_BD72, 0x8BAC_3051, 0, 17, 0xA830_4613) == 0x207D_C67B
    ensures Mix(7, 0x207D_C67B, 0x8BAC_3051, 0xC737_41EF) == 0xC72E_01D5
    ensures Line(0xC72E_01D5, 0x7AD9_56F2, 0x207D_C67B, 0, 22, 0xFD46_9501) == 0x928D_99F6
    ensures Mix(8, 0x928D_99F6, 0x207D_C67B, 0x8BAC_3051) == 0x092D_A073
    ensures Line(0x092D_A073, 0xC737_41EF, 0x928D_99F6, 0, 7, 0x6980_98D8) == 0x854B_3712
    ensures Mix(9, 0x854B_3712, 0x928D_99F6, 0x207D_C67B) == 0xA03D_D17B
    ensures Line(0xA03D_D17B, 0x8BAC_3051, 0x854B_3712, 0, 12, 0x8B44_F7AF) == 0x74E2_F284
    ensures Mix(10, 0x74E2_F284, 0x854B_3712, 0x928D_99F6) == 0x864F_3B72
    ensures Line(0x864F_3B72, 0x207D_C67B, 0x74E2_F284, 0, 17, 0xFFFF_5BB1) == 0x3020_401C
    ensures Mix(11, 0x3020_401C, 0x74E2_F284, 0x854B_3712) == 0xB56B_7706
    ensures Line(0xB56B_7706, 0x928D_99F6, 0x3020_401C, 0, 22, 0x895C_D7BE) == 0x5ED4_9596
    ensures Mix(12, 0x5ED4_9596, 0x3020_401C, 0x74E2_F284) == 0x3022_6214
    ensures Line(0x3022_6214, 0x854B_3712, 0x5ED4_9596, 0, 7, 0x6B90_1122) == 0xDDA9_B9A6
    ensures Mix(13, 0xDDA9_B9A6, 0x5ED4_9596, 0x3020_401C) == 0x7C80_D19E
    ensures Line(0x7C80_D19E, 0x74E2_F284, 0xDDA9_B9A6, 0, 12, 0xFD98_7193) == 0xA105_1895
    ensures Mix(14, 0xA105_1895, 0xDDA9_B9A6, 0x5ED4_9596) == 0xDFD1_9D86
    ensures Line(0xDFD1_9D86, 0x3020_401C, 0xA105_1895, 0x0000_0018, 17, 0xA679_438E) == 0xE396_856B
    ensures Mix(15, 0xE396_856B, 0xA105_1895, 0xDDA9_B9A6) == 0xBD2D_3885
    ensures Line(0xBD2D_3885, 0x5ED4_9596, 0xE396_856B, 0, 22, 0x49B4_0821) == 0x72AF_F2E0
  {
  }

  lemma {:induction false} AbcSteps0(q: Chain, i: nat)
    requires i == 0 && Steps(q, AbcWords(), i) == Chain(0x6745_2301, 0xEFCD_AB89, 0x98BA_DCFE, 0x1032_5476)
    ensures Steps(q, AbcWords(), i + 4) == Chain(0xD6D1_17B4, 0x7AD9_56F2, 0x2F6F_BD72, 0x344A_8432)
  {
    hide Steps, Mix, Line;
    AbcRound1();
    var x := AbcWords();
    OneTo(q, x, 0, 0x6745_2301, 0xEFCD_AB89, 0x98BA_DCFE, 0x1032_5476,
          0x98BA_DCFE, 0x8063_6261, 7, 0xD76A_A478, 0xD6D1_17B4);
    OneTo(q, x, 1, 0x1032_5476, 0xD6D1_17B4, 0xEFCD_AB89, 0x98BA_DCFE,
          0xCEEB_CBCA, 0, 12, 0xE8C7_B756, 0x344A_8432);
    OneTo(q, x, 2, 0x98BA_DCFE, 0x344A_8432, 0xD6D1_17B4, 0xEFCD_AB89,
          0xDFC5_2FB9, 0, 17, 0x2420_70DB, 0x2F6F_BD72);
    OneTo(q, x, 3, 0xEFCD_AB89, 0x2F6F_BD72, 0x344A_8432, 0xD6D1_17B4,
          0xF4DA_86B6, 0, 22, 0xC1BD_CEEE, 0x7AD9_56F2);
  }

  lemma {:induction false} AbcSteps1(q: Chain, i: nat)
    requires i == 4 && Steps(q, AbcWords(), i) == Chain(0xD6D1_17B4, 0x7AD9_56F2, 0x2F6F_BD72, 0x344A_8432)
    ensures Steps(q, AbcWords(), i + 4) == Chain(0xC737_41EF, 0x928D_99F6, 0x207D_C67B, 0x8BAC_3051)
  {
    hide Steps, Mix, Line;
    AbcRound1();
    var x := AbcWords();
    OneTo(q, x, 4, 0xD6D1_17B4, 0x7AD9_56F2, 0x2F6F_BD72, 0x344A_8432,
          0x2E4B_9472, 0, 7, 0xF57C_0FAF, 0xC737_41EF);
    OneTo(q, x, 5, 0x344A_8432, 0xC737_41EF, 0x7AD9_56F2, 0x2F6F_BD72,
          0x6A59_FCF2, 0, 12, 0x4787_C62A, 0x8BAC_3051);
    OneTo(q, x, 6, 0x2F6F_BD72, 0x8BAC_3051, 0xC737_41EF, 0x7AD9_56F2,
          0xF375_46E3, 0, 17, 0xA830_4613, 0x207D_C67B);
    OneTo(q, x, 7, 0x7AD9_56F2, 0x207D_C67B, 0x8BAC_3051, 0xC737_41EF,
          0xC72E_01D5, 0, 22, 0xFD46_9501, 0x928D_99F6);
  }

  lemma {:induction false} AbcSteps2(q: Chain, i: nat)
    requires i == 8 && Steps(q, AbcWords(), i) == Chain(0xC737_41EF, 0x928D_99F6, 0x207D_C67B, 0x8BAC_3051)
    ensures Steps(q, AbcWords(), i + 4) == Chain(0x854B_3712, 0x5ED4_9596, 0x3020_401C, 0x74E2_F284)
  {
    hide Steps, Mix, Line;
    AbcRound1();
    var x := AbcWords();
    OneTo(q, x, 8, 0xC737_41EF, 0x928D_99F6, 0x207D_C67B, 0x8BAC_3051,
          0x092D_A073, 0, 7, 0x6980_98D8, 0x854B_3712);
    OneTo(q, x, 9, 0x8BAC_3051, 0x854B_3712, 0x928D_99F6, 0x207D_C67B,
          0xA03D_D17B, 0, 12, 0x8B44_F7AF, 0x74E2_F284);
    OneTo(q, x, 10, 0x207D_C67B, 0x74E2_F284, 0x854B_3712, 0x928D_99F6,
          0x864F_3B72, 0, 17, 0xFFFF_5BB1, 0x3020_401C);
    OneTo(q, x, 11, 0x928D_99F6, 0x3020_401C, 0x74E2_F284, 0x854B_3712,
          0xB56B_7706, 0, 22, 0x895C_D7BE, 0x5ED4_9596);
  }

  lemma {:induction false} AbcSteps3(q: Chain, i: nat)
    requires i == 12 && Steps(q, AbcWords(), i) == Chain(0x854B_3712, 0x5ED4_9596, 0x3020_401C, 0x74E2_F284)
    ensures Steps(q, AbcWords(), i + 4) == Chain(0xDDA9_B9A6, 0x72AF_F2E0, 0xE396_856B, 0xA105_1895)
  {
    hide Steps, Mix, Line;
    AbcRound1();
    var x := AbcWords();
    OneTo(q, x, 12, 0x854B_3712, 0x5ED4_9596, 0x3020_401C, 0x74E2_F284,
          0x3022_6214, 0, 7, 0x6B90_1122, 0xDDA9_B9A6);
    OneTo(q, x, 13, 0x74E2_F284, 0xDDA9_B9A6, 0x5ED4_9596, 0x3020_401C,
          0x7C80_D19E, 0, 12, 0xFD98_7193, 0xA105_1895);
    OneTo(q, x, 14, 0x3020_401C, 0xA105_1895, 0xDDA9_B9A6, 0x5ED4_9596,
          0xDFD1_9D86, 0x0000_0018, 17, 0xA679_438E, 0xE396_856B);
    OneTo(q, x, 15, 0x5ED4_9596, 0xE396_856B, 0xA105_1895, 0xDDA9_B9A6,
          0xBD2D_3885, 0, 22, 0x49B4_0821, 0x72AF_F2E0);
  }

  /** What the second sixteen steps work out. */
  lemma {:induction false} AbcRound2()
    ensures Mix(16, 0x72AF_F2E0, 0xE396_856B, 0xA105_1895) == 0x6297_95EA
    ensures Line(0x6297_95EA, 0xDDA9_B9A6, 0x72AF_F2E0, 0, 5, 0xF61E_2562) == 0x3E9E_9126
    ensures Mix(17, 0x3E9E_9126, 0x72AF_F2E0, 0xE396_856B) == 0x32BF_F3A2
    ensures Line(0x32BF_F3A2, 0xA105_1895, 0x3E9E_9126, 0, 9, 0xC040_B340) == 0x4A1D_804E
    ensures Mix(18, 0x4A1D_804E, 0x3E9E_9126, 0x72AF_F2E0) == 0x4E1D_8146
    ensures Line(0x4E1D_8146, 0xE396_856B, 0x4A1D_804E, 0, 14, 0x265E_5A51) == 0xE25E_1652
    ensures Mix(19, 0xE25E_1652, 0x4A1D_804E, 0x3E9E_9126) == 0x621F_104A
    ensures Line(0x621F_104A, 0x72AF_F2E0, 0xE25E_1652, 0x8063_6261, 20, 0xE9B6_C7AA) == 0xB5B2_04E4
    ensures Mix(20, 0xB5B2_04E4, 0xE25E_1652, 0x4A1D_804E) == 0xA052_1654
    ensures Line(0xA052_1654, 0x3E9E_9126, 0xB5B2_04E4, 0, 5, 0xD62F_105D) == 0x59A8_FFDA
    ensures Mix(21, 0x59A8_FFDA, 0xB5B2_04E4, 0xE25E_1652) == 0x55A8_16F6
    ensures Line(0x55A8_16F6, 0x4A1D_804E, 0x59A8_FFDA, 0, 9, 0x0244_1453) == 0x6D00_2F1E
    ensures Mix(22, 0x6D00_2F1E, 0x59A8_FFDA, 0xB5B2_04E4) == 0x6D08_FF1E
    ensures Line(0x6D08_FF1E, 0xE25E_1652, 0x6D00_2F1E, 0, 14, 0xD8A1_E681) == 0xABFC_7920
    ensures Mix(23, 0xABFC_7920, 0x6D00_2F1E, 0x59A8_FFDA) == 0x2DA8_7904
    ensures Line(0x2DA8_7904, 0xB5B2_04E4, 0xABFC_7920, 0, 20, 0xE7D3_FBC8) == 0x4709_2C07
    ensures Mix(24, 0x4709_2C07, 0xABFC_7920, 0x6D00_2F1E) == 0xC7FC_7C26
    ensures Line(0xC7FC_7C26, 0x59A8_FFDA, 0x4709_2C07, 0, 5, 0x21E1_CDE6) == 0xB7F2_68CF
    ensures Mix(25, 0xB7F2_68CF, 0x4709_2C07, 0xABFC_7920) == 0xE7F1_6C07
    ensures Line(0xE7F1_6C07, 0x6D00_2F1E, 0xB7F2_68CF, 0x0000_0018, 9, 0xC337_07D6) == 0x0938_8EFF
    ensures Mix(26, 0x0938_8EFF, 0xB7F2_68CF, 0x4709_2C07) == 0xB1FA_4CCF
    ensures Line(0xB1FA_4CCF, 0xABFC_7920, 0x0938_8EFF, 0, 14, 0xF4D5_0D87) == 0xFE16_23B1
    ensures Mix(27, 0xFE16_23B1, 0x0938_8EFF, 0xB7F2_68CF) == 0xBE1A_A6B1
    ensures Line(0xBE1A_A6B1, 0x4709_2C07, 0xFE16_23B1, 0, 20, 0x455A_14ED) == 0x786A_CB8F
    ensures Mix(28, 0x786A_CB8F, 0xFE16_23B1, 0x0938_8EFF) == 0xFE2E_AB8F
    ensures Line(0xFE2E_AB8F, 0xB7F2_68CF, 0x786A_CB8F, 0, 5, 0xA9E3_E905) == 0x790A_77FB
    ensures Mix(29, 0x790A_77FB, 0x786A_CB8F, 0xFE16_23B1) == 0x786A_EBBF
    ensures Line(0x786A_EBBF, 0x0938_8EFF, 0x790A_77FB, 0, 9, 0xFCEF_A3F8) == 0x9F47_E4F8
    ensures Mix(30, 0x9F47_E4F8, 0x790A_77FB, 0x786A_CB8F) == 0x1942_F4F8
    ensures Line(0x1942_F4F8, 0xFE16_23B1, 0x9F47_E4F8, 0, 14, 0x676F_02D9) == 0xA628_84AA
    ensures Mix(31, 0xA628_84AA, 0x9F47_E4F8, 0x790A_77FB) == 0xA64D_84AA
    ensures Line(0xA64D_84AA, 0x786A_CB8F, 0xA628_84AA, 0, 20, 0x8D2A_4C8A) == 0x7263_42D3
  {
  }

  lemma {:induction false} AbcSteps4(q: Chain, i: nat)
    requires i == 16 && Steps(q, AbcWords(), i) == Chain(0xDDA9_B9A6, 0x72AF_F2E0, 0xE396_856B, 0xA105_1895)
    ensures Steps(q, AbcWords(), i + 4) == Chain(0x3E9E_9126, 0xB5B2_04E4, 0xE25E_1652, 0x4A1D_804E)
  {
    hide Steps, Mix, Line;
    AbcRound2();
    var x := AbcWords();
    OneTo(q, x, 16, 0xDDA9_B9A6, 0x72AF_F2E0, 0xE396_856B, 0xA105_1895,
          0x6297_95EA, 0, 5, 0xF61E_2562, 0x3E9E_9126);
    OneTo(q, x, 17, 0xA105_1895, 0x3E9E_9126, 0x72AF_F2E0, 0xE396_856B,
          0x32BF_F3A2, 0, 9, 0xC040_B340, 0x4A1D_804E);
    OneTo(q, x, 18, 0xE396_856B, 0x4A1D_804E, 0x3E9E_9126, 0x72AF_F2E0,
          0x4E1D_8146, 0, 14, 0x265E_5A51, 0xE25E_1652);
    OneTo(q, x, 19, 0x72AF_F2E0, 0xE25E_1652, 0x4A1D_804E, 0x3E9E_9126,
          0x621F_104A, 0x8063_6261, 20, 0xE9B6_C7AA, 0xB5B2_04E4);
  }

  lemma {:induction false} AbcSteps5(q: Chain, i: nat)
    requires i == 20 && Steps(q, AbcWords(), i) == Chain(0x3E9E_9126, 0xB5B2_04E4, 0xE25E_1652, 0x4A1D_804E)
    ensures Steps(q, AbcWords(), i + 4) == Chain(0x59A8_FFDA, 0x4709_2C07, 0xABFC_7920, 0x6D00_2F1E)
  {
    hide Steps, Mix, Line;
    AbcRound2();
    var x := AbcWords();
    OneTo(q, x, 20, 0x3E9E_9126, 0xB5B2_04E4, 0xE25E_1652, 0x4A1D_804E,
          0xA052_1654, 0, 5, 0xD62F_105D, 0x59A8_FFDA);
    OneTo(q, x, 21, 0x4A1D_804E, 0x59A8_FFDA, 0xB5B2_04E4, 0xE25E_1652,
          0x55A8_16F6, 0, 9, 0x0244_1453, 0x6D00_2F1E);
    OneTo(q, x, 22, 0xE25E_1652, 0x6D00_2F1E, 0x59A8_FFDA, 0xB5B2_04E4,
          0x6D08_FF1E, 0, 14, 0xD8A1_E681, 0xABFC_7920);
    OneTo(q, x, 23, 0xB5B2_04E4, 0xABFC_7920, 0x6D00_2F1E, 0x59A8_FFDA,
          0x2DA8_7904, 0, 20, 0xE7D3_FBC8, 0x4709_2C07);
  }

  lemma {:induction false} AbcSteps6(q: Chain, i: nat)
    requires i == 24 && Steps(q, AbcWords(), i) == Chain(0x59A8_FFDA, 0x4709_2C07, 0xABFC_7920, 0x6D00_2F1E)
    ensures Steps(q, AbcWords(), i + 4) == Chain(0xB7F2_68CF, 0x786A_CB8F, 0xFE16_23B1, 0x0938_8EFF)
  {
    hide Steps, Mix, Line;
    AbcRound2();
    var x := AbcWords();
    OneTo(q, x, 24, 0x59A8_FFDA, 0x4709_2C07, 0xABFC_7920, 0x6D00_2F1E,
          0xC7FC_7C26, 0, 5, 0x21E1_CDE6, 0xB7F2_68CF);
    OneTo(q, x, 25, 0x6D00_2F1E, 0xB7F2_68CF, 0x4709_2C07, 0xABFC_7920,
          0xE7F1_6C07, 0x0000_0018, 9, 0xC337_07D6, 0x0938_8EFF);
    OneTo(q, x, 26, 0xABFC_7920, 0x0938_8EFF, 0xB7F2_68CF, 0x4709_2C07,
          0xB1FA_4CCF, 0, 14, 0xF4D5_0D87, 0xFE16_23B1);
    OneTo(q, x, 27, 0x4709_2C07, 0xFE16_23B1, 0x0938_8EFF, 0xB7F2_68CF,
          0xBE1A_A6B1, 0, 20, 0x455A_14ED, 0x786A_CB8F);
  }

  lemma {:induction false} AbcSteps7(q: Chain, i: nat)
    requires i == 28 && Steps(q, AbcWords(), i) == Chain(0xB7F2_68CF, 0x786A_CB8F, 0xFE16_23B1, 0x0938_8EFF)
    ensures Steps(q, AbcWords(), i + 4) == Chain(0x790A_77FB, 0x7263_42D3, 0xA628_84AA, 0x9F47_E4F8)
  {
    hide Steps, Mix, Line;
    AbcRound2();
    var x := AbcWords();
    OneTo(q, x, 28, 0xB7F2_68CF, 0x786A_CB8F, 0xFE16_23B1, 0x0938_8EFF,
          0xFE2E_AB8F, 0, 5, 0xA9E3_E905, 0x790A_77FB);
    OneTo(q, x, 29, 0x0938_8EFF, 0x790A_77FB, 0x786A_CB8F, 0xFE16_23B1,
          0x786A_EBBF, 0, 9, 0xFCEF_A3F8, 0x9F47_E4F8);
    OneTo(q, x, 30, 0xFE16_23B1, 0x9F47_E4F8, 0x790A_77FB, 0x786A_CB8F,
          0x1942_F4F8, 0, 14, 0x676F_02D9, 0xA628_84AA);
    OneTo(q, x, 31, 0x786A_CB8F, 0xA628_84AA, 0x9F47_E4F8, 0x790A_77FB,
          0xA64D_84AA, 0, 20, 0x8D2A_4C8A, 0x7263_42D3);
  }

  /** What the third sixteen steps work out. */
  lemma {:induction false} AbcRound3()
    ensures Mix(32, 0x7263_42D3, 0xA628_84AA, 0x9F47_E4F8) == 0x4B0C_2281
    ensures Line(0x4B0C_2281, 0x790A_77FB, 0x7263_42D3, 0, 4, 0xFFFA_3942) == 0xB370_7EBF
    ensures Mix(33, 0xB370_7EBF, 0x7263_42D3, 0xA628_84AA) == 0x673B_B8C6
    ensures Line(0x673B_B8C6, 0x9F47_E4F8, 0xB370_7EBF, 0, 11, 0x8771_F681) == 0x6012_7B2E
    ensures Mix(34, 0x6012_7B2E, 0xB370_7EBF, 0x7263_42D3) == 0xA101_4742
    ensures Line(0xA101_4742, 0xA628_84AA, 0x6012_7B2E, 0, 16, 0x6D9D_6122) == 0x8D21_2FF5
    ensures Mix(35, 0x8D21_2FF5, 0x6012_7B2E, 0xB370_7EBF) == 0x5E43_2A64
    ensures Line(0x5E43_2A64, 0x7263_42D3, 0x8D21_2FF5, 0x0000_0018, 23, 0xFDE5_380C) == 0x3B08_75C7
    ensures Mix(36, 0x3B08_75C7, 0x8D21_2FF5, 0x6012_7B2E) == 0xD63B_211C
    ensures Line(0xD63B_211C, 0xB370_7EBF, 0x3B08_75C7, 0, 4, 0xA4BE_EA44) == 0x21B1_17B9
    ensures Mix(37, 0x21B1_17B9, 0x3B08_75C7, 0x8D21_2FF5) == 0x9798_4D8B
    ensures Line(0x9798_4D8B, 0x6012_7B2E, 0x21B1_17B9, 0, 11, 0x4BDE_CFA9) == 0x6E74_29D5
    ensures Mix(38, 0x6E74_29D5, 0x21B1_17B9, 0x3B08_75C7) == 0x74CD_4BAB
    ensures Line(0x74CD_4BAB, 0x8D21_2FF5, 0x6E74_29D5, 0, 16, 0xF6BB_4B60) == 0x3575_227E
    ensures Mix(39, 0x3575_227E, 0x6E74_29D5, 0x21B1_17B9) == 0x7AB0_1C12
    ensures Line(0x7AB0_1C12, 0x3B08_75C7, 0x3575_227E, 0, 23, 0xBEBF_BC70) == 0x5A2F_5EA5
    ensures Mix(40, 0x5A2F_5EA5, 0x3575_227E, 0x6E74_29D5) == 0x012E_550E
    ensures Line(0x012E_550E, 0x21B1_17B9, 0x5A2F_5EA5, 0, 4, 0x289B_7EC6) == 0x11DE_1779
    ensures Mix(41, 0x11DE_1779, 0x5A2F_5EA5, 0x3575_227E) == 0x7E84_6BA2
    ensures Line(0x7E84_6BA2, 0x6E74_29D5, 0x11DE_1779, 0x8063_6261, 11, 0xEAA1_27FA) == 0xFADC_AA38
    ensures Mix(42, 0xFADC_AA38, 0x11DE_1779, 0x5A2F_5EA5) == 0xB12D_E3E4
    ensures Line(0xB12D_E3E4, 0x3575_227E, 0xFADC_AA38, 0, 16, 0xD4EF_3085) == 0x31C4_65CA
    ensures Mix(43, 0x31C4_65CA, 0xFADC_AA38, 0x11DE_1779) == 0xDAC6_D88B
    ensures Line(0xDAC6_D88B, 0x5A2F_5EA5, 0x31C4_65CA, 0, 23, 0x0488_1D05) == 0x4C61_24F4
    ensures Mix(44, 0x4C61_24F4, 0x31C4_65CA, 0xFADC_AA38) == 0x8779_EB06
    ensures Line(0x8779_EB06, 0x11DE_1779, 0x4C61_24F4, 0, 4, 0xD9D4_D039) == 0x7F2E_507B
    ensures Mix(45, 0x7F2E_507B, 0x4C61_24F4, 0x31C4_65CA) == 0x028B_1145
    ensures Line(0x028B_1145, 0xFADC_AA38, 0x7F2E_507B, 0, 11, 0xE6DB_99E5) == 0x99D9_679D
    ensures Mix(46, 0x99D9_679D, 0x7F2E_507B, 0x4C61_24F4) == 0xAA96_1312
    ensures Line(0xAA96_1312, 0x31C4_65CA, 0x99D9_679D, 0, 16, 0x1FA2_7CF8) == 0x8FAE_6399
    ensures Mix(47, 0x8FAE_6399, 0x99D9_679D, 0x7F2E_507B) == 0x6959_547F
    ensures Line(0x6959_547F, 0x4C61_24F4, 0x8FAE_6399, 0, 23, 0xC4AC_5665) == 0x7BEB_9700
  {
  }

  lemma {:induction false} AbcSteps8(q: Chain, i: nat)
    requires i == 32 && Steps(q, AbcWords(), i) == Chain(0x790A_77FB, 0x7263_42D3, 0xA628_84AA, 0x9F47_E4F8)
    ensures Steps(q, AbcWords(), i + 4) == Chain(0xB370_7EBF, 0x3B08_75C7, 0x8D21_2FF5, 0x6012_7B2E)
  {
    hide Steps, Mix, Line;
    AbcRound3();
    var x := AbcWords();
    OneTo(q, x, 32, 0x790A_77FB, 0x7263_42D3, 0xA628_84AA, 0x9F47_E4F8,
          0x4B0C_2281, 0, 4, 0xFFFA_3942, 0xB370_7EBF);
    OneTo(q, x, 33, 0x9F47_E4F8, 0xB370_7EBF, 0x7263_42D3, 0xA628_84AA,
          0x673B_B8C6, 0, 11, 0x8771_F681, 0x6012_7B2E);
    OneTo(q, x, 34, 0xA628_84AA, 0x6012_7B2E, 0xB370_7EBF, 0x7263_42D3,
          0xA101_4742, 0, 16, 0x6D9D_6122, 0x8D21_2FF5);
    OneTo(q, x, 35, 0x7263_42D3, 0x8D21_2FF5, 0x6012_7B2E, 0xB370_7EBF,
          0x5E43_2A64, 0x0000_0018, 23, 0xFDE5_380C, 0x3B08_75C7);
  }

  lemma {:induction false} AbcSteps9(q: Chain, i: nat)
    requires i == 36 && Steps(q, AbcWords(), i) == Chain(0xB370_7EBF, 0x3B08_75C7, 0x8D21_2FF5, 0x6012_7B2E)
    ensures Steps(q, AbcWords(), i + 4) == Chain(0x21B1_17B9, 0x5A2F_5EA5, 0x3575_227E, 0x6E74_29D5)
  {
    hide Steps, Mix, Line;
    AbcRound3();
    var x := AbcWords();
    OneTo(q, x, 36, 0xB370_7EBF, 0x3B08_75C7, 0x8D21_2FF5, 0x6012_7B2E,
          0xD63B_211C, 0, 4, 0xA4BE_EA44, 0x21B1_17B9);
    OneTo(q, x, 37, 0x6012_7B2E, 0x21B1_17B9, 0x3B08_75C7, 0x8D21_2FF5,
          0x9798_4D8B, 0, 11, 0x4BDE_CFA9, 0x6E74_29D5);
    OneTo(q, x, 38, 0x8D21_2FF5, 0x6E74_29D5, 0x21B1_17B9, 0x3B08_75C7,
          0x74CD_4BAB, 0, 16, 0xF6BB_4B60, 0x3575_227E);
    OneTo(q, x, 39, 0x3B08_75C7, 0x3575_227E, 0x6E74_29D5, 0x21B1_17B9,
          0x7AB0_1C12, 0, 23, 0xBEBF_BC70, 0x5A2F_5EA5);
  }

  lemma {:induction false} AbcSteps10(q: Chain, i: nat)
    requires i == 40 && Steps(q, AbcWords(), i) == Chain(0x21B1_17B9, 0x5A2F_5EA5, 0x3575_227E, 0x6E74_29D5)
    ensures Steps(q, AbcWords(), i + 4) == Chain(0x11DE_1779, 0x4C61_24F4, 0x31C4_65CA, 0xFADC_AA38)
  {
    hide Steps, Mix, Line;
    AbcRound3();
    var x := AbcWords();
    OneTo(q, x, 40, 0x21B1_17B9, 0x5A2F_5EA5, 0x3575_227E, 0x6E74_29D5,
          0x012E_550E, 0, 4, 0x289B_7EC6, 0x11DE_1779);
    OneTo(q, x, 41, 0x6E74_29D5, 0x11DE_1779, 0x5A2F_5EA5, 0x3575_227E,
          0x7E84_6BA2, 0x8063_6261, 11, 0xEAA1_27FA, 0xFADC_AA38);
    OneTo(q, x, 42, 0x3575_227E, 0xFADC_AA38, 0x11DE_1779, 0x5A2F_5EA5,
          0xB12D_E3E4, 0, 16, 0xD4EF_3085, 0x31C4_65CA);
    OneTo(q, x, 43, 0x5A2F_5EA5, 0x31C4_65CA, 0xFADC_AA38, 0x11DE_1779,
          0xDAC6_D88B, 0, 23, 0x0488_1D05, 0x4C61_24F4);
  }

  lemma {:induction false} AbcSteps11(q: Chain, i: nat)
    requires i == 44 && Steps(q, AbcWords(), i) == Chain(0x11DE_1779, 0x4C61_24F4, 0x31C4_65CA, 0xFADC_AA38)
    ensures Steps(q, AbcWords(), i + 4) == Chain(0x7F2E_507B, 0x7BEB_9700, 0x8FAE_6399, 0x99D9_679D)
  {
    hide Steps, Mix, Line;
    AbcRound3();
    var x := AbcWords();
    OneTo(q, x, 44, 0x11DE_1779, 0x4C61_24F4, 0x31C4_65CA, 0xFADC_AA38,
          0x8779_EB06, 0, 4, 0xD9D4_D039, 0x7F2E_507B);
    OneTo(q, x, 45, 0xFADC_AA38, 0x7F2E_507B, 0x4C61_24F4, 0x31C4_65CA,
          0x028B_1145, 0, 11, 0xE6DB_99E5, 0x99D9_679D);
    OneTo(q, x, 46, 0x31C4_65CA, 0x99D9_679D, 0x7F2E_507B, 0x4C61_24F4,
          0xAA96_1312, 0, 16, 0x1FA2_7CF8, 0x8FAE_6399);
    OneTo(q, x, 47, 0x4C61_24F4, 0x8FAE_6399, 0x99D9_679D, 0x7F2E_507B,
          0x6959_547F, 0, 23, 0xC4AC_5665, 0x7BEB_9700);
  }

  /** What the last sixteen steps work out. */
  lemma {:induction false} AbcRound4()
    ensures Mix(48, 0x7BEB_9700, 0x8FAE_6399, 0x99D9_679D) == 0xF041_FCFB
    ensures Line(0xF041_FCFB, 0x7F2E_507B, 0x7BEB_9700, 0x8063_6261, 6, 0xF429_2244) == 0x7B20_1DF8
    ensures Mix(49, 0x7B20_1DF8, 0x7BEB_9700, 0x8FAE_6399) == 0x009A_0AFE
    ensures Line(0x009A_0AFE, 0x99D9_679D, 0x7B20_1DF8, 0, 10, 0x432A_FF97) == 0xF4E8_E96E
    ensures Mix(50, 0xF4E8_E96E, 0x7B20_1DF8, 0x7BEB_9700) == 0x8FDC_F407
    ensures Line(0x8FDC_F407, 0x8FAE_6399, 0xF4E8_E96E, 0x0000_0018, 15, 0xAB94_23A7) == 0xB298_CEFD
    ensures Mix(51, 0xB298_CEFD, 0xF4E8_E96E, 0x7B20_1DF8) == 0x4237_0791
    ensures Line(0x4237_0791, 0x7BEB_9700, 0xB298_CEFD, 0, 21, 0xFC93_A039) == 0x8BF0_25C4
    ensures Mix(52, 0x8BF0_25C4, 0xB298_CEFD, 0xF4E8_E96E) == 0x396F_F928
    ensures Line(0x396F_F928, 0x7B20_1DF8, 0x8BF0_25C4, 0, 6, 0x655B_59C3) == 0x06CC_5E8A
    ensures Mix(53, 0x06CC_5E8A, 0x8BF0_25C4, 0xB298_CEFD) == 0xC41F_5A4E
    ensures Line(0xC41F_5A4E, 0xF4E8_E96E, 0x06CC_5E8A, 0, 10, 0x8F0C_CC92) == 0x5B0D_97AA
    ensures Mix(54, 0x5B0D_97AA, 0x06CC_5E8A, 0x8BF0_25C4) == 0x79C3_8131
    ensures Line(0x79C3_8131, 0xB298_CEFD, 0x5B0D_97AA, 0, 15, 0xFFEF_F47D) == 0x7D63_2DD0
    ensures Mix(55, 0x7D63_2DD0, 0x5B0D_97AA, 0x06CC_5E8A) == 0xA67E_3A5F
    ensures Line(0xA67E_3A5F, 0x8BF0_25C4, 0x7D63_2DD0, 0, 21, 0x8584_5DD1) == 0x3BFA_2C27
    ensures Mix(56, 0x3BFA_2C27, 0x7D63_2DD0, 0x5B0D_97AA) == 0xC299_41A7
    ensures Line(0xC299_41A7, 0x06CC_5E8A, 0x3BFA_2C27, 0, 6, 0x6FA8_7E4F) == 0x7F81_CC35
    ensures Mix(57, 0x7F81_CC35, 0x3BFA_2C27, 0x7D63_2DD0) == 0xC467_F218
    ensures Line(0xC467_F218, 0x5B0D_97AA, 0x7F81_CC35, 0, 10, 0xFE2C_E6E0) == 0x0944_54AB
    ensures Mix(58, 0x0944_54AB, 0x7F81_CC35, 0x3BFA_2C27) == 0xB2C4_1BCE
    ensures Line(0xB2C4_1BCE, 0x7D63_2DD0, 0x0944_54AB, 0, 15, 0xA301_4314) == 0x4F9D_BE3F
    ensures Mix(59, 0x4F9D_BE3F, 0x0944_54AB, 0x7F81_CC35) == 0xC6BB_EB54
    ensures Line(0xC6BB_EB54, 0x3BFA_2C27, 0x4F9D_BE3F, 0, 21, 0x4E08_11A1) == 0x7327_D604
    ensures Mix(60, 0x7327_D604, 0x4F9D_BE3F, 0x0944_54AB) == 0xB822_416B
    ensures Line(0xB822_416B, 0x7F81_CC35, 0x7327_D604, 0, 6, 0xF753_7E82) == 0x310A_DE8F
    ensures Mix(61, 0x310A_DE8F, 0x7327_D604, 0x4F9D_BE3F) == 0xC24D_09CB
    ensures Line(0xC24D_09CB, 0x0944_54AB, 0x310A_DE8F, 0, 10, 0xBD3A_F235) == 0x624D_8CB2
    ensures Mix(62, 0x624D_8CB2, 0x310A_DE8F, 0x7327_D604) == 0xDFD7_7374
    ensures Line(0xDFD7_7374, 0x4F9D_BE3F, 0x624D_8CB2, 0, 15, 0x2AD7_D2BB) == 0xE484_B9D8
    ensures Mix(63, 0xE484_B9D8, 0x624D_8CB2, 0x310A_DE8F) == 0x8CB8_354A
    ensures Line(0x8CB8_354A, 0x7327_D604, 0xE484_B9D8, 0, 21, 0xEB86_D391) == 0xC082_26B3
  {
  }

  lemma {:induction false} AbcSteps12(q: Chain, i: nat)
    requires i == 48 && Steps(q, AbcWords(), i) == Chain(0x7F2E_507B, 0x7BEB_9700, 0x8FAE_6399, 0x99D9_679D)
    ensures Steps(q, AbcWords(), i + 4) == Chain(0x7B20_1DF8, 0x8BF0_25C4, 0xB298_CEFD, 0xF4E8_E96E)
  {
    hide Steps, Mix, Line;
    AbcRound4();
    var x := AbcWords();
    OneTo(q, x, 48, 0x7F2E_507B, 0x7BEB_9700, 0x8FAE_6399, 0x99D9_679D,
          0xF041_FCFB, 0x8063_6261, 6, 0xF429_2244, 0x7B20_1DF8);
    OneTo(q, x, 49, 0x99D9_679D, 0x7B20_1DF8, 0x7BEB_9700, 0x8FAE_6399,
          0x009A_0AFE, 0, 10, 0x432A_FF97, 0xF4E8_E96E);
    OneTo(q, x, 50, 0x8FAE_6399, 0xF4E8_E96E, 0x7B20_1DF8, 0x7BEB_9700,
          0x8FDC_F407, 0x0000_0018, 15, 0xAB94_23A7, 0xB298_CEFD);
    OneTo(q, x, 51, 0x7BEB_9700, 0xB298_CEFD, 0xF4E8_E96E, 0x7B20_1DF8,
          0x4237_0791, 0, 21, 0xFC93_A039, 0x8BF0_25C4);
  }

  lemma {:induction false} AbcSteps13(q: Chain, i: nat)
    requires i == 52 && Steps(q, AbcWords(), i) == Chain(0x7B20_1DF8, 0x8BF0_25C4, 0xB298_CEFD, 0xF4E8_E96E)
    ensures Steps(q, AbcWords(), i + 4) == Chain(0x06CC_5E8A, 0x3BFA_2C27, 0x7D63_2DD0, 0x5B0D_97AA)
  {
    hide Steps, Mix, Line;
    AbcRound4();
    var x := AbcWords();
    OneTo(q, x, 52, 0x7B20_1DF8, 0x8BF0_25C4, 0xB298_CEFD, 0xF4E8_E96E,
          0x396F_F928, 0, 6, 0x655B_59C3, 0x06CC_5E8A);
    OneTo(q, x, 53, 0xF4E8_E96E, 0x06CC_5E8A, 0x8BF0_25C4, 0xB298_CEFD,
          0xC41F_5A4E, 0, 10, 0x8F0C_CC92, 0x5B0D_97AA);
    OneTo(q, x, 54, 0xB298_CEFD, 0x5B0D_97AA, 0x06CC_5E8A, 0x8BF0_25C4,
          0x79C3_8131, 0, 15, 0xFFEF_F47D, 0x7D63_2DD0);
    OneTo(q, x, 55, 0x8BF0_25C4, 0x7D63_2DD0, 0x5B0D_97AA, 0x06CC_5E8A,
          0xA67E_3A5F, 0, 21, 0x8584_5DD1, 0x3BFA_2C27);
  }

  lemma {:induction false} AbcSteps14(q: Chain, i: nat)
    requires i == 56 && Steps(q, AbcWords(), i) == Chain(0x06CC_5E8A, 0x3BFA_2C27, 0x7D63_2DD0, 0x5B0D_97AA)
    ensures Steps(q, AbcWords(), i + 4) == Chain(0x7F81_CC35, 0x7327_D604, 0x4F9D_BE3F, 0x0944_54AB)
  {
    hide Steps, Mix, Line;
    AbcRound4();
    var x := AbcWords();
    OneTo(q, x, 56, 0x06CC_5E8A, 0x3BFA_2C27, 0x7D63_2DD0, 0x5B0D_97AA,
          0xC299_41A7, 0, 6, 0x6FA8_7E4F, 0x7F81_CC35);
    OneTo(q, x, 57, 0x5B0D_97AA, 0x7F81_CC35, 0x3BFA_2C27, 0x7D63_2DD0,
          0xC467_F218, 0, 10, 0xFE2C_E6E0, 0x0944_54AB);
    OneTo(q, x, 58, 0x7D63_2DD0, 0x0944_54AB, 0x7F81_CC35, 0x3BFA_2C27,
          0xB2C4_1BCE, 0, 15, 0xA301_4314, 0x4F9D_BE3F);
    OneTo(q, x, 59, 0x3BFA_2C27, 0x4F9D_BE3F, 0x0944_54AB, 0x7F81_CC35,
          0xC6BB_EB54, 0, 21, 0x4E08_11A1, 0x7327_D604);
  }

  lemma {:induction false} AbcSteps15(q: Chain, i: nat)
    requires i == 60 && Steps(q, AbcWords(), i) == Chain(0x7F81_CC35, 0x7327_D604, 0x4F9D_BE3F, 0x0944_54AB)
    ensures Steps(q, AbcWords(), i + 4) == Chain(0x310A_DE8F, 0xC082_26B3, 0xE484_B9D8, 0x624D_8CB2)
  {
    hide Steps, Mix, Line;
    AbcRound4();
    var x := AbcWords();
    OneTo(q, x, 60, 0x7F81_CC35, 0x7327_D604, 0x4F9D_BE3F, 0x0944_54AB,
          0xB822_416B, 0, 6, 0xF753_7E82, 0x310A_DE8F);
    OneTo(q, x, 61, 0x0944_54AB, 0x310A_DE8F, 0x7327_D604, 0x4F9D_BE3F,
          0xC24D_09CB, 0, 10, 0xBD3A_F235, 0x624D_8CB2);
    OneTo(q, x, 62, 0x4F9D_BE3F, 0x624D_8CB2, 0x310A_DE8F, 0x7327_D604,
          0xDFD7_7374, 0, 15, 0x2AD7_D2BB, 0xE484_B9D8);
    OneTo(q, x, 63, 0x7327_D604, 0xE484_B9D8, 0x624D_8CB2, 0x310A_DE8F,
          0x8CB8_354A, 0, 21, 0xEB86_D391, 0xC082_26B3);
  }

  lemma {:induction false} AbcChain(q: Chain)
    requires q == Chain(0x6745_2301, 0xEFCD_AB89, 0x98BA_DCFE, 0x1032_5476)
    ensures Steps(q, AbcWords(), 64) == Chain(0x310A_DE8F, 0xC082_26B3, 0xE484_B9D8, 0x624D_8CB2)
  {
    NoStep(q, AbcWords());
    hide Steps;
    AbcSteps0(q, 0);
    AbcSteps1(q, 4);
    AbcSteps2(q, 8);
    AbcSteps3(q, 12);
    AbcSteps4(q, 16);
    AbcSteps5(q, 20);
    AbcSteps6(q, 24);
    AbcSteps7(q, 28);
    AbcSteps8(q, 32);
    AbcSteps9(q, 36);
    AbcSteps10(q, 40);
    AbcSteps11(q, 44);
    AbcSteps12(q, 48);
    AbcSteps13(q, 52);
    AbcSteps14(q, 56);
    AbcSteps15(q, 60);
  }

  lemma {:induction false} AbcPadding()
    ensures |Padded([0x61, 0x62, 0x63])| == 64 && Words(Padded([0x61, 0x62, 0x63])) == AbcWords()
  {
    var m := Padded([0x61, 0x62, 0x63]);
    PaddedShort([0x61, 0x62, 0x63]);
    hide Padded, WordAt;
    assert m[0] == m[..3][0] && m[1] == m[..3][1] && m[2] == m[..3][2];
    forall k | 0 <= k < 16 ensures WordAt(m, k) == AbcWord(k) {
      AbcOneWord(m, k);
    }
  }

  lemma {:induction false} AbcOneWord(m: seq<Byte>, k: nat)
    requires k < 16 && |m| == 64 && m[0] == 0x61 && m[1] == 0x62 && m[2] == 0x63 && m[3] == 0x80
    requires (forall i :: 3 < i < 64 && i != 56 ==> m[i] == 0) && m[56] == 24
    ensures WordAt(m, k) == AbcWord(k)
  {
    hide WordAt;
    WordIs(m, k, 4 * k, AbcWord(k));
  }

  lemma {:induction false} AbcSums()
    ensures
      && Plus(0x6745_2301, 0x310A_DE8F) == 0x9850_0190
      && Plus(0xEFCD_AB89, 0xC082_26B3) == 0xB04F_D23C
      && Plus(0x98BA_DCFE, 0xE484_B9D8) == 0x7D3F_96D6
      && Plus(0x1032_5476, 0x624D_8CB2) == 0x727F_E128
  {
  }

  lemma {:induction false} AbcBytes()
    ensures DigestOf(Chain(0x9850_0190, 0xB04F_D23C, 0x7D3F_96D6, 0x727F_E128)) ==
            [0x90, 0x01, 0x50, 0x98, 0x3c, 0xd2, 0x4f, 0xb0, 0xd6, 0x96, 0x3f, 0x7d, 0x28, 0xe1, 0x7f, 0x72]
  {
    hide DigestOf;
    DigestBytes(Chain(0x9850_0190, 0xB04F_D23C, 0x7D3F_96D6, 0x727F_E128),
                [0x90, 0x01, 0x50, 0x98, 0x3c, 0xd2, 0x4f, 0xb0, 0xd6, 0x96, 0x3f, 0x7d, 0x28, 0xe1, 0x7f, 0x72]);
  }

  /** The digest of the message "abc". */
  lemma {:induction false} AbcDigest()
    ensures Md5Of([0x61, 0x62, 0x63]) ==
            [0x90, 0x01, 0x50, 0x98, 0x3c, 0xd2, 0x4f, 0xb0, 0xd6, 0x96, 0x3f, 0x7d, 0x28, 0xe1, 0x7f, 0x72]
  {
    AbcPadding();
    StartIs();
    AbcChain(START);
    AbcSums();
    hide Steps, Padded, Words, Plus, DigestOf, Compress, Md5Of;
    CompressIs(START, Padded([0x61, 0x62, 0x63]), AbcWords(),
               Chain(0x310A_DE8F, 0xC082_26B3, 0xE484_B9D8, 0x624D_8CB2));
    OneChunk([0x61, 0x62, 0x63]);
    AbcBytes();
  }
}
