/** md5_process of mdfour.c: the compression of one chunk, against RFC 1321, section 3.4. */
module Md5Block {
  import opened Bytes
  import opened Files

  type Word = bv32

  const CSUM_CHUNK := 64

  /** The four chaining words. */
  datatype Chain = Chain(a: Word, b: Word, c: Word, d: Word)

  // ---------------------------------------------------------------------
  // The definition
  // ---------------------------------------------------------------------

  function F(x: Word, y: Word, z: Word): (r: Word) {
    (x & y) | (!x & z)
  }

  function G(x: Word, y: Word, z: Word): (r: Word) {
    (x & z) | (y & !z)
  }

  function H(x: Word, y: Word, z: Word): (r: Word) {
    x ^ y ^ z
  }

  function I(x: Word, y: Word, z: Word): (r: Word) {
    y ^ (x | !z)
  }

  /** The function of the round to which step i belongs. */
  function Mix(i: nat, x: Word, y: Word, z: Word): (r: Word) {
    if i < 16 then F(x, y, z) else if i < 32 then G(x, y, z) else if i < 48 then H(x, y, z) else I(x, y, z)
  }

  /** The word of the chunk that step i uses. */
  function Index(i: nat): (k: nat)
    ensures k < 16
  {
    if i < 16 then i else if i < 32 then K2(i - 16) else if i < 48 then K3(i - 32) else K4(i - 48)
  }

  function K2(j: nat): (k: nat)
    ensures k < 16
  {
    match j
    case 0 => 1
    case 1 => 6
    case 2 => 11
    case 3 => 0
    case 4 => 5
    case 5 => 10
    case 6 => 15
    case 7 => 4
    case 8 => 9
    case 9 => 14
    case 10 => 3
    case 11 => 8
    case 12 => 13
    case 13 => 2
    case 14 => 7
    case _ => 12
  }

  function K3(j: nat): (k: nat)
    ensures k < 16
  {
    match j
    case 0 => 5
    case 1 => 8
    case 2 => 11
    case 3 => 14
    case 4 => 1
    case 5 => 4
    case 6 => 7
    case 7 => 10
    case 8 => 13
    case 9 => 0
    case 10 => 3
    case 11 => 6
    case 12 => 9
    case 13 => 12
    case 14 => 15
    case _ => 2
  }

  function K4(j: nat): (k: nat)
    ensures k < 16
  {
    match j
    case 0 => 0
    case 1 => 7
    case 2 => 14
    case 3 => 5
    case 4 => 12
    case 5 => 3
    case 6 => 10
    case 7 => 1
    case 8 => 8
    case 9 => 15
    case 10 => 6
    case 11 => 13
    case 12 => 4
    case 13 => 11
    case 14 => 2
    case _ => 9
  }

  /** By how many bits step i rotates. */
  function Shift(i: nat): (s: nat)
    ensures s <= 32
  {
    var j := i % 4;
    if i < 16 then if j == 0 then 7 else if j == 1 then 12 else if j == 2 then 17 else 22
    else if i < 32 then if j == 0 then 5 else if j == 1 then 9 else if j == 2 then 14 else 20
    else if i < 48 then if j == 0 then 4 else if j == 1 then 11 else if j == 2 then 16 else 23
    else if j == 0 then 6 else if j == 1 then 10 else if j == 2 then 15 else 21
  }

  /** The integer part of 2^32 times the absolute value of the sine of i + 1. */
  function T(i: nat): (t: Word) {
    if i < 16 then T1(i) else if i < 32 then T2(i - 16) else if i < 48 then T3(i - 32) else T4(i - 48)
  }

  function T1(j: nat): (t: Word) {
    match j
    case 0 => 0xD76A_A478
    case 1 => 0xE8C7_B756
    case 2 => 0x2420_70DB
    case 3 => 0xC1BD_CEEE
    case 4 => 0xF57C_0FAF
    case 5 => 0x4787_C62A
    case 6 => 0xA830_4613
    case 7 => 0xFD46_9501
    case 8 => 0x6980_98D8
    case 9 => 0x8B44_F7AF
    case 10 => 0xFFFF_5BB1
    case 11 => 0x895C_D7BE
    case 12 => 0x6B90_1122
    case 13 => 0xFD98_7193
    case 14 => 0xA679_438E
    case _ => 0x49B4_0821
  }

  function T2(j: nat): (t: Word) {
    match j
    case 0 => 0xF61E_2562
    case 1 => 0xC040_B340
    case 2 => 0x265E_5A51
    case 3 => 0xE9B6_C7AA
    case 4 => 0xD62F_105D
    case 5 => 0x0244_1453
    case 6 => 0xD8A1_E681
    case 7 => 0xE7D3_FBC8
    case 8 => 0x21E1_CDE6
    case 9 => 0xC337_07D6
    case 10 => 0xF4D5_0D87
    case 11 => 0x455A_14ED
    case 12 => 0xA9E3_E905
    case 13 => 0xFCEF_A3F8
    case 14 => 0x676F_02D9
    case _ => 0x8D2A_4C8A
  }

  function T3(j: nat): (t: Word) {
    match j
    case 0 => 0xFFFA_3942
    case 1 => 0x8771_F681
    case 2 => 0x6D9D_6122
    case 3 => 0xFDE5_380C
    case 4 => 0xA4BE_EA44
    case 5 => 0x4BDE_CFA9
    case 6 => 0xF6BB_4B60
    case 7 => 0xBEBF_BC70
    case 8 => 0x289B_7EC6
    case 9 => 0xEAA1_27FA
    case 10 => 0xD4EF_3085
    case 11 => 0x0488_1D05
    case 12 => 0xD9D4_D039
    case 13 => 0xE6DB_99E5
    case 14 => 0x1FA2_7CF8
    case _ => 0xC4AC_5665
  }

  function T4(j: nat): (t: Word) {
    match j
    case 0 => 0xF429_2244
    case 1 => 0x432A_FF97
    case 2 => 0xAB94_23A7
    case 3 => 0xFC93_A039
    case 4 => 0x655B_59C3
    case 5 => 0x8F0C_CC92
    case 6 => 0xFFEF_F47D
    case 7 => 0x8584_5DD1
    case 8 => 0x6FA8_7E4F
    case 9 => 0xFE2C_E6E0
    case 10 => 0xA301_4314
    case 11 => 0x4E08_11A1
    case 12 => 0xF753_7E82
    case 13 => 0xBD3A_F235
    case 14 => 0x2AD7_D2BB
    case _ => 0xEB86_D391
  }

  /** The circular shift to the left. */
  function Rotated(x: Word, s: nat): (r: Word)
    requires s <= 32
  {
    (x << s) | (x >> (32 - s))
  }

  /** Addition modulo 2^32. */
  function Plus(x: Word, y: Word): (r: Word) {
    x + y
  }

  /** What a step makes of its first word. */
  function Line(f: Word, a: Word, b: Word, x: Word, s: nat, t: Word): (r: Word)
    requires s <= 32
  {
    Plus(b, Rotated(Plus(a, Plus(Plus(f, x), t)), s))
  }

  function WordAt(m: seq<Byte>, k: nat): (w: Word)
    requires 4 * k + 4 <= |m|
  {
    FromLeBound(m[4 * k..4 * k + 4]);
    FromLe(m[4 * k..4 * k + 4]) as Word
  }

  function Words(m: seq<Byte>): (x: seq<Word>)
    requires |m| == CSUM_CHUNK
    ensures |x| == 16
  {
    seq(16, k requires 0 <= k < 16 => WordAt(m, k))
  }

  /** One step; the words change places for the next. */
  function Step(q: Chain, x: seq<Word>, i: nat): (r: Chain)
    requires |x| == 16 && i < 64
  {
    Chain(q.d, Line(Mix(i, q.b, q.c, q.d), q.a, q.b, x[Index(i)], Shift(i), T(i)), q.b, q.c)
  }

  /** The first n steps. */
  function Steps(q: Chain, x: seq<Word>, n: nat): (r: Chain)
    requires |x| == 16 && n <= 64
  {
    if n == 0 then q else Step(Steps(q, x, n - 1), x, n - 1)
  }

  function Compress(q: Chain, m: seq<Byte>): (r: Chain)
    requires |m| == CSUM_CHUNK
  {
    var s := Steps(q, Words(m), 64);
    Chain(Plus(q.a, s.a), Plus(q.b, s.b), Plus(q.c, s.c), Plus(q.d, s.d))
  }

  // ---------------------------------------------------------------------
  // The code
  // ---------------------------------------------------------------------

  function F1(x: Word, y: Word, z: Word): (r: Word) {
    z ^ (x & (y ^ z))
  }

  function F2(x: Word, y: Word, z: Word): (r: Word) {
    y ^ (z & (x ^ y))
  }

  function F3(x: Word, y: Word, z: Word): (r: Word) {
    x ^ y ^ z
  }

  function F4(x: Word, y: Word, z: Word): (r: Word) {
    y ^ (x | !z)
  }

  /** The macro F as it stands at step i. */
  function MacroF(i: nat, x: Word, y: Word, z: Word): (r: Word) {
    if i < 16 then F1(x, y, z) else if i < 32 then F2(x, y, z) else if i < 48 then F3(x, y, z) else F4(x, y, z)
  }

  lemma {:induction false} FIsF1(x: Word, y: Word, z: Word)
    ensures F1(x, y, z) == F(x, y, z)
  {
    assert z ^ (x & (y ^ z)) == (x & y) | (!x & z);
  }

  lemma {:induction false} GIsF2(x: Word, y: Word, z: Word)
    ensures F2(x, y, z) == G(x, y, z)
  {
    assert y ^ (z & (x ^ y)) == (x & z) | (y & !z);
  }

  lemma {:induction false} MacroIsMix(i: nat, x: Word, y: Word, z: Word)
    ensures MacroF(i, x, y, z) == Mix(i, x, y, z)
  {
    hide F, G, F1, F2;
    FIsF1(x, y, z);
    GIsF2(x, y, z);
  }

  /** The macro S. */
  function S(x: Word, n: nat): (r: Word)
    requires n <= 32
  {
    (x << n) | ((x & 0xFFFF_FFFF) >> (32 - n))
  }

  /** The macro P, with the value of its F. */
  function P(f: Word, a: Word, b: Word, x: Word, s: nat, t: Word): (r: Word)
    requires s <= 32
  {
    Plus(S(Plus(a, Plus(Plus(f, x), t)), s), b)
  }

  lemma {:induction false} Masked(x: Word)
    ensures x & 0xFFFF_FFFF == x
  {
  }

  lemma {:induction false} Swapped(a: Word, b: Word)
    ensures Plus(a, b) == Plus(b, a)
  {
  }

  lemma {:induction false} SIsRotated(x: Word, s: nat)
    requires s <= 32
    ensures S(x, s) == Rotated(x, s)
  {
    Masked(x);
  }

  lemma {:induction false} PIsLine(f: Word, a: Word, b: Word, x: Word, s: nat, t: Word)
    requires s <= 32
    ensures P(f, a, b, x, s, t) == Line(f, a, b, x, s, t)
  {
    hide S, Rotated, Plus;
    SIsRotated(Plus(a, Plus(Plus(f, x), t)), s);
    Swapped(S(Plus(a, Plus(Plus(f, x), t)), s), b);
  }

  /** A line of the code does what a step does to its first word. */
  lemma {:induction false} OneStep(q: Chain, x: seq<Word>, i: nat, s: Chain)
    requires |x| == 16 && i < 64 && s == Steps(q, x, i)
    ensures Steps(q, x, i + 1)
         == Chain(s.d, P(MacroF(i, s.b, s.c, s.d), s.a, s.b, x[Index(i)], Shift(i), T(i)), s.b, s.c)
  {
    hide P, Line, Plus, MacroF, Mix, T, Shift, Index;
    MacroIsMix(i, s.b, s.c, s.d);
    PIsLine(Mix(i, s.b, s.c, s.d), s.a, s.b, x[Index(i)], Shift(i), T(i));
  }

  /** The first sixteen lines. */
  method Round1(ghost q: Chain, x: seq<Word>, from: Chain) returns (to: Chain)
    requires |x| == 16 && from == Steps(q, x, 0)
    ensures to == Steps(q, x, 16)
  {
    hide Steps, P, F1, F2, F3, F4;
    var a, b, c, d := from.a, from.b, from.c, from.d;
    OneStep(q, x, 0, Chain(a, b, c, d));
    a := P(F1(b, c, d), a, b, x[0], 7, 0xD76A_A478);
    OneStep(q, x, 1, Chain(d, a, b, c));
    d := P(F1(a, b, c), d, a, x[1], 12, 0xE8C7_B756);
    OneStep(q, x, 2, Chain(c, d, a, b));
    c := P(F1(d, a, b), c, d, x[2], 17, 0x2420_70DB);
    OneStep(q, x, 3, Chain(b, c, d, a));
    b := P(F1(c, d, a), b, c, x[3], 22, 0xC1BD_CEEE);
    OneStep(q, x, 4, Chain(a, b, c, d));
    a := P(F1(b, c, d), a, b, x[4], 7, 0xF57C_0FAF);
    OneStep(q, x, 5, Chain(d, a, b, c));
    d := P(F1(a, b, c), d, a, x[5], 12, 0x4787_C62A);
    OneStep(q, x, 6, Chain(c, d, a, b));
    c := P(F1(d, a, b), c, d, x[6], 17, 0xA830_4613);
    OneStep(q, x, 7, Chain(b, c, d, a));
    b := P(F1(c, d, a), b, c, x[7], 22, 0xFD46_9501);
    OneStep(q, x, 8, Chain(a, b, c, d));
    a := P(F1(b, c, d), a, b, x[8], 7, 0x6980_98D8);
    OneStep(q, x, 9, Chain(d, a, b, c));
    d := P(F1(a, b, c), d, a, x[9], 12, 0x8B44_F7AF);
    OneStep(q, x, 10, Chain(c, d, a, b));
    c := P(F1(d, a, b), c, d, x[10], 17, 0xFFFF_5BB1);
    OneStep(q, x, 11, Chain(b, c, d, a));
    b := P(F1(c, d, a), b, c, x[11], 22, 0x895C_D7BE);
    OneStep(q, x, 12, Chain(a, b, c, d));
    a := P(F1(b, c, d), a, b, x[12], 7, 0x6B90_1122);
    OneStep(q, x, 13, Chain(d, a, b, c));
    d := P(F1(a, b, c), d, a, x[13], 12, 0xFD98_7193);
    OneStep(q, x, 14, Chain(c, d, a, b));
    c := P(F1(d, a, b), c, d, x[14], 17, 0xA679_438E);
    OneStep(q, x, 15, Chain(b, c, d, a));
    b := P(F1(c, d, a), b, c, x[15], 22, 0x49B4_0821);
    to := Chain(a, b, c, d);
  }

  /** The second sixteen lines. */
  method Round2(ghost q: Chain, x: seq<Word>, from: Chain) returns (to: Chain)
    requires |x| == 16 && from == Steps(q, x, 16)
    ensures to == Steps(q, x, 32)
  {
    hide Steps, P, F1, F2, F3, F4;
    var a, b, c, d := from.a, from.b, from.c, from.d;
    OneStep(q, x, 16, Chain(a, b, c, d));
    a := P(F2(b, c, d), a, b, x[1], 5, 0xF61E_2562);
    OneStep(q, x, 17, Chain(d, a, b, c));
    d := P(F2(a, b, c), d, a, x[6], 9, 0xC040_B340);
    OneStep(q, x, 18, Chain(c, d, a, b));
    c := P(F2(d, a, b), c, d, x[11], 14, 0x265E_5A51);
    OneStep(q, x, 19, Chain(b, c, d, a));
    b := P(F2(c, d, a), b, c, x[0], 20, 0xE9B6_C7AA);
    OneStep(q, x, 20, Chain(a, b, c, d));
    a := P(F2(b, c, d), a, b, x[5], 5, 0xD62F_105D);
    OneStep(q, x, 21, Chain(d, a, b, c));
    d := P(F2(a, b, c), d, a, x[10], 9, 0x0244_1453);
    OneStep(q, x, 22, Chain(c, d, a, b));
    c := P(F2(d, a, b), c, d, x[15], 14, 0xD8A1_E681);
    OneStep(q, x, 23, Chain(b, c, d, a));
    b := P(F2(c, d, a), b, c, x[4], 20, 0xE7D3_FBC8);
    OneStep(q, x, 24, Chain(a, b, c, d));
    a := P(F2(b, c, d), a, b, x[9], 5, 0x21E1_CDE6);
    OneStep(q, x, 25, Chain(d, a, b, c));
    d := P(F2(a, b, c), d, a, x[14], 9, 0xC337_07D6);
    OneStep(q, x, 26, Chain(c, d, a, b));
    c := P(F2(d, a, b), c, d, x[3], 14, 0xF4D5_0D87);
    OneStep(q, x, 27, Chain(b, c, d, a));
    b := P(F2(c, d, a), b, c, x[8], 20, 0x455A_14ED);
    OneStep(q, x, 28, Chain(a, b, c, d));
    a := P(F2(b, c, d), a, b, x[13], 5, 0xA9E3_E905);
    OneStep(q, x, 29, Chain(d, a, b, c));
    d := P(F2(a, b, c), d, a, x[2], 9, 0xFCEF_A3F8);
    OneStep(q, x, 30, Chain(c, d, a, b));
    c := P(F2(d, a, b), c, d, x[7], 14, 0x676F_02D9);
    OneStep(q, x, 31, Chain(b, c, d, a));
    b := P(F2(c, d, a), b, c, x[12], 20, 0x8D2A_4C8A);
    to := Chain(a, b, c, d);
  }

  /** The third sixteen lines. */
  method Round3(ghost q: Chain, x: seq<Word>, from: Chain) returns (to: Chain)
    requires |x| == 16 && from == Steps(q, x, 32)
    ensures to == Steps(q, x, 48)
  {
    hide Steps, P, F1, F2, F3, F4;
    var a, b, c, d := from.a, from.b, from.c, from.d;
    OneStep(q, x, 32, Chain(a, b, c, d));
    a := P(F3(b, c, d), a, b, x[5], 4, 0xFFFA_3942);
    OneStep(q, x, 33, Chain(d, a, b, c));
    d := P(F3(a, b, c), d, a, x[8], 11, 0x8771_F681);
    OneStep(q, x, 34, Chain(c, d, a, b));
    c := P(F3(d, a, b), c, d, x[11], 16, 0x6D9D_6122);
    OneStep(q, x, 35, Chain(b, c, d, a));
    b := P(F3(c, d, a), b, c, x[14], 23, 0xFDE5_380C);
    OneStep(q, x, 36, Chain(a, b, c, d));
    a := P(F3(b, c, d), a, b, x[1], 4, 0xA4BE_EA44);
    OneStep(q, x, 37, Chain(d, a, b, c));
    d := P(F3(a, b, c), d, a, x[4], 11, 0x4BDE_CFA9);
    OneStep(q, x, 38, Chain(c, d, a, b));
    c := P(F3(d, a, b), c, d, x[7], 16, 0xF6BB_4B60);
    OneStep(q, x, 39, Chain(b, c, d, a));
    b := P(F3(c, d, a), b, c, x[10], 23, 0xBEBF_BC70);
    OneStep(q, x, 40, Chain(a, b, c, d));
    a := P(F3(b, c, d), a, b, x[13], 4, 0x289B_7EC6);
    OneStep(q, x, 41, Chain(d, a, b, c));
    d := P(F3(a, b, c), d, a, x[0], 11, 0xEAA1_27FA);
    OneStep(q, x, 42, Chain(c, d, a, b));
    c := P(F3(d, a, b), c, d, x[3], 16, 0xD4EF_3085);
    OneStep(q, x, 43, Chain(b, c, d, a));
    b := P(F3(c, d, a), b, c, x[6], 23, 0x0488_1D05);
    OneStep(q, x, 44, Chain(a, b, c, d));
    a := P(F3(b, c, d), a, b, x[9], 4, 0xD9D4_D039);
    OneStep(q, x, 45, Chain(d, a, b, c));
    d := P(F3(a, b, c), d, a, x[12], 11, 0xE6DB_99E5);
    OneStep(q, x, 46, Chain(c, d, a, b));
    c := P(F3(d, a, b), c, d, x[15], 16, 0x1FA2_7CF8);
    OneStep(q, x, 47, Chain(b, c, d, a));
    b := P(F3(c, d, a), b, c, x[2], 23, 0xC4AC_5665);
    to := Chain(a, b, c, d);
  }

  /** The last sixteen lines. */
  method Round4(ghost q: Chain, x: seq<Word>, from: Chain) returns (to: Chain)
    requires |x| == 16 && from == Steps(q, x, 48)
    ensures to == Steps(q, x, 64)
  {
    hide Steps, P, F1, F2, F3, F4;
    var a, b, c, d := from.a, from.b, from.c, from.d;
    OneStep(q, x, 48, Chain(a, b, c, d));
    a := P(F4(b, c, d), a, b, x[0], 6, 0xF429_2244);
    OneStep(q, x, 49, Chain(d, a, b, c));
    d := P(F4(a, b, c), d, a, x[7], 10, 0x432A_FF97);
    OneStep(q, x, 50, Chain(c, d, a, b));
    c := P(F4(d, a, b), c, d, x[14], 15, 0xAB94_23A7);
    OneStep(q, x, 51, Chain(b, c, d, a));
    b := P(F4(c, d, a), b, c, x[5], 21, 0xFC93_A039);
    OneStep(q, x, 52, Chain(a, b, c, d));
    a := P(F4(b, c, d), a, b, x[12], 6, 0x655B_59C3);
    OneStep(q, x, 53, Chain(d, a, b, c));
    d := P(F4(a, b, c), d, a, x[3], 10, 0x8F0C_CC92);
    OneStep(q, x, 54, Chain(c, d, a, b));
    c := P(F4(d, a, b), c, d, x[10], 15, 0xFFEF_F47D);
    OneStep(q, x, 55, Chain(b, c, d, a));
    b := P(F4(c, d, a), b, c, x[1], 21, 0x8584_5DD1);
    OneStep(q, x, 56, Chain(a, b, c, d));
    a := P(F4(b, c, d), a, b, x[8], 6, 0x6FA8_7E4F);
    OneStep(q, x, 57, Chain(d, a, b, c));
    d := P(F4(a, b, c), d, a, x[15], 10, 0xFE2C_E6E0);
    OneStep(q, x, 58, Chain(c, d, a, b));
    c := P(F4(d, a, b), c, d, x[6], 15, 0xA301_4314);
    OneStep(q, x, 59, Chain(b, c, d, a));
    b := P(F4(c, d, a), b, c, x[13], 21, 0x4E08_11A1);
    OneStep(q, x, 60, Chain(a, b, c, d));
    a := P(F4(b, c, d), a, b, x[4], 6, 0xF753_7E82);
    OneStep(q, x, 61, Chain(d, a, b, c));
    d := P(F4(a, b, c), d, a, x[11], 10, 0xBD3A_F235);
    OneStep(q, x, 62, Chain(c, d, a, b));
    c := P(F4(d, a, b), c, d, x[2], 15, 0x2AD7_D2BB);
    OneStep(q, x, 63, Chain(b, c, d, a));
    b := P(F4(c, d, a), b, c, x[9], 21, 0xEB86_D391);
    to := Chain(a, b, c, d);
  }

  /** md5_process. */
  method Process(q: Chain, m: seq<Byte>) returns (r: Chain)
    requires |m| == CSUM_CHUNK
    ensures r == Compress(q, m)
  {
    var x := Words(m);
    NoStep(q, x);
    hide Steps, Plus, Words;
    var s := Round1(q, x, q);
    s := Round2(q, x, s);
    s := Round3(q, x, s);
    s := Round4(q, x, s);
    r := Chain(Plus(q.a, s.a), Plus(q.b, s.b), Plus(q.c, s.c), Plus(q.d, s.d));
  }

  lemma {:induction false} NoStep(q: Chain, x: seq<Word>)
    requires |x| == 16
    ensures Steps(q, x, 0) == q
  {
  }
}
