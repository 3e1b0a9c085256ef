/** The two weak checksums: the rolling sum of rollsum.c and rollsum.h, kept in
    64-bit words, and the block sum of checksum.c, kept in 32-bit words. */
module Checksums {
  import opened Bytes

  const CHAR_OFFSET := 31

  // ---------------------------------------------------------------------
  // What both programs are meant to compute
  // ---------------------------------------------------------------------

  /** Sum of the offset bytes. */
  ghost function S1(w: seq<Byte>): (r: nat) {
    if w == [] then 0 else w[0] + CHAR_OFFSET + S1(w[1..])
  }

  /** Weighted sum of the offset bytes: the first byte counts |w| times, the last once. */
  ghost function S2(w: seq<Byte>): (r: nat) {
    if w == [] then 0 else Times(|w|, w[0] + CHAR_OFFSET) + S2(w[1..])
  }

  /** n copies of x, added up. */
  ghost function Times(n: nat, x: int): (r: int)
    ensures x >= 0 ==> r >= 0
  {
    if n == 0 then 0 else x + Times(n - 1, x)
  }

  /** The 32-bit weak sum of a block. */
  ghost function WeakSum(w: seq<Byte>): (r: nat)
    ensures r < TWO_32
  {
    (S2(w) % TWO_16) * TWO_16 + S1(w) % TWO_16
  }

  /** The digest of a rolling sum before it is narrowed. */
  ghost function WideSum(w: seq<Byte>): (r: nat) {
    Wrap64(Wrap64(S2(w)) * TWO_16) + Wrap64(S1(w)) % TWO_16
  }

  lemma {:induction false} TimesIsProduct(n: nat, x: int)
    ensures Times(n, x) == n * x
  {
    if n != 0 {
      TimesIsProduct(n - 1, x);
      assert (n - 1) * x + x == n * x;
    }
  }

  lemma {:induction false} TimesOfSum(n: nat, x: int, y: int)
    ensures Times(n, x + y) == Times(n, x) + Times(n, y)
  {
    if n != 0 {
      TimesOfSum(n - 1, x, y);
    }
  }

  lemma {:induction false} SumOfTimes(m: nat, n: nat, x: int)
    ensures Times(m + n, x) == Times(m, x) + Times(n, x)
  {
    if m != 0 {
      SumOfTimes(m - 1, n, x);
    }
  }

  lemma {:induction false} SumsOfConcat(u: seq<Byte>, v: seq<Byte>)
    ensures S1(u + v) == S1(u) + S1(v)
    ensures S2(u + v) == S2(u) + Times(|v|, S1(u)) + S2(v)
  {
    if u == [] {
      assert u + v == v;
      TimesIsProduct(|v|, 0);
    } else {
      SumsOfConcat(u[1..], v);
      assert (u + v)[1..] == u[1..] + v;
      SumOfTimes(|u|, |v|, u[0] + CHAR_OFFSET);
      TimesOfSum(|v|, u[0] + CHAR_OFFSET, S1(u[1..]));
    }
  }

  lemma {:induction false} SumsOfAppend(w: seq<Byte>, b: Byte)
    ensures S1(w + [b]) == S1(w) + b + CHAR_OFFSET
    ensures S2(w + [b]) == S2(w) + S1(w) + b + CHAR_OFFSET
  {
    SumsOfConcat(w, [b]);
    assert [b][1..] == [];
    assert S1([b]) == b + CHAR_OFFSET;
    assert Times(1, S1(w)) == S1(w) && Times(1, b + CHAR_OFFSET) == b + CHAR_OFFSET;
  }

  /** The words hold the true sums, modulo their width. */
  ghost predicate Totals(s: Sums, w: seq<Byte>) {
    s.s1 == Wrap64(S1(w)) && s.s2 == Wrap64(S2(w))
  }

  // ---------------------------------------------------------------------
  // rollsum.c: sixteen bytes at a time, offsets added afterwards
  // ---------------------------------------------------------------------

  /** The pair of running sums as the unrolled macros see them. */
  datatype Sums = Sums(s1: nat, s2: nat)

  ghost function Triangle(n: nat): (r: nat) {
    if n == 0 then 0 else n + Triangle(n - 1)
  }

  /** The plain sum of the bytes, and their weighted sum, without offsets. */
  ghost function Raw1(w: seq<Byte>): (r: int) {
    S1(w) - CHAR_OFFSET * |w|
  }

  ghost function Raw2(w: seq<Byte>): (r: int) {
    S2(w) - CHAR_OFFSET * Triangle(|w|)
  }

  /** From `s`, absorbing n bytes of raw sums a1 and a2 leads to `t`. */
  ghost predicate Gains(s: Sums, n: nat, a1: int, a2: int, t: Sums) {
    t.s1 == Wrap64(s.s1 + a1) && t.s2 == Wrap64(s.s2 + Times(n, s.s1) + a2)
  }

  ghost predicate Absorbs(s: Sums, w: seq<Byte>, t: Sums) {
    Gains(s, |w|, Raw1(w), Raw2(w), t)
  }

  lemma {:induction false} WrapTimes(k: nat, x: int)
    ensures Wrap64(Times(k, Wrap64(x))) == Wrap64(Times(k, x))
  {
    if k != 0 {
      WrapTimes(k - 1, x);
      WrapSum(x, Times(k - 1, Wrap64(x)), Times(k - 1, x));
    }
  }

  lemma {:induction false} WrapSum(x: int, p: int, q: int)
    requires Wrap64(p) == Wrap64(q)
    ensures Wrap64(Wrap64(x) + p) == Wrap64(x + q)
  {
  }

  lemma {:induction false} TriangleSum(m: nat, n: nat)
    ensures Triangle(m + n) == Triangle(m) + Triangle(n) + Times(m, n)
  {
    if m != 0 {
      TriangleSum(m - 1, n);
    }
  }

  lemma {:induction false} TimesSwap(m: nat, n: nat)
    ensures Times(n, CHAR_OFFSET * m) == CHAR_OFFSET * Times(m, n)
  {
    if m == 0 {
      TimesIsProduct(n, 0);
    } else {
      TimesSwap(m - 1, n);
      TimesOfSum(n, CHAR_OFFSET * (m - 1), CHAR_OFFSET);
      TimesIsProduct(n, CHAR_OFFSET);
    }
  }

  lemma {:induction false} RawOfConcat(u: seq<Byte>, v: seq<Byte>)
    ensures Raw1(u + v) == Raw1(u) + Raw1(v)
    ensures Raw2(u + v) == Raw2(u) + Times(|v|, Raw1(u)) + Raw2(v)
  {
    SumsOfConcat(u, v);
    TriangleSum(|u|, |v|);
    TimesLess(|u|, |v|, S1(u));
  }

  lemma {:induction false} TimesLess(m: nat, n: nat, a: int)
    ensures Times(n, a - CHAR_OFFSET * m) == Times(n, a) - CHAR_OFFSET * Times(m, n)
  {
    TimesOfSum(n, a - CHAR_OFFSET * m, CHAR_OFFSET * m);
    TimesSwap(m, n);
  }

  lemma {:induction false} GainsConcat(s: Sums, m: nat, a1: int, a2: int, t: Sums, n: nat, b1: int, b2: int, r: Sums)
    requires Gains(s, m, a1, a2, t) && Gains(t, n, b1, b2, r)
    ensures Gains(s, m + n, a1 + b1, a2 + Times(n, a1) + b2, r)
  {
    ConcatFirst(s.s1 + a1, b1, t.s1, r.s1);
    WrapTimes(n, s.s1 + a1);
    TimesOfSum(n, s.s1, a1);
    SumOfTimes(m, n, s.s1);
    ConcatSecond(s.s2 + Times(m, s.s1) + a2, Times(n, t.s1), Times(n, s.s1 + a1), b2, t.s2, r.s2);
  }

  lemma {:induction false} AbsorbsConcat(s: Sums, u: seq<Byte>, t: Sums, v: seq<Byte>, r: Sums)
    requires Absorbs(s, u, t) && Absorbs(t, v, r)
    ensures Absorbs(s, u + v, r)
  {
    GainsConcat(s, |u|, Raw1(u), Raw2(u), t, |v|, Raw1(v), Raw2(v), r);
    RawOfConcat(u, v);
    assert |u + v| == |u| + |v|;
  }

  lemma {:induction false} ConcatFirst(c: int, e: int, t: nat, r: nat)
    requires t == Wrap64(c) && r == Wrap64(t + e)
    ensures r == Wrap64(c + e)
  {
  }

  lemma {:induction false} ConcatSecond(c: int, p: int, q: int, e: int, t: nat, r: nat)
    requires t == Wrap64(c) && r == Wrap64(t + p + e) && Wrap64(p) == Wrap64(q)
    ensures r == Wrap64(c + q + e)
  {
    WrapShiftEqual(p, q, e);
    WrapSum(c, p + e, q + e);
  }

  lemma {:induction false} WrapShiftEqual(p: int, q: int, e: int)
    requires Wrap64(p) == Wrap64(q)
    ensures Wrap64(p + e) == Wrap64(q + e)
  {
  }

  lemma {:induction false} WrapPlus(c: int, e: int)
    ensures Wrap64(Wrap64(c) + e) == Wrap64(c + e)
  {
  }

  method Do1(s: Sums, buf: seq<Byte>, i: nat) returns (t: Sums)
    requires i < |buf|
    ensures Absorbs(s, buf[i..i + 1], t)
  {
    ghost var w := buf[i..i + 1];
    assert w == [buf[i]] && w[1..] == [];
    SumsOfAppend([], buf[i]);
    assert [] + [buf[i]] == w;
    WrapStep(s.s1, s.s2, buf[i]);
    var s1 := Wrap64(s.s1 + buf[i]);
    t := Sums(s1, Wrap64(s.s2 + s1));
    OneByte(s, w, buf[i], t);
  }

  lemma {:induction false} OneByte(s: Sums, w: seq<Byte>, b: Byte, t: Sums)
    requires |w| == 1 && S1(w) == b + CHAR_OFFSET && S2(w) == b + CHAR_OFFSET
    requires t.s1 == Wrap64(s.s1 + b) && t.s2 == Wrap64(s.s2 + s.s1 + b)
    ensures Absorbs(s, w, t)
  {
    assert Triangle(1) == 1 && Times(1, s.s1) == s.s1;
  }

  method Do2(s: Sums, buf: seq<Byte>, i: nat) returns (t: Sums)
    requires i + 2 <= |buf|
    ensures Absorbs(s, buf[i..i + 2], t)
  {
    var m := Do1(s, buf, i);
    t := Do1(m, buf, i + 1);
    AbsorbsConcat(s, buf[i..i + 1], m, buf[i + 1..i + 2], t);
    assert buf[i..i + 1] + buf[i + 1..i + 2] == buf[i..i + 2];
  }

  method Do4(s: Sums, buf: seq<Byte>, i: nat) returns (t: Sums)
    requires i + 4 <= |buf|
    ensures Absorbs(s, buf[i..i + 4], t)
  {
    var m := Do2(s, buf, i);
    t := Do2(m, buf, i + 2);
    AbsorbsConcat(s, buf[i..i + 2], m, buf[i + 2..i + 4], t);
    assert buf[i..i + 2] + buf[i + 2..i + 4] == buf[i..i + 4];
  }

  method Do8(s: Sums, buf: seq<Byte>, i: nat) returns (t: Sums)
    requires i + 8 <= |buf|
    ensures Absorbs(s, buf[i..i + 8], t)
  {
    var m := Do4(s, buf, i);
    t := Do4(m, buf, i + 4);
    AbsorbsConcat(s, buf[i..i + 4], m, buf[i + 4..i + 8], t);
    assert buf[i..i + 4] + buf[i + 4..i + 8] == buf[i..i + 8];
  }

  method Do16(s: Sums, buf: seq<Byte>, i: nat) returns (t: Sums)
    requires i + 16 <= |buf|
    ensures Absorbs(s, buf[i..i + 16], t)
  {
    var m := Do8(s, buf, i);
    t := Do8(m, buf, i + 8);
    AbsorbsConcat(s, buf[i..i + 8], m, buf[i + 8..i + 16], t);
    assert buf[i..i + 8] + buf[i + 8..i + 16] == buf[i..i + 16];
  }

  function Of16(s: Sums): (r: Sums) {
    Sums(Wrap64(s.s1 + 16 * CHAR_OFFSET), Wrap64(s.s2 + 136 * CHAR_OFFSET))
  }

  /** The offset correction turns sixteen raw bytes into sixteen offset ones. */
  lemma {:induction false} OffsetsAfterwards(s: Sums, done: seq<Byte>, w: seq<Byte>, t: Sums)
    requires |w| == 16 && Totals(s, done) && Absorbs(s, w, t)
    ensures Totals(Of16(t), done + w)
  {
    SumsOfConcat(done, w);
    TriangleOfSixteen();
    SixteenArithmetic(s, t, S1(done), S2(done), S1(w), S2(w));
  }

  lemma {:induction false} TriangleOfSixteen()
    ensures Triangle(16) == 136
  {
    assert Triangle(4) == 10;
    assert Triangle(8) == 36;
    assert Triangle(12) == 78;
  }

  lemma {:induction false} SixteenArithmetic(s: Sums, t: Sums, a: int, b: int, w1: int, w2: int)
    requires s.s1 == Wrap64(a) && s.s2 == Wrap64(b)
    requires t.s1 == Wrap64(s.s1 + w1 - CHAR_OFFSET * 16)
    requires t.s2 == Wrap64(s.s2 + Times(16, s.s1) + w2 - CHAR_OFFSET * 136)
    ensures Of16(t).s1 == Wrap64(a + w1)
    ensures Of16(t).s2 == Wrap64(b + Times(16, a) + w2)
  {
    var o := CHAR_OFFSET;
    WrapPlus(a, w1 - o * 16);
    WrapPlus(a + w1 - o * 16, o * 16);
    WrapTimes(16, a);
    var p, q, e := Times(16, s.s1), Times(16, a), w2 - o * 136;
    WrapShiftEqual(p, q, e);
    WrapSum(b, p + e, q + e);
    WrapPlus(b + q + e, o * 136);
  }

  /** One byte of the tail loop. */
  method Single(s: Sums, ghost done: seq<Byte>, buf: seq<Byte>, i: nat) returns (t: Sums)
    requires i < |buf|
    requires Totals(s, done + buf[..i])
    ensures Totals(t, done + buf[..i + 1])
  {
    ghost var w := done + buf[..i];
    SumsOfAppend(w, buf[i]);
    assert w + [buf[i]] == done + buf[..i + 1];
    WrapStep(S1(w), S2(w), buf[i] + CHAR_OFFSET);
    var s1 := Wrap64(s.s1 + (buf[i] + CHAR_OFFSET));
    t := Sums(s1, Wrap64(s.s2 + s1));
  }

  /** One round of the unrolled loop. */
  method Round(s: Sums, ghost done: seq<Byte>, buf: seq<Byte>, i: nat) returns (t: Sums)
    requires i + 16 <= |buf|
    requires Totals(s, done + buf[..i])
    ensures Totals(t, done + buf[..i + 16])
  {
    t := Do16(s, buf, i);
    OffsetsAfterwards(s, done + buf[..i], buf[i..i + 16], t);
    assert done + buf[..i] + buf[i..i + 16] == done + buf[..i + 16];
    t := Of16(t);
  }

  /** The struct of rollsum.h.  Its sums are `unsigned long` and wrap at 2^64. */
  class Rollsum {
    var count: nat
    var s1: nat
    var s2: nat

    /** The sum stands for the window `w`. */
    ghost predicate Covers(w: seq<Byte>)
      reads this
    {
      count == |w| && Totals(Sums(s1, s2), w)
    }

    constructor ()
      ensures Covers([])
    {
      count, s1, s2 := 0, 0, 0;
    }

    method Init()
      modifies this
      ensures Covers([])
    {
      count, s1, s2 := 0, 0, 0;
    }

    method Update(buf: seq<Byte>, ghost w: seq<Byte>)
      requires Covers(w)
      modifies this
      ensures Covers(w + buf)
    {
      var s := Sums(s1, s2);
      var i: nat, len: nat := 0, |buf|;
      assert w + buf[..0] == w;
      count := count + len;
      while len >= 16
        invariant i + len == |buf| && count == |w + buf|
        invariant Totals(s, w + buf[..i])
      {
        s := Round(s, w, buf, i);
        i, len := i + 16, len - 16;
      }
      while len != 0
        invariant i + len == |buf| && count == |w + buf|
        invariant Totals(s, w + buf[..i])
      {
        s := Single(s, w, buf, i);
        i, len := i + 1, len - 1;
      }
      assert w + buf[..i] == w + buf;
      s1, s2 := s.s1, s.s2;
    }

    /** Slide the window by one byte. */
    method Rotate(leaving: Byte, entering: Byte, ghost w: seq<Byte>)
      requires w != [] && w[0] == leaving
      requires Covers(w)
      modifies this
      ensures Covers(w[1..] + [entering])
    {
      SumsOfAppend(w[1..], entering);
      TimesIsProduct(count, leaving + CHAR_OFFSET);
      WrapRotate(S1(w), S2(w), count * (leaving + CHAR_OFFSET), entering - leaving);
      s1 := Wrap64(s1 + (entering - leaving));
      s2 := Wrap64(s2 + (s1 - count * (leaving + CHAR_OFFSET)));
    }

    /** Extend the window by one byte. */
    method Rollin(c: Byte, ghost w: seq<Byte>)
      requires Covers(w)
      modifies this
      ensures Covers(w + [c])
    {
      SumsOfAppend(w, c);
      WrapStep(S1(w), S2(w), c + CHAR_OFFSET);
      s1 := Wrap64(s1 + (c + CHAR_OFFSET));
      s2 := Wrap64(s2 + s1);
      count := count + 1;
    }

    /** Drop the first byte of the window. */
    method Rollout(c: Byte, ghost w: seq<Byte>)
      requires w != [] && w[0] == c
      requires Covers(w)
      modifies this
      ensures Covers(w[1..])
    {
      WrapPlus(S1(w), -(c + CHAR_OFFSET));
      WrapPlus(S2(w), -(count * (c + CHAR_OFFSET)));
      TimesIsProduct(count, c + CHAR_OFFSET);
      s1 := Wrap64(s1 - (c + CHAR_OFFSET));
      s2 := Wrap64(s2 - count * (c + CHAR_OFFSET));
      count := count - 1;
    }

    /** The digest in its full width. */
    function WideDigest(): (r: nat)
      reads this
    {
      Wrap64(s2 * TWO_16) + s1 % TWO_16
    }

    /** The digest, narrowed to the 32 bits of an rs_weak_sum_t. */
    function Digest(): (r: nat)
      reads this
    {
      Wrap32(WideDigest())
    }

    /** Rolling, in any order of operations, ends in the block sum of the window. */
    lemma {:induction false} DigestIsWeakSum(w: seq<Byte>)
      requires Covers(w)
      ensures Digest() == WeakSum(w)
    {
      WrapDigest(S1(w), S2(w));
    }
  }

  lemma {:induction false} WrapStep(a: int, b: int, d: int)
    ensures Wrap64(Wrap64(a) + d) == Wrap64(a + d)
    ensures Wrap64(Wrap64(b) + Wrap64(a + d)) == Wrap64(b + a + d)
    ensures Wrap64(b + Wrap64(a + d)) == Wrap64(b + a + d)
  {
  }

  lemma {:induction false} WrapRotate(a: int, b: int, p: int, d: int)
    ensures Wrap64(Wrap64(a) + d) == Wrap64(a + d)
    ensures Wrap64(Wrap64(b) + (Wrap64(a + d) - p)) == Wrap64(b - p + (a + d))
  {
    WrapPlus(a, d);
    WrapPlus(b, Wrap64(a + d) - p);
    WrapPlus(a + d, b - p);
  }

  /** Only the low 16 bits of each sum reach the digest. */
  lemma {:induction false} WrapDigest(x: nat, y: nat)
    ensures Wrap32(Wrap64(Wrap64(y) * TWO_16) + Wrap64(x) % TWO_16) == (y % TWO_16) * TWO_16 + x % TWO_16
  {
    WrapShift(y);
    assert Wrap64(x) % TWO_16 == x % TWO_16;
    var h, l := Wrap64(Wrap64(y) * TWO_16), x % TWO_16;
    assert h == TWO_32 * (h / TWO_32) + (y % TWO_16) * TWO_16;
  }

  lemma {:induction false} WrapShift(x: nat)
    ensures Wrap32(Wrap64(Wrap64(x) * TWO_16)) == (x % TWO_16) * TWO_16
  {
    var y := Wrap64(x);
    LowHalf64(x);
    Narrow(y * TWO_16);
    ShiftedOut(y / TWO_16, y % TWO_16);
  }

  lemma {:induction false} LowHalf64(x: nat)
    ensures Wrap64(x) % TWO_16 == x % TWO_16
  {
  }

  lemma {:induction false} Narrow(x: nat)
    ensures Wrap32(Wrap64(x)) == Wrap32(x)
  {
  }

  lemma {:induction false} ShiftedOut(h: nat, l: nat)
    requires l < TWO_16
    ensures Wrap32((h * TWO_16 + l) * TWO_16) == l * TWO_16
  {
    assert (h * TWO_16 + l) * TWO_16 == h * TWO_32 + l * TWO_16;
  }

  // ---------------------------------------------------------------------
  // checksum.c: four bytes at a time, stopping four bytes short of the end
  // ---------------------------------------------------------------------

  lemma {:induction false} FourAtOnce(w: seq<Byte>, a: Byte, b: Byte, c: Byte, d: Byte)
    ensures S1(w + [a, b, c, d]) == S1(w) + a + b + c + d + 4 * CHAR_OFFSET
    ensures S2(w + [a, b, c, d]) == S2(w) + 4 * (S1(w) + a) + 3 * b + 2 * c + d + 10 * CHAR_OFFSET
  {
    SumsOfAppend(w, a);
    SumsOfAppend(w + [a], b);
    SumsOfAppend(w + [a] + [b], c);
    SumsOfAppend(w + [a] + [b] + [c], d);
    assert w + [a] + [b] + [c] + [d] == w + [a, b, c, d];
  }

  /** The 32-bit words hold the true sums. */
  ghost predicate Totals32(s1: nat, s2: nat, w: seq<Byte>) {
    s1 == Wrap32(S1(w)) && s2 == Wrap32(S2(w))
  }

  lemma {:induction false} Wrap32Plus(c: int, e: int)
    ensures Wrap32(Wrap32(c) + e) == Wrap32(c + e)
  {
  }

  lemma {:induction false} Wrap32Sum(x: int, p: int, q: int)
    requires Wrap32(p) == Wrap32(q)
    ensures Wrap32(Wrap32(x) + p) == Wrap32(x + q)
  {
  }

  lemma {:induction false} WrapWhole(x: int, k: int)
    ensures Wrap32(x - TWO_32 * k) == Wrap32(x)
  {
  }

  lemma {:induction false} WrapFour(a: int, b: int, x: int, y: int)
    ensures Wrap32(Wrap32(b) + (4 * (Wrap32(a) + x) + y)) == Wrap32(b + 4 * (a + x) + y)
  {
    var k := a / TWO_32;
    assert 4 * (Wrap32(a) + x) + y == 4 * (a + x) + y - TWO_32 * (4 * k);
    WrapWhole(4 * (a + x) + y, 4 * k);
    hide Wrap32;
    Wrap32Sum(b, 4 * (Wrap32(a) + x) + y, 4 * (a + x) + y);
  }

  /** The digest packs the low halves of the two words. */
  lemma {:induction false} WrapPack(x: nat, y: nat)
    ensures Wrap32(Wrap32(x) % TWO_16 + Wrap32(Wrap32(y) * TWO_16)) == (y % TWO_16) * TWO_16 + x % TWO_16
  {
    LowHalf(x);
    LowHalf(y);
    var u := Wrap32(y);
    ShiftedOut(u / TWO_16, u % TWO_16);
  }

  lemma {:induction false} LowHalf(x: nat)
    ensures Wrap32(x) % TWO_16 == x % TWO_16
  {
  }

  method Four(s1: nat, s2: nat, buf: seq<Byte>, i: nat) returns (t1: nat, t2: nat)
    requires i + 4 <= |buf| && Totals32(s1, s2, buf[..i])
    ensures Totals32(t1, t2, buf[..i + 4])
  {
    ghost var w := buf[..i];
    FourAtOnce(w, buf[i], buf[i + 1], buf[i + 2], buf[i + 3]);
    assert w + [buf[i], buf[i + 1], buf[i + 2], buf[i + 3]] == buf[..i + 4];
    var a: int, b: int, c: int, d: int := buf[i], buf[i + 1], buf[i + 2], buf[i + 3];
    WrapFour(S1(w), S2(w), a, 3 * b + 2 * c + d + 10 * CHAR_OFFSET);
    t2 := Wrap32(s2 + (4 * (s1 + a) + 3 * b + 2 * c + d + 10 * CHAR_OFFSET));
    Wrap32Plus(S1(w), a + b + c + d + 4 * CHAR_OFFSET);
    t1 := Wrap32(s1 + (a + b + c + d + 4 * CHAR_OFFSET));
  }

  method One(s1: nat, s2: nat, buf: seq<Byte>, i: nat) returns (t1: nat, t2: nat)
    requires i < |buf| && Totals32(s1, s2, buf[..i])
    ensures Totals32(t1, t2, buf[..i + 1])
  {
    ghost var w := buf[..i];
    SumsOfAppend(w, buf[i]);
    assert w + [buf[i]] == buf[..i + 1];
    Wrap32Plus(S1(w), buf[i] + CHAR_OFFSET);
    t1 := Wrap32(s1 + (buf[i] + CHAR_OFFSET));
    Wrap32Sum(S2(w), t1, S1(w) + buf[i] + CHAR_OFFSET);
    t2 := Wrap32(s2 + t1);
  }

  /** rs_calc_weak_sum: the same 32-bit value as the rolling sum's digest. */
  method CalcWeakSum(buf: seq<Byte>) returns (sum: nat)
    ensures sum == WeakSum(buf)
  {
    var len := |buf|;
    var s1: nat, s2: nat, i := 0, 0, 0;
    while i < len - 4
      invariant 0 <= i <= len
      invariant Totals32(s1, s2, buf[..i])
    {
      s1, s2 := Four(s1, s2, buf, i);
      i := i + 4;
    }
    while i < len
      invariant 0 <= i <= len
      invariant Totals32(s1, s2, buf[..i])
    {
      s1, s2 := One(s1, s2, buf, i);
      i := i + 1;
    }
    assert buf[..i] == buf;
    WrapPack(S1(buf), S2(buf));
    sum := Wrap32(s1 % TWO_16 + Wrap32(s2 * TWO_16));
  }

  // ---------------------------------------------------------------------
  // Constant runs of bytes
  // ---------------------------------------------------------------------

  lemma {:induction false} SumsOfRepeat(c: Byte, n: nat)
    ensures S1(Repeat(c, n)) == n * (c + CHAR_OFFSET)
    ensures 2 * S2(Repeat(c, n)) == n * (n + 1) * (c + CHAR_OFFSET)
  {
    var w := Repeat(c, n);
    if n != 0 {
      assert w[1..] == Repeat(c, n - 1);
      SumsOfRepeat(c, n - 1);
      TimesIsProduct(n, c + CHAR_OFFSET);
      RepeatArithmetic(n, c + CHAR_OFFSET);
    }
  }

  lemma {:induction false} RepeatArithmetic(n: int, x: int)
    ensures n * x == x + (n - 1) * x
    ensures n * (n + 1) * x == 2 * (n * x) + (n - 1) * n * x
  {
    assert n * (n + 1) == 2 * n + (n - 1) * n;
    assert (2 * n + (n - 1) * n) * x == 2 * (n * x) + (n - 1) * n * x;
  }

  const BLOCK_LEN := 2048

  /** CHECKSUM_ZEROBLOCK: the stored sum of a block of zeros. */
  const ZERO_BLOCK := 0x7c00f800

  lemma {:induction false} ZeroBlockSum()
    ensures WeakSum(Repeat(0, BLOCK_LEN)) == ZERO_BLOCK
  {
    SumsOfRepeat(0, BLOCK_LEN);
    assert S1(Repeat(0, BLOCK_LEN)) == 63488;
    assert S2(Repeat(0, BLOCK_LEN)) == 65043456;
  }
}
