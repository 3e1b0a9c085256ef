/** Files as the client and the server see them, through pread, pwrite and truncate, and
    little-endian words as memcpy lays them out. */
module Files {
  import opened Bytes

  /** The byte at a position; past the end, what a hole would read as. */
  function ByteAt(f: seq<Byte>, p: nat): (r: Byte) {
    if p < |f| then f[p] else 0
  }

  /** The first n bytes of `f`, filled up with zeros. */
  function Resized(f: seq<Byte>, n: nat): (r: seq<Byte>)
    ensures |r| == n && forall p :: 0 <= p < n ==> r[p] == ByteAt(f, p)
  {
    if n <= |f| then f[..n] else f + Repeat(0, n - |f|)
  }

  /** pwrite of `data` at `off`: a gap in front of it becomes zeros. */
  function Pwrite(f: seq<Byte>, off: nat, data: seq<Byte>): (r: seq<Byte>)
    ensures |r| == if data == [] then |f| else Max(|f|, off + |data|)
    ensures forall p :: 0 <= p < |r| ==> r[p] == if off <= p < off + |data| then data[p - off] else ByteAt(f, p)
  {
    if data == [] then f
    else Resized(f, off) + data + (if off + |data| <= |f| then f[off + |data|..] else [])
  }

  // ---------------------------------------------------------------------
  // Little-endian words
  // ---------------------------------------------------------------------

  function Le(v: nat, len: nat): (r: seq<Byte>)
    ensures |r| == len
  {
    if len == 0 then [] else [v % 256] + Le(v / 256, len - 1)
  }

  function FromLe(s: seq<Byte>): (r: nat) {
    if s == [] then 0 else s[0] + 256 * FromLe(s[1..])
  }

  ghost function Power(n: nat): (r: nat)
    ensures r >= 1
  {
    if n == 0 then 1 else 256 * Power(n - 1)
  }

  lemma {:induction false} FromLeOfLe(v: nat, len: nat)
    ensures FromLe(Le(v, len)) == v % Power(len)
  {
    if len != 0 {
      var s := Le(v, len);
      assert s[1..] == Le(v / 256, len - 1);
      FromLeOfLe(v / 256, len - 1);
      SplitModulus(v, Power(len - 1));
    }
  }

  lemma {:induction false} SplitModulus(v: nat, m: nat)
    requires m >= 1
    ensures v % (256 * m) == v % 256 + 256 * ((v / 256) % m)
  {
    var h, l := v / 256, v % 256;
    var q, r := h / m, h % m;
    assert h == q * m + r && v == 256 * h + l;
    assert v == q * (256 * m) + (256 * r + l);
    assert 0 <= 256 * r + l < 256 * m;
    DivUnique(v, 256 * m, q, 256 * r + l);
  }

  lemma {:induction false} Sizes()
    ensures Power(2) == TWO_16 && Power(4) == TWO_32 && Power(8) == TWO_64
  {
    assert Power(3) == 0x100_0000;
    assert Power(5) == 0x100_0000_0000;
    assert Power(6) == 0x1_0000_0000_0000;
  }

  /** A word of four bytes fits 32 bits. */
  lemma {:induction false} FromLeBound(s: seq<Byte>)
    requires |s| == 4
    ensures FromLe(s) < TWO_32
  {
    assert FromLe(s) == s[0] + 256 * FromLe(s[1..]);
    assert FromLe(s[1..]) == s[1] + 256 * FromLe(s[1..][1..]);
    assert FromLe(s[1..][1..]) == s[2] + 256 * FromLe(s[1..][1..][1..]);
    assert FromLe(s[1..][1..][1..]) == s[3] + 256 * FromLe(s[1..][1..][1..][1..]);
  }

  /** A two-, four- or eight-byte word is read back from its bytes. */
  lemma {:induction false} WordRoundTrip(v: nat, len: nat)
    requires (len == 2 && v < TWO_16) || (len == 4 && v < TWO_32) || (len == 8 && v < TWO_64)
    ensures FromLe(Le(v, len)) == v
  {
    Sizes();
    FromLeOfLe(v, len);
  }

  /** The number that four bytes stand for. */
  function Number(a: Byte, b: Byte, c: Byte, d: Byte): (n: nat)
    ensures n < TWO_32
  {
    var x: nat, y: nat := a, b;
    var z: nat, t: nat := c, d;
    x + 256 * (y + 256 * (z + 256 * t))
  }

  /** The least significant byte comes first. */
  lemma {:induction false} FourLe(a: Byte, b: Byte, c: Byte, d: Byte)
    ensures FromLe([a, b, c, d]) == Number(a, b, c, d) && Le(Number(a, b, c, d), 4) == [a, b, c, d]
  {
    FromLeOfCons(a, [b, c, d]);
    FromLeOfCons(b, [c, d]);
    FromLeOfCons(c, [d]);
    FromLeOfCons(d, []);
    LeOfCons(a, b + 256 * (c + 256 * d), 4);
    LeOfCons(b, c + 256 * d, 3);
    LeOfCons(c, d, 2);
    LeOfCons(d, 0, 1);
    hide Le;
    assert [a] + ([b] + ([c] + ([d] + []))) == [a, b, c, d];
  }

  lemma {:induction false} FromLeOfCons(x: Byte, s: seq<Byte>)
    ensures FromLe([x] + s) == x + 256 * FromLe(s)
  {
    assert ([x] + s)[1..] == s;
  }

  lemma {:induction false} LeOfCons(x: Byte, v: nat, n: nat)
    requires n >= 1
    ensures Le(x + 256 * v, n) == [x] + Le(v, n - 1) && Le(v, 0) == []
  {
    var w := x + 256 * v;
    DivUnique(w, 256, v, x);
    assert Le(w, n) == [w % 256] + Le(w / 256, n - 1);
  }

  lemma {:induction false} LeOfZero(n: nat)
    ensures Le(0, n) == Repeat<Byte>(0, n)
  {
    if n != 0 {
      LeOfZero(n - 1);
      assert [0] + Repeat<Byte>(0, n - 1) == Repeat<Byte>(0, n);
    }
  }
}
