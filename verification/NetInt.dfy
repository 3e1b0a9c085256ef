/** Network-order integers of netint.c, as functions on byte strings. */
module NetInt {
  import opened Bytes

  const MAX_INT_BYTES := 8

  /** The big-endian representation of the low `len` bytes of `v`. */
  function EncodeInt(v: int, len: nat): (r: seq<Byte>)
    ensures |r| == len
    decreases len
  {
    if len == 0 then [] else EncodeInt(v / 256, len - 1) + [v % 256]
  }

  /** The number a big-endian byte string stands for. */
  function DecodeInt(s: seq<Byte>): (r: nat) {
    if s == [] then 0 else DecodeInt(s[..|s| - 1]) * 256 + s[|s| - 1]
  }

  ghost function Pow256(n: nat): (r: nat) {
    if n == 0 then 1 else 256 * Pow256(n - 1)
  }

  lemma {:induction false} DecodeOfEncode(v: nat, len: nat)
    requires v < Pow256(len)
    ensures DecodeInt(EncodeInt(v, len)) == v
  {
    if len != 0 {
      DecodeOfEncode(v / 256, len - 1);
      var s := EncodeInt(v, len);
      assert s[..|s| - 1] == EncodeInt(v / 256, len - 1);
    }
  }

  lemma {:induction false} DecodeBound(s: seq<Byte>)
    ensures DecodeInt(s) < Pow256(|s|)
  {
    if s != [] {
      DecodeBound(s[..|s| - 1]);
    }
  }

  lemma {:induction false} Powers()
    ensures Pow256(1) == 256 && Pow256(2) == TWO_16 && Pow256(4) == TWO_32 && Pow256(8) == TWO_64
  {
    assert Pow256(3) == 0x100_0000;
    assert Pow256(5) == 0x100_0000_0000;
    assert Pow256(6) == 0x1_0000_0000_0000;
  }

  /** rs_int_len: a negative rs_long_t has high bits set and takes eight bytes. */
  function IntLen(v: int): (r: nat) {
    if 0 <= v < 0x100 then 1
    else if 0 <= v < 0x1_0000 then 2
    else if 0 <= v < 0x1_0000_0000 then 4
    else 8
  }

  /** The chosen length holds the value, and no shorter legal length does. */
  lemma {:induction false} IntLenIsLeast(v: nat)
    requires v < TWO_64
    ensures IntLen(v) in {1, 2, 4, 8} && v < Pow256(IntLen(v))
    ensures forall n :: n in {1, 2, 4, 8} && v < Pow256(n) ==> IntLen(v) <= n
    ensures DecodeInt(EncodeInt(v, IntLen(v))) == v
  {
    Powers();
    DecodeOfEncode(v, IntLen(v));
  }

  /** A non-negative rs_long_t survives the trip. */
  lemma {:induction false} IntFits(v: nat)
    requires v < TWO_63
    ensures ToInt64(DecodeInt(EncodeInt(v, IntLen(v)))) == v
  {
    Powers();
    DecodeOfEncode(v, IntLen(v));
  }

  /** Sending a 32-bit word through a signed `int` does not change its bytes. */
  lemma {:induction false} SignedTransport(w: nat, len: nat)
    requires w < TWO_32 == Pow256(len)
    ensures EncodeInt(ToInt32(w), len) == EncodeInt(w, len)
    ensures DecodeInt(EncodeInt(w, len)) == w
  {
    DecodeOfEncode(w, len);
    EncodeLowBytes(w, -1, len);
  }

  lemma {:induction false} WordOfInt(w: nat)
    requires w < TWO_32
    ensures Wrap32(ToInt32(w)) == w
  {
  }

  /** Only the low `len` bytes are written. */
  lemma {:induction false} EncodeLowBytes(v: int, m: int, len: nat)
    ensures EncodeInt(v + Pow256(len) * m, len) == EncodeInt(v, len)
    decreases len
  {
    if len != 0 {
      var t := Pow256(len - 1) * m;
      assert Pow256(len) * m == 256 * t;
      assert (v + 256 * t) / 256 == v / 256 + t && (v + 256 * t) % 256 == v % 256;
      EncodeLowBytes(v / 256, m, len - 1);
    }
  }

  /** The filling loop of rs_squirt_netint. */
  method BigEndian(v: int, len: nat) returns (buf: seq<Byte>)
    ensures buf == EncodeInt(v, len)
  {
    var d := v;
    var i: int := len - 1;
    buf := [];
    while i >= 0
      invariant -1 <= i < len
      invariant EncodeInt(d, (i + 1) as nat) + buf == EncodeInt(v, len)
    {
      var prior := EncodeInt(d / 256, i);
      assert EncodeInt(d, (i + 1) as nat) + buf == prior + ([d % 256] + buf);
      buf := [d % 256] + buf;
      d := d / 256;
      i := i - 1;
    }
  }

  /** The accumulating loop of rs_suck_netint, on a signed 64-bit accumulator. */
  method FromBigEndian(buf: seq<Byte>) returns (v: int)
    ensures v == ToInt64(DecodeInt(buf))
  {
    v := 0;
    for i := 0 to |buf|
      invariant v == ToInt64(DecodeInt(buf[..i]))
    {
      assert buf[..i + 1][..i] == buf[..i];
      ShiftIn(DecodeInt(buf[..i]), buf[i]);
      v := ToInt64(v * 256 + buf[i]);
    }
    assert buf[..|buf|] == buf;
  }

  lemma {:induction false} ShiftIn(x: nat, b: Byte)
    ensures ToInt64(ToInt64(x) * 256 + b) == ToInt64(x * 256 + b)
  {
    var k := x / TWO_64;
    assert ToInt64(x) == x - TWO_64 * k || ToInt64(x) == x - TWO_64 * k - TWO_64;
    if ToInt64(x) == x - TWO_64 * k {
      SameWord(x * 256 + b, 256 * k);
    } else {
      SameWord(x * 256 + b, 256 * k + 256);
    }
  }

  lemma {:induction false} SameWord(x: int, m: int)
    ensures ToInt64(x - TWO_64 * m) == ToInt64(x)
  {
  }
}
