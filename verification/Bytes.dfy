/** Machine-level vocabulary shared by every component: bytes, C's truncating
    integer conversions, and the sequence facts the proofs lean on. */
module Bytes {
  type Byte = b: int | 0 <= b < 256

  const TWO_16 := 0x1_0000
  const TWO_31 := 0x8000_0000
  const TWO_32 := 0x1_0000_0000
  const TWO_63 := 0x8000_0000_0000_0000
  const TWO_64 := 0x1_0000_0000_0000_0000

  function Min(a: int, b: int): (r: int) {
    if a < b then a else b
  }

  function Max(a: int, b: int): (r: int) {
    if a < b then b else a
  }

  /** Conversion to C's `unsigned int`. */
  function Wrap32(x: int): (r: nat)
    ensures r < TWO_32
  {
    x % TWO_32
  }

  /** Conversion to C's `unsigned long`. */
  function Wrap64(x: int): (r: nat)
    ensures r < TWO_64
  {
    x % TWO_64
  }

  /** Conversion to C's `int`: keep 32 bits and read them as two's complement. */
  function ToInt32(x: int): (r: int) {
    var u := x % TWO_32;
    if u < TWO_31 then u else u - TWO_32
  }

  /** Conversion to `rs_long_t`, a signed 64-bit integer. */
  function ToInt64(x: int): (r: int) {
    var u := x % TWO_64;
    if u < TWO_63 then u else u - TWO_64
  }

  /** The part of `s` from `k` on, or nothing when `s` is shorter. */
  function From<T>(s: seq<T>, k: nat): (r: seq<T>) {
    if k <= |s| then s[k..] else []
  }

  function Repeat<T>(x: T, n: nat): (r: seq<T>)
    ensures |r| == n
    ensures forall i :: 0 <= i < n ==> r[i] == x
  {
    seq(n, i => x)
  }

  lemma {:induction false} DropDrop<T>(s: seq<T>, a: nat, b: nat)
    requires a + b <= |s|
    ensures s[a..][b..] == s[a + b..]
  {
  }

  lemma {:induction false} TakeOneMore<T>(s: seq<T>, a: nat)
    requires a < |s|
    ensures s[..a + 1] == s[..a] + [s[a..][0]]
  {
  }

  lemma {:induction false} Regroup<T>(a: seq<T>, b: seq<T>, c: seq<T>)
    ensures a + b + c == a + (b + c)
  {
  }

  /** memcpy into a buffer. */
  method Memcpy(buf: array<Byte>, at: nat, data: seq<Byte>)
    requires at + |data| <= buf.Length
    modifies buf
    ensures buf[..at] == old(buf[..at])
    ensures buf[at..at + |data|] == data && buf[..at + |data|] == old(buf[..at]) + data
  {
    var before := buf[..at];
    for i := 0 to |data|
      invariant buf[..at] == before
      invariant buf[at..at + i] == data[..i]
    {
      buf[at + i] := data[i];
      assert buf[at..at + i + 1] == buf[at..at + i] + [buf[at + i]];
      assert data[..i + 1] == data[..i] + [data[i]];
    }
    assert data[..|data|] == data;
    assert buf[..at + |data|] == buf[..at] + buf[at..at + |data|];
  }

  // ---------------------------------------------------------------------
  // Division
  // ---------------------------------------------------------------------

  lemma {:induction false} DivUnique(n: nat, b: nat, k: nat, r: nat)
    requires b >= 1 && n == k * b + r && r < b
    ensures n / b == k && n % b == r
  {
    var q, t := n / b, n % b;
    assert n == q * b + t && 0 <= t < b;
    if q < k {
      AtLeastOnce(k - q, q, b);
    } else if q > k {
      AtLeastOnce(q - k, k, b);
    }
  }

  lemma {:induction false} AtLeastOnce(d: nat, q: nat, b: nat)
    requires d >= 1
    ensures (q + d) * b >= q * b + b
  {
    assert (q + d) * b == q * b + b + (d - 1) * b;
    assert (d - 1) * b >= 0;
  }
}
