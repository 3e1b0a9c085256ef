/** mdfour.c: the buffered digest, against the definition of RFC 1321, sections 3.1 to 3.5. */
module Md5 {
  import opened Bytes
  import opened Files
  import opened Md5Block

  const START := Chain(0x6745_2301, 0xEFCD_AB89, 0x98BA_DCFE, 0x1032_5476)

  // ---------------------------------------------------------------------
  // The definition
  // ---------------------------------------------------------------------

  /** Chunk after chunk; an incomplete last chunk is not looked at. */
  function Fold(c: Chain, m: seq<Byte>): (r: Chain)
    decreases |m|
  {
    if |m| < CSUM_CHUNK then c else Fold(Compress(c, m[..CSUM_CHUNK]), m[CSUM_CHUNK..])
  }

  /** Section 3.1: a one bit, then zeros, at least one byte, up to 56 modulo 64. */
  function PadSize(n: nat): (r: nat) {
    if n % 64 < 56 then 56 - n % 64 else 120 - n % 64
  }

  /** Section 3.2: the length in bits, modulo 2^64, low-order word first. */
  function Padded(m: seq<Byte>): (r: seq<Byte>) {
    m + [0x80] + Repeat<Byte>(0, PadSize(|m|) - 1) + Le(Wrap64(8 * |m|), 8)
  }

  /** Section 3.5. */
  function DigestOf(c: Chain): (r: seq<Byte>) {
    Le(c.a as nat, 4) + Le(c.b as nat, 4) + Le(c.c as nat, 4) + Le(c.d as nat, 4)
  }

  function Md5Of(m: seq<Byte>): (r: seq<Byte>) {
    DigestOf(Fold(START, Padded(m)))
  }

  /** The padding is the shortest that leaves room for the length, and always there. */
  lemma {:induction false} PadSizeIsLeast(n: nat, k: nat)
    ensures 1 <= PadSize(n) <= 64 && (n + PadSize(n)) % 64 == 56
    ensures 1 <= k && (n + k) % 64 == 56 ==> PadSize(n) <= k
  {
    var q, r := n / 64, n % 64;
    assert n + k == 64 * q + (r + k);
  }

  // ---------------------------------------------------------------------
  // Folding in pieces
  // ---------------------------------------------------------------------

  /** The bytes in complete chunks. */
  function Whole(n: nat): (r: nat) {
    n - n % CSUM_CHUNK
  }

  lemma {:induction false} FoldConcat(c: Chain, u: seq<Byte>, v: seq<Byte>)
    requires |u| % CSUM_CHUNK == 0
    ensures Fold(c, u + v) == Fold(Fold(c, u), v)
    decreases |u|
  {
    if u == [] {
      assert u + v == v;
    } else {
      assert (u + v)[..CSUM_CHUNK] == u[..CSUM_CHUNK] && (u + v)[CSUM_CHUNK..] == u[CSUM_CHUNK..] + v;
      FoldConcat(Compress(c, u[..CSUM_CHUNK]), u[CSUM_CHUNK..], v);
    }
  }

  /** One more chunk. */
  lemma {:induction false} FoldStep(c: Chain, m: seq<Byte>, p: nat)
    requires p % CSUM_CHUNK == 0 && p + CSUM_CHUNK <= |m|
    ensures Fold(c, m[..p + CSUM_CHUNK]) == Compress(Fold(c, m[..p]), m[p..p + CSUM_CHUNK])
  {
    var x := m[p..p + CSUM_CHUNK];
    assert m[..p + CSUM_CHUNK] == m[..p] + x;
    FoldConcat(c, m[..p], x);
    assert x[..CSUM_CHUNK] == x;
  }

  // ---------------------------------------------------------------------
  // The length counters
  // ---------------------------------------------------------------------

  /** Two 32-bit words counting n bytes. */
  predicate Counts(totalN: nat, totalN2: nat, n: nat) {
    totalN == n % TWO_32 && totalN2 == n / TWO_32 % TWO_32
  }

  /** The carry is seen by the sum being smaller than what was added. */
  lemma {:induction false} CarryIsRight(totalN: nat, totalN2: nat, n: nat, length: nat)
    requires Counts(totalN, totalN2, n) && 0 < length < TWO_32
    ensures var t := Wrap32(totalN + length);
            Counts(t, if t < length then Wrap32(totalN2 + 1) else totalN2, n + length)
  {
    var q := n / TWO_32;
    if totalN + length < TWO_32 {
      assert n + length == TWO_32 * q + (totalN + length);
      assert (n + length) / TWO_32 == q;
    } else {
      assert n + length == TWO_32 * (q + 1) + (totalN + length - TWO_32);
      assert (n + length) / TWO_32 == q + 1;
    }
  }

  /** The two length words are the low 64 bits of the length in bits. */
  lemma {:induction false} BitLength(totalN: nat, totalN2: nat, n: nat)
    requires Counts(totalN, totalN2, n)
    ensures Wrap32(totalN * 8) + TWO_32 * Wrap32(totalN / 0x2000_0000 + totalN2 * 8) == Wrap64(8 * n)
  {
    var q := n / TWO_32;
    var t, low := totalN / 0x2000_0000, totalN * 8 % TWO_32;
    assert totalN * 8 == TWO_32 * t + low;
    HighWord(q, t);
    Combine(8 * n, 8 * q + t, low);
  }

  lemma {:induction false} HighWord(q: nat, t: nat)
    ensures (8 * q + t) % TWO_32 == (t + q % TWO_32 * 8) % TWO_32
  {
    var b, r := q / TWO_32, q % TWO_32;
    assert 8 * q + t == TWO_32 * (8 * b) + (8 * r + t);
  }

  lemma {:induction false} Combine(x: nat, h: nat, low: nat)
    requires x == TWO_32 * h + low && low < TWO_32
    ensures x % TWO_64 == low + TWO_32 * (h % TWO_32)
  {
    var a, r := h / TWO_32, h % TWO_32;
    assert x == a * TWO_64 + (TWO_32 * r + low);
    DivUnique(x, TWO_64, a, TWO_32 * r + low);
  }

  lemma {:induction false} LeInHalves(low: nat, high: nat)
    requires low < TWO_32
    ensures Le(low, 4) + Le(high, 4) == Le(low + TWO_32 * high, 8)
  {
    LeSplit(low, high, 4);
    Sizes();
  }

  lemma {:induction false} LeSplit(low: nat, high: nat, k: nat)
    requires low < Power(k)
    ensures Le(low + Power(k) * high, k + 4) == Le(low, k) + Le(high, 4)
    decreases k
  {
    if k == 0 {
      assert Le(low, 0) + Le(high, 4) == Le(high, 4);
    } else {
      var v := low + Power(k) * high;
      var t := Power(k - 1) * high;
      assert Power(k) * high == 256 * t;
      assert v % 256 == low % 256 && v / 256 == low / 256 + t;
      LeSplit(low / 256, high, k - 1);
      assert Le(v, k + 4) == [v % 256] + Le(v / 256, k - 1 + 4);
    }
  }

  // ---------------------------------------------------------------------
  // The context
  // ---------------------------------------------------------------------

  /** The number of bytes waiting in the buffer. */
  method Left(totalN: nat, totalN2: nat, ghost n: nat) returns (left: nat)
    requires Counts(totalN, totalN2, n)
    ensures left == n % 64
  {
    left := totalN % 64;
    ghost var q := n / TWO_32;
    DivUnique(n, 64, 0x400_0000 * q + totalN / 64, totalN % 64);
  }

  class Context {
    var chain: Chain
    var totalN: nat
    var totalN2: nat
    const buffer: array<Byte>

    /** Everything hashed so far. */
    ghost var message: seq<Byte>

    /** The complete chunks are in the chaining words, the rest is in the buffer. */
    ghost predicate Holding()
      reads `chain, `message, buffer
    {
      && buffer.Length == CSUM_CHUNK
      && chain == Fold(START, message[..Whole(|message|)])
      && buffer[..|message| % CSUM_CHUNK] == message[Whole(|message|)..]
    }

    ghost predicate Valid()
      reads this, buffer
    {
      Holding() && Counts(totalN, totalN2, |message|)
    }

    /** md5_begin. */
    constructor ()
      ensures Valid() && fresh(buffer) && message == []
    {
      chain, totalN, totalN2 := START, 0, 0;
      buffer := new Byte[CSUM_CHUNK];
      message := [];
    }

    /** Complete the chunk in the buffer and process it. */
    method FillChunk(input: seq<Byte>, left: nat)
      requires buffer.Length == CSUM_CHUNK && 0 < left < CSUM_CHUNK && |input| >= CSUM_CHUNK - left
      modifies this`chain, buffer
      ensures chain == Compress(old(chain), old(buffer[..left]) + input[..CSUM_CHUNK - left])
    {
      hide Compress;
      Memcpy(buffer, left, input[..CSUM_CHUNK - left]);
      assert buffer[..CSUM_CHUNK] == buffer[..];
      chain := Process(chain, buffer[..]);
    }

    /** md5_update. */
    method Update(input: seq<Byte>)
      requires Valid() && |input| < TWO_32
      modifies this, buffer
      ensures Valid() && message == old(message) + input
    {
      hide Fold, Compress, Counts, Holding;
      var length := |input|;
      if length == 0 {
        assert message + input == message;
        return;
      }
      var left := Left(totalN, totalN2, |message|);
      CarryIsRight(totalN, totalN2, |message|, length);
      totalN := Wrap32(totalN + length);
      if totalN < length {
        totalN2 := Wrap32(totalN2 + 1);
      }
      if left != 0 && length >= CSUM_CHUNK - left {
        Complete(input, left);
      } else {
        Append(input, left);
      }
    }

    /** The bytes fill up the buffer, and perhaps more chunks. */
    method Complete(input: seq<Byte>, left: nat)
      requires Holding() && left == |message| % CSUM_CHUNK && left > 0 && |input| >= CSUM_CHUNK - left
      modifies this`chain, this`message, buffer
      ensures Holding() && message == old(message) + input
    {
      hide Fold, Compress;
      ghost var was, all, p := message, message + input, Whole(|message|);
      var fill := CSUM_CHUNK - left;
      FillChunk(input, left);
      assert all[..p] == was[..p] && all[p..p + CSUM_CHUNK] == was[p..] + input[..fill];
      FoldStep(START, all, p);
      message := all;
      var at;
      at, p := Chunks(input, fill, p + CSUM_CHUNK, 0);
      Leftover(p, |input| - at, |all|);
      assert all[p..] == input[at..];
      if at < |input| {
        Memcpy(buffer, 0, input[at..]);
        assert buffer[..0] == [];
      }
    }

    /** The buffer is empty, or too large for the bytes to fill. */
    method Append(input: seq<Byte>, left: nat)
      requires Holding() && left == |message| % CSUM_CHUNK && (left == 0 || |input| < CSUM_CHUNK - left)
      modifies this`chain, this`message, buffer
      ensures Holding() && message == old(message) + input
    {
      hide Fold, Compress;
      ghost var was, all, p := message, message + input, Whole(|message|);
      assert all[..p] == was[..p];
      message := all;
      var at;
      at, p := Chunks(input, 0, p, left);
      Leftover(p, left + (|input| - at), |all|);
      assert all[p..] == was[Whole(|was|)..] + input[at..] || left == 0;
      if at < |input| {
        Memcpy(buffer, left, input[at..]);
      }
    }

    /** The loop of md5_update: whole chunks, straight from the input. */
    method Chunks(input: seq<Byte>, from: nat, ghost start: nat, ghost left: nat) returns (at: nat, ghost p: nat)
      requires from <= |input| && |message| >= |input| && message[|message| - |input|..] == input
      requires start % CSUM_CHUNK == 0 && start + left == |message| - |input| + from
      requires left == 0 || |input| - from < CSUM_CHUNK
      requires chain == Fold(START, message[..start])
      modifies this`chain
      ensures from <= at <= |input| && p % CSUM_CHUNK == 0 && p + left == |message| - |input| + at
      ensures |input| - at < CSUM_CHUNK && (left != 0 ==> at == from)
      ensures chain == Fold(START, message[..p])
    {
      hide Fold, Compress;
      at, p := from, start;
      while |input| - at >= CSUM_CHUNK
        invariant from <= at <= |input| && p % CSUM_CHUNK == 0 && p + left == |message| - |input| + at
        invariant left != 0 ==> at == from
        invariant chain == Fold(START, message[..p])
      {
        assert message[p..p + CSUM_CHUNK] == input[at..at + CSUM_CHUNK];
        FoldStep(START, message, p);
        chain := Process(chain, input[at..at + CSUM_CHUNK]);
        at, p := at + CSUM_CHUNK, p + CSUM_CHUNK;
      }
    }

    /** md5_result. */
    method Result() returns (digest: seq<Byte>)
      requires Valid()
      modifies this, buffer
      ensures digest == Md5Of(old(message))
    {
      hide Fold, Counts, Wrap32, Wrap64, Le, Padded, Holding;
      ghost var m := message;
      var high := Wrap32(totalN / 0x2000_0000 + totalN2 * 8);
      var low := Wrap32(totalN * 8);
      BitLength(totalN, totalN2, |m|);
      LeInHalves(low, high);
      var msglen := Le(low, 4) + Le(high, 4);
      var last := Left(totalN, totalN2, |m|);
      var padn := if last < 56 then 56 - last else 120 - last;
      var padding := [0x80] + Repeat<Byte>(0, CSUM_CHUNK - 1);
      PaddedInParts(m, padding, padn, msglen);
      Update(padding[..padn]);
      Update(msglen);
      digest := Output();
    }

    /** The chaining words, once all chunks are complete. */
    method Output() returns (digest: seq<Byte>)
      requires Valid() && message[..Whole(|message|)] == message
      ensures digest == DigestOf(Fold(START, message))
    {
      digest := Le(chain.a as nat, 4) + Le(chain.b as nat, 4) + Le(chain.c as nat, 4) + Le(chain.d as nat, 4);
    }
  }

  lemma {:induction false} PaddedInParts(m: seq<Byte>, padding: seq<Byte>, padn: nat, msglen: seq<Byte>)
    requires padn == PadSize(|m|) && padding == [0x80] + Repeat<Byte>(0, CSUM_CHUNK - 1)
    requires msglen == Le(Wrap64(8 * |m|), 8)
    ensures padn <= |padding| && m + padding[..padn] + msglen == Padded(m)
    ensures Padded(m)[..Whole(|Padded(m)|)] == Padded(m)
  {
    hide Le, Wrap64;
    PadSizeIsLeast(|m|, 1);
    assert padding[..padn] == [0x80] + Repeat<Byte>(0, padn - 1);
    assert Padded(m) == m + padding[..padn] + msglen;
    assert |Padded(m)| % 64 == 0;
  }

  lemma {:induction false} Leftover(p: nat, rest: nat, n: nat)
    requires p % CSUM_CHUNK == 0 && p + rest == n && rest < CSUM_CHUNK
    ensures p == Whole(n) && rest == n % CSUM_CHUNK
  {
  }

  /** However a message is split into updates, the digest is that of the whole. */
  method DigestOfParts(parts: seq<seq<Byte>>) returns (digest: seq<Byte>)
    requires forall part <- parts :: |part| < TWO_32
    ensures digest == Md5Of(Joined(parts))
  {
    hide Md5Of, Context.Valid, Fold;
    var ctx := new Context();
    assert parts[0..] == parts;
    for i := 0 to |parts|
      invariant fresh(ctx) && fresh(ctx.buffer) && ctx.Valid()
      invariant ctx.message + Joined(parts[i..]) == Joined(parts)
    {
      ghost var before := ctx.message;
      assert parts[i..][0] == parts[i] && parts[i..][1..] == parts[i + 1..];
      ctx.Update(parts[i]);
      Regroup(before, parts[i], Joined(parts[i + 1..]));
    }
    assert ctx.message + [] == ctx.message;
    digest := ctx.Result();
  }

  function Joined(parts: seq<seq<Byte>>): (r: seq<Byte>) {
    if parts == [] then [] else parts[0] + Joined(parts[1..])
  }

  /** get_md5. */
  method GetMd5(input: seq<Byte>) returns (digest: seq<Byte>)
    requires |input| < TWO_31
    ensures digest == Md5Of(input)
  {
    var ctx := new Context();
    ctx.Update(input);
    assert [] + input == input;
    digest := ctx.Result();
  }
}
