/** The signature file format: what the signature job writes, and what the loader
    makes of any byte string. */
module SigSpec {
  import opened Bytes
  import opened NetInt
  import opened Commands
  import opened Checksums
  import opened Sumset
  import opened Jobs

  /** The sums of the blocks of `s`, the first of which is block number n. */
  ghost function SumsOf(b: int, strongLen: int, strongOf: nat -> seq<Byte>, n: nat, s: seq<Byte>): (r: seq<Byte>)
    requires b >= 1 && 0 <= strongLen <= STRONG_LENGTH && forall i :: |strongOf(i)| == STRONG_LENGTH
    decreases |s|
  {
    if s == [] then [] else
    var w := Min(b, |s|);
    EncodeInt(WeakSum(s[..w]), 4) + strongOf(n)[..strongLen] + SumsOf(b, strongLen, strongOf, n + 1, s[w..])
  }

  function SigHead(b: nat, strongLen: nat): (r: seq<Byte>) {
    EncodeInt(SIG_MAGIC, 4) + EncodeInt(b, 4) + EncodeInt(strongLen, 4)
  }

  ghost predicate SigParams(b: int, strongLen: int, strongOf: nat -> seq<Byte>) {
    1 <= b < TWO_31 && 1 <= strongLen <= STRONG_LENGTH && forall i :: |strongOf(i)| == STRONG_LENGTH
  }

  /** The signature of a whole file. */
  ghost function SignatureOf(b: int, strongLen: int, strongOf: nat -> seq<Byte>, file: seq<Byte>): (r: seq<Byte>)
    requires SigParams(b, strongLen, strongOf)
  {
    SigHead(b, strongLen) + SumsOf(b, strongLen, strongOf, 0, file)
  }

  predicate BlocksIn(at: nat, k: nat, b: nat) {
    at == k * b
  }

  lemma {:induction false} OneBlockBack(at: nat, k: nat, b: nat)
    requires BlocksIn(at, k, b)
    ensures k == 0 ==> at == 0
    ensures k > 0 ==> at >= b && BlocksIn(at - b, k - 1, b)
  {
    if k > 0 {
      assert k * b == (k - 1) * b + b && (k - 1) * b >= 0;
    }
  }

  lemma {:induction false} SumsAt(b: int, strongLen: int, strongOf: nat -> seq<Byte>, n: nat, s: seq<Byte>, k: nat,
                                  start: nat, at: nat)
    requires SigParams(b, strongLen, strongOf) && start < |s| && BlocksIn(start, k, b) && BlocksIn(at, k, 4 + strongLen)
    ensures var t := SumsOf(b, strongLen, strongOf, n, s);
            && |t| >= at + 4 + strongLen
            && t[at..at + 4 + strongLen]
               == EncodeInt(WeakSum(s[start..Min(start + b, |s|)]), 4) + strongOf(n + k)[..strongLen]
    decreases k
  {
    hide WeakSum, EncodeInt, BlocksIn;
    OneBlockBack(start, k, b);
    OneBlockBack(at, k, 4 + strongLen);
    var w := Min(b, |s|);
    var e := EncodeInt(WeakSum(s[..w]), 4) + strongOf(n)[..strongLen];
    var rest := SumsOf(b, strongLen, strongOf, n + 1, s[w..]);
    assert SumsOf(b, strongLen, strongOf, n, s) == e + rest && |e| == 4 + strongLen;
    if k == 0 {
      assert (e + rest)[..|e|] == e;
    } else {
      SumsAt(b, strongLen, strongOf, n + 1, s[w..], k - 1, start - b, at - |e|);
      hide SumsOf;
      PartOfTail(e, rest, at - |e|, |e|);
      PartOfTail(s[..w], s[w..], start - b, Min(start, |s| - w) - (start - b));
      assert s[..w] + s[w..] == s;
    }
  }

  lemma {:induction false} PartOfTail(s: seq<Byte>, t: seq<Byte>, at: nat, n: nat)
    requires at + n <= |t|
    ensures (s + t)[at + |s|..at + |s| + n] == t[at..at + n]
  {
  }

  /** Where the sums of a block stand: twelve bytes, then the same room for every block. */
  lemma {:induction false} SignatureAt(b: int, strongLen: int, strongOf: nat -> seq<Byte>, file: seq<Byte>, k: nat)
    requires SigParams(b, strongLen, strongOf) && k * b < |file|
    ensures var s, at := SignatureOf(b, strongLen, strongOf, file), 12 + k * (4 + strongLen);
            && 0 <= k * b && 12 <= at && |s| >= at + 4 + strongLen
            && s[at..at + 4] == EncodeInt(WeakSum(file[k * b..Min(k * b + b, |file|)]), 4)
            && s[at + 4..at + 4 + strongLen] == strongOf(k)[..strongLen]
  {
    hide WeakSum, EncodeInt, SumsOf;
    SumsAt(b, strongLen, strongOf, 0, file, k, k * b, k * (4 + strongLen));
    var t, at := SumsOf(b, strongLen, strongOf, 0, file), k * (4 + strongLen);
    assert |SigHead(b, strongLen)| == 12;
    var s := SignatureOf(b, strongLen, strongOf, file);
    assert at >= 0;
    assert s[12 + at..12 + at + 4 + strongLen] == t[at..at + 4 + strongLen];
    var e := s[12 + at..12 + at + 4 + strongLen];
    assert e[..4] == s[12 + at..12 + at + 4] && e[4..] == s[12 + at + 4..12 + at + 4 + strongLen];
  }

  /** What loading yields. */
  datatype Loading = Loading(blockLen: int, strongLen: int, blocks: seq<BlockSig>, res: Result)

  /** At the start of a block's sums, `n` blocks having been read. */
  function LoadSums(strongLen: nat, n: nat, s: seq<Byte>): (r: (seq<BlockSig>, Result))
    decreases |s|
  {
    if s == [] then ([], Done)
    else if |s| < 4 then ([], Blocked)
    else LoadStrongSum(strongLen, n, DecodeInt(s[..4]), s[4..])
  }

  /** With the weak sum read. */
  function LoadStrongSum(strongLen: nat, n: nat, weak: nat, s: seq<Byte>): (r: (seq<BlockSig>, Result))
    decreases |s| + 1
  {
    if strongLen > 0 && s == [] then ([], InputEnded)
    else if |s| < strongLen then ([], Blocked)
    else
      var (blocks, res) := LoadSums(strongLen, n + 1, s[strongLen..]);
      ([BlockSig(n + 1, weak, s[..strongLen])] + blocks, res)
  }

  function LoadAtStrongLen(b: int, s: seq<Byte>): (r: Loading) {
    if s == [] then Loading(b, 0, [], InputEnded)
    else if |s| < 4 then Loading(b, 0, [], Blocked)
    else
      var l := ToInt32(DecodeInt(s[..4]));
      if l < 0 || l > STRONG_LENGTH then Loading(b, l, [], Corrupt)
      else
        var (blocks, res) := LoadSums(l, 0, s[4..]);
        Loading(b, l, blocks, res)
  }

  function LoadAtBlockLen(s: seq<Byte>): (r: Loading) {
    if s == [] then Loading(0, 0, [], InputEnded)
    else if |s| < 4 then Loading(0, 0, [], Blocked)
    else
      var b := ToInt32(DecodeInt(s[..4]));
      if b < 1 then Loading(b, 0, [], Corrupt) else LoadAtStrongLen(b, s[4..])
  }

  /** A whole signature file. */
  function LoadOf(s: seq<Byte>): (r: Loading) {
    if s == [] then Loading(0, 0, [], InputEnded)
    else if |s| < 4 then Loading(0, 0, [], Blocked)
    else if ToInt32(DecodeInt(s[..4])) != SIG_MAGIC then Loading(0, 0, [], BadMagic)
    else LoadAtBlockLen(s[4..])
  }

  // ---------------------------------------------------------------------
  // Loading what was written
  // ---------------------------------------------------------------------

  /** The entries for the blocks of `s`, numbered from n + 1. */
  ghost function BlocksOf(b: int, strongLen: int, strongOf: nat -> seq<Byte>, n: nat, s: seq<Byte>): (r: seq<BlockSig>)
    requires b >= 1 && 0 <= strongLen <= STRONG_LENGTH && forall i :: |strongOf(i)| == STRONG_LENGTH
    decreases |s|
  {
    if s == [] then [] else
    var w := Min(b, |s|);
    [BlockSig(n + 1, WeakSum(s[..w]), strongOf(n)[..strongLen])] + BlocksOf(b, strongLen, strongOf, n + 1, s[w..])
  }

  lemma {:induction false} SumsRoundTrip(b: int, strongLen: int, strongOf: nat -> seq<Byte>, n: nat, s: seq<Byte>)
    requires SigParams(b, strongLen, strongOf)
    ensures LoadSums(strongLen, n, SumsOf(b, strongLen, strongOf, n, s))
            == (BlocksOf(b, strongLen, strongOf, n, s), Done)
    decreases |s|
  {
    hide WeakSum;
    if s != [] {
      var w := Min(b, |s|);
      var tail := SumsOf(b, strongLen, strongOf, n + 1, s[w..]);
      SumsRoundTrip(b, strongLen, strongOf, n + 1, s[w..]);
      OneEntry(strongLen, n, WeakSum(s[..w]), strongOf(n)[..strongLen], tail, 4);
    }
  }

  lemma {:induction false} OneEntry(strongLen: nat, n: nat, weak: nat, strong: seq<Byte>, tail: seq<Byte>, four: nat)
    requires weak < TWO_32 && |strong| == strongLen > 0 && four == 4
    ensures var (blocks, res) := LoadSums(strongLen, n + 1, tail);
            LoadSums(strongLen, n, EncodeInt(weak, four) + strong + tail)
            == ([BlockSig(n + 1, weak, strong)] + blocks, res)
  {
    var head := EncodeInt(weak, four);
    var s := head + strong + tail;
    assert DecodeInt(head) == weak by {
      Powers();
      DecodeOfEncode(weak, four);
    }
    assert s[..four] == head && s[four..] == strong + tail;
    assert (strong + tail)[..strongLen] == strong && (strong + tail)[strongLen..] == tail;
    assert LoadSums(strongLen, n, s) == LoadStrongSum(strongLen, n, weak, strong + tail);
  }

  /** A field of the header, read back as a signed `int`. */
  lemma {:induction false} HeadField(v: nat, tail: seq<Byte>, four: nat)
    requires v < TWO_31 && four == 4
    ensures var s := EncodeInt(v, four) + tail;
            |s| >= 4 && ToInt32(DecodeInt(s[..4])) == v && s[4..] == tail
  {
    var s := EncodeInt(v, four) + tail;
    assert s[..four] == EncodeInt(v, four) && s[four..] == tail;
    Powers();
    DecodeOfEncode(v, four);
  }

  /** Loading a written signature gives the block length, the strong length, and one
      entry per block, numbered from one, with that block's weak sum. */
  lemma {:induction false} SignatureRoundTrip(b: int, strongLen: int, strongOf: nat -> seq<Byte>, file: seq<Byte>)
    requires SigParams(b, strongLen, strongOf)
    ensures LoadOf(SignatureOf(b, strongLen, strongOf, file))
         == Loading(b, strongLen, BlocksOf(b, strongLen, strongOf, 0, file), Done)
  {
    hide EncodeInt, DecodeInt, SumsOf, LoadSums;
    var sums := SumsOf(b, strongLen, strongOf, 0, file);
    var s2 := EncodeInt(strongLen, 4) + sums;
    var s1 := EncodeInt(b, 4) + s2;
    var s0 := EncodeInt(SIG_MAGIC, 4) + s1;
    assert SignatureOf(b, strongLen, strongOf, file) == s0;
    HeadField(SIG_MAGIC, s1, 4);
    HeadField(b, s2, 4);
    HeadField(strongLen, sums, 4);
    SumsRoundTrip(b, strongLen, strongOf, 0, file);
    assert LoadAtStrongLen(b, s2) == Loading(b, strongLen, BlocksOf(b, strongLen, strongOf, 0, file), Done);
    assert LoadAtBlockLen(s1) == LoadAtStrongLen(b, s2);
  }

  // ---------------------------------------------------------------------
  // The entries, one by one
  // ---------------------------------------------------------------------

  /** Number of blocks of a file: the last may be short. */
  function BlockCount(b: nat, len: nat): (r: nat)
    requires b >= 1
  {
    (len + b - 1) / b
  }

  /** Block i of the file. */
  function BlockAt(b: nat, file: seq<Byte>, i: nat): (r: seq<Byte>)
    requires b >= 1 && i * b <= |file|
  {
    file[i * b..Min(i * b + b, |file|)]
  }

  lemma {:induction false} BlockArithmetic(b: nat, len: nat)
    requires b >= 1 && len >= 1
    ensures BlockCount(b, len) == 1 + BlockCount(b, len - Min(b, len))
  {
    if len <= b {
      CountIs(b, len, 1);
      CountIs(b, 0, 0);
    } else {
      var k := BlockCount(b, len - b);
      CountBounds(b, len - b);
      assert (k + 1) * b == k * b + b;
      CountIs(b, len, k + 1);
    }
  }

  lemma {:induction false} CountBounds(b: nat, len: nat)
    requires b >= 1
    ensures len <= BlockCount(b, len) * b < len + b
  {
  }

  lemma {:induction false} CountIs(b: nat, len: nat, k: nat)
    requires b >= 1 && len <= k * b < len + b
    ensures BlockCount(b, len) == k
  {
    var n := len + b - 1;
    var r := n - k * b;
    assert n == k * b + r && 0 <= r < b;
    DivUnique(n, b, k, r);
  }

  lemma {:induction false} EntriesOf(b: int, strongLen: int, strongOf: nat -> seq<Byte>, n: nat, s: seq<Byte>)
    requires SigParams(b, strongLen, strongOf)
    ensures |BlocksOf(b, strongLen, strongOf, n, s)| == BlockCount(b, |s|)
    decreases |s|
  {
    hide WeakSum;
    if s == [] {
      CountIs(b, 0, 0);
    } else {
      EntriesOf(b, strongLen, strongOf, n + 1, s[Min(b, |s|)..]);
      BlockArithmetic(b, |s|);
    }
  }

  lemma {:induction false} EntryAt(b: int, strongLen: int, strongOf: nat -> seq<Byte>, n: nat, s: seq<Byte>, i: nat)
    requires SigParams(b, strongLen, strongOf)
    requires i < |BlocksOf(b, strongLen, strongOf, n, s)|
    ensures i * b < |s|
    ensures BlocksOf(b, strongLen, strongOf, n, s)[i].i == n + i + 1
    ensures BlocksOf(b, strongLen, strongOf, n, s)[i].weak == WeakSum(BlockAt(b, s, i))
    decreases |s|
  {
    hide WeakSum;
    var w := Min(b, |s|);
    if i == 0 {
      assert BlockAt(b, s, 0) == s[..w];
    } else {
      EntryAt(b, strongLen, strongOf, n + 1, s[w..], i - 1);
      BlockShift(b, s, i);
    }
  }

  lemma {:induction false} BlockShift(b: nat, s: seq<Byte>, i: nat)
    requires b >= 1 && i >= 1 && (i - 1) * b < |s[Min(b, |s|)..]|
    ensures i * b < |s| && BlockAt(b, s[Min(b, |s|)..], i - 1) == BlockAt(b, s, i)
  {
    var p := (i - 1) * b;
    assert p >= 0 && i * b == p + b;
    assert s[b..][p..Min(p + b, |s| - b)] == s[p + b..Min(p + b + b, |s|)];
  }
}
