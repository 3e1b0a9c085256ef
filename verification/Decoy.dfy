/** Files for which the round trip fails whatever the search buffer holds at first: a block
    read earlier in the same search leaves the deceptive bytes behind itself. */
module Decoy {
  import opened Bytes
  import opened Checksums
  import opened Search
  import opened Sumset
  import opened Jobs
  import opened DeltaSpec
  import opened PatchSpec
  import opened SigSpec
  import opened Meaning
  import opened RoundTrip
  import opened Overreach

  // ---------------------------------------------------------------------
  // Any number of bytes from 230 on that do not change a weak sum
  // ---------------------------------------------------------------------

  /** What two neighbouring bytes lack together. */
  function Lack(n: nat): (c: nat)
    ensures c == 244 || c == 255
  {
    if n == FATAL_GAP then 244 else 255
  }

  /** What the last bytes lack together. */
  function Rest(n: nat): (r: nat)
    requires n >= FATAL_GAP
  {
    244 * (n / 230) + 31 * (n % 230) - Lack(n)
  }

  function Tail(n: nat): (r: seq<Byte>)
    requires n >= FATAL_GAP
    ensures |r| == Rest(n) / 255 + 1
  {
    [255 - Rest(n) % 255] + Repeat<Byte>(0, Rest(n) / 255)
  }

  /** The number of bytes in the middle. */
  function Wide(n: nat): (k: nat)
    requires n >= FATAL_GAP
    ensures n % 230 + k + |Tail(n)| == n
  {
    TailIsShort(n);
    230 * (n / 230) - |Tail(n)|
  }

  lemma {:induction false} TailIsShort(n: nat)
    requires n >= FATAL_GAP
    ensures |Tail(n)| <= 230 * (n / 230) && 255 * |Tail(n)| <= Rest(n) + 255
  {
    var m := n / 230;
    assert m >= 1 && Rest(n) <= 244 * m + 31 * 229;
  }

  function Front(n: nat): (r: seq<Byte>) {
    Repeat<Byte>(0, n % 230)
  }

  /** Zeros, bytes 0xff, and a tail; two of the bytes 0xff lack v % c and c - v % c. */
  function Padding(n: nat, v: nat): (r: seq<Byte>)
    requires n >= FATAL_GAP && Low(n) <= v < High(n)
  {
    var q, r := v / Lack(n), v % Lack(n);
    Places(n, v);
    Upto(n, q) + [255 - r, 255 - (Lack(n) - r)] + Beyond(n, q)
  }

  /** What stands before the two bytes, and the q - 1 bytes behind them. */
  function Upto(n: nat, q: nat): (r: seq<Byte>)
    requires n >= FATAL_GAP && |Tail(n)| + 1 <= q <= |Tail(n)| + Wide(n) - 1
  {
    Front(n) + Repeat<Byte>(255, |Tail(n)| + Wide(n) - 1 - q)
  }

  function Beyond(n: nat, q: nat): (r: seq<Byte>)
    requires n >= FATAL_GAP && |Tail(n)| + 1 <= q <= |Tail(n)| + Wide(n) - 1
    ensures |r| == q - 1
  {
    Repeat<Byte>(255, q - 1 - |Tail(n)|) + Tail(n)
  }

  function Low(n: nat): (r: nat)
    requires n >= FATAL_GAP
  {
    Lack(n) * (|Tail(n)| + 1)
  }

  function High(n: nat): (r: nat)
    requires n >= FATAL_GAP
  {
    Lack(n) * (|Tail(n)| + Wide(n))
  }

  lemma {:induction false} Places(n: nat, v: nat)
    requires n >= FATAL_GAP && Low(n) <= v < High(n)
    ensures |Tail(n)| + 1 <= v / Lack(n) <= |Tail(n)| + Wide(n) - 1
  {
    QuotientWithin(v, Lack(n), |Tail(n)| + 1, |Tail(n)| + Wide(n));
  }

  lemma {:induction false} QuotientWithin(v: nat, c: nat, a: nat, b: nat)
    requires c >= 1 && c * a <= v < c * b
    ensures a <= v / c < b
  {
    var q := v / c;
    assert v == c * q + v % c;
    Monotone(q + 1, a, c);
    Monotone(b, q, c);
  }

  lemma {:induction false} Monotone(a: int, b: int, c: int)
    requires c >= 1
    ensures a * c > b * c ==> a > b
  {
    if a <= b {
      assert (b - a) * c >= 0;
    }
  }

  /** The same with nothing lacking in the middle. */
  function Base(n: nat): (r: seq<Byte>)
    requires n >= FATAL_GAP
    ensures |r| == n
  {
    Front(n) + Repeat<Byte>(255, Wide(n)) + Tail(n)
  }

  /** Two bytes that lack something lower the sums. */
  lemma {:induction false} LackingPair(u: seq<Byte>, d: nat, e: nat, v: seq<Byte>, c: nat, q: nat)
    requires d <= 255 && e <= 255 && c == d + e && q == |v| + 1
    ensures S1(u + [255 - d, 255 - e] + v) == S1(u + [255, 255] + v) - c
    ensures S2(u + [255 - d, 255 - e] + v) == S2(u + [255, 255] + v) - (c * q + d)
  {
    hide S1, S2, Times;
    PairSums(255 - d, 255 - e);
    PairSums(255, 255);
    ConcatSums(u, [255 - d, 255 - e]);
    ConcatSums(u, [255, 255]);
    ConcatSums(u + [255 - d, 255 - e], v);
    ConcatSums(u + [255, 255], v);
    var a := S1(u);
    assert |v| * (a + (572 - c)) == |v| * (a + 572) - |v| * c;
    assert c * q == |v| * c + c;
  }

  lemma {:induction false} BaseInParts(n: nat, q: nat)
    requires n >= FATAL_GAP && |Tail(n)| + 1 <= q <= |Tail(n)| + Wide(n) - 1
    ensures Base(n) == Upto(n, q) + [255, 255] + Beyond(n, q)
  {
    hide Tail, Front, Wide;
    var a, z := |Tail(n)| + Wide(n) - 1 - q, q - 1 - |Tail(n)|;
    assert Repeat<Byte>(255, Wide(n)) == Repeat<Byte>(255, a) + [255, 255] + Repeat<Byte>(255, z);
  }

  lemma {:induction false} PaddingSums(n: nat, v: nat)
    requires n >= FATAL_GAP && Low(n) <= v < High(n)
    ensures |Padding(n, v)| == n
    ensures S1(Padding(n, v)) == S1(Base(n)) - Lack(n) && S2(Padding(n, v)) == S2(Base(n)) - v
  {
    hide S1, S2, Tail, Front, Wide, Lack, Base, Upto, Beyond, Low, High;
    Places(n, v);
    var c := Lack(n);
    var q, r := v / c, v % c;
    BaseInParts(n, q);
    assert v == c * q + r;
    LackingPair(Upto(n, q), r, c - r, Beyond(n, q), c, q);
  }

  lemma {:induction false} BaseSum(n: nat)
    requires n >= FATAL_GAP
    ensures S1(Base(n)) == TWO_16 * (n / 230) + Lack(n)
  {
    hide S1, S2, Lack;
    var f, t, m := Rest(n), n % 230, n / 230;
    SumsOfRepeat(0, t);
    SumsOfRepeat(255, Wide(n));
    SumsOfRepeat(0, f / 255);
    ByteSums(255 - f % 255);
    ConcatSums(Front(n), Repeat<Byte>(255, Wide(n)));
    ConcatSums([255 - f % 255], Repeat<Byte>(0, f / 255));
    ConcatSums(Front(n) + Repeat<Byte>(255, Wide(n)), Tail(n));
    assert f == 255 * (f / 255) + f % 255;
  }

  /** The lack that makes the padding invisible behind bytes of plain sum a. */
  ghost function Needed(n: nat, a: nat): (v: nat)
    requires n >= FATAL_GAP
    ensures Low(n) <= v < Low(n) + TWO_16
  {
    Low(n) + (S2(Base(n)) + n * a - Low(n)) % TWO_16
  }

  ghost predicate Fits(n: nat, a: nat)
    requires n >= FATAL_GAP
  {
    Needed(n, a) < High(n)
  }

  /** It is possible behind one of two sums that differ by 62. */
  lemma {:induction false} OneFits(n: nat, a: nat)
    requires n >= FATAL_GAP
    ensures Fits(n, a) || Fits(n, a + 62)
  {
    hide S2, Base, Lack;
    var w := High(n) - Low(n);
    Room(n);
    if w < TWO_16 {
      assert n * (a + 62) == n * a + 62 * n;
      Skips(S2(Base(n)) + n * a - Low(n), 62 * n, w);
    }
  }

  /** What does not fit now fits after a step that is wide enough and not too wide. */
  lemma {:induction false} Skips(x: int, step: nat, w: nat)
    requires TWO_16 - w <= step <= w < TWO_16
    ensures x % TWO_16 < w || (x + step) % TWO_16 < w
  {
    var k, r := x / TWO_16, x % TWO_16;
    assert x == TWO_16 * k + r;
    if r >= w {
      assert x + step == TWO_16 * (k + 1) + (r + step - TWO_16);
      assert (x + step) % TWO_16 == r + step - TWO_16;
    }
  }

  lemma {:induction false} Bounds(n: nat)
    requires n >= FATAL_GAP
    ensures High(n) == Lack(n) * (230 * (n / 230)) && Low(n) <= Lack(n) * (Rest(n) / 255 + 2)
  {
    TailIsShort(n);
    assert Wide(n) + |Tail(n)| == 230 * (n / 230);
  }

  lemma {:induction false} Room(n: nat)
    requires n >= FATAL_GAP
    ensures High(n) - Low(n) >= TWO_16 || TWO_16 - (High(n) - Low(n)) <= 62 * n <= High(n) - Low(n)
  {
    Bounds(n);
    var m, t, f := n / 230, n % 230, Rest(n) / 255;
    if n != FATAL_GAP {
      assert 255 * f <= Rest(n) == 244 * m + 31 * t - 255;
      hide Low, High, Rest, Lack;
      RoomFor(m, t, Low(n), High(n));
      assert n == 230 * m + t;
    }
  }

  lemma {:induction false} RoomFor(m: nat, t: nat, low: int, high: int)
    requires (m == 1 && 1 <= t < 230) || (m >= 2 && t < 230)
    requires high == 58650 * m && low <= 244 * m + 31 * t + 255
    ensures high - low >= TWO_16 || TWO_16 - (high - low) <= 62 * (230 * m + t) <= high - low
  {
  }

  /** Padding that goes unnoticed. */
  lemma {:induction false} PaddingIsInvisible(u: seq<Byte>, n: nat)
    requires n >= FATAL_GAP && Fits(n, S1(u))
    ensures |Padding(n, Needed(n, S1(u)))| == n
    ensures WeakSum(u + Padding(n, Needed(n, S1(u)))) == WeakSum(u)
  {
    hide S1, S2, Padding, Base, Low, High, Lack;
    var v, p := Needed(n, S1(u)), Padding(n, Needed(n, S1(u)));
    PaddingSums(n, v);
    BaseSum(n);
    ConcatSums(u, p);
    var x := S2(Base(n)) + n * S1(u);
    NeededIsRight(x, Low(n));
    hide Needed, Fits;
    assert S2(u + p) == S2(u) + (x - v) && S1(u + p) == S1(u) + TWO_16 * (n / 230);
    Multiples(S2(u), x - v);
    Multiples(S1(u), TWO_16 * (n / 230));
  }

  lemma {:induction false} NeededIsRight(x: int, low: int)
    ensures (x - (low + (x - low) % TWO_16)) % TWO_16 == 0
  {
    var k := (x - low) / TWO_16;
    assert x - (low + (x - low) % TWO_16) == TWO_16 * k;
  }

  lemma {:induction false} Multiples(x: int, t: int)
    requires t % TWO_16 == 0
    ensures (x + t) % TWO_16 == x % TWO_16
  {
  }

  // ---------------------------------------------------------------------
  // The files
  // ---------------------------------------------------------------------

  /** The first byte of the short block of s bytes, to be followed by n bytes of padding. */
  ghost function Start(n: nat, s: nat): (x: Byte)
    requires n >= FATAL_GAP
    ensures x < 255
  {
    if Fits(n, 3 + 31 * s) then 1 else 63
  }

  /** The short last block, and other bytes with the same sums. */
  ghost function Short(n: nat, s: nat): (r: seq<Byte>)
    requires n >= FATAL_GAP && s >= 3
    ensures |r| == s && r[0] == Start(n, s)
  {
    [Start(n, s), 2, 0] + Repeat<Byte>(0, s - 3)
  }

  ghost function Guise(n: nat, s: nat): (r: seq<Byte>)
    requires n >= FATAL_GAP && s >= 3
    ensures |r| == s && r[0] == Start(n, s) + 1
  {
    [Start(n, s) + 1, 0, 1] + Repeat<Byte>(0, s - 3)
  }

  lemma {:induction false} ThreeSums(x: Byte, y: Byte, z: Byte)
    ensures S1([x, y, z]) == x + y + z + 93 && S2([x, y, z]) == 3 * x + 2 * y + z + 186
  {
    hide S1, S2, Times;
    assert [x, y, z] == [x] + [y, z];
    ByteSums(x);
    PairSums(y, z);
    ConcatSums([x], [y, z]);
  }

  lemma {:induction false} ByteSums(x: Byte)
    ensures S1([x]) == x + 31 == S2([x])
  {
    TimesIsProduct(1, x + 31);
  }

  lemma {:induction false} SameSums(n: nat, s: nat)
    requires n >= FATAL_GAP && s >= 3
    ensures S1(Guise(n, s)) == S1(Short(n, s)) == Start(n, s) + 2 + 31 * s
    ensures S2(Guise(n, s)) == S2(Short(n, s)) && Fits(n, S1(Short(n, s)))
  {
    hide S1, S2, Times, Fits;
    var x := Start(n, s);
    var zeros := Repeat<Byte>(0, s - 3);
    ThreeSums(x, 2, 0);
    ThreeSums(x + 1, 0, 1);
    SumsOfRepeat(0, s - 3);
    ConcatSums([x, 2, 0], zeros);
    ConcatSums([x + 1, 0, 1], zeros);
    OneFits(n, 3 + 31 * s);
  }

  /** One or two bytes are told apart by their sum, so that nothing can stand in for them. */
  lemma {:induction false} NoGuise(u: seq<Byte>, w: seq<Byte>)
    requires |u| == |w| <= 2 && WeakSum(u) == WeakSum(w)
    ensures u == w
  {
    hide S1, S2, Times, WeakSum;
    if |u| == 1 {
      ByteSums(u[0]);
      ByteSums(w[0]);
      assert u == [u[0]] && w == [w[0]];
      SmallSums(u, w);
    } else if |u| == 2 {
      PairSums(u[0], u[1]);
      PairSums(w[0], w[1]);
      assert u == [u[0], u[1]] && w == [w[0], w[1]];
      SmallSums(u, w);
    }
  }

  /** Sums that fit the halves of a weak sum can be read off it. */
  lemma {:induction false} SmallSums(u: seq<Byte>, w: seq<Byte>)
    requires S1(u) < TWO_16 && S2(u) < TWO_16 && S1(w) < TWO_16 && S2(w) < TWO_16 && WeakSum(u) == WeakSum(w)
    ensures S1(u) == S1(w) && S2(u) == S2(w)
  {
    hide S1, S2;
  }

  ghost function Behind(n: nat, s: nat): (r: seq<Byte>)
    requires n >= FATAL_GAP && s >= 3
    ensures |r| == n
  {
    SameSums(n, s);
    PaddingIsInvisible(Short(n, s), n);
    Padding(n, Needed(n, S1(Short(n, s))))
  }

  /** A complete block, and a new file of the same length: the short block, or its double,
      with the padding behind it. */
  ghost function DecoyBlock(n: nat, s: nat): (r: seq<Byte>)
    requires n >= FATAL_GAP && s >= 3
    ensures |r| == s + n
  {
    Guise(n, s) + Behind(n, s)
  }

  ghost function DecoyNew(n: nat, s: nat): (r: seq<Byte>)
    requires n >= FATAL_GAP && s >= 3
    ensures |r| == s + n
  {
    Short(n, s) + Behind(n, s)
  }

  /** k decoys in front of the short block. */
  ghost function DecoyOld(n: nat, k: nat, s: nat): (r: seq<Byte>)
    requires n >= FATAL_GAP && s >= 3
  {
    Tiles(DecoyBlock(n, s), k) + Short(n, s)
  }

  /** Decoy, short block and new file all have one weak sum. */
  lemma {:induction false} SameWeakSums(n: nat, s: nat)
    requires n >= FATAL_GAP && s >= 3
    ensures WeakSum(DecoyBlock(n, s)) == WeakSum(Short(n, s)) == WeakSum(DecoyNew(n, s))
  {
    hide S1, S2, Times, Padding, Guise, Short, Start, Needed, Fits;
    SameSums(n, s);
    PaddingIsInvisible(Short(n, s), n);
    PaddingIsInvisible(Guise(n, s), n);
  }

  lemma {:induction false} DecoyShape(n: nat, k: nat, s: nat, i: nat)
    requires n >= FATAL_GAP && s >= 3 && i <= k
    ensures var b := s + n;
            && |DecoyOld(n, k, s)| == Mul(k, b) + s && Mul(i, b) <= Mul(k, b)
            && (i < k ==> Mul(i, b) + b <= Mul(k, b) && DecoyOld(n, k, s)[Mul(i, b)..][..b] == DecoyBlock(n, s))
            && DecoyOld(n, k, s)[Mul(k, b)..] == Short(n, s)
  {
    hide Tiles, DecoyBlock, Short;
    var f, b := DecoyBlock(n, s), s + n;
    TilesAt(f, k, i);
    if i < k {
      InsideWhole(k, i, b);
      assert DecoyOld(n, k, s)[Mul(i, b)..][..b] == Tiles(f, k)[Mul(i, b)..][..b];
    }
  }

  // ---------------------------------------------------------------------
  // The search
  // ---------------------------------------------------------------------

  /** The decoys' signature, with a decoy listed before the short block, as a sort leaves them
      that keeps equal elements in order. */
  ghost predicate DecoyFirst(v: SigValue, k: nat, weak: nat) {
    Indexed(v) && var j := v.tagTable[Tag(weak)]; 0 <= j < |v.targets| && v.targets[j].i < k
  }

  /** All blocks have the same sum. */
  ghost predicate Uniform(v: SigValue, n: nat, k: nat, s: nat, weak: nat) {
    && n >= FATAL_GAP && s >= 3 && SigOk(v) && v.blockLen == s + n && v.oldFile == DecoyOld(n, k, s)
    && |v.blocks| == k + 1 && forall i :: 0 <= i <= k ==> v.blocks[i].weak == weak
  }

  lemma {:induction false} LoadedIsUniform(v: SigValue, n: nat, k: nat, s: nat, strongLen: nat,
                                           strongOf: nat -> seq<Byte>)
    requires n >= FATAL_GAP && s >= 3 && Manageable(s + n, Mul(k, s + n) + s)
    requires Loaded(v, s + n, strongLen, strongOf, DecoyOld(n, k, s))
    ensures Uniform(v, n, k, s, WeakSum(DecoyNew(n, s)))
  {
    hide WeakSum, DecoyOld, DecoyNew, DecoyBlock, Short, Indexed, BlocksOf;
    var b, basis := s + n, DecoyOld(n, k, s);
    DecoyShape(n, k, s, k);
    SameWeakSums(n, s);
    LoadedIsOk(v, b, strongLen, strongOf, basis);
    assert (k + 1) * b == Mul(k, b) + b;
    CountIs(b, |basis|, k + 1);
    forall i | 0 <= i <= k ensures v.blocks[i].weak == WeakSum(DecoyNew(n, s)) {
      DecoyShape(n, k, s, i);
      assert i * b == Mul(i, b);
      if i < k {
        assert BlockAt(b, basis, i) == basis[Mul(i, b)..][..b];
      } else {
        assert BlockAt(b, basis, k) == basis[Mul(k, b)..];
      }
    }
  }

  /** The padding is in the buffer where a decoy leaves it. */
  ghost predicate Baited(n: nat, s: nat, buf: seq<Byte>)
    requires n >= FATAL_GAP && s >= 3
  {
    |buf| == OLDBUF_SIZE && s + n <= OLDBUF_SIZE && buf[s..s + n] == Behind(n, s)
  }

  /** Reading a decoy baits the buffer without a match, and reading the short block then matches. */
  lemma {:induction false} DecoyReading(n: nat, k: nat, s: nat, i: nat, buf: seq<Byte>)
    requires n >= FATAL_GAP && s >= 3 && s + n <= OLDBUF_SIZE == |buf| && i <= k
    ensures var r := Fread(DecoyOld(n, k, s), Mul(i, s + n), s + n, buf);
            && (i < k ==> Baited(n, s, r) && !(DecoyNew(n, s) <= r))
            && (i == k && Baited(n, s, buf) ==> DecoyNew(n, s) <= r)
  {
    hide Behind, Short, Guise, DecoyOld;
    var b, file := s + n, DecoyOld(n, k, s);
    DecoyShape(n, k, s, i);
    var r := Fread(file, Mul(i, b), b, buf);
    if i < k {
      assert r[..b] == file[Mul(i, b)..][..b] == Guise(n, s) + Behind(n, s);
      assert r[s..b] == r[..b][s..];
      assert r[0] == r[..b][0];
    } else if Baited(n, s, buf) {
      assert r == Short(n, s) + buf[s..];
      assert r[..b] == Short(n, s) + buf[s..b];
    }
  }

  lemma {:induction false} ProbeTakesBait(v: SigValue, n: nat, k: nat, s: nat, j: nat, m: nat, weak: nat,
                                          buf: seq<Byte>)
    requires Uniform(v, n, k, s, weak) && |buf| == OLDBUF_SIZE && Indexed(v)
    requires j <= m < |v.targets| && v.targets[m].i == k && (Baited(n, s, buf) || v.targets[j].i < k)
    ensures Probe(v, j, weak, DecoyNew(n, s), buf) == Hit(Mul(k, s + n))
    decreases m - j
  {
    hide DecoyOld, DecoyNew, Fread, Baited;
    var i := v.targets[j].i;
    assert v.targets[j].t == Tag(weak);
    Offsets(v, i);
    assert i * v.blockLen == Mul(i, s + n);
    DecoyReading(n, k, s, i, buf);
    if i < k {
      ProbeTakesBait(v, n, k, s, j + 1, m, weak, Fread(v.oldFile, i * v.blockLen, v.blockLen, buf));
    }
  }

  lemma {:induction false} DecoyHit(v: SigValue, n: nat, k: nat, s: nat, strongLen: nat, strongOf: nat -> seq<Byte>,
                                    buf: seq<Byte>)
    requires n >= FATAL_GAP && s >= 3 && Manageable(s + n, Mul(k, s + n) + s) && |buf| == OLDBUF_SIZE
    requires Loaded(v, s + n, strongLen, strongOf, DecoyOld(n, k, s)) && SigOk(v)
    requires DecoyFirst(v, k, WeakSum(DecoyNew(n, s)))
    ensures Find(v, WeakSum(DecoyNew(n, s)), DecoyNew(n, s), buf) == Hit(Mul(k, s + n))
  {
    hide WeakSum, DecoyOld, DecoyNew, Probe, BlocksOf;
    LoadedIsUniform(v, n, k, s, strongLen, strongOf);
    var weak := WeakSum(DecoyNew(n, s));
    var j := v.tagTable[Tag(weak)];
    assert StartsAt(v.targets, Tag(weak), j);
    assert v.blocks[k].weak == weak;
    assert Target(Tag(weak), k) in v.targets;
    var m :| 0 <= m < |v.targets| && v.targets[m] == Target(Tag(weak), k);
    assert v.targets[m].t == Tag(weak);
    ProbeTakesBait(v, n, k, s, j, m, weak, buf);
  }

  /** The round trip fails for every content of the search buffer. */
  lemma {:induction false} DecoyAlwaysFails(v: SigValue, env: Env, n: nat, k: nat, s: nat, strongLen: nat,
                                            strongOf: nat -> seq<Byte>)
    requires n >= FATAL_GAP && s >= 3 && Manageable(s + n, Mul(k, s + n) + s) && EnvOk(env)
    requires Loaded(v, s + n, strongLen, strongOf, DecoyOld(n, k, s)) && SigOk(v)
    requires DecoyFirst(v, k, WeakSum(DecoyNew(n, s)))
    ensures PatchOf(DecoyOld(n, k, s), DeltaOf(RulesOf(v, env), DecoyNew(n, s))).res == InputEnded
  {
    hide PatchOf, DeltaOf, WeakSum, Find, Indexed, DecoyOld, DecoyNew, BlocksOf, DecoyFirst;
    var g, basis, u := RulesOf(v, env), DecoyOld(n, k, s), DecoyNew(n, s);
    DecoyShape(n, k, s, k);
    DecoyHit(v, n, k, s, strongLen, strongOf, env.staleOf(0));
    assert u[..Min(v.blockLen, |u|)] == u;
    assert g.look(0, u) == Look(v, env, 0, u) == Hit(Mul(k, s + n));
    RulesAreFaithful(v, env);
    PatchOfDelta(g, basis, u);
  }

  /** There is such a signature as soon as there is a complete block. */
  lemma {:induction false} DecoyExists(n: nat, k: nat, s: nat, strongLen: nat, strongOf: nat -> seq<Byte>)
    returns (v: SigValue)
    requires n >= FATAL_GAP && s >= 3 && k >= 1 && Manageable(s + n, Mul(k, s + n) + s)
    requires SigParams(s + n, strongLen, strongOf)
    ensures Loaded(v, s + n, strongLen, strongOf, DecoyOld(n, k, s)) && SigOk(v)
    ensures DecoyFirst(v, k, WeakSum(DecoyNew(n, s)))
  {
    hide WeakSum, DecoyOld, DecoyNew, BlocksOf;
    var b, basis, weak := s + n, DecoyOld(n, k, s), WeakSum(DecoyNew(n, s));
    var blocks := BlocksOf(b, strongLen, strongOf, 0, basis);
    var any := IndexExists(SigValue(b, strongLen, blocks, [], [], basis));
    LoadedIsUniform(any, n, k, s, strongLen, strongOf);
    var ts := seq(k + 1, i requires 0 <= i <= k => Target(Tag(weak), i));
    var table := seq(TABLE_SIZE, t requires 0 <= t < TABLE_SIZE => FirstOf(ts, t, 0));
    v := any.(targets := ts, tagTable := table);
    forall t | 0 <= t < TABLE_SIZE ensures StartsAt(ts, t, table[t]) {
      FirstOfStarts(ts, t, 0);
    }
    forall i | 0 <= i < |v.blocks| ensures Target(Tag(v.blocks[i].weak), i) in ts {
      assert ts[i] == Target(Tag(weak), i);
    }
    assert SortedByTag(ts);
    LoadedIsUniform(v, n, k, s, strongLen, strongOf);
    assert StartsAt(ts, Tag(weak), table[Tag(weak)]);
    assert ts[0].t == Tag(weak) && ts[0].i < k;
  }

  // ---------------------------------------------------------------------
  // Without a complete block some content of the buffer always helps
  // ---------------------------------------------------------------------

  /** A buffer that tells, behind a file of len bytes, from what is scanned at position n. */
  function Telltale(newFile: seq<Byte>, len: nat, n: nat): (buf: seq<Byte>)
    ensures |buf| == OLDBUF_SIZE
  {
    Repeat<Byte>(if n + len < |newFile| && newFile[n + len] == 0 then 1 else 0, OLDBUF_SIZE)
  }

  /** Reading the only block leaves what is behind it. */
  lemma {:induction false} OnlyBlockRead(file: seq<Byte>, b: nat, buf: seq<Byte>)
    requires |file| < b <= |buf|
    ensures Fread(file, 0, b, buf)[|file|..] == buf[|file|..]
  {
  }

  lemma {:induction false} ProbeKeepsTail(v: SigValue, j: nat, weak: nat, window: seq<Byte>, buf: seq<Byte>)
    requires SigOk(v) && |v.blocks| <= 1 && |v.oldFile| < v.blockLen && |window| <= v.blockLen && |buf| == OLDBUF_SIZE
    ensures Probe(v, j, weak, window, buf).Hit? ==>
              |window| <= |v.oldFile| || window[|v.oldFile|] == buf[|v.oldFile|]
    decreases |v.targets| - j
  {
    hide Fread;
    if j < |v.targets| && v.targets[j].t == Tag(weak) {
      var i := v.targets[j].i;
      Offsets(v, i);
      var len := |v.oldFile|;
      var r := Fread(v.oldFile, i * v.blockLen, v.blockLen, buf);
      OnlyBlockRead(v.oldFile, v.blockLen, buf);
      assert r[len..][0] == buf[len..][0];
      if v.blocks[i].weak != weak {
        ProbeKeepsTail(v, j + 1, weak, window, buf);
      } else {
        ProbeKeepsTail(v, j + 1, weak, window, r);
      }
    }
  }

  /** With such a buffer at every position no hit reaches past the file. */
  lemma {:induction false} TelltaleStaysInside(v: SigValue, env: Env, newFile: seq<Byte>, n: nat)
    requires SigOk(v) && EnvOk(env) && |v.blocks| <= 1 && |v.oldFile| < v.blockLen && n <= |newFile|
    requires forall k :: env.staleOf(k) == Telltale(newFile, |v.oldFile|, k)
    ensures var u := newFile[n..]; var h := Look(v, env, n, u);
            h.Hit? ==> h.pos + Min(v.blockLen, |u|) <= |v.oldFile|
  {
    hide WeakSum, Probe;
    var u, len := newFile[n..], |v.oldFile|;
    var window, buf := u[..Min(v.blockLen, |u|)], env.staleOf(n);
    assert |window| > len ==> window[len] == newFile[n + len];
    FindAgreesWithScan(v, WeakSum(window), window, buf);
    var h := Look(v, env, n, u);
    if h.Hit? {
      var t := Tag(WeakSum(window));
      assert StartsAt(v.targets, t, v.tagTable[t]);
      ProbeKeepsTail(v, v.tagTable[t], WeakSum(window), window, buf);
      var i :| 0 <= i < |v.blocks| && h.pos == Mul(i, v.blockLen) && v.blocks[i].weak == WeakSum(window);
      assert i == 0 && h.pos == 0;
    }
  }

  lemma {:induction false} TelltaleNeverOverreaches(v: SigValue, env: Env, newFile: seq<Byte>, n: nat)
    requires SigOk(v) && EnvOk(env) && |v.blocks| <= 1 && |v.oldFile| < v.blockLen && n <= |newFile|
    requires forall k :: env.staleOf(k) == Telltale(newFile, |v.oldFile|, k)
    ensures NoOverreach(RulesOf(v, env), v.oldFile, n, newFile[n..])
    decreases |newFile| - n
  {
    hide Look, SigOk, EnvOk, Telltale;
    var g, u := RulesOf(v, env), newFile[n..];
    if u != [] {
      TelltaleStaysInside(v, env, newFile, n);
      assert g.look(n, u) == Look(v, env, n, u);
      var w := if g.look(n, u).Hit? then Width(g, u) else 1;
      assert u[w..] == newFile[n + w..];
      TelltaleNeverOverreaches(v, env, newFile, n + w);
    }
  }

  // ---------------------------------------------------------------------
  // Which lengths have files that always fail
  // ---------------------------------------------------------------------

  /** Whatever the buffer holds, patching the old file ends with an error. */
  ghost predicate Doomed(b: nat, strongLen: nat, strongOf: nat -> seq<Byte>, basis: seq<Byte>, v: SigValue,
                         newFile: seq<Byte>) {
    && Loaded(v, b, strongLen, strongOf, basis) && SigOk(v) && |newFile| < TWO_63
    && forall env: Env :: EnvOk(env) ==> PatchOf(basis, DeltaOf(RulesOf(v, env), newFile)).res == InputEnded
  }

  ghost predicate HasDoomed(b: nat, strongLen: nat, strongOf: nat -> seq<Byte>, len: nat) {
    exists basis: seq<Byte>, v: SigValue, newFile: seq<Byte> ::
      |basis| == len && Doomed(b, strongLen, strongOf, basis, v, newFile)
  }

  lemma {:induction false} NoneDoomedAlone(b: nat, strongLen: nat, strongOf: nat -> seq<Byte>, basis: seq<Byte>,
                                           v: SigValue, newFile: seq<Byte>)
    requires |basis| < b && Manageable(b, |basis|)
    ensures !Doomed(b, strongLen, strongOf, basis, v, newFile)
  {
    hide PatchOf, DeltaOf, Telltale, BlocksOf, Indexed, RulesOf;
    if Loaded(v, b, strongLen, strongOf, basis) && SigOk(v) && |newFile| < TWO_63 {
      var env := Env([], 1, k => Repeat<Byte>(0, STRONG_LENGTH), k => Telltale(newFile, |basis|, k));
      LoadedIsOk(v, b, strongLen, strongOf, basis);
      CountIs(b, |basis|, if basis == [] then 0 else 1);
      TelltaleNeverOverreaches(v, env, newFile, 0);
      assert newFile[0..] == newFile;
      RulesAreFaithful(v, env);
      PatchOfDelta(RulesOf(v, env), basis, newFile);
    }
  }

  /** For every length that is not safe and leaves at least three bytes for the last block:
      there are files of that length that fail for every content of the buffer, under some
      order of equal elements in the index, if and only if there is a complete block. */
  lemma {:induction false} DoomedIffBlock(b: nat, strongLen: nat, strongOf: nat -> seq<Byte>, len: nat)
    requires Manageable(b, len) && !Safe(b, len) && len % b >= 3 && SigParams(b, strongLen, strongOf)
    ensures HasDoomed(b, strongLen, strongOf, len) <==> len >= b
  {
    hide Doomed, DecoyOld, DecoyNew, DecoyFirst, WeakSum, Loaded, PatchOf, DeltaOf, SigOk, EnvOk;
    if len < b {
      forall basis: seq<Byte>, v: SigValue, newFile: seq<Byte> | |basis| == len
        ensures !Doomed(b, strongLen, strongOf, basis, v, newFile)
      {
        NoneDoomedAlone(b, strongLen, strongOf, basis, v, newFile);
      }
    } else {
      UnsafeShape(b, len);
      var k, s := len / b, len % b;
      SomeDoomed(b - s, k, s, strongLen, strongOf);
      DecoyShape(b - s, k, s, k);
    }
  }

  lemma {:induction false} SomeDoomed(n: nat, k: nat, s: nat, strongLen: nat, strongOf: nat -> seq<Byte>)
    requires n >= FATAL_GAP && s >= 3 && k >= 1 && Manageable(s + n, Mul(k, s + n) + s)
    requires SigParams(s + n, strongLen, strongOf)
    ensures HasDoomed(s + n, strongLen, strongOf, |DecoyOld(n, k, s)|)
  {
    hide DecoyOld, DecoyNew, DecoyFirst, WeakSum, Loaded, PatchOf, DeltaOf, SigOk, EnvOk;
    var v := DecoyExists(n, k, s, strongLen, strongOf);
    forall env: Env | EnvOk(env)
      ensures PatchOf(DecoyOld(n, k, s), DeltaOf(RulesOf(v, env), DecoyNew(n, s))).res == InputEnded
    {
      DecoyAlwaysFails(v, env, n, k, s, strongLen, strongOf);
    }
    assert Doomed(s + n, strongLen, strongOf, DecoyOld(n, k, s), v, DecoyNew(n, s));
  }
}
