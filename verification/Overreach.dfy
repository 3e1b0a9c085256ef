/** For every length that is not safe there is an old file of that length, and a new
    file, for which the delta asks for bytes the old file does not have. */
module Overreach {
  import opened Bytes
  import opened Checksums
  import opened Sumset
  import opened Search
  import opened Jobs
  import opened DeltaSpec
  import opened PatchSpec
  import opened SigSpec
  import opened Meaning
  import opened RoundTrip

  // ---------------------------------------------------------------------
  // 230 bytes that do not change a weak sum
  // ---------------------------------------------------------------------

  /** How much the weighted sum of 230 bytes 0xff must be lowered to cancel out, behind
      a short block made of `x` and s - 1 zeros. */
  function Excess(s: nat, x: nat): (r: nat) {
    (230 * (x + 31 * s) + 7597590) % TWO_16
  }

  /** The first byte of the short block. */
  function First(s: nat): (r: Byte) {
    if 244 <= Excess(s, 1) < 56120 then 1 else 51
  }

  lemma {:induction false} ExcessFits(s: nat)
    ensures 244 <= Excess(s, First(s)) < 56120
  {
    assert Excess(s, 51) == (Excess(s, 1) + 11500) % TWO_16;
  }

  /** 230 bytes 0xff but for two, which together lack 244. */
  function Filler(d: nat): (r: seq<Byte>)
    requires 244 <= d < 56120
  {
    var q, r := d / 244, d % 244;
    Repeat<Byte>(255, 229 - q) + [255 - r, 11 + r] + Repeat<Byte>(255, q - 1)
  }

  lemma {:induction false} FillerSums(d: nat)
    requires 244 <= d < 56120
    ensures |Filler(d)| == FATAL_GAP && S1(Filler(d)) == TWO_16 && S2(Filler(d)) == 7597590 - d
  {
    hide S1, S2, Times, Repeat;
    var q, r := d / 244, d % 244;
    var a, c: nat := 229 - q, q - 1;
    var m: seq<Byte> := [255 - r, 11 + r];
    SumsOfRepeat(255, a);
    SumsOfRepeat(255, c);
    PairSums(255 - r, 11 + r);
    ConcatSums(Repeat<Byte>(255, a), m);
    ConcatSums(Repeat<Byte>(255, a) + m, Repeat<Byte>(255, c));
    assert S1(Repeat<Byte>(255, a) + m) == a * 286 + 328;
    FillerArithmetic(c, a, r, S2(Repeat<Byte>(255, a)), S2(Repeat<Byte>(255, c)));
  }

  lemma {:induction false} ConcatSums(u: seq<Byte>, v: seq<Byte>)
    ensures S1(u + v) == S1(u) + S1(v)
    ensures S2(u + v) == S2(u) + |v| * S1(u) + S2(v)
  {
    SumsOfConcat(u, v);
    TimesIsProduct(|v|, S1(u));
  }

  lemma {:induction false} PairSums(x: Byte, y: Byte)
    ensures S1([x, y]) == x + y + 62 && S2([x, y]) == 2 * x + y + 93
  {
    assert [x, y][1..] == [y] && [y][1..] == [];
    assert S1([y]) == y + 31;
    TimesIsProduct(2, x + 31);
    TimesIsProduct(1, y + 31);
    assert S2([y]) == y + 31;
  }

  lemma {:induction false} FillerArithmetic(c: int, a: int, r: int, sa: int, sc: int)
    requires a == 228 - c && 2 * sa == a * (a + 1) * 286 && 2 * sc == c * (c + 1) * 286
    ensures sa + 2 * (a * 286) + (614 - r) + c * (a * 286 + 328) + sc == 7597590 - (244 * (c + 1) + r)
  {
    var t := c * c;
    assert a * (a + 1) == (228 - c) * 229 - (228 - c) * c == 228 * 229 - 229 * c - 228 * c + t;
    assert c * (c + 1) == t + c;
    assert c * a == 228 * c - t;
    assert c * (a * 286 + 328) == 286 * (c * a) + 328 * c;
  }

  function Extra(s: nat): (r: seq<Byte>) {
    ExcessFits(s);
    Filler(Excess(s, First(s)))
  }

  /** The short last block. */
  function Last(s: nat): (r: seq<Byte>)
    requires s >= 1
  {
    [First(s)] + Repeat<Byte>(0, s - 1)
  }

  lemma {:induction false} LastSums(s: nat)
    requires s >= 1
    ensures S1(Last(s)) == First(s) + 31 * s
  {
    SumsOfRepeat(0, s - 1);
    assert Last(s)[1..] == Repeat<Byte>(0, s - 1);
  }

  /** Behind any bytes whose plain sum matches the filler, the 230 bytes go unnoticed. */
  lemma {:induction false} FillerIsInvisible(u: seq<Byte>, d: nat)
    requires 244 <= d < 56120 && d == (230 * S1(u) + 7597590) % TWO_16
    ensures |Filler(d)| == FATAL_GAP && WeakSum(u + Filler(d)) == WeakSum(u)
  {
    hide S1, S2, Times, Filler;
    FillerSums(d);
    ConcatSums(u, Filler(d));
    Multiple(S2(u), FATAL_GAP * S1(u) + 7597590);
    Multiple(S1(u), TWO_16);
  }

  lemma {:induction false} ExtraIsInvisible(s: nat)
    requires s >= 1
    ensures |Extra(s)| == FATAL_GAP && WeakSum(Last(s) + Extra(s)) == WeakSum(Last(s))
  {
    hide S1, S2, Times, Filler, Last, First, WeakSum;
    ExcessFits(s);
    LastSums(s);
    FillerIsInvisible(Last(s), Excess(s, First(s)));
  }

  lemma {:induction false} Multiple(x: nat, t: nat)
    ensures (x + t - t % TWO_16) % TWO_16 == x % TWO_16
  {
    var k := t / TWO_16;
    assert t - t % TWO_16 == TWO_16 * k;
  }

  // ---------------------------------------------------------------------
  // The two files
  // ---------------------------------------------------------------------

  /** The first byte of the complete blocks: such that their weak sum is not that of the
      short one. */
  function Lead(b: nat, s: nat): (c: Byte) {
    if 31 * b % TWO_16 == (First(s) + 31 * s) % TWO_16 then 2 else 0
  }

  /** The complete blocks. */
  function Full(b: nat, s: nat): (r: seq<Byte>)
    requires 1 <= b
    ensures |r| == b
  {
    [Lead(b, s)] + Repeat<Byte>(0, b - 1)
  }

  lemma {:induction false} FullIsDifferent(b: nat, s: nat)
    requires 1 <= s && 1 <= b
    ensures WeakSum(Full(b, s)) != WeakSum(Last(s))
  {
    hide First, S2, WeakSum, Last, Times;
    SumsOfRepeat(0, b - 1);
    assert Full(b, s)[1..] == Repeat<Byte>(0, b - 1);
    var x, y := 31 * b, First(s) + 31 * s;
    assert S1(Full(b, s)) == Lead(b, s) + x;
    LastSums(s);
    LowHalves(Full(b, s));
    LowHalves(Last(s));
    assert (if x % TWO_16 == y % TWO_16 then 2 + x else x) % TWO_16 != y % TWO_16;
  }

  lemma {:induction false} LowHalves(w: seq<Byte>)
    ensures WeakSum(w) % TWO_16 == S1(w) % TWO_16
  {
    hide S1, S2;
    Multiple(S1(w) % TWO_16, S2(w) % TWO_16 * TWO_16);
  }

  function Tiles(f: seq<Byte>, k: nat): (r: seq<Byte>) {
    if k == 0 then [] else Tiles(f, k - 1) + f
  }

  /** k complete blocks, and a last one of s bytes. */
  function OldFile(b: nat, k: nat, s: nat): (r: seq<Byte>)
    requires 1 <= s && s + FATAL_GAP <= b
  {
    Tiles(Full(b, s), k) + Last(s)
  }

  function NewFile(s: nat): (r: seq<Byte>)
    requires s >= 1
  {
    Last(s) + Extra(s)
  }

  /** What the search buffer holds when the search begins. */
  predicate Leftover(b: nat, s: nat, buf: seq<Byte>)
    requires 1 <= s && s + FATAL_GAP <= b
  {
    |buf| == OLDBUF_SIZE && b <= OLDBUF_SIZE && buf[s..s + FATAL_GAP] == Extra(s)
  }

  lemma {:induction false} TilesAt(f: seq<Byte>, k: nat, i: nat)
    requires i <= k
    ensures |Tiles(f, k)| == k * |f|
    ensures i < k ==> Mul(i, |f|) + |f| <= |Tiles(f, k)| && Tiles(f, k)[Mul(i, |f|)..][..|f|] == f
  {
    if i < k {
      InsideWhole(k, i, |f|);
      TilesAt(f, k - 1, Min(i, k - 1));
      assert k * |f| == (k - 1) * |f| + |f|;
      if i < k - 1 {
        InsideWhole(k - 1, i, |f|);
        assert Tiles(f, k)[Mul(i, |f|)..][..|f|] == Tiles(f, k - 1)[Mul(i, |f|)..][..|f|];
      }
    } else if k > 0 {
      TilesAt(f, k - 1, k - 1);
      assert k * |f| == (k - 1) * |f| + |f|;
    }
  }

  lemma {:induction false} OldFileShape(b: nat, k: nat, s: nat, i: nat)
    requires 1 <= s && s + FATAL_GAP <= b && i <= k
    ensures |OldFile(b, k, s)| == Mul(k, b) + s
    ensures i < k ==> Mul(i, b) + b <= Mul(k, b) && OldFile(b, k, s)[Mul(i, b)..][..b] == Full(b, s)
    ensures OldFile(b, k, s)[Mul(k, b)..] == Last(s)
  {
    hide Full, Tiles;
    var f := Full(b, s);
    TilesAt(f, k, i);
    if i < k {
      InsideWhole(k, i, b);
      assert OldFile(b, k, s)[Mul(i, b)..][..b] == Tiles(f, k)[Mul(i, b)..][..b];
    }
  }

  /** Reading the short block leaves the buffer behind it as it was. */
  lemma {:induction false} Reading(b: nat, k: nat, s: nat, buf: seq<Byte>)
    requires 1 <= s && s + FATAL_GAP <= b <= OLDBUF_SIZE == |buf|
    ensures var r := Fread(OldFile(b, k, s), k * b, b, buf);
            (NewFile(s) <= r <==> Leftover(b, s, buf)) && (Leftover(b, s, r) <==> Leftover(b, s, buf))
  {
    hide S1, S2, WeakSum, Tiles, Extra;
    var file := OldFile(b, k, s);
    OldFileShape(b, k, s, k);
    ExtraIsInvisible(s);
    assert k * b == Mul(k, b);
    var r := Fread(file, k * b, b, buf);
    assert r[..s] == file[Mul(k, b)..] == Last(s);
    assert r[s..s + FATAL_GAP] == buf[s..s + FATAL_GAP];
    assert r[..s + FATAL_GAP] == r[..s] + r[s..s + FATAL_GAP];
    if NewFile(s) <= r {
      assert NewFile(s) == r[..s + FATAL_GAP];
      assert NewFile(s)[s..] == Extra(s);
      assert r[..s + FATAL_GAP][s..] == r[s..s + FATAL_GAP];
    }
  }

  // ---------------------------------------------------------------------
  // The search finds the short block if the bytes are left over, and nothing otherwise
  // ---------------------------------------------------------------------

  /** A signature of the old file, in which only the short block has the wanted sum. */
  ghost predicate Prepared(v: SigValue, b: nat, k: nat, s: nat, weak: nat) {
    && 1 <= s && s + FATAL_GAP <= b && SigOk(v) && v.blockLen == b && v.oldFile == OldFile(b, k, s)
    && |v.blocks| == k + 1 && |NewFile(s)| == s + FATAL_GAP
    && forall i :: 0 <= i <= k ==> (v.blocks[i].weak == weak <==> i == k)
  }

  lemma {:induction false} ProbeOverreaches(v: SigValue, b: nat, k: nat, s: nat, j: nat, m: nat, weak: nat,
                                            buf: seq<Byte>)
    requires Prepared(v, b, k, s, weak) && Leftover(b, s, buf)
    requires j <= m < |v.targets| && v.targets[j].t == Tag(weak) == v.targets[m].t && v.targets[m].i == k
    ensures Probe(v, j, weak, NewFile(s), buf) == Hit(Mul(k, b))
    decreases |v.targets| - j
  {
    hide OldFile, NewFile, Fread, Extra;
    var i := v.targets[j].i;
    if j < m {
      SameTagBetween(v.targets, j, m);
    }
    if i != k {
      ProbeOverreaches(v, b, k, s, j + 1, m, weak, buf);
    } else {
      Reading(b, k, s, buf);
      assert v.blocks[i].i - 1 == i;
      assert i * b == Mul(i, b);
    }
  }

  lemma {:induction false} ProbeMisses(v: SigValue, b: nat, k: nat, s: nat, j: nat, weak: nat, buf: seq<Byte>)
    requires Prepared(v, b, k, s, weak) && |buf| == OLDBUF_SIZE && !Leftover(b, s, buf)
    ensures Probe(v, j, weak, NewFile(s), buf) == NoHit
    decreases |v.targets| - j
  {
    hide OldFile, NewFile, Fread, Extra;
    if j < |v.targets| && v.targets[j].t == Tag(weak) {
      if v.targets[j].i != k {
        ProbeMisses(v, b, k, s, j + 1, weak, buf);
      } else {
        Reading(b, k, s, buf);
        Offsets(v, k);
        ProbeMisses(v, b, k, s, j + 1, weak, Fread(v.oldFile, k * b, b, buf));
      }
    }
  }

  lemma {:induction false} LoadedIsPrepared(v: SigValue, b: nat, k: nat, s: nat, strongLen: nat,
                                            strongOf: nat -> seq<Byte>)
    requires 1 <= s && s + FATAL_GAP <= b && Manageable(b, Mul(k, b) + s)
    requires Loaded(v, b, strongLen, strongOf, OldFile(b, k, s)) && SigOk(v)
    ensures Prepared(v, b, k, s, WeakSum(NewFile(s)))
  {
    hide WeakSum, Extra, Tiles, Full, Indexed;
    var basis := OldFile(b, k, s);
    OldFileShape(b, k, s, k);
    ExtraIsInvisible(s);
    LoadedIsOk(v, b, strongLen, strongOf, basis);
    assert (k + 1) * b == Mul(k, b) + b;
    CountIs(b, |basis|, k + 1);
    assert BlockAt(b, basis, k) == Last(s);
    FullIsDifferent(b, s);
    forall i | 0 <= i < k ensures v.blocks[i].weak != WeakSum(NewFile(s)) {
      OldFileShape(b, k, s, i);
      assert i * b == Mul(i, b);
      assert BlockAt(b, basis, i) == basis[Mul(i, b)..][..b];
    }
  }

  /** Whether the search accepts the short block depends on nothing but the buffer. */
  lemma {:induction false} FindOverreaches(v: SigValue, b: nat, k: nat, s: nat, strongLen: nat,
                                           strongOf: nat -> seq<Byte>, buf: seq<Byte>)
    requires 1 <= s && s + FATAL_GAP <= b && Manageable(b, Mul(k, b) + s) && |buf| == OLDBUF_SIZE
    requires Loaded(v, b, strongLen, strongOf, OldFile(b, k, s)) && SigOk(v)
    ensures |NewFile(s)| == s + FATAL_GAP
    ensures Find(v, WeakSum(NewFile(s)), NewFile(s), buf) == if Leftover(b, s, buf) then Hit(Mul(k, b)) else NoHit
  {
    hide WeakSum, Extra, Probe, OldFile, NewFile;
    LoadedIsPrepared(v, b, k, s, strongLen, strongOf);
    var weak := WeakSum(NewFile(s));
    var t := Tag(weak);
    var j := v.tagTable[t];
    assert StartsAt(v.targets, t, j);
    assert v.blocks[k].weak == weak;
    assert Target(t, k) in v.targets;
    var m :| 0 <= m < |v.targets| && v.targets[m] == Target(t, k);
    assert v.targets[m].t == t;
    if Leftover(b, s, buf) {
      ProbeOverreaches(v, b, k, s, j, m, weak, buf);
    } else {
      ProbeMisses(v, b, k, s, j, weak, buf);
    }
  }

  /** Every length that is not safe has k blocks and s bytes more, too few. */
  lemma {:induction false} UnsafeShape(b: nat, len: nat)
    requires b >= 1 && !Safe(b, len)
    ensures Mul(len / b, b) + len % b == len && 1 <= len % b && len % b + FATAL_GAP <= b
  {
  }

  lemma {:induction false} FilesFit(b: nat, k: nat, s: nat)
    requires 1 <= s && s + FATAL_GAP <= b
    ensures |OldFile(b, k, s)| == Mul(k, b) + s && |NewFile(s)| == s + FATAL_GAP
  {
    OldFileShape(b, k, s, 0);
    ExtraIsInvisible(s);
  }

  /** No length is safe but those that Safe names: with these files, and the extra bytes
      left over in the search buffer, the patch job runs out of input. */
  lemma {:induction false} RoundTripFailsWhenUnsafe(v: SigValue, env: Env, b: nat, k: nat, s: nat, strongLen: nat)
    requires 1 <= s && s + FATAL_GAP <= b && Manageable(b, Mul(k, b) + s)
    requires EnvOk(env) && Leftover(b, s, env.staleOf(0))
    requires Loaded(v, b, strongLen, env.strongOf, OldFile(b, k, s)) && SigOk(v)
    ensures |OldFile(b, k, s)| == Mul(k, b) + s && |NewFile(s)| < TWO_63
    ensures !NoOverreach(RulesOf(v, env), OldFile(b, k, s), 0, NewFile(s))
    ensures PatchOf(OldFile(b, k, s), DeltaOf(RulesOf(v, env), NewFile(s))).res == InputEnded
  {
    hide PatchOf, DeltaOf, WeakSum, Find, Indexed, Extra, Tiles, Full, Last, BlocksOf;
    var g, basis, u := RulesOf(v, env), OldFile(b, k, s), NewFile(s);
    OldFileShape(b, k, s, 0);
    FindOverreaches(v, b, k, s, strongLen, env.strongOf, env.staleOf(0));
    assert u[..Min(v.blockLen, |u|)] == u;
    assert g.look(0, u) == Look(v, env, 0, u) == Hit(Mul(k, b));
    RulesAreFaithful(v, env);
    PatchOfDelta(g, basis, u);
  }

  // ---------------------------------------------------------------------
  // The same run without the extra bytes in the buffer
  // ---------------------------------------------------------------------

  /** Behind the first byte of the new file, what is left is too short to deceive the search. */
  lemma {:induction false} LaterHitsStayInside(v: SigValue, env: Env, b: nat, k: nat, s: nat, strongLen: nat, n: nat,
                                               u: seq<Byte>)
    requires 1 <= s && s + FATAL_GAP <= b && Manageable(b, Mul(k, b) + s) && EnvOk(env)
    requires Loaded(v, b, strongLen, env.strongOf, OldFile(b, k, s)) && SigOk(v) && |u| < s + FATAL_GAP
    ensures var h := Look(v, env, n, u); h.Hit? ==> h.pos + |u| <= |OldFile(b, k, s)|
  {
    hide WeakSum, Indexed, Find, Extra, Full, Tiles, Last;
    var basis := OldFile(b, k, s);
    OldFileShape(b, k, s, k);
    LoadedIsOk(v, b, strongLen, env.strongOf, basis);
    assert u[..Min(b, |u|)] == u;
    FindAgreesWithScan(v, WeakSum(u), u, env.staleOf(n));
    var h := Look(v, env, n, u);
    if h.Hit? {
      var i :| 0 <= i < |v.blocks| && h.pos == Mul(i, b) && v.blocks[i].weak == WeakSum(u);
      if h.pos + |u| > |basis| {
        LastOnly(b, k, s, i, |u|);
        var last := BlockAt(b, basis, i);
        assert last == basis[h.pos..];
        assert u[..|last|] == last;
        ExtensionShows(last, u);
        assert false;
      }
    }
  }

  lemma {:induction false} LastOnly(b: nat, k: nat, s: nat, i: nat, w: nat)
    requires s < b && Mul(i, b) < Mul(k, b) + s < Mul(i, b) + w && w <= b
    ensures i == k
  {
    if i < k {
      InsideWhole(k, i, b);
    } else if i > k {
      AtLeastOnce(i - k, k, b);
    }
  }

  lemma {:induction false} LaterNeverOverreaches(v: SigValue, env: Env, b: nat, k: nat, s: nat, strongLen: nat,
                                                 n: nat, u: seq<Byte>)
    requires 1 <= s && s + FATAL_GAP <= b && Manageable(b, Mul(k, b) + s) && EnvOk(env)
    requires Loaded(v, b, strongLen, env.strongOf, OldFile(b, k, s)) && SigOk(v) && |u| < s + FATAL_GAP
    ensures NoOverreach(RulesOf(v, env), OldFile(b, k, s), n, u)
    decreases |u|
  {
    hide Look, Indexed, BlocksOf, EnvOk, Manageable, OldFile;
    var g := RulesOf(v, env);
    if u != [] {
      LaterHitsStayInside(v, env, b, k, s, strongLen, n, u);
      assert g.look(n, u) == Look(v, env, n, u);
      if g.look(n, u).Hit? {
        LaterNeverOverreaches(v, env, b, k, s, strongLen, n + Width(g, u), u[Width(g, u)..]);
      } else {
        LaterNeverOverreaches(v, env, b, k, s, strongLen, n + 1, u[1..]);
      }
    }
  }

  /** With any other buffer the same files come through: the outcome of a run on a length
      that is not safe depends on what uninitialised memory holds. */
  lemma {:induction false} RoundTripOtherwise(v: SigValue, env: Env, b: nat, k: nat, s: nat, strongLen: nat)
    requires 1 <= s && s + FATAL_GAP <= b && Manageable(b, Mul(k, b) + s)
    requires EnvOk(env) && !Leftover(b, s, env.staleOf(0))
    requires Loaded(v, b, strongLen, env.strongOf, OldFile(b, k, s)) && SigOk(v)
    ensures |NewFile(s)| < TWO_63
    ensures PatchOf(OldFile(b, k, s), DeltaOf(RulesOf(v, env), NewFile(s))) == Outcome(NewFile(s), Done)
  {
    hide PatchOf, DeltaOf, WeakSum, Find, Indexed, Extra, Tiles, Full, Last, BlocksOf;
    var g, basis, u := RulesOf(v, env), OldFile(b, k, s), NewFile(s);
    FindOverreaches(v, b, k, s, strongLen, env.strongOf, env.staleOf(0));
    assert u[..Min(v.blockLen, |u|)] == u;
    assert g.look(0, u) == Look(v, env, 0, u) == NoHit;
    LaterNeverOverreaches(v, env, b, k, s, strongLen, 1, u[1..]);
    RulesAreFaithful(v, env);
    PatchOfDelta(g, basis, u);
  }

  /** Two runs that differ in uninitialised memory only write different deltas. */
  lemma {:induction false} DeltaDependsOnStale(v: SigValue, env: Env, other: Env, b: nat, k: nat, s: nat,
                                               strongLen: nat)
    requires 1 <= s && s + FATAL_GAP <= b && Manageable(b, Mul(k, b) + s) && SigOk(v)
    requires EnvOk(env) && EnvOk(other) && other == env.(staleOf := other.staleOf)
    requires Leftover(b, s, env.staleOf(0)) && !Leftover(b, s, other.staleOf(0))
    requires Loaded(v, b, strongLen, env.strongOf, OldFile(b, k, s))
    ensures |NewFile(s)| < TWO_63
    ensures DeltaOf(RulesOf(v, env), NewFile(s)) != DeltaOf(RulesOf(v, other), NewFile(s))
  {
    hide PatchOf, DeltaOf, OldFile, NewFile, Loaded, SigOk, EnvOk, Leftover;
    RoundTripFailsWhenUnsafe(v, env, b, k, s, strongLen);
    RoundTripOtherwise(v, other, b, k, s, strongLen);
  }

  /** A buffer with the extra bytes behind the short block. */
  function Deceptive(s: nat): (buf: seq<Byte>)
    requires 1 <= s && s + FATAL_GAP <= OLDBUF_SIZE
  {
    ExtraIsInvisible(s);
    Repeat<Byte>(0, s) + Extra(s) + Repeat<Byte>(0, OLDBUF_SIZE - s - FATAL_GAP)
  }

  // ---------------------------------------------------------------------
  // The exact condition
  // ---------------------------------------------------------------------

  /** The round trip of one old file and one new file, with one content of the search buffer
      at each search, for a signature of the old file indexed in any way. */
  ghost predicate ComesThrough(b: nat, strongLen: nat, basis: seq<Byte>, v: SigValue, env: Env, newFile: seq<Byte>) {
    Loaded(v, b, strongLen, env.strongOf, basis) && SigOk(v) && EnvOk(env) && |newFile| < TWO_63 ==>
      PatchOf(basis, DeltaOf(RulesOf(v, env), newFile)) == Outcome(newFile, Done)
  }

  ghost predicate AlwaysComesThrough(b: nat, strongLen: nat, len: nat) {
    forall basis: seq<Byte>, v: SigValue, env: Env, newFile: seq<Byte> ::
      |basis| == len ==> ComesThrough(b, strongLen, basis, v, env, newFile)
  }

  /** For every block length and file length the C types allow: the round trip holds for every
      old file of that length, every new file and every content of the search buffer if and
      only if the last block is complete or lacks fewer than 230 bytes. */
  lemma {:induction false} RoundTripIffSafe(b: nat, strongLen: nat, len: nat)
    requires Manageable(b, len) && 1 <= strongLen <= STRONG_LENGTH
    ensures AlwaysComesThrough(b, strongLen, len) <==> Safe(b, len)
  {
    hide Loaded, SigOk, EnvOk, PatchOf, DeltaOf, Safe;
    if Safe(b, len) {
      forall basis: seq<Byte>, v: SigValue, env: Env, newFile: seq<Byte> | |basis| == len
        ensures ComesThrough(b, strongLen, basis, v, env, newFile)
      {
        if Loaded(v, b, strongLen, env.strongOf, basis) && SigOk(v) && EnvOk(env) && |newFile| < TWO_63 {
          RoundTripWhenSafe(v, env, b, strongLen, basis, newFile);
        }
      }
    } else {
      SomeRunFails(b, strongLen, len);
    }
  }

  lemma {:induction false} SomeRunFails(b: nat, strongLen: nat, len: nat)
    requires Manageable(b, len) && 1 <= strongLen <= STRONG_LENGTH && !Safe(b, len)
    ensures !AlwaysComesThrough(b, strongLen, len)
  {
    hide PatchOf, DeltaOf, OldFile, NewFile, Indexed, BlocksOf, NoOverreach, Extra;
    UnsafeShape(b, len);
    var k, s := len / b, len % b;
    FilesFit(b, k, s);
    ExtraIsInvisible(s);
    var basis := OldFile(b, k, s);
    var env := Env(basis, 1, n => Repeat<Byte>(0, STRONG_LENGTH), n => Deceptive(s));
    var v := IndexExists(SigValue(b, strongLen, BlocksOf(b, strongLen, env.strongOf, 0, basis), [], [], basis));
    assert Loaded(v, b, strongLen, env.strongOf, basis);
    LoadedIsOk(v, b, strongLen, env.strongOf, basis);
    assert Leftover(b, s, env.staleOf(0));
    RoundTripFailsWhenUnsafe(v, env, b, k, s, strongLen);
    assert !ComesThrough(b, strongLen, basis, v, env, NewFile(s));
  }
}
