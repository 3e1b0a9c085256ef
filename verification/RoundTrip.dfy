/** When the round trip holds: for every new file, as soon as the last block of the old
    file is complete or lacks fewer than 230 bytes; and not always otherwise. */
module RoundTrip {
  import opened Bytes
  import opened Checksums
  import opened Commands
  import opened Sumset
  import opened Search
  import opened Jobs
  import opened DeltaSpec
  import opened PatchSpec
  import opened SigSpec
  import opened Meaning

  /** The signature of `file`, loaded and indexed. */
  ghost predicate Loaded(v: SigValue, b: nat, strongLen: nat, strongOf: nat -> seq<Byte>, file: seq<Byte>) {
    && SigParams(b, strongLen, strongOf)
    && v.blockLen == b && v.blocks == BlocksOf(b, strongLen, strongOf, 0, file) && v.oldFile == file
    && Indexed(v)
  }

  /** Limits of the C types: the search buffer, and offsets computed as `int`. */
  predicate Manageable(b: nat, len: nat) {
    1 <= b <= OLDBUF_SIZE && len + b <= TWO_31
  }

  lemma {:induction false} LoadedIsOk(v: SigValue, b: nat, strongLen: nat, strongOf: nat -> seq<Byte>, file: seq<Byte>)
    requires Loaded(v, b, strongLen, strongOf, file) && Manageable(b, |file|)
    ensures SigOk(v) && |v.blocks| == BlockCount(b, |file|)
    ensures forall i :: 0 <= i < |v.blocks| ==> Mul(i, b) < |file| && v.blocks[i].weak == WeakSum(BlockAt(b, file, i))
  {
    hide WeakSum, Indexed;
    EntriesOf(b, strongLen, strongOf, 0, file);
    CountBounds(b, |file|);
    forall i | 0 <= i < |v.blocks|
      ensures v.blocks[i].i == i + 1 && Mul(i, b) < |file| && v.blocks[i].weak == WeakSum(BlockAt(b, file, i))
    {
      EntryAt(b, strongLen, strongOf, 0, file, i);
    }
  }

  /** Whatever is in the search buffer, a hit agrees with the old file. */
  lemma {:induction false} RulesAreFaithful(v: SigValue, env: Env)
    requires SigOk(v) && EnvOk(env)
    ensures Faithful(RulesOf(v, env), v.oldFile)
  {
    var g := RulesOf(v, env);
    forall n: nat, u: seq<Byte>, k: int
      | g.look(n, u).Hit? && 0 <= k < Width(g, u) && g.look(n, u).pos + k < |v.oldFile|
      ensures v.oldFile[g.look(n, u).pos + k] == u[k]
    {
      var window := u[..Min(v.blockLen, |u|)];
      FindAgreesWithScan(v, WeakSum(window), window, env.staleOf(n));
      assert u[k] == window[k];
    }
  }

  // ---------------------------------------------------------------------
  // The old files that are safe with a block length
  // ---------------------------------------------------------------------

  /** The number of equal-sum bytes needed to overreach: 230 offset bytes can add up to 65536. */
  const FATAL_GAP := 230

  /** The last block is complete, or nearly so. */
  predicate Safe(b: nat, len: nat)
    requires b >= 1
  {
    len % b == 0 || b - len % b < FATAL_GAP
  }

  lemma {:induction false} S1Bounds(w: seq<Byte>)
    ensures |w| * 31 <= S1(w) <= |w| * 286
  {
    if w != [] {
      S1Bounds(w[1..]);
    }
  }

  /** Fewer than 230 extra bytes always show in the weak sum. */
  lemma {:induction false} ExtensionShows(u: seq<Byte>, w: seq<Byte>)
    requires |u| < |w| && |w| - |u| < FATAL_GAP && w[..|u|] == u
    ensures WeakSum(w) != WeakSum(u)
  {
    var e := w[|u|..];
    assert w == u + e;
    SumsOfConcat(u, e);
    S1Bounds(e);
    assert S1(w) == S1(u) + S1(e) && 0 < S1(e) < TWO_16;
  }

  /** Where the blocks are: all but the last lie inside the file. */
  lemma {:induction false} BlockGeometry(b: nat, len: nat, i: nat)
    requires b >= 1 && Mul(i, b) < len
    ensures Mul(i, b) + b <= len || (len % b != 0 && Mul(i, b) + len % b == len)
  {
    var k, s := len / b, len % b;
    assert len == k * b + s;
    if i < k {
      InsideWhole(k, i, b);
    } else if i > k {
      AtLeastOnce(i - k, k, b);
    }
  }

  /** With a safe last block no hit ever overreaches. */
  lemma {:induction false} HitsStayInside(v: SigValue, env: Env, b: nat, strongLen: nat, basis: seq<Byte>, n: nat,
                                          u: seq<Byte>)
    requires Loaded(v, b, strongLen, env.strongOf, basis) && Manageable(b, |basis|) && EnvOk(env) && SigOk(v)
    requires Safe(b, |basis|) && u != []
    ensures var h := Look(v, env, n, u); h.Hit? ==> h.pos + Min(b, |u|) <= |basis|
  {
    hide WeakSum, Indexed, Find;
    LoadedIsOk(v, b, strongLen, env.strongOf, basis);
    var window := u[..Min(b, |u|)];
    FindAgreesWithScan(v, WeakSum(window), window, env.staleOf(n));
    var h := Look(v, env, n, u);
    if h.Hit? {
      var i :| 0 <= i < |v.blocks| && h.pos == Mul(i, b) && v.blocks[i].weak == WeakSum(window);
      BlockGeometry(b, |basis|, i);
      if h.pos + |window| > |basis| {
        var last := BlockAt(b, basis, i);
        assert last == basis[h.pos..];
        assert window[..|last|] == last;
        ExtensionShows(last, window);
        assert false;
      }
    }
  }

  lemma {:induction false} SafeNeverOverreaches(v: SigValue, env: Env, b: nat, strongLen: nat, basis: seq<Byte>,
                                                n: nat, u: seq<Byte>)
    requires Loaded(v, b, strongLen, env.strongOf, basis) && Manageable(b, |basis|) && EnvOk(env) && SigOk(v)
    requires Safe(b, |basis|)
    ensures NoOverreach(RulesOf(v, env), basis, n, u)
    decreases |u|
  {
    hide Look, Indexed, BlocksOf, EnvOk, Manageable, Safe;
    var g := RulesOf(v, env);
    if u != [] {
      HitsStayInside(v, env, b, strongLen, basis, n, u);
      assert g.look(n, u) == Look(v, env, n, u);
      if g.look(n, u).Hit? {
        SafeNeverOverreaches(v, env, b, strongLen, basis, n + Width(g, u), u[Width(g, u)..]);
      } else {
        SafeNeverOverreaches(v, env, b, strongLen, basis, n + 1, u[1..]);
      }
    }
  }

  /** The round trip for every new file, collisions of weak sums notwithstanding. */
  lemma {:induction false} RoundTripWhenSafe(v: SigValue, env: Env, b: nat, strongLen: nat, basis: seq<Byte>,
                                             newFile: seq<Byte>)
    requires Loaded(v, b, strongLen, env.strongOf, basis) && Manageable(b, |basis|) && EnvOk(env) && SigOk(v)
    requires Safe(b, |basis|) && |newFile| < TWO_63
    ensures PatchOf(basis, DeltaOf(RulesOf(v, env), newFile)) == Outcome(newFile, Done)
  {
    hide PatchOf, DeltaOf;
    RulesAreFaithful(v, env);
    SafeNeverOverreaches(v, env, b, strongLen, basis, 0, newFile);
    PatchOfDelta(RulesOf(v, env), basis, newFile);
  }

  // ---------------------------------------------------------------------
  // With a safe last block, the search buffer plays no part
  // ---------------------------------------------------------------------

  /** Reading block i gives the window's bytes or not, whatever the buffer held before. */
  lemma {:induction false} SameReading(v: SigValue, b: nat, strongLen: nat, strongOf: nat -> seq<Byte>,
                                       basis: seq<Byte>, i: nat, window: seq<Byte>, buf: seq<Byte>)
    requires Loaded(v, b, strongLen, strongOf, basis) && Manageable(b, |basis|) && SigOk(v) && Safe(b, |basis|)
    requires i < |v.blocks| && v.blocks[i].weak == WeakSum(window) && |window| <= b && |buf| == OLDBUF_SIZE
    ensures window <= Fread(basis, i * b, b, buf) <==> Matches(v, i, WeakSum(window), window)
  {
    hide WeakSum, Indexed, BlocksOf, Safe;
    LoadedIsOk(v, b, strongLen, strongOf, basis);
    var pos := Mul(i, b);
    assert i * b == pos && pos < |basis|;
    var r := Fread(basis, pos, b, buf);
    if pos + |window| <= |basis| {
      FreadPrefix(basis, pos, b, buf, |window|);
    } else {
      ShortBlock(b, |basis|, i, |window|);
      var last := BlockAt(b, basis, i);
      assert last == basis[pos..];
      assert r[..|last|] == last;
      if window <= r {
        assert window[..|last|] == last;
        ExtensionShows(last, window);
        assert false;
      }
    }
  }

  /** A window past the end starts in the short last block, which is nearly complete. */
  lemma {:induction false} ShortBlock(b: nat, len: nat, i: nat, w: nat)
    requires b >= 1 && Safe(b, len) && Mul(i, b) < len < Mul(i, b) + w && w <= b
    ensures w - (len - Mul(i, b)) < FATAL_GAP
  {
    BlockGeometry(b, len, i);
  }

  lemma {:induction false} ProbeIgnoresStale(v: SigValue, b: nat, strongLen: nat, strongOf: nat -> seq<Byte>,
                                             basis: seq<Byte>, j: nat, window: seq<Byte>, buf: seq<Byte>,
                                             other: seq<Byte>)
    requires Loaded(v, b, strongLen, strongOf, basis) && Manageable(b, |basis|) && SigOk(v) && Safe(b, |basis|)
    requires |window| <= b && |buf| == OLDBUF_SIZE == |other|
    ensures Probe(v, j, WeakSum(window), window, buf) == Probe(v, j, WeakSum(window), window, other)
    decreases |v.targets| - j
  {
    hide WeakSum, BlocksOf, Safe, Fread, Matches;
    var weak := WeakSum(window);
    if j < |v.targets| && v.targets[j].t == Tag(weak) {
      var i := v.targets[j].i;
      if v.blocks[i].weak != weak {
        ProbeIgnoresStale(v, b, strongLen, strongOf, basis, j + 1, window, buf, other);
      } else {
        Offsets(v, i);
        SameReading(v, b, strongLen, strongOf, basis, i, window, buf);
        SameReading(v, b, strongLen, strongOf, basis, i, window, other);
        ProbeIgnoresStale(v, b, strongLen, strongOf, basis, j + 1, window,
                          Fread(basis, i * b, b, buf), Fread(basis, i * b, b, other));
      }
    }
  }

  lemma {:induction false} FindIgnoresStale(v: SigValue, b: nat, strongLen: nat, strongOf: nat -> seq<Byte>,
                                            basis: seq<Byte>, window: seq<Byte>, buf: seq<Byte>, other: seq<Byte>)
    requires Loaded(v, b, strongLen, strongOf, basis) && Manageable(b, |basis|) && SigOk(v) && Safe(b, |basis|)
    requires |window| <= b && |buf| == OLDBUF_SIZE == |other|
    ensures Find(v, WeakSum(window), window, buf) == Find(v, WeakSum(window), window, other)
  {
    hide Safe, Loaded, Probe;
    var t := Tag(WeakSum(window));
    var j := v.tagTable[t];
    assert StartsAt(v.targets, t, j);
    if j != NULL_TAG {
      ProbeIgnoresStale(v, b, strongLen, strongOf, basis, j, window, buf, other);
    }
  }

  /** A hit is exactly a block with equal sum and equal bytes, not only for files of whole blocks. */
  lemma {:induction false} HitIffMatchWhenSafe(v: SigValue, b: nat, strongLen: nat, strongOf: nat -> seq<Byte>,
                                               basis: seq<Byte>, window: seq<Byte>, buf: seq<Byte>)
    requires Loaded(v, b, strongLen, strongOf, basis) && Manageable(b, |basis|) && SigOk(v) && Safe(b, |basis|)
    requires |window| <= b && |buf| == OLDBUF_SIZE
    ensures Find(v, WeakSum(window), window, buf).Hit? <==> exists i :: Matches(v, i, WeakSum(window), window)
  {
    hide WeakSum, Safe, BlocksOf, Find;
    FindAgreesWithScan(v, WeakSum(window), window, buf);
    LoadedIsOk(v, b, strongLen, strongOf, basis);
    var h := Find(v, WeakSum(window), window, buf);
    if h.Hit? {
      var i :| 0 <= i < |v.blocks| && h.pos == Mul(i, b) && v.blocks[i].weak == WeakSum(window);
      if h.pos + |window| > |basis| {
        ShortBlock(b, |basis|, i, |window|);
        var last := BlockAt(b, basis, i);
        assert last == basis[h.pos..];
        assert window[..|last|] == last;
        ExtensionShows(last, window);
        assert false;
      } else {
        assert basis[h.pos..][..|window|] == window;
        assert Matches(v, i, WeakSum(window), window);
      }
    }
  }

  /** Surroundings in which the search buffer always starts out as zeros. */
  function CleanEnv(outbuflen: nat): (env: Env) {
    Env([], outbuflen, n => Repeat<Byte>(0, STRONG_LENGTH), n => Repeat<Byte>(0, OLDBUF_SIZE))
  }

  /** The delta as a function of signature, new file and output buffer size alone. */
  ghost function ReferenceDelta(v: SigValue, outbuflen: nat, newFile: seq<Byte>): (delta: seq<Byte>)
    requires SigOk(v) && outbuflen < TWO_31 && |newFile| < TWO_63
  {
    DeltaOf(RulesOf(v, CleanEnv(outbuflen)), newFile)
  }

  /** Whatever uninitialised memory holds at each search, the delta is the reference one. */
  lemma {:induction false} DeltaIgnoresStale(v: SigValue, env: Env, b: nat, strongLen: nat, strongOf: nat -> seq<Byte>,
                                             basis: seq<Byte>, newFile: seq<Byte>)
    requires Loaded(v, b, strongLen, strongOf, basis) && Manageable(b, |basis|) && SigOk(v) && Safe(b, |basis|)
    requires EnvOk(env) && |newFile| < TWO_63
    ensures DeltaOf(RulesOf(v, env), newFile) == ReferenceDelta(v, env.outbuflen, newFile)
  {
    hide Safe, BlocksOf, Find, EncodeAll, Scan, Indexed;
    var clean := CleanEnv(env.outbuflen);
    forall n: nat, u: seq<Byte> ensures Look(v, env, n, u) == Look(v, clean, n, u) {
      FindIgnoresStale(v, b, strongLen, strongOf, basis, u[..Min(b, |u|)], env.staleOf(n), clean.staleOf(n));
    }
    SameSearchSameScan(RulesOf(v, env), RulesOf(v, clean), 0, newFile, Nothing);
  }
}
