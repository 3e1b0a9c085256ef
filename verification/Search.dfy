/** search.c: the tag index over block sums, and the search that uses it. */
module Search {
  import opened Bytes
  import opened Sumset

  const TABLE_SIZE := TWO_16
  const NULL_TAG := -1
  const OLDBUF_SIZE := 16000

  datatype Hit = NoHit | Hit(pos: nat)

  /** gettag. */
  function Tag(weak: nat): (r: nat) {
    (weak % TWO_16 + weak / TWO_16) % TWO_16
  }

  // ---------------------------------------------------------------------
  // The index
  // ---------------------------------------------------------------------

  /** Every target carries the tag of the block it names. */
  ghost predicate TargetsTrue(v: SigValue) {
    && (forall j :: 0 <= j < |v.targets| ==> v.targets[j].i < |v.blocks|)
    && (forall j :: 0 <= j < |v.targets| ==> v.targets[j].t == Tag(v.blocks[v.targets[j].i].weak))
  }

  ghost predicate SortedByTag(ts: seq<Target>) {
    forall j, k :: 0 <= j < k < |ts| ==> ts[j].t <= ts[k].t
  }

  /** The targets name every block. */
  ghost predicate AllListed(v: SigValue) {
    forall i :: 0 <= i < |v.blocks| ==> Target(Tag(v.blocks[i].weak), i) in v.targets
  }

  /** `j` is where the run of targets with tag `t` starts, if there is one. */
  ghost predicate StartsAt(ts: seq<Target>, t: nat, j: int) {
    if j == NULL_TAG then forall k :: 0 <= k < |ts| ==> ts[k].t != t
    else 0 <= j < |ts| && ts[j].t == t && forall k :: 0 <= k < j ==> ts[k].t != t
  }

  ghost predicate Indexed(v: SigValue) {
    && TargetsTrue(v) && SortedByTag(v.targets) && AllListed(v)
    && |v.tagTable| == TABLE_SIZE
    && forall t :: 0 <= t < TABLE_SIZE ==> StartsAt(v.targets, t, v.tagTable[t])
  }

  /** Insertion of one target before the first larger tag. */
  method Insert(ts: seq<Target>, x: Target) returns (r: seq<Target>)
    requires SortedByTag(ts)
    ensures SortedByTag(r) && multiset(r) == multiset(ts) + multiset{x}
  {
    var k := 0;
    while k < |ts| && ts[k].t <= x.t
      invariant k <= |ts|
      invariant forall j :: 0 <= j < k ==> ts[j].t <= x.t
    {
      k := k + 1;
    }
    InsertedSorts(ts, x, k);
    r := ts[..k] + [x] + ts[k..];
  }

  lemma {:induction false} InsertedSorts(ts: seq<Target>, x: Target, k: nat)
    requires SortedByTag(ts) && k <= |ts| && (forall j :: 0 <= j < k ==> ts[j].t <= x.t)
    requires k < |ts| ==> x.t < ts[k].t
    ensures var r := ts[..k] + [x] + ts[k..]; SortedByTag(r) && multiset(r) == multiset(ts) + multiset{x}
  {
    assert ts == ts[..k] + ts[k..];
    var r := ts[..k] + [x] + ts[k..];
    forall a, b | 0 <= a < b < |r| ensures r[a].t <= r[b].t {
      assert b > k ==> r[b] == ts[b - 1] && (k < |ts| && ts[k].t <= r[b].t);
      assert a > k ==> r[a] == ts[a - 1];
    }
  }

  /** qsort: nothing is relied on but that the result is a tag-sorted permutation. */
  method QSort(ts: seq<Target>) returns (r: seq<Target>)
    ensures SortedByTag(r) && multiset(r) == multiset(ts)
  {
    r := [];
    for k := 0 to |ts|
      invariant SortedByTag(r) && multiset(r) == multiset(ts[..k])
    {
      assert ts[..k + 1] == ts[..k] + [ts[k]];
      r := Insert(r, ts[k]);
    }
    assert ts[..|ts|] == ts;
  }

  /** rs_build_hash_table. */
  method BuildHashTable(sig: Signature)
    modifies sig`targets, sig`tagTable
    ensures Indexed(sig.Value())
  {
    var targets := FillTargets(sig.blocks);
    sig.targets := QSort(targets);
    SameMembers(targets, sig.targets);
    forall j | 0 <= j < |sig.targets|
      ensures sig.targets[j].i < |sig.blocks| && sig.targets[j].t == Tag(sig.blocks[sig.targets[j].i].weak)
    {
      assert sig.targets[j] in targets;
    }
    forall i | 0 <= i < |sig.blocks|
      ensures Target(Tag(sig.blocks[i].weak), i) in sig.targets
    {
      assert targets[i] in targets;
    }
    sig.tagTable := FillTable(sig.targets);
  }

  method FillTargets(blocks: seq<BlockSig>) returns (ts: seq<Target>)
    ensures |ts| == |blocks|
    ensures forall k :: 0 <= k < |ts| ==> ts[k] == Target(Tag(blocks[k].weak), k)
  {
    ts := [];
    for i := 0 to |blocks|
      invariant |ts| == i
      invariant forall k :: 0 <= k < i ==> ts[k] == Target(Tag(blocks[k].weak), k)
    {
      ts := ts + [Target(Tag(blocks[i].weak), i)];
    }
  }

  /** The descending loop leaves, for each tag, the first target that has it. */
  method FillTable(ts: seq<Target>) returns (table: seq<int>)
    requires forall j :: 0 <= j < |ts| ==> ts[j].t < TABLE_SIZE
    ensures |table| == TABLE_SIZE
    ensures forall t :: 0 <= t < TABLE_SIZE ==> StartsAt(ts, t, table[t])
  {
    table := Repeat(NULL_TAG, TABLE_SIZE);
    var i := |ts| - 1;
    while i >= 0
      invariant -1 <= i < |ts|
      invariant |table| == TABLE_SIZE
      invariant forall t :: 0 <= t < TABLE_SIZE ==> StartsFrom(ts, t, table[t], i + 1)
    {
      table := table[ts[i].t := i];
      i := i - 1;
    }
  }

  /** As StartsAt, for the targets from `from` on. */
  ghost predicate StartsFrom(ts: seq<Target>, t: nat, j: int, from: nat) {
    if j == NULL_TAG then forall k :: from <= k < |ts| ==> ts[k].t != t
    else from <= j < |ts| && ts[j].t == t && forall k :: from <= k < j ==> ts[k].t != t
  }

  lemma {:induction false} SameMembers(a: seq<Target>, b: seq<Target>)
    requires multiset(a) == multiset(b)
    ensures forall x :: x in a <==> x in b
  {
    forall x ensures x in a <==> x in b {
      assert x in a <==> x in multiset(a);
      assert x in b <==> x in multiset(b);
    }
  }

  /** Every list of block sums has an index. */
  lemma {:induction false} IndexExists(v: SigValue) returns (w: SigValue)
    ensures Indexed(w) && w == v.(targets := w.targets, tagTable := w.tagTable)
  {
    var ts := SortedTargets(v.blocks, |v.blocks|);
    var table := seq(TABLE_SIZE, t requires 0 <= t < TABLE_SIZE => FirstOf(ts, t, 0));
    w := v.(targets := ts, tagTable := table);
    forall t | 0 <= t < TABLE_SIZE ensures StartsAt(ts, t, table[t]) {
      FirstOfStarts(ts, t, 0);
    }
  }

  /** The targets of the first n blocks, sorted. */
  lemma {:induction false} SortedTargets(blocks: seq<BlockSig>, n: nat) returns (ts: seq<Target>)
    requires n <= |blocks|
    ensures SortedByTag(ts)
    ensures forall j :: 0 <= j < |ts| ==> ts[j].i < n && ts[j].t == Tag(blocks[ts[j].i].weak)
    ensures forall i :: 0 <= i < n ==> Target(Tag(blocks[i].weak), i) in ts
  {
    if n == 0 {
      ts := [];
    } else {
      var rest := SortedTargets(blocks, n - 1);
      var x := Target(Tag(blocks[n - 1].weak), n - 1);
      var k := 0;
      while k < |rest| && rest[k].t <= x.t
        invariant 0 <= k <= |rest|
        invariant forall j :: 0 <= j < k ==> rest[j].t <= x.t
      {
        k := k + 1;
      }
      ts := rest[..k] + [x] + rest[k..];
      InsertedSorts(rest, x, k);
      InsertedMembers(rest, x, k);
    }
  }

  lemma {:induction false} InsertedMembers(ts: seq<Target>, x: Target, k: nat)
    requires k <= |ts|
    ensures forall y :: y in ts[..k] + [x] + ts[k..] <==> y == x || y in ts
  {
    assert ts == ts[..k] + ts[k..];
  }

  /** The first target with the tag from position `from` on, or NULL_TAG. */
  function FirstOf(ts: seq<Target>, t: nat, from: nat): (j: int)
    requires from <= |ts|
    decreases |ts| - from
  {
    if from == |ts| then NULL_TAG else if ts[from].t == t then from else FirstOf(ts, t, from + 1)
  }

  lemma {:induction false} FirstOfStarts(ts: seq<Target>, t: nat, from: nat)
    requires from <= |ts|
    ensures StartsFrom(ts, t, FirstOf(ts, t, from), from)
    decreases |ts| - from
  {
    if from < |ts| {
      FirstOfStarts(ts, t, from + 1);
    }
  }

  // ---------------------------------------------------------------------
  // The search
  // ---------------------------------------------------------------------

  /** A signature the delta job may be run with. */
  ghost predicate SigOk(v: SigValue) {
    && 1 <= v.blockLen <= OLDBUF_SIZE
    && |v.blocks| * v.blockLen <= TWO_31
    && Indexed(v)
    && forall i :: 0 <= i < |v.blocks| ==> v.blocks[i].i == i + 1
  }

  /** fread into the front of a buffer; a short file leaves the tail as it was. */
  function Fread(file: seq<Byte>, pos: nat, n: nat, buf: seq<Byte>): (r: seq<Byte>)
    requires n <= |buf|
    ensures |r| == |buf|
  {
    var k := if pos + n <= |file| then n else if pos <= |file| then |file| - pos else 0;
    (if k == 0 then [] else file[pos..pos + k]) + buf[k..]
  }

  /** What the loop of rs_search_for_block finds from target `j` on. */
  ghost function Probe(v: SigValue, j: nat, weak: nat, window: seq<Byte>, oldbuf: seq<Byte>): (r: Hit)
    requires SigOk(v) && |window| <= v.blockLen && |oldbuf| == OLDBUF_SIZE
    decreases |v.targets| - j
  {
    if j >= |v.targets| || v.targets[j].t != Tag(weak) then NoHit else
    var i := v.targets[j].i;
    if v.blocks[i].weak != weak then Probe(v, j + 1, weak, window, oldbuf) else
    var buf := Fread(v.oldFile, i * v.blockLen, v.blockLen, oldbuf);
    if window <= buf then Hit((v.blocks[i].i - 1) * v.blockLen)
    else Probe(v, j + 1, weak, window, buf)
  }

  ghost function Find(v: SigValue, weak: nat, window: seq<Byte>, oldbuf: seq<Byte>): (r: Hit)
    requires SigOk(v) && |window| <= v.blockLen && |oldbuf| == OLDBUF_SIZE
  {
    var j := v.tagTable[Tag(weak)];
    assert StartsAt(v.targets, Tag(weak), j);
    if j == NULL_TAG then NoHit else Probe(v, j, weak, window, oldbuf)
  }

  /** rs_search_for_block. */
  method SearchForBlock(weak: nat, window: seq<Byte>, sig: Signature, stale: seq<Byte>) returns (hit: Hit)
    requires SigOk(sig.Value()) && |window| <= sig.blockLen && |stale| == OLDBUF_SIZE
    ensures hit == Find(sig.Value(), weak, window, stale)
  {
    hide Fread, AllListed, SortedByTag;
    var hashTag := Tag(weak);
    ghost var v := sig.Value();
    var j := sig.tagTable[hashTag];
    assert StartsAt(v.targets, hashTag, v.tagTable[hashTag]);
    var oldbuf := stale;
    if j == NULL_TAG {
      return NoHit;
    }
    while j < |sig.targets| && sig.targets[j].t == hashTag
      invariant 0 <= j <= |sig.targets|
      invariant |oldbuf| == OLDBUF_SIZE
      invariant Probe(v, j, weak, window, oldbuf) == Find(v, weak, window, stale)
      decreases |sig.targets| - j
    {
      var i := sig.targets[j].i;
      if weak == sig.blocks[i].weak {
        oldbuf := Fread(sig.oldFile, i * sig.blockLen, sig.blockLen, oldbuf);
        var token := sig.blocks[i].i;
        if window <= oldbuf {
          return Hit((token - 1) * sig.blockLen);
        }
      }
      j := j + 1;
    }
    return NoHit;
  }

  // ---------------------------------------------------------------------
  // The search agrees with a scan over all blocks
  // ---------------------------------------------------------------------

  /** Block `i` has the wanted sum, and all of the window is really there. */
  ghost predicate Matches(v: SigValue, i: int, weak: nat, window: seq<Byte>) {
    && 0 <= i < |v.blocks| && v.blocks[i].weak == weak && v.blockLen >= 0
    && Mul(i, v.blockLen) + |window| <= |v.oldFile|
    && v.oldFile[Mul(i, v.blockLen)..][..|window|] == window
  }

  function Mul(i: nat, b: nat): (r: nat) {
    i * b
  }

  /** As far as the file goes, its bytes at `pos` are the window's. */
  ghost predicate Agrees(v: SigValue, pos: nat, window: seq<Byte>) {
    forall k :: 0 <= k < |window| && pos + k < |v.oldFile| ==> v.oldFile[pos + k] == window[k]
  }

  lemma {:induction false} Offsets(v: SigValue, i: nat)
    requires SigOk(v) && i < |v.blocks|
    ensures 0 <= i * v.blockLen < TWO_31
  {
    InsideWhole(|v.blocks|, i, v.blockLen);
  }

  lemma {:induction false} FreadPrefix(file: seq<Byte>, pos: nat, n: nat, buf: seq<Byte>, k: nat)
    requires k <= n <= |buf| && pos + k <= |file|
    ensures Fread(file, pos, n, buf)[..k] == file[pos..][..k]
  {
  }

  /** A hit names a block with the wanted sum, and its bytes are the window's. */
  lemma {:induction false} ProbeSound(v: SigValue, j: nat, weak: nat, window: seq<Byte>, oldbuf: seq<Byte>)
    requires SigOk(v) && |window| <= v.blockLen && |oldbuf| == OLDBUF_SIZE
    ensures var h := Probe(v, j, weak, window, oldbuf);
            h.Hit? ==> && h.pos < TWO_31 && Agrees(v, h.pos, window)
                       && exists i :: 0 <= i < |v.blocks| && h.pos == Mul(i, v.blockLen) && v.blocks[i].weak == weak
    decreases |v.targets| - j
  {
    if j < |v.targets| && v.targets[j].t == Tag(weak) {
      var i := v.targets[j].i;
      if v.blocks[i].weak != weak {
        ProbeSound(v, j + 1, weak, window, oldbuf);
      } else {
        var pos := i * v.blockLen;
        Offsets(v, i);
        var buf := Fread(v.oldFile, pos, v.blockLen, oldbuf);
        if window <= buf {
          assert pos == Mul(i, v.blockLen);
          assert forall k :: 0 <= k < v.blockLen && pos + k < |v.oldFile| ==> buf[k] == v.oldFile[pos + k];
        } else {
          ProbeSound(v, j + 1, weak, window, buf);
        }
      }
    }
  }

  /** No run of targets is left before reaching a block that matches. */
  lemma {:induction false} ProbeComplete(v: SigValue, j: nat, k: nat, weak: nat, window: seq<Byte>, oldbuf: seq<Byte>)
    requires SigOk(v) && |window| <= v.blockLen && |oldbuf| == OLDBUF_SIZE
    requires j <= k < |v.targets| && v.targets[j].t == Tag(weak) == v.targets[k].t
    requires Matches(v, v.targets[k].i, weak, window)
    ensures Probe(v, j, weak, window, oldbuf).Hit?
    decreases |v.targets| - j
  {
    var i := v.targets[j].i;
    var pos := i * v.blockLen;
    if j < k {
      SameTagBetween(v.targets, j, k);
    }
    if v.blocks[i].weak != weak {
      ProbeComplete(v, j + 1, k, weak, window, oldbuf);
    } else if j == k {
      FreadPrefix(v.oldFile, pos, v.blockLen, oldbuf, |window|);
    } else {
      ProbeComplete(v, j + 1, k, weak, window, Fread(v.oldFile, pos, v.blockLen, oldbuf));
    }
  }

  lemma {:induction false} SameTagBetween(ts: seq<Target>, j: nat, k: nat)
    requires SortedByTag(ts) && j < k < |ts| && ts[j].t == ts[k].t
    ensures ts[j + 1].t == ts[k].t
  {
    assert ts[j].t <= ts[j + 1].t;
    assert j + 1 == k || ts[j + 1].t <= ts[k].t;
  }

  /** Whatever the sort did with equal tags and whatever the buffer held before:
      every matching block is found, and what is found agrees with the file. */
  lemma {:induction false} FindAgreesWithScan(v: SigValue, weak: nat, window: seq<Byte>, oldbuf: seq<Byte>)
    requires SigOk(v) && |window| <= v.blockLen && |oldbuf| == OLDBUF_SIZE
    ensures var h := Find(v, weak, window, oldbuf);
            && ((exists i :: Matches(v, i, weak, window)) ==> h.Hit?)
            && (h.Hit? ==> && h.pos < TWO_31 && Agrees(v, h.pos, window)
                           && exists i ::
                                0 <= i < |v.blocks| && h.pos == Mul(i, v.blockLen) && v.blocks[i].weak == weak)
  {
    var t := Tag(weak);
    var j := v.tagTable[t];
    assert StartsAt(v.targets, t, j);
    if i :| Matches(v, i, weak, window) {
      assert Target(t, i) in v.targets;
      var k :| 0 <= k < |v.targets| && v.targets[k] == Target(t, i);
      assert v.targets[k].t == t;
      ProbeComplete(v, j, k, weak, window, oldbuf);
    }
    if j != NULL_TAG {
      ProbeSound(v, j, weak, window, oldbuf);
    }
  }

  /** When the old file is a whole number of blocks, a hit is exactly a block with
      equal sum and equal bytes. */
  lemma {:induction false} HitIffMatch(v: SigValue, weak: nat, window: seq<Byte>, oldbuf: seq<Byte>)
    requires SigOk(v) && |window| <= v.blockLen && |oldbuf| == OLDBUF_SIZE
    requires |v.oldFile| == |v.blocks| * v.blockLen
    ensures Find(v, weak, window, oldbuf).Hit? <==> exists i :: Matches(v, i, weak, window)
  {
    FindAgreesWithScan(v, weak, window, oldbuf);
    var h := Find(v, weak, window, oldbuf);
    if h.Hit? {
      var i :| 0 <= i < |v.blocks| && h.pos == Mul(i, v.blockLen) && v.blocks[i].weak == weak;
      InsideWhole(|v.blocks|, i, v.blockLen);
      assert v.oldFile[Mul(i, v.blockLen)..][..|window|] == window;
      assert Matches(v, i, weak, window);
    }
  }

  lemma {:induction false} InsideWhole(n: nat, i: nat, b: nat)
    requires i < n
    ensures Mul(i, b) + b <= n * b
  {
    var m: nat := n - i - 1;
    MulSplit(i, m, b);
  }

  lemma {:induction false} MulSplit(i: nat, m: nat, b: nat)
    ensures (i + 1 + m) * b == Mul(i, b) + b + Mul(m, b) && Mul(m, b) >= 0
  {
  }

  /** Nothing downstream reads the strong sums. */
  ghost predicate SameButStrong(v: SigValue, u: SigValue) {
    && v == u.(blocks := v.blocks) && |v.blocks| == |u.blocks|
    && forall i :: 0 <= i < |v.blocks| ==> v.blocks[i].i == u.blocks[i].i && v.blocks[i].weak == u.blocks[i].weak
  }

  lemma {:induction false} StrongSumsIgnored(v: SigValue, u: SigValue, j: nat, weak: nat, window: seq<Byte>,
                                             oldbuf: seq<Byte>)
    requires SigOk(v) && SigOk(u) && SameButStrong(v, u)
    requires |window| <= v.blockLen && |oldbuf| == OLDBUF_SIZE
    ensures Probe(v, j, weak, window, oldbuf) == Probe(u, j, weak, window, oldbuf)
    decreases |v.targets| - j
  {
    if j < |v.targets| && v.targets[j].t == Tag(weak) {
      var i := v.targets[j].i;
      if v.blocks[i].weak != weak {
        StrongSumsIgnored(v, u, j + 1, weak, window, oldbuf);
      } else {
        var buf := Fread(v.oldFile, i * v.blockLen, v.blockLen, oldbuf);
        StrongSumsIgnored(v, u, j + 1, weak, window, buf);
      }
    }
  }
}
