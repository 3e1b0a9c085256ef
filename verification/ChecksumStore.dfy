/** syncchecksum.c: one weak sum per 2 KiB block of every file, kept in the client's
    key-value store while files are written, extended and truncated. */
module ChecksumStore {
  import opened Bytes
  import opened Checksums
  import opened Files

  /** The keys of a file's block sums: the path, then the block number as a 32-bit word. */
  function Key(path: seq<Byte>, block: nat): (r: seq<Byte>) {
    path + Le(block, 4)
  }

  /** No two blocks share a key, whatever their paths. */
  lemma {:induction false} KeysDiffer(p: seq<Byte>, j: nat, q: seq<Byte>, k: nat)
    requires j < TWO_32 && k < TWO_32 && Key(p, j) == Key(q, k)
    ensures p == q && j == k
  {
    var s := Key(p, j);
    assert |Le(j, 4)| == 4 == |Le(k, 4)|;
    assert p == s[..|s| - 4] == q;
    assert Le(j, 4) == s[|s| - 4..] == Le(k, 4);
    WordRoundTrip(j, 4);
    WordRoundTrip(k, 4);
  }

  /** The store keeps timestamps under bare paths: C strings, which hold no zero byte.
      Below 32 GiB no block key looks like one. */
  lemma {:induction false} KeysAreNoPaths(p: seq<Byte>, k: nat, path: seq<Byte>)
    requires k < 0x100_0000 && 0 !in path
    ensures Key(p, k) != path
  {
    var s := Key(p, k);
    var word := Le(k, 4);
    assert word == [k % 256] + Le(k / 256, 3);
    assert Le(k / 256, 3) == [k / 256 % 256] + Le(k / 256 / 256, 2);
    assert Le(k / 256 / 256, 2) == [k / 256 / 256 % 256] + Le(k / 256 / 256 / 256, 1);
    assert Le(k / 256 / 256 / 256, 1) == [0];
    assert word[3] == 0;
    assert s[|s| - 1] == 0;
  }

  /** Block k of a file, filled up with zeros. */
  function BlockOf(file: seq<Byte>, k: nat): (r: seq<Byte>)
    ensures |r| == BLOCK_LEN
    ensures forall t :: 0 <= t < BLOCK_LEN ==> r[t] == ByteAt(file, k * BLOCK_LEN + t)
  {
    seq<Byte>(BLOCK_LEN, t requires 0 <= t => ByteAt(file, k * BLOCK_LEN + t))
  }

  ghost function SumOf(file: seq<Byte>, k: nat): (r: nat) {
    WeakSum(BlockOf(file, k))
  }

  /** The store has the right sum for block k. */
  ghost predicate Right(db: map<seq<Byte>, nat>, path: seq<Byte>, file: seq<Byte>, k: nat) {
    Key(path, k) in db && db[Key(path, k)] == SumOf(file, k)
  }

  /** Every block within the file has its sum in the store. */
  ghost predicate Holds(db: map<seq<Byte>, nat>, path: seq<Byte>, file: seq<Byte>) {
    forall k: nat :: k * BLOCK_LEN < |file| ==> Right(db, path, file, k)
  }

  /** Nothing changed but the sums of blocks lo to hi of one file. */
  ghost predicate OnlyBlocks(before: map<seq<Byte>, nat>, after: map<seq<Byte>, nat>, path: seq<Byte>, lo: nat,
                             hi: int) {
    && before.Keys <= after.Keys
    && forall key :: key in after && (forall k: nat :: lo <= k <= hi ==> key != Key(path, k)) ==>
                       key in before && after[key] == before[key]
  }

  /** The last block an access touches: an empty one still touches the block it points at. */
  function LastBlock(offset: nat, size: nat): (r: nat) {
    if size == 0 then offset / BLOCK_LEN else (offset + size - 1) / BLOCK_LEN
  }

  /** The bytes of `data` are in the file at `offset`. */
  ghost predicate Present(file: seq<Byte>, offset: nat, data: seq<Byte>) {
    forall i :: 0 <= i < |data| ==> ByteAt(file, offset + i) == data[i]
  }

  // ---------------------------------------------------------------------
  // Blocks and bytes
  // ---------------------------------------------------------------------

  lemma {:induction false} SameBlock(f: seq<Byte>, g: seq<Byte>, k: nat)
    requires forall p: nat :: k * BLOCK_LEN <= p < k * BLOCK_LEN + BLOCK_LEN ==> ByteAt(f, p) == ByteAt(g, p)
    ensures BlockOf(f, k) == BlockOf(g, k)
  {
    forall t | 0 <= t < BLOCK_LEN ensures BlockOf(f, k)[t] == BlockOf(g, k)[t] {
      assert ByteAt(f, k * BLOCK_LEN + t) == ByteAt(g, k * BLOCK_LEN + t);
    }
  }

  lemma {:induction false} BlockBeyondEnd(file: seq<Byte>, k: nat)
    requires |file| <= k * BLOCK_LEN
    ensures SumOf(file, k) == ZERO_BLOCK
  {
    ZeroBlockSum();
    assert BlockOf(file, k) == Repeat<Byte>(0, BLOCK_LEN);
  }

  /** memcpy of bytes that are there already. */
  function Overlay(block: seq<Byte>, at: nat, data: seq<Byte>): (r: seq<Byte>)
    requires at + |data| <= |block|
  {
    block[..at] + data + block[at + |data|..]
  }

  lemma {:induction false} OverlayOfPresent(file: seq<Byte>, k: nat, at: nat, data: seq<Byte>)
    requires at + |data| <= BLOCK_LEN && Present(file, k * BLOCK_LEN + at, data)
    ensures Overlay(BlockOf(file, k), at, data) == BlockOf(file, k)
  {
    var b := BlockOf(file, k);
    forall i | 0 <= i < |data| ensures b[at + i] == data[i] {
      assert ByteAt(file, k * BLOCK_LEN + at + i) == data[i];
    }
  }

  /** A block's worth of `data`, taken as it is. */
  lemma {:induction false} BlockFromData(file: seq<Byte>, offset: nat, data: seq<Byte>, done: nat, k: nat)
    requires Present(file, offset, data) && offset + done == k * BLOCK_LEN && done + BLOCK_LEN <= |data|
    ensures data[done..done + BLOCK_LEN] == BlockOf(file, k)
  {
    forall t | 0 <= t < BLOCK_LEN ensures data[done + t] == BlockOf(file, k)[t] {
      assert ByteAt(file, offset + (done + t)) == data[done + t];
    }
  }

  lemma {:induction false} OnlyBlocksJoin(a: map<seq<Byte>, nat>, b: map<seq<Byte>, nat>, c: map<seq<Byte>, nat>,
                                          path: seq<Byte>, lo: nat, hi: int, l: nat, h: int, m: nat, n: int)
    requires OnlyBlocks(a, b, path, l, h) && OnlyBlocks(b, c, path, m, n)
    requires lo <= l && h <= hi && lo <= m && n <= hi
    ensures OnlyBlocks(a, c, path, lo, hi)
  {
    forall key | key in c && (forall k: nat :: lo <= k <= hi ==> key != Key(path, k))
      ensures key in a && c[key] == a[key]
    {
      assert forall k: nat :: m <= k <= n ==> key != Key(path, k);
      assert key in b && forall k: nat :: l <= k <= h ==> key != Key(path, k);
    }
  }

  /** The sums of other blocks of the file stay right. */
  lemma {:induction false} OthersStayRight(before: map<seq<Byte>, nat>, after: map<seq<Byte>, nat>, path: seq<Byte>,
                                           lo: nat, hi: nat, file: seq<Byte>, k: nat)
    requires OnlyBlocks(before, after, path, lo, hi) && Right(before, path, file, k)
    requires k < TWO_32 && hi < TWO_32 && (k < lo || hi < k)
    ensures Right(after, path, file, k)
  {
    forall j: nat | lo <= j <= hi ensures Key(path, k) != Key(path, j) {
      if Key(path, k) == Key(path, j) {
        KeysDiffer(path, k, path, j);
      }
    }
  }

  // ---------------------------------------------------------------------
  // The store
  // ---------------------------------------------------------------------

  datatype Verdict = Accepted | Rejected | NoSum   // NoSum: the result of leveldb_get is a null pointer

  /** What the store says of a block with the given sum. */
  function Judge(db: map<seq<Byte>, nat>, path: seq<Byte>, block: nat, sum: nat): (r: Verdict) {
    if Key(path, block) !in db then NoSum
    else if db[Key(path, block)] != sum then Rejected
    else Accepted
  }

  /** The first verdict other than acceptance on the blocks from k up to `end`. */
  ghost function JudgeAll(db: map<seq<Byte>, nat>, path: seq<Byte>, file: seq<Byte>, k: nat, end: nat): (r: Verdict)
    decreases end - k
  {
    if k >= end then Accepted else
    var v := Judge(db, path, k, SumOf(file, k));
    if v != Accepted then v else JudgeAll(db, path, file, k + 1, end)
  }

  /** Acceptance means exactly that every sum is there and right. */
  lemma {:induction false} AcceptedIffRight(db: map<seq<Byte>, nat>, path: seq<Byte>, file: seq<Byte>, k: nat, end: nat)
    ensures JudgeAll(db, path, file, k, end) == Accepted <==> forall j :: k <= j < end ==> Right(db, path, file, j)
    decreases end - k
  {
    if k < end {
      hide SumOf, Right;
      AcceptedIffRight(db, path, file, k + 1, end);
      JudgeIsRight(db, path, file, k);
      assert (forall j :: k <= j < end ==> Right(db, path, file, j)) <==>
             Right(db, path, file, k) && forall j :: k + 1 <= j < end ==> Right(db, path, file, j);
    }
  }

  /** The verdict is about the first block that is not right: its sum differs, or there is none. */
  lemma {:induction false} VerdictOfFirst(db: map<seq<Byte>, nat>, path: seq<Byte>, file: seq<Byte>, k: nat, end: nat,
                                          j: nat)
    requires k <= j < end && !Right(db, path, file, j) && forall i :: k <= i < j ==> Right(db, path, file, i)
    ensures JudgeAll(db, path, file, k, end) == if Key(path, j) in db then Rejected else NoSum
    decreases j - k
  {
    hide SumOf;
    if k < j {
      assert Right(db, path, file, k);
      VerdictOfFirst(db, path, file, k + 1, end, j);
    }
  }

  lemma {:induction false} JudgeIsRight(db: map<seq<Byte>, nat>, path: seq<Byte>, file: seq<Byte>, k: nat)
    ensures Judge(db, path, k, SumOf(file, k)) == Accepted <==> Right(db, path, file, k)
  {
  }

  /** Number of blocks a file of that size has sums for. */
  function BlocksUpTo(size: nat): (r: nat) {
    if size > 0 then (size - 1) / BLOCK_LEN + 1 else 0
  }

  class Store {
    var db: map<seq<Byte>, nat>

    constructor ()
      ensures db == map[]
    {
      db := map[];
    }

    /** leveldb_put of the sum of one block. */
    method Put(path: seq<Byte>, block: nat, data: seq<Byte>)
      requires block < TWO_32
      modifies this
      ensures db == old(db)[Key(path, block) := WeakSum(data)]
    {
      var tmpsum := CalcWeakSum(data);
      db := db[Key(path, block) := tmpsum];
    }

    /** Read a block, lay the written bytes over it, and store its sum. */
    method Refresh(path: seq<Byte>, block: nat, at: nat, data: seq<Byte>, file: seq<Byte>)
      requires block < TWO_32 && at + |data| <= BLOCK_LEN && Present(file, block * BLOCK_LEN + at, data)
      modifies this
      ensures Right(db, path, file, block) && OnlyBlocks(old(db), db, path, block, block)
    {
      OverlayOfPresent(file, block, at, data);
      var tmpblk := Overlay(BlockOf(file, block), at, data);
      Put(path, block, tmpblk);
    }

    /** The middle part of checksum_update: whole blocks, straight from the buffer. */
    method UpdateWhole(path: seq<Byte>, buf: seq<Byte>, offset: nat, file: seq<Byte>, first: nat, from: nat, last: nat)
      returns (remainder: nat)
      requires Present(file, offset, buf) && offset + from == first * BLOCK_LEN
      requires first <= last < TWO_32 && last * BLOCK_LEN <= offset + |buf|
      modifies this
      ensures offset + remainder == last * BLOCK_LEN
      ensures forall k :: first <= k < last ==> Right(db, path, file, k)
      ensures OnlyBlocks(old(db), db, path, first, last - 1)
    {
      hide Key, WeakSum;
      remainder := from;
      var key, curOffset := first, first * BLOCK_LEN;
      while curOffset < last * BLOCK_LEN
        invariant first <= key <= last && curOffset == key * BLOCK_LEN == offset + remainder
        invariant forall k :: first <= k < key ==> Right(db, path, file, k)
        invariant OnlyBlocks(old(db), db, path, first, key - 1)
      {
        ghost var before := db;
        BlockFromData(file, offset, buf, remainder, key);
        Put(path, key, buf[remainder..remainder + BLOCK_LEN]);
        forall k | first <= k < key ensures Right(db, path, file, k) {
          OthersStayRight(before, db, path, key, key, file, k);
        }
        key := key + 1;
        remainder := remainder + BLOCK_LEN;
        curOffset := curOffset + BLOCK_LEN;
      }
    }

    /** checksum_update, after the bytes have been written to the file. */
    method Update(path: seq<Byte>, buf: seq<Byte>, offset: nat, file: seq<Byte>)
      requires offset + |buf| < TWO_32 && Present(file, offset, buf)
      modifies this
      ensures forall k :: offset / BLOCK_LEN <= k <= LastBlock(offset, |buf|) ==> Right(db, path, file, k)
      ensures OnlyBlocks(old(db), db, path, offset / BLOCK_LEN, LastBlock(offset, |buf|))
    {
      hide Key, WeakSum, SumOf, BlockOf, OnlyBlocks, Right;
      var size := |buf|;
      var first, last := offset / BLOCK_LEN, (offset + size) / BLOCK_LEN;
      if first == last {
        Refresh(path, first, offset % BLOCK_LEN, buf, file);
        return;
      }
      var next, remainder := first, 0;
      if offset % BLOCK_LEN != 0 {
        remainder := BLOCK_LEN - offset % BLOCK_LEN;
        Refresh(path, first, offset % BLOCK_LEN, buf[..remainder], file);
        next := first + 1;
      }
      ghost var start, before := old(db), db;
      remainder := UpdateWhole(path, buf, offset, file, next, remainder, last);
      if next != first {
        OthersStayRight(before, db, path, next, last - 1, file, first);
        OnlyBlocksJoin(start, before, db, path, first, last - 1, first, first, next, last - 1);
      }
      if (offset + size) % BLOCK_LEN != 0 {
        before := db;
        Refresh(path, last, 0, buf[remainder..], file);
        forall k | first <= k < last ensures Right(db, path, file, k) {
          OthersStayRight(before, db, path, last, last, file, k);
        }
        OnlyBlocksJoin(start, before, db, path, first, last, first, last - 1, last, last);
      }
    }

    /** checksum_enlarge: the blocks behind the old end read as zeros. */
    method Enlarge(path: seq<Byte>, oldsize: nat, newsize: nat)
      requires oldsize < newsize < TWO_32
      modifies this
      ensures forall k :: BlocksUpTo(oldsize) <= k <= (newsize - 1) / BLOCK_LEN ==>
                            Key(path, k) in db && db[Key(path, k)] == ZERO_BLOCK
      ensures OnlyBlocks(old(db), db, path, BlocksUpTo(oldsize), (newsize - 1) / BLOCK_LEN)
    {
      var blockhead := if oldsize > 0 then (oldsize - 1) / BLOCK_LEN + 1 else 0;
      var blockrear := (newsize - 1) / BLOCK_LEN;
      var i := blockhead;
      while i <= blockrear
        invariant blockhead <= i <= blockrear + 1
        invariant forall k :: blockhead <= k < i ==> Key(path, k) in db && db[Key(path, k)] == ZERO_BLOCK
        invariant OnlyBlocks(old(db), db, path, blockhead, i - 1)
      {
        db := db[Key(path, i) := ZERO_BLOCK];
        i := i + 1;
      }
    }

    /** checksum_shrink, before the file is cut to newsize bytes. */
    method Shrink(path: seq<Byte>, newsize: nat, file: seq<Byte>)
      requires newsize <= |file| < TWO_32
      modifies this
      ensures newsize == 0 ==> db == old(db)
      ensures newsize > 0 ==> Right(db, path, file[..newsize], (newsize - 1) / BLOCK_LEN)
      ensures newsize > 0 ==> OnlyBlocks(old(db), db, path, (newsize - 1) / BLOCK_LEN, (newsize - 1) / BLOCK_LEN)
    {
      if newsize == 0 {
        return;
      }
      var blockid := (newsize - 1) / BLOCK_LEN;
      var offset := blockid * BLOCK_LEN;
      var tmpblk := Overlay(Repeat<Byte>(0, BLOCK_LEN), 0, file[offset..newsize]);
      assert tmpblk == BlockOf(file[..newsize], blockid);
      Put(path, blockid, tmpblk);
    }

    /** Compare the sum of one block with the stored one. */
    method CheckBlock(path: seq<Byte>, block: nat, data: seq<Byte>) returns (v: Verdict)
      ensures v == Judge(db, path, block, WeakSum(data))
    {
      var tmpsum := CalcWeakSum(data);
      if Key(path, block) !in db {
        return NoSum;
      }
      return if tmpsum != db[Key(path, block)] then Rejected else Accepted;
    }

    /** checksum_check: what it says of the bytes read is what the stored sums say of the
        blocks they touch, up to the first block that is not accepted. */
    method Check(path: seq<Byte>, buf: seq<Byte>, offset: nat, file: seq<Byte>) returns (v: Verdict)
      requires offset + |buf| < TWO_32 && Present(file, offset, buf)
      ensures v == JudgeAll(db, path, file, offset / BLOCK_LEN, LastBlock(offset, |buf|) + 1)
    {
      hide Key, WeakSum, BlockOf;
      var size := |buf|;
      var first, last := offset / BLOCK_LEN, (offset + size) / BLOCK_LEN;
      if first == last {
        v := CheckBlock(path, first, BlockOf(file, first));
        return;
      }
      var key, remainder := first, 0;
      ghost var end := LastBlock(offset, |buf|) + 1;
      if offset % BLOCK_LEN != 0 {
        v := CheckBlock(path, key, BlockOf(file, key));
        if v != Accepted {
          return;
        }
        remainder := BLOCK_LEN - offset % BLOCK_LEN;
        key := key + 1;
      }
      var curOffset := offset + remainder;
      while curOffset < last * BLOCK_LEN
        invariant first <= key <= last && curOffset == key * BLOCK_LEN == offset + remainder
        invariant JudgeAll(db, path, file, first, end) == JudgeAll(db, path, file, key, end)
      {
        BlockFromData(file, offset, buf, remainder, key);
        v := CheckBlock(path, key, buf[remainder..remainder + BLOCK_LEN]);
        if v != Accepted {
          return;
        }
        remainder := remainder + BLOCK_LEN;
        curOffset := curOffset + BLOCK_LEN;
        key := key + 1;
      }
      if (offset + size) % BLOCK_LEN != 0 {
        v := CheckBlock(path, key, BlockOf(file, key));
        if v != Accepted {
          return;
        }
      }
      return Accepted;
    }
  }

  // ---------------------------------------------------------------------
  // The file and its sums
  // ---------------------------------------------------------------------

  datatype Op = WriteOp(buf: seq<Byte>, offset: nat) | TruncateOp(size: nat)

  /** Operations on offsets below 2^32, as the 32-bit counters demand. */
  predicate OpFits(op: Op) {
    match op
    case WriteOp(buf, offset) => offset + |buf| < TWO_32
    case TruncateOp(size) => size < TWO_32
  }

  function Apply(file: seq<Byte>, op: Op): (r: seq<Byte>) {
    match op
    case WriteOp(buf, offset) => Pwrite(file, offset, buf)
    case TruncateOp(size) => Resized(file, size)
  }

  function ApplyAll(file: seq<Byte>, ops: seq<Op>): (r: seq<Byte>) {
    if ops == [] then file else Apply(ApplyAll(file, ops[..|ops| - 1]), ops[|ops| - 1])
  }

  /** A block no write touches keeps its sum. */
  lemma {:induction false} UntouchedBlock(f: seq<Byte>, buf: seq<Byte>, offset: nat, k: nat)
    requires buf != [] ==> k < offset / BLOCK_LEN || LastBlock(offset, |buf|) < k
    ensures SumOf(Pwrite(f, offset, buf), k) == SumOf(f, k)
  {
    var g := Pwrite(f, offset, buf);
    forall p: nat | k * BLOCK_LEN <= p < k * BLOCK_LEN + BLOCK_LEN ensures ByteAt(g, p) == ByteAt(f, p) {
      assert buf == [] || p < offset || offset + |buf| <= p;
    }
    SameBlock(g, f, k);
  }

  lemma {:induction false} ShrunkBlock(f: seq<Byte>, size: nat, k: nat)
    requires size <= |f| && k * BLOCK_LEN + BLOCK_LEN <= size
    ensures SumOf(f[..size], k) == SumOf(f, k)
  {
    SameBlock(f[..size], f, k);
  }

  lemma {:induction false} GrownBlock(f: seq<Byte>, size: nat, k: nat)
    requires size >= |f|
    ensures SumOf(Resized(f, size), k) == SumOf(f, k)
  {
    SameBlock(Resized(f, size), f, k);
  }

  /** What enlarging brings: the sums are right as far as the new size, although the file
      has not grown yet. */
  ghost predicate HoldsUpTo(db: map<seq<Byte>, nat>, path: seq<Byte>, file: seq<Byte>, size: nat) {
    forall k: nat :: k * BLOCK_LEN < size ==> Right(db, path, file, k)
  }

  lemma {:induction false} EnlargeHolds(before: map<seq<Byte>, nat>, after: map<seq<Byte>, nat>, path: seq<Byte>,
                                        f: seq<Byte>, size: nat)
    requires Holds(before, path, f) && |f| < size < TWO_32
    requires forall k :: BlocksUpTo(|f|) <= k <= (size - 1) / BLOCK_LEN ==>
               Key(path, k) in after && after[Key(path, k)] == ZERO_BLOCK
    requires OnlyBlocks(before, after, path, BlocksUpTo(|f|), (size - 1) / BLOCK_LEN)
    ensures HoldsUpTo(after, path, f, size)
  {
    hide Key, SumOf, OnlyBlocks;
    forall k: nat | k * BLOCK_LEN < size ensures Right(after, path, f, k) {
      if k < BlocksUpTo(|f|) {
        OthersStayRight(before, after, path, BlocksUpTo(|f|), (size - 1) / BLOCK_LEN, f, k);
      } else {
        BlockBeyondEnd(f, k);
      }
    }
  }

  /** A write keeps the sums right, provided the gap before it was filled in first. */
  lemma {:induction false} WriteHolds(before: map<seq<Byte>, nat>, after: map<seq<Byte>, nat>, path: seq<Byte>,
                                      f: seq<Byte>, buf: seq<Byte>, offset: nat)
    requires HoldsUpTo(before, path, f, Max(|f|, offset)) && |f| < TWO_32 && offset + |buf| < TWO_32
    requires forall k :: offset / BLOCK_LEN <= k <= LastBlock(offset, |buf|) ==>
               Right(after, path, Pwrite(f, offset, buf), k)
    requires OnlyBlocks(before, after, path, offset / BLOCK_LEN, LastBlock(offset, |buf|))
    ensures Holds(after, path, Pwrite(f, offset, buf))
  {
    hide Key, OnlyBlocks, WeakSum, BlockOf;
    var g := Pwrite(f, offset, buf);
    forall k: nat | k * BLOCK_LEN < |g| ensures Right(after, path, g, k) {
      if !(offset / BLOCK_LEN <= k <= LastBlock(offset, |buf|)) {
        UntouchedBlock(f, buf, offset, k);
        assert k * BLOCK_LEN < Max(|f|, offset);
        OthersStayRight(before, after, path, offset / BLOCK_LEN, LastBlock(offset, |buf|), f, k);
      }
    }
  }

  lemma {:induction false} ShrinkHolds(before: map<seq<Byte>, nat>, after: map<seq<Byte>, nat>, path: seq<Byte>,
                                       f: seq<Byte>, size: nat)
    requires Holds(before, path, f) && 0 < size <= |f| < TWO_32
    requires Right(after, path, f[..size], (size - 1) / BLOCK_LEN)
    requires OnlyBlocks(before, after, path, (size - 1) / BLOCK_LEN, (size - 1) / BLOCK_LEN)
    ensures Holds(after, path, f[..size])
  {
    hide Key, OnlyBlocks, WeakSum, BlockOf;
    var last := (size - 1) / BLOCK_LEN;
    forall k: nat | k * BLOCK_LEN < size && k != last ensures Right(after, path, f[..size], k) {
      ShrunkBlock(f, size, k);
      OthersStayRight(before, after, path, last, last, f, k);
    }
  }

  lemma {:induction false} GrowHolds(db: map<seq<Byte>, nat>, path: seq<Byte>, f: seq<Byte>, size: nat)
    requires |f| <= size && HoldsUpTo(db, path, f, size)
    ensures Holds(db, path, Resized(f, size))
  {
    hide Key, SumOf;
    forall k: nat | k * BLOCK_LEN < size ensures Right(db, path, Resized(f, size), k) {
      GrownBlock(f, size, k);
      assert Right(db, path, f, k);
    }
  }

  /** Nothing but sums of this file changed. */
  ghost predicate OnlyThis(before: map<seq<Byte>, nat>, after: map<seq<Byte>, nat>, path: seq<Byte>) {
    OnlyBlocks(before, after, path, 0, TWO_32 - 1)
  }

  /** Other files can be watched by the same store. */
  lemma {:induction false} OtherFilesHold(before: map<seq<Byte>, nat>, after: map<seq<Byte>, nat>, path: seq<Byte>,
                                          other: seq<Byte>, f: seq<Byte>)
    requires OnlyThis(before, after, path) && other != path && |f| < TWO_32
    requires Holds(before, other, f)
    ensures Holds(after, other, f)
  {
    hide SumOf;
    forall k: nat | k * BLOCK_LEN < |f| ensures Right(after, other, f, k) {
      assert Right(before, other, f, k);
      forall j: nat | 0 <= j <= TWO_32 - 1 ensures Key(other, k) != Key(path, j) {
        if Key(other, k) == Key(path, j) {
          KeysDiffer(other, k, path, j);
        }
      }
    }
  }

  lemma {:induction false} OnlyThisJoin(a: map<seq<Byte>, nat>, b: map<seq<Byte>, nat>, c: map<seq<Byte>, nat>,
                                        path: seq<Byte>, m: nat, n: int)
    requires OnlyThis(a, b, path) && OnlyBlocks(b, c, path, m, n) && n < TWO_32
    ensures OnlyThis(a, c, path)
  {
    OnlyBlocksJoin(a, b, c, path, 0, TWO_32 - 1, 0, TWO_32 - 1, m, n);
  }

  /** One file of the client, with the store that watches over it. */
  class WatchedFile {
    const path: seq<Byte>
    const store: Store
    var content: seq<Byte>

    ghost predicate Valid()
      reads this, store
    {
      |content| < TWO_32 && Holds(store.db, path, content)
    }

    /** A new file is empty. */
    constructor (path: seq<Byte>, store: Store)
      ensures Valid() && this.path == path && this.store == store && content == []
    {
      this.path, this.store := path, store;
      content := [];
    }

    /** xmp_write: enlarge first when the write starts past the end. */
    method Write(buf: seq<Byte>, offset: nat)
      requires Valid() && OpFits(WriteOp(buf, offset))
      modifies this, store
      ensures Valid() && content == Apply(old(content), WriteOp(buf, offset))
      ensures OnlyThis(old(store.db), store.db, path)
    {
      ghost var start := store.db;
      assert OnlyThis(start, start, path);
      hide Key, OnlyBlocks, WeakSum, BlockOf, OnlyThis;
      if |content| < offset {
        store.Enlarge(path, |content|, offset);
        EnlargeHolds(start, store.db, path, content, offset);
        OnlyThisJoin(start, start, store.db, path, BlocksUpTo(|content|), (offset - 1) / BLOCK_LEN);
      }
      ghost var before, was := store.db, content;
      content := Pwrite(content, offset, buf);
      store.Update(path, buf, offset, content);
      WriteHolds(before, store.db, path, was, buf, offset);
      OnlyThisJoin(start, before, store.db, path, offset / BLOCK_LEN, LastBlock(offset, |buf|));
    }

    /** xmp_truncate: the sums are adapted before the file is. */
    method Truncate(size: nat)
      requires Valid() && OpFits(TruncateOp(size))
      modifies this, store
      ensures Valid() && content == Apply(old(content), TruncateOp(size))
      ensures OnlyThis(old(store.db), store.db, path)
    {
      ghost var before, was := store.db, content;
      assert OnlyThis(before, before, path);
      hide Key, OnlyBlocks, WeakSum, BlockOf, OnlyThis;
      if |content| < size {
        store.Enlarge(path, |content|, size);
        EnlargeHolds(before, store.db, path, content, size);
        OnlyThisJoin(before, before, store.db, path, BlocksUpTo(|was|), (size - 1) / BLOCK_LEN);
      }
      if |content| > size {
        store.Shrink(path, size, content);
        if size > 0 {
          ShrinkHolds(before, store.db, path, content, size);
          OnlyThisJoin(before, before, store.db, path, (size - 1) / BLOCK_LEN, (size - 1) / BLOCK_LEN);
        }
      }
      content := Resized(content, size);
      if |was| <= size {
        GrowHolds(store.db, path, was, size);
      }
    }

    /** xmp_read of bytes within the file: always accepted. */
    method Read(offset: nat, size: nat) returns (data: seq<Byte>, v: Verdict)
      requires Valid() && 0 < size && offset + size <= |content|
      ensures data == content[offset..offset + size] && v == Accepted
    {
      hide Key, WeakSum, BlockOf, JudgeAll;
      data := content[offset..offset + size];
      v := store.Check(path, data, offset, content);
      AcceptedIffRight(store.db, path, content, offset / BLOCK_LEN, LastBlock(offset, size) + 1);
    }

    /** Any run of writes and truncates keeps the sums right. */
    method Run(ops: seq<Op>)
      requires Valid() && forall op <- ops :: OpFits(op)
      modifies this, store
      ensures Valid() && content == ApplyAll(old(content), ops)
      ensures OnlyThis(old(store.db), store.db, path)
    {
      ghost var start := store.db;
      hide Holds;
      for i := 0 to |ops|
        invariant Valid() && content == ApplyAll(old(content), ops[..i])
        invariant OnlyThis(start, store.db, path)
      {
        ghost var before := store.db;
        assert ops[..i + 1][..i] == ops[..i];
        assert OpFits(ops[i]);
        match ops[i]
        case WriteOp(buf, offset) => Write(buf, offset);
        case TruncateOp(size) => Truncate(size);
        OnlyThisJoin(start, before, store.db, path, 0, TWO_32 - 1);
      }
      assert ops[..|ops|] == ops;
    }
  }
}
