/** The client's log of overwritten bytes: how writes are recorded while a file's WRITE
    node is pending, and how the file before the batch is rebuilt from the log. */
module WriteLog {
  import opened Bytes
  import opened Files

  const FLAG_TRUNCATE := 0xFFFF_FFFF
  const INF := 0x7FFF_FFFF

  /** buf_info: `buf` holds the old bytes, `newbuf` the written ones. */
  datatype BufInfo = BufInfo(offset: nat, size: nat, buf: seq<Byte>, newbuf: seq<Byte>, isAppend: bool)

  /** One call of write.  `heap` is what malloc left in the buffer for the old bytes. */
  datatype Shot = Shot(offset: nat, data: seq<Byte>, heap: seq<Byte>)

  /** Where a write goes, whatever it writes. */
  datatype Extent = Extent(offset: nat, size: nat)

  predicate ShotOk(s: Shot) {
    |s.heap| == |s.data| && s.offset < INF
  }

  predicate ShotsOk(shots: seq<Shot>) {
    forall s <- shots :: ShotOk(s)
  }

  function ExtentOf(s: Shot): (r: Extent) {
    Extent(s.offset, |s.data|)
  }

  function Extents(shots: seq<Shot>): (es: seq<Extent>)
    ensures |es| == |shots|
  {
    if shots == [] then [] else [ExtentOf(shots[0])] + Extents(shots[1..])
  }

  lemma {:induction false} ExtentsStartLow(shots: seq<Shot>)
    requires ShotsOk(shots)
    ensures forall e <- Extents(shots) :: e.offset < INF
    decreases |shots|
  {
    if shots != [] {
      ExtentsStartLow(shots[1..]);
      assert ShotOk(shots[0]) && Extents(shots) == [ExtentOf(shots[0])] + Extents(shots[1..]);
    }
  }

  /** pread into a fresh buffer: bytes past the end of the file are whatever was there. */
  function OldBytes(f: seq<Byte>, s: Shot): (r: seq<Byte>)
    requires ShotOk(s)
    ensures |r| == |s.data|
    ensures forall k :: 0 <= k < |r| ==> r[k] == if s.offset + k < |f| then f[s.offset + k] else s.heap[k]
  {
    var n := Max(0, Min(|s.data|, |f| - s.offset));
    (if n == 0 then [] else f[s.offset..s.offset + n]) + s.heap[n..]
  }

  /** The log entry of a write to file `f`. */
  function Logged(f: seq<Byte>, s: Shot): (r: BufInfo)
    requires ShotOk(s)
  {
    BufInfo(s.offset, |s.data|, OldBytes(f, s), s.data, s.offset >= |f|)
  }

  function After(f: seq<Byte>, shots: seq<Shot>): (r: seq<Byte>)
    decreases |shots|
  {
    if shots == [] then f else After(Pwrite(f, shots[0].offset, shots[0].data), shots[1..])
  }

  function LogOf(f: seq<Byte>, shots: seq<Shot>): (r: seq<BufInfo>)
    requires ShotsOk(shots)
    decreases |shots|
  {
    if shots == [] then []
    else [Logged(f, shots[0])] + LogOf(Pwrite(f, shots[0].offset, shots[0].data), shots[1..])
  }

  // ---------------------------------------------------------------------
  // Rebuilding
  // ---------------------------------------------------------------------

  /** The saved bytes written back, oldest entry first. */
  function Replay(g: seq<Byte>, log: seq<BufInfo>): (r: seq<Byte>)
    decreases |log|
  {
    if log == [] then g
    else Replay(if log[0].offset == FLAG_TRUNCATE then g else Pwrite(g, log[0].offset, log[0].buf), log[1..])
  }

  /** The least offset of an append, or INF. */
  function LeastAppend(log: seq<BufInfo>): (r: nat)
    decreases |log|
  {
    if log == [] then INF else
    var r := LeastAppend(log[1..]);
    if log[0].offset != FLAG_TRUNCATE && log[0].isAppend && log[0].offset < r then log[0].offset else r
  }

  function Undo(g: seq<Byte>, log: seq<BufInfo>): (r: seq<Byte>) {
    var t := LeastAppend(log);
    if t != INF then Resized(Replay(g, log), t) else Replay(g, log)
  }

  // ---------------------------------------------------------------------
  // Which batches can be undone
  // ---------------------------------------------------------------------

  /** The write stays inside a file of n bytes and is not taken for an append. */
  predicate Inside(n: nat, e: Extent) {
    if e.size == 0 then e.offset < n else e.offset + e.size <= n
  }

  predicate Extends(n: nat, e: Extent) {
    e.size > 0 && e.offset + e.size > n
  }

  predicate AllInside(n: nat, es: seq<Extent>) {
    forall e <- es :: Inside(n, e)
  }

  /** Some write starts at byte n exactly, and no write before it makes the file longer. */
  predicate ExactAppend(n: nat, es: seq<Extent>) {
    es != [] && (es[0].offset == n || (!Extends(n, es[0]) && ExactAppend(n, es[1..])))
  }

  predicate Covers(e: Extent, p: nat) {
    e.offset <= p < e.offset + e.size
  }

  function CoverCount(es: seq<Extent>, p: nat): (r: nat) {
    if es == [] then 0 else (if Covers(es[0], p) then 1 else 0) + CoverCount(es[1..], p)
  }

  /** No byte below n is written twice. */
  ghost predicate Disjoint(n: nat, es: seq<Extent>) {
    forall p: nat :: p < n ==> CoverCount(es, p) <= 1
  }

  /** The shape of a batch that can be undone, seen from its offsets and sizes alone. */
  ghost predicate Undoable(n: nat, es: seq<Extent>) {
    (AllInside(n, es) || ExactAppend(n, es)) && Disjoint(n, es)
  }

  // ---------------------------------------------------------------------
  // Lengths
  // ---------------------------------------------------------------------

  lemma {:induction false} LengthOfAfter(f: seq<Byte>, shots: seq<Shot>)
    ensures |After(f, shots)| >= |f|
    ensures |After(f, shots)| == |f| <==> forall e <- Extents(shots) :: !Extends(|f|, e)
    decreases |shots|
  {
    if shots != [] {
      var f' := Pwrite(f, shots[0].offset, shots[0].data);
      LengthOfAfter(f', shots[1..]);
      var es := Extents(shots);
      assert es[0] == ExtentOf(shots[0]) && es[1..] == Extents(shots[1..]);
      assert (forall e <- es :: !Extends(|f|, e)) <==> !Extends(|f|, es[0]) && forall e <- es[1..] :: !Extends(|f|, e);
    }
  }

  /** Writing saved bytes back never makes the file longer. */
  lemma {:induction false} LengthOfReplay(f: seq<Byte>, shots: seq<Shot>, g: seq<Byte>)
    requires ShotsOk(shots) && |g| >= |After(f, shots)|
    ensures |Replay(g, LogOf(f, shots))| == |g|
    decreases |shots|
  {
    if shots != [] {
      var f' := Pwrite(f, shots[0].offset, shots[0].data);
      LengthOfAfter(f', shots[1..]);
      var e := Logged(f, shots[0]);
      assert LogOf(f, shots)[1..] == LogOf(f', shots[1..]);
      LengthOfReplay(f', shots[1..], Pwrite(g, e.offset, e.buf));
    }
  }

  /** Appends start at the original end or later; at it, exactly when ExactAppend says so. */
  lemma {:induction false} AppendsStartLate(f: seq<Byte>, shots: seq<Shot>, n: nat)
    requires ShotsOk(shots) && n <= |f| && n < INF
    ensures LeastAppend(LogOf(f, shots)) >= n
    ensures LeastAppend(LogOf(f, shots)) == n <==> |f| == n && ExactAppend(n, Extents(shots))
    decreases |shots|
  {
    if shots != [] {
      var f' := Pwrite(f, shots[0].offset, shots[0].data);
      AppendsStartLate(f', shots[1..], n);
      assert LogOf(f, shots)[1..] == LogOf(f', shots[1..]);
      assert Extents(shots)[1..] == Extents(shots[1..]);
    }
  }

  lemma {:induction false} OneWrite(f: seq<Byte>, s: Shot)
    requires ShotOk(s)
    ensures var longer := |Pwrite(f, s.offset, s.data)| > |f|;
            && (Inside(|f|, ExtentOf(s)) <==> !longer && !Logged(f, s).isAppend)
            && (!longer ==> |Pwrite(f, s.offset, s.data)| == |f|)
  {
  }

  /** There is no append, and the file keeps its length, exactly when all writes stay inside. */
  lemma {:induction false} NoAppends(f: seq<Byte>, shots: seq<Shot>)
    requires ShotsOk(shots)
    ensures LeastAppend(LogOf(f, shots)) == INF && |After(f, shots)| == |f| <==> AllInside(|f|, Extents(shots))
    decreases |shots|
  {
    if shots != [] {
      hide Pwrite, Inside;
      var f' := Pwrite(f, shots[0].offset, shots[0].data);
      var es := Extents(shots);
      assert LogOf(f, shots)[1..] == LogOf(f', shots[1..]);
      assert es[0] == ExtentOf(shots[0]) && es[1..] == Extents(shots[1..]);
      assert AllInside(|f|, es) <==> Inside(|f|, es[0]) && AllInside(|f|, es[1..]);
      hide AllInside, Extents;
      OneWrite(f, shots[0]);
      LengthOfAfter(f', shots[1..]);
      NoAppends(f', shots[1..]);
    }
  }

  lemma {:induction false} LengthOfUndo(f: seq<Byte>, shots: seq<Shot>)
    requires ShotsOk(shots) && |f| < INF
    ensures |Undo(After(f, shots), LogOf(f, shots))| == |f|
       <==> AllInside(|f|, Extents(shots)) || ExactAppend(|f|, Extents(shots))
  {
    hide Replay, LeastAppend, AllInside, ExactAppend, LogOf, After;
    AppendsStartLate(f, shots, |f|);
    NoAppends(f, shots);
    LengthOfReplay(f, shots, After(f, shots));
    LengthOfAfter(f, shots);
  }

  // ---------------------------------------------------------------------
  // Bytes
  // ---------------------------------------------------------------------

  lemma {:induction false} UntouchedByte(f: seq<Byte>, shots: seq<Shot>, p: nat)
    requires CoverCount(Extents(shots), p) == 0
    ensures ByteAt(After(f, shots), p) == ByteAt(f, p)
    decreases |shots|
  {
    if shots != [] {
      assert Extents(shots)[1..] == Extents(shots[1..]);
      UntouchedByte(Pwrite(f, shots[0].offset, shots[0].data), shots[1..], p);
    }
  }

  /** A byte written once at most comes back. */
  lemma {:induction false} ReplayedByte(f: seq<Byte>, shots: seq<Shot>, g: seq<Byte>, p: nat)
    requires ShotsOk(shots) && p < |f| && CoverCount(Extents(shots), p) <= 1
    ensures ByteAt(Replay(g, LogOf(f, shots)), p)
         == if CoverCount(Extents(shots), p) == 1 then f[p] else ByteAt(g, p)
    decreases |shots|
  {
    if shots != [] {
      var f' := Pwrite(f, shots[0].offset, shots[0].data);
      var e := Logged(f, shots[0]);
      assert LogOf(f, shots)[1..] == LogOf(f', shots[1..]);
      assert Extents(shots)[1..] == Extents(shots[1..]);
      var g' := Pwrite(g, e.offset, e.buf);
      ReplayedByte(f', shots[1..], g', p);
    }
  }

  /** Undo after an undoable batch gives back the file, whatever was written and whatever
      the heap held. */
  lemma {:induction false} UndoRestores(f: seq<Byte>, shots: seq<Shot>)
    requires ShotsOk(shots) && |f| < INF && Undoable(|f|, Extents(shots))
    ensures Undo(After(f, shots), LogOf(f, shots)) == f
  {
    hide Replay, LeastAppend, AllInside, ExactAppend, LogOf, After;
    var u := Undo(After(f, shots), LogOf(f, shots));
    LengthOfUndo(f, shots);
    forall p | 0 <= p < |f| ensures u[p] == f[p] {
      assert CoverCount(Extents(shots), p) <= 1;
      ReplayedByte(f, shots, After(f, shots), p);
      if CoverCount(Extents(shots), p) == 0 {
        UntouchedByte(f, shots, p);
      }
      AppendsStartLate(f, shots, |f|);
      LengthOfReplay(f, shots, After(f, shots));
      LengthOfAfter(f, shots);
    }
  }

  // ---------------------------------------------------------------------
  // The other direction
  // ---------------------------------------------------------------------

  function Other(c: Byte): (r: Byte) {
    if c == 0 then 1 else 0
  }

  /** The same byte written everywhere. */
  function Paint(es: seq<Extent>, c: Byte): (shots: seq<Shot>)
    ensures |shots| == |es|
  {
    if es == [] then []
    else [Shot(es[0].offset, Repeat<Byte>(c, es[0].size), Repeat<Byte>(c, es[0].size))] + Paint(es[1..], c)
  }

  lemma {:induction false} PaintExtents(es: seq<Extent>, c: Byte)
    requires forall e <- es :: e.offset < INF
    ensures Extents(Paint(es, c)) == es && ShotsOk(Paint(es, c))
    decreases |es|
  {
    if es != [] {
      PaintExtents(es[1..], c);
      assert Paint(es, c)[1..] == Paint(es[1..], c);
    }
  }

  /** What one painted write, and putting back what it saved, do to a byte. */
  lemma {:induction false} PaintStep(f: seq<Byte>, x: Extent, c: Byte, s: Shot, g: seq<Byte>, p: nat)
    requires s == Shot(x.offset, Repeat<Byte>(c, x.size), Repeat<Byte>(c, x.size)) && x.offset < INF && p < |f|
    ensures ByteAt(Pwrite(f, s.offset, s.data), p) == (if Covers(x, p) then c else f[p])
    ensures ByteAt(Pwrite(g, s.offset, Logged(f, s).buf), p) == if Covers(x, p) then f[p] else ByteAt(g, p)
  {
  }

  /** Once a byte has the paint's colour, or is written twice, replaying leaves it so. */
  lemma {:induction false} PaintStays(f: seq<Byte>, es: seq<Extent>, c: Byte, g: seq<Byte>, p: nat)
    requires (forall e <- es :: e.offset < INF) && p < |f|
    requires CoverCount(es, p) >= 2 || (f[p] == c && CoverCount(es, p) >= 1) || (f[p] == c == ByteAt(g, p))
    ensures ShotsOk(Paint(es, c)) && ByteAt(Replay(g, LogOf(f, Paint(es, c))), p) == c
    decreases |es|
  {
    hide Covers, Pwrite, Extents;
    PaintExtents(es, c);
    if es != [] {
      var shots := Paint(es, c);
      var f' := Pwrite(f, shots[0].offset, shots[0].data);
      var e := Logged(f, shots[0]);
      assert shots[1..] == Paint(es[1..], c);
      assert LogOf(f, shots)[1..] == LogOf(f', shots[1..]);
      PaintStep(f, es[0], c, shots[0], g, p);
      PaintStays(f', es[1..], c, Pwrite(g, e.offset, e.buf), p);
    }
  }

  /** Writing some byte twice defeats the log for some data, whatever the file. */
  lemma {:induction false} OverlapIsFatal(f: seq<Byte>, es: seq<Extent>, p: nat)
    requires (forall e <- es :: e.offset < INF) && p < |f| < INF && CoverCount(es, p) >= 2
    ensures var shots := Paint(es, Other(f[p]));
            Extents(shots) == es && ShotsOk(shots) && Undo(After(f, shots), LogOf(f, shots)) != f
  {
    hide Replay, LeastAppend, LogOf, After;
    var c := Other(f[p]);
    var shots := Paint(es, c);
    PaintExtents(es, c);
    PaintStays(f, es, c, After(f, shots), p);
    AppendsStartLate(f, shots, |f|);
    LengthOfReplay(f, shots, After(f, shots));
    LengthOfAfter(f, shots);
  }

  ghost predicate Restored(f: seq<Byte>, shots: seq<Shot>)
    requires ShotsOk(shots)
  {
    Undo(After(f, shots), LogOf(f, shots)) == f
  }

  /** For every file and every list of offsets and sizes: the log gives the file back,
      whatever is written, if and only if the batch is undoable. */
  lemma {:induction false} UndoIffUndoable(f: seq<Byte>, es: seq<Extent>)
    requires (forall e <- es :: e.offset < INF) && |f| < INF
    ensures (forall shots :: ShotsOk(shots) && Extents(shots) == es ==> Restored(f, shots)) <==> Undoable(|f|, es)
  {
    hide Undo, After, LogOf, AllInside, ExactAppend, CoverCount;
    if Undoable(|f|, es) {
      forall shots | ShotsOk(shots) && Extents(shots) == es ensures Restored(f, shots) {
        UndoRestores(f, shots);
      }
    } else if Disjoint(|f|, es) {
      PaintExtents(es, 0);
      LengthOfUndo(f, Paint(es, 0));
      assert !Restored(f, Paint(es, 0));
    } else {
      var p: nat :| p < |f| && CoverCount(es, p) > 1;
      OverlapIsFatal(f, es, p);
      assert !Restored(f, Paint(es, Other(f[p])));
    }
  }
}
