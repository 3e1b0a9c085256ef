/** Batches that truncate as well as write.  A truncation leaves only a marker in the log,
    which rebuilding skips, so some of them can be undone and some cannot. */
module EditLog {
  import opened Bytes
  import opened Files
  import opened WriteLog

  /** One call of write, or of truncate. */
  datatype Edit = Put(shot: Shot) | Cut(size: nat)

  /** What a call touches, whatever it writes. */
  datatype Shape = WriteTo(extent: Extent) | CutTo(size: nat)

  predicate EditsOk(edits: seq<Edit>) {
    forall e <- edits :: e.Put? ==> ShotOk(e.shot)
  }

  function ShapeOf(e: Edit): (s: Shape) {
    match e
    case Put(shot) => WriteTo(ExtentOf(shot))
    case Cut(size) => CutTo(size)
  }

  function Shapes(edits: seq<Edit>): (ss: seq<Shape>)
    ensures |ss| == |edits|
  {
    if edits == [] then [] else [ShapeOf(edits[0])] + Shapes(edits[1..])
  }

  function Edited(f: seq<Byte>, e: Edit): (r: seq<Byte>) {
    match e
    case Put(s) => Pwrite(f, s.offset, s.data)
    case Cut(size) => Resized(f, size)
  }

  function Entry(f: seq<Byte>, e: Edit): (b: BufInfo)
    requires e.Put? ==> ShotOk(e.shot)
  {
    match e
    case Put(s) => Logged(f, s)
    case Cut(size) => BufInfo(FLAG_TRUNCATE, size, [], [], false)
  }

  function AfterEdits(f: seq<Byte>, edits: seq<Edit>): (r: seq<Byte>)
    decreases |edits|
  {
    if edits == [] then f else AfterEdits(Edited(f, edits[0]), edits[1..])
  }

  function LogOfEdits(f: seq<Byte>, edits: seq<Edit>): (log: seq<BufInfo>)
    requires EditsOk(edits)
    decreases |edits|
  {
    if edits == [] then [] else [Entry(f, edits[0])] + LogOfEdits(Edited(f, edits[0]), edits[1..])
  }

  // ---------------------------------------------------------------------
  // Which batches can be undone
  // ---------------------------------------------------------------------

  /** The length of a file of n bytes after a call, and after many. */
  function LengthAfter(n: nat, s: Shape): (r: nat) {
    match s
    case WriteTo(e) => if Extends(n, e) then e.offset + e.size else n
    case CutTo(size) => size
  }

  function FinalLength(n: nat, ss: seq<Shape>): (r: nat)
    decreases |ss|
  {
    if ss == [] then n else FinalLength(LengthAfter(n, ss[0]), ss[1..])
  }

  /** The length of a file of n bytes once all saved bytes are written back. */
  function RefilledLength(n: nat, ss: seq<Shape>): (r: nat)
    decreases |ss|
  {
    if ss == [] then n else RefilledLength(if ss[0].WriteTo? then LengthAfter(n, ss[0]) else n, ss[1..])
  }

  /** The least offset of a write that starts where the file then ends, or later. */
  function FirstAppend(n: nat, ss: seq<Shape>): (r: nat)
    decreases |ss|
  {
    if ss == [] then INF else
    var r := FirstAppend(LengthAfter(n, ss[0]), ss[1..]);
    if ss[0].WriteTo? && ss[0].extent.offset >= n then Min(ss[0].extent.offset, r) else r
  }

  /** Either the first append is at the old end, or there is none and neither the last
      length nor any write differs from the old length. */
  predicate LengthReturns(n: nat, ss: seq<Shape>) {
    var t := FirstAppend(n, ss);
    if t != INF then t == n else RefilledLength(FinalLength(n, ss), ss) == n
  }

  predicate Spares(s: Shape, p: nat) {
    match s
    case WriteTo(e) => !Covers(e, p)
    case CutTo(size) => p < size
  }

  predicate Untouched(ss: seq<Shape>, p: nat) {
    forall s <- ss :: Spares(s, p)
  }

  predicate Unwritten(ss: seq<Shape>, p: nat) {
    forall s <- ss :: s.WriteTo? ==> !Covers(s.extent, p)
  }

  /** What first touches the byte, if anything does, is a write, and no other write does. */
  predicate ByteReturns(ss: seq<Shape>, p: nat) {
    ss == []
    || if Spares(ss[0], p) then ByteReturns(ss[1..], p) else ss[0].WriteTo? && Unwritten(ss[1..], p)
  }

  /** The shape of a batch that can be undone. */
  ghost predicate Reversible(n: nat, ss: seq<Shape>) {
    LengthReturns(n, ss) && forall p: nat :: p < n ==> ByteReturns(ss, p)
  }

  // ---------------------------------------------------------------------
  // Lengths
  // ---------------------------------------------------------------------

  lemma {:induction false} Tails(f: seq<Byte>, edits: seq<Edit>)
    requires edits != [] && EditsOk(edits)
    ensures EditsOk(edits[1..]) && Shapes(edits)[0] == ShapeOf(edits[0]) && Shapes(edits)[1..] == Shapes(edits[1..])
    ensures LogOfEdits(f, edits)[0] == Entry(f, edits[0])
    ensures LogOfEdits(f, edits)[1..] == LogOfEdits(Edited(f, edits[0]), edits[1..])
  {
  }

  /** What a call does to the length, and replaying its entry to that of another file. */
  lemma {:induction false} LengthStep(f: seq<Byte>, e: Edit, g: seq<Byte>)
    requires e.Put? ==> ShotOk(e.shot)
    ensures var b := Entry(f, e);
            && |Edited(f, e)| == LengthAfter(|f|, ShapeOf(e))
            && (e.Put? ==> b.offset < INF && |Pwrite(g, b.offset, b.buf)| == LengthAfter(|g|, ShapeOf(e)))
            && (b.isAppend <==> e.Put? && e.shot.offset >= |f|)
  {
  }

  lemma {:induction false} Lengths(f: seq<Byte>, edits: seq<Edit>, g: seq<Byte>)
    requires EditsOk(edits)
    ensures |AfterEdits(f, edits)| == FinalLength(|f|, Shapes(edits))
    ensures LeastAppend(LogOfEdits(f, edits)) == FirstAppend(|f|, Shapes(edits))
    ensures |Replay(g, LogOfEdits(f, edits))| == RefilledLength(|g|, Shapes(edits))
    decreases |edits|
  {
    if edits != [] {
      Tails(f, edits);
      LengthStep(f, edits[0], g);
      hide Shapes, LogOfEdits, Pwrite, Resized, LengthAfter, Edited, Logged, Extends;
      var e := Entry(f, edits[0]);
      Lengths(Edited(f, edits[0]), edits[1..], if edits[0].Put? then Pwrite(g, e.offset, e.buf) else g);
    }
  }

  lemma {:induction false} LengthUndone(f: seq<Byte>, edits: seq<Edit>)
    requires EditsOk(edits)
    ensures |Undo(AfterEdits(f, edits), LogOfEdits(f, edits))| == |f| <==> LengthReturns(|f|, Shapes(edits))
  {
    hide Replay, LeastAppend, FirstAppend, RefilledLength, FinalLength, AfterEdits, LogOfEdits;
    Lengths(f, edits, AfterEdits(f, edits));
  }

  // ---------------------------------------------------------------------
  // Bytes
  // ---------------------------------------------------------------------

  /** What a call does to a byte. */
  lemma {:induction false} EditStep(f: seq<Byte>, e: Edit, p: nat)
    ensures ByteAt(Edited(f, e), p) == if Spares(ShapeOf(e), p) then ByteAt(f, p)
                                       else if e.Cut? then 0 else e.shot.data[p - e.shot.offset]
    ensures Spares(ShapeOf(e), p) && p < |f| ==> p < |Edited(f, e)|
  {
  }

  /** What replaying the log entry of a call does to a byte. */
  lemma {:induction false} ReplayStep(f: seq<Byte>, e: Edit, g: seq<Byte>, p: nat)
    requires e.Put? ==> ShotOk(e.shot)
    ensures ByteAt(Replay(g, [Entry(f, e)]), p) == if e.Cut? || Spares(ShapeOf(e), p) then ByteAt(g, p)
                                                   else if p < |f| then f[p] else e.shot.heap[p - e.shot.offset]
  {
    var b := Entry(f, e);
    assert [b][1..] == [];
    assert Replay(g, [b]) == if b.offset == FLAG_TRUNCATE then g else Pwrite(g, b.offset, b.buf);
  }

  lemma {:induction false} UntouchedStays(f: seq<Byte>, edits: seq<Edit>, p: nat)
    requires Untouched(Shapes(edits), p)
    ensures ByteAt(AfterEdits(f, edits), p) == ByteAt(f, p)
    decreases |edits|
  {
    if edits != [] {
      assert Shapes(edits)[0] == ShapeOf(edits[0]) && Shapes(edits)[1..] == Shapes(edits[1..]);
      assert Spares(Shapes(edits)[0], p);
      EditStep(f, edits[0], p);
      UntouchedStays(Edited(f, edits[0]), edits[1..], p);
    }
  }

  lemma {:induction false} ReplayFirst(g: seq<Byte>, log: seq<BufInfo>)
    requires log != []
    ensures Replay(g, log) == Replay(Replay(g, [log[0]]), log[1..])
  {
    assert [log[0]][1..] == [];
  }

  lemma {:induction false} UnwrittenStays(f: seq<Byte>, edits: seq<Edit>, g: seq<Byte>, p: nat)
    requires EditsOk(edits) && Unwritten(Shapes(edits), p)
    ensures ByteAt(Replay(g, LogOfEdits(f, edits)), p) == ByteAt(g, p)
    decreases |edits|
  {
    if edits != [] {
      Tails(f, edits);
      ReplayFirst(g, LogOfEdits(f, edits));
      ReplayStep(f, edits[0], g, p);
      UnwrittenStays(Edited(f, edits[0]), edits[1..], Replay(g, [Entry(f, edits[0])]), p);
    }
  }

  lemma {:induction false} ByteUndone(f: seq<Byte>, edits: seq<Edit>, g: seq<Byte>, p: nat)
    requires EditsOk(edits) && p < |f| && ByteReturns(Shapes(edits), p)
    requires Untouched(Shapes(edits), p) ==> ByteAt(g, p) == f[p]
    ensures ByteAt(Replay(g, LogOfEdits(f, edits)), p) == f[p]
    decreases |edits|
  {
    if edits != [] {
      Tails(f, edits);
      ReplayFirst(g, LogOfEdits(f, edits));
      EditStep(f, edits[0], p);
      ReplayStep(f, edits[0], g, p);
      var g' := Replay(g, [Entry(f, edits[0])]);
      if Spares(ShapeOf(edits[0]), p) {
        ByteUndone(Edited(f, edits[0]), edits[1..], g', p);
      } else {
        UnwrittenStays(Edited(f, edits[0]), edits[1..], g', p);
      }
    }
  }

  lemma {:induction false} UndoneIfReversible(f: seq<Byte>, edits: seq<Edit>)
    requires EditsOk(edits) && Reversible(|f|, Shapes(edits))
    ensures Undo(AfterEdits(f, edits), LogOfEdits(f, edits)) == f
  {
    hide Replay, LeastAppend, AfterEdits, LogOfEdits, ByteReturns, LengthReturns;
    var g := AfterEdits(f, edits);
    var u := Undo(g, LogOfEdits(f, edits));
    LengthUndone(f, edits);
    forall p | 0 <= p < |f| ensures u[p] == f[p] {
      if Untouched(Shapes(edits), p) {
        UntouchedStays(f, edits, p);
      }
      ByteUndone(f, edits, g, p);
    }
  }

  // ---------------------------------------------------------------------
  // The other direction
  // ---------------------------------------------------------------------

  /** The calls of a given shape that write only zeros, over heap bytes that are zero. */
  function Blank(ss: seq<Shape>): (edits: seq<Edit>)
    ensures |edits| == |ss|
  {
    if ss == [] then []
    else [match ss[0]
          case WriteTo(e) => Put(Shot(e.offset, Repeat<Byte>(0, e.size), Repeat<Byte>(0, e.size)))
          case CutTo(size) => Cut(size)] + Blank(ss[1..])
  }

  predicate ShapesOk(ss: seq<Shape>) {
    forall s <- ss :: s.WriteTo? ==> s.extent.offset < INF
  }

  lemma {:induction false} BlankShapes(ss: seq<Shape>)
    requires ShapesOk(ss)
    ensures Shapes(Blank(ss)) == ss && EditsOk(Blank(ss))
    decreases |ss|
  {
    if ss != [] {
      BlankShapes(ss[1..]);
      assert Blank(ss)[1..] == Blank(ss[1..]);
    }
  }

  /** What one such call does to a byte, and what replaying its entry does. */
  lemma {:induction false} BlankStep(f: seq<Byte>, ss: seq<Shape>, g: seq<Byte>, p: nat)
    requires ss != [] && ShapesOk(ss)
    ensures var e := Blank(ss)[0];
            && (e.Put? ==> ShotOk(e.shot))
            && ByteAt(Edited(f, e), p) == (if Spares(ss[0], p) then ByteAt(f, p) else 0)
            && ByteAt(Replay(g, [Entry(f, e)]), p)
               == if ss[0].CutTo? || Spares(ss[0], p) then ByteAt(g, p) else ByteAt(f, p)
  {
    var e := Blank(ss)[0];
    assert ShapeOf(e) == ss[0];
    EditStep(f, e, p);
    ReplayStep(f, e, g, p);
  }

  lemma {:induction false} BlankWins(f: seq<Byte>, ss: seq<Shape>, p: nat)
    requires ShapesOk(ss) && (ByteAt(f, p) == 0 || !Untouched(ss, p))
    ensures ByteAt(AfterEdits(f, Blank(ss)), p) == 0
    decreases |ss|
  {
    if ss != [] {
      BlankStep(f, ss, f, p);
      assert Blank(ss)[1..] == Blank(ss[1..]);
      BlankWins(Edited(f, Blank(ss)[0]), ss[1..], p);
    }
  }

  /** A byte that is gone when it is last saved, or never saved, is not brought back. */
  lemma {:induction false} BlankStays(f: seq<Byte>, ss: seq<Shape>, g: seq<Byte>, p: nat)
    requires ShapesOk(ss)
    requires if ByteAt(f, p) == 0 then ByteAt(g, p) == 0 || !Unwritten(ss, p)
             else ByteAt(g, p) == 0 && !ByteReturns(ss, p)
    ensures EditsOk(Blank(ss)) && ByteAt(Replay(g, LogOfEdits(f, Blank(ss))), p) == 0
    decreases |ss|
  {
    BlankShapes(ss);
    if ss != [] {
      var edits := Blank(ss);
      Tails(f, edits);
      BlankStep(f, ss, g, p);
      assert edits[1..] == Blank(ss[1..]);
      ReplayFirst(g, LogOfEdits(f, edits));
      hide Blank, LogOfEdits, Edited, Entry;
      BlankStays(Edited(f, edits[0]), ss[1..], Replay(g, [Entry(f, edits[0])]), p);
    }
  }

  lemma {:induction false} TouchedIfLost(ss: seq<Shape>, p: nat)
    requires !ByteReturns(ss, p)
    ensures !Untouched(ss, p)
    decreases |ss|
  {
    if ss != [] && Spares(ss[0], p) {
      TouchedIfLost(ss[1..], p);
    }
  }

  ghost predicate Reverted(f: seq<Byte>, edits: seq<Edit>)
    requires EditsOk(edits)
  {
    Undo(AfterEdits(f, edits), LogOfEdits(f, edits)) == f
  }

  /** A byte that does not return defeats the log, for a file of ones overwritten with zeros. */
  lemma {:induction false} LostByteIsFatal(n: nat, ss: seq<Shape>, p: nat)
    requires ShapesOk(ss) && p < n && !ByteReturns(ss, p)
    ensures EditsOk(Blank(ss)) && !Reverted(Repeat<Byte>(1, n), Blank(ss))
  {
    hide Replay, LeastAppend, LogOfEdits, AfterEdits, ByteReturns, Untouched;
    var f := Repeat<Byte>(1, n);
    var g := AfterEdits(f, Blank(ss));
    BlankShapes(ss);
    TouchedIfLost(ss, p);
    BlankWins(f, ss, p);
    BlankStays(f, ss, g, p);
    var u := Undo(g, LogOfEdits(f, Blank(ss)));
    assert ByteAt(u, p) == 0 && f[p] == 1;
  }

  /** For every length and every list of writes and truncations: the log gives every file
      of that length back, whatever is written, if and only if the list is reversible. */
  lemma {:induction false} UndoIffReversible(n: nat, ss: seq<Shape>)
    requires ShapesOk(ss)
    ensures (forall f, edits :: |f| == n && EditsOk(edits) && Shapes(edits) == ss ==> Reverted(f, edits))
            <==> Reversible(n, ss)
  {
    hide Undo, AfterEdits, LogOfEdits, LengthReturns, ByteReturns;
    var f, edits := Repeat<Byte>(1, n), Blank(ss);
    BlankShapes(ss);
    if Reversible(n, ss) {
      forall f: seq<Byte>, edits | |f| == n && EditsOk(edits) && Shapes(edits) == ss ensures Reverted(f, edits) {
        UndoneIfReversible(f, edits);
      }
    } else if !LengthReturns(n, ss) {
      LengthUndone(f, edits);
      assert !Reverted(f, edits);
    } else {
      var p: nat :| p < n && !ByteReturns(ss, p);
      LostByteIsFatal(n, ss, p);
      assert !Reverted(f, edits);
    }
  }

  // ---------------------------------------------------------------------
  // Batches that only write
  // ---------------------------------------------------------------------

  function Puts(shots: seq<Shot>): (edits: seq<Edit>)
    ensures |edits| == |shots|
  {
    if shots == [] then [] else [Put(shots[0])] + Puts(shots[1..])
  }

  function Writes(es: seq<Extent>): (ss: seq<Shape>)
    ensures |ss| == |es|
  {
    if es == [] then [] else [WriteTo(es[0])] + Writes(es[1..])
  }

  lemma {:induction false} PutsAgree(f: seq<Byte>, shots: seq<Shot>)
    requires ShotsOk(shots)
    ensures EditsOk(Puts(shots)) && Shapes(Puts(shots)) == Writes(Extents(shots))
    ensures AfterEdits(f, Puts(shots)) == After(f, shots) && LogOfEdits(f, Puts(shots)) == LogOf(f, shots)
    decreases |shots|
  {
    if shots != [] {
      PutsAgree(Pwrite(f, shots[0].offset, shots[0].data), shots[1..]);
      assert Puts(shots)[1..] == Puts(shots[1..]);
      assert Extents(shots)[1..] == Extents(shots[1..]);
    }
  }

  lemma {:induction false} ReturnsIfCoveredOnce(es: seq<Extent>, p: nat)
    ensures Unwritten(Writes(es), p) <==> CoverCount(es, p) == 0
    ensures ByteReturns(Writes(es), p) <==> CoverCount(es, p) <= 1
    decreases |es|
  {
    if es != [] {
      ReturnsIfCoveredOnce(es[1..], p);
      var ss := Writes(es);
      assert ss[0] == WriteTo(es[0]) && ss[1..] == Writes(es[1..]);
      assert Unwritten(ss, p) <==> !Covers(es[0], p) && Unwritten(ss[1..], p);
    }
  }

  /** For batches that only write, both conditions are the same. */
  lemma {:induction false} ReversibleWrites(n: nat, es: seq<Extent>)
    requires (forall e <- es :: e.offset < INF) && n < INF
    ensures Reversible(n, Writes(es)) <==> Undoable(n, es)
  {
    hide Undo, After, AfterEdits, LogOf, LogOfEdits, AllInside, ExactAppend, LengthReturns, ByteReturns, CoverCount,
         Writes;
    var f, shots := Repeat<Byte>(1, n), Paint(es, 0);
    PaintExtents(es, 0);
    PutsAgree(f, shots);
    LengthOfUndo(f, shots);
    LengthUndone(f, Puts(shots));
    forall p: nat ensures ByteReturns(Writes(es), p) <==> CoverCount(es, p) <= 1 {
      ReturnsIfCoveredOnce(es, p);
    }
  }
}
