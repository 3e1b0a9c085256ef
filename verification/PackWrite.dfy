/** A file with a pending WRITE node: the log part of xmp_write and xmp_truncate, and the
    WRITE branch of sync_pack_write. */
module PackWrite {
  import opened Bytes
  import opened Files
  import opened WriteLog
  import opened EditLog

  const WRITE_RATIO := 0.5

  /** How a batch leaves the client: as it is, or as a delta against a rebuilt file. */
  datatype Packed = SendWrites | SendDelta(base: seq<Byte>)

  /** Total size of the logged writes. */
  function WriteSize(log: seq<BufInfo>): (r: nat)
    decreases |log|
  {
    if log == [] then 0 else (if log[0].offset == FLAG_TRUNCATE then 0 else log[0].size) + WriteSize(log[1..])
  }

  function WriteCount(log: seq<BufInfo>): (r: nat)
    decreases |log|
  {
    if log == [] then 0 else (if log[0].offset == FLAG_TRUNCATE then 0 else 1) + WriteCount(log[1..])
  }

  function AppendCount(log: seq<BufInfo>): (r: nat)
    decreases |log|
  {
    if log == [] then 0
    else (if log[0].offset != FLAG_TRUNCATE && log[0].isAppend then 1 else 0) + AppendCount(log[1..])
  }

  /** More than half of the writes append, or they are small against the file.  The size
      is kept in an `int`. */
  predicate WritesPay(log: seq<BufInfo>, fileSize: nat) {
    || (WriteCount(log) > 0 && AppendCount(log) as real / WriteCount(log) as real > WRITE_RATIO)
    || ToInt32(WriteSize(log)) as real < WRITE_RATIO * fileSize as real
  }

  lemma {:induction false} NarrowSum(a: int, b: int, c: int)
    requires ToInt32(a + (b + c)) == ToInt32(a + b + c)
    ensures ToInt32(ToInt32(a + b) + c) == ToInt32(a + b + c)
  {
    var k := (a + b) / TWO_32;
    assert ToInt32(a + b) == a + b - TWO_32 * k || ToInt32(a + b) == a + b - TWO_32 * (k + 1);
    assert (a + b + c - TWO_32 * k) % TWO_32 == (a + b + c) % TWO_32;
    assert (a + b + c - TWO_32 * (k + 1)) % TWO_32 == (a + b + c) % TWO_32;
  }

  lemma {:induction false} NarrowOnce(x: int)
    ensures ToInt32(ToInt32(x)) == ToInt32(x)
  {
  }

  class PendingFile {
    var content: seq<Byte>
    var log: seq<BufInfo>

    constructor (content: seq<Byte>)
      ensures this.content == content && log == []
    {
      this.content, log := content, [];
    }

    /** xmp_write while the node is pending. */
    method Write(data: seq<Byte>, offset: nat, heap: seq<Byte>)
      requires ShotOk(Shot(offset, data, heap))
      modifies this
      ensures content == Pwrite(old(content), offset, data)
      ensures log == old(log) + [Logged(old(content), Shot(offset, data, heap))]
    {
      var isAppend := offset >= |content|;
      var buf := OldBytes(content, Shot(offset, data, heap));
      log := log + [BufInfo(offset, |data|, buf, data, isAppend)];
      content := Pwrite(content, offset, data);
    }

    /** xmp_truncate to a non-zero size while the node is pending: only a marker is logged. */
    method Truncate(size: nat)
      requires size > 0
      modifies this
      ensures content == Resized(old(content), size)
      ensures log == old(log) + [BufInfo(FLAG_TRUNCATE, size, [], [], false)]
    {
      log := log + [BufInfo(FLAG_TRUNCATE, size, [], [], false)];
      content := Resized(content, size);
    }

    /** A whole batch of writes. */
    method WriteAll(shots: seq<Shot>)
      requires ShotsOk(shots)
      modifies this
      ensures content == After(old(content), shots)
      ensures log == old(log) + LogOf(old(content), shots)
    {
      ghost var f := content;
      assert shots[0..] == shots;
      for i := 0 to |shots|
        invariant After(content, shots[i..]) == After(f, shots)
        invariant log + LogOf(content, shots[i..]) == old(log) + LogOf(f, shots)
      {
        assert ShotOk(shots[i]);
        ghost var was, before := log, content;
        var s := shots[i];
        Write(s.data, s.offset, s.heap);
        assert shots[i..][0] == s && shots[i..][1..] == shots[i + 1..];
        Regroup(was, [Logged(before, s)], LogOf(content, shots[i + 1..]));
      }
    }

    /** A whole batch of writes and truncations. */
    method EditAll(edits: seq<Edit>)
      requires EditsOk(edits) && forall e <- edits :: e.Cut? ==> e.size > 0
      modifies this
      ensures content == AfterEdits(old(content), edits)
      ensures log == old(log) + LogOfEdits(old(content), edits)
    {
      ghost var f := content;
      assert edits[0..] == edits;
      for i := 0 to |edits|
        invariant AfterEdits(content, edits[i..]) == AfterEdits(f, edits)
        invariant log + LogOfEdits(content, edits[i..]) == old(log) + LogOfEdits(f, edits)
      {
        ghost var was, before := log, content;
        assert edits[i] in edits && edits[i..][0] == edits[i] && edits[i..][1..] == edits[i + 1..];
        Edit(edits[i]);
        Regroup(was, [Entry(before, edits[i])], LogOfEdits(content, edits[i + 1..]));
      }
    }

    method Edit(e: Edit)
      requires if e.Put? then ShotOk(e.shot) else e.size > 0
      modifies this
      ensures content == Edited(old(content), e) && log == old(log) + [Entry(old(content), e)]
    {
      match e
      case Put(s) => Write(s.data, s.offset, s.heap);
      case Cut(size) => Truncate(size);
    }

    /** sync_pack_write for a WRITE node. */
    method Pack() returns (r: Packed)
      ensures r.SendWrites? <==> WritesPay(log, |content|)
      ensures r.SendDelta? ==> r.base == Undo(content, log)
    {
      var originFileSize := Scan();
      var pays := Pays();
      if pays {
        return SendWrites;
      }
      var tmp := content;
      assert log[0..] == log;
      for i := 0 to |log|
        invariant Replay(tmp, log[i..]) == Replay(content, log)
      {
        assert log[i..][0] == log[i] && log[i..][1..] == log[i + 1..];
        if log[i].offset != FLAG_TRUNCATE {
          tmp := Pwrite(tmp, log[i].offset, log[i].buf);
        }
      }
      if originFileSize != INF {
        tmp := Resized(tmp, originFileSize);
      }
      return SendDelta(tmp);
    }

    /** The least offset of an append. */
    method Scan() returns (originFileSize: nat)
      ensures originFileSize == LeastAppend(log)
    {
      originFileSize := INF;
      assert log[0..] == log;
      LeastAppendBound(log);
      for i := 0 to |log|
        invariant originFileSize <= INF && Min(originFileSize, LeastAppend(log[i..])) == LeastAppend(log)
      {
        assert log[i..][0] == log[i] && log[i..][1..] == log[i + 1..];
        if log[i].offset != FLAG_TRUNCATE {
          if log[i].isAppend && log[i].offset < originFileSize {
            originFileSize := log[i].offset;
          }
        }
      }
    }

    /** The counters, and the choice they lead to. */
    method Pays() returns (pays: bool)
      ensures pays == WritesPay(log, |content|)
    {
      var writeSize, appendCount, writeCount := Counters();
      var ratio := 0.0;
      if writeCount != 0 {
        ratio := appendCount as real / writeCount as real;
      }
      pays := ratio > WRITE_RATIO || writeSize as real < WRITE_RATIO * |content| as real;
    }

    method Counters() returns (writeSize: int, appendCount: nat, writeCount: nat)
      ensures writeSize == ToInt32(WriteSize(log))
      ensures appendCount == AppendCount(log) && writeCount == WriteCount(log)
    {
      writeSize, appendCount, writeCount := 0, 0, 0;
      assert log[0..] == log;
      for i := 0 to |log|
        invariant ToInt32(writeSize + WriteSize(log[i..])) == ToInt32(WriteSize(log))
        invariant writeSize == ToInt32(writeSize)
        invariant appendCount + AppendCount(log[i..]) == AppendCount(log)
        invariant writeCount + WriteCount(log[i..]) == WriteCount(log)
      {
        assert log[i..][0] == log[i] && log[i..][1..] == log[i + 1..];
        if log[i].offset != FLAG_TRUNCATE {
          NarrowSum(writeSize, log[i].size, WriteSize(log[i + 1..]));
          NarrowOnce(writeSize + log[i].size);
          hide ToInt32;
          writeSize := ToInt32(writeSize + log[i].size);
          if log[i].isAppend {
            appendCount := appendCount + 1;
          }
          writeCount := writeCount + 1;
        }
      }
    }
  }

  lemma {:induction false} LeastAppendBound(log: seq<BufInfo>)
    ensures LeastAppend(log) <= INF
    decreases |log|
  {
    if log != [] {
      LeastAppendBound(log[1..]);
    }
  }

  /** A batch of writes, packed: if a delta is sent, its base is the file as it was. */
  method PackBatch(file: seq<Byte>, shots: seq<Shot>) returns (r: Packed, pending: PendingFile)
    requires ShotsOk(shots) && |file| < INF
    ensures fresh(pending) && pending.content == After(file, shots) && pending.log == LogOf(file, shots)
    ensures r.SendDelta? && Undoable(|file|, Extents(shots)) ==> r.base == file
  {
    pending := new PendingFile(file);
    pending.WriteAll(shots);
    r := pending.Pack();
    if Undoable(|file|, Extents(shots)) {
      UndoRestores(file, shots);
    }
  }

  /** The same for a batch that truncates as well. */
  method PackEdits(file: seq<Byte>, edits: seq<Edit>) returns (r: Packed, pending: PendingFile)
    requires EditsOk(edits) && forall e <- edits :: e.Cut? ==> e.size > 0
    ensures fresh(pending) && pending.content == AfterEdits(file, edits) && pending.log == LogOfEdits(file, edits)
    ensures r.SendWrites? <==> WritesPay(pending.log, |pending.content|)
    ensures r.SendDelta? && Reversible(|file|, Shapes(edits)) ==> r.base == file
  {
    pending := new PendingFile(file);
    pending.EditAll(edits);
    r := pending.Pack();
    if Reversible(|file|, Shapes(edits)) {
      UndoneIfReversible(file, edits);
    }
  }

  // ---------------------------------------------------------------------
  // When a batch goes out as writes
  // ---------------------------------------------------------------------

  /** How many calls write, how many of them start where the file then ends or later, and how
      many bytes they write. */
  function Writes(ss: seq<Shape>): (r: nat) {
    if ss == [] then 0 else (if ss[0].WriteTo? then 1 else 0) + Writes(ss[1..])
  }

  function Appends(n: nat, ss: seq<Shape>): (r: nat)
    decreases |ss|
  {
    if ss == [] then 0
    else (if ss[0].WriteTo? && ss[0].extent.offset >= n then 1 else 0) + Appends(LengthAfter(n, ss[0]), ss[1..])
  }

  function Written(ss: seq<Shape>): (r: nat) {
    if ss == [] then 0 else (if ss[0].WriteTo? then ss[0].extent.size else 0) + Written(ss[1..])
  }

  lemma {:induction false} Counted(f: seq<Byte>, edits: seq<Edit>)
    requires EditsOk(edits)
    ensures var log, ss := LogOfEdits(f, edits), Shapes(edits);
            WriteCount(log) == Writes(ss) && AppendCount(log) == Appends(|f|, ss) && WriteSize(log) == Written(ss)
    decreases |edits|
  {
    if edits != [] {
      Tails(f, edits);
      LengthStep(f, edits[0], f);
      Counted(Edited(f, edits[0]), edits[1..]);
    }
  }

  lemma {:induction false} MoreThanHalf(a: nat, b: nat)
    requires b > 0
    ensures a as real / b as real > WRITE_RATIO <==> 2 * a > b
  {
    var q := a as real / b as real;
    assert a as real == q * b as real;
    if q > 0.5 {
      assert q * b as real > 0.5 * b as real;
    } else {
      assert q * b as real <= 0.5 * b as real;
    }
  }

  /** A batch goes out as writes exactly when more than half of its writes append, or they
      write less than half the file's length, the total being taken as a signed 32-bit word. */
  lemma {:induction false} WhenWritesPay(f: seq<Byte>, edits: seq<Edit>)
    requires EditsOk(edits)
    ensures var ss := Shapes(edits);
            WritesPay(LogOfEdits(f, edits), |AfterEdits(f, edits)|)
            <==> 2 * Appends(|f|, ss) > Writes(ss) || 2 * ToInt32(Written(ss)) < FinalLength(|f|, ss)
  {
    hide FinalLength, Appends, Writes, Written, WriteCount, AppendCount, WriteSize, LogOfEdits, AfterEdits, Shapes;
    var ss := Shapes(edits);
    Counted(f, edits);
    Lengths(f, edits, f);
    NoMoreAppends(|f|, ss);
    if Writes(ss) > 0 {
      MoreThanHalf(Appends(|f|, ss), Writes(ss));
    }
  }

  lemma {:induction false} NoMoreAppends(n: nat, ss: seq<Shape>)
    ensures Appends(n, ss) <= Writes(ss)
    decreases |ss|
  {
    if ss != [] {
      NoMoreAppends(LengthAfter(n, ss[0]), ss[1..]);
    }
  }
}
