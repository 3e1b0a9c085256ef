/** The message that carries a batch of writes: built by sync_send, taken apart and
    replayed by the server's func_write. */
module WriteBatch {
  import opened Bytes
  import opened Files
  import opened WriteLog

  const MAXNAMELEN := 256

  // ---------------------------------------------------------------------
  // The bytes of a message
  // ---------------------------------------------------------------------

  function EntryBytes(e: BufInfo): (r: seq<Byte>) {
    Le(e.offset, 4) + Le(e.size, 4) + (if e.offset != FLAG_TRUNCATE then e.newbuf else [])
  }

  function LogBytes(log: seq<BufInfo>): (r: seq<Byte>)
    decreases |log|
  {
    if log == [] then [] else EntryBytes(log[0]) + LogBytes(log[1..])
  }

  /** First the offset, then the size, low-order byte first, then what was written. */
  lemma {:induction false} EntryLayout(a: Byte, b: Byte, c: Byte, d: Byte, p: Byte, q: Byte, r: Byte, t: Byte,
                                       e: BufInfo)
    requires e.offset == Number(a, b, c, d) && e.size == Number(p, q, r, t)
    ensures EntryBytes(e) == [a, b, c, d, p, q, r, t] + if e.offset != FLAG_TRUNCATE then e.newbuf else []
  {
    hide Le, Number;
    FourLe(a, b, c, d);
    FourLe(p, q, r, t);
    assert [a, b, c, d] + [p, q, r, t] == [a, b, c, d, p, q, r, t];
  }

  /** `name` includes its terminating zero. */
  function MessageHead(baseVer: nat, newVer: nat, name: seq<Byte>): (r: seq<Byte>) {
    Le(baseVer, 8) + Le(newVer, 8) + Le(|name|, 2) + name
  }

  function Message(baseVer: nat, newVer: nat, name: seq<Byte>, log: seq<BufInfo>): (r: seq<Byte>) {
    MessageHead(baseVer, newVer, name) + LogBytes(log)
  }

  /** What the sender relies on: sizes that are those of the buffers. */
  predicate EntryOk(e: BufInfo) {
    && (e.offset == FLAG_TRUNCATE || |e.newbuf| == e.size)
    && e.offset < TWO_32 && e.size < TWO_32
  }

  predicate LogFits(log: seq<BufInfo>) {
    forall e <- log :: EntryOk(e)
  }

  // ---------------------------------------------------------------------
  // The sender
  // ---------------------------------------------------------------------

  /** The first loop of the WRITE case: how much room the log needs. */
  method LogRoom(log: seq<BufInfo>) returns (n: nat)
    requires LogFits(log)
    ensures n == |LogBytes(log)|
  {
    n := 0;
    assert log[0..] == log;
    for i := 0 to |log|
      invariant n + |LogBytes(log[i..])| == |LogBytes(log)|
    {
      assert log[i..][0] == log[i] && log[i..][1..] == log[i + 1..];
      assert EntryOk(log[i]);
      if log[i].offset != FLAG_TRUNCATE {
        n := n + log[i].size + 8;
      } else {
        n := n + 8;
      }
    }
  }

  method PutEntry(buf: array<Byte>, at: nat, e: BufInfo) returns (next: nat)
    requires EntryOk(e) && at + |EntryBytes(e)| <= buf.Length
    modifies buf
    ensures next == at + |EntryBytes(e)| && buf[..next] == old(buf[..at]) + EntryBytes(e)
  {
    ghost var before := buf[..at];
    Memcpy(buf, at, Le(e.offset, 4));
    Memcpy(buf, at + 4, Le(e.size, 4));
    next := at + 8;
    assert buf[..next] == before + (Le(e.offset, 4) + Le(e.size, 4));
    if e.offset != FLAG_TRUNCATE {
      Memcpy(buf, next, e.newbuf);
      next := next + e.size;
      Regroup(before, Le(e.offset, 4) + Le(e.size, 4), e.newbuf);
    }
  }

  method PutHead(buf: array<Byte>, baseVer: nat, newVer: nat, name: seq<Byte>) returns (next: nat)
    requires |name| < TWO_16 && 18 + |name| <= buf.Length
    modifies buf
    ensures next == 18 + |name| && buf[..next] == MessageHead(baseVer, newVer, name)
  {
    Memcpy(buf, 0, Le(baseVer, 8));
    Memcpy(buf, 8, Le(newVer, 8));
    Memcpy(buf, 16, Le(|name|, 2));
    Memcpy(buf, 18, name);
    next := 18 + |name|;
  }

  /** The WRITE case of sync_send: the buffer is exactly filled. */
  method SendWrite(baseVer: nat, newVer: nat, name: seq<Byte>, log: seq<BufInfo>) returns (message: array<Byte>)
    requires |name| < TWO_16 && LogFits(log) && |Message(baseVer, newVer, name, log)| < TWO_32
    ensures fresh(message) && message[..] == Message(baseVer, newVer, name, log)
  {
    var n := LogRoom(log);
    var memSize := 18 + |name| + n;
    message := new Byte[memSize];
    var at: nat := PutHead(message, baseVer, newVer, name);
    assert log[0..] == log;
    for i := 0 to |log|
      invariant at <= memSize && at + |LogBytes(log[i..])| == memSize
      invariant message[..at] + LogBytes(log[i..]) == Message(baseVer, newVer, name, log)
    {
      assert log[i..][0] == log[i] && log[i..][1..] == log[i + 1..];
      assert EntryOk(log[i]);
      ghost var before := message[..at];
      at := PutEntry(message, at, log[i]);
      Regroup(before, EntryBytes(log[i]), LogBytes(log[i + 1..]));
    }
    assert memSize == at;
    assert message[..at] == message[..];
    assert LogBytes(log[|log|..]) == [];
  }

  // ---------------------------------------------------------------------
  // The receiver
  // ---------------------------------------------------------------------

  /** How func_write ends: `Overrun` reads behind the message or writes behind `name`. */
  datatype Outcome = Written | AssertFails | Overrun

  /** The writes in the tail of a message, or nothing when it is cut short. */
  datatype Parsed = Parsed(writes: seq<(nat, seq<Byte>)>) | CutShort

  function ParseLog(s: seq<Byte>): (r: Parsed)
    decreases |s|
  {
    if s == [] then Parsed([])
    else if |s| < 8 then CutShort
    else
      var offset, size := FromLe(s[..4]), FromLe(s[4..8]);
      if 8 + size > |s| then CutShort
      else
        var rest := ParseLog(s[8 + size..]);
        if rest.CutShort? then CutShort else Parsed([(offset, s[8..8 + size])] + rest.writes)
  }

  function WriteAll(f: seq<Byte>, writes: seq<(nat, seq<Byte>)>): (r: seq<Byte>)
    decreases |writes|
  {
    if writes == [] then f else WriteAll(Pwrite(f, writes[0].0, writes[0].1), writes[1..])
  }

  /** The loop of func_write. */
  method ReplayLog(base: seq<Byte>, log: seq<Byte>) returns (ok: bool, f: seq<Byte>)
    ensures ok <==> ParseLog(log).Parsed?
    ensures ok ==> f == WriteAll(base, ParseLog(log).writes)
  {
    hide WriteAll, FromLe, Pwrite;
    f := base;
    var at := 0;
    ghost var all := ParseLog(log);
    assert log[0..] == log;
    while at < |log|
      invariant 0 <= at <= |log|
      invariant all.CutShort? <==> ParseLog(log[at..]).CutShort?
      invariant all.Parsed? ==> WriteAll(f, ParseLog(log[at..]).writes) == WriteAll(base, all.writes)
    {
      var s := log[at..];
      if |s| < 8 {
        return false, f;
      }
      var offset, size := FromLe(s[..4]), FromLe(s[4..8]);
      if 8 + size > |s| {
        return false, f;
      }
      DropDrop(log, at, 8 + size);
      ghost var g := f;
      f := Pwrite(f, offset, s[8..8 + size]);
      WriteOne(g, offset, s[8..8 + size], ParseLog(log[at + 8 + size..]));
      at := at + 8 + size;
    }
    WriteNothing(f);
    return true, f;
  }

  lemma {:induction false} WriteNothing(f: seq<Byte>)
    ensures WriteAll(f, []) == f
  {
  }

  lemma {:induction false} WriteOne(f: seq<Byte>, offset: nat, data: seq<Byte>, rest: Parsed)
    ensures rest.Parsed? ==>
              WriteAll(f, [(offset, data)] + rest.writes) == WriteAll(Pwrite(f, offset, data), rest.writes)
  {
    if rest.Parsed? {
      assert ([(offset, data)] + rest.writes)[1..] == rest.writes;
    }
  }

  /** The server's files, named after their versions. */
  class Server {
    var files: map<nat, seq<Byte>>

    constructor (files: map<nat, seq<Byte>>)
      ensures this.files == files
    {
      this.files := files;
    }

    /** The file replayed onto: the old version, moved to its new name, or whatever bears the
        new name when there is no old version. */
    function Target(oldver: nat, newver: nat): (r: seq<Byte>)
      reads this
    {
      if oldver in files then files[oldver] else if newver in files then files[newver] else []
    }

    /** func_write. */
    method FuncWrite(workload: seq<Byte>) returns (o: Outcome)
      modifies this
      ensures |workload| < 16 ==> o == Overrun
      ensures |workload| >= 16 && FromLe(workload[..8]) == 0 ==> o == AssertFails && files == old(files)
      ensures 16 <= |workload| < 18 && FromLe(workload[..8]) != 0 ==> o == Overrun
      ensures |workload| >= 18 && FromLe(workload[..8]) != 0 ==>
                var oldver, newver, namelen := FromLe(workload[..8]), FromLe(workload[8..16]), FromLe(workload[16..18]);
                if namelen > MAXNAMELEN || 18 + namelen > |workload| then o == Overrun
                else var p := ParseLog(workload[18 + namelen..]);
                     if p.CutShort? then o == Overrun
                     else
                       && o == Written
                       && files == old(files) - {oldver}
                                   + map[newver := WriteAll(old(Target(oldver, newver)), p.writes)]
    {
      hide ParseLog, WriteAll, FromLe;
      if |workload| < 16 {
        return Overrun;
      }
      var oldver, newver := FromLe(workload[..8]), FromLe(workload[8..16]);
      if oldver == 0 {
        return AssertFails;
      }
      if |workload| < 18 {
        return Overrun;
      }
      var namelen := FromLe(workload[16..18]);
      if namelen > MAXNAMELEN || 18 + namelen > |workload| {
        return Overrun;
      }
      var ok, f := ReplayLog(Target(oldver, newver), workload[18 + namelen..]);
      if !ok {
        return Overrun;
      }
      files := files - {oldver} + map[newver := f];
      return Written;
    }
  }

  // ---------------------------------------------------------------------
  // Round trip
  // ---------------------------------------------------------------------

  predicate NoMarkers(log: seq<BufInfo>) {
    forall e <- log :: e.offset != FLAG_TRUNCATE
  }

  function WritesOf(log: seq<BufInfo>): (r: seq<(nat, seq<Byte>)>)
    decreases |log|
  {
    if log == [] then [] else [(log[0].offset, log[0].newbuf)] + WritesOf(log[1..])
  }

  lemma {:induction false} ParseEntry(e: BufInfo, tail: seq<Byte>)
    requires EntryOk(e) && e.offset != FLAG_TRUNCATE
    ensures ParseLog(EntryBytes(e) + tail)
         == if ParseLog(tail).CutShort? then CutShort else Parsed([(e.offset, e.newbuf)] + ParseLog(tail).writes)
  {
    hide Le, FromLe;
    var s := EntryBytes(e) + tail;
    WordRoundTrip(e.offset, 4);
    WordRoundTrip(e.size, 4);
    assert s[..4] == Le(e.offset, 4) && s[4..8] == Le(e.size, 4);
    assert s[8..8 + e.size] == e.newbuf && s[8 + e.size..] == tail;
  }

  /** Without truncation markers the server finds exactly the writes of the log. */
  lemma {:induction false} ParseOfLogBytes(log: seq<BufInfo>)
    requires LogFits(log) && NoMarkers(log)
    ensures ParseLog(LogBytes(log)) == Parsed(WritesOf(log))
    decreases |log|
  {
    if log != [] {
      hide EntryBytes;
      assert EntryOk(log[0]) && log[0].offset != FLAG_TRUNCATE;
      ParseOfLogBytes(log[1..]);
      ParseEntry(log[0], LogBytes(log[1..]));
    }
  }

  /** The head is read back field by field. */
  lemma {:induction false} HeadRoundTrip(baseVer: nat, newVer: nat, name: seq<Byte>, tail: seq<Byte>)
    requires baseVer < TWO_64 && newVer < TWO_64 && |name| < TWO_16
    ensures var s := MessageHead(baseVer, newVer, name) + tail;
            && |s| >= 18 + |name| && FromLe(s[..8]) == baseVer && FromLe(s[8..16]) == newVer
            && FromLe(s[16..18]) == |name| && s[18 + |name|..] == tail
  {
    hide Le, FromLe;
    var s := MessageHead(baseVer, newVer, name) + tail;
    WordRoundTrip(baseVer, 8);
    WordRoundTrip(newVer, 8);
    WordRoundTrip(|name|, 2);
    assert s[..8] == Le(baseVer, 8) && s[8..16] == Le(newVer, 8) && s[16..18] == Le(|name|, 2);
  }

  /** A marker is sent without bytes but read as a write of that size. */
  lemma {:induction false} ParseMarker(e: BufInfo, tail: seq<Byte>)
    requires EntryOk(e) && e.offset == FLAG_TRUNCATE
    ensures ParseLog(EntryBytes(e) + tail)
         == if e.size > |tail| || ParseLog(tail[e.size..]).CutShort? then CutShort
            else Parsed([(e.offset, tail[..e.size])] + ParseLog(tail[e.size..]).writes)
  {
    hide Le, FromLe;
    var s := EntryBytes(e) + tail;
    WordRoundTrip(e.offset, 4);
    WordRoundTrip(e.size, 4);
    assert s[..4] == Le(e.offset, 4) && s[4..8] == Le(e.size, 4);
    assert s[8..] == tail;
    if e.size <= |tail| {
      assert s[8..8 + e.size] == tail[..e.size] && s[8 + e.size..] == tail[e.size..];
    }
  }

  /** No marker announces bytes that are not there. */
  predicate MarkersEmpty(log: seq<BufInfo>) {
    forall e <- log :: e.offset == FLAG_TRUNCATE ==> e.size == 0
  }

  /** The server finds the entries of the log exactly when the log holds no truncation to a
      non-zero size, the only kind the client marks; with one, it misreads what follows. */
  lemma {:induction false} ParsesBackIff(log: seq<BufInfo>)
    requires LogFits(log) && forall e <- log :: e.offset == FLAG_TRUNCATE ==> e.newbuf == []
    ensures ParseLog(LogBytes(log)) == Parsed(WritesOf(log)) <==> MarkersEmpty(log)
    decreases |log|
  {
    if log != [] {
      hide EntryBytes, ParseLog;
      var e, tail := log[0], LogBytes(log[1..]);
      assert EntryOk(e);
      ParsesBackIff(log[1..]);
      assert MarkersEmpty(log) <==> MarkersEmpty([e]) && MarkersEmpty(log[1..]);
      SameTail((e.offset, e.newbuf), ParseLog(tail), WritesOf(log[1..]));
      if e.offset != FLAG_TRUNCATE {
        ParseEntry(e, tail);
      } else {
        ParseMarker(e, tail);
        assert tail[0..] == tail && tail[..0] == [];
        assert WritesOf(log)[0] == (e.offset, []);
      }
    } else {
      ParseOfLogBytes(log);
    }
  }

  lemma {:induction false} SameTail(w: (nat, seq<Byte>), p: Parsed, ws: seq<(nat, seq<Byte>)>)
    ensures p.Parsed? ==> ([w] + p.writes == [w] + ws <==> p.writes == ws)
  {
    if p.Parsed? {
      assert ([w] + p.writes)[1..] == p.writes && ([w] + ws)[1..] == ws;
    }
  }

  // ---------------------------------------------------------------------
  // Client and server agree
  // ---------------------------------------------------------------------

  lemma {:induction false} LogOfBatch(f: seq<Byte>, shots: seq<Shot>)
    requires ShotsOk(shots) && (forall s <- shots :: |s.data| < TWO_32)
    ensures LogFits(LogOf(f, shots)) && NoMarkers(LogOf(f, shots))
    decreases |shots|
  {
    if shots != [] {
      var f' := Pwrite(f, shots[0].offset, shots[0].data);
      LogOfBatch(f', shots[1..]);
      var e := Logged(f, shots[0]);
      assert EntryOk(e);
      assert LogOf(f, shots) == [e] + LogOf(f', shots[1..]);
    }
  }

  lemma {:induction false} SameWrites(f: seq<Byte>, g: seq<Byte>, shots: seq<Shot>)
    requires ShotsOk(shots)
    ensures WriteAll(g, WritesOf(LogOf(f, shots))) == After(g, shots)
    decreases |shots|
  {
    if shots != [] {
      var f' := Pwrite(f, shots[0].offset, shots[0].data);
      var log := LogOf(f, shots);
      assert log[1..] == LogOf(f', shots[1..]);
      assert WritesOf(log)[1..] == WritesOf(log[1..]);
      SameWrites(f', Pwrite(g, shots[0].offset, shots[0].data), shots[1..]);
    }
  }

  /** A batch written at the client, sent, parsed and replayed: the server's new version is
      the client's file. */
  method DeliverWrites(ghost file: seq<Byte>, ghost shots: seq<Shot>, log: seq<BufInfo>,
                       baseVer: nat, newVer: nat, name: seq<Byte>, server: Server) returns (o: Outcome)
    requires ShotsOk(shots) && (forall s <- shots :: |s.data| < TWO_32) && log == LogOf(file, shots)
    requires 0 < baseVer < TWO_64 && newVer < TWO_64 && |name| <= MAXNAMELEN
    requires |Message(baseVer, newVer, name, log)| < TWO_32
    requires baseVer in server.files && server.files[baseVer] == file
    modifies server
    ensures o == Written && server.files == old(server.files) - {baseVer} + map[newVer := After(file, shots)]
  {
    hide LogBytes, MessageHead, ParseLog, WriteAll;
    LogOfBatch(file, shots);
    var message := SendWrite(baseVer, newVer, name, log);
    HeadRoundTrip(baseVer, newVer, name, LogBytes(log));
    ParseOfLogBytes(log);
    SameWrites(file, file, shots);
    o := server.FuncWrite(message[..]);
  }
}
