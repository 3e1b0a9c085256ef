/** One batch of writes on its way from the client to the server: logged, packed, and sent
    either as the writes themselves or as a delta against the rebuilt old file. */
module Client {
  import opened Bytes
  import opened Jobs
  import opened PatchSpec
  import opened Streams
  import opened WriteLog
  import opened EditLog
  import opened WriteBatch
  import opened DeltaMessage
  import opened PackWrite
  import opened RoundTrip
  import DeltaSpec
  import Whole

  const DEFAULT_BLOCK_LEN := 2048
  const DEFAULT_STRONG_LEN := 8

  /** Whether a message went out: its size is a 32-bit word.  `Garbled`: it went out as writes
      with a truncation among them, which the server misreads. */
  datatype Shipping = Shipped | TooLong | Garbled

  /** A delta against the file that the server has as `baseVer`, patched there; the target's
      own old version is sent along, but not used. */
  method DeliverDelta(ghost file: seq<Byte>, base: seq<Byte>, content: seq<Byte>, baseVer: nat, oldVer: nat,
                      newVer: nat, name: seq<Byte>, server: Server, env: Env, inbuflen: nat) returns (o: Shipping)
    requires base == file && baseVer in server.files && server.files[baseVer] == file
    requires baseVer < TWO_64 && oldVer < TWO_64 && newVer < TWO_64 && newVer != baseVer && |name| <= MAXNAMELEN
    requires Manageable(DEFAULT_BLOCK_LEN, |file|) && Safe(DEFAULT_BLOCK_LEN, |file|) && |content| < TWO_63
    requires DeltaSpec.EnvOk(env) && inbuflen > 0 && env.outbuflen > 0
    modifies server
    ensures !o.Garbled? && (o.TooLong? ==> 18 * |content| + 300 >= TWO_32 && server.files == old(server.files))
    ensures o.Shipped? ==> server.files == old(server.files)[newVer := content]
  {
    hide PatchOf, Hangs, DeltaSpec.DeltaOf, Loaded, DeltaBytes, ParseDelta;
    var ours := env.(basis := base);
    var delta, v := Whole.ComputeDelta(content, DEFAULT_BLOCK_LEN, DEFAULT_STRONG_LEN, ours, inbuflen);
    DeltaSpec.DeltaIsShort(DeltaSpec.RulesOf(v, ours), content);
    if 30 + |name| + |delta| >= TWO_32 {
      return TooLong;
    }
    var message := SendDeltaFile(baseVer, oldVer, newVer, name, delta);
    ParseDeltaBytes(baseVer, oldVer, newVer, name, delta);
    PatchBlocksIff(file, delta);
    var p := FuncDelta(server, message[..], env, inbuflen, Whole.EnoughRounds(|delta|, |content|));
    return Shipped;
  }

  predicate HasCut(edits: seq<Edit>) {
    exists e <- edits :: e.Cut?
  }

  /** Sizes the log can hold. */
  predicate EditsFit(edits: seq<Edit>) {
    EditsOk(edits) && forall e <- edits :: if e.Put? then |e.shot.data| < TWO_32 else 0 < e.size < TWO_32
  }

  function ShotsOf(edits: seq<Edit>): (shots: seq<Shot>)
    requires !HasCut(edits)
    ensures |shots| == |edits|
  {
    if edits == [] then [] else
    assert edits[0].Put?;
    assert forall e <- edits[1..] :: e in edits;
    [edits[0].shot] + ShotsOf(edits[1..])
  }

  lemma {:induction false} OnlyPuts(edits: seq<Edit>)
    requires !HasCut(edits) && EditsFit(edits)
    ensures Puts(ShotsOf(edits)) == edits && ShotsOk(ShotsOf(edits))
    ensures forall s <- ShotsOf(edits) :: |s.data| < TWO_32
    decreases |edits|
  {
    if edits != [] {
      assert edits[0].Put? && forall e <- edits[1..] :: e in edits;
      OnlyPuts(edits[1..]);
      assert ShotsOf(edits)[1..] == ShotsOf(edits[1..]);
    }
  }

  /** The log of such a batch can be sent, and holds a non-empty marker for each truncation. */
  lemma {:induction false} LogOfEditsFits(f: seq<Byte>, edits: seq<Edit>)
    requires EditsFit(edits)
    ensures var log := LogOfEdits(f, edits);
            LogFits(log) && (forall e <- log :: e.offset == FLAG_TRUNCATE ==> e.newbuf == [])
            && (MarkersEmpty(log) <==> !HasCut(edits))
    decreases |edits|
  {
    if edits != [] {
      assert forall e <- edits[1..] :: e in edits;
      Tails(f, edits);
      LogOfEditsFits(Edited(f, edits[0]), edits[1..]);
      var log, e := LogOfEdits(f, edits), Entry(f, edits[0]);
      assert log == [e] + log[1..] && EntryOk(e);
      assert HasCut(edits) <==> edits[0].Cut? || HasCut(edits[1..]);
      assert MarkersEmpty(log) <==> (e.offset == FLAG_TRUNCATE ==> e.size == 0) && MarkersEmpty(log[1..]);
    }
  }

  /** A batch sent as writes: the server reads it as it was meant exactly when no truncation
      is in it. */
  method DeliverLog(ghost file: seq<Byte>, edits: seq<Edit>, log: seq<BufInfo>, baseVer: nat, newVer: nat,
                    name: seq<Byte>, server: Server) returns (o: Shipping)
    requires EditsFit(edits) && log == LogOfEdits(file, edits)
    requires 0 < baseVer < TWO_64 && newVer < TWO_64 && |name| <= MAXNAMELEN
    requires baseVer in server.files && server.files[baseVer] == file
    modifies server
    ensures o.TooLong? <==> |Message(baseVer, newVer, name, log)| >= TWO_32
    ensures o.TooLong? ==> server.files == old(server.files)
    ensures o.Shipped? ==> ParseLog(LogBytes(log)) == Parsed(WritesOf(log)) && !HasCut(edits)
    ensures o.Shipped? ==> newVer in server.files && server.files[newVer] == AfterEdits(file, edits)
    ensures o.Garbled? ==> ParseLog(LogBytes(log)) != Parsed(WritesOf(log)) && HasCut(edits)
  {
    hide Message, AfterEdits, LogOfEdits, ParseLog, LogBytes, WritesOf, HasCut;
    LogOfEditsFits(file, edits);
    ParsesBackIff(log);
    if |Message(baseVer, newVer, name, log)| >= TWO_32 {
      return TooLong;
    }
    if HasCut(edits) {
      var message := SendWrite(baseVer, newVer, name, log);
      var misread := server.FuncWrite(message[..]);
      return Garbled;
    }
    OnlyPuts(edits);
    PutsAgree(file, ShotsOf(edits));
    var w := DeliverWrites(file, ShotsOf(edits), log, baseVer, newVer, name, server);
    return Shipped;
  }

  /** A batch of writes and truncations.  Sent as a delta it gives the server the client's
      file, for a reversible batch and an old file whose last block is safe.  Sent as writes
      it does so exactly when it holds no truncation. */
  method ShipEdits(file: seq<Byte>, edits: seq<Edit>, baseVer: nat, newVer: nat, name: seq<Byte>,
                   server: Server, env: Env, inbuflen: nat) returns (o: Shipping, pending: PendingFile)
    requires EditsFit(edits) && Reversible(|file|, Shapes(edits))
    requires 0 < baseVer < TWO_64 && newVer < TWO_64 && newVer != baseVer && |name| <= MAXNAMELEN
    requires baseVer in server.files && server.files[baseVer] == file
    requires |file| < INF - DEFAULT_BLOCK_LEN && |AfterEdits(file, edits)| < TWO_63 && Safe(DEFAULT_BLOCK_LEN, |file|)
    requires DeltaSpec.EnvOk(env) && inbuflen > 0 && env.outbuflen > 0
    modifies server
    ensures pending.content == AfterEdits(file, edits) && pending.log == LogOfEdits(file, edits)
    ensures o.TooLong? ==>
              && (18 * |pending.content| + 300 >= TWO_32 || |Message(baseVer, newVer, name, pending.log)| >= TWO_32)
              && server.files == old(server.files)
    ensures o.Shipped? ==> newVer in server.files && server.files[newVer] == pending.content
    ensures o.Garbled? ==> HasCut(edits) && WritesPay(pending.log, |pending.content|)
                           && ParseLog(LogBytes(pending.log)) != Parsed(WritesOf(pending.log))
  {
    hide Message, AfterEdits, LogOfEdits, ParseLog, LogBytes, WritesOf, HasCut, Reversible, WritesPay;
    var packed;
    packed, pending := PackEdits(file, edits);
    if packed.SendDelta? {
      o := DeliverDelta(file, packed.base, pending.content, baseVer, baseVer, newVer, name, server, env,
                        inbuflen);
    } else {
      o := DeliverLog(file, edits, pending.log, baseVer, newVer, name, server);
    }
  }

  lemma {:induction false} PutsFit(shots: seq<Shot>)
    requires ShotsOk(shots) && forall s <- shots :: |s.data| < TWO_32
    ensures EditsFit(Puts(shots)) && !HasCut(Puts(shots))
    decreases |shots|
  {
    if shots != [] {
      PutsFit(shots[1..]);
      assert Puts(shots) == [Put(shots[0])] + Puts(shots[1..]);
    }
  }

  /** Whichever way the batch is sent, the server's new version is the client's file: for an
      undoable batch, and an old file whose last block is safe. */
  method ShipBatch(file: seq<Byte>, shots: seq<Shot>, baseVer: nat, newVer: nat, name: seq<Byte>,
                   server: Server, env: Env, inbuflen: nat) returns (o: Shipping, pending: PendingFile)
    requires ShotsOk(shots) && (forall s <- shots :: |s.data| < TWO_32) && Undoable(|file|, Extents(shots))
    requires 0 < baseVer < TWO_64 && newVer < TWO_64 && newVer != baseVer && |name| <= MAXNAMELEN
    requires baseVer in server.files && server.files[baseVer] == file
    requires |file| < INF - DEFAULT_BLOCK_LEN && |After(file, shots)| < TWO_63 && Safe(DEFAULT_BLOCK_LEN, |file|)
    requires DeltaSpec.EnvOk(env) && inbuflen > 0 && env.outbuflen > 0
    modifies server
    ensures pending.content == After(file, shots) && !o.Garbled?
    ensures o.TooLong? ==>
              && (|| 18 * |After(file, shots)| + 300 >= TWO_32
                  || |Message(baseVer, newVer, name, LogOf(file, shots))| >= TWO_32)
              && server.files == old(server.files)
    ensures o.Shipped? ==> newVer in server.files && server.files[newVer] == pending.content
  {
    hide Message, After, LogOf, Undoable, Reversible, AfterEdits, LogOfEdits, HasCut, Puts, EditsFit;
    PutsFit(shots);
    PutsAgree(file, shots);
    ExtentsStartLow(shots);
    ReversibleWrites(|file|, Extents(shots));
    o, pending := ShipEdits(file, Puts(shots), baseVer, newVer, name, server, env, inbuflen);
  }
}
