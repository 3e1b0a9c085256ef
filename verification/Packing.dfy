/** What a packed node means: whoever sends it as it says makes the server's new version the
    client's file. */
module Packing {
  import opened Bytes
  import opened Jobs
  import opened WriteLog
  import opened EditLog
  import opened WriteBatch
  import opened PackWrite
  import opened RoundTrip
  import opened Relations
  import opened QueueSpec
  import opened Client
  import DeltaSpec

  /** How a live node goes out: whole, as the writes themselves, or as a delta under the name
      of the file that was written. */
  lemma {:induction false} HowItGoesOut(n: Node, w: World)
    requires Live(n)
    ensures var m := PackedNode(n, w);
            && m.isPacked && m.time == n.time && !Live(m)
            && (m.op == NEWFILE <==> n.op == NEWFILE && (n.src in w.relation ==> n.src !in w.fits))
            && (m.op == WRITE <==> n.op == WRITE && w.writesPay(n.src))
            && (m.op == NEWFILE || m.op == WRITE || m.op == DELTA)
            && if m.op == DELTA then m.dst == n.src else m.src == n.src && m.baseVer == n.baseVer
  {
  }

  /** The name as it is sent. */
  function NameOf(path: Path): (name: seq<Byte>)
    ensures |name| == |path| + 1
  {
    path + [0]
  }

  /** A new file with a relation that fits.  The server has the related file under its version,
      so it makes the new file from the delta. */
  method DeliverMade(n: Node, w: World, files: map<Path, seq<Byte>>, server: Server, env: Env, inbuflen: nat)
    returns (o: Shipping, m: Node)
    requires Live(n) && n.op == NEWFILE && n.src in w.relation && n.src in w.fits && n.src in files
    requires w.relation[n.src] in files && |n.src| < MAXNAMELEN && n.time < TWO_64
    requires var base, ver := files[w.relation[n.src]], w.version(w.relation[n.src]);
             && ver in server.files && server.files[ver] == base && ver < TWO_64 && n.time != ver
             && Manageable(DEFAULT_BLOCK_LEN, |base|) && Safe(DEFAULT_BLOCK_LEN, |base|)
    requires |files[n.src]| < TWO_63 && DeltaSpec.EnvOk(env) && inbuflen > 0 && env.outbuflen > 0
    modifies server
    ensures m == PackedNode(n, w) && m.op == DELTA && m.dst == n.src && !o.Garbled?
    ensures o.TooLong? ==> 18 * |files[n.src]| + 300 >= TWO_32 && server.files == old(server.files)
    ensures o.Shipped? ==> server.files == old(server.files)[n.time := files[n.src]]
  {
    m := PackedNode(n, w);
    var base := files[w.relation[n.src]];
    o := DeliverDelta(base, base, files[n.src], m.baseVer, 0, m.time, NameOf(m.dst), server, env, inbuflen);
  }

  /** A batch of writes and truncations.  The server has the file as it was under the node's
      own base version. */
  method DeliverEdited(n: Node, w: World, file: seq<Byte>, edits: seq<Edit>, server: Server, env: Env, inbuflen: nat)
    returns (o: Shipping, m: Node, pending: PendingFile)
    requires Live(n) && n.op == WRITE && EditsFit(edits) && Reversible(|file|, Shapes(edits))
    requires w.writesPay(n.src) == WritesPay(LogOfEdits(file, edits), |AfterEdits(file, edits)|)
    requires 0 < n.baseVer < TWO_64 && n.time < TWO_64 && n.time != n.baseVer && |n.src| < MAXNAMELEN
    requires n.baseVer in server.files && server.files[n.baseVer] == file
    requires |file| < INF - DEFAULT_BLOCK_LEN && |AfterEdits(file, edits)| < TWO_63 && Safe(DEFAULT_BLOCK_LEN, |file|)
    requires DeltaSpec.EnvOk(env) && inbuflen > 0 && env.outbuflen > 0
    modifies server
    ensures m == PackedNode(n, w) && (m.op == DELTA || m.op == WRITE)
    ensures pending.content == AfterEdits(file, edits) && pending.log == LogOfEdits(file, edits)
    ensures o.TooLong? ==> server.files == old(server.files)
    ensures o.Shipped? ==> n.time in server.files && server.files[n.time] == AfterEdits(file, edits)
    ensures o.Garbled? <==> m.op == WRITE && HasCut(edits) && !o.TooLong?
  {
    hide Message, AfterEdits, LogOfEdits, ParseLog, LogBytes, WritesOf, HasCut, Reversible, WritesPay;
    m := PackedNode(n, w);
    var packed;
    packed, pending := PackEdits(file, edits);
    if m.op == DELTA {
      o := DeliverDelta(file, packed.base, pending.content, m.baseVer, m.baseVer, m.time, NameOf(m.dst), server, env,
                        inbuflen);
    } else {
      o := DeliverLog(file, edits, pending.log, m.baseVer, m.time, NameOf(m.src), server);
    }
  }
}
