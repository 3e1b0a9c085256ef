/** The greedy matching the delta job performs, as one function of the signature,
    the new file and the output buffer size, without buffers or blocking. */
module DeltaSpec {
  import opened Bytes
  import opened NetInt
  import opened Commands
  import opened Checksums
  import opened Sumset
  import opened Search
  import opened Jobs

  /** What has been scanned but not yet turned into a command. */
  datatype Pending =
    | Nothing
    | Miss(data: seq<Byte>)
    | Match(pos: nat, len: nat)

  /** A pending item that fits its command with `n` bytes still to scan. */
  predicate PendOk(p: Pending, outbuflen: nat, n: nat) {
    match p
    case Nothing => n < TWO_63
    case Miss(data) => 1 <= |data| <= Max(1, outbuflen) && n < TWO_63
    case Match(pos, len) => 1 <= len && pos < TWO_31 && len + n < TWO_63
  }

  function PendCmds(p: Pending): (r: seq<Cmd>) {
    match p
    case Nothing => []
    case Miss(data) => [Literal(data)]
    case Match(pos, len) => [Copy(pos, len)]
  }

  function PendBytes(p: Pending): (r: seq<Byte>) {
    match p
    case Nothing => []
    case Miss(data) => LiteralHead(|data|) + data
    case Match(pos, len) => CopyHead(pos, len)
  }

  function MissData(p: Pending): (r: seq<Byte>) {
    if p.Miss? then p.data else []
  }

  /** A miss must be preceded by a flush: the last was a match, or a full literal. */
  predicate MissFlushes(p: Pending, outbuflen: nat) {
    p.Match? || (p.Miss? && |p.data| >= outbuflen)
  }

  /** A match can be merged into the last one. */
  predicate Extends(p: Pending, pos: nat) {
    p.Match? && p.pos + p.len == pos
  }

  /** Everything the scan depends on: what a search at position n with `u` unscanned
      returns, the block length, and the literal limit. */
  datatype Rules = Rules(look: (nat, seq<Byte>) -> Hit, blockLen: int, outbuflen: nat)

  ghost predicate RulesOk(g: Rules) {
    && g.blockLen >= 1 && g.outbuflen < TWO_31
    && forall n, u :: g.look(n, u).Hit? ==> g.look(n, u).pos < TWO_31
  }

  /** Length of the window looked at when `u` is unscanned. */
  function Width(g: Rules, u: seq<Byte>): (w: nat)
    requires g.blockLen >= 1
    ensures w <= g.blockLen && w <= |u| && (u != [] ==> w > 0)
  {
    Min(g.blockLen, |u|)
  }

  ghost predicate ScanReady(g: Rules, u: seq<Byte>, p: Pending) {
    RulesOk(g) && PendOk(p, g.outbuflen, |u|)
  }

  /** The commands for the unscanned bytes `u`, when `p` is pending and n bytes were scanned. */
  ghost function Scan(g: Rules, n: nat, u: seq<Byte>, p: Pending): (cs: seq<Cmd>)
    requires ScanReady(g, u, p)
    ensures AllEncodable(cs)
    decreases |u|
  {
    if u == [] then PendCmds(p) + [End] else
    match g.look(n, u)
    case Hit(pos) =>
      var w := Width(g, u);
      if Extends(p, pos) then Scan(g, n + w, u[w..], Match(p.pos, p.len + w))
      else PendCmds(p) + Scan(g, n + w, u[w..], Match(pos, w))
    case NoHit =>
      if MissFlushes(p, g.outbuflen) then PendCmds(p) + Scan(g, n + 1, u[1..], Miss([u[0]]))
      else Scan(g, n + 1, u[1..], Miss(MissData(p) + [u[0]]))
  }

  /** The bytes still to be sent in that situation. */
  ghost function Future(g: Rules, n: nat, u: seq<Byte>, p: Pending): (r: seq<Byte>)
    requires ScanReady(g, u, p)
  {
    EncodeAll(Scan(g, n, u, p))
  }

  /** The whole delta. */
  ghost function DeltaOf(g: Rules, newFile: seq<Byte>): (r: seq<Byte>)
    requires RulesOk(g) && |newFile| < TWO_63
  {
    EncodeInt(DELTA_MAGIC, 4) + Future(g, 0, newFile, Nothing)
  }

  // ---------------------------------------------------------------------
  // One step of the scan, on the bytes
  // ---------------------------------------------------------------------

  /** One step of the scan: what is emitted, how many bytes are passed, what is pending then. */
  function Step(h: Hit, w: nat, first: Byte, p: Pending, outbuflen: nat): (r: (seq<Cmd>, nat, Pending)) {
    match h
    case Hit(pos) =>
      if Extends(p, pos) then ([], w, Match(p.pos, p.len + w)) else (PendCmds(p), w, Match(pos, w))
    case NoHit =>
      if MissFlushes(p, outbuflen) then (PendCmds(p), 1, Miss([first])) else ([], 1, Miss(MissData(p) + [first]))
  }

  lemma {:induction false} ScanHit(g: Rules, n: nat, u: seq<Byte>, p: Pending, pos: nat)
    requires ScanReady(g, u, p) && u != [] && g.look(n, u) == Hit(pos)
    ensures pos < TWO_31
    ensures var w := Width(g, u);
            && PendOk(Match(pos, w), g.outbuflen, |u[w..]|)
            && (Extends(p, pos) ==> PendOk(Match(p.pos, p.len + w), g.outbuflen, |u[w..]|))
            && Scan(g, n, u, p) == if Extends(p, pos) then Scan(g, n + w, u[w..], Match(p.pos, p.len + w))
                                   else PendCmds(p) + Scan(g, n + w, u[w..], Match(pos, w))
  {
    assert g.look(n, u).Hit?;
  }

  lemma {:induction false} ScanMiss(g: Rules, n: nat, u: seq<Byte>, p: Pending)
    requires ScanReady(g, u, p) && u != [] && g.look(n, u).NoHit?
    ensures var flush := MissFlushes(p, g.outbuflen);
            && PendOk(Miss([u[0]]), g.outbuflen, |u[1..]|)
            && (!flush ==> PendOk(Miss(MissData(p) + [u[0]]), g.outbuflen, |u[1..]|))
            && Scan(g, n, u, p) == if flush then PendCmds(p) + Scan(g, n + 1, u[1..], Miss([u[0]]))
                                   else Scan(g, n + 1, u[1..], Miss(MissData(p) + [u[0]]))
  {
  }

  lemma {:induction false} ScanStep(g: Rules, n: nat, u: seq<Byte>, p: Pending)
    requires ScanReady(g, u, p) && u != []
    ensures var (cs, k, q) := Step(g.look(n, u), Width(g, u), u[0], p, g.outbuflen);
            && 0 < k <= |u| && ScanReady(g, u[k..], q) && Scan(g, n, u, p) == cs + Scan(g, n + k, u[k..], q)
  {
    hide Scan;
    var (cs, k, q) := Step(g.look(n, u), Width(g, u), u[0], p, g.outbuflen);
    if g.look(n, u).Hit? {
      ScanHit(g, n, u, p, g.look(n, u).pos);
    } else {
      ScanMiss(g, n, u, p);
    }
    assert [] + Scan(g, n + k, u[k..], q) == Scan(g, n + k, u[k..], q);
  }

  lemma {:induction false} FlushBytes(p: Pending, cs: seq<Cmd>, outbuflen: nat, n: nat)
    requires PendOk(p, outbuflen, n) && outbuflen < TWO_31 && AllEncodable(cs)
    ensures AllEncodable(PendCmds(p) + cs)
    ensures EncodeAll(PendCmds(p) + cs) == PendBytes(p) + EncodeAll(cs)
  {
    match p
    case Nothing =>
      assert PendCmds(p) + cs == cs;
    case Miss(data) =>
      EncodeAllOfCons(Literal(data), cs);
    case Match(pos, len) =>
      EncodeAllOfCons(Copy(pos, len), cs);
      assert Encode(Copy(pos, len)) == CopyHead(pos, len);
  }

  /** The window was found right behind the pending match. */
  lemma {:induction false} StepExtend(g: Rules, n: nat, u: seq<Byte>, p: Pending, pos: nat)
    requires ScanReady(g, u, p) && u != [] && g.look(n, u) == Hit(pos) && Extends(p, pos)
    ensures ScanReady(g, u[Width(g, u)..], Match(p.pos, p.len + Width(g, u)))
    ensures Future(g, n, u, p) == Future(g, n + Width(g, u), u[Width(g, u)..], Match(p.pos, p.len + Width(g, u)))
  {
    hide Scan, EncodeAll;
    ScanStep(g, n, u, p);
    var rest := Scan(g, n + Width(g, u), u[Width(g, u)..], Match(p.pos, p.len + Width(g, u)));
    assert [] + rest == rest;
  }

  /** The window was found elsewhere. */
  lemma {:induction false} StepHit(g: Rules, n: nat, u: seq<Byte>, p: Pending, pos: nat)
    requires ScanReady(g, u, p) && u != [] && g.look(n, u) == Hit(pos) && !Extends(p, pos)
    ensures ScanReady(g, u[Width(g, u)..], Match(pos, Width(g, u)))
    ensures Future(g, n, u, p) == PendBytes(p) + Future(g, n + Width(g, u), u[Width(g, u)..], Match(pos, Width(g, u)))
  {
    hide Scan, LiteralHead, CopyHead, EncodeAll, Encode;
    ScanStep(g, n, u, p);
    var w := Width(g, u);
    FlushBytes(p, Scan(g, n + w, u[w..], Match(pos, w)), g.outbuflen, |u|);
  }

  /** The window was not found, and its first byte starts a literal. */
  lemma {:induction false} StepMissNew(g: Rules, n: nat, u: seq<Byte>, p: Pending)
    requires ScanReady(g, u, p) && u != [] && g.look(n, u).NoHit? && MissFlushes(p, g.outbuflen)
    ensures ScanReady(g, u[1..], Miss([u[0]]))
    ensures Future(g, n, u, p) == PendBytes(p) + Future(g, n + 1, u[1..], Miss([u[0]]))
  {
    hide Scan, LiteralHead, CopyHead, EncodeAll, Encode;
    ScanStep(g, n, u, p);
    FlushBytes(p, Scan(g, n + 1, u[1..], Miss([u[0]])), g.outbuflen, |u|);
  }

  /** The window was not found, and its first byte joins the pending literal. */
  lemma {:induction false} StepMissMore(g: Rules, n: nat, u: seq<Byte>, p: Pending)
    requires ScanReady(g, u, p) && u != [] && g.look(n, u).NoHit? && !MissFlushes(p, g.outbuflen)
    ensures ScanReady(g, u[1..], Miss(MissData(p) + [u[0]]))
    ensures Future(g, n, u, p) == Future(g, n + 1, u[1..], Miss(MissData(p) + [u[0]]))
  {
    hide Scan, EncodeAll;
    ScanStep(g, n, u, p);
    var rest := Scan(g, n + 1, u[1..], Miss(MissData(p) + [u[0]]));
    assert [] + rest == rest;
  }

  lemma {:induction false} StepEnd(g: Rules, n: nat, p: Pending)
    requires ScanReady(g, [], p)
    ensures Future(g, n, [], p) == PendBytes(p) + [OP_END]
  {
    EncodeAllOfCons(End, []);
    FlushBytes(p, [End], g.outbuflen, 0);
    assert [End] + [] == [End];
  }

  // ---------------------------------------------------------------------
  // The rules a signature gives rise to
  // ---------------------------------------------------------------------

  ghost predicate EnvOk(env: Env) {
    && env.outbuflen < TWO_31
    && (forall n :: |env.staleOf(n)| == OLDBUF_SIZE)
    && (forall n :: |env.strongOf(n)| == STRONG_LENGTH)
  }

  /** The search the delta job performs with `u` unscanned, after n scanned bytes. */
  ghost function Look(v: SigValue, env: Env, n: nat, u: seq<Byte>): (r: Hit)
    requires SigOk(v) && EnvOk(env)
  {
    var window := u[..Min(v.blockLen, |u|)];
    Find(v, WeakSum(window), window, env.staleOf(n))
  }

  ghost function RulesOf(v: SigValue, env: Env): (g: Rules)
    requires SigOk(v) && EnvOk(env)
    ensures RulesOk(g) && g.blockLen == v.blockLen && g.outbuflen == env.outbuflen
  {
    var look := (n: nat, u: seq<Byte>) => Look(v, env, n, u);
    LooksInRange(v, env);
    Rules(look, v.blockLen, env.outbuflen)
  }

  lemma {:induction false} LooksInRange(v: SigValue, env: Env)
    requires SigOk(v) && EnvOk(env)
    ensures forall n, u :: Look(v, env, n, u).Hit? ==> Look(v, env, n, u).pos < TWO_31
  {
    forall n: nat, u: seq<Byte> | Look(v, env, n, u).Hit?
      ensures Look(v, env, n, u).pos < TWO_31
    {
      var window := u[..Min(v.blockLen, |u|)];
      FindAgreesWithScan(v, WeakSum(window), window, env.staleOf(n));
    }
  }

  // ---------------------------------------------------------------------
  // What the scan emits, and what it does not depend on
  // ---------------------------------------------------------------------

  /** A command the decoder can finish: nothing is ever copied in zero bytes, and no
      literal exceeds the output buffer. */
  predicate Sensible(c: Cmd, outbuflen: nat) {
    match c
    case Literal(data) => 1 <= |data| <= Max(1, outbuflen)
    case Copy(pos, len) => len > 0
    case End => true
  }

  /** Every command is sensible, and only the last one ends the delta. */
  lemma {:induction false} ScanIsSensible(g: Rules, n: nat, u: seq<Byte>, p: Pending)
    requires ScanReady(g, u, p)
    ensures var cs := Scan(g, n, u, p);
            && cs != [] && (forall c <- cs :: Sensible(c, g.outbuflen))
            && (forall k :: 0 <= k < |cs| ==> (cs[k] == End <==> k == |cs| - 1))
    decreases |u|
  {
    if u != [] {
      hide Scan;
      var (cs, k, q) := Step(g.look(n, u), Width(g, u), u[0], p, g.outbuflen);
      ScanStep(g, n, u, p);
      ScanIsSensible(g, n + k, u[k..], q);
    }
  }

  /** An upper bound on the bytes for the pending item. */
  function Cost(p: Pending): (n: nat) {
    match p
    case Nothing => 0
    case Miss(data) => 9 + |data|
    case Match(_, _) => 17
  }

  /** No byte of the new file costs more than 18 bytes of the delta. */
  lemma {:induction false} FutureIsShort(g: Rules, n: nat, u: seq<Byte>, p: Pending)
    requires ScanReady(g, u, p)
    ensures |Future(g, n, u, p)| <= Cost(p) + 18 * |u| + 1
    decreases |u|
  {
    hide Scan, EncodeAll, Future, ScanReady;
    if u == [] {
      StepEnd(g, n, p);
    } else {
      var h := g.look(n, u);
      ScanStep(g, n, u, p);
      if h.Hit? && Extends(p, h.pos) {
        StepExtend(g, n, u, p, h.pos);
        FutureIsShort(g, n + Width(g, u), u[Width(g, u)..], Match(p.pos, p.len + Width(g, u)));
      } else if h.Hit? {
        StepHit(g, n, u, p, h.pos);
        FutureIsShort(g, n + Width(g, u), u[Width(g, u)..], Match(h.pos, Width(g, u)));
      } else if MissFlushes(p, g.outbuflen) {
        StepMissNew(g, n, u, p);
        FutureIsShort(g, n + 1, u[1..], Miss([u[0]]));
      } else {
        StepMissMore(g, n, u, p);
        FutureIsShort(g, n + 1, u[1..], Miss(MissData(p) + [u[0]]));
      }
    }
  }

  lemma {:induction false} DeltaIsShort(g: Rules, newFile: seq<Byte>)
    requires RulesOk(g) && |newFile| < TWO_63
    ensures |DeltaOf(g, newFile)| <= 18 * |newFile| + 5
  {
    hide Future;
    FutureIsShort(g, 0, newFile, Nothing);
  }

  /** Rules that find the same, step for step, give the same commands. */
  lemma {:induction false} SameSearchSameScan(g: Rules, h: Rules, n: nat, u: seq<Byte>, p: Pending)
    requires ScanReady(g, u, p) && RulesOk(h) && g.blockLen == h.blockLen && g.outbuflen == h.outbuflen
    requires forall m, t :: g.look(m, t) == h.look(m, t)
    ensures Scan(g, n, u, p) == Scan(h, n, u, p)
    decreases |u|
  {
    if u != [] {
      hide Scan, Step;
      var (cs, k, q) := Step(g.look(n, u), Width(g, u), u[0], p, g.outbuflen);
      ScanStep(g, n, u, p);
      ScanStep(h, n, u, p);
      SameSearchSameScan(g, h, n + k, u[k..], q);
    }
  }

  /** The strong sums, which the signature job leaves uncomputed, do not influence the delta. */
  lemma {:induction false} DeltaIgnoresStrongSums(v: SigValue, w: SigValue, env: Env, newFile: seq<Byte>)
    requires SigOk(v) && SigOk(w) && SameButStrong(v, w) && EnvOk(env) && |newFile| < TWO_63
    ensures DeltaOf(RulesOf(v, env), newFile) == DeltaOf(RulesOf(w, env), newFile)
  {
    hide Indexed, Find, EncodeAll;
    forall n: nat, u: seq<Byte>
      ensures Look(v, env, n, u) == Look(w, env, n, u)
    {
      FindIgnoresStrongSums(v, w, u[..Min(v.blockLen, |u|)], env.staleOf(n));
    }
    SameSearchSameScan(RulesOf(v, env), RulesOf(w, env), 0, newFile, Nothing);
  }

  lemma {:induction false} FindIgnoresStrongSums(v: SigValue, w: SigValue, window: seq<Byte>, oldbuf: seq<Byte>)
    requires SigOk(v) && SigOk(w) && SameButStrong(v, w) && |window| <= v.blockLen && |oldbuf| == OLDBUF_SIZE
    ensures Find(v, WeakSum(window), window, oldbuf) == Find(w, WeakSum(window), window, oldbuf)
  {
    var t := Tag(WeakSum(window));
    var j := v.tagTable[t];
    assert StartsAt(v.targets, t, j);
    if j != NULL_TAG {
      StrongSumsIgnored(v, w, j, WeakSum(window), window, oldbuf);
    }
  }
}
