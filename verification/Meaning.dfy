/** What the delta job writes, read by the patch job, is the new file: exactly when
    no accepted hit reaches past the end of the old file. */
module Meaning {
  import opened Bytes
  import opened NetInt
  import opened Commands
  import opened Search
  import opened Jobs
  import opened DeltaSpec
  import opened PatchSpec
  import opened SigSpec

  // ---------------------------------------------------------------------
  // One command
  // ---------------------------------------------------------------------

  lemma {:induction false} LiteralMeans(basis: seq<Byte>, data: seq<Byte>, tail: seq<Byte>)
    requires |data| < TWO_31
    ensures Decode(basis, LiteralHead(|data|) + data + tail) == Before(data, Decode(basis, tail))
  {
    hide EncodeInt, DecodeInt, DecodeHead;
    var s := LiteralHead(|data|) + data + tail;
    assert s == LiteralHead(|data|) + (data + tail);
    DecodeOfEncodeHead(Literal(data), data + tail);
    assert s[|LiteralHead(|data|)|..] == data + tail;
    var h := DecodeHead(s);
    assert Decode(basis, s) == Execute(basis, KindLiteral, |data|, h.param2, data + tail);
    assert Execute(basis, KindLiteral, |data|, h.param2, data + tail) == CopyThrough(basis, |data|, data + tail);
    assert CopyThrough(basis, |data|, data + tail) == Drain(basis, |data|, data + tail);
    assert Taken(data + tail, |data|) == data && Dropped(data + tail, |data|) == tail;
  }

  lemma {:induction false} CopyMeans(basis: seq<Byte>, pos: nat, len: nat, tail: seq<Byte>)
    requires pos < TWO_63 && len < TWO_63
    ensures Decode(basis, CopyHead(pos, len) + tail) == CopyBasis(basis, pos, len, tail)
  {
    hide EncodeInt, DecodeInt, DecodeHead, CopyHead;
    var head := CopyHead(pos, len);
    assert EncodeHead(Copy(pos, len)) == head;
    var s := head + tail;
    DecodeOfEncodeHead(Copy(pos, len), tail);
    assert s[|head|..] == tail;
    assert Decode(basis, s) == Execute(basis, KindCopy, pos, len, tail);
  }

  lemma {:induction false} EndMeans(basis: seq<Byte>)
    ensures Decode(basis, [OP_END]) == Outcome([], Done)
  {
  }

  /** A list of commands carried out in one go, and then what follows them. */
  function Perform(basis: seq<Byte>, cs: seq<Cmd>, tail: seq<Byte>): (o: Outcome) {
    if cs == [] then Decode(basis, tail) else
    match cs[0]
    case End => Outcome([], Done)
    case Literal(data) => Before(data, Perform(basis, cs[1..], tail))
    case Copy(pos, len) =>
      if len == 0 then Outcome([], if |cs| == 1 && tail == [] then Blocked else InternalError)
      else if pos + len <= |basis| then Before(basis[pos..pos + len], Perform(basis, cs[1..], tail))
      else Outcome(From(basis, pos), InputEnded)
  }

  lemma {:induction false} PerformFirst(basis: seq<Byte>, c: Cmd, cs: seq<Cmd>, tail: seq<Byte>)
    ensures Perform(basis, [c] + cs, tail)
         == match c
            case End => Outcome([], Done)
            case Literal(data) => Before(data, Perform(basis, cs, tail))
            case Copy(pos, len) =>
              if len == 0 then Outcome([], if cs == [] && tail == [] then Blocked else InternalError)
              else if pos + len <= |basis| then Before(basis[pos..pos + len], Perform(basis, cs, tail))
              else Outcome(From(basis, pos), InputEnded)
  {
    assert ([c] + cs)[1..] == cs;
  }

  lemma {:induction false} PerformNothing(basis: seq<Byte>, tail: seq<Byte>)
    ensures Perform(basis, [], tail) == Decode(basis, tail)
  {
  }

  /** Decoding any list of commands from its bytes, whatever comes behind them, is carrying
      out the list and then decoding on. */
  lemma {:induction false} DecodeOfCommands(basis: seq<Byte>, cs: seq<Cmd>, tail: seq<Byte>)
    requires AllEncodable(cs) && forall c <- cs :: c.Literal? ==> |c.data| < TWO_31
    ensures Decode(basis, EncodeAll(cs) + tail) == Perform(basis, cs, tail)
    decreases |cs|
  {
    hide Decode, LiteralHead, CopyHead, Perform;
    PerformNothing(basis, tail);
    if cs == [] {
      assert EncodeAll(cs) + tail == tail;
    } else {
      var c, more := cs[0], EncodeAll(cs[1..]) + tail;
      assert Encodable(c);
      DecodeOfCommands(basis, cs[1..], tail);
      PerformFirst(basis, c, cs[1..], tail);
      assert [c] + cs[1..] == cs;
      assert EncodeAll(cs) + tail == Encode(c) + more;
      match c
      case Literal(data) =>
        LiteralMeans(basis, data, more);
      case Copy(pos, len) =>
        assert Encode(c) == CopyHead(pos, len);
        CopyMeans(basis, pos, len, more);
        SomeBytes(cs[1..]);
        if len != 0 && pos + len <= |basis| {
          assert CopyBasis(basis, pos, len, more) == Before(basis[pos..pos + len], Decode(basis, more));
        }
      case End =>
        assert Encode(c) == [OP_END];
        StopMeans(basis, more);
    }
  }

  /** Only no commands have no bytes. */
  lemma {:induction false} SomeBytes(cs: seq<Cmd>)
    requires AllEncodable(cs)
    ensures EncodeAll(cs) == [] <==> cs == []
  {
    if cs != [] {
      assert Encodable(cs[0]);
      assert |Encode(cs[0])| >= 1;
    }
  }

  lemma {:induction false} StopMeans(basis: seq<Byte>, tail: seq<Byte>)
    ensures Decode(basis, [OP_END] + tail) == Outcome([], Done)
  {
    assert ([OP_END] + tail)[0] == OP_END;
  }

  // ---------------------------------------------------------------------
  // The pending item
  // ---------------------------------------------------------------------

  /** The pending match lies in the old file. */
  predicate Inside(basis: seq<Byte>, p: Pending) {
    p.Match? ==> p.pos + p.len <= |basis|
  }

  function PendMeans(basis: seq<Byte>, p: Pending): (r: seq<Byte>)
    requires Inside(basis, p)
  {
    match p
    case Nothing => []
    case Miss(data) => data
    case Match(pos, len) => basis[pos..pos + len]
  }

  lemma {:induction false} FlushMeans(basis: seq<Byte>, p: Pending, tail: seq<Byte>, outbuflen: nat, n: nat)
    requires PendOk(p, outbuflen, n) && outbuflen < TWO_31
    ensures Inside(basis, p) ==> Decode(basis, PendBytes(p) + tail) == Before(PendMeans(basis, p), Decode(basis, tail))
    ensures !Inside(basis, p) ==> Decode(basis, PendBytes(p) + tail).res == InputEnded
  {
    hide LiteralHead, CopyHead, Decode;
    match p
    case Nothing =>
      assert [] + tail == tail;
      assert [] + Decode(basis, tail).out == Decode(basis, tail).out;
    case Miss(data) =>
      LiteralMeans(basis, data, tail);
    case Match(pos, len) =>
      CopyMeans(basis, pos, len, tail);
  }

  // ---------------------------------------------------------------------
  // The whole scan
  // ---------------------------------------------------------------------

  /** A hit agrees with the old file wherever both have bytes. */
  ghost predicate Faithful(g: Rules, basis: seq<Byte>) {
    RulesOk(g) &&
    forall n, u, k :: g.look(n, u).Hit? && 0 <= k < Width(g, u) && g.look(n, u).pos + k < |basis| ==>
                        basis[g.look(n, u).pos + k] == u[k]
  }

  /** Along the scan, no accepted hit is longer than what is left of the old file. */
  ghost predicate NoOverreach(g: Rules, basis: seq<Byte>, n: nat, u: seq<Byte>)
    requires RulesOk(g)
    decreases |u|
  {
    u == [] ||
    match g.look(n, u)
    case Hit(pos) => pos + Width(g, u) <= |basis| && NoOverreach(g, basis, n + Width(g, u), u[Width(g, u)..])
    case NoHit => NoOverreach(g, basis, n + 1, u[1..])
  }

  /** A match that reaches past the end can only grow, and is fatal once written. */
  lemma {:induction false} OverreachIsFatal(g: Rules, basis: seq<Byte>, n: nat, u: seq<Byte>, p: Pending)
    requires ScanReady(g, u, p) && !Inside(basis, p)
    ensures Decode(basis, Future(g, n, u, p)).res == InputEnded
    decreases |u|
  {
    hide Future, Decode, PendBytes;
    if u == [] {
      StepEnd(g, n, p);
      FlushMeans(basis, p, [OP_END], g.outbuflen, 0);
    } else if g.look(n, u).Hit? {
      var pos, w := g.look(n, u).pos, Width(g, u);
      if Extends(p, pos) {
        StepExtend(g, n, u, p, pos);
        OverreachIsFatal(g, basis, n + w, u[w..], Match(p.pos, p.len + w));
      } else {
        StepHit(g, n, u, p, pos);
        FlushMeans(basis, p, Future(g, n + w, u[w..], Match(pos, w)), g.outbuflen, |u|);
      }
    } else {
      StepMissNew(g, n, u, p);
      FlushMeans(basis, p, Future(g, n + 1, u[1..], Miss([u[0]])), g.outbuflen, |u|);
    }
  }

  /** The remaining delta denotes the pending item followed by the unscanned bytes, or
      the patch job stops with an error: it never produces another file. */
  lemma {:induction false} ScanMeans(g: Rules, basis: seq<Byte>, n: nat, u: seq<Byte>, p: Pending)
    requires Faithful(g, basis) && ScanReady(g, u, p) && Inside(basis, p)
    ensures NoOverreach(g, basis, n, u) ==> Decode(basis, Future(g, n, u, p)) == Outcome(PendMeans(basis, p) + u, Done)
    ensures !NoOverreach(g, basis, n, u) ==> Decode(basis, Future(g, n, u, p)).res == InputEnded
    decreases |u|
  {
    if u == [] {
      EndOfScan(g, basis, n, p);
    } else if g.look(n, u).Hit? {
      HitMeans(g, basis, n, u, p, g.look(n, u).pos);
    } else if MissFlushes(p, g.outbuflen) {
      MissNewMeans(g, basis, n, u, p);
    } else {
      MissMoreMeans(g, basis, n, u, p);
    }
  }

  lemma {:induction false} EndOfScan(g: Rules, basis: seq<Byte>, n: nat, p: Pending)
    requires ScanReady(g, [], p) && Inside(basis, p)
    ensures Decode(basis, Future(g, n, [], p)) == Outcome(PendMeans(basis, p) + [], Done)
  {
    hide Future, Decode, PendBytes;
    StepEnd(g, n, p);
    EndMeans(basis);
    FlushMeans(basis, p, [OP_END], g.outbuflen, 0);
  }

  lemma {:induction false} HitMeans(g: Rules, basis: seq<Byte>, n: nat, u: seq<Byte>, p: Pending, pos: nat)
    requires Faithful(g, basis) && ScanReady(g, u, p) && Inside(basis, p) && u != [] && g.look(n, u) == Hit(pos)
    ensures NoOverreach(g, basis, n, u) ==> Decode(basis, Future(g, n, u, p)) == Outcome(PendMeans(basis, p) + u, Done)
    ensures !NoOverreach(g, basis, n, u) ==> Decode(basis, Future(g, n, u, p)).res == InputEnded
    decreases |u|, 1
  {
    hide Future, Decode, PendBytes;
    var w := Width(g, u);
    if Extends(p, pos) {
      StepExtend(g, n, u, p, pos);
      AfterHit(g, basis, n, u, pos, Match(p.pos, p.len + w));
      if pos + w <= |basis| {
        assert PendMeans(basis, Match(p.pos, p.len + w)) == PendMeans(basis, p) + basis[pos..pos + w];
        assert PendMeans(basis, p) + u[..w] + u[w..] == PendMeans(basis, p) + u;
      }
    } else {
      StepHit(g, n, u, p, pos);
      FlushMeans(basis, p, Future(g, n + w, u[w..], Match(pos, w)), g.outbuflen, |u|);
      AfterHit(g, basis, n, u, pos, Match(pos, w));
      assert u[..w] + u[w..] == u;
    }
  }

  /** The match q, which ends with the bytes just found, is pending. */
  lemma {:induction false} AfterHit(g: Rules, basis: seq<Byte>, n: nat, u: seq<Byte>, pos: nat, q: Pending)
    requires Faithful(g, basis) && u != [] && g.look(n, u) == Hit(pos) && ScanReady(g, u[Width(g, u)..], q)
    requires q.Match? && q.pos + q.len == pos + Width(g, u)
    ensures var w := Width(g, u);
            var o := Decode(basis, Future(g, n + w, u[w..], q));
            && (Inside(basis, q) ==> basis[pos..pos + w] == u[..w])
            && (NoOverreach(g, basis, n, u) ==> Inside(basis, q) && o == Outcome(PendMeans(basis, q) + u[w..], Done))
            && (!NoOverreach(g, basis, n, u) ==> o.res == InputEnded)
    decreases |u|, 0
  {
    hide Future, Decode, PendBytes;
    var w := Width(g, u);
    if Inside(basis, q) {
      ScanMeans(g, basis, n + w, u[w..], q);
      forall k | 0 <= k < w ensures basis[pos + k] == u[k] {
        assert g.look(n, u).Hit? && g.look(n, u).pos + k < |basis|;
      }
    } else {
      OverreachIsFatal(g, basis, n + w, u[w..], q);
    }
  }

  lemma {:induction false} MissNewMeans(g: Rules, basis: seq<Byte>, n: nat, u: seq<Byte>, p: Pending)
    requires Faithful(g, basis) && ScanReady(g, u, p) && Inside(basis, p) && u != [] && g.look(n, u).NoHit?
    requires MissFlushes(p, g.outbuflen)
    ensures NoOverreach(g, basis, n, u) ==> Decode(basis, Future(g, n, u, p)) == Outcome(PendMeans(basis, p) + u, Done)
    ensures !NoOverreach(g, basis, n, u) ==> Decode(basis, Future(g, n, u, p)).res == InputEnded
    decreases |u|, 0
  {
    hide Future, Decode, PendBytes;
    StepMissNew(g, n, u, p);
    FlushMeans(basis, p, Future(g, n + 1, u[1..], Miss([u[0]])), g.outbuflen, |u|);
    ScanMeans(g, basis, n + 1, u[1..], Miss([u[0]]));
    assert u == [u[0]] + u[1..];
  }

  lemma {:induction false} MissMoreMeans(g: Rules, basis: seq<Byte>, n: nat, u: seq<Byte>, p: Pending)
    requires Faithful(g, basis) && ScanReady(g, u, p) && Inside(basis, p) && u != [] && g.look(n, u).NoHit?
    requires !MissFlushes(p, g.outbuflen)
    ensures NoOverreach(g, basis, n, u) ==> Decode(basis, Future(g, n, u, p)) == Outcome(PendMeans(basis, p) + u, Done)
    ensures !NoOverreach(g, basis, n, u) ==> Decode(basis, Future(g, n, u, p)).res == InputEnded
    decreases |u|, 0
  {
    hide Future, Decode, PendBytes;
    StepMissMore(g, n, u, p);
    ScanMeans(g, basis, n + 1, u[1..], Miss(MissData(p) + [u[0]]));
    assert MissData(p) == PendMeans(basis, p);
    assert MissData(p) + [u[0]] + u[1..] == MissData(p) + u;
  }

  /** The round trip, for any search that agrees with the old file: patching yields the
      new file if and only if no accepted hit overreaches, and fails cleanly otherwise. */
  lemma {:induction false} PatchOfDelta(g: Rules, basis: seq<Byte>, newFile: seq<Byte>)
    requires Faithful(g, basis) && |newFile| < TWO_63
    ensures PatchOf(basis, DeltaOf(g, newFile)) == Outcome(newFile, Done) <==> NoOverreach(g, basis, 0, newFile)
    ensures !NoOverreach(g, basis, 0, newFile) ==> PatchOf(basis, DeltaOf(g, newFile)).res == InputEnded
  {
    hide Future, Decode, EncodeInt, DecodeInt;
    var delta := Future(g, 0, newFile, Nothing);
    HeadField(DELTA_MAGIC, delta, 4);
    ScanMeans(g, basis, 0, newFile, Nothing);
    assert [] + newFile == newFile;
  }
}
