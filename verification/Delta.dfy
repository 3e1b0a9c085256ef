/** emit.c and delta.c: the job that turns a new file into a delta. */
module Delta {
  import opened Bytes
  import opened NetInt
  import opened Commands
  import opened Checksums
  import opened Search
  import opened Jobs
  import opened DeltaSpec

  // ---------------------------------------------------------------------
  // emit.c
  // ---------------------------------------------------------------------

  method EmitDeltaHeader(job: Job)
    requires job.copyLen == 0 && |job.writeBuf| + 4 <= TUBE_SIZE
    modifies job`writeBuf
    ensures job.writeBuf == old(job.writeBuf) + EncodeInt(DELTA_MAGIC, 4)
  {
    job.SquirtN4(DELTA_MAGIC);
  }

  method EmitLiteralCmd(job: Job, len: nat)
    requires len < TWO_32
    requires job.copyLen == 0 && |job.writeBuf| + 5 <= TUBE_SIZE
    modifies job`writeBuf
    ensures job.writeBuf == old(job.writeBuf) + LiteralHead(len)
  {
    var paramLen := IntLen(len);
    var cmd := match paramLen
      case 1 => OP_LITERAL_N1
      case 2 => OP_LITERAL_N2
      case _ => OP_LITERAL_N4;
    job.SquirtByte(cmd);
    job.SquirtNetint(len, paramLen);
  }

  method EmitCopyCmd(job: Job, pos: nat, len: nat)
    requires pos < TWO_63 && len < TWO_63
    requires job.copyLen == 0 && |job.writeBuf| + 17 <= TUBE_SIZE
    modifies job`writeBuf
    ensures job.writeBuf == old(job.writeBuf) + CopyHead(pos, len)
  {
    hide CopyOp, EncodeInt;
    var posBytes, lenBytes := IntLen(pos), IntLen(len);
    job.SquirtByte(CopyOp(pos, len));
    job.SquirtNetint(pos, posBytes);
    job.SquirtNetint(len, lenBytes);
  }

  method EmitEndCmd(job: Job)
    requires job.copyLen == 0 && |job.writeBuf| + 1 <= TUBE_SIZE
    modifies job`writeBuf
    ensures job.writeBuf == old(job.writeBuf) + [OP_END]
  {
    job.SquirtByte(OP_END);
  }

  // ---------------------------------------------------------------------
  // What the fields of the job mean
  // ---------------------------------------------------------------------

  /** Buffers, tube and pending item fit together.  In particular a queued literal
      lies in the scoop, in front of everything scanned since it was queued. */
  ghost predicate Shape(job: Job)
    reads job
  {
    && job.InputOk() && job.TubeOk()
    && 0 <= job.copyLen
    && job.copyLen + job.scoopPos <= |job.scoop|
    && 0 <= job.basisLen && 0 <= job.basisPos
  }

  /** The bytes not yet scanned. */
  ghost function Unscanned(job: Job): (r: seq<Byte>)
    requires Shape(job)
    reads job
  {
    job.Beyond()[job.scoopPos..]
  }

  ghost function Pend(job: Job): (r: Pending)
    requires Shape(job)
    reads job
  {
    if job.basisLen != 0 then Match(job.basisPos, job.basisLen)
    else if job.scoopPos != 0 then Miss(job.Beyond()[..job.scoopPos])
    else Nothing
  }

  /** The search rules of this job. */
  ghost predicate Equipped(job: Job)
    reads job, job.sig
  {
    SigOk(job.sig.Value()) && EnvOk(job.env) && job.blockLen == job.sig.blockLen
  }

  ghost function JobRules(job: Job): (g: Rules)
    requires Equipped(job)
    reads job, job.sig
    ensures RulesOk(g)
  {
    RulesOf(job.sig.Value(), job.env)
  }

  /** The pending item can still be encoded. */
  ghost predicate PendFits(job: Job)
    requires Shape(job)
    reads job
  {
    PendOk(Pend(job), job.env.outbuflen, |Unscanned(job)|)
  }

  // ---------------------------------------------------------------------
  // delta.c: the appending routines
  // ---------------------------------------------------------------------

  /** rs_getinput: move all available input into the scoop. */
  method GetInput(job: Job)
    requires job.InputOk()
    modifies job`scoop, job`input
    ensures job.InputOk()
    ensures job.scoop == old(job.scoop + job.input) && job.input == []
  {
    var len := |job.scoop| + |job.input|;
    if |job.scoop| < len {
      job.ScoopInput(len);
    } else {
      assert job.scoop + job.input == job.scoop;
    }
  }

  /** rs_processmatch: the scanned bytes need not be sent. */
  method ProcessMatch(job: Job) returns (r: Result)
    requires Shape(job) && job.copyLen == 0
    modifies job`output, job`availOut, job`writeBuf, job`scoop, job`input, job`copyLen, job`rest, job`scoopPos
    ensures Shape(job) && job.scoopPos == 0 && job.copyLen == 0
    ensures job.Sent() == old(job.Sent())
    ensures job.Beyond() == old(Unscanned(job))
    ensures job.input == old(job.input)
    ensures r in {Done, Blocked} && (r == Done <==> job.Idle()) && (r == Blocked ==> job.availOut == 0)
    ensures |job.output| + job.availOut == old(|job.output| + job.availOut) && |job.output| >= old(|job.output|)
  {
    assert (job.scoop + job.input + job.unread)[job.scoopPos..] == job.scoop[job.scoopPos..] + job.input + job.unread;
    job.scoop := job.scoop[job.scoopPos..];
    job.rest := job.rest[job.scoopPos..];
    job.scoopPos := 0;
    r := job.Catchup();
  }

  /** rs_processmiss: queue the scanned bytes for copying. */
  method ProcessMiss(job: Job) returns (r: Result)
    requires Shape(job) && job.copyLen == 0 && 0 < job.scoopPos < TWO_31
    modifies job`output, job`availOut, job`writeBuf, job`scoop, job`input, job`copyLen, job`rest, job`scoopPos
    ensures Shape(job) && job.scoopPos == 0
    ensures job.Sent() == old(job.Sent()) + old(job.Beyond()[..job.scoopPos])
    ensures job.Beyond() == old(Unscanned(job))
    ensures job.input == old(job.input)
    ensures r in {Done, Blocked} && (r == Done <==> job.Idle()) && (r == Blocked ==> job.availOut == 0)
    ensures |job.output| + job.availOut == old(|job.output| + job.availOut) && |job.output| >= old(|job.output|)
    ensures old(job.availOut) == 0 ==> job.copyLen == old(job.scoopPos) && job.scoop == old(job.scoop)
  {
    job.TubeCopy(job.scoopPos);
    job.scoopPos := 0;
    r := job.Catchup();
  }

  /** The first branch of rs_appendflush. */
  method FlushMatch(job: Job) returns (r: Result)
    requires Shape(job) && PendFits(job) && job.Idle() && job.basisLen != 0
    modifies job`output, job`availOut, job`writeBuf, job`scoop, job`input, job`copyLen, job`rest, job`scoopPos,
             job`basisLen
    ensures Shape(job) && job.scoopPos == 0 && job.basisLen == 0
    ensures job.Sent() == old(job.Sent()) + CopyHead(old(job.basisPos), old(job.basisLen))
    ensures job.Beyond() == old(Unscanned(job)) && job.input == old(job.input)
    ensures r in {Done, Blocked} && (r == Done <==> job.Idle()) && (r == Blocked ==> job.availOut == 0)
    ensures |job.output| + job.availOut == old(|job.output| + job.availOut) && |job.output| >= old(|job.output|)
  {
    hide CopyHead;
    ghost var sent := job.Sent();
    EmitCopyCmd(job, job.basisPos, job.basisLen);
    assert job.Sent() == sent + CopyHead(job.basisPos, job.basisLen);
    job.basisLen := 0;
    r := ProcessMatch(job);
  }

  /** The second branch of rs_appendflush. */
  method FlushMiss(job: Job) returns (r: Result)
    requires Shape(job) && job.Idle() && job.basisLen == 0 && 0 < job.scoopPos < TWO_31
    modifies job`output, job`availOut, job`writeBuf, job`scoop, job`input, job`copyLen, job`rest, job`scoopPos
    ensures Shape(job) && job.scoopPos == 0
    ensures job.Sent() == old(job.Sent()) + (LiteralHead(old(job.scoopPos)) + old(job.Beyond()[..job.scoopPos]))
    ensures job.Beyond() == old(Unscanned(job)) && job.input == old(job.input)
    ensures r in {Done, Blocked} && (r == Done <==> job.Idle()) && (r == Blocked ==> job.availOut == 0)
    ensures |job.output| + job.availOut == old(|job.output| + job.availOut) && |job.output| >= old(|job.output|)
    ensures old(job.availOut) == 0 ==> job.copyLen == old(job.scoopPos) && job.scoop == old(job.scoop)
  {
    ghost var sent := job.Sent();
    ghost var head, data := LiteralHead(job.scoopPos), job.Beyond()[..job.scoopPos];
    EmitLiteralCmd(job, job.scoopPos);
    assert job.Sent() == sent + head;
    assert sent + head + data == sent + (head + data);
    r := ProcessMiss(job);
  }

  /** rs_appendflush: turn the pending item, if any, into a command. */
  method AppendFlush(job: Job) returns (r: Result)
    requires Shape(job) && PendFits(job) && job.env.outbuflen < TWO_31 && job.Idle()
    modifies job`output, job`availOut, job`writeBuf, job`scoop, job`input, job`copyLen, job`rest, job`scoopPos,
             job`basisLen
    ensures Shape(job) && job.scoopPos == 0 && job.basisLen == 0
    ensures job.Sent() == old(job.Sent()) + PendBytes(old(Pend(job)))
    ensures job.Beyond() == old(Unscanned(job))
    ensures job.input == old(job.input)
    ensures r in {Done, Blocked} && (r == Done <==> job.Idle()) && (r == Blocked ==> job.availOut == 0)
    ensures |job.output| + job.availOut == old(|job.output| + job.availOut) && |job.output| >= old(|job.output|)
    ensures old(job.availOut) == 0 && old(job.basisLen) == 0 && old(job.scoopPos) != 0 ==>
              job.copyLen == old(job.scoopPos) && job.scoop == old(job.scoop)
  {
    if job.basisLen != 0 {
      r := FlushMatch(job);
    } else if job.scoopPos != 0 {
      r := FlushMiss(job);
    } else {
      r := Done;
    }
  }

  // ---------------------------------------------------------------------
  // Conservation: what is sent, queued, pending and unscanned always denotes
  // the same delta
  // ---------------------------------------------------------------------

  ghost predicate Ready(job: Job)
    reads job, job.sig
  {
    Equipped(job) && Shape(job) && PendFits(job)
  }

  ghost function Total(job: Job): (r: seq<Byte>)
    requires Ready(job)
    reads job, job.sig
  {
    job.Sent() + Future(JobRules(job), job.scanned, Unscanned(job), Pend(job))
  }

  /** The search result for the current window. */
  ghost function Current(job: Job): (r: Hit)
    requires Equipped(job) && Shape(job)
    reads job, job.sig
  {
    JobRules(job).look(job.scanned, Unscanned(job))
  }

  /** Width of the current window. */
  ghost function Span(job: Job): (r: nat)
    requires Equipped(job) && Shape(job)
    reads job, job.sig
  {
    Width(JobRules(job), Unscanned(job))
  }

  /** The last match continues into this one. */
  method ExtendMatch(job: Job, pos: nat, len: nat)
    requires Ready(job) && job.Idle() && Unscanned(job) != []
    requires Current(job) == Hit(pos) && len == Span(job) && job.scoopPos + len <= |job.scoop|
    requires Extends(Pend(job), pos)
    modifies job`scoopPos, job`basisLen, job`scanned
    ensures Ready(job) && job.basisLen != 0
    ensures Total(job) == old(Total(job))
    ensures Unscanned(job) == old(Unscanned(job))[len..] && job.scanned == old(job.scanned) + len
  {
    hide SigOk, EnvOk, RulesOf, Future, Scan, EncodeAll;
    StepExtend(JobRules(job), job.scanned, Unscanned(job), Pend(job), pos);
    DropDrop(job.Beyond(), job.scoopPos, len);
    job.basisLen := job.basisLen + len;
    job.scoopPos := job.scoopPos + len;
    job.scanned := job.scanned + len;
  }

  /** Flush what was pending, and make this the new match. */
  method StartMatch(job: Job, pos: nat, len: nat) returns (r: Result)
    requires Ready(job) && job.Idle() && Unscanned(job) != []
    requires Current(job) == Hit(pos) && len == Span(job) && job.scoopPos + len <= |job.scoop|
    requires !Extends(Pend(job), pos)
    modifies job`output, job`availOut, job`writeBuf, job`scoop, job`input, job`copyLen, job`rest, job`scoopPos,
             job`basisPos, job`basisLen, job`scanned
    ensures Ready(job) && job.basisLen != 0
    ensures Total(job) == old(Total(job))
    ensures Unscanned(job) == old(Unscanned(job))[len..] && job.scanned == old(job.scanned) + len
    ensures job.input == old(job.input)
    ensures r in {Done, Blocked} && (r == Done <==> job.Idle()) && (r == Blocked ==> job.availOut == 0)
    ensures |job.output| + job.availOut == old(|job.output| + job.availOut) && |job.output| >= old(|job.output|)
  {
    hide SigOk, EnvOk, RulesOf, Future, Scan, EncodeAll, CopyHead, LiteralHead, PendBytes, Find, WeakSum;
    ghost var g, n, u, p := JobRules(job), job.scanned, Unscanned(job), Pend(job);
    ghost var sent := job.Sent();
    StepHit(g, n, u, p, pos);
    r := AppendFlush(job);
    Regroup(sent, PendBytes(p), Future(g, n + len, u[len..], Match(pos, len)));
    TakeMatch(job, pos, len);
  }

  /** With nothing pending, the bytes behind the queued ones become a match. */
  method TakeMatch(job: Job, pos: nat, len: nat)
    requires Equipped(job) && Shape(job) && job.scoopPos == 0 && job.basisLen == 0
    requires 0 < len && job.copyLen + len <= |job.scoop| && len <= |job.Beyond()|
    requires PendOk(Match(pos, len), job.env.outbuflen, |job.Beyond()| - len)
    modifies job`scoopPos, job`basisPos, job`basisLen, job`scanned
    ensures Ready(job) && Pend(job) == Match(pos, len) && job.basisLen != 0
    ensures Unscanned(job) == old(job.Beyond())[len..] && job.scanned == old(job.scanned) + len
  {
    hide SigOk, EnvOk, RulesOf, PendOk;
    job.basisPos, job.basisLen := pos, len;
    job.scoopPos := job.scoopPos + len;
    job.scanned := job.scanned + len;
  }

  /** rs_appendmatch. */
  method AppendMatch(job: Job, pos: nat, len: nat) returns (r: Result)
    requires Ready(job) && job.Idle() && Unscanned(job) != []
    requires Current(job) == Hit(pos) && len == Span(job) && job.scoopPos + len <= |job.scoop|
    modifies job`output, job`availOut, job`writeBuf, job`scoop, job`input, job`copyLen, job`rest, job`scoopPos,
             job`basisPos, job`basisLen, job`scanned
    ensures Ready(job)
    ensures Total(job) == old(Total(job))
    ensures Unscanned(job) == old(Unscanned(job))[len..] && job.scanned == old(job.scanned) + len
    ensures job.input == old(job.input)
    ensures r in {Done, Blocked} && (r == Done <==> job.Idle()) && (r == Blocked ==> job.availOut == 0)
    ensures |job.output| + job.availOut == old(|job.output| + job.availOut) && |job.output| >= old(|job.output|)
  {
    hide SigOk, EnvOk, RulesOf, Future, Scan, EncodeAll, CopyHead, LiteralHead, PendBytes;
    r := Done;
    if job.basisLen != 0 && job.basisPos + job.basisLen == pos {
      ExtendMatch(job, pos, len);
    } else {
      r := StartMatch(job, pos, len);
    }
    if r == Done {
      r := ProcessMatch(job);
    }
  }

  /** The byte joins the pending literal. */
  method ExtendMiss(job: Job)
    requires Ready(job) && job.Idle() && Unscanned(job) != []
    requires Current(job) == NoHit && job.scoopPos + 1 <= |job.scoop|
    requires !MissFlushes(Pend(job), job.env.outbuflen)
    modifies job`scoopPos, job`scanned
    ensures Ready(job)
    ensures Total(job) == old(Total(job))
    ensures Unscanned(job) == old(Unscanned(job))[1..] && job.scanned == old(job.scanned) + 1
  {
    hide SigOk, EnvOk, RulesOf, Future, Scan, EncodeAll;
    StepMissMore(JobRules(job), job.scanned, Unscanned(job), Pend(job));
    TakeOneMore(job.Beyond(), job.scoopPos);
    DropDrop(job.Beyond(), job.scoopPos, 1);
    job.scoopPos := job.scoopPos + 1;
    job.scanned := job.scanned + 1;
  }

  lemma {:induction false} StepMissStart(g: Rules, n: nat, u: seq<Byte>, p: Pending)
    requires ScanReady(g, u, p) && u != [] && g.look(n, u).NoHit?
    requires MissFlushes(p, g.outbuflen) || p == Nothing
    ensures ScanReady(g, u[1..], Miss([u[0]]))
    ensures Future(g, n, u, p) == PendBytes(p) + Future(g, n + 1, u[1..], Miss([u[0]]))
  {
    if p == Nothing {
      StepMissMore(g, n, u, p);
      assert [] + [u[0]] == [u[0]];
    } else {
      StepMissNew(g, n, u, p);
    }
  }

  /** Flush what was pending, and start a literal with the byte. */
  method StartMiss(job: Job) returns (r: Result)
    requires Ready(job) && job.Idle() && Unscanned(job) != []
    requires Current(job) == NoHit && job.scoopPos + 1 <= |job.scoop|
    requires MissFlushes(Pend(job), job.env.outbuflen) || Pend(job) == Nothing
    modifies job`output, job`availOut, job`writeBuf, job`scoop, job`input, job`copyLen, job`rest, job`scoopPos,
             job`basisLen, job`scanned
    ensures Ready(job)
    ensures Total(job) == old(Total(job))
    ensures Unscanned(job) == old(Unscanned(job))[1..] && job.scanned == old(job.scanned) + 1
    ensures job.input == old(job.input)
    ensures r in {Done, Blocked} && (r == Done <==> job.Idle()) && (r == Blocked ==> job.availOut == 0)
    ensures |job.output| + job.availOut == old(|job.output| + job.availOut) && |job.output| >= old(|job.output|)
    ensures old(job.availOut) == 0 && old(job.basisLen) == 0 && old(job.scoopPos) != 0 ==>
              job.copyLen == old(job.scoopPos) && job.scoop == old(job.scoop) && job.scoopPos == 1 && job.basisLen == 0
  {
    hide SigOk, EnvOk, RulesOf, Future, Scan, EncodeAll, CopyHead, LiteralHead, PendBytes;
    ghost var g, n, u, p := JobRules(job), job.scanned, Unscanned(job), Pend(job);
    ghost var sent := job.Sent();
    StepMissStart(g, n, u, p);
    r := AppendFlush(job);
    Regroup(sent, PendBytes(p), Future(g, n + 1, u[1..], Miss([u[0]])));
    assert u[..1] == [u[0]];
    job.scoopPos := job.scoopPos + 1;
    job.scanned := job.scanned + 1;
  }

  /** A full literal is flushed into an output without room: it stays queued where it is, in
      front of the byte that starts the next one. */
  twostate predicate LiteralStays(job: Job)
    reads job
  {
    old(job.availOut == 0 && job.basisLen == 0 && job.scoopPos != 0 && job.scoopPos >= job.env.outbuflen) ==>
      job.copyLen == old(job.scoopPos) && job.scoop == old(job.scoop) && job.scoopPos == 1 && job.basisLen == 0
  }

  /** A literal that is not full takes another byte, and nothing is queued. */
  twostate predicate LiteralGrows(job: Job)
    reads job
  {
    old(job.basisLen == 0 && job.scoopPos < job.env.outbuflen && job.Idle()) ==>
      job.Idle() && job.scoop == old(job.scoop) && job.scoopPos == old(job.scoopPos) + 1 && job.basisLen == 0
      && job.output == old(job.output)
  }

  /** rs_appendmiss, always for a single byte. */
  method AppendMiss(job: Job) returns (r: Result)
    requires Ready(job) && job.Idle() && Unscanned(job) != []
    requires Current(job) == NoHit && job.scoopPos + 1 <= |job.scoop|
    modifies job`output, job`availOut, job`writeBuf, job`scoop, job`input, job`copyLen, job`rest, job`scoopPos,
             job`basisLen, job`scanned
    ensures Ready(job)
    ensures Total(job) == old(Total(job))
    ensures Unscanned(job) == old(Unscanned(job))[1..] && job.scanned == old(job.scanned) + 1
    ensures job.input == old(job.input)
    ensures r in {Done, Blocked} && (r == Done <==> job.Idle()) && (r == Blocked ==> job.availOut == 0)
    ensures |job.output| + job.availOut == old(|job.output| + job.availOut) && |job.output| >= old(|job.output|)
    ensures LiteralStays(job)
    ensures LiteralGrows(job)
  {
    hide SigOk, EnvOk, RulesOf, Future, Scan, EncodeAll;
    r := Done;
    if job.basisLen != 0 || job.scoopPos >= job.env.outbuflen {
      r := StartMiss(job);
    } else {
      ExtendMiss(job);
    }
  }

  // ---------------------------------------------------------------------
  // delta.c: the states
  // ---------------------------------------------------------------------

  /** The bytes the current search compares. */
  ghost function CurrentWindow(job: Job): (r: seq<Byte>)
    requires Equipped(job) && Shape(job)
    reads job, job.sig
  {
    Unscanned(job)[..Span(job)]
  }

  /** The rolling sum is empty, or stands for exactly the current window. */
  ghost predicate Rolled(job: Job)
    requires Equipped(job) && Shape(job)
    reads job, job.sig, job.weakSum
  {
    job.weakSum.Covers([]) || job.weakSum.Covers(CurrentWindow(job))
  }

  lemma {:induction false} CurrentIsFind(job: Job)
    requires Equipped(job) && Shape(job)
    ensures var v := job.sig.Value();
            && SigOk(v) && Span(job) == |CurrentWindow(job)| <= v.blockLen
            && |job.env.staleOf(job.scanned)| == OLDBUF_SIZE
            && Current(job) == Find(v, WeakSum(CurrentWindow(job)), CurrentWindow(job), job.env.staleOf(job.scanned))
  {
    hide Find, WeakSum;
  }

  lemma {:induction false} InFront(s: seq<Byte>, t: seq<Byte>, u: seq<Byte>, a: nat, k: nat)
    requires a + k <= |s|
    ensures |(s + t + u)[a..]| >= k && (s + t + u)[a..][..k] == s[a..a + k]
  {
  }

  /** With nothing queued, the window is in the scoop at the scan position. */
  lemma {:induction false} WindowInScoop(job: Job)
    requires Equipped(job) && Shape(job) && job.Idle() && job.scoopPos + Span(job) <= |job.scoop|
    ensures CurrentWindow(job) == job.scoop[job.scoopPos..job.scoopPos + Span(job)]
  {
    hide RulesOf;
    InFront(job.scoop, job.input, job.unread, job.scoopPos, Span(job));
  }

  /** rs_findmatch. */
  method FindMatch(job: Job) returns (hit: Hit, len: nat)
    requires Ready(job) && job.Idle() && Unscanned(job) != [] && Rolled(job)
    requires Span(job) == Min(job.blockLen, |job.scoop| - job.scoopPos)
    modifies job.weakSum
    ensures len == Span(job) && hit == Current(job)
    ensures job.weakSum.Covers(CurrentWindow(job))
  {
    hide Future, Scan, EncodeAll, PendOk, Find, WeakSum, SigOk, EnvOk, RulesOf;
    ghost var w := CurrentWindow(job);
    CurrentIsFind(job);
    WindowInScoop(job);
    if job.weakSum.count == 0 {
      len := |job.scoop| - job.scoopPos;
      if len > job.blockLen {
        len := job.blockLen;
      }
      job.weakSum.Update(job.scoop[job.scoopPos..job.scoopPos + len], []);
      assert [] + job.scoop[job.scoopPos..job.scoopPos + len] == w;
    } else {
      len := job.weakSum.count;
    }
    var window := job.scoop[job.scoopPos..job.scoopPos + len];
    assert window == w;
    job.weakSum.DigestIsWeakSum(w);
    var digest := job.weakSum.Digest();
    hit := SearchForBlock(digest, window, job.sig, job.env.staleOf(job.scanned));
  }

  /** The rest of the run is decided: sending what the scan still yields completes the goal. */
  ghost predicate OnCourse(job: Job)
    reads job, job.sig, job.weakSum
  {
    Ready(job) && Total(job) == job.goal.out && Rolled(job)
  }

  /** No input is left outside the scoop. */
  ghost predicate AllScooped(job: Job)
    reads job
  {
    job.eofIn && job.input == []
  }

  ghost predicate AtStart(job: Job)
    reads job, job.sig, job.weakSum
  {
    && Ready(job) && job.weakSum.Covers([]) && job.Idle() && job.output == [] && job.scoopPos == 0 && job.basisLen == 0
    && job.goal.out == EncodeInt(DELTA_MAGIC, 4) + Future(JobRules(job), job.scanned, job.rest, Nothing)
  }

  ghost predicate DeltaInv(job: Job)
    reads job, job.sig, job.weakSum
  {
    && job.goal.res == Done
    && match job.statefn
       case DeltaHeader => AtStart(job)
       case DeltaScan => OnCourse(job)
       case DeltaFlush => OnCourse(job) && AllScooped(job) && |Unscanned(job)| <= job.blockLen
       case DeltaEnd => OnCourse(job) && AllScooped(job) && Unscanned(job) == [] && Pend(job) == Nothing
       case Complete => DeltaFinished(job)
       case _ => false
  }

  /** Everything has been sent or queued. */
  ghost predicate DeltaFinished(job: Job)
    reads job
  {
    job.goal.res == Done && Shape(job) && job.Sent() == job.goal.out && AllScooped(job) && Unscanned(job) == []
  }

  /** One byte of the new file enters the window as another leaves. */
  method MissInScan(job: Job) returns (r: Result)
    requires OnCourse(job) && job.Idle() && Unscanned(job) != [] && Current(job) == NoHit
    requires job.scoopPos + job.blockLen < |job.scoop|
    requires job.weakSum.Covers(CurrentWindow(job))
    modifies job`output, job`availOut, job`writeBuf, job`scoop, job`input, job`copyLen, job`rest, job`scoopPos,
             job`basisLen, job`scanned, job.weakSum
    ensures OnCourse(job)
    ensures Unscanned(job) == old(Unscanned(job))[1..]
    ensures job.weakSum.Covers(CurrentWindow(job)) && Span(job) == job.blockLen
    ensures job.copyLen + job.scoopPos + job.blockLen <= |job.scoop|
    ensures job.input == old(job.input)
    ensures r in {Done, Blocked} && (r == Done <==> job.Idle()) && (r == Blocked ==> job.availOut == 0)
    ensures |job.output| + job.availOut == old(|job.output| + job.availOut) && |job.output| >= old(|job.output|)
    ensures LiteralStays(job)
    ensures LiteralGrows(job)
  {
    hide SigOk, EnvOk, RulesOf, Future, Scan, EncodeAll, PendOk;
    ghost var u, w := Unscanned(job), CurrentWindow(job);
    var leaving, entering := job.scoop[job.scoopPos], job.scoop[job.scoopPos + job.blockLen];
    assert w == u[..job.blockLen] && leaving == u[0] && entering == u[job.blockLen];
    job.weakSum.Rotate(leaving, entering, w);
    r := AppendMiss(job);
    assert CurrentWindow(job) == u[1..][..job.blockLen] == w[1..] + [entering];
  }

  /** The optional check after such a miss, against a sum from scratch.  It reads the bytes at
      the scan position, which are the window unless a literal is still queued: then the
      comparison is with other bytes, and fails unless they happen to have the same sum. */
  method ParanoiaCheck(job: Job) returns (agrees: bool)
    requires OnCourse(job) && job.weakSum.Covers(CurrentWindow(job)) && Span(job) == job.blockLen
    requires job.copyLen + job.scoopPos + job.blockLen <= |job.scoop|
    ensures job.copyLen == 0 ==> agrees
    ensures agrees <==> WideSum(job.scoop[job.scoopPos..job.scoopPos + job.blockLen]) == WideSum(CurrentWindow(job))
  {
    hide SigOk, EnvOk, RulesOf, Future, Scan, EncodeAll, PendOk, S1, S2;
    var tested := job.scoop[job.scoopPos..job.scoopPos + job.blockLen];
    var test := new Rollsum();
    test.Update(tested, []);
    assert [] + tested == tested;
    agrees := test.WideDigest() == job.weakSum.WideDigest();
    if job.copyLen == 0 {
      assert tested == CurrentWindow(job);
    }
  }

  /** The window only shrinks once the end of the file has been reached. */
  method MissInFlush(job: Job) returns (r: Result)
    requires OnCourse(job) && job.Idle() && Unscanned(job) != [] && Current(job) == NoHit
    requires AllScooped(job) && |Unscanned(job)| <= job.blockLen
    requires job.weakSum.Covers(CurrentWindow(job))
    modifies job`output, job`availOut, job`writeBuf, job`scoop, job`input, job`copyLen, job`rest, job`scoopPos,
             job`basisLen, job`scanned, job.weakSum
    ensures OnCourse(job)
    ensures Unscanned(job) == old(Unscanned(job))[1..]
    ensures job.input == old(job.input)
    ensures r in {Done, Blocked} && (r == Done <==> job.Idle()) && (r == Blocked ==> job.availOut == 0)
    ensures |job.output| + job.availOut == old(|job.output| + job.availOut) && |job.output| >= old(|job.output|)
  {
    hide SigOk, EnvOk, RulesOf, Future, Scan, EncodeAll, PendOk;
    ghost var u, w := Unscanned(job), CurrentWindow(job);
    var leaving := job.scoop[job.scoopPos];
    assert w == u && leaving == u[0];
    job.weakSum.Rollout(leaving, w);
    r := AppendMiss(job);
    assert CurrentWindow(job) == u[1..];
  }

  /** A hit consumes the window and empties the rolling sum. */
  method HitBlock(job: Job, pos: nat, len: nat) returns (r: Result)
    requires OnCourse(job) && job.Idle() && Unscanned(job) != []
    requires Current(job) == Hit(pos) && len == Span(job) && job.scoopPos + len <= |job.scoop|
    modifies job`output, job`availOut, job`writeBuf, job`scoop, job`input, job`copyLen, job`rest, job`scoopPos,
             job`basisPos, job`basisLen, job`scanned, job.weakSum
    ensures OnCourse(job)
    ensures Unscanned(job) == old(Unscanned(job))[len..]
    ensures job.input == old(job.input)
    ensures r in {Done, Blocked} && (r == Done <==> job.Idle()) && (r == Blocked ==> job.availOut == 0)
    ensures |job.output| + job.availOut == old(|job.output| + job.availOut) && |job.output| >= old(|job.output|)
  {
    hide SigOk, EnvOk, RulesOf, Future, Scan, EncodeAll, PendOk;
    r := AppendMatch(job, pos, len);
    job.weakSum.Init();
  }

  /** How both scanning states begin: take all input, and find the tube still idle. */
  method TakeInput(job: Job) returns (r: Result)
    requires OnCourse(job) && job.Idle()
    modifies job`output, job`availOut, job`writeBuf, job`scoop, job`input, job`copyLen, job`rest
    ensures OnCourse(job) && job.Idle() && job.input == [] && r == Done
    ensures Unscanned(job) == old(Unscanned(job)) && Pend(job) == old(Pend(job))
    ensures |job.output| + job.availOut == old(|job.output| + job.availOut) && |job.output| >= old(|job.output|)
    ensures job.scoop == old(job.scoop + job.input) && job.output == old(job.output)
  {
    hide SigOk, EnvOk, RulesOf, Future, Scan, EncodeAll, PendOk;
    GetInput(job);
    r := ResumeScan(job);
  }

  /** The loop body of rs_delta_s_scan. */
  method ScanOnce(job: Job) returns (r: Result)
    requires OnCourse(job) && job.Idle() && job.input == [] && job.scoopPos + job.blockLen < |job.scoop|
    modifies job`output, job`availOut, job`writeBuf, job`scoop, job`input, job`copyLen, job`rest, job`scoopPos,
             job`basisPos, job`basisLen, job`scanned, job.weakSum
    ensures OnCourse(job) && job.input == []
    ensures |Unscanned(job)| < old(|Unscanned(job)|)
    ensures r in {Done, Blocked} && (r == Done <==> job.Idle()) && (r == Blocked ==> job.availOut == 0)
    ensures |job.output| + job.availOut == old(|job.output| + job.availOut) && |job.output| >= old(|job.output|)
  {
    hide SigOk, EnvOk, RulesOf, Future, Scan, EncodeAll, PendOk;
    var hit, len := FindMatch(job);
    if hit.Hit? {
      r := HitBlock(job, hit.pos, len);
    } else {
      r := MissInScan(job);
    }
  }

  /** rs_delta_s_scan. */
  method RunScan(job: Job) returns (r: Result)
    requires DeltaInv(job) && job.statefn == DeltaScan && job.Idle()
    modifies job`output, job`availOut, job`writeBuf, job`scoop, job`input, job`copyLen, job`rest, job`scoopPos,
             job`basisPos, job`basisLen, job`scanned, job`statefn, job.weakSum
    ensures DeltaInv(job)
    ensures r in {Running, Blocked}
    ensures r == Running ==> job.Idle() && job.statefn == DeltaFlush
    ensures r == Blocked ==> job.statefn == DeltaScan && (job.availOut == 0 || (job.input == [] && !job.eofIn))
    ensures |job.input| <= old(|job.input|)
    ensures |job.output| + job.availOut == old(|job.output| + job.availOut) && |job.output| >= old(|job.output|)
  {
    hide SigOk, EnvOk, RulesOf, Future, Scan, EncodeAll, PendOk;
    r := TakeInput(job);
    while r == Done && job.scoopPos + job.blockLen < |job.scoop|
      invariant OnCourse(job) && job.input == [] && job.statefn == DeltaScan
      invariant r in {Done, Blocked} && (r == Done <==> job.Idle()) && (r == Blocked ==> job.availOut == 0)
      invariant |job.output| + job.availOut == old(|job.output| + job.availOut) && |job.output| >= old(|job.output|)
      decreases |Unscanned(job)|
    {
      r := ScanOnce(job);
    }
    if r == Done {
      if job.eofIn {
        job.statefn := DeltaFlush;
        return Running;
      } else {
        return Blocked;
      }
    }
  }

  /** The loop body of rs_delta_s_flush. */
  method FlushOnce(job: Job) returns (r: Result)
    requires OnCourse(job) && job.Idle() && AllScooped(job)
    requires |Unscanned(job)| <= job.blockLen && job.scoopPos < |job.scoop|
    modifies job`output, job`availOut, job`writeBuf, job`scoop, job`input, job`copyLen, job`rest, job`scoopPos,
             job`basisPos, job`basisLen, job`scanned, job.weakSum
    ensures OnCourse(job) && AllScooped(job)
    ensures |Unscanned(job)| < old(|Unscanned(job)|)
    ensures r in {Done, Blocked} && (r == Done <==> job.Idle()) && (r == Blocked ==> job.availOut == 0)
    ensures |job.output| + job.availOut == old(|job.output| + job.availOut) && |job.output| >= old(|job.output|)
  {
    hide SigOk, EnvOk, RulesOf, Future, Scan, EncodeAll, PendOk;
    var hit, len := FindMatch(job);
    if hit.Hit? {
      r := HitBlock(job, hit.pos, len);
    } else {
      r := MissInFlush(job);
    }
  }

  /** rs_delta_s_flush. */
  method RunFlush(job: Job) returns (r: Result)
    requires DeltaInv(job) && job.statefn == DeltaFlush && job.Idle()
    modifies job`output, job`availOut, job`writeBuf, job`scoop, job`input, job`copyLen, job`rest, job`scoopPos,
             job`basisPos, job`basisLen, job`scanned, job`statefn, job.weakSum
    ensures DeltaInv(job)
    ensures r in {Running, Blocked}
    ensures r == Running ==> job.Idle() && job.statefn == DeltaEnd
    ensures r == Blocked ==> job.statefn in {DeltaFlush, DeltaEnd} && job.availOut == 0
    ensures |job.input| <= old(|job.input|)
    ensures |job.output| + job.availOut == old(|job.output| + job.availOut) && |job.output| >= old(|job.output|)
  {
    hide SigOk, EnvOk, RulesOf, Future, Scan, EncodeAll, PendOk;
    r := TakeInput(job);
    while r == Done && job.scoopPos < |job.scoop|
      invariant OnCourse(job) && AllScooped(job) && |Unscanned(job)| <= job.blockLen && job.statefn == DeltaFlush
      invariant r in {Done, Blocked} && (r == Done <==> job.Idle()) && (r == Blocked ==> job.availOut == 0)
      invariant |job.output| + job.availOut == old(|job.output| + job.availOut) && |job.output| >= old(|job.output|)
      decreases |Unscanned(job)|
    {
      r := FlushOnce(job);
    }
    if r == Done {
      r := FinalFlush(job);
    }
    if r == Done {
      return Running;
    }
  }

  lemma {:induction false} LastFlush(g: Rules, n: nat, p: Pending, sent: seq<Byte>)
    requires ScanReady(g, [], p)
    ensures sent + Future(g, n, [], p) == sent + PendBytes(p) + Future(g, n, [], Nothing)
  {
    hide Future;
    StepEnd(g, n, p);
    StepEnd(g, n, Nothing);
    assert [] + [OP_END] == [OP_END];
    Regroup(sent, PendBytes(p), [OP_END]);
  }

  /** With nothing left to scan, the pending item goes out. */
  method FlushRest(job: Job) returns (r: Result)
    requires Ready(job) && job.Idle() && Unscanned(job) == []
    modifies job`output, job`availOut, job`writeBuf, job`scoop, job`input, job`copyLen, job`rest, job`scoopPos,
             job`basisLen
    ensures Ready(job) && Total(job) == old(Total(job)) && Unscanned(job) == [] && Pend(job) == Nothing
    ensures job.input == old(job.input)
    ensures r in {Done, Blocked} && (r == Done <==> job.Idle()) && (r == Blocked ==> job.availOut == 0)
    ensures |job.output| + job.availOut == old(|job.output| + job.availOut) && |job.output| >= old(|job.output|)
  {
    hide SigOk, RulesOf, Future, PendBytes;
    LastFlush(JobRules(job), job.scanned, Pend(job), job.Sent());
    r := AppendFlush(job);
  }

  /** The end of rs_delta_s_flush: nothing stays pending. */
  method FinalFlush(job: Job) returns (r: Result)
    requires OnCourse(job) && AllScooped(job) && job.Idle() && Unscanned(job) == [] && job.goal.res == Done
    modifies job`output, job`availOut, job`writeBuf, job`scoop, job`input, job`copyLen, job`rest, job`scoopPos,
             job`basisLen, job`statefn
    ensures DeltaInv(job) && job.statefn == DeltaEnd
    ensures job.input == old(job.input)
    ensures r in {Done, Blocked} && (r == Done <==> job.Idle()) && (r == Blocked ==> job.availOut == 0)
    ensures |job.output| + job.availOut == old(|job.output| + job.availOut) && |job.output| >= old(|job.output|)
  {
    hide SigOk, EnvOk, RulesOf, Future, PendBytes, Rollsum.Covers;
    assert CurrentWindow(job) == [];
    r := FlushRest(job);
    job.statefn := DeltaEnd;
    assert CurrentWindow(job) == [];
  }

  /** rs_delta_s_end. */
  method RunEnd(job: Job) returns (r: Result)
    requires DeltaInv(job) && job.statefn == DeltaEnd && job.Idle()
    modifies job`writeBuf
    ensures r == Done && DeltaFinished(job)
  {
    hide SigOk, EnvOk, RulesOf, Scan, EncodeAll;
    StepEnd(JobRules(job), job.scanned, Nothing);
    ghost var sent := job.Sent();
    EmitEndCmd(job);
    assert job.Sent() == sent + [OP_END];
    r := Done;
  }

  /** rs_delta_s_header, for a job with a loaded signature. */
  method RunHeader(job: Job) returns (r: Result)
    requires DeltaInv(job) && job.statefn == DeltaHeader && job.Idle()
    modifies job`writeBuf, job`statefn
    ensures DeltaInv(job) && r == Running && job.statefn == DeltaScan
    ensures job.writeBuf == EncodeInt(DELTA_MAGIC, 4)
  {
    hide SigOk, EnvOk, RulesOf, Future, Scan, EncodeAll;
    EmitDeltaHeader(job);
    assert job.Sent() == EncodeInt(DELTA_MAGIC, 4);
    job.statefn := DeltaScan;
    r := Running;
  }

  /** rs_tube_catchup while scanning is under way. */
  method ResumeScan(job: Job) returns (r: Result)
    requires OnCourse(job)
    modifies job`output, job`availOut, job`writeBuf, job`scoop, job`input, job`copyLen, job`rest
    ensures OnCourse(job) && Unscanned(job) == old(Unscanned(job)) && Pend(job) == old(Pend(job))
    ensures job.input == old(job.input)
    ensures r in {Done, Blocked} && (r == Done <==> job.Idle()) && (r == Blocked ==> job.availOut == 0)
    ensures |job.output| + job.availOut == old(|job.output| + job.availOut) && |job.output| >= old(|job.output|)
    ensures job.Sent() == old(job.Sent())
    ensures old(job.availOut) == 0 || old(job.Idle()) ==> job.Still()
    ensures |job.scoop| <= |old(job.scoop)|
  {
    hide SigOk, EnvOk, RulesOf, Future, Scan, EncodeAll, PendOk;
    r := job.Catchup();
  }

  /** rs_tube_catchup once everything is scanned. */
  method ResumeFinished(job: Job) returns (r: Result)
    requires DeltaFinished(job)
    modifies job`output, job`availOut, job`writeBuf, job`scoop, job`input, job`copyLen, job`rest
    ensures DeltaFinished(job)
    ensures r in {Done, Blocked} && (r == Done <==> job.Idle()) && (r == Blocked ==> job.availOut == 0)
    ensures |job.output| + job.availOut == old(|job.output| + job.availOut) && |job.output| >= old(|job.output|)
  {
    r := job.Catchup();
  }

  /** rs_tube_catchup before anything has happened. */
  method ResumeStart(job: Job) returns (r: Result)
    requires AtStart(job)
    modifies job`output, job`availOut, job`writeBuf, job`scoop, job`input, job`copyLen, job`rest
    ensures AtStart(job) && r == Done && job.Idle() && job.input == old(job.input)
    ensures |job.output| + job.availOut == old(|job.output| + job.availOut) && |job.output| >= old(|job.output|)
  {
    hide SigOk, EnvOk, RulesOf, Future, Scan, EncodeAll, PendOk;
    r := job.Catchup();
  }

  /** rs_tube_catchup never disturbs the invariant of a delta job. */
  method Resume(job: Job) returns (r: Result)
    requires DeltaInv(job)
    modifies job`output, job`availOut, job`writeBuf, job`scoop, job`input, job`copyLen, job`rest
    ensures DeltaInv(job) && r in {Done, Blocked} && (r == Done <==> job.Idle()) && (r == Blocked ==> job.availOut == 0)
    ensures |job.output| + job.availOut == old(|job.output| + job.availOut) && |job.output| >= old(|job.output|)
    ensures |job.input| <= |old(job.input)|
  {
    hide OnCourse, AtStart;
    if job.statefn == DeltaHeader {
      r := ResumeStart(job);
    } else if job.statefn == Complete {
      r := ResumeFinished(job);
    } else {
      r := ResumeScan(job);
    }
  }

  method ExchangeScan(job: Job, chunk: seq<Byte>, last: bool, room: nat)
    requires OnCourse(job)
    requires chunk <= job.unread && (last ==> chunk == job.unread)
    modifies job`input, job`unread, job`eofIn, job`availOut
    ensures OnCourse(job) && Unscanned(job) == old(Unscanned(job)) && Pend(job) == old(Pend(job))
    ensures job.input == old(job.input) + chunk && job.unread == old(job.unread)[|chunk|..]
    ensures job.eofIn == (old(job.eofIn) || last) && job.availOut == room
  {
    hide SigOk, EnvOk, RulesOf, Future, Scan, EncodeAll, PendOk;
    assert job.scoop + (job.input + chunk) + job.unread[|chunk|..] == job.scoop + job.input + job.unread;
    job.unread := job.unread[|chunk|..];
    job.input := job.input + chunk;
    job.eofIn := job.eofIn || last;
    job.availOut := room;
  }

  method ExchangeStart(job: Job, chunk: seq<Byte>, last: bool, room: nat)
    requires AtStart(job)
    requires chunk <= job.unread && (last ==> chunk == job.unread)
    modifies job`input, job`unread, job`eofIn, job`availOut
    ensures AtStart(job)
    ensures job.input == old(job.input) + chunk && job.unread == old(job.unread)[|chunk|..]
    ensures job.eofIn == (old(job.eofIn) || last) && job.availOut == room
  {
    hide SigOk, EnvOk, RulesOf, Future, Scan, EncodeAll, PendOk;
    assert job.scoop + (job.input + chunk) + job.unread[|chunk|..] == job.scoop + job.input + job.unread;
    job.unread := job.unread[|chunk|..];
    job.input := job.input + chunk;
    job.eofIn := job.eofIn || last;
    job.availOut := room;
  }

  method ExchangeFinished(job: Job, chunk: seq<Byte>, last: bool, room: nat)
    requires DeltaFinished(job)
    requires chunk <= job.unread && (last ==> chunk == job.unread)
    modifies job`input, job`unread, job`eofIn, job`availOut
    ensures DeltaFinished(job)
    ensures job.input == old(job.input) + chunk && job.unread == old(job.unread)[|chunk|..]
    ensures job.eofIn == (old(job.eofIn) || last) && job.availOut == room
  {
    hide SigOk, EnvOk, RulesOf, Future, Scan, EncodeAll, PendOk;
    assert job.scoop + (job.input + chunk) + job.unread[|chunk|..] == job.scoop + job.input + job.unread;
    job.unread := job.unread[|chunk|..];
    job.input := job.input + chunk;
    job.eofIn := job.eofIn || last;
    job.availOut := room;
  }

  /** The caller may hand over more input, announce its end, and make room for output. */
  method Exchange(job: Job, chunk: seq<Byte>, last: bool, room: nat)
    requires DeltaInv(job) && chunk <= job.unread && (last ==> chunk == job.unread)
    modifies job`input, job`unread, job`eofIn, job`availOut
    ensures DeltaInv(job) && job.input == old(job.input) + chunk && job.unread == old(job.unread)[|chunk|..]
    ensures job.eofIn == (old(job.eofIn) || last) && job.availOut == room
  {
    hide OnCourse, AtStart;
    if job.statefn == DeltaHeader {
      ExchangeStart(job, chunk, last, room);
    } else if job.statefn == Complete {
      ExchangeFinished(job, chunk, last, room);
    } else {
      NothingUnread(job);
      ExchangeScan(job, chunk, last, room);
    }
  }

  lemma {:induction false} NothingUnread(job: Job)
    requires OnCourse(job)
    ensures job.eofIn ==> job.unread == []
  {
  }
}
