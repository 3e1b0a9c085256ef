/** patch.c: the job that applies a delta to a basis file. */
module Patch {
  import opened Bytes
  import opened NetInt
  import opened Commands
  import opened Jobs
  import opened PatchSpec

  // ---------------------------------------------------------------------
  // What the fields of the job mean
  // ---------------------------------------------------------------------

  /** What follows n queued bytes of `s`. */
  ghost function Settled(basis: seq<Byte>, n: int, s: seq<Byte>): (r: Outcome) {
    if n < 0 then Outcome([], Aborted)
    else if n > |s| then Outcome([], InputEnded)
    else Decode(basis, Dropped(s, n))
  }

  lemma {:induction false} LiteralQueued(basis: seq<Byte>, len: int, s: seq<Byte>)
    requires len >= 0
    ensures ToInt32(len) < TWO_31
    ensures CopyThrough(basis, len, s) == Before(Taken(s, ToInt32(len)), Settled(basis, ToInt32(len), s))
  {
    hide Decode;
    assert CopyThrough(basis, len, s) == Drain(basis, ToInt32(len), s);
  }

  /** The outcome still ahead of the job, once the queued literal is out. */
  ghost function Ahead(job: Job): (r: Outcome)
    reads job
  {
    var basis := job.env.basis;
    match job.statefn
    case PatchHeader => PatchOf(basis, job.rest)
    case PatchCmdByte => Settled(basis, job.copyLen, job.rest)
    case PatchParams => AwaitParams(basis, job.cmd, job.rest)
    case PatchRun => Execute(basis, job.cmd.kind, job.param1, job.param2, job.rest)
    case PatchLiteral => CopyThrough(basis, job.param1, job.rest)
    case PatchCopy => Execute(basis, KindCopy, job.param1, job.param2, job.rest)
    case PatchCopying => CopyBasis(basis, Max(0, job.basisPos), Max(0, job.basisLen), job.rest)
    case _ => Outcome([], Done)
  }

  ghost predicate PatchShape(job: Job)
    reads job
  {
    && job.InputOk() && job.writeBuf == [] && job.copyLen < TWO_31
    && (job.statefn != PatchCmdByte ==> job.copyLen == 0)
    && match job.statefn
       case PatchHeader => |job.scoop| < 4
       case PatchParams =>
         && 0 < job.cmd.len1 <= 8 && job.cmd.len2 <= 8
         && |job.scoop| < job.cmd.len1 + job.cmd.len2
         && (job.cmd.kind == KindCopy ==> job.cmd.len2 > 0)
       case PatchCopying => job.scoop == [] && job.basisPos >= 0 && job.basisLen >= 0
       case _ => job.scoop == []
  }

  /** What was sent or queued, followed by the outcome ahead, is the goal. */
  ghost predicate PatchInv(job: Job)
    reads job
  {
    && job.statefn in {PatchHeader, PatchCmdByte, PatchParams, PatchRun, PatchLiteral, PatchCopy, PatchCopying}
    && PatchShape(job)
    && job.goal.out == job.Sent() + Ahead(job).out && job.goal.res == Ahead(job).res
  }

  /** The run is over with result r, and the goal reached. */
  ghost predicate PatchEnds(job: Job, r: Result)
    reads job
  {
    job.output == job.goal.out && job.goal.res == r && (r == Done ==> job.Idle())
  }

  /** Standing at a copy of no bytes, which no call ever leaves. */
  predicate Stuck(job: Job)
    reads job
  {
    job.kind == PatchJob && job.statefn == PatchCopying && job.basisLen == 0
  }

  lemma {:induction false} StuckFate(job: Job)
    requires PatchInv(job) && Stuck(job)
    ensures job.goal.out == job.output && job.goal.res == if job.rest == [] then Blocked else InternalError
    ensures job.rest == job.input + job.unread && job.Idle()
  {
    assert job.Sent() + [] == job.output;
    assert job.rest == [] + job.input + job.unread;
  }

  // ---------------------------------------------------------------------
  // The states
  // ---------------------------------------------------------------------

  /** rs_patch_s_header. */
  method RunHeader(job: Job) returns (r: Result)
    requires PatchInv(job) && job.statefn == PatchHeader && job.Idle()
    modifies job`scoop, job`input, job`rest, job`statefn
    ensures r in {Running, Blocked, InputEnded, BadMagic}
    ensures r in {Running, Blocked} ==> PatchInv(job)
    ensures r == Running ==>
              job.statefn == PatchCmdByte && |job.rest| < |old(job.rest)| && |job.input| < |old(job.input)|
    ensures r == Blocked ==> job.statefn == PatchHeader && job.input == [] && (job.eofIn ==> job.goal.res == Blocked)
    ensures r !in {Running, Blocked} ==> PatchEnds(job, r)
    ensures |job.input| <= |old(job.input)|
  {
    hide Decode;
    var v;
    r, v := job.SuckN4();
    if r != Done {
      return r;
    }
    if v != DELTA_MAGIC {
      return BadMagic;
    }
    job.statefn := PatchCmdByte;
    return Running;
  }

  /** rs_patch_s_cmdbyte. */
  method RunCmdByte(job: Job) returns (r: Result)
    requires PatchInv(job) && job.statefn == PatchCmdByte && job.Idle()
    modifies job`scoop, job`input, job`rest, job`op, job`cmd, job`param1, job`statefn
    ensures r in {Running, Blocked, InputEnded}
    ensures r in {Running, Blocked} ==> PatchInv(job)
    ensures r == Running ==>
              job.statefn in {PatchParams, PatchRun} && |job.rest| < |old(job.rest)| && |job.input| < |old(job.input)|
    ensures r == Blocked ==> job.statefn == PatchCmdByte && job.input == [] && !job.eofIn
    ensures r !in {Running, Blocked} ==> PatchEnds(job, r)
    ensures |job.input| <= |old(job.input)|
  {
    hide Decode, Execute, Prototab;
    ghost var s := job.rest;
    r := job.SuckByte();
    if r != Done {
      if s == [] {
        DecodeNothing(job.env.basis);
      }
      return r;
    }
    job.cmd := Prototab(job.op);
    DecodeByOpcode(job.env.basis, s);
    CopyHasParams(job.op);
    if job.cmd.len1 != 0 {
      job.statefn := PatchParams;
    } else {
      job.param1 := job.cmd.immediate;
      job.statefn := PatchRun;
      SecondParamUnused(job.env.basis, job.cmd.kind, job.param1, 0, job.param2, job.rest);
    }
    return Running;
  }

  lemma {:induction false} DecodeNothing(basis: seq<Byte>)
    ensures Decode(basis, []) == Outcome([], InputEnded)
  {
  }

  /** rs_patch_s_params. */
  method RunParams(job: Job) returns (r: Result)
    requires PatchInv(job) && job.statefn == PatchParams && job.Idle()
    modifies job`scoop, job`input, job`rest, job`param1, job`param2, job`statefn
    ensures r in {Running, Blocked, InputEnded}
    ensures r in {Running, Blocked} ==> PatchInv(job)
    ensures r == Running ==> job.statefn == PatchRun && |job.rest| < |old(job.rest)| && |job.input| < |old(job.input)|
    ensures r == Blocked ==> job.statefn == PatchParams && job.input == [] && (job.eofIn ==> job.goal.res == Blocked)
    ensures r !in {Running, Blocked} ==> PatchEnds(job, r)
    ensures |job.input| <= |old(job.input)|
  {
    hide Decode, Execute, DecodeInt, Readahead;
    var data;
    r, data := job.ScoopReadahead(job.cmd.len1 + job.cmd.len2);
    if r != Done {
      return r;
    }
    ghost var s := job.rest;
    ReadParams(job);
    AwaitReady(job.env.basis, job.cmd, s, job.param1, job.param2);
    job.statefn := PatchRun;
    return Running;
  }

  /** The two integers of rs_patch_s_params, known to be there. */
  method ReadParams(job: Job)
    requires job.InputOk() && 0 < job.cmd.len1 <= 8 && job.cmd.len2 <= 8
    requires |job.scoop + job.input| >= job.cmd.len1 + job.cmd.len2
    requires job.scoop == [] || |job.scoop| == job.cmd.len1 + job.cmd.len2
    modifies job`scoop, job`input, job`rest, job`param1, job`param2
    ensures job.InputOk() && job.scoop == []
    ensures var m, n := job.cmd.len1, job.cmd.len2;
            && m + n <= |old(job.rest)| && job.rest == old(job.rest)[m + n..]
            && job.param1 == ToInt64(DecodeInt(old(job.rest)[..m]))
            && (n != 0 ==> job.param2 == ToInt64(DecodeInt(old(job.rest)[m..m + n])))
    ensures |job.input| <= |old(job.input)| && (old(job.scoop) == [] ==> |job.input| < |old(job.input)|)
  {
    hide DecodeInt;
    var m, n := job.cmd.len1, job.cmd.len2;
    ghost var s := job.rest;
    var r, v := job.SuckNetint(m);
    job.param1 := v;
    if n != 0 {
      assert s[m..][..n] == s[m..m + n] && s[m..][n..] == s[m + n..];
      r, v := job.SuckNetint(n);
      job.param2 := v;
    }
  }

  lemma {:induction false} AwaitReady(basis: seq<Byte>, e: Entry, s: seq<Byte>, p1: int, p2: int)
    requires 0 < e.len1 && e.len1 + e.len2 <= |s|
    requires p1 == ToInt64(DecodeInt(s[..e.len1]))
    requires e.len2 != 0 ==> p2 == ToInt64(DecodeInt(s[e.len1..e.len1 + e.len2]))
    requires e.kind == KindCopy ==> e.len2 != 0
    ensures AwaitParams(basis, e, s) == Execute(basis, e.kind, p1, p2, s[e.len1 + e.len2..])
  {
    if e.len2 == 0 {
      SecondParamUnused(basis, e.kind, p1, 0, p2, s[e.len1..]);
    }
  }

  /** rs_patch_s_run. */
  method RunRun(job: Job) returns (r: Result)
    requires PatchInv(job) && job.statefn == PatchRun && job.Idle()
    modifies job`statefn
    ensures r in {Running, Done, Corrupt}
    ensures r == Running ==> PatchInv(job) && job.statefn in {PatchLiteral, PatchCopy}
    ensures r != Running ==> PatchEnds(job, r)
  {
    match job.cmd.kind
    case KindLiteral =>
      job.statefn := PatchLiteral;
      return Running;
    case KindEnd =>
      return Done;
    case KindCopy =>
      job.statefn := PatchCopy;
      return Running;
    case KindReserved =>
      return Corrupt;
  }

  /** Queueing the literal and then going on is what the command means. */
  lemma {:induction false} LiteralGoal(basis: seq<Byte>, len: int, s: seq<Byte>, out: seq<Byte>, queued: seq<Byte>)
    requires len >= 0 && queued == []
    ensures out + queued + Taken(s, 0) + CopyThrough(basis, len, s).out
         == out + queued + Taken(s, ToInt32(len)) + Settled(basis, ToInt32(len), s).out
    ensures CopyThrough(basis, len, s).res == Settled(basis, ToInt32(len), s).res
    ensures ToInt32(len) < TWO_31
  {
    hide CopyThrough, Settled;
    var n := ToInt32(len);
    LiteralQueued(basis, len, s);
    Regroup(out, Taken(s, n), Settled(basis, n, s).out);
    assert out + queued == out;
    assert out + Taken(s, 0) == out;
  }

  lemma {:induction false} NegativeLiteral(basis: seq<Byte>, len: int, s: seq<Byte>)
    requires len < 0
    ensures CopyThrough(basis, len, s) == Outcome([], Corrupt)
  {
  }

  /** rs_patch_s_literal. */
  method RunLiteral(job: Job) returns (r: Result)
    requires PatchInv(job) && job.statefn == PatchLiteral && job.Idle()
    modifies job`copyLen, job`statefn
    ensures r in {Running, Corrupt}
    ensures r == Running ==> PatchInv(job) && job.statefn == PatchCmdByte
    ensures r != Running ==> PatchEnds(job, r)
  {
    hide CopyThrough, Settled, Decode, ToInt32;
    var len := job.param1;
    if len < 0 {
      NegativeLiteral(job.env.basis, len, job.rest);
      return Corrupt;
    }
    LiteralGoal(job.env.basis, len, job.rest, job.output, job.writeBuf);
    job.TubeCopy(len);
    job.statefn := PatchCmdByte;
    return Running;
  }

  /** rs_patch_s_copy. */
  method RunCopy(job: Job) returns (r: Result)
    requires PatchInv(job) && job.statefn == PatchCopy && job.Idle()
    modifies job`basisPos, job`basisLen, job`statefn
    ensures r in {Running, Corrupt}
    ensures r == Running ==> PatchInv(job) && job.statefn == PatchCopying
    ensures r != Running ==> PatchEnds(job, r)
  {
    hide Decode;
    var pos, len := job.param1, job.param2;
    if len < 0 {
      return Corrupt;
    }
    if pos < 0 {
      return Corrupt;
    }
    job.basisPos, job.basisLen := pos, len;
    job.statefn := PatchCopying;
    return Running;
  }

  /** rs_file_copy_cb: at least one byte if there is any, possibly fewer than asked for. */
  method FileCopyCb(basis: seq<Byte>, pos: nat, len: nat) returns (r: Result, data: seq<Byte>)
    requires len > 0
    ensures r in {Done, InputEnded}
    ensures r == InputEnded <==> pos >= |basis|
    ensures r == Done ==> 1 <= |data| <= len && pos + |data| <= |basis| && data == basis[pos..pos + |data|]
  {
    if pos >= |basis| {
      return InputEnded, [];
    }
    var most := Min(len, |basis| - pos);
    var got: nat :| 1 <= got <= most;
    return Done, basis[pos..pos + got];
  }

  /** rs_patch_s_copying. */
  method RunCopying(job: Job) returns (r: Result)
    requires PatchInv(job) && job.statefn == PatchCopying && job.Idle()
    modifies job`output, job`availOut, job`basisPos, job`basisLen, job`statefn
    ensures r in {Running, Blocked, InputEnded}
    ensures r in {Running, Blocked} ==> PatchInv(job)
    ensures r == Running ==> || job.statefn == PatchCmdByte
                             || (job.statefn == PatchCopying && 0 < job.basisLen < old(job.basisLen))
    ensures r == Running ==> |job.output| > old(|job.output|)
    ensures r == Blocked <==> old(job.availOut) == 0 || old(job.basisLen) == 0
    ensures r == Blocked ==> job.statefn == PatchCopying && job.basisLen == old(job.basisLen)
    ensures r == Blocked ==> job.output == old(job.output)
    ensures r !in {Running, Blocked} ==> PatchEnds(job, r)
    ensures |job.output| + job.availOut == old(|job.output| + job.availOut) && |job.output| >= old(|job.output|)
  {
    hide Decode;
    var len := Min(job.basisLen, job.availOut);
    if len == 0 {
      return Blocked;
    }
    var data;
    r, data := FileCopyCb(job.env.basis, job.basisPos, len);
    if r != Done {
      return r;
    }
    Deliver(job, data);
    return Running;
  }

  /** The tail of rs_patch_s_copying: hand over what the callback returned. */
  method Deliver(job: Job, data: seq<Byte>)
    requires PatchInv(job) && job.statefn == PatchCopying && job.Idle()
    requires 1 <= |data| <= Min(job.basisLen, job.availOut)
    requires job.basisPos + |data| <= |job.env.basis| && data == job.env.basis[job.basisPos..job.basisPos + |data|]
    modifies job`output, job`availOut, job`basisPos, job`basisLen, job`statefn
    ensures PatchInv(job)
    ensures job.statefn == PatchCmdByte || (job.statefn == PatchCopying && 0 < job.basisLen < old(job.basisLen))
    ensures |job.output| == old(|job.output|) + |data| && job.availOut == old(job.availOut) - |data|
  {
    hide Decode, CopyBasis;
    var k := |data|;
    ghost var basis := job.env.basis;
    ghost var after := CopyAfter(basis, job.basisPos, job.basisLen, k, job.rest);
    CopyInParts(basis, job.basisPos, job.basisLen, k, job.rest);
    Regroup(job.output, data, after.out);
    job.output := job.output + data;
    job.availOut := job.availOut - k;
    job.basisPos := job.basisPos + k;
    job.basisLen := job.basisLen - k;
    if job.basisLen == 0 {
      job.statefn := PatchCmdByte;
    }
    assert Ahead(job) == after;
  }

  /** What remains of a copy after its first k bytes. */
  ghost function CopyAfter(basis: seq<Byte>, pos: nat, len: nat, k: nat, tail: seq<Byte>): (r: Outcome)
    requires k <= len
  {
    if k == len then Decode(basis, tail) else CopyBasis(basis, pos + k, len - k, tail)
  }

  lemma {:induction false} CopyInParts(basis: seq<Byte>, pos: nat, len: nat, k: nat, tail: seq<Byte>)
    requires 1 <= k <= len && pos + k <= |basis|
    ensures CopyBasis(basis, pos, len, tail) == Before(basis[pos..pos + k], CopyAfter(basis, pos, len, k, tail))
  {
    hide Decode;
    if k < len {
      if pos + len <= |basis| {
        assert basis[pos..pos + len] == basis[pos..pos + k] + basis[pos + k..pos + len];
        Regroup(basis[pos..pos + k], basis[pos + k..pos + len], Decode(basis, tail).out);
      } else {
        assert basis[pos..] == basis[pos..pos + k] + basis[pos + k..];
      }
    }
  }

  /** rs_tube_catchup never disturbs the invariant of a patch job. */
  method Resume(job: Job) returns (r: Result)
    requires PatchInv(job)
    modifies job`output, job`availOut, job`writeBuf, job`scoop, job`input, job`copyLen, job`rest
    ensures r in {Done, Blocked, InputEnded, Aborted} && (r == Done <==> job.Idle())
    ensures r in {Done, Blocked} ==> PatchInv(job)
    ensures r == Blocked ==> job.availOut == 0 || (job.input == [] && !job.eofIn)
    ensures r !in {Done, Blocked} ==> PatchEnds(job, r)
    ensures |job.output| + job.availOut == old(|job.output| + job.availOut) && |job.output| >= old(|job.output|)
    ensures |job.rest| <= |old(job.rest)| && |job.input| <= |old(job.input)|
    ensures old(job.Idle()) ==> job.Still()
  {
    hide Decode, Execute, CopyBasis, AwaitParams, PatchOf, CopyThrough;
    r := job.Catchup();
  }

  /** The caller may hand over more input, announce its end, and make room for output. */
  method Exchange(job: Job, chunk: seq<Byte>, last: bool, room: nat)
    requires PatchInv(job) && chunk <= job.unread && (last ==> chunk == job.unread)
    modifies job`input, job`unread, job`eofIn, job`availOut
    ensures PatchInv(job) && job.input == old(job.input) + chunk && job.unread == old(job.unread)[|chunk|..]
    ensures job.eofIn == (old(job.eofIn) || last) && job.availOut == room
  {
    hide Decode, Execute, CopyBasis, AwaitParams, PatchOf, CopyThrough, Settled;
    assert job.scoop + (job.input + chunk) + job.unread[|chunk|..] == job.scoop + job.input + job.unread;
    job.unread := job.unread[|chunk|..];
    job.input := job.input + chunk;
    job.eofIn := job.eofIn || last;
    job.availOut := room;
  }
}
