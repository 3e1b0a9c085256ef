/** mksum.c: the job that writes a signature. */
module MkSum {
  import opened Bytes
  import opened NetInt
  import opened Commands
  import opened Checksums
  import opened Sumset
  import opened Jobs
  import opened SigSpec

  ghost predicate SigInv(job: Job)
    reads job
  {
    && job.InputOk() && job.TubeOk() && job.copyLen == 0
    && SigParams(job.blockLen, job.strongLen, job.env.strongOf)
    && |job.scoop| < job.blockLen
    && job.goal.res == Done
    && match job.statefn
       case SigHeader =>
         && job.Idle() && job.output == [] && job.sigBlocks == 0
         && job.goal.out == SignatureOf(job.blockLen, job.strongLen, job.env.strongOf, job.rest)
       case SigGenerate =>
         job.goal.out == job.Sent() + SumsOf(job.blockLen, job.strongLen, job.env.strongOf, job.sigBlocks, job.rest)
       case Complete => job.goal.out == job.Sent() && job.rest == []
       case _ => false
  }

  /** rs_sig_s_header. */
  method RunHeader(job: Job) returns (r: Result)
    requires SigInv(job) && job.statefn == SigHeader && job.Idle()
    modifies job`writeBuf, job`statefn
    ensures SigInv(job) && r == Running && job.statefn == SigGenerate
  {
    hide SumsOf, EncodeInt;
    job.SquirtN4(SIG_MAGIC);
    job.SquirtN4(job.blockLen);
    job.SquirtN4(job.strongLen);
    assert job.Sent() == SigHead(job.blockLen, job.strongLen);
    job.statefn := SigGenerate;
    return Running;
  }

  /** rs_sig_do_block: fills the tube to its 20 bytes when the strong sum has its full 16.
      The strong sum itself is left uncomputed, so its bytes are whatever memory holds. */
  method DoBlock(job: Job, block: seq<Byte>) returns (r: Result)
    requires job.Idle() && 1 <= job.strongLen <= STRONG_LENGTH
    requires |job.env.strongOf(job.sigBlocks)| == STRONG_LENGTH
    modifies job`writeBuf, job`sigBlocks
    ensures job.writeBuf == EncodeInt(WeakSum(block), 4) + job.env.strongOf(old(job.sigBlocks))[..job.strongLen]
    ensures |job.writeBuf| == 4 + job.strongLen <= TUBE_SIZE
    ensures job.sigBlocks == old(job.sigBlocks) + 1 && r == Running
  {
    hide WeakSum, EncodeInt;
    var weakSum := CalcWeakSum(block);
    WeakSumBound(block);
    job.SquirtN4(weakSum);
    assert job.writeBuf == EncodeInt(weakSum, 4);
    job.TubeWrite(job.env.strongOf(job.sigBlocks)[..job.strongLen]);
    job.sigBlocks := job.sigBlocks + 1;
    return Running;
  }

  lemma {:induction false} WeakSumBound(w: seq<Byte>)
    ensures WeakSum(w) < TWO_32
  {
  }

  /** rs_sig_s_generate. */
  method RunGenerate(job: Job) returns (r: Result)
    requires SigInv(job) && job.statefn == SigGenerate && job.Idle()
    modifies job`scoop, job`input, job`rest, job`writeBuf, job`sigBlocks
    ensures r in {Running, Blocked, Done}
    ensures r in {Running, Blocked} ==> SigInv(job)
    ensures r == Running ==> |job.rest| < |old(job.rest)|
    ensures r == Blocked ==> job.input == [] && !job.eofIn
    ensures r == Done ==> job.goal.out == job.output && job.rest == [] && job.Idle() && job.InputOk()
    ensures |job.input| <= |old(job.input)|
  {
    hide WeakSum, EncodeInt;
    ghost var s, n, sent := job.rest, job.sigBlocks, job.Sent();
    var block;
    r, block := job.ScoopRead(job.blockLen);
    if r == Blocked && job.eofIn {
      r, block := job.ScoopReadRest();
    } else if r == InputEnded {
      return Done;
    } else if r != Done {
      return r;
    }
    ghost var w := Min(job.blockLen, |s|);
    assert block == s[..w] && job.rest == s[w..] && w > 0;
    r := DoBlock(job, block);
    Regroup(sent, job.writeBuf, SumsOf(job.blockLen, job.strongLen, job.env.strongOf, n + 1, s[w..]));
    assert job.Sent() == sent + job.writeBuf;
  }

  /** rs_tube_catchup never disturbs the invariant of a signature job. */
  method Resume(job: Job) returns (r: Result)
    requires SigInv(job)
    modifies job`output, job`availOut, job`writeBuf, job`scoop, job`input, job`copyLen, job`rest
    ensures SigInv(job) && r in {Done, Blocked} && (r == Done <==> job.Idle()) && (r == Blocked ==> job.availOut == 0)
    ensures |job.output| + job.availOut == old(|job.output| + job.availOut) && |job.output| >= old(|job.output|)
    ensures |job.rest| <= |old(job.rest)| && |job.input| <= |old(job.input)|
  {
    hide SumsOf;
    r := job.Catchup();
  }

  /** The caller may hand over more input, announce its end, and make room for output. */
  method Exchange(job: Job, chunk: seq<Byte>, last: bool, room: nat)
    requires SigInv(job) && chunk <= job.unread && (last ==> chunk == job.unread)
    modifies job`input, job`unread, job`eofIn, job`availOut
    ensures SigInv(job) && job.input == old(job.input) + chunk && job.unread == old(job.unread)[|chunk|..]
    ensures job.eofIn == (old(job.eofIn) || last) && job.availOut == room
  {
    hide SumsOf, SignatureOf;
    assert job.scoop + (job.input + chunk) + job.unread[|chunk|..] == job.scoop + job.input + job.unread;
    job.unread := job.unread[|chunk|..];
    job.input := job.input + chunk;
    job.eofIn := job.eofIn || last;
    job.availOut := room;
  }
}
