/** readsums.c: the job that loads a signature. */
module ReadSums {
  import opened Bytes
  import opened NetInt
  import opened Commands
  import opened Sumset
  import opened Jobs
  import opened SigSpec

  /** The part of the goal that a successful load must produce. */
  ghost predicate Promised(job: Job, l: Loading)
    reads job
  {
    && job.goal.res == l.res
    && (l.res == Done ==> job.goal.sums.blockLen == l.blockLen && job.goal.sums.strongLen == l.strongLen
                          && job.goal.sums.blocks == l.blocks)
  }

  /** Likewise with the header loaded, and the given blocks still to come. */
  ghost predicate Continues(job: Job, more: (seq<BlockSig>, Result))
    reads job, job.sig
  {
    && 0 <= job.sig.strongLen <= STRONG_LENGTH
    && Promised(job, Loading(job.sig.blockLen, job.sig.strongLen, job.sig.blocks + more.0, more.1))
  }

  ghost predicate LoadInv(job: Job)
    reads job, job.sig
  {
    && job.InputOk() && job.Idle() && job.output == [] && job.goal.out == []
    && match job.statefn
       case LoadMagic => |job.scoop| < 4 && job.sig.blocks == [] && Promised(job, LoadOf(job.rest))
       case LoadBlockLen => |job.scoop| < 4 && job.sig.blocks == [] && Promised(job, LoadAtBlockLen(job.rest))
       case LoadStrongLen =>
         |job.scoop| < 4 && job.sig.blocks == [] && Promised(job, LoadAtStrongLen(job.blockLen, job.rest))
       case LoadWeak =>
         && |job.scoop| < 4
         && 0 <= job.sig.strongLen <= STRONG_LENGTH
         && Continues(job, LoadSums(job.sig.strongLen, |job.sig.blocks|, job.rest))
       case LoadStrong =>
         && 0 <= job.sig.strongLen <= STRONG_LENGTH
         && |job.scoop| < Max(1, job.sig.strongLen)
         && Continues(job, LoadStrongSum(job.sig.strongLen, |job.sig.blocks|, job.weakSig, job.rest))
       case _ => false
  }

  /** The run is over with result r, and the goal reached. */
  ghost predicate LoadEnds(job: Job, r: Result)
    reads job, job.sig
  {
    && job.goal.res == r && job.output == job.goal.out && (r == Done ==> job.Idle())
    && (r == Done ==> Promised(job, Loading(job.sig.blockLen, job.sig.strongLen, job.sig.blocks, r)))
  }

  /** How a state that waits for bytes returns. */
  ghost predicate Waits(job: Job, r: Result)
    reads job
  {
    r == Blocked ==> job.input == [] && (job.eofIn ==> job.goal.res == Blocked)
  }

  /** rs_loadsig_s_magic. */
  method RunMagic(job: Job) returns (r: Result)
    requires LoadInv(job) && job.statefn == LoadMagic
    modifies job`scoop, job`input, job`rest, job`statefn
    ensures r in {Running, Blocked} ==> LoadInv(job)
    ensures r == Running ==> |job.rest| < |old(job.rest)|
    ensures r !in {Running, Blocked} ==> LoadEnds(job, r)
    ensures Waits(job, r) && r != InternalError && r != Done && |job.input| <= |old(job.input)|
  {
    hide LoadSums, LoadAtBlockLen;
    var l;
    r, l := job.SuckN4();
    if r != Done {
      return r;
    } else if l != SIG_MAGIC {
      return BadMagic;
    }
    job.statefn := LoadBlockLen;
    return Running;
  }

  /** rs_loadsig_s_blocklen. */
  method RunBlockLen(job: Job) returns (r: Result)
    requires LoadInv(job) && job.statefn == LoadBlockLen
    modifies job`scoop, job`input, job`rest, job`statefn, job`blockLen
    ensures r in {Running, Blocked} ==> LoadInv(job)
    ensures r == Running ==> |job.rest| < |old(job.rest)|
    ensures r !in {Running, Blocked} ==> LoadEnds(job, r)
    ensures Waits(job, r) && r != InternalError && r != Done && |job.input| <= |old(job.input)|
  {
    hide LoadSums, LoadAtStrongLen;
    var l;
    r, l := job.SuckN4();
    if r != Done {
      return r;
    }
    job.blockLen := l;
    if job.blockLen < 1 {
      return Corrupt;
    }
    job.statefn := LoadStrongLen;
    return Running;
  }

  /** rs_loadsig_s_stronglen. */
  method RunStrongLen(job: Job) returns (r: Result)
    requires LoadInv(job) && job.statefn == LoadStrongLen
    modifies job`scoop, job`input, job`rest, job`statefn, job`strongLen, job.sig`blockLen, job.sig`strongLen
    ensures r in {Running, Blocked} ==> LoadInv(job)
    ensures r == Running ==> |job.rest| < |old(job.rest)|
    ensures r !in {Running, Blocked} ==> LoadEnds(job, r)
    ensures Waits(job, r) && r != InternalError && r != Done && |job.input| <= |old(job.input)|
  {
    hide LoadSums;
    var l;
    r, l := job.SuckN4();
    if r != Done {
      return r;
    }
    job.strongLen := l;
    if l < 0 || l > STRONG_LENGTH {
      return Corrupt;
    }
    job.sig.blockLen := job.blockLen;
    job.sig.strongLen := job.strongLen;
    job.statefn := LoadWeak;
    assert job.sig.blocks + LoadSums(l, 0, job.rest).0 == LoadSums(l, 0, job.rest).0;
    return Running;
  }

  /** rs_loadsig_s_weak: the only state in which the input may end. */
  method RunWeak(job: Job) returns (r: Result)
    requires LoadInv(job) && job.statefn == LoadWeak
    modifies job`scoop, job`input, job`rest, job`statefn, job`weakSig
    ensures r in {Running, Blocked} ==> LoadInv(job)
    ensures r == Running ==> |job.rest| < |old(job.rest)|
    ensures r !in {Running, Blocked} ==> LoadEnds(job, r)
    ensures r == Done ==> job.rest == []
    ensures Waits(job, r) && r != InternalError && |job.input| <= |old(job.input)| && (r == Done ==> job.input == [])
  {
    hide LoadStrongSum, DecodeInt;
    ghost var s, four: nat := job.rest, 4;
    ghost var n := |job.sig.blocks|;
    var l;
    r, l := job.SuckN4();
    if r == Done {
    } else if r == InputEnded {
      assert job.sig.blocks + [] == job.sig.blocks;
      return Done;
    } else {
      return r;
    }
    job.weakSig := Wrap32(l);
    Powers();
    DecodeBound(s[..four]);
    WordOfInt(DecodeInt(s[..four]));
    job.statefn := LoadStrong;
    return Running;
  }

  /** rs_loadsig_add_sum. */
  method AddSum(job: Job, strong: seq<Byte>) returns (r: Result)
    modifies job.sig`blocks, job`sigBlocks
    ensures job.sig.blocks == old(job.sig.blocks) + [BlockSig(|old(job.sig.blocks)| + 1, job.weakSig, strong)]
    ensures r == Running
  {
    job.sig.blocks := job.sig.blocks + [BlockSig(|job.sig.blocks| + 1, job.weakSig, strong)];
    job.sigBlocks := job.sigBlocks + 1;
    return Running;
  }

  lemma {:induction false} StrongCases(strongLen: nat, n: nat, weak: nat, s: seq<Byte>)
    ensures strongLen > 0 && s == [] ==> LoadStrongSum(strongLen, n, weak, s) == ([], InputEnded)
    ensures 0 < |s| < strongLen ==> LoadStrongSum(strongLen, n, weak, s) == ([], Blocked)
    ensures |s| >= strongLen ==>
              var more := LoadSums(strongLen, n + 1, s[strongLen..]);
              LoadStrongSum(strongLen, n, weak, s) == ([BlockSig(n + 1, weak, s[..strongLen])] + more.0, more.1)
  {
  }

  /** rs_loadsig_s_strong. */
  method RunStrong(job: Job) returns (r: Result)
    requires LoadInv(job) && job.statefn == LoadStrong
    modifies job`scoop, job`input, job`rest, job`statefn, job`sigBlocks, job.sig`blocks
    ensures r in {Running, Blocked} ==> LoadInv(job)
    ensures r == Running ==> job.statefn == LoadWeak && |job.rest| <= |old(job.rest)|
    ensures r !in {Running, Blocked} ==> LoadEnds(job, r)
    ensures Waits(job, r) && r != InternalError && r != Done && |job.input| <= |old(job.input)|
  {
    hide LoadSums, LoadStrongSum, LoadOf, LoadAtBlockLen, LoadAtStrongLen;
    ghost var s, was, weak := job.rest, job.sig.blocks, job.weakSig;
    StrongCases(job.sig.strongLen, |was|, weak, s);
    var strong;
    r, strong := job.ScoopRead(job.sig.strongLen);
    if r != Done {
      return r;
    }
    job.statefn := LoadWeak;
    r := AddSum(job, strong);
    Regroup(was, [BlockSig(|was| + 1, weak, strong)], LoadSums(job.sig.strongLen, |was| + 1, job.rest).0);
  }

  /** rs_tube_catchup never disturbs the invariant of a load job. */
  method Resume(job: Job) returns (r: Result)
    requires LoadInv(job)
    modifies job`output, job`availOut, job`writeBuf, job`scoop, job`input, job`copyLen, job`rest
    ensures LoadInv(job) && r == Done && job.Idle()
    ensures |job.output| + job.availOut == old(|job.output| + job.availOut) && |job.output| >= old(|job.output|)
    ensures |job.rest| <= |old(job.rest)| && |job.input| <= |old(job.input)|
  {
    hide LoadOf, LoadAtBlockLen, LoadAtStrongLen, LoadSums, LoadStrongSum;
    r := job.Catchup();
  }

  /** The caller may hand over more input, announce its end, and make room for output. */
  method Exchange(job: Job, chunk: seq<Byte>, last: bool, room: nat)
    requires LoadInv(job) && chunk <= job.unread && (last ==> chunk == job.unread)
    modifies job`input, job`unread, job`eofIn, job`availOut
    ensures LoadInv(job) && job.input == old(job.input) + chunk && job.unread == old(job.unread)[|chunk|..]
    ensures job.eofIn == (old(job.eofIn) || last) && job.availOut == room
  {
    hide LoadOf, LoadAtBlockLen, LoadAtStrongLen, LoadSums, LoadStrongSum;
    assert job.scoop + (job.input + chunk) + job.unread[|chunk|..] == job.scoop + job.input + job.unread;
    job.unread := job.unread[|chunk|..];
    job.input := job.input + chunk;
    job.eofIn := job.eofIn || last;
    job.availOut := room;
  }
}
