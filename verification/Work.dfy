/** job.c: the loop that drives any job's states, and the run to completion. */
module Work {
  import opened Bytes
  import opened Jobs
  import Delta
  import Patch
  import MkSum
  import ReadSums
  import SigSpec

  /** The invariant of whatever job this is. */
  ghost predicate Inv(job: Job)
    reads job, job.sig, job.weakSum
  {
    match job.kind
    case SigJob => MkSum.SigInv(job)
    case LoadJob => ReadSums.LoadInv(job)
    case DeltaJob => Delta.DeltaInv(job)
    case PatchJob => Patch.PatchInv(job)
  }

  /** The run is over with result r, and everything promised at its start has come true. */
  ghost predicate Ends(job: Job, r: Result)
    reads job, job.sig
  {
    && job.goal.res == r && job.output == job.goal.out && (r == Done ==> job.Idle())
    && (job.kind == LoadJob && r == Done ==>
          ReadSums.Promised(job, SigSpec.Loading(job.sig.blockLen, job.sig.strongLen, job.sig.blocks, r)))
  }

  /** A state has returned a final result r. */
  ghost predicate Closing(job: Job, r: Result)
    reads job, job.sig
  {
    && (r != Done ==> Ends(job, r))
    && (r == Done ==>
          match job.kind
          case SigJob =>
            job.goal.res == Done && job.goal.out == job.Sent() && job.rest == [] && job.InputOk() && job.Idle()
          case LoadJob => Ends(job, r)
          case DeltaJob => Delta.DeltaFinished(job)
          case PatchJob => Ends(job, r))
  }

  /** States in which the job can be left between calls. */
  predicate Resting(job: Job)
    reads job
  {
    job.statefn !in {PatchRun, PatchLiteral, PatchCopy}
  }

  function Rank(s: State): (r: nat) {
    match s
    case SigHeader => 1
    case LoadStrong => 1
    case DeltaHeader => 4
    case DeltaScan => 3
    case DeltaFlush => 2
    case DeltaEnd => 1
    case PatchRun => 4
    case PatchCopy => 3
    case PatchLiteral => 3
    case PatchCopying => 2
    case _ => 0
  }

  /** Why a job stops: no room for output, no input, or a copy of no bytes. */
  ghost predicate Stalled(job: Job)
    reads job
  {
    || (job.availOut == 0 && job.kind != LoadJob)
    || (job.input == [] && (job.eofIn ==> job.goal.res == Blocked))
    || Patch.Stuck(job)
  }

  /** At a copy of no bytes nothing moves. */
  twostate predicate Unmoved(job: Job)
    reads job
  {
    Patch.Stuck(job) && job.input == old(job.input) && job.availOut == old(job.availOut)
  }

  /** A delta job only ever moves on to its next state; the others consume input. */
  ghost function Major(job: Job): (r: nat)
    reads job
  {
    if job.kind == DeltaJob then Rank(job.statefn) else |job.rest|
  }

  ghost function Minor(job: Job): (r: nat)
    reads job
  {
    if job.kind == DeltaJob then 0 else Rank(job.statefn)
  }

  ghost function Least(job: Job): (r: nat)
    reads job
  {
    if job.kind == PatchJob then Max(0, job.basisLen) else 0
  }

  /** The progress a state makes when it asks to be continued. */
  ghost predicate Progress(job: Job, major: nat, minor: nat, least: nat)
    reads job
  {
    || Major(job) < major
    || (Major(job) == major && Minor(job) < minor)
    || (Major(job) == major && Minor(job) == minor && Least(job) < least)
  }

  /** rs_tube_catchup, with what it means for the job at hand. */
  method CatchUp(job: Job) returns (r: Result)
    requires Inv(job)
    modifies job`output, job`availOut, job`writeBuf, job`scoop, job`input, job`copyLen, job`rest
    ensures r in {Done, Blocked, InputEnded, Aborted}
    ensures r in {Done, Blocked} ==> Inv(job) && (r == Done <==> job.Idle())
    ensures r == Blocked ==> Stalled(job)
    ensures r !in {Done, Blocked} ==> Ends(job, r)
    ensures |job.output| + job.availOut == old(|job.output| + job.availOut) && |job.output| >= old(|job.output|)
    ensures Major(job) <= old(Major(job)) && |job.input| <= |old(job.input)|
    ensures Patch.Stuck(job) <==> old(Patch.Stuck(job))
    ensures old(Patch.Stuck(job)) ==> r == Done && Unmoved(job)
  {
    match job.kind
    case SigJob => r := MkSum.Resume(job);
    case LoadJob => r := ReadSums.Resume(job);
    case DeltaJob => r := Delta.Resume(job);
    case PatchJob => r := Patch.Resume(job);
  }

  /** What every state owes the loop that calls it. */
  twostate predicate StateKept(job: Job, r: Result)
    reads job, job.sig, job.weakSum
  {
    && r != InternalError
    && (r in {Running, Blocked} ==> Inv(job))
    && (r == Running ==> Progress(job, old(Major(job)), old(Minor(job)), old(Least(job))))
    && (r == Running && !Resting(job) ==> |job.input| < old(|job.input|) || !old(Resting(job)))
    && (r == Blocked ==> Stalled(job) && Resting(job) && job.statefn != Complete)
    && (r !in {Running, Blocked} ==> Closing(job, r))
    && (r == Done ==> job.input == [] || !old(Resting(job)))
    && (old(Patch.Stuck(job)) ==> r == Blocked && Unmoved(job))
    && (r == Running && !old(Patch.Stuck(job)) && Patch.Stuck(job) ==>
          !old(Resting(job)) || |job.output| > old(|job.output|))
    && (r == Blocked && !old(Patch.Stuck(job)) ==> !Patch.Stuck(job))
    && |job.output| + job.availOut == old(|job.output| + job.availOut) && |job.output| >= old(|job.output|)
    && |job.input| <= old(|job.input|)
    && job.eofIn == old(job.eofIn) && job.unread == old(job.unread)
  }

  method RunSigState(job: Job) returns (r: Result)
    requires job.kind == SigJob && Inv(job) && job.Idle() && job.statefn != Complete
    modifies job
    ensures StateKept(job, r)
  {
    hide SigSpec.SumsOf, SigSpec.SignatureOf;
    if job.statefn == SigHeader {
      r := MkSum.RunHeader(job);
    } else {
      r := MkSum.RunGenerate(job);
    }
  }

  method RunLoadState(job: Job) returns (r: Result)
    requires job.kind == LoadJob && Inv(job) && job.Idle()
    modifies job, job.sig
    ensures StateKept(job, r)
  {
    assert job.statefn in {LoadMagic, LoadBlockLen, LoadStrongLen, LoadWeak, LoadStrong};
    if job.statefn == LoadWeak || job.statefn == LoadStrong {
      r := RunLoadSums(job);
    } else {
      r := RunLoadHeader(job);
    }
  }

  method RunLoadHeader(job: Job) returns (r: Result)
    requires job.kind == LoadJob && Inv(job) && job.Idle()
    requires job.statefn in {LoadMagic, LoadBlockLen, LoadStrongLen}
    modifies job, job.sig
    ensures StateKept(job, r)
  {
    if job.statefn == LoadMagic {
      r := ReadSums.RunMagic(job);
    } else if job.statefn == LoadBlockLen {
      r := ReadSums.RunBlockLen(job);
    } else {
      r := ReadSums.RunStrongLen(job);
    }
  }

  method RunLoadSums(job: Job) returns (r: Result)
    requires job.kind == LoadJob && Inv(job) && job.Idle() && job.statefn in {LoadWeak, LoadStrong}
    modifies job, job.sig
    ensures StateKept(job, r)
  {
    if job.statefn == LoadWeak {
      r := ReadSums.RunWeak(job);
    } else {
      r := ReadSums.RunStrong(job);
    }
  }

  method RunDeltaState(job: Job) returns (r: Result)
    requires job.kind == DeltaJob && Inv(job) && job.Idle() && job.statefn != Complete
    modifies job, job.weakSum
    ensures StateKept(job, r)
  {
    hide Delta.DeltaFinished, Delta.OnCourse, Delta.Ready, Delta.Shape;
    if job.statefn == DeltaHeader {
      r := Delta.RunHeader(job);
    } else if job.statefn == DeltaScan {
      r := Delta.RunScan(job);
    } else if job.statefn == DeltaFlush {
      r := Delta.RunFlush(job);
    } else {
      r := Delta.RunEnd(job);
    }
  }

  method RunPatchState(job: Job) returns (r: Result)
    requires job.kind == PatchJob && Inv(job) && job.Idle()
    modifies job
    ensures StateKept(job, r)
  {
    assert job.statefn in {PatchHeader, PatchCmdByte, PatchParams, PatchRun, PatchLiteral, PatchCopy, PatchCopying};
    hide Patch.PatchInv;
    if job.statefn in {PatchHeader, PatchCmdByte, PatchParams} {
      r := RunPatchInput(job);
    } else {
      r := RunPatchCommand(job);
    }
  }

  method RunPatchInput(job: Job) returns (r: Result)
    requires job.kind == PatchJob && Inv(job) && job.Idle()
    requires job.statefn in {PatchHeader, PatchCmdByte, PatchParams}
    modifies job
    ensures StateKept(job, r)
  {
    hide Patch.PatchInv;
    if job.statefn == PatchHeader {
      r := Patch.RunHeader(job);
    } else if job.statefn == PatchCmdByte {
      r := Patch.RunCmdByte(job);
    } else {
      r := Patch.RunParams(job);
    }
  }

  method RunPatchCommand(job: Job) returns (r: Result)
    requires job.kind == PatchJob && Inv(job) && job.Idle()
    requires job.statefn in {PatchRun, PatchLiteral, PatchCopy, PatchCopying}
    modifies job
    ensures StateKept(job, r)
  {
    hide Patch.PatchInv;
    if job.statefn == PatchRun {
      r := Patch.RunRun(job);
    } else if job.statefn == PatchLiteral {
      r := Patch.RunLiteral(job);
    } else if job.statefn == PatchCopy {
      r := Patch.RunCopy(job);
    } else {
      r := Patch.RunCopying(job);
    }
  }

  /** job->statefn(job). */
  method RunState(job: Job) returns (r: Result)
    requires Inv(job) && job.Idle() && job.statefn != Complete
    modifies job, job.sig, job.weakSum
    ensures StateKept(job, r)
  {
    hide MkSum.SigInv, ReadSums.LoadInv, Delta.DeltaInv, Patch.PatchInv, Closing;
    match job.kind
    case SigJob => r := RunSigState(job);
    case LoadJob => r := RunLoadState(job);
    case DeltaJob => r := RunDeltaState(job);
    case PatchJob => r := RunPatchState(job);
  }

  /** rs_job_complete: output may still be queued, in which case the job is not done yet. */
  method JobComplete(job: Job, result: Result) returns (r: Result)
    requires Closing(job, result) && result !in {Running, Blocked}
    modifies job`statefn, job`finalResult
    ensures job.statefn == Complete && job.finalResult == result
    ensures r == if result == Done && !job.Idle() then Blocked else result
    ensures r == Blocked ==> Inv(job) && job.input == [] && job.kind == DeltaJob
    ensures r != Blocked ==> Ends(job, r)
  {
    job.statefn := Complete;
    job.finalResult := result;
    if result == Done && !job.Idle() {
      return Blocked;
    }
    assert job.Idle() ==> job.Sent() == job.output;
    return result;
  }

  /** A job that still has output queued can be left as it is. */
  lemma {:induction false} QueuedRests(job: Job)
    requires Inv(job) && !job.Idle()
    ensures Resting(job)
  {
    hide Patch.Ahead, Delta.OnCourse, Delta.AtStart, Delta.DeltaFinished;
  }

  lemma {:induction false} CompleteEnds(job: Job)
    requires Inv(job) && job.statefn == Complete && job.Idle()
    ensures Ends(job, Done) && job.input == []
  {
    assert job.Sent() == job.output;
  }

  /** The caller's buffers only fill and empty, and a copy of no bytes is not reached without
      consuming or producing something. */
  twostate predicate Onward(job: Job)
    reads job
  {
    && |job.output| + job.availOut == old(|job.output| + job.availOut) && |job.output| >= old(|job.output|)
    && |job.input| <= old(|job.input|)
    && job.eofIn == old(job.eofIn) && job.unread == old(job.unread)
    && (Resting(job) || |job.input| < old(|job.input|) || !old(Resting(job)))
    && (old(Patch.Stuck(job)) ==> Unmoved(job))
    && (!old(Patch.Stuck(job)) && Patch.Stuck(job) ==>
          |job.input| < old(|job.input|) || |job.output| > old(|job.output|) || !old(Resting(job)))
  }

  /** One turn of the loop of rs_job_work; `Running` means that it goes on. */
  method Turn(job: Job) returns (r: Result)
    requires Inv(job)
    modifies job, job.sig, job.weakSum
    ensures Onward(job)
    ensures r == Running ==> Inv(job) && Progress(job, old(Major(job)), old(Minor(job)), old(Least(job)))
    ensures r in {Running, Blocked} && old(job.statefn) == Complete ==> r == Blocked && job.statefn == Complete
    ensures r == Blocked ==>
              && Inv(job) && Resting(job) && (job.statefn == Complete ==> !job.Idle())
              && (Stalled(job) || (job.statefn == Complete && old(job.statefn) != Complete && job.input == []))
    ensures r !in {Running, Blocked} ==> Ends(job, r) && r != InternalError
    ensures r == Done ==> job.input == [] || !old(Resting(job))
    ensures old(Patch.Stuck(job)) ==> r == Blocked
  {
    hide Inv, Ends, Closing;
    r := CatchUp(job);
    if r == Blocked {
      QueuedRests(job);
      return;
    } else if r != Done {
      r := Fail(job, r);
      return;
    }
    if job.statefn == Complete {
      CompleteEnds(job);
      return Done;
    }
    r := RunState(job);
    if r != Blocked && r != Running {
      r := JobComplete(job, r);
    }
  }

  /** rs_job_work: run until blocked, failed or finished.  The result never depends on how
      input and output were portioned out: it is the goal fixed at the start. */
  method JobWork(job: Job) returns (r: Result)
    requires Inv(job) && Resting(job)
    modifies job, job.sig, job.weakSum
    ensures Onward(job) && r !in {Running, InternalError}
    ensures r == Blocked ==>
              && Inv(job) && Resting(job) && (job.statefn == Complete ==> !job.Idle())
              && (Stalled(job) || (job.statefn == Complete && old(job.statefn) != Complete && job.input == []))
    ensures r != Blocked ==> Ends(job, r)
    ensures r == Done ==> job.input == [] || |job.input| < old(|job.input|)
    ensures r == Blocked && old(job.statefn) == Complete ==> job.statefn == Complete
    ensures old(Patch.Stuck(job)) ==> r == Blocked
  {
    hide Inv, Ends, Stalled;
    r := Turn(job);
    while r == Running
      invariant Onward(job) && r != InternalError
      invariant r == Running ==> Inv(job) && old(job.statefn) != Complete
      invariant r == Blocked ==>
                  && Inv(job) && Resting(job) && (job.statefn == Complete ==> !job.Idle())
                  && (Stalled(job) || (job.statefn == Complete && old(job.statefn) != Complete && job.input == []))
      invariant r !in {Running, Blocked} ==> Ends(job, r)
      invariant r == Done ==> job.input == [] || |job.input| < old(|job.input|)
      invariant r == Blocked && old(job.statefn) == Complete ==> job.statefn == Complete
      invariant old(Patch.Stuck(job)) ==> r == Blocked
      decreases r == Running, Major(job), Minor(job), Least(job)
    {
      r := Turn(job);
    }
  }

  /** rs_job_complete for an error met while sending. */
  method Fail(job: Job, result: Result) returns (r: Result)
    requires Ends(job, result) && result !in {Done, Running, Blocked}
    modifies job`statefn, job`finalResult
    ensures r == result && job.statefn == Complete && Ends(job, r)
  {
    r := JobComplete(job, result);
  }
}
