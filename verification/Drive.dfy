/** The callers of rs_job_work: rs_job_iter and rs_job_drive of job.c, the file
    buffers of buf.c, and any other way of portioning out input and output. */
module Drive {
  import opened Bytes
  import opened Jobs
  import opened Work
  import Delta
  import Patch
  import MkSum
  import ReadSums
  import SigSpec
  import DeltaSpec

  /** What the caller may do between two calls. */
  method Exchange(job: Job, chunk: seq<Byte>, last: bool, room: nat)
    requires Inv(job) && chunk <= job.unread && (last ==> chunk == job.unread)
    modifies job`input, job`unread, job`eofIn, job`availOut
    ensures Inv(job) && job.input == old(job.input) + chunk && job.unread == old(job.unread)[|chunk|..]
    ensures job.eofIn == (old(job.eofIn) || last) && job.availOut == room
  {
    hide MkSum.SigInv, ReadSums.LoadInv, Delta.DeltaInv, Patch.PatchInv;
    match job.kind
    case SigJob => MkSum.Exchange(job, chunk, last, room);
    case LoadJob => ReadSums.Exchange(job, chunk, last, room);
    case DeltaJob => Delta.Exchange(job, chunk, last, room);
    case PatchJob => Patch.Exchange(job, chunk, last, room);
  }

  /** rs_job_iter: the "no progress" error strikes exactly a job that stands at a copy of no
      bytes, with input and with room for output. */
  method JobIter(job: Job) returns (r: Result)
    requires Inv(job) && Resting(job) && (job.statefn == Complete ==> !job.Idle())
    modifies job, job.sig, job.weakSum
    ensures r != Running
    ensures r == InternalError <==> old(Patch.Stuck(job) && job.input != [] && job.availOut != 0)
    ensures r == Blocked ==>
              && Inv(job) && Resting(job) && (job.statefn == Complete ==> !job.Idle())
              && (Stalled(job) || (job.statefn == Complete && old(job.statefn) != Complete && job.input == []))
    ensures r == Blocked && old(job.statefn) == Complete ==> job.statefn == Complete
    ensures r != Blocked ==> Ends(job, r)
    ensures !old(Patch.Stuck(job)) && Patch.Stuck(job) ==>
              |job.input| < old(|job.input|) || |job.output| > old(|job.output|)
    ensures old(Patch.Stuck(job)) ==> Patch.Stuck(job)
    ensures |job.output| + job.availOut == old(|job.output| + job.availOut) && |job.output| >= old(|job.output|)
    ensures |job.input| <= old(|job.input|)
    ensures job.eofIn == old(job.eofIn) && job.unread == old(job.unread)
  {
    hide Inv, Ends;
    var origIn, origOut := |job.input|, job.availOut;
    r := JobWork(job);
    if r == Blocked || r == Done {
      if origIn == |job.input| && origOut == job.availOut && origIn != 0 && origOut != 0 {
        StuckEnds(job);
        return InternalError;
      }
    }
  }

  /** Standing at a copy of no bytes, with input left, is what the goal says. */
  lemma {:induction false} StuckEnds(job: Job)
    requires Inv(job) && Patch.Stuck(job)
    ensures job.input != [] ==> Ends(job, InternalError)
    ensures job.goal.res == if job.input + job.unread == [] then Blocked else InternalError
    ensures job.eofIn ==> job.unread == []
  {
    hide Patch.Ahead;
    Patch.StuckFate(job);
  }

  // ---------------------------------------------------------------------
  // Any schedule
  // ---------------------------------------------------------------------

  /** One call: some more input, perhaps the end of it, and some room for output. */
  datatype Call = Call(chunk: seq<Byte>, last: bool, room: nat)

  /** The calls hand over consecutive pieces of `source`, and announce its end truthfully. */
  predicate Feasible(calls: seq<Call>, source: seq<Byte>) {
    calls == [] ||
    (&& calls[0].chunk <= source
     && (calls[0].last ==> calls[0].chunk == source)
     && Feasible(calls[1..], source[|calls[0].chunk|..]))
  }

  /** Whatever the schedule, a job that finishes has reached its goal. */
  method RunSchedule(job: Job, calls: seq<Call>) returns (r: Result)
    requires Inv(job) && Resting(job) && (job.statefn == Complete ==> !job.Idle())
    requires Feasible(calls, job.unread)
    modifies job, job.sig, job.weakSum
    ensures r != Blocked ==> Ends(job, r)
  {
    hide Inv, Ends;
    r := Blocked;
    var i := 0;
    assert calls[0..] == calls;
    while i < |calls|
      invariant 0 <= i <= |calls|
      invariant r == Blocked && Inv(job) && Resting(job) && (job.statefn == Complete ==> !job.Idle())
      invariant Feasible(calls[i..], job.unread)
    {
      var c := calls[i];
      assert calls[i..][1..] == calls[i + 1..];
      Exchange(job, c.chunk, c.last, c.room);
      r := JobIter(job);
      if r != Blocked {
        return;
      }
      i := i + 1;
    }
  }

  // ---------------------------------------------------------------------
  // buf.c: files on both sides
  // ---------------------------------------------------------------------

  /** A file being read through a buffer of bufLen bytes. */
  class InFile {
    const data: seq<Byte>
    const bufLen: nat
    var pos: nat
    var feof: bool

    ghost predicate Valid()
      reads this
    {
      bufLen > 0 && pos <= |data| && (feof ==> pos == |data|)
    }

    constructor (data: seq<Byte>, bufLen: nat)
      requires bufLen > 0
      ensures Valid() && this.data == data && this.bufLen == bufLen && pos == 0
    {
      this.data, this.bufLen := data, bufLen;
      pos, feof := 0, false;
    }

    /** fread of up to bufLen bytes. */
    method Read() returns (chunk: seq<Byte>)
      requires Valid()
      modifies this
      ensures Valid() && |chunk| <= bufLen
      ensures chunk <= old(data[pos..]) && pos == old(pos) + |chunk|
      ensures chunk == [] ==> feof
      ensures old(feof) ==> feof
    {
      var n := Min(bufLen, |data| - pos);
      chunk := data[pos..pos + n];
      pos := pos + n;
      if n < bufLen {
        feof := true;
      }
    }
  }

  /** A file being written; `attached` once the stream uses its buffer. */
  class OutFile {
    const bufLen: nat
    var attached: bool
    var written: seq<Byte>

    constructor (bufLen: nat)
      ensures this.bufLen == bufLen && !attached && written == []
    {
      this.bufLen := bufLen;
      attached, written := false, [];
    }
  }

  /** What is still to be learnt about the input. */
  ghost function InputLeft(job: Job, f: InFile): (r: nat)
    reads job, f
  {
    |job.unread| + (if f.feof then 0 else 1) + (if job.eofIn then 0 else 1)
  }

  ghost predicate Linked(job: Job, f: InFile)
    reads job, f
  {
    f.Valid() && job.unread == f.data[f.pos..]
  }

  /** rs_infilebuf_fill. */
  method InfilebufFill(job: Job, f: InFile)
    requires Inv(job) && Linked(job, f)
    modifies f, job`input, job`unread, job`eofIn, job`availOut
    ensures Inv(job) && Linked(job, f) && job.availOut == old(job.availOut)
    ensures InputLeft(job, f) <= old(InputLeft(job, f))
    ensures |job.unread| + |job.input| == old(|job.unread| + |job.input|)
    ensures InputLeft(job, f) == old(InputLeft(job, f)) ==>
              job.input == old(job.input) && (job.eofIn || job.input != [])
  {
    OutputWithinGoal(job);
    hide Inv;
    if job.eofIn || f.feof {
      Exchange(job, [], true, job.availOut);
      return;
    }
    if job.input != [] {
      return;
    }
    var chunk := f.Read();
    if chunk == [] {
      Exchange(job, [], true, job.availOut);
      return;
    }
    Exchange(job, chunk, false, job.availOut);
  }

  /** rs_outfilebuf_drain: write out what the stream holds; `room` is its new avail_out. */
  method OutfilebufDrain(output: seq<Byte>, availOut: nat, f: OutFile) returns (room: nat)
    requires f.written <= output
    requires if f.attached then |output| - |f.written| + availOut == f.bufLen else output == []
    modifies f
    ensures f.attached && f.written == output && room == f.bufLen
  {
    if !f.attached {
      f.attached := true;
      return f.bufLen;
    }
    room := availOut;
    var present := |output| - |f.written|;
    if present > 0 {
      f.written := f.written + output[|f.written|..];
      room := f.bufLen;
    }
  }

  // ---------------------------------------------------------------------
  // job.c: running to completion
  // ---------------------------------------------------------------------

  /** The output file holds what has been drained, and the stream the rest. */
  ghost predicate Draining(job: Job, f: OutFile)
    reads job, f
  {
    && f.bufLen > 0 && f.written == job.output
    && if f.attached then job.availOut == f.bufLen else job.availOut == 0 && job.output == []
  }

  lemma {:induction false} OutputWithinGoal(job: Job)
    requires Inv(job)
    ensures job.output <= job.goal.out && job.InputOk()
  {
    hide DeltaSpec.Future, Patch.Ahead, SigSpec.SumsOf, SigSpec.SignatureOf;
  }

  /** Between rounds: the job can go on, and both files are in step with its stream. */
  ghost predicate Poised(job: Job, fin: InFile, fout: OutFile)
    reads job, job.sig, job.weakSum, fin, fout
  {
    && Inv(job) && Resting(job) && (job.statefn == Complete ==> !job.Idle())
    && Linked(job, fin) && Draining(job, fout) && (fout.attached ==> job.kind != LoadJob)
  }

  ghost function Detached(job: Job, fout: OutFile): (r: nat)
    reads fout
  {
    if fout.attached || job.kind == LoadJob then 0 else 1
  }

  ghost function OutputLeft(job: Job): (r: int)
    reads job
  {
    |job.goal.out| - |job.output|
  }

  ghost function Open(job: Job): (r: nat)
    reads job
  {
    if job.statefn == Complete then 0 else 1
  }

  /** A bound on the rounds that a job that can finish still needs. */
  ghost function Potential(job: Job, fin: InFile, fout: OutFile): (r: int)
    reads job, fin, fout
  {
    |job.unread| + |job.input| + InputLeft(job, fin) + OutputLeft(job) + Open(job) + Detached(job, fout)
  }

  /** The input half of a round of rs_job_drive. */
  method FillAndIterate(job: Job, fin: InFile, fout: OutFile) returns (r: Result)
    requires Poised(job, fin, fout)
    modifies job, job.sig, job.weakSum, fin
    ensures r != Running
    ensures r == Blocked ==>
              && Inv(job) && Resting(job) && (job.statefn == Complete ==> !job.Idle()) && Linked(job, fin)
              && Potential(job, fin, fout) <= old(Potential(job, fin, fout))
              && ((job.kind != LoadJob && !fout.attached) || job.goal.res == Blocked
                  || Potential(job, fin, fout) < old(Potential(job, fin, fout)))
    ensures r != Blocked ==> Ends(job, r)
    ensures fout.written <= job.output <= job.goal.out
    ensures |job.output| + job.availOut == old(|job.output| + job.availOut)
  {
    hide Inv, Ends;
    OutputWithinGoal(job);
    ghost var before := job.output;
    if !job.eofIn {
      InfilebufFill(job, fin);
    }
    r := JobIter(job);
    if r == Blocked {
      OutputWithinGoal(job);
      if Patch.Stuck(job) {
        StuckEnds(job);
      }
    } else {
      EndsWith(job, r);
    }
    assert before <= job.output <= job.goal.out;
  }

  /** One round of rs_job_drive, with rs_infilebuf_fill and, unless the job is a load,
      rs_outfilebuf_drain.  Nothing but the goal's output is ever written. */
  method Round(job: Job, fin: InFile, fout: OutFile) returns (r: Result)
    requires Poised(job, fin, fout)
    modifies job, job.sig, job.weakSum, fin, fout
    ensures r != Running
    ensures r == Blocked ==> Poised(job, fin, fout)
    ensures r == Blocked && job.goal.res != Blocked ==> 0 <= Potential(job, fin, fout) < old(Potential(job, fin, fout))
    ensures r != Blocked ==> Ends(job, r)
    ensures fout.written <= job.goal.out
    ensures r == Done && job.kind != LoadJob ==> fout.written == job.goal.out
  {
    hide Inv, Ends;
    r := FillAndIterate(job, fin, fout);
    if r == Done || r == Blocked {
      if job.kind != LoadJob {
        var room := OutfilebufDrain(job.output, job.availOut, fout);
        if r == Blocked {
          Exchange(job, [], false, room);
        }
      }
    }
    if r == Done {
      EndsWith(job, r);
    }
  }

  /** rs_job_drive.  It terminates for every job whose fate is to finish or to be stopped, with
      exactly that fate. */
  method JobDrive(job: Job, fin: InFile, fout: OutFile) returns (r: Result)
    requires Poised(job, fin, fout) && job.goal.res != Blocked
    modifies job, job.sig, job.weakSum, fin, fout
    ensures r == job.goal.res && Ends(job, r)
    ensures fout.written <= job.goal.out
    ensures r == Done && job.kind != LoadJob ==> fout.written == job.goal.out
  {
    hide Inv, Ends;
    r := Round(job, fin, fout);
    while r == Blocked
      invariant r != Running
      invariant r == Blocked ==> Poised(job, fin, fout) && Potential(job, fin, fout) >= 0
      invariant r != Blocked ==> Ends(job, r)
      invariant fout.written <= job.goal.out
      invariant r == Done && job.kind != LoadJob ==> fout.written == job.goal.out
      decreases if r == Blocked then 1 + Potential(job, fin, fout) else 0
    {
      r := Round(job, fin, fout);
    }
    EndsWith(job, r);
  }

  /** rs_job_drive for any job, watched for a number of rounds.  `Blocked` means that it is
      still running: for ever, when that is its fate, and otherwise only if it has been
      watched too briefly. */
  method JobDriveFor(job: Job, fin: InFile, fout: OutFile, rounds: nat) returns (r: Result)
    requires Poised(job, fin, fout)
    modifies job, job.sig, job.weakSum, fin, fout
    ensures r != Blocked ==> r == job.goal.res && Ends(job, r)
    ensures job.goal.res != Blocked && rounds > old(Potential(job, fin, fout)) ==> r != Blocked
    ensures fout.written <= job.goal.out
    ensures r == Done && job.kind != LoadJob ==> fout.written == job.goal.out
  {
    hide Inv, Ends;
    OutputWithinGoal(job);
    r := Blocked;
    var round := 0;
    while r == Blocked && round < rounds
      invariant r != Running && round <= rounds
      invariant r == Blocked ==> Poised(job, fin, fout)
      invariant r == Blocked && job.goal.res != Blocked ==>
                  0 <= Potential(job, fin, fout) <= old(Potential(job, fin, fout)) - round
      invariant r != Blocked ==> Ends(job, r)
      invariant fout.written <= job.goal.out
      invariant r == Done && job.kind != LoadJob ==> fout.written == job.goal.out
    {
      r := Round(job, fin, fout);
      round := round + 1;
    }
    if r != Blocked {
      EndsWith(job, r);
    }
  }

  lemma {:induction false} EndsWith(job: Job, r: Result)
    requires Ends(job, r)
    ensures r == job.goal.res && job.output == job.goal.out
  {
  }
}
