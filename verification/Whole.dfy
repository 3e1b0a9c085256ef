/** The four jobs as their users see them: the rs_..._begin functions, the file drivers
    of whole.c, any other schedule of calls, and all four one after the other. */
module Whole {
  import opened Bytes
  import opened Commands
  import opened Sumset
  import opened Search
  import opened Jobs
  import opened DeltaSpec
  import opened PatchSpec
  import opened SigSpec
  import opened Meaning
  import opened RoundTrip
  import opened Work
  import opened Drive
  import opened Streams
  import Overreach

  /** A job that has not been called yet, about to read `source`. */
  twostate predicate Begun(new job: Job, kind: JobKind, source: seq<Byte>, env: Env, goal: Fate)
    reads job, job.sig, job.weakSum
  {
    && fresh(job) && fresh(job.weakSum)
    && job.kind == kind && job.env == env && job.goal == goal
    && Inv(job) && Resting(job) && job.statefn != Complete
    && job.unread == source && job.input == [] && job.output == [] && job.availOut == 0
  }

  /** rs_sig_begin. */
  method SigBegin(blockLen: int, strongLen: int, env: Env, ghost source: seq<Byte>) returns (job: Job)
    requires SigParams(blockLen, strongLen, env.strongOf)
    ensures fresh(job.sig)
    ensures Begun(job, SigJob, source, env,
                  Fate(SignatureOf(blockLen, strongLen, env.strongOf, source), Done, SigValue(0, 0, [], [], [], [])))
  {
    hide SignatureOf;
    var sig := new Signature([]);
    ghost var goal := Fate(SignatureOf(blockLen, strongLen, env.strongOf, source), Done, sig.Value());
    job := new Job(SigJob, SigHeader, blockLen, strongLen, sig, env, source, goal);
  }

  /** rs_loadsig_begin, which also makes the signature. */
  method LoadSigBegin(oldFile: seq<Byte>, env: Env, ghost source: seq<Byte>) returns (sig: Signature, job: Job)
    ensures fresh(sig) && job.sig == sig && sig.oldFile == oldFile
    ensures var l := LoadOf(source);
            Begun(job, LoadJob, source, env,
                  Fate([], l.res, SigValue(l.blockLen, l.strongLen, l.blocks, [], [], [])))
  {
    hide LoadOf;
    sig := new Signature(oldFile);
    ghost var l := LoadOf(source);
    ghost var goal := Fate([], l.res, SigValue(l.blockLen, l.strongLen, l.blocks, [], [], []));
    job := new Job(LoadJob, LoadMagic, 0, 0, sig, env, source, goal);
  }

  /** rs_delta_begin. */
  method DeltaBegin(sig: Signature, env: Env, ghost source: seq<Byte>) returns (job: Job)
    requires SigOk(sig.Value()) && EnvOk(env) && |source| < TWO_63
    ensures job.sig == sig && job.statefn == DeltaHeader && job.scoop == []
    ensures job.blockLen == sig.blockLen
    ensures Begun(job, DeltaJob, source, env,
                  Fate(DeltaOf(RulesOf(sig.Value(), env), source), Done, sig.Value()))
  {
    hide SigOk, EnvOk, Future;
    ghost var goal := Fate(DeltaOf(RulesOf(sig.Value(), env), source), Done, sig.Value());
    job := new Job(DeltaJob, DeltaHeader, sig.blockLen, sig.strongLen, sig, env, source, goal);
  }

  /** rs_patch_begin. */
  method PatchBegin(env: Env, ghost source: seq<Byte>) returns (job: Job)
    ensures fresh(job.sig)
    ensures var o := PatchOf(env.basis, source);
            Begun(job, PatchJob, source, env, Fate(o.out, o.res, SigValue(0, 0, [], [], [], [])))
  {
    hide PatchOf;
    var sig := new Signature([]);
    ghost var o := PatchOf(env.basis, source);
    job := new Job(PatchJob, PatchHeader, 0, 0, sig, env, source, Fate(o.out, o.res, sig.Value()));
    assert [] + o.out == o.out;
  }

  // ---------------------------------------------------------------------
  // Any schedule of calls gives the same bytes
  // ---------------------------------------------------------------------

  /** A signature job called in any way that reaches the end has written the signature. */
  method SigBySchedule(file: seq<Byte>, blockLen: int, strongLen: int, env: Env, calls: seq<Call>)
    returns (r: Result, out: seq<Byte>)
    requires SigParams(blockLen, strongLen, env.strongOf) && Feasible(calls, file)
    ensures r in {Blocked, Done}
    ensures r == Done ==> out == SignatureOf(blockLen, strongLen, env.strongOf, file)
  {
    hide Inv, SignatureOf;
    var job := SigBegin(blockLen, strongLen, env, file);
    r := RunSchedule(job, calls);
    out := job.output;
  }

  /** Likewise a load: the signature it built, or the error. */
  method LoadBySchedule(sigFile: seq<Byte>, oldFile: seq<Byte>, env: Env, calls: seq<Call>)
    returns (r: Result, sig: Signature)
    requires Feasible(calls, sigFile)
    ensures r != Blocked ==> r == LoadOf(sigFile).res
    ensures r == Done ==> Loading(sig.blockLen, sig.strongLen, sig.blocks, Done) == LoadOf(sigFile)
  {
    hide Inv, LoadOf;
    var job;
    sig, job := LoadSigBegin(oldFile, env, sigFile);
    r := RunSchedule(job, calls);
  }

  /** Likewise a delta job, even when it blocks in the middle of a literal.  What the search
      buffer holds may depend on the schedule too: with a safe last block that makes no
      difference, and the delta is a function of signature, new file and output buffer size. */
  method DeltaBySchedule(sig: Signature, newFile: seq<Byte>, env: Env, calls: seq<Call>,
                         ghost strongLen: nat, ghost strongOf: nat -> seq<Byte>)
    returns (r: Result, out: seq<Byte>)
    requires SigOk(sig.Value()) && EnvOk(env) && |newFile| < TWO_63 && Feasible(calls, newFile)
    modifies sig
    ensures r in {Blocked, Done}
    ensures r == Done ==> out == DeltaOf(RulesOf(old(sig.Value()), env), newFile)
    ensures r == Done && SafelyLoaded(old(sig.Value()), strongLen, strongOf) ==>
              out == ReferenceDelta(old(sig.Value()), env.outbuflen, newFile)
  {
    hide Inv, SigOk, EnvOk, DeltaOf, ReferenceDelta, Loaded, Safe;
    ghost var v := sig.Value();
    if SafelyLoaded(v, strongLen, strongOf) {
      DeltaIgnoresStale(v, env, v.blockLen, strongLen, strongOf, v.oldFile, newFile);
    }
    var job := DeltaBegin(sig, env, newFile);
    r := RunSchedule(job, calls);
    out := job.output;
  }

  /** The signature of a file whose last block is safe, loaded and indexed. */
  ghost predicate SafelyLoaded(v: SigValue, strongLen: nat, strongOf: nat -> seq<Byte>) {
    && v.blockLen >= 1 && Manageable(v.blockLen, |v.oldFile|) && Safe(v.blockLen, |v.oldFile|)
    && Loaded(v, v.blockLen, strongLen, strongOf, v.oldFile)
  }

  /** Likewise a patch job: the new file, or the error, being stopped for making no progress
      among them. */
  method PatchBySchedule(delta: seq<Byte>, env: Env, calls: seq<Call>) returns (r: Result, out: seq<Byte>)
    requires Feasible(calls, delta)
    ensures r != Blocked ==> Outcome(out, r) == PatchOf(env.basis, delta)
    ensures r == InternalError ==> Stops(env.basis, delta)
  {
    hide Inv, PatchOf, Stops;
    PatchBlocksIff(env.basis, delta);
    var job := PatchBegin(env, delta);
    r := RunSchedule(job, calls);
    out := job.output;
  }

  // ---------------------------------------------------------------------
  // whole.c
  // ---------------------------------------------------------------------

  /** rs_whole_run. */
  method WholeRun(job: Job, source: seq<Byte>, inbuflen: nat, outbuflen: nat) returns (r: Result, written: seq<Byte>)
    requires Inv(job) && Resting(job) && job.statefn != Complete && job.goal.res != Blocked
    requires job.unread == source && job.output == [] && job.availOut == 0
    requires inbuflen > 0 && outbuflen > 0
    modifies job, job.sig, job.weakSum
    ensures r == job.goal.res && Ends(job, r)
    ensures written <= job.goal.out
    ensures r == Done && job.kind != LoadJob ==> written == job.goal.out
  {
    hide Inv, Ends;
    var fin := new InFile(source, inbuflen);
    var fout := new OutFile(outbuflen);
    r := JobDrive(job, fin, fout);
    written := fout.written;
  }

  /** More rounds than any job that can finish takes, by the bytes it reads and writes. */
  function EnoughRounds(input: nat, output: nat): (r: nat) {
    2 * input + output + 5
  }

  /** rs_whole_run for any job, watched for a number of rounds. */
  method WholeRunFor(job: Job, source: seq<Byte>, inbuflen: nat, outbuflen: nat, rounds: nat)
    returns (r: Result, written: seq<Byte>)
    requires Inv(job) && Resting(job) && job.statefn != Complete
    requires job.unread == source && job.input == [] && job.output == [] && job.availOut == 0
    requires inbuflen > 0 && outbuflen > 0
    modifies job, job.sig, job.weakSum
    ensures r != Blocked ==> r == job.goal.res && Ends(job, r)
    ensures job.goal.res != Blocked && rounds >= EnoughRounds(|source|, |job.goal.out|) ==> r != Blocked
    ensures written <= job.goal.out
    ensures r == Done && job.kind != LoadJob ==> written == job.goal.out
  {
    hide Inv, Ends;
    var fin := new InFile(source, inbuflen);
    var fout := new OutFile(outbuflen);
    r := JobDriveFor(job, fin, fout, rounds);
    written := fout.written;
  }

  /** rs_sig_file. */
  method SigFile(oldFile: seq<Byte>, blockLen: int, strongLen: int, env: Env, inbuflen: nat)
    returns (r: Result, sigFile: seq<Byte>)
    requires SigParams(blockLen, strongLen, env.strongOf) && inbuflen > 0 && env.outbuflen > 0
    ensures r == Done && sigFile == SignatureOf(blockLen, strongLen, env.strongOf, oldFile)
  {
    hide Inv, Ends, SignatureOf;
    var job := SigBegin(blockLen, strongLen, env, oldFile);
    r, sigFile := WholeRun(job, oldFile, inbuflen, env.outbuflen);
  }

  /** rs_loadsig_file, for a file that is not cut inside a field. */
  method LoadSigFile(sigFile: seq<Byte>, oldFile: seq<Byte>, env: Env, inbuflen: nat)
    returns (r: Result, sig: Signature)
    requires !CutShort(sigFile) && inbuflen > 0 && env.outbuflen > 0
    ensures fresh(sig) && sig.oldFile == oldFile && r == LoadOf(sigFile).res
    ensures r == Done ==> Loading(sig.blockLen, sig.strongLen, sig.blocks, Done) == LoadOf(sigFile)
  {
    hide Inv, LoadOf, CutShort;
    LoadBlocksIff(sigFile);
    var job, written;
    sig, job := LoadSigBegin(oldFile, env, sigFile);
    r, written := WholeRun(job, sigFile, inbuflen, env.outbuflen);
  }

  /** rs_loadsig_file for any file, watched for a number of rounds: it goes on for ever exactly
      when the file is cut inside a field, and is never stopped for making no progress. */
  method LoadSigFileFor(sigFile: seq<Byte>, oldFile: seq<Byte>, env: Env, inbuflen: nat, rounds: nat)
    returns (r: Result, sig: Signature)
    requires inbuflen > 0 && env.outbuflen > 0
    ensures r != Blocked ==> !CutShort(sigFile) && r == LoadOf(sigFile).res && r != InternalError
    ensures !CutShort(sigFile) && rounds >= EnoughRounds(|sigFile|, 0) ==> r != Blocked
    ensures r == Done ==> Loading(sig.blockLen, sig.strongLen, sig.blocks, Done) == LoadOf(sigFile)
  {
    hide Inv, LoadOf, CutShort;
    LoadBlocksIff(sigFile);
    LoadNeverStops(sigFile);
    var job, written;
    sig, job := LoadSigBegin(oldFile, env, sigFile);
    r, written := WholeRunFor(job, sigFile, inbuflen, env.outbuflen, rounds);
  }

  /** rs_delta_file. */
  method DeltaFile(sig: Signature, newFile: seq<Byte>, env: Env, inbuflen: nat) returns (r: Result, delta: seq<Byte>)
    requires SigOk(sig.Value()) && EnvOk(env) && |newFile| < TWO_63 && inbuflen > 0 && env.outbuflen > 0
    modifies sig
    ensures r == Done && delta == DeltaOf(RulesOf(old(sig.Value()), env), newFile)
  {
    hide Inv, Ends, SigOk, EnvOk, DeltaOf;
    var job := DeltaBegin(sig, env, newFile);
    r, delta := WholeRun(job, newFile, inbuflen, env.outbuflen);
  }

  /** rs_patch_file, for a delta that is not cut inside a field and does not end with an empty
      copy that the job gets to.  If it fails, the file holds the beginning of the output. */
  method PatchFile(delta: seq<Byte>, env: Env, inbuflen: nat) returns (r: Result, newFile: seq<Byte>)
    requires !Hangs(env.basis, delta) && inbuflen > 0 && env.outbuflen > 0
    ensures r == PatchOf(env.basis, delta).res && (r == InternalError <==> Stops(env.basis, delta))
    ensures newFile <= PatchOf(env.basis, delta).out
    ensures r == Done ==> newFile == PatchOf(env.basis, delta).out
  {
    hide Inv, Ends, PatchOf, Hangs, Stops;
    PatchBlocksIff(env.basis, delta);
    var job := PatchBegin(env, delta);
    r, newFile := WholeRun(job, delta, inbuflen, env.outbuflen);
  }

  /** rs_patch_file for any delta, watched for a number of rounds: still running for ever exactly
      when the delta hangs, and stopped for making no progress exactly when it stops. */
  method PatchFileFor(delta: seq<Byte>, env: Env, inbuflen: nat, rounds: nat) returns (r: Result, newFile: seq<Byte>)
    requires inbuflen > 0 && env.outbuflen > 0
    ensures r != Blocked ==> !Hangs(env.basis, delta) && r == PatchOf(env.basis, delta).res
    ensures r != Blocked ==> (r == InternalError <==> Stops(env.basis, delta))
    ensures !Hangs(env.basis, delta) && rounds >= EnoughRounds(|delta|, |PatchOf(env.basis, delta).out|) ==>
            r != Blocked
    ensures newFile <= PatchOf(env.basis, delta).out
    ensures r == Done ==> newFile == PatchOf(env.basis, delta).out
  {
    hide Inv, Ends, PatchOf, Hangs, Stops;
    PatchBlocksIff(env.basis, delta);
    var job := PatchBegin(env, delta);
    r, newFile := WholeRunFor(job, delta, inbuflen, env.outbuflen, rounds);
  }

  /** Every well-formed delta is applied to the end, and gives the contents of its commands. */
  method PatchCommands(cs: seq<Cmd>, env: Env, inbuflen: nat) returns (r: Result, newFile: seq<Byte>)
    requires AllEncodable(cs) && LiteralsFit(cs) && WellFormed(env.basis, cs) && inbuflen > 0 && env.outbuflen > 0
    ensures r == Done && newFile == Contents(env.basis, cs)
  {
    hide PatchOf, Hangs, Stops, Contents, EncodeAll;
    PatchOfWellFormed(env.basis, cs);
    r, newFile := PatchFile(DeltaFileOf(cs), env, inbuflen);
  }

  // ---------------------------------------------------------------------
  // All four jobs in a row
  // ---------------------------------------------------------------------

  /** Signature, load, index, delta: what the client's compute_delta does. */
  method ComputeDelta(newFile: seq<Byte>, blockLen: int, strongLen: int, env: Env, inbuflen: nat)
    returns (delta: seq<Byte>, ghost v: SigValue)
    requires SigParams(blockLen, strongLen, env.strongOf) && EnvOk(env)
    requires Manageable(blockLen, |env.basis|) && |newFile| < TWO_63 && inbuflen > 0 && env.outbuflen > 0
    ensures Loaded(v, blockLen, strongLen, env.strongOf, env.basis) && SigOk(v)
    ensures delta == DeltaOf(RulesOf(v, env), newFile)
    ensures Safe(blockLen, |env.basis|) ==> PatchOf(env.basis, delta) == Outcome(newFile, Done)
  {
    hide SignatureOf, LoadOf, DeltaOf, PatchOf, EnvOk, Indexed, BlocksOf, CutShort, Safe;
    var r, sigFile, sig;
    r, sigFile := SigFile(env.basis, blockLen, strongLen, env, inbuflen);
    SignatureRoundTrip(blockLen, strongLen, env.strongOf, env.basis);
    LoadBlocksIff(sigFile);
    r, sig := LoadSigFile(sigFile, env.basis, env, inbuflen);
    BuildHashTable(sig);
    v := sig.Value();
    LoadedIsOk(v, blockLen, strongLen, env.strongOf, env.basis);
    r, delta := DeltaFile(sig, newFile, env, inbuflen);
    if Safe(blockLen, |env.basis|) {
      RoundTripWhenSafe(v, env, blockLen, strongLen, env.basis, newFile);
    }
  }

  /** Signature, load, index, delta, patch.  The copy is the new file if and only if no
      accepted hit overreaches; with a safe last block it always is. */
  method Synchronise(newFile: seq<Byte>, blockLen: int, strongLen: int, env: Env, inbuflen: nat)
    returns (r: Result, copy: seq<Byte>, ghost v: SigValue)
    requires SigParams(blockLen, strongLen, env.strongOf) && EnvOk(env)
    requires Manageable(blockLen, |env.basis|) && |newFile| < TWO_63 && inbuflen > 0 && env.outbuflen > 0
    ensures Loaded(v, blockLen, strongLen, env.strongOf, env.basis) && SigOk(v)
    ensures r == Done && copy == newFile <==> NoOverreach(RulesOf(v, env), env.basis, 0, newFile)
    ensures if r == Done then copy == newFile else r == InputEnded
    ensures Safe(blockLen, |env.basis|) ==> r == Done && copy == newFile
  {
    hide DeltaOf, PatchOf, NoOverreach, EnvOk, Indexed, BlocksOf, Hangs, Stops;
    var delta;
    delta, v := ComputeDelta(newFile, blockLen, strongLen, env, inbuflen);
    RulesAreFaithful(v, env);
    PatchOfDelta(RulesOf(v, env), env.basis, newFile);
    PatchBlocksIff(env.basis, delta);
    r, copy := PatchFile(delta, env, inbuflen);
  }

  /** The same run on the files that defeat it: k complete blocks and a last one of s bytes,
      with the extra bytes left over in the search buffer. */
  method SynchroniseUnsafe(blockLen: nat, k: nat, s: nat, strongLen: int, env: Env, inbuflen: nat)
    returns (r: Result, copy: seq<Byte>)
    requires 1 <= s && s + FATAL_GAP <= blockLen && Manageable(blockLen, Mul(k, blockLen) + s)
    requires SigParams(blockLen, strongLen, env.strongOf) && EnvOk(env) && inbuflen > 0 && env.outbuflen > 0
    requires env.basis == Overreach.OldFile(blockLen, k, s) && Overreach.Leftover(blockLen, s, env.staleOf(0))
    ensures r == InputEnded
  {
    hide Overreach.OldFile, Overreach.NewFile, Overreach.Leftover, NoOverreach, DeltaOf, PatchOf, EnvOk, SigOk, Loaded;
    var newFile := Overreach.NewFile(s);
    Overreach.FilesFit(blockLen, k, s);
    ghost var v;
    r, copy, v := Synchronise(newFile, blockLen, strongLen, env, inbuflen);
    Overreach.RoundTripFailsWhenUnsafe(v, env, blockLen, k, s, strongLen);
  }
}
