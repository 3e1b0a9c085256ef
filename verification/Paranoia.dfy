/** The optional check of the rolling sum: exactly when it is right, and a run in which a
    sound job fails it. */
module Paranoia {
  import opened Bytes
  import opened NetInt
  import opened Checksums
  import opened Sumset
  import opened Search
  import opened Jobs
  import opened DeltaSpec
  import opened Delta
  import opened RoundTrip
  import Whole

  // ---------------------------------------------------------------------
  // The guard
  // ---------------------------------------------------------------------

  /** The bytes at the scan position, and the window behind `queued` literal bytes, have the
      same sum whatever the scoop holds. */
  ghost predicate AlwaysAgrees(b: nat, queued: nat, pos: nat) {
    forall scoop: seq<Byte> :: |scoop| == queued + pos + b ==> Agreeing(scoop, b, queued, pos)
  }

  ghost predicate Agreeing(scoop: seq<Byte>, b: nat, queued: nat, pos: nat)
    requires |scoop| == queued + pos + b
  {
    WideSum(scoop[pos..pos + b]) == WideSum(scoop[queued + pos..])
  }

  /** The check is right for every content exactly when no literal byte is queued. */
  lemma {:induction false} GuardIsExact(b: nat, queued: nat, pos: nat)
    requires 1 <= b
    ensures AlwaysAgrees(b, queued, pos) <==> queued == 0
  {
    hide WideSum;
    if queued == 0 {
      forall scoop: seq<Byte> | |scoop| == queued + pos + b ensures Agreeing(scoop, b, queued, pos) {
        assert scoop[pos..pos + b] == scoop[queued + pos..];
      }
    } else {
      var scoop := Telling(queued + pos + b - 1);
      OneTells(scoop[pos..pos + b], scoop[queued + pos..]);
      assert !Agreeing(scoop, b, queued, pos);
    }
  }

  /** Zeros, and a last byte one. */
  function Telling(n: nat): (s: seq<Byte>)
    ensures |s| == n + 1
  {
    Repeat<Byte>(0, n) + [1]
  }

  /** A single byte one at the end shows in the sum. */
  lemma {:induction false} OneTells(zeros: seq<Byte>, w: seq<Byte>)
    requires 0 < |zeros| == |w|
    requires (forall k :: 0 <= k < |zeros| ==> zeros[k] == 0)
    requires (forall k :: 0 <= k < |w| - 1 ==> w[k] == 0) && w[|w| - 1] == 1
    ensures WideSum(zeros) != WideSum(w)
  {
    hide S1, S2, Times;
    var n := |zeros|;
    assert zeros == Repeat<Byte>(0, n - 1) + [0];
    assert w == Repeat<Byte>(0, n - 1) + [1];
    SumsOfAppend(Repeat<Byte>(0, n - 1), 0);
    SumsOfAppend(Repeat<Byte>(0, n - 1), 1);
    LowDiffers(S1(zeros), S2(zeros), S1(w), S2(w));
  }

  lemma {:induction false} LowDiffers(a: nat, x: nat, b: nat, y: nat)
    requires b == a + 1
    ensures Wrap64(Wrap64(x) * TWO_16) + Wrap64(a) % TWO_16 != Wrap64(Wrap64(y) * TWO_16) + Wrap64(b) % TWO_16
  {
    ShiftedIsWhole(x);
    ShiftedIsWhole(y);
    LowOfWord(a);
    LowOfWord(b);
  }

  lemma {:induction false} ShiftedIsWhole(x: nat)
    ensures Wrap64(Wrap64(x) * TWO_16) % TWO_16 == 0
  {
    ShiftOut(Wrap64(x));
  }

  lemma {:induction false} ShiftOut(u: nat)
    ensures u * TWO_16 % TWO_64 % TWO_16 == 0
  {
    var q := u / 0x1_0000_0000_0000;
    DivUnique(u * TWO_16, TWO_64, q, (u - q * 0x1_0000_0000_0000) * TWO_16);
  }

  lemma {:induction false} LowOfWord(a: nat)
    ensures Wrap64(a) % TWO_16 == a % TWO_16
  {
    var q := a / TWO_64;
    assert a == TWO_16 * (0x1_0000_0000_0000 * q) + Wrap64(a);
  }

  // ---------------------------------------------------------------------
  // A run that fails the check
  // ---------------------------------------------------------------------

  /** With no blocks there is nothing to find. */
  lemma {:induction false} NothingToFind(v: SigValue, env: Env, n: nat, u: seq<Byte>)
    requires SigOk(v) && EnvOk(env) && v.blocks == []
    ensures Look(v, env, n, u) == NoHit
  {
    var window := u[..Min(v.blockLen, |u|)];
    FindAgreesWithScan(v, WeakSum(window), window, env.staleOf(n));
  }

  /** An empty old file, a new file of zeros with a last byte one, all of it in the input
      buffer, and room for the delta's header only.  The literal fills up to the output
      buffer's size, the next miss queues it, and the check fails, although the rolling sum
      is that of the window. */
  method CheckFails(blockLen: nat, outbuflen: nat) returns (job: Job, agrees: bool)
    requires 1 <= blockLen <= OLDBUF_SIZE && 1 <= outbuflen < TWO_31
    ensures fresh(job) && job.kind == DeltaJob && DeltaInv(job) && job.statefn == DeltaScan
    ensures job.env.outbuflen == outbuflen && job.blockLen == blockLen && job.copyLen == outbuflen
    ensures job.weakSum.Covers(CurrentWindow(job)) && !agrees
  {
    hide SigOk, EnvOk, RulesOf, Future, DeltaOf, WideSum, WeakSum, PendOk, Indexed;
    var env := CleanEnv(outbuflen);
    var sig := EmptySignature(blockLen);
    EmptyIsOk(sig.Value(), env);
    var newFile := Telling(outbuflen + blockLen);
    job := Whole.DeltaBegin(sig, env, newFile);
    agrees := Fails(job);
  }

  /** The signature of an empty old file, with its index. */
  method EmptySignature(blockLen: nat) returns (sig: Signature)
    ensures fresh(sig) && sig.blockLen == blockLen && sig.blocks == [] && Search.Indexed(sig.Value())
  {
    sig := new Signature([]);
    sig.blockLen := blockLen;
    BuildHashTable(sig);
  }

  lemma {:induction false} EmptyIsOk(v: SigValue, env: Env)
    requires Indexed(v) && v.blocks == [] && 1 <= v.blockLen <= OLDBUF_SIZE
    requires env == CleanEnv(env.outbuflen) && env.outbuflen < TWO_31
    ensures SigOk(v) && EnvOk(env)
  {
  }

  method Fails(job: Job) returns (agrees: bool)
    requires job.kind == DeltaJob && DeltaInv(job) && job.statefn == DeltaHeader && job.sig.blocks == []
    requires job.unread == Telling(job.env.outbuflen + job.blockLen) && job.env.outbuflen >= 1
    requires job.input == [] && job.scoop == [] && job.blockLen >= 1
    modifies job, job.weakSum
    ensures DeltaInv(job) && job.statefn == DeltaScan && job.copyLen == job.env.outbuflen
    ensures job.weakSum.Covers(CurrentWindow(job)) && !agrees && job.blockLen == old(job.blockLen)
  {
    hide SigOk, EnvOk, RulesOf, Future, WideSum, WeakSum, PendOk, Find, OnCourse, Telling;
    var file := Telling(job.env.outbuflen + job.blockLen);
    Begin(job, file);
    Enter(job, file);
    while job.scoopPos < job.env.outbuflen
      invariant OnTheWay(job, file) && job.scoopPos <= job.env.outbuflen && job.blockLen == old(job.blockLen)
    {
      var r := MissOnce(job, file);
    }
    agrees := LastMiss(job, file);
  }

  /** The start of the scanning state. */
  method Enter(job: Job, file: seq<Byte>)
    requires OnCourse(job) && job.Idle() && job.goal.res == Done && job.statefn == DeltaScan && job.sig.blocks == []
    requires job.scoop == [] && job.input == file && job.unread == [] && job.basisLen == 0 && job.availOut == 0
    requires job.scoopPos == 0 && |file| == job.env.outbuflen + job.blockLen + 1
    modifies job
    ensures OnTheWay(job, file) && job.scoopPos == 0 && job.blockLen == old(job.blockLen)
  {
    hide OnCourse;
    var r := TakeInput(job);
    assert [] + file == file;
  }

  /** The literal is full: the next miss queues it, and the check is made. */
  method LastMiss(job: Job, file: seq<Byte>) returns (agrees: bool)
    requires OnTheWay(job, file) && job.scoopPos == job.env.outbuflen >= 1 && job.blockLen >= 1
    requires file == Telling(job.env.outbuflen + job.blockLen)
    modifies job, job.weakSum
    ensures DeltaInv(job) && job.statefn == DeltaScan && job.copyLen == job.env.outbuflen
    ensures job.weakSum.Covers(CurrentWindow(job)) && !agrees && job.blockLen == old(job.blockLen)
  {
    hide SigOk, EnvOk, RulesOf, Future, WideSum, WeakSum, PendOk, Find, Total, PendFits;
    var r := MissOnce(job, file);
    agrees := ParanoiaCheck(job);
    var b, n := job.blockLen, job.env.outbuflen;
    assert job.rest == file;
    assert CurrentWindow(job) == file[n + 1..];
    OneTells(file[1..1 + b], file[n + 1..]);
  }

  /** All input is in the scoop, nothing but a literal is pending, and there is no room. */
  ghost predicate OnTheWay(job: Job, file: seq<Byte>)
    reads job, job.sig, job.weakSum
  {
    && OnCourse(job) && job.Idle() && job.goal.res == Done && job.statefn == DeltaScan && job.sig.blocks == []
    && job.scoop == file && job.input == [] && job.unread == [] && job.basisLen == 0 && job.availOut == 0
    && |file| == job.env.outbuflen + job.blockLen + 1 && job.scoopPos <= job.env.outbuflen
  }

  /** The header fills the output. */
  method Begin(job: Job, file: seq<Byte>)
    requires job.kind == DeltaJob && DeltaInv(job) && job.statefn == DeltaHeader && job.sig.blocks == []
    requires job.unread == file && job.input == [] && job.scoop == []
    modifies job, job.weakSum
    ensures OnCourse(job) && job.Idle() && job.goal.res == Done && job.statefn == DeltaScan && job.sig.blocks == []
    ensures job.scoop == [] && job.input == file && job.unread == [] && job.basisLen == 0 && job.availOut == 0
    ensures job.scoopPos == 0 && job.blockLen == old(job.blockLen)
  {
    hide SigOk, EnvOk, RulesOf, Future, WideSum, WeakSum, PendOk, Find, EncodeInt;
    Exchange(job, file, false, 4);
    var r := RunHeader(job);
    assert job.Sent() == job.writeBuf;
    r := ResumeScan(job);
    assert |job.Sent()| == 4;
    assert |Taken(job.rest, job.copyLen)| == job.copyLen;
  }

  /** The search finds nothing, and the byte joins the literal or starts the next. */
  method MissOnce(job: Job, file: seq<Byte>) returns (r: Result)
    requires OnTheWay(job, file) && job.env.outbuflen >= 1
    modifies job, job.weakSum
    ensures DeltaInv(job) && job.statefn == DeltaScan && job.scoop == file && job.input == [] && job.unread == []
    ensures job.weakSum.Covers(CurrentWindow(job)) && Span(job) == job.blockLen
    ensures old(job.scoopPos) < job.env.outbuflen ==> OnTheWay(job, file) && job.scoopPos == old(job.scoopPos) + 1
    ensures old(job.scoopPos) == job.env.outbuflen ==> job.scoopPos == 1 && job.copyLen == job.env.outbuflen
    ensures job.copyLen + job.scoopPos + job.blockLen <= |job.scoop| && job.blockLen == old(job.blockLen)
  {
    hide SigOk, EnvOk, RulesOf, Future, WideSum, WeakSum, PendOk, Find;
    NothingCurrent(job);
    var hit, len := FindMatch(job);
    r := MissInScan(job);
  }

  lemma {:induction false} NothingCurrent(job: Job)
    requires Equipped(job) && Shape(job) && job.sig.blocks == []
    ensures Current(job) == NoHit
  {
    hide SigOk, EnvOk;
    NothingToFind(job.sig.Value(), job.env, job.scanned, Unscanned(job));
  }
}
