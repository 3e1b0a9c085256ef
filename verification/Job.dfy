/** The rs_job struct with its attached stream, and the routines every job is
    built from: the output tube (tube.c), the input scoop (scoop.c), the direct
    copy between buffers (stream.c) and integer transfer (netint.c).

    Buffers are the byte strings they hold: `input` is next_in[..avail_in],
    `scoop` is scoop_next[..scoop_avail], `writeBuf` is write_buf[..write_len].
    `output` is everything ever stored through next_out. */
module Jobs {
  import opened Bytes
  import opened NetInt
  import opened Commands
  import opened Checksums
  import opened Sumset

  datatype Result =
    | Done
    | Blocked
    | Running
    | InputEnded
    | BadMagic
    | Corrupt
    | InternalError
    | Aborted        // a C assertion fails

  datatype State =
    | SigHeader | SigGenerate
    | LoadMagic | LoadBlockLen | LoadStrongLen | LoadWeak | LoadStrong
    | DeltaHeader | DeltaScan | DeltaFlush | DeltaEnd
    | PatchHeader | PatchCmdByte | PatchParams | PatchRun | PatchLiteral | PatchCopy | PatchCopying
    | Complete

  /** job_name. */
  datatype JobKind = SigJob | LoadJob | DeltaJob | PatchJob

  const TUBE_SIZE := 20

  /** The outcome of a whole run: all output, the final result, the signature built.
      `Blocked` stands for a job that never finishes, and `InternalError` for one that is
      stopped for making no progress. */
  datatype Fate = Fate(out: seq<Byte>, res: Result, sums: SigValue)

  /** What a job sees of the world besides its stream.  `strongOf` and `staleOf`
      are the bytes the C code takes from uninitialised stack memory: the strong
      sum of the n-th block, and the search buffer after n bytes were scanned. */
  datatype Env = Env(basis: seq<Byte>, outbuflen: nat, strongOf: nat -> seq<Byte>, staleOf: nat -> seq<Byte>)

  /** What looking ahead shows, and what it leaves in the scoop and in the input. */
  datatype Sight = Sight(r: Result, data: seq<Byte>, scoop: seq<Byte>, input: seq<Byte>)

  function Readahead(scoop: seq<Byte>, input: seq<Byte>, eof: bool, len: nat): (s: Sight) {
    if |scoop| >= len then Sight(Done, scoop[..len], scoop, input)
    else if scoop == [] && |input| >= len then Sight(Done, input[..len], scoop, input)
    else if scoop + input == [] then Sight(if eof then InputEnded else Blocked, [], [], [])
    else
      var k := Min(len - |scoop|, |input|);
      var r := scoop + input[..k];
      if scoop != [] && |r| >= len then Sight(Done, r, r, input[k..]) else Sight(Blocked, [], r, input[k..])
  }

  class Job {
    // The attached stream.
    var input: seq<Byte>
    var eofIn: bool
    var output: seq<Byte>
    var availOut: nat

    /** Every input byte not yet consumed: in the scoop, in the input buffer, or still to come. */
    ghost var rest: seq<Byte>

    /** The part of `rest` still to come. */
    ghost var unread: seq<Byte>

    // The job.
    const kind: JobKind
    var statefn: State
    var finalResult: Result
    var blockLen: int
    var strongLen: int
    var op: Byte
    var cmd: Entry
    var param1: int
    var param2: int
    var weakSig: nat
    const weakSum: Rollsum
    const sig: Signature

    // What the job is run against.
    const env: Env

    /** How the run must end: fixed when the job starts. */
    ghost const goal: Fate

    // stats.sig_blocks, and the number of bytes scanned: these only pick
    // elements of `env`.
    var sigBlocks: nat
    var scanned: nat

    // The scoop.
    var scoop: seq<Byte>
    var scoopPos: nat

    // The tube.
    var writeBuf: seq<Byte>
    var copyLen: int

    // The pending match, or the copy being carried out.
    var basisPos: int
    var basisLen: int

    constructor (kind: JobKind, statefn: State, blockLen: int, strongLen: int, sig: Signature, env: Env,
                 ghost source: seq<Byte>, ghost goal: Fate)
      ensures this.kind == kind && this.statefn == statefn && this.blockLen == blockLen && this.strongLen == strongLen
      ensures this.sig == sig && this.env == env && this.goal == goal
      ensures fresh(weakSum) && weakSum.Covers([])
      ensures rest == source == unread && input == [] && !eofIn && output == [] && availOut == 0
      ensures scoop == [] && scoopPos == 0 && writeBuf == [] && copyLen == 0
      ensures basisPos == 0 && basisLen == 0 && param2 == 0 && sigBlocks == 0 && scanned == 0
    {
      this.kind, this.statefn, this.blockLen, this.strongLen := kind, statefn, blockLen, strongLen;
      this.sig, this.env, this.goal := sig, env, goal;
      weakSum := new Rollsum();
      input, eofIn, output, availOut, rest, unread := [], false, [], 0, source, source;
      finalResult, op, cmd, param1, param2, weakSig := Running, 0, Prototab(0), 0, 0, 0;
      scoop, scoopPos, writeBuf, copyLen, basisPos, basisLen := [], 0, [], 0, 0, 0;
      sigBlocks, scanned := 0, 0;
    }

    /** What buffers and end-of-file flag say about the bytes still to be consumed. */
    ghost predicate InputOk()
      reads this
    {
      && rest == scoop + input + unread
      && (eofIn ==> unread == [])
    }

    ghost predicate TubeOk()
      reads this
    {
      |writeBuf| <= TUBE_SIZE && copyLen < TWO_31
    }

    /** rs_tube_is_idle. */
    predicate Idle()
      reads this
    {
      |writeBuf| == 0 && copyLen == 0
    }

    /** Everything sent, or queued so that it will be sent whatever happens next. */
    ghost function Sent(): (r: seq<Byte>)
      reads this
    {
      output + writeBuf + Taken(rest, copyLen)
    }

    /** What is left of the input once the queued copy is out. */
    ghost function Beyond(): (r: seq<Byte>)
      reads this
    {
      Dropped(rest, copyLen)
    }

    /** Nothing has moved. */
    twostate predicate Still()
      reads this
    {
      && output == old(output) && writeBuf == old(writeBuf) && scoop == old(scoop) && input == old(input)
      && copyLen == old(copyLen) && rest == old(rest)
    }

    // -------------------------------------------------------------------
    // tube.c
    // -------------------------------------------------------------------

    method CatchupWrite()
      requires writeBuf != []
      modifies `output, `availOut, `writeBuf
      ensures var k := Min(|old(writeBuf)|, old(availOut));
              && output == old(output) + old(writeBuf)[..k]
              && writeBuf == old(writeBuf)[k..]
              && availOut == old(availOut) - k
    {
      var len := Min(|writeBuf|, availOut);
      if availOut == 0 {
        return;
      }
      output := output + writeBuf[..len];
      availOut := availOut - len;
      writeBuf := writeBuf[len..];
    }

    method CopyFromScoop()
      requires writeBuf == [] && copyLen > 0 && InputOk()
      modifies `output, `availOut, `scoop, `copyLen, `rest
      ensures InputOk()
      ensures Sent() == old(Sent()) && Beyond() == old(Beyond())
      ensures var len := Min(old(copyLen), Min(|old(scoop)|, old(availOut)));
              && |output| == |old(output)| + len && availOut == old(availOut) - len
              && output == old(output) + old(scoop)[..len] && scoop == old(scoop)[len..]
              && copyLen == old(copyLen) - len && |scoop| == |old(scoop)| - len && |rest| == |old(rest)| - len
      ensures old(availOut) == 0 ==> Still()
    {
      var len := Min(copyLen, |scoop|);
      len := Min(len, availOut);
      assert scoop[..len] == rest[..len];
      assert (scoop + input + unread)[len..] == scoop[len..] + input + unread;
      SentMoves(output, writeBuf, rest, copyLen, len);
      output := output + scoop[..len];
      availOut := availOut - len;
      scoop := scoop[len..];
      copyLen := copyLen - len;
      rest := rest[len..];
    }

    /** rs_buffers_copy, which reads the raw input: only legal with an empty scoop. */
    method BuffersCopy(maxLen: int) returns (len: nat)
      requires maxLen > 0 && InputOk()
      requires scoop == [] || availOut == 0
      modifies `output, `availOut, `input, `rest
      ensures InputOk()
      ensures len == Min(maxLen, Min(|old(input)|, old(availOut))) && len <= |old(rest)|
      ensures output == old(output) + old(rest)[..len] && rest == old(rest)[len..]
      ensures output == old(output) + old(input)[..len] && input == old(input)[len..]
      ensures availOut == old(availOut) - len
    {
      len := Min(maxLen, |input|);
      len := Min(len, availOut);
      if len == 0 {
        assert output + rest[..0] == output == output + input[..0];
        return 0;
      }
      assert rest == input + unread;
      assert input[..len] == rest[..len];
      assert (input + unread)[len..] == scoop + input[len..] + unread;
      output := output + input[..len];
      availOut := availOut - len;
      input := input[len..];
      rest := rest[len..];
    }

    /** The second half of rs_tube_catchup_copy. */
    method CopyFromInput()
      requires writeBuf == [] && 0 < copyLen < TWO_31 && InputOk()
      requires scoop == [] || availOut == 0
      modifies `output, `availOut, `input, `copyLen, `rest
      ensures InputOk()
      ensures Sent() == old(Sent()) && Beyond() == old(Beyond())
      ensures 0 <= copyLen <= old(copyLen) && copyLen - |rest| == old(copyLen - |rest|)
      ensures |output| + availOut == old(|output| + availOut) && |output| >= old(|output|)
      ensures |input| <= |old(input)| && (old(availOut) == 0 ==> input == old(input))
      ensures copyLen > 0 ==> availOut == 0 || input == []
      ensures old(availOut) == 0 ==> Still()
    {
      ghost var was, sent := rest, output;
      var thisCopy := BuffersCopy(copyLen);
      SentMoves(sent, writeBuf, was, copyLen, thisCopy);
      copyLen := copyLen - thisCopy;
    }

    /** rs_tube_catchup_copy: first from the scoop, then from the input. */
    method CatchupCopy()
      requires writeBuf == [] && 0 < copyLen < TWO_31 && InputOk()
      modifies `output, `availOut, `scoop, `input, `copyLen, `rest
      ensures InputOk()
      ensures Sent() == old(Sent()) && Beyond() == old(Beyond())
      ensures 0 <= copyLen <= old(copyLen) && copyLen - |rest| == old(copyLen - |rest|)
      ensures |output| + availOut == old(|output| + availOut) && |output| >= old(|output|)
      ensures |scoop| <= |old(scoop)| && |input| <= |old(input)|
      ensures old(copyLen) <= |old(scoop)| ==> input == old(input)
      ensures copyLen > 0 ==> availOut == 0 || (scoop == [] && input == [])
      ensures old(availOut) == 0 ==> Still()
    {
      if scoop != [] && copyLen != 0 {
        CopyFromScoop();
      }
      if copyLen != 0 {
        CopyFromInput();
      }
    }

    /** rs_tube_catchup: send what fits.  Nothing is lost or reordered. */
    method Catchup() returns (r: Result)
      requires InputOk() && TubeOk()
      modifies `output, `availOut, `writeBuf, `scoop, `input, `copyLen, `rest
      ensures InputOk() && TubeOk()
      ensures Sent() == old(Sent()) && Beyond() == old(Beyond())
      ensures |output| + availOut == old(|output| + availOut) && |output| >= old(|output|)
      ensures |writeBuf| <= |old(writeBuf)| && |scoop| <= |old(scoop)| && |input| <= |old(input)|
      ensures copyLen - |rest| == old(copyLen) - |old(rest)|
      ensures copyLen <= old(copyLen) && (copyLen < 0 <==> old(copyLen) < 0)
      ensures old(copyLen) <= |old(scoop)| ==> copyLen - |scoop| == old(copyLen) - |old(scoop)| && input == old(input)
      ensures r in {Done, Blocked, InputEnded, Aborted}
      ensures r == Done <==> Idle()
      ensures r == Aborted <==> writeBuf == [] && copyLen < 0
      ensures r == InputEnded <==> writeBuf == [] && copyLen > 0 && eofIn && input == [] && scoop == []
      ensures r == Blocked ==> availOut == 0 || (writeBuf == [] && scoop == [] && input == [] && !eofIn)
      ensures old(availOut) == 0 || old(Idle()) ==> Still()
    {
      if writeBuf != [] {
        CatchupWrite();
        assert output + writeBuf == old(output + writeBuf);
      }
      if writeBuf != [] {
        return Blocked;
      }
      assert output == old(output + writeBuf);
      if copyLen != 0 {
        if copyLen < 0 {
          return Aborted;
        }
        CatchupCopy();
      }
      if copyLen != 0 {
        if eofIn && input == [] && scoop == [] {
          return InputEnded;
        }
        return Blocked;
      }
      return Done;
    }

    /** rs_tube_copy, whose length parameter is an `int`. */
    method TubeCopy(len: int)
      requires copyLen == 0
      modifies `copyLen
      ensures copyLen == ToInt32(len)
    {
      copyLen := ToInt32(len);
    }

    /** rs_tube_write: the caller must leave room. */
    method TubeWrite(buf: seq<Byte>)
      requires copyLen == 0 && |writeBuf| + |buf| <= TUBE_SIZE
      modifies `writeBuf
      ensures writeBuf == old(writeBuf) + buf
    {
      writeBuf := writeBuf + buf;
    }

    // -------------------------------------------------------------------
    // scoop.c
    // -------------------------------------------------------------------

    method ScoopInput(len: nat)
      requires len > |scoop| && InputOk()
      modifies `scoop, `input
      ensures InputOk()
      ensures scoop + input == old(scoop + input)
      ensures var k := Min(len - |old(scoop)|, |old(input)|);
              scoop == old(scoop) + old(input)[..k] && input == old(input)[k..]
    {
      var tocopy := len - |scoop|;
      tocopy := Min(tocopy, |input|);
      assert scoop + input == (scoop + input[..tocopy]) + input[tocopy..];
      scoop := scoop + input[..tocopy];
      input := input[tocopy..];
    }

    method ScoopAdvance(len: nat)
      requires InputOk()
      requires len <= if scoop != [] then |scoop| else |input|
      modifies `scoop, `input, `rest
      ensures InputOk()
      ensures len <= |old(rest)| && rest == old(rest)[len..]
      ensures old(scoop) != [] ==> scoop == old(scoop)[len..] && input == old(input)
      ensures old(scoop) == [] ==> scoop == [] && input == old(input)[len..]
    {
      if scoop != [] {
        assert (scoop + input + unread)[len..] == scoop[len..] + input + unread;
        scoop := scoop[len..];
      } else {
        assert rest == input + unread;
        assert (input + unread)[len..] == scoop + input[len..] + unread;
        input := input[len..];
      }
      rest := rest[len..];
    }

    /** Look at the next `len` bytes, if they have all arrived. */
    method ScoopReadahead(len: nat) returns (r: Result, data: seq<Byte>)
      requires InputOk()
      modifies `scoop, `input
      ensures InputOk()
      ensures scoop + input == old(scoop + input) && |input| <= |old(input)|
      ensures r in {Done, Blocked, InputEnded}
      ensures r == Done <==> |scoop + input| >= len
      ensures r == Done ==> data == rest[..len] && (scoop == [] || |scoop| >= len)
      ensures old(|scoop|) <= len ==> |scoop| <= len
      ensures old(|scoop|) >= len ==> r == Done && scoop == old(scoop) && input == old(input)
      ensures r == InputEnded ==> len > 0 && rest == []
      ensures r == Blocked ==> input == [] && |scoop| < len && (scoop == [] ==> !eofIn)
      ensures Sight(r, data, scoop, input) == Readahead(old(scoop), old(input), eofIn, len)
    {
      data := [];
      if |scoop| >= len {
        data := scoop[..len];
        return Done, data;
      } else if scoop != [] {
        ScoopInput(len);
        if |scoop| < len {
          return Blocked, data;
        } else {
          return Done, scoop[..len];
        }
      } else if |input| >= len {
        return Done, input[..len];
      } else if |input| > 0 {
        ScoopInput(len);
        return Blocked, data;
      } else if eofIn {
        return InputEnded, data;
      } else {
        return Blocked, data;
      }
    }

    /** rs_scoop_read: take the next `len` bytes, or leave everything in place. */
    method ScoopRead(len: nat) returns (r: Result, data: seq<Byte>)
      requires InputOk()
      modifies `scoop, `input, `rest
      ensures InputOk()
      ensures r in {Done, Blocked, InputEnded}
      ensures r == Done <==> |old(scoop + input)| >= len
      ensures r == Done ==> len <= |old(rest)| && data == old(rest)[..len] && rest == old(rest)[len..]
      ensures r == Done && old(|scoop|) <= len ==> scoop == []
      ensures r == Done && len > 0 && old(|scoop|) >= len ==> scoop == old(scoop)[len..] && input == old(input)
      ensures r == Done && old(|scoop|) < len ==> |input| < |old(input)|
      ensures r != Done ==> rest == old(rest) && scoop + input == old(scoop + input)
      ensures |input| <= |old(input)|
      ensures r == InputEnded ==> len > 0 && rest == []
      ensures r == Blocked ==> input == [] && |scoop| < len && (scoop == [] ==> !eofIn)
    {
      hide Readahead;
      r, data := ScoopReadahead(len);
      if r == Done {
        ScoopAdvance(len);
      }
    }

    /** rs_scoop_read_rest: take whatever has arrived. */
    method ScoopReadRest() returns (r: Result, data: seq<Byte>)
      requires InputOk()
      modifies `scoop, `input, `rest
      ensures InputOk() && r == Done
      ensures data == old(scoop + input) && scoop + input == []
      ensures |data| <= |old(rest)| && rest == old(rest)[|data|..]
    {
      var len := |scoop| + |input|;
      r, data := ScoopRead(len);
    }

    // -------------------------------------------------------------------
    // netint.c
    // -------------------------------------------------------------------

    method SquirtByte(d: Byte)
      requires copyLen == 0 && |writeBuf| + 1 <= TUBE_SIZE
      modifies `writeBuf
      ensures writeBuf == old(writeBuf) + [d]
    {
      TubeWrite([d]);
    }

    method SquirtNetint(d: int, len: nat)
      requires 1 <= len <= MAX_INT_BYTES
      requires copyLen == 0 && |writeBuf| + len <= TUBE_SIZE
      modifies `writeBuf
      ensures writeBuf == old(writeBuf) + EncodeInt(d, len)
    {
      var buf := BigEndian(d, len);
      TubeWrite(buf);
    }

    /** rs_squirt_n4: the value is passed as an `int`. */
    method SquirtN4(val: nat)
      requires val < TWO_32
      requires copyLen == 0 && |writeBuf| + 4 <= TUBE_SIZE
      modifies `writeBuf
      ensures writeBuf == old(writeBuf) + EncodeInt(val, 4)
    {
      SquirtNetint(ToInt32(val), 4);
      Powers();
      SignedTransport(val, 4);
    }

    method SuckByte() returns (r: Result)
      requires InputOk()
      modifies `scoop, `input, `rest, `op
      ensures InputOk()
      ensures r in {Done, Blocked, InputEnded}
      ensures r == Done ==> |old(rest)| >= 1 && op == old(rest)[0] && rest == old(rest)[1..]
      ensures r == Done && old(scoop) == [] ==> scoop == [] && |input| < |old(input)|
      ensures r != Done ==> rest == old(rest) && scoop + input == old(scoop + input)
      ensures |input| <= |old(input)|
      ensures r == InputEnded ==> rest == []
      ensures r == Blocked ==> input == [] && scoop == [] && !eofIn
    {
      var data;
      r, data := ScoopRead(1);
      if r == Done {
        op := data[0];
      }
    }

    method SuckNetint(len: nat) returns (r: Result, v: int)
      requires 1 <= len <= MAX_INT_BYTES && InputOk()
      modifies `scoop, `input, `rest
      ensures InputOk()
      ensures r in {Done, Blocked, InputEnded}
      ensures r == Done <==> |old(scoop + input)| >= len
      ensures r == Done ==> len <= |old(rest)| && v == ToInt64(DecodeInt(old(rest)[..len])) && rest == old(rest)[len..]
      ensures r == Done && old(|scoop|) <= len ==> scoop == []
      ensures r == Done && old(|scoop|) >= len ==> scoop == old(scoop)[len..] && input == old(input)
      ensures r == Done && old(|scoop|) < len ==> |input| < |old(input)|
      ensures r != Done ==> rest == old(rest) && scoop + input == old(scoop + input)
      ensures |input| <= |old(input)|
      ensures r == InputEnded ==> rest == []
      ensures r == Blocked ==> input == [] && |scoop| < len && (scoop == [] ==> !eofIn)
    {
      var data;
      v := 0;
      r, data := ScoopRead(len);
      if r == Done {
        v := FromBigEndian(data);
      }
    }

    /** rs_suck_n4: the value is narrowed to an `int`. */
    method SuckN4() returns (r: Result, v: int)
      requires InputOk()
      modifies `scoop, `input, `rest
      ensures InputOk()
      ensures r in {Done, Blocked, InputEnded}
      ensures r == Done <==> |old(scoop + input)| >= 4
      ensures r == Done ==> 4 <= |old(rest)| && v == ToInt32(DecodeInt(old(rest)[..4])) && rest == old(rest)[4..]
      ensures r == Done && old(|scoop|) <= 4 ==> scoop == []
      ensures r == Done && old(|scoop|) < 4 ==> |input| < |old(input)|
      ensures r != Done ==> rest == old(rest) && scoop + input == old(scoop + input)
      ensures |input| <= |old(input)|
      ensures r == InputEnded ==> rest == []
      ensures r == Blocked ==> input == [] && |scoop| < 4 && (scoop == [] ==> !eofIn)
    {
      var d;
      ghost var n: nat := 4;
      r, d := SuckNetint(4);
      v := ToInt32(d);
      if r == Done {
        DecodeBound(old(rest)[..n]);
        NarrowTwice(DecodeInt(old(rest)[..n]));
      }
    }
  }

  lemma {:induction false} NarrowTwice(x: nat)
    ensures ToInt32(ToInt64(x)) == ToInt32(x)
  {
    var y := ToInt64(x);
    assert y % TWO_32 == x % TWO_32;
  }

  /** The first n bytes, or as many as there are. */
  function Taken(s: seq<Byte>, n: int): (r: seq<Byte>) {
    if n <= 0 then [] else s[..Min(n, |s|)]
  }

  function Dropped(s: seq<Byte>, n: int): (r: seq<Byte>) {
    if n <= 0 then s else s[Min(n, |s|)..]
  }

  /** Moving k bytes of the queued copy to the output changes nothing overall. */
  lemma {:induction false} SentMoves(out: seq<Byte>, queued: seq<Byte>, s: seq<Byte>, n: int, k: nat)
    requires queued == [] && k <= n && k <= |s|
    ensures out + s[..k] + queued + Taken(s[k..], n - k) == out + queued + Taken(s, n)
    ensures Dropped(s[k..], n - k) == Dropped(s, n)
  {
    var m := Min(n, |s|);
    assert n > 0 ==> s[..m] == s[..k] + s[k..m];
    assert n > k ==> s[k..][..m - k] == s[k..m] && s[k..][m - k..] == s[m..];
    assert Taken(s, n) == s[..k] + Taken(s[k..], n - k);
  }
}
