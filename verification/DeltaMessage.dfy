/** The message that carries a delta: built by sync_send, taken apart by the server's
    func_delta, which patches its own copy of the base file. */
module DeltaMessage {
  import opened Bytes
  import opened Files
  import opened Jobs
  import opened PatchSpec
  import opened Streams
  import opened WriteBatch
  import Whole

  /** `name` includes its terminating zero. */
  function DeltaHead(baseVer: nat, oldVer: nat, newVer: nat, name: seq<Byte>, deltaLen: nat): (r: seq<Byte>)
    ensures |r| == 30 + |name|
  {
    Le(baseVer, 8) + Le(oldVer, 8) + Le(newVer, 8) + Le(|name|, 2) + name + Le(deltaLen, 4)
  }

  function DeltaBytes(baseVer: nat, oldVer: nat, newVer: nat, name: seq<Byte>, delta: seq<Byte>): (r: seq<Byte>) {
    DeltaHead(baseVer, oldVer, newVer, name, |delta|) + delta
  }

  /** The DELTA case of sync_send, with the delta file read in one piece. */
  method SendDeltaFile(baseVer: nat, oldVer: nat, newVer: nat, name: seq<Byte>, delta: seq<Byte>)
    returns (message: array<Byte>)
    requires |name| < TWO_16 && 30 + |name| + |delta| < TWO_32
    ensures fresh(message) && message[..] == DeltaBytes(baseVer, oldVer, newVer, name, delta)
  {
    var memSize := 30 + |name| + |delta|;
    message := new Byte[memSize];
    Memcpy(message, 0, Le(baseVer, 8));
    Memcpy(message, 8, Le(oldVer, 8));
    Memcpy(message, 16, Le(newVer, 8));
    Memcpy(message, 24, Le(|name|, 2));
    Memcpy(message, 26, name);
    Memcpy(message, 26 + |name|, Le(|delta|, 4));
    Memcpy(message, 30 + |name|, delta);
    assert message[..memSize] == message[..];
  }

  /** The head is read back field by field. */
  lemma {:induction false} DeltaHeadRoundTrip(baseVer: nat, oldVer: nat, newVer: nat, name: seq<Byte>, delta: seq<Byte>)
    requires baseVer < TWO_64 && oldVer < TWO_64 && newVer < TWO_64 && |name| < TWO_16 && |delta| < TWO_32
    ensures var s := DeltaBytes(baseVer, oldVer, newVer, name, delta);
            && |s| == 30 + |name| + |delta|
            && FromLe(s[..8]) == baseVer && FromLe(s[8..16]) == oldVer && FromLe(s[16..24]) == newVer
            && FromLe(s[24..26]) == |name| && FromLe(s[26 + |name|..30 + |name|]) == |delta|
            && s[30 + |name|..] == delta
  {
    hide Le, FromLe;
    var s := DeltaBytes(baseVer, oldVer, newVer, name, delta);
    WordRoundTrip(baseVer, 8);
    WordRoundTrip(oldVer, 8);
    WordRoundTrip(newVer, 8);
    WordRoundTrip(|name|, 2);
    WordRoundTrip(|delta|, 4);
    assert s[..8] == Le(baseVer, 8) && s[8..16] == Le(oldVer, 8) && s[16..24] == Le(newVer, 8);
    assert s[24..26] == Le(|name|, 2) && s[26 + |name|..30 + |name|] == Le(|delta|, 4);
  }

  /** How func_delta ends.  `StillRunning`: it has not.  `SelfBase`: the base is the file being
      written, which the open call has just emptied. */
  datatype Patching = Patched | PatchFails(res: Result) | Conflict | StillRunning | SelfBase | MessageOverrun

  /** The parts of a message that func_delta uses, or nothing when it is cut short. */
  datatype Request = Request(base: nat, target: nat, delta: seq<Byte>) | BadRequest

  function ParseDelta(s: seq<Byte>): (r: Request) {
    if |s| < 26 then BadRequest else
    var namelen := FromLe(s[24..26]);
    if namelen > MAXNAMELEN || 30 + namelen > |s| then BadRequest else
    var deltalen := FromLe(s[26 + namelen..30 + namelen]);
    if 30 + namelen + deltalen > |s| then BadRequest
    else Request(FromLe(s[..8]), FromLe(s[16..24]), s[30 + namelen..30 + namelen + deltalen])
  }

  lemma {:induction false} ParseDeltaBytes(baseVer: nat, oldVer: nat, newVer: nat, name: seq<Byte>, delta: seq<Byte>)
    requires baseVer < TWO_64 && oldVer < TWO_64 && newVer < TWO_64 && |name| <= MAXNAMELEN && |delta| < TWO_32
    ensures ParseDelta(DeltaBytes(baseVer, oldVer, newVer, name, delta)) == Request(baseVer, newVer, delta)
  {
    hide FromLe, DeltaHead;
    var s := DeltaBytes(baseVer, oldVer, newVer, name, delta);
    DeltaHeadRoundTrip(baseVer, oldVer, newVer, name, delta);
    assert s[30 + |name|..30 + |name| + |delta|] == s[30 + |name|..];
  }

  /** func_delta, watched while its patch job goes through a number of rounds: the target is
      created first; then the server's own base file is patched. */
  method FuncDelta(server: Server, workload: seq<Byte>, env: Env, inbuflen: nat, rounds: nat) returns (p: Patching)
    requires inbuflen > 0 && env.outbuflen > 0
    modifies server
    ensures var q := ParseDelta(workload);
            if q.BadRequest? then p == MessageOverrun
            else
              && q.target in server.files
              && (forall ver :: ver != q.target ==> (ver in server.files <==> ver in old(server.files)))
              && (forall ver :: ver != q.target && ver in server.files ==> server.files[ver] == old(server.files)[ver])
              && if q.base == q.target then p == SelfBase
                 else if q.base !in old(server.files) then p == Conflict && server.files[q.target] == []
                 else
                   var o := PatchOf(old(server.files)[q.base], q.delta);
                   && (p == StillRunning || p == if o.res == Done then Patched else PatchFails(o.res))
                   && (Hangs(old(server.files)[q.base], q.delta) ==> p == StillRunning)
                   && (!Hangs(old(server.files)[q.base], q.delta)
                       && rounds >= Whole.EnoughRounds(|q.delta|, |o.out|) ==>
                         p != StillRunning)
                   && (p != StillRunning ==>
                         (p == PatchFails(InternalError) <==> Stops(old(server.files)[q.base], q.delta)))
                   && server.files[q.target] <= o.out && (p == Patched ==> server.files[q.target] == o.out)
  {
    hide FromLe, PatchOf, Hangs, Stops;
    var q := ParseDelta(workload);
    if q.BadRequest? {
      return MessageOverrun;
    }
    server.files := server.files[q.target := []];
    if q.base == q.target {
      return SelfBase;
    }
    if q.base !in server.files {
      return Conflict;
    }
    var basis := server.files[q.base];
    PatchBlocksIff(basis, q.delta);
    var r, patched := Whole.PatchFileFor(q.delta, env.(basis := basis), inbuflen, rounds);
    server.files := server.files[q.target := patched];
    return if r == Done then Patched else if r == Blocked then StillRunning else PatchFails(r);
  }
}
