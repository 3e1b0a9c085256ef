/** The job's byte strings and the memory behind them, kept in step: whatever the buffer
    routines are called for, in whatever order, the arrays hold what the strings say. */
module Coupling {
  import opened Bytes
  import opened Jobs
  import opened Buffers

  /** One call of a buffer routine, or one visit of a file driver. */
  datatype Step =
    | SendQueued
    | SendScoop
    | SendInput(maxLen: nat)
    | Queue(data: seq<Byte>)
    | Scoop(len: nat)
    | Advance(len: nat)
    | LookAhead(len: nat)
    | Fill(len: nat)
    | Drain

  ghost predicate Coupled(m: Memory, job: Job)
    reads m, m.writeBuf, m.scoopBuf, m.input, m.output, job
  {
    && m.Valid() && job.InputOk() && job.TubeOk()
    && m.Queued() == job.writeBuf && m.Scoop() == job.scoop && m.Input() == job.input
    && m.Delivered() == job.output && m.availOut == job.availOut
  }

  /** What the routine demands of its caller; `file` is what the input file still holds. */
  predicate Ready(m: Memory, job: Job, s: Step, file: seq<Byte>)
    reads job
  {
    match s
    case SendQueued => job.writeBuf != []
    case SendScoop => job.writeBuf == [] && job.copyLen > 0
    case SendInput(n) => n > 0 && (job.scoop == [] || job.availOut == 0)
    case Queue(data) => job.copyLen == 0 && |job.writeBuf| + |data| <= TUBE_SIZE
    case Scoop(n) => n > |job.scoop|
    case Advance(n) => n <= if job.scoop != [] then |job.scoop| else |job.input|
    case LookAhead(n) => true
    case Fill(n) => job.input == [] && !job.eofIn && n <= m.input.Length && n <= |file| && (n == 0 ==> file == [])
    case Drain => true
  }

  method SendQueuedBoth(m: Memory, job: Job)
    requires Coupled(m, job) && Ready(m, job, SendQueued, [])
    modifies m, m.writeBuf, m.output, job
    ensures Coupled(m, job) && m.scoopBuf == old(m.scoopBuf) && job.unread == old(job.unread)
  {
    m.CatchupWrite();
    job.CatchupWrite();
  }

  method SendScoopBoth(m: Memory, job: Job)
    requires Coupled(m, job) && Ready(m, job, SendScoop, [])
    modifies m, m.output, job
    ensures Coupled(m, job) && m.scoopBuf == old(m.scoopBuf) && job.unread == old(job.unread)
  {
    var n := m.CopyFromScoop(job.copyLen);
    job.CopyFromScoop();
  }

  method SendInputBoth(m: Memory, job: Job, maxLen: nat)
    requires Coupled(m, job) && Ready(m, job, SendInput(maxLen), [])
    modifies m, m.output, job
    ensures Coupled(m, job) && m.scoopBuf == old(m.scoopBuf) && job.unread == old(job.unread)
  {
    var n := MemoryCopy(m, job, maxLen);
    hide Memory.Valid, Memory.Queued, Memory.Scoop, Memory.Input, Memory.Delivered, Job.InputOk, Min;
    var k := PlainCopy(job, maxLen);
  }

  /** The memory has sent n bytes of input, and the job has not. */
  ghost predicate Ahead(m: Memory, job: Job, n: nat)
    reads m, m.writeBuf, m.scoopBuf, m.input, m.output, job
  {
    && m.Valid() && n <= |job.input|
    && m.Queued() == job.writeBuf && m.Scoop() == job.scoop && m.Input() == job.input[n..]
    && m.Delivered() == job.output + job.input[..n] && m.availOut == job.availOut - n
  }

  method MemoryCopy(m: Memory, job: Job, maxLen: nat) returns (n: nat)
    requires Coupled(m, job) && maxLen > 0
    modifies m, m.output
    ensures n == Min(maxLen, Min(|job.input|, job.availOut)) && Ahead(m, job, n) && m.scoopBuf == old(m.scoopBuf)
  {
    hide Memory.Valid, Memory.Queued, Memory.Scoop, Memory.Input, Memory.Delivered;
    n := m.BuffersCopy(maxLen);
  }

  method PlainCopy(job: Job, maxLen: nat) returns (n: nat)
    requires maxLen > 0 && job.InputOk() && (job.scoop == [] || job.availOut == 0)
    modifies job`output, job`availOut, job`input, job`rest
    ensures job.InputOk()
    ensures n == Min(maxLen, Min(|old(job.input)|, old(job.availOut)))
    ensures job.output == old(job.output) + old(job.input)[..n] && job.input == old(job.input)[n..]
    ensures job.availOut == old(job.availOut) - n
  {
    n := job.BuffersCopy(maxLen);
  }

  method QueueBoth(m: Memory, job: Job, data: seq<Byte>)
    requires Coupled(m, job) && Ready(m, job, Queue(data), [])
    modifies m, m.writeBuf, job
    ensures Coupled(m, job) && m.scoopBuf == old(m.scoopBuf) && job.unread == old(job.unread)
  {
    var buf := new Byte[|data|](i requires 0 <= i < |data| => data[i]);
    assert buf[..] == data == buf[..|data|];
    m.TubeWrite(buf, |data|);
    job.TubeWrite(data);
  }

  method ScoopBoth(m: Memory, job: Job, len: nat)
    requires Coupled(m, job) && Ready(m, job, Scoop(len), [])
    modifies m, m.scoopBuf, job
    ensures Coupled(m, job) && (m.scoopBuf == old(m.scoopBuf) || fresh(m.scoopBuf)) && job.unread == old(job.unread)
  {
    m.ScoopInput(len);
    job.ScoopInput(len);
  }

  method AdvanceBoth(m: Memory, job: Job, len: nat)
    requires Coupled(m, job) && Ready(m, job, Advance(len), [])
    modifies m, job
    ensures Coupled(m, job) && m.scoopBuf == old(m.scoopBuf) && job.unread == old(job.unread)
  {
    m.ScoopAdvance(len);
    job.ScoopAdvance(len);
  }

  /** Looking ahead answers the same, and shows the same bytes. */
  method LookAheadBoth(m: Memory, job: Job, len: nat) returns (r: Result, buf: array<Byte>, from: nat, data: seq<Byte>)
    requires Coupled(m, job)
    modifies m, m.scoopBuf, job
    ensures Coupled(m, job) && (m.scoopBuf == old(m.scoopBuf) || fresh(m.scoopBuf)) && job.unread == old(job.unread)
    ensures r == Done ==> from + len <= buf.Length && buf[from..from + len] == data
    ensures Sight(r, data, job.scoop, job.input) == Readahead(old(job.scoop), old(job.input), job.eofIn, len)
  {
    hide Readahead;
    var t;
    r, buf, from := m.ScoopReadahead(len, job.eofIn);
    t, data := job.ScoopReadahead(len);
  }

  method FillBoth(m: Memory, job: Job, len: nat, file: seq<Byte>) returns (left: seq<Byte>)
    requires Coupled(m, job) && file == job.unread && Ready(m, job, Fill(len), file)
    modifies m, m.input, job
    ensures Coupled(m, job) && left == job.unread && m.scoopBuf == old(m.scoopBuf)
  {
    m.Fill(file[..len]);
    left := file[len..];
    assert file == file[..len] + left;
    job.input, job.unread, job.eofIn := file[..len], left, len == 0;
  }

  method DrainBoth(m: Memory, job: Job)
    requires Coupled(m, job)
    modifies m, job
    ensures Coupled(m, job) && m.scoopBuf == old(m.scoopBuf) && job.unread == old(job.unread)
  {
    m.Drain();
    job.availOut := m.output.Length;
  }

  /** Whatever is called, in any order: a call that is not allowed is left out. */
  method Run(m: Memory, job: Job, steps: seq<Step>, file: seq<Byte>) returns (left: seq<Byte>)
    requires Coupled(m, job) && file == job.unread
    modifies m, m.writeBuf, m.scoopBuf, m.input, m.output, job
    ensures Coupled(m, job) && left == job.unread
  {
    left := file;
    for i := 0 to |steps|
      invariant Coupled(m, job) && left == job.unread
      invariant m.scoopBuf == old(m.scoopBuf) || fresh(m.scoopBuf)
    {
      if Ready(m, job, steps[i], left) {
        left := Do(m, job, steps[i], left);
      }
    }
  }

  method Do(m: Memory, job: Job, s: Step, file: seq<Byte>) returns (left: seq<Byte>)
    requires Coupled(m, job) && file == job.unread && Ready(m, job, s, file)
    modifies m, m.writeBuf, m.scoopBuf, m.input, m.output, job
    ensures Coupled(m, job) && left == job.unread && (m.scoopBuf == old(m.scoopBuf) || fresh(m.scoopBuf))
  {
    hide Coupled;
    left := file;
    match s
    case SendQueued => SendQueuedBoth(m, job);
    case SendScoop => SendScoopBoth(m, job);
    case SendInput(n) => SendInputBoth(m, job, n);
    case Queue(data) => QueueBoth(m, job, data);
    case Scoop(n) => ScoopBoth(m, job, n);
    case Advance(n) => AdvanceBoth(m, job, n);
    case LookAhead(n) => var r, buf, from, data := LookAheadBoth(m, job, n);
    case Fill(n) => left := FillBoth(m, job, n, file);
    case Drain => DrainBoth(m, job);
  }
}
