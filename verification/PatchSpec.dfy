/** What a delta means: the outcome of decoding a byte string against a basis file,
    in one go and without buffers.  Every byte string has an outcome. */
module PatchSpec {
  import opened Bytes
  import opened NetInt
  import opened Commands
  import opened Jobs

  /** Everything written, and how the run ends.  `Blocked` means that it never does, and
      `InternalError` that it is stopped for making no progress. */
  datatype Outcome = Outcome(out: seq<Byte>, res: Result)

  function Before(data: seq<Byte>, o: Outcome): (r: Outcome) {
    Outcome(data + o.out, o.res)
  }

  /** At the start of a command. */
  function Decode(basis: seq<Byte>, s: seq<Byte>): (r: Outcome)
    decreases |s|, 0
  {
    var h := DecodeHead(s);
    match h
    case NoInput => Outcome([], InputEnded)
    case Ended => Outcome([], InputEnded)
    case Partial => Outcome([], Blocked)
    case Head(e, p1, p2, n) => Execute(basis, e.kind, p1, p2, s[n..])
  }

  /** With the command and its parameters read. */
  function Execute(basis: seq<Byte>, kind: Kind, p1: int, p2: int, tail: seq<Byte>): (r: Outcome)
    decreases |tail|, 3
  {
    match kind
    case KindEnd => Outcome([], Done)
    case KindReserved => Outcome([], Corrupt)
    case KindLiteral => CopyThrough(basis, p1, tail)
    case KindCopy =>
      if p2 < 0 || p1 < 0 then Outcome([], Corrupt) else CopyBasis(basis, p1, p2, tail)
  }

  /** A literal of length len: the tube takes the length as an `int`. */
  function CopyThrough(basis: seq<Byte>, len: int, tail: seq<Byte>): (r: Outcome)
    decreases |tail|, 2
  {
    if len < 0 then Outcome([], Corrupt) else Drain(basis, ToInt32(len), tail)
  }

  /** With n literal bytes queued. */
  function Drain(basis: seq<Byte>, n: int, tail: seq<Byte>): (r: Outcome)
    decreases |tail|, 1
  {
    if n < 0 then Outcome([], Aborted)
    else if n > |tail| then Outcome(tail, InputEnded)
    else Before(Taken(tail, n), Decode(basis, Dropped(tail, n)))
  }

  /** At a copy of no bytes the job stands still: for ever if the input has been used up,
      and otherwise until a call finds input, room for output and no progress. */
  function Standstill(tail: seq<Byte>): (r: Outcome) {
    Outcome([], if tail == [] then Blocked else InternalError)
  }

  /** With `len` bytes to fetch from the basis. */
  function CopyBasis(basis: seq<Byte>, pos: nat, len: nat, tail: seq<Byte>): (r: Outcome)
    decreases |tail|, 2
  {
    if len == 0 then Standstill(tail)
    else if pos + len <= |basis| then Before(basis[pos..pos + len], Decode(basis, tail))
    else Outcome(From(basis, pos), InputEnded)
  }

  /** With the opcode read, and its parameters still to come. */
  function AwaitParams(basis: seq<Byte>, e: Entry, s: seq<Byte>): (r: Outcome) {
    var n := e.len1 + e.len2;
    if s == [] then Outcome([], InputEnded)
    else if |s| < n then Outcome([], Blocked)
    else Execute(basis, e.kind, ToInt64(DecodeInt(s[..e.len1])),
                 if e.len2 == 0 then 0 else ToInt64(DecodeInt(s[e.len1..n])), s[n..])
  }

  /** A whole delta. */
  function PatchOf(basis: seq<Byte>, delta: seq<Byte>): (r: Outcome) {
    if delta == [] then Outcome([], InputEnded)
    else if |delta| < 4 then Outcome([], Blocked)
    else if ToInt32(DecodeInt(delta[..4])) != DELTA_MAGIC then Outcome([], BadMagic)
    else Decode(basis, delta[4..])
  }

  /** Reading the opcode first and the parameters later comes to the same. */
  lemma {:induction false} DecodeByOpcode(basis: seq<Byte>, s: seq<Byte>)
    requires s != []
    ensures var e := Prototab(s[0]);
            Decode(basis, s) == if e.len1 == 0 then Execute(basis, e.kind, e.immediate, 0, s[1..])
                                else AwaitParams(basis, e, s[1..])
  {
    hide Prototab, Execute;
    var e := Prototab(s[0]);
    var n := e.len1 + e.len2;
    var t := s[1..];
    if e.len1 != 0 && |t| >= n {
      assert t[..e.len1] == s[1..1 + e.len1];
      assert t[e.len1..n] == s[1 + e.len1..1 + n];
      assert t[n..] == s[1 + n..];
    }
  }

  /** Only COPY looks at the second parameter. */
  lemma {:induction false} SecondParamUnused(basis: seq<Byte>, kind: Kind, p1: int, p2: int, q2: int, tail: seq<Byte>)
    requires kind != KindCopy
    ensures Execute(basis, kind, p1, p2, tail) == Execute(basis, kind, p1, q2, tail)
  {
  }

  lemma {:induction false} CopyHasParams(op: Byte)
    ensures Prototab(op).kind == KindCopy ==> Prototab(op).len1 > 0 && Prototab(op).len2 > 0
    ensures Prototab(op).kind != KindCopy ==> Prototab(op).len2 == 0
    ensures Prototab(op).len1 <= 8 && Prototab(op).len2 <= 8
  {
  }
}
