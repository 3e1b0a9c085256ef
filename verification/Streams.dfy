/** Which deltas and which signature files let their jobs finish, read off the bytes. */
module Streams {
  import opened Bytes
  import opened NetInt
  import opened Commands
  import opened Sumset
  import opened Jobs
  import opened PatchSpec
  import opened SigSpec
  import opened Meaning

  // ---------------------------------------------------------------------
  // The commands in any byte string
  // ---------------------------------------------------------------------

  /** One command read, and the number of its bytes. */
  datatype Reading = Read(cmd: Cmd, size: nat) | Unreadable

  function ReadOne(s: seq<Byte>): (r: Reading)
    ensures r.Read? ==> 1 <= r.size <= |s|
  {
    match DecodeHead(s)
    case Head(e, p1, p2, n) =>
      (match e.kind
       case KindEnd => Read(End, n)
       case KindReserved => Unreadable
       case KindCopy => if p1 < 0 || p2 < 0 then Unreadable else Read(Copy(p1, p2), n)
       case KindLiteral =>
         var k := ToInt32(p1);
         if p1 < 0 || k < 0 || k > |s| - n then Unreadable else Read(Literal(s[n..n + k]), n + k))
    case _ => Unreadable
  }

  /** The commands the decoder gets to see, up to the first end, and the bytes behind them. */
  datatype Stream = Stream(cs: seq<Cmd>, tail: seq<Byte>)

  function Ahead(c: Cmd, s: Stream): (r: Stream) {
    Stream([c] + s.cs, s.tail)
  }

  /** Reading a byte string command by command, without a basis. */
  function ReadAll(s: seq<Byte>): (r: Stream)
    ensures r.cs == [] ==> r.tail == s
    decreases |s|
  {
    match ReadOne(s)
    case Unreadable => Stream([], s)
    case Read(c, n) => if c == End then Stream([End], s[n..]) else Ahead(c, ReadAll(s[n..]))
  }

  /** What ends the commands is an end, or bytes that cannot be read. */
  lemma {:induction false} TailIsUnreadable(s: seq<Byte>)
    ensures End in ReadAll(s).cs || ReadOne(ReadAll(s).tail).Unreadable?
    decreases |s|
  {
    hide ReadOne;
    var r := ReadOne(s);
    if r.Read? && r.cmd != End {
      TailIsUnreadable(s[r.size..]);
    }
  }

  /** How the decoder fails where nothing can be read. */
  lemma {:induction false} UnreadableFate(basis: seq<Byte>, s: seq<Byte>)
    requires ReadOne(s).Unreadable?
    ensures Decode(basis, s).res in {InputEnded, Blocked, Corrupt, Aborted}
    ensures Decode(basis, s).res == Blocked <==> DecodeHead(s).Partial?
  {
    hide DecodeHead;
    var h := DecodeHead(s);
    if h.Head? {
      assert Decode(basis, s) == Execute(basis, h.entry.kind, h.param1, h.param2, s[h.size..]);
      if h.entry.kind == KindLiteral {
        if h.param1 >= 0 {
          LiteralStep(basis, h.param1, h.param2, s[h.size..]);
        } else {
          assert CopyThrough(basis, h.param1, s[h.size..]) == Outcome([], Corrupt);
        }
      }
    }
  }

  lemma {:induction false} LiteralStep(basis: seq<Byte>, p1: int, p2: int, tail: seq<Byte>)
    requires p1 >= 0
    ensures var n := ToInt32(p1);
            Execute(basis, KindLiteral, p1, p2, tail) ==
            if n < 0 then Outcome([], Aborted)
            else if n > |tail| then Outcome(tail, InputEnded)
            else Before(tail[..n], Decode(basis, tail[n..]))
  {
    hide Decode;
    assert Execute(basis, KindLiteral, p1, p2, tail) == CopyThrough(basis, p1, tail);
    assert CopyThrough(basis, p1, tail) == Drain(basis, ToInt32(p1), tail);
  }

  /** One command of the decoder. */
  lemma {:induction false} DecodeStep(basis: seq<Byte>, s: seq<Byte>)
    requires ReadOne(s).Read?
    ensures var c, more := ReadOne(s).cmd, s[ReadOne(s).size..];
            Decode(basis, s) ==
            match c
            case End => Outcome([], Done)
            case Literal(data) => Before(data, Decode(basis, more))
            case Copy(pos, len) => CopyBasis(basis, pos, len, more)
  {
    hide DecodeHead;
    var h := DecodeHead(s);
    var tail := s[h.size..];
    assert Decode(basis, s) == Execute(basis, h.entry.kind, h.param1, h.param2, tail);
    if h.entry.kind == KindLiteral {
      LiteralStep(basis, h.param1, h.param2, tail);
      var k := ToInt32(h.param1);
      assert tail[..k] == s[h.size..h.size + k] && tail[k..] == s[h.size + k..];
    }
  }

  /** Decoding any byte string is carrying out its commands, and then failing on its rest. */
  lemma {:induction false} DecodeIsPerform(basis: seq<Byte>, s: seq<Byte>)
    ensures Decode(basis, s) == Perform(basis, ReadAll(s).cs, ReadAll(s).tail)
    decreases |s|
  {
    hide Decode, ReadOne, Perform;
    PerformNothing(basis, ReadAll(s).tail);
    var r := ReadOne(s);
    if r.Read? {
      DecodeStep(basis, s);
      if r.cmd == End {
        PerformFirst(basis, End, [], s[r.size..]);
        assert [End] + [] == [End];
      } else {
        var t := ReadAll(s[r.size..]);
        DecodeIsPerform(basis, s[r.size..]);
        PerformFirst(basis, r.cmd, t.cs, t.tail);
        TailOfNothing(s[r.size..]);
      }
    }
  }

  lemma {:induction false} TailOfNothing(s: seq<Byte>)
    ensures s == [] <==> ReadAll(s) == Stream([], [])
  {
    if s == [] {
      assert ReadOne(s).Unreadable?;
    }
  }

  // ---------------------------------------------------------------------
  // Deltas that let the patch job finish
  // ---------------------------------------------------------------------

  /** The job gets past this command. */
  predicate Passes(basis: seq<Byte>, c: Cmd) {
    match c
    case Literal(_) => true
    case Copy(pos, len) => 0 < len && pos + len <= |basis|
    case End => false
  }

  /** The job reaches a copy of no bytes. */
  ghost predicate StallsAt(basis: seq<Byte>, cs: seq<Cmd>, k: nat) {
    && k < |cs| && cs[k].Copy? && cs[k].len == 0
    && forall j :: 0 <= j < k ==> Passes(basis, cs[j])
  }

  /** The job reaches a copy of no bytes, with something behind it. */
  ghost predicate StopsAt(basis: seq<Byte>, cs: seq<Cmd>, tail: seq<Byte>, k: nat) {
    StallsAt(basis, cs, k) && (k + 1 < |cs| || tail != [])
  }

  /** The job reaches a copy of no bytes, with nothing behind it. */
  ghost predicate LastIsEmpty(basis: seq<Byte>, cs: seq<Cmd>, tail: seq<Byte>) {
    cs != [] && StallsAt(basis, cs, |cs| - 1) && tail == []
  }

  predicate AllPass(basis: seq<Byte>, cs: seq<Cmd>) {
    forall c <- cs :: Passes(basis, c)
  }

  lemma {:induction false} StallsLater(basis: seq<Byte>, cs: seq<Cmd>, k: nat)
    requires cs != [] && Passes(basis, cs[0])
    ensures !StallsAt(basis, cs, 0) && (StallsAt(basis, cs, k + 1) <==> StallsAt(basis, cs[1..], k))
  {
    if StallsAt(basis, cs, k + 1) {
      forall j | 0 <= j < k ensures Passes(basis, cs[1..][j]) {
        assert Passes(basis, cs[j + 1]);
      }
    }
    if StallsAt(basis, cs[1..], k) {
      forall j | 0 <= j < k + 1 ensures Passes(basis, cs[j]) {
        assert j > 0 ==> Passes(basis, cs[1..][j - 1]);
      }
    }
  }

  lemma {:induction false} StopsLater(basis: seq<Byte>, cs: seq<Cmd>, tail: seq<Byte>)
    requires cs != [] && Passes(basis, cs[0])
    ensures (exists k: nat :: StopsAt(basis, cs, tail, k)) <==> exists k: nat :: StopsAt(basis, cs[1..], tail, k)
    ensures LastIsEmpty(basis, cs, tail) <==> LastIsEmpty(basis, cs[1..], tail)
  {
    hide StallsAt;
    if k: nat :| StopsAt(basis, cs, tail, k) {
      StallsLater(basis, cs, 0);
      StallsLater(basis, cs, k - 1);
      assert StopsAt(basis, cs[1..], tail, k - 1);
    }
    if k: nat :| StopsAt(basis, cs[1..], tail, k) {
      StallsLater(basis, cs, k);
      assert StopsAt(basis, cs, tail, k + 1);
    }
    StallsLater(basis, cs, if |cs| >= 2 then |cs| - 2 else 0);
  }

  /** A command that does not pass settles everything. */
  lemma {:induction false} StallsHere(basis: seq<Byte>, cs: seq<Cmd>, k: nat)
    requires cs != [] && !Passes(basis, cs[0])
    ensures StallsAt(basis, cs, k) <==> k == 0 && cs[0].Copy? && cs[0].len == 0
  {
    var c := cs[0];
    assert k > 0 && StallsAt(basis, cs, k) ==> Passes(basis, c);
  }

  /** When carrying out commands never ends, and when it is stopped for making no progress. */
  lemma {:induction false} PerformBlocksIff(basis: seq<Byte>, cs: seq<Cmd>, tail: seq<Byte>)
    ensures Perform(basis, cs, tail).res == Blocked
       <==> LastIsEmpty(basis, cs, tail) || (AllPass(basis, cs) && Decode(basis, tail).res == Blocked)
    ensures Perform(basis, cs, tail).res == InternalError
       <==> || (exists k: nat :: StopsAt(basis, cs, tail, k))
            || (AllPass(basis, cs) && Decode(basis, tail).res == InternalError)
    decreases |cs|
  {
    hide Decode;
    if cs != [] {
      hide StallsAt;
      if Passes(basis, cs[0]) {
        PerformBlocksIff(basis, cs[1..], tail);
        StopsLater(basis, cs, tail);
        assert AllPass(basis, cs) <==> AllPass(basis, cs[1..]);
      } else {
        forall k: nat
          ensures StallsAt(basis, cs, k) <==> k == 0 && cs[0].Copy? && cs[0].len == 0
        {
          StallsHere(basis, cs, k);
        }
        assert (exists k: nat :: StopsAt(basis, cs, tail, k)) <==> StopsAt(basis, cs, tail, 0);
      }
    }
  }

  /** The commands of a delta whose magic number is right. */
  predicate HasMagic(delta: seq<Byte>) {
    |delta| >= 4 && ToInt32(DecodeInt(delta[..4])) == DELTA_MAGIC
  }

  /** A delta the patch job never finishes: cut inside its magic number or inside a parameter
      the job gets to, or with a copy of no bytes that the job gets to and that is the last
      there is. */
  ghost predicate Hangs(basis: seq<Byte>, delta: seq<Byte>) {
    || 0 < |delta| < 4
    || (HasMagic(delta) &&
        var s := ReadAll(delta[4..]);
        LastIsEmpty(basis, s.cs, s.tail) || (AllPass(basis, s.cs) && DecodeHead(s.tail).Partial?))
  }

  /** A delta whose patch job is stopped for making no progress: with a copy of no bytes that
      the job gets to, and at least one byte behind it. */
  ghost predicate Stops(basis: seq<Byte>, delta: seq<Byte>) {
    HasMagic(delta) &&
    var s := ReadAll(delta[4..]);
    exists k: nat :: StopsAt(basis, s.cs, s.tail, k)
  }

  lemma {:induction false} PatchBlocksIff(basis: seq<Byte>, delta: seq<Byte>)
    ensures PatchOf(basis, delta).res == Blocked <==> Hangs(basis, delta)
    ensures PatchOf(basis, delta).res == InternalError <==> Stops(basis, delta)
  {
    hide Decode, ReadAll, ReadOne, DecodeHead, Perform, StopsAt, LastIsEmpty, DecodeInt;
    if HasMagic(delta) {
      var s := ReadAll(delta[4..]);
      DecodeIsPerform(basis, delta[4..]);
      PerformBlocksIff(basis, s.cs, s.tail);
      TailIsUnreadable(delta[4..]);
      if AllPass(basis, s.cs) {
        assert End in s.cs ==> Passes(basis, End);
        UnreadableFate(basis, s.tail);
      }
    }
  }

  /** A list of commands that ends, with every copy non-empty and inside the basis. */
  predicate WellFormed(basis: seq<Byte>, cs: seq<Cmd>) {
    cs != [] && cs[|cs| - 1] == End && forall k :: 0 <= k < |cs| - 1 ==> Passes(basis, cs[k])
  }

  /** The bytes a command stands for. */
  function Content(basis: seq<Byte>, c: Cmd): (data: seq<Byte>)
    requires Passes(basis, c)
  {
    if c.Literal? then c.data else basis[c.pos..c.pos + c.len]
  }

  /** The contents of all commands but the last. */
  function Contents(basis: seq<Byte>, cs: seq<Cmd>): (data: seq<Byte>)
    requires WellFormed(basis, cs)
  {
    if |cs| == 1 then [] else Content(basis, cs[0]) + Contents(basis, cs[1..])
  }

  lemma {:induction false} PerformWellFormed(basis: seq<Byte>, cs: seq<Cmd>, tail: seq<Byte>)
    requires WellFormed(basis, cs)
    ensures Perform(basis, cs, tail) == Outcome(Contents(basis, cs), Done)
    decreases |cs|
  {
    if |cs| > 1 {
      assert Passes(basis, cs[0]);
      forall k | 0 <= k < |cs[1..]| - 1 ensures Passes(basis, cs[1..][k]) {
        assert Passes(basis, cs[k + 1]);
      }
      PerformWellFormed(basis, cs[1..], tail);
    }
  }

  /** The delta file that holds a list of commands. */
  function DeltaFileOf(cs: seq<Cmd>): (delta: seq<Byte>)
    requires AllEncodable(cs)
  {
    EncodeInt(DELTA_MAGIC, 4) + EncodeAll(cs)
  }

  /** The lengths the decoder's `int` can hold. */
  predicate LiteralsFit(cs: seq<Cmd>) {
    forall c <- cs :: c.Literal? ==> |c.data| < TWO_31
  }

  /** Every well-formed delta is finished, with exactly the contents of its commands. */
  lemma {:induction false} PatchOfWellFormed(basis: seq<Byte>, cs: seq<Cmd>)
    requires AllEncodable(cs) && LiteralsFit(cs) && WellFormed(basis, cs)
    ensures PatchOf(basis, DeltaFileOf(cs)) == Outcome(Contents(basis, cs), Done)
    ensures !Hangs(basis, DeltaFileOf(cs)) && !Stops(basis, DeltaFileOf(cs))
  {
    hide Decode, EncodeInt, DecodeInt, EncodeAll, Hangs, Stops, Perform, Contents;
    PatchOfCommands(basis, cs);
    PerformWellFormed(basis, cs, []);
    PatchBlocksIff(basis, DeltaFileOf(cs));
  }

  lemma {:induction false} PatchOfCommands(basis: seq<Byte>, cs: seq<Cmd>)
    requires AllEncodable(cs) && LiteralsFit(cs)
    ensures PatchOf(basis, DeltaFileOf(cs)) == Perform(basis, cs, [])
  {
    hide Decode, EncodeInt, DecodeInt, EncodeAll, Perform;
    HeadField(DELTA_MAGIC, EncodeAll(cs), 4);
    DecodeOfCommands(basis, cs, []);
    assert EncodeAll(cs) + [] == EncodeAll(cs);
  }

  /** A copy of no bytes behind commands that pass: with nothing behind it the job never ends,
      and with anything behind it the job is stopped. */
  lemma {:induction false} EmptyCopyFate(basis: seq<Byte>, front: seq<Cmd>, pos: nat, behind: seq<Cmd>)
    requires AllPass(basis, front) && pos < TWO_63
    requires AllEncodable(front + [Copy(pos, 0)] + behind) && LiteralsFit(front + [Copy(pos, 0)] + behind)
    ensures PatchOf(basis, DeltaFileOf(front + [Copy(pos, 0)] + behind)).res
         == if behind == [] then Blocked else InternalError
  {
    hide Perform, PatchOf;
    var all := front + [Copy(pos, 0)] + behind;
    PatchOfCommands(basis, all);
    PerformBlocksIff(basis, all, []);
    assert StallsAt(basis, all, |front|);
    assert behind != [] ==> StopsAt(basis, all, [], |front|);
  }

  /** A delta cut between the two parameters of a copy never ends. */
  lemma {:induction false} CutCopyHangs(basis: seq<Byte>, pos: Byte)
    ensures PatchOf(basis, EncodeInt(DELTA_MAGIC, 4) + [OP_COPY_N1_N1, pos]).res == Blocked
  {
    hide EncodeInt, DecodeInt;
    HeadField(DELTA_MAGIC, [OP_COPY_N1_N1, pos], 4);
  }

  // ---------------------------------------------------------------------
  // Signature files that let the loader finish
  // ---------------------------------------------------------------------

  /** Whole entries, and m bytes more. */
  lemma {:induction false} SumsByCount(strongLen: nat, n: nat, s: seq<Byte>, q: nat, m: nat)
    requires |s| == q * (4 + strongLen) + m && m < 4 + strongLen
    ensures LoadSums(strongLen, n, s).1 == if m == 0 then Done else if m == 4 then InputEnded else Blocked
    decreases q
  {
    var w := 4 + strongLen;
    if q == 0 {
      assert |s| == m;
    } else {
      assert q * w == (q - 1) * w + w && (q - 1) * w >= 0;
      assert s[4..][strongLen..] == s[w..];
      SumsByCount(strongLen, n + 1, s[w..], q - 1, m);
      assert LoadSums(strongLen, n, s) == LoadStrongSum(strongLen, n, DecodeInt(s[..4]), s[4..]);
    }
  }

  lemma {:induction false} SumsBlockIff(strongLen: nat, n: nat, s: seq<Byte>)
    ensures LoadSums(strongLen, n, s).1 == Blocked <==> |s| % (4 + strongLen) != 0 && |s| % (4 + strongLen) != 4
  {
    hide LoadSums;
    var w := 4 + strongLen;
    assert |s| == |s| / w * w + |s| % w;
    SumsByCount(strongLen, n, s, |s| / w, |s| % w);
  }

  /** A field of four bytes is cut. */
  predicate CutField(s: seq<Byte>) {
    0 < |s| < 4
  }

  function Field(s: seq<Byte>): (v: int)
    requires |s| >= 4
  {
    ToInt32(DecodeInt(s[..4]))
  }

  /** A signature file the loader never finishes: cut inside a field it gets to. */
  predicate CutShort(s: seq<Byte>) {
    || CutField(s)
    || (&& |s| >= 4 && Field(s) == SIG_MAGIC
        && (|| CutField(s[4..])
            || (&& |s| >= 8 && Field(s[4..]) >= 1
                && (|| CutField(s[8..])
                    || (|s| >= 12 && CutSums(Field(s[8..]), |s| - 12))))))
  }

  /** n bytes are not a whole number of entries, not even with a strong sum missing. */
  predicate CutSums(strongLen: int, n: nat) {
    0 <= strongLen <= STRONG_LENGTH && n % (4 + strongLen) != 0 && n % (4 + strongLen) != 4
  }

  lemma {:induction false} LoadBlocksIff(s: seq<Byte>)
    ensures LoadOf(s).res == Blocked <==> CutShort(s)
  {
    hide LoadSums, DecodeInt, CutSums, ToInt32;
    if |s| >= 8 {
      assert s[4..][..4] == s[4..8];
      assert s[4..][4..] == s[8..];
      if |s| >= 12 {
        assert s[8..][4..] == s[12..];
        StrongLenBlocksIff(Field(s[4..]), s[8..]);
      }
    }
  }

  /** No load is ever stopped for making no progress. */
  lemma {:induction false} LoadNeverStops(s: seq<Byte>)
    ensures LoadOf(s).res in {Done, Blocked, InputEnded, BadMagic, Corrupt}
  {
    hide LoadSums, DecodeInt, ToInt32;
    if |s| >= 12 {
      assert s[4..][4..][4..] == s[12..];
      if 0 <= Field(s[4..][4..]) {
        SumsResults(Field(s[4..][4..]), 0, s[12..]);
      }
    }
  }

  lemma {:induction false} SumsResults(strongLen: nat, n: nat, s: seq<Byte>)
    ensures LoadSums(strongLen, n, s).1 in {Done, Blocked, InputEnded}
  {
    hide LoadSums;
    var w := 4 + strongLen;
    assert |s| == |s| / w * w + |s| % w;
    SumsByCount(strongLen, n, s, |s| / w, |s| % w);
  }

  lemma {:induction false} StrongLenBlocksIff(b: int, s: seq<Byte>)
    requires |s| >= 4
    ensures LoadAtStrongLen(b, s).res == Blocked <==> CutSums(Field(s), |s| - 4)
  {
    hide LoadSums, DecodeInt, ToInt32;
    var l := Field(s);
    if 0 <= l <= STRONG_LENGTH {
      SumsBlockIff(l, 0, s[4..]);
    }
  }
}
