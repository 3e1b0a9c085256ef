/** The delta command language: the opcode table of prototab.c, the encoder of
    emit.c as a function, and the decoder's view of a command at the head of a
    byte string. */
module Commands {
  import opened Bytes
  import opened NetInt

  const DELTA_MAGIC := 0x72730236
  const SIG_MAGIC := 0x72730136

  const OP_END: Byte := 0
  const OP_LITERAL_N1: Byte := 0x41
  const OP_LITERAL_N2: Byte := 0x42
  const OP_LITERAL_N4: Byte := 0x43
  const OP_COPY_N1_N1: Byte := 0x45
  const OP_COPY_N2_N1: Byte := 0x49
  const OP_COPY_N4_N1: Byte := 0x4d
  const OP_COPY_N8_N1: Byte := 0x51

  datatype Kind = KindEnd | KindLiteral | KindCopy | KindReserved

  /** One row of rs_prototab. */
  datatype Entry = Entry(kind: Kind, immediate: nat, len1: nat, len2: nat)

  const INT_LENGTHS := [1, 2, 4, 8]

  function Prototab(op: Byte): (r: Entry) {
    if op == 0 then Entry(KindEnd, 0, 0, 0)
    else if op <= 0x40 then Entry(KindLiteral, op, 0, 0)
    else if op <= 0x44 then Entry(KindLiteral, 0, INT_LENGTHS[op - 0x41], 0)
    else if op <= 0x54 then Entry(KindCopy, 0, INT_LENGTHS[(op - 0x45) / 4], INT_LENGTHS[(op - 0x45) % 4])
    else Entry(KindReserved, op, 0, 0)
  }

  /** What a delta is made of. */
  datatype Cmd =
    | Literal(data: seq<Byte>)
    | Copy(pos: nat, len: nat)
    | End

  /** The commands the encoder has a representation for. */
  predicate Encodable(c: Cmd) {
    match c
    case Literal(data) => |data| < TWO_32
    case Copy(pos, len) => pos < TWO_63 && len < TWO_63
    case End => true
  }

  function LiteralOp(len: nat): (r: Byte) {
    match IntLen(len)
    case 1 => OP_LITERAL_N1
    case 2 => OP_LITERAL_N2
    case _ => OP_LITERAL_N4
  }

  function CopyOp(pos: nat, len: nat): (r: Byte) {
    var base: int := match IntLen(pos)
      case 8 => OP_COPY_N8_N1
      case 4 => OP_COPY_N4_N1
      case 2 => OP_COPY_N2_N1
      case _ => OP_COPY_N1_N1;
    match IntLen(len)
    case 1 => base
    case 2 => base + 1
    case 4 => base + 2
    case _ => base + 3
  }

  function LiteralHead(len: nat): (r: seq<Byte>)
    ensures 2 <= |r| <= 9
  {
    [LiteralOp(len)] + EncodeInt(len, IntLen(len))
  }

  function CopyHead(pos: nat, len: nat): (r: seq<Byte>)
    ensures 3 <= |r| <= 17
  {
    [CopyOp(pos, len)] + EncodeInt(pos, IntLen(pos)) + EncodeInt(len, IntLen(len))
  }

  /** The command byte and its parameters. */
  function EncodeHead(c: Cmd): (r: seq<Byte>)
    requires Encodable(c)
    ensures 1 <= |r| <= 17
  {
    match c
    case Literal(data) => LiteralHead(|data|)
    case Copy(pos, len) => CopyHead(pos, len)
    case End => [OP_END]
  }

  function Payload(c: Cmd): (r: seq<Byte>) {
    if c.Literal? then c.data else []
  }

  function Encode(c: Cmd): (r: seq<Byte>)
    requires Encodable(c)
  {
    EncodeHead(c) + Payload(c)
  }

  predicate AllEncodable(cs: seq<Cmd>) {
    forall c <- cs :: Encodable(c)
  }

  function EncodeAll(cs: seq<Cmd>): (r: seq<Byte>)
    requires AllEncodable(cs)
  {
    if cs == [] then [] else Encode(cs[0]) + EncodeAll(cs[1..])
  }

  lemma {:induction false} EncodeAllOfCons(c: Cmd, cs: seq<Cmd>)
    requires Encodable(c) && AllEncodable(cs)
    ensures AllEncodable([c] + cs)
    ensures EncodeAll([c] + cs) == Encode(c) + EncodeAll(cs)
  {
    assert ([c] + cs)[1..] == cs;
  }

  /** What the decoder finds at the head of the remaining delta. */
  datatype Head =
    | NoInput                                              // nothing left
    | Partial                                              // a command cut inside its parameters
    | Ended                                                // cut exactly between opcode and parameters
    | Head(entry: Entry, param1: int, param2: int, size: nat)

  function DecodeHead(s: seq<Byte>): (h: Head)
    ensures h.Head? ==> h.size <= |s|
  {
    if s == [] then NoInput else
    var e := Prototab(s[0]);
    var n := e.len1 + e.len2;
    if e.len1 == 0 then Head(e, e.immediate, 0, 1)
    else if |s| == 1 then Ended
    else if |s| < 1 + n then Partial
    else Head(e, ToInt64(DecodeInt(s[1..1 + e.len1])),
              if e.len2 == 0 then 0 else ToInt64(DecodeInt(s[1 + e.len1..1 + n])), 1 + n)
  }

  /** The decoder reads back exactly the command that was written. */
  lemma {:induction false} DecodeOfEncodeHead(c: Cmd, tail: seq<Byte>)
    requires Encodable(c)
    ensures var h := DecodeHead(EncodeHead(c) + tail);
            && h.Head? && h.size == |EncodeHead(c)|
            && match c
               case Literal(data) => h.entry.kind == KindLiteral && h.param1 == |data|
               case Copy(pos, len) => h.entry.kind == KindCopy && h.param1 == pos && h.param2 == len
               case End => h.entry.kind == KindEnd
  {
    match c
    case Literal(data) => DecodeOfLiteral(data, tail);
    case Copy(pos, len) => DecodeOfCopy(pos, len, tail);
    case End =>
  }

  lemma {:induction false} DecodeOfLiteral(data: seq<Byte>, tail: seq<Byte>)
    requires |data| < TWO_32
    ensures var h := DecodeHead(EncodeHead(Literal(data)) + tail);
            h.Head? && h.size == |EncodeHead(Literal(data))| && h.entry.kind == KindLiteral && h.param1 == |data|
  {
    var n := IntLen(|data|);
    var p := EncodeInt(|data|, n);
    var s := EncodeHead(Literal(data)) + tail;
    IntFits(|data|);
    LiteralEntry(|data|);
    assert s[0] == LiteralOp(|data|) && |s| >= 1 + n;
    assert s[1..1 + n] == p;
  }

  lemma {:induction false} DecodeOfCopy(pos: nat, len: nat, tail: seq<Byte>)
    requires pos < TWO_63 && len < TWO_63
    ensures var h := DecodeHead(EncodeHead(Copy(pos, len)) + tail);
            && h.Head? && h.size == |EncodeHead(Copy(pos, len))| && h.entry.kind == KindCopy
            && h.param1 == pos && h.param2 == len
  {
    var p, q := EncodeInt(pos, IntLen(pos)), EncodeInt(len, IntLen(len));
    IntFits(pos);
    IntFits(len);
    CopyEntry(pos, len);
    DecodeOfParts(CopyOp(pos, len), p, q, tail);
    assert EncodeHead(Copy(pos, len)) == [CopyOp(pos, len)] + p + q;
  }

  /** An opcode followed by as many parameter bytes as its table row says. */
  lemma {:induction false} DecodeOfParts(op: Byte, p: seq<Byte>, q: seq<Byte>, tail: seq<Byte>)
    requires Prototab(op).len1 == |p| > 0 && Prototab(op).len2 == |q| > 0
    ensures DecodeHead([op] + p + q + tail)
         == Head(Prototab(op), ToInt64(DecodeInt(p)), ToInt64(DecodeInt(q)), 1 + |p| + |q|)
  {
    var s := [op] + p + q + tail;
    assert s[0] == op && |s| == 1 + |p| + |q| + |tail|;
    assert s[1..1 + |p|] == p;
    assert s[1 + |p|..1 + |p| + |q|] == q;
  }

  lemma {:induction false} LiteralEntry(len: nat)
    requires len < TWO_32
    ensures Prototab(LiteralOp(len)) == Entry(KindLiteral, 0, IntLen(len), 0)
  {
  }

  lemma {:induction false} CopyEntry(pos: nat, len: nat)
    requires pos < TWO_63 && len < TWO_63
    ensures Prototab(CopyOp(pos, len)) == Entry(KindCopy, 0, IntLen(pos), IntLen(len))
  {
  }

  // ---------------------------------------------------------------------
  // Whole command streams
  // ---------------------------------------------------------------------

  datatype Parsed = Parsed(cs: seq<Cmd>) | Unparsable

  function Prepend(c: Cmd, p: Parsed): (r: Parsed) {
    if p.Parsed? then Parsed([c] + p.cs) else p
  }

  /** All commands of a byte string, by the decoder's table. */
  function ParseAll(s: seq<Byte>): (r: Parsed)
    decreases |s|
  {
    if s == [] then Parsed([]) else
    var h := DecodeHead(s);
    if !h.Head? || h.size == 0 then Unparsable else
    var t := s[h.size..];
    match h.entry.kind
    case KindEnd => Prepend(End, ParseAll(t))
    case KindLiteral =>
      if 0 <= h.param1 <= |t| then Prepend(Literal(t[..h.param1]), ParseAll(t[h.param1..])) else Unparsable
    case KindCopy =>
      if h.param1 >= 0 && h.param2 >= 0 then Prepend(Copy(h.param1, h.param2), ParseAll(t)) else Unparsable
    case KindReserved => Unparsable
  }

  lemma {:induction false} ParseCons(c: Cmd, tail: seq<Byte>)
    requires Encodable(c)
    ensures ParseAll(Encode(c) + tail) == Prepend(c, ParseAll(tail))
  {
    hide DecodeHead, EncodeHead;
    var head, t := EncodeHead(c), Payload(c) + tail;
    var s := head + t;
    assert Encode(c) + tail == s;
    DecodeOfEncodeHead(c, t);
    assert s[|head|..] == t;
    match c
    case Literal(data) =>
      assert t[..|data|] == data && t[|data|..] == tail;
    case Copy(pos, len) =>
      assert t == tail;
    case End =>
      assert t == tail;
  }

  /** Any sequence of commands is read back as it was written. */
  lemma {:induction false} ParseOfEncodeAll(cs: seq<Cmd>)
    requires AllEncodable(cs)
    ensures ParseAll(EncodeAll(cs)) == Parsed(cs)
    decreases |cs|
  {
    hide Encode, Encodable, ParseAll;
    if cs == [] {
      ParseNothing();
    } else {
      ParseOfEncodeAll(cs[1..]);
      ParseCons(cs[0], EncodeAll(cs[1..]));
      assert [cs[0]] + cs[1..] == cs;
    }
  }

  lemma {:induction false} ParseNothing()
    ensures ParseAll([]) == Parsed([])
  {
  }
}
