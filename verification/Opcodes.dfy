/** What every opcode of the delta language means, number by number, and how numbers and
    magic words lie in the bytes. */
module Opcodes {
  import opened Bytes
  import opened NetInt
  import opened Commands
  import opened Jobs
  import opened PatchSpec
  import opened Streams
  import opened SigSpec

  // ---------------------------------------------------------------------
  // Numbers
  // ---------------------------------------------------------------------

  /** The most significant byte comes first. */
  lemma {:induction false} FourBytes(a: Byte, b: Byte, c: Byte, d: Byte, four: nat)
    requires four == 4
    ensures EncodeInt(((a * 256 + b) * 256 + c) * 256 + d, four) == [a, b, c, d]
    ensures DecodeInt([a, b, c, d]) == ((a * 256 + b) * 256 + c) * 256 + d
  {
    var x := (a * 256 + b) * 256 + c;
    assert EncodeInt(x * 256 + d, four) == EncodeInt(x, four - 1) + [d];
    assert EncodeInt(x, four - 1) == EncodeInt(a * 256 + b, four - 2) + [c];
    assert EncodeInt(a * 256 + b, four - 2) == EncodeInt(a, four - 3) + [b];
    assert EncodeInt(a, four - 3) == EncodeInt(a / 256, four - 4) + [a];
    Appended([], a);
    Appended([a], b);
    Appended([a, b], c);
    Appended([a, b, c], d);
    assert [a, b] + [c] == [a, b, c] && [a, b, c] + [d] == [a, b, c, d];
  }

  lemma {:induction false} Appended(s: seq<Byte>, x: Byte)
    ensures DecodeInt(s + [x]) == DecodeInt(s) * 256 + x
  {
    assert (s + [x])[..|s|] == s;
  }

  /** The words that open a delta and a signature: "rs", 2 or 1, and "6". */
  lemma {:induction false} MagicBytes()
    ensures EncodeInt(DELTA_MAGIC, 4) == [0x72, 0x73, 0x02, 0x36]
    ensures EncodeInt(SIG_MAGIC, 4) == [0x72, 0x73, 0x01, 0x36]
  {
    FourBytes(0x72, 0x73, 0x02, 0x36, 4);
    FourBytes(0x72, 0x73, 0x01, 0x36, 4);
  }

  /** A delta is refused as such exactly when it does not begin with its four bytes. */
  lemma {:induction false} WrongMagicIff(basis: seq<Byte>, delta: seq<Byte>)
    requires |delta| >= 4
    ensures delta[..4] != [0x72, 0x73, 0x02, 0x36] ==> PatchOf(basis, delta) == Outcome([], BadMagic)
    ensures delta[..4] == [0x72, 0x73, 0x02, 0x36] ==> PatchOf(basis, delta) == Decode(basis, delta[4..])
  {
    hide Decode, DecodeInt, EncodeInt;
    var s := delta[..4];
    assert s == [s[0], s[1], s[2], s[3]];
    FourBytes(s[0], s[1], s[2], s[3], 4);
    DeltaWord(s[0], s[1], s[2], s[3]);
  }

  lemma {:induction false} DeltaWord(a: Byte, b: Byte, c: Byte, d: Byte)
    ensures ToInt32(((a * 256 + b) * 256 + c) * 256 + d) == 0x72730236 <==> [a, b, c, d] == [0x72, 0x73, 0x02, 0x36]
  {
    var x := ((a * 256 + b) * 256 + c) * 256 + d;
    assert 0 <= x < TWO_32;
    if x == 0x72730236 {
      assert d == x % 256 && c == x / 256 % 256 && b == x / 65536 % 256 && a == x / 16777216;
    }
  }

  // ---------------------------------------------------------------------
  // Opcodes
  // ---------------------------------------------------------------------

  /** 0 ends the delta, whatever follows. */
  lemma {:induction false} OpcodeEnd(basis: seq<Byte>, tail: seq<Byte>)
    ensures ReadOne([0] + tail) == Read(End, 1) && Decode(basis, [0] + tail) == Outcome([], Done)
  {
    assert ([0] + tail)[0] == 0;
  }

  /** 1 to 64 announce that many literal bytes. */
  lemma {:induction false} OpcodeShortLiteral(basis: seq<Byte>, data: seq<Byte>, tail: seq<Byte>)
    requires 1 <= |data| <= 64
    ensures ReadOne([|data|] + data + tail) == Read(Literal(data), 1 + |data|)
    ensures Decode(basis, [|data|] + data + tail) == Before(data, Decode(basis, tail))
  {
    var s := [|data|] + data + tail;
    assert s[0] == |data| && s[1..1 + |data|] == data && s[1 + |data|..] == tail;
    assert ReadOne(s) == Read(Literal(data), 1 + |data|);
    hide Decode, ReadOne;
    DecodeStep(basis, s);
  }

  /** Patching with one such literal and an end writes it, whatever the basis. */
  lemma {:induction false} ShortLiteralDelta(basis: seq<Byte>, data: seq<Byte>)
    requires 1 <= |data| <= 64
    ensures PatchOf(basis, [0x72, 0x73, 0x02, 0x36] + [|data|] + data + [0]) == Outcome(data, Done)
  {
    hide Decode;
    var delta := [0x72, 0x73, 0x02, 0x36] + [|data|] + data + [0];
    assert delta[..4] == [0x72, 0x73, 0x02, 0x36] && delta[4..] == [|data|] + data + [0];
    WrongMagicIff(basis, delta);
    OpcodeShortLiteral(basis, data, [0]);
    OpcodeEnd(basis, []);
    assert [0] + [] == [0];
    assert data + [] == data;
  }

  /** The lengths of parameters, in the order of their opcodes. */
  function ParamLen(i: nat): (n: nat)
    requires i < 4
  {
    if i == 0 then 1 else if i == 1 then 2 else if i == 2 then 4 else 8
  }

  /** The largest number that a parameter of n bytes holds and a signed long keeps. */
  predicate ParamFits(v: nat, n: nat) {
    v < TWO_63 && (n == 1 ==> v < 0x100) && (n == 2 ==> v < 0x1_0000) && (n == 4 ==> v < 0x1_0000_0000)
  }

  lemma {:induction false} ParamIsRead(v: nat, n: nat)
    requires n in {1, 2, 4, 8} && ParamFits(v, n)
    ensures ToInt64(DecodeInt(EncodeInt(v, n))) == v
  {
    Powers();
    DecodeOfEncode(v, n);
  }

  /** 0x41 to 0x44 announce a literal whose length follows in 1, 2, 4 or 8 bytes. */
  lemma {:induction false} OpcodeLiteral(basis: seq<Byte>, i: nat, data: seq<Byte>, tail: seq<Byte>)
    requires i < 4 && ParamFits(|data|, ParamLen(i)) && |data| < TWO_31
    ensures var s := [0x41 + i] + EncodeInt(|data|, ParamLen(i)) + data + tail;
            && ReadOne(s) == Read(Literal(data), 1 + ParamLen(i) + |data|)
            && Decode(basis, s) == Before(data, Decode(basis, tail))
  {
    hide EncodeInt, DecodeInt, Decode, DecodeHead;
    var n := ParamLen(i);
    var p := EncodeInt(|data|, n);
    var s := [0x41 + i] + p + data + tail;
    ParamIsRead(|data|, n);
    LiteralHeadIs(i, p, data + tail);
    assert s == [0x41 + i] + p + (data + tail);
    Behind([0x41 + i] + p, data, tail);
    assert ReadOne(s) == Read(Literal(data), 1 + n + |data|);
    hide ReadOne;
    DecodeStep(basis, s);
  }

  lemma {:induction false} Behind(head: seq<Byte>, data: seq<Byte>, tail: seq<Byte>)
    ensures var s := head + data + tail; s[|head|..|head| + |data|] == data && s[|head| + |data|..] == tail
  {
  }

  lemma {:induction false} LiteralHeadIs(i: nat, p: seq<Byte>, tail: seq<Byte>)
    requires i < 4 && |p| == ParamLen(i)
    ensures var h := DecodeHead([0x41 + i] + p + tail);
            h.Head? && h.size == 1 + |p| && h.entry.kind == KindLiteral && h.param1 == ToInt64(DecodeInt(p))
  {
    hide DecodeInt;
    var s := [0x41 + i] + p + tail;
    assert s[0] == 0x41 + i && s[1..1 + |p|] == p;
  }

  /** 0x44 reads eight bytes.  The value is kept as a signed long, refused if it is negative,
      and narrowed to an int when the literal is queued. */
  lemma {:induction false} OpcodeLongLiteral(basis: seq<Byte>, v: nat, tail: seq<Byte>)
    requires v < TWO_64
    ensures var o := Decode(basis, [0x44] + EncodeInt(v, 8) + tail);
            var n := v % TWO_32;
            if v >= TWO_63 then o == Outcome([], Corrupt)
            else if n >= TWO_31 then o == Outcome([], Aborted)
            else if n > |tail| then o == Outcome(tail, InputEnded)
            else o == Before(tail[..n], Decode(basis, tail[n..]))
  {
    hide EncodeInt, DecodeInt;
    var p := EncodeInt(v, 8);
    var s := [0x44] + p + tail;
    Powers();
    DecodeOfEncode(v, 8);
    LiteralHeadIs(3, p, tail);
    var h := DecodeHead(s);
    assert s[9..] == tail;
    assert Decode(basis, s) == Execute(basis, KindLiteral, h.param1, h.param2, tail);
    hide Decode, DecodeHead;
    if h.param1 >= 0 {
      LiteralStep(basis, h.param1, h.param2, tail);
    } else {
      assert CopyThrough(basis, h.param1, tail) == Outcome([], Corrupt);
    }
  }

  /** 0x45 to 0x54 announce a copy: offset and length follow, each in 1, 2, 4 or 8 bytes. */
  lemma {:induction false} OpcodeCopy(basis: seq<Byte>, i: nat, j: nat, pos: nat, len: nat, tail: seq<Byte>)
    requires i < 4 && j < 4 && ParamFits(pos, ParamLen(i)) && ParamFits(len, ParamLen(j))
    ensures var s := [0x45 + 4 * i + j] + EncodeInt(pos, ParamLen(i)) + EncodeInt(len, ParamLen(j)) + tail;
            && ReadOne(s) == Read(Copy(pos, len), 1 + ParamLen(i) + ParamLen(j))
            && (0 < len && pos + len <= |basis| ==>
                  Decode(basis, s) == Before(basis[pos..pos + len], Decode(basis, tail)))
            && (0 < len && pos + len > |basis| ==> Decode(basis, s) == Outcome(From(basis, pos), InputEnded))
  {
    hide EncodeInt, DecodeInt;
    var m, n := ParamLen(i), ParamLen(j);
    var p, q := EncodeInt(pos, m), EncodeInt(len, n);
    var s := [0x45 + 4 * i + j] + p + q + tail;
    ParamIsRead(pos, m);
    ParamIsRead(len, n);
    CopyRow(i, j);
    DecodeOfParts(0x45 + 4 * i + j, p, q, tail);
    assert s[1 + m + n..] == tail;
    hide Decode, DecodeHead, Prototab;
    DecodeStep(basis, s);
  }

  lemma {:induction false} CopyRow(i: nat, j: nat)
    requires i < 4 && j < 4
    ensures Prototab(0x45 + 4 * i + j) == Entry(KindCopy, 0, ParamLen(i), ParamLen(j))
  {
    assert (4 * i + j) / 4 == i && (4 * i + j) % 4 == j;
  }

  /** From 0x55 on there are no commands. */
  lemma {:induction false} OpcodeReserved(basis: seq<Byte>, op: Byte, tail: seq<Byte>)
    requires op >= 0x55
    ensures ReadOne([op] + tail).Unreadable? && Decode(basis, [op] + tail) == Outcome([], Corrupt)
  {
    assert ([op] + tail)[0] == op;
  }

  // ---------------------------------------------------------------------
  // Signature files
  // ---------------------------------------------------------------------

  /** What the three words of the header decide, and in which order. */
  lemma {:induction false} HeaderDecides(s: seq<Byte>)
    requires |s| >= 12
    ensures var m, b, l := Field(s), Field(s[4..]), Field(s[8..]);
            && (s[..4] != [0x72, 0x73, 0x01, 0x36] ==> LoadOf(s).res == BadMagic)
            && (s[..4] == [0x72, 0x73, 0x01, 0x36] ==>
                  if b < 1 || l < 0 || l > 16 then LoadOf(s).res == Corrupt
                  else LoadOf(s).blockLen == b && LoadOf(s).strongLen == l && LoadOf(s).res !in {BadMagic, Corrupt})
  {
    hide DecodeInt, LoadSums, EncodeInt;
    var t := s[..4];
    assert t == [t[0], t[1], t[2], t[3]];
    FourBytes(t[0], t[1], t[2], t[3], 4);
    SigWord(t[0], t[1], t[2], t[3]);
    assert s[4..][4..] == s[8..];
    var l := Field(s[8..]);
    if l >= 0 {
      SumsResults(l, 0, s[8..][4..]);
    }
  }

  lemma {:induction false} SigWord(a: Byte, b: Byte, c: Byte, d: Byte)
    ensures ToInt32(((a * 256 + b) * 256 + c) * 256 + d) == 0x72730136 <==> [a, b, c, d] == [0x72, 0x73, 0x01, 0x36]
  {
    var x := ((a * 256 + b) * 256 + c) * 256 + d;
    assert 0 <= x < TWO_32;
    if x == 0x72730136 {
      assert d == x % 256 && c == x / 256 % 256 && b == x / 65536 % 256 && a == x / 16777216;
    }
  }
}
