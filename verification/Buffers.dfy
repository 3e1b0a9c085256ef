/** The memory behind the job's byte strings: the fixed write buffer of the tube, the
    growing buffer of the scoop, and the caller's input and output buffers.  Each method
    has the effect that the job's method of the same name has on the strings. */
module Buffers {
  import opened Bytes
  import Jobs

  /** memcpy, or memmove towards the front when both are the same array. */
  method Move(dst: array<Byte>, to: nat, src: array<Byte>, from: nat, n: nat)
    requires to + n <= dst.Length && from + n <= src.Length
    requires dst == src ==> to <= from
    modifies dst
    ensures dst[to..to + n] == old(src[from..from + n])
    ensures dst[..to] == old(dst[..to])
    ensures dst[to + n..] == old(dst[to + n..])
  {
    for i := 0 to n
      invariant forall p :: to <= p < to + i ==> dst[p] == old(src[p - to + from])
      invariant forall p :: from + i <= p < from + n ==> src[p] == old(src[p])
      invariant forall p :: 0 <= p < to ==> dst[p] == old(dst[p])
      invariant forall p :: to + i <= p < dst.Length ==> dst[p] == old(dst[p])
    {
      dst[to + i] := src[from + i];
    }
    assert dst[to..to + n] == old(src[from..from + n]);
    assert dst[..to] == old(dst[..to]);
    assert dst[to + n..] == old(dst[to + n..]);
  }

  lemma {:induction false} Slices(s: seq<Byte>, a: nat, b: nat, k: nat)
    requires a + k <= b <= |s|
    ensures s[a..b][..k] == s[a..a + k] && s[a..b][k..] == s[a + k..b]
  {
  }

  lemma {:induction false} Extended(s: seq<Byte>, a: nat, b: nat)
    requires a <= b <= |s|
    ensures s[..b] == s[..a] + s[a..b]
  {
  }

  class Memory {
    // The tube.
    const writeBuf: array<Byte>
    var writeLen: nat

    // The scoop.
    var scoopBuf: array<Byte>
    var scoopNext: nat
    var scoopAvail: nat

    // The stream.
    const input: array<Byte>
    var nextIn: nat
    var availIn: nat
    const output: array<Byte>
    var nextOut: nat
    var availOut: nat

    /** What the caller has already taken out of its output buffer. */
    ghost var drained: seq<Byte>

    ghost predicate Valid()
      reads this
    {
      && writeBuf.Length == Jobs.TUBE_SIZE && writeLen <= Jobs.TUBE_SIZE
      && scoopNext + scoopAvail <= scoopBuf.Length
      && nextIn + availIn <= input.Length && nextOut + availOut <= output.Length
      && writeBuf != scoopBuf && writeBuf != input && writeBuf != output
      && scoopBuf != input && scoopBuf != output && input != output
    }

    ghost function Queued(): (r: seq<Byte>)
      requires Valid()
      reads this, writeBuf
    {
      writeBuf[..writeLen]
    }

    ghost function Scoop(): (r: seq<Byte>)
      requires Valid()
      reads this, scoopBuf
    {
      scoopBuf[scoopNext..scoopNext + scoopAvail]
    }

    ghost function Input(): (r: seq<Byte>)
      requires Valid()
      reads this, input
    {
      input[nextIn..nextIn + availIn]
    }

    /** What the caller will find in its output buffer. */
    ghost function Stored(): (r: seq<Byte>)
      requires Valid()
      reads this, output
    {
      output[..nextOut]
    }

    /** Everything ever stored through the output cursor. */
    ghost function Delivered(): (r: seq<Byte>)
      requires Valid()
      reads this, output
    {
      drained + Stored()
    }

    constructor (input: array<Byte>, availIn: nat, output: array<Byte>)
      requires input != output && availIn <= input.Length
      ensures Valid() && fresh(writeBuf) && fresh(scoopBuf) && this.input == input && this.output == output
      ensures Queued() == [] && Scoop() == [] && Input() == input[..availIn] && Delivered() == []
      ensures availOut == output.Length
    {
      this.input, this.availIn, this.output := input, availIn, output;
      writeBuf := new Byte[Jobs.TUBE_SIZE];
      scoopBuf := new Byte[0];
      writeLen, scoopNext, scoopAvail, nextIn, nextOut, availOut, drained := 0, 0, 0, 0, 0, output.Length, [];
    }

    /** rs_tube_write. */
    method TubeWrite(data: array<Byte>, len: nat)
      requires Valid() && len <= data.Length && data != writeBuf && |Queued()| + len <= Jobs.TUBE_SIZE
      modifies `writeLen, writeBuf
      ensures Valid() && Queued() == old(Queued()) + old(data[..len])
    {
      Move(writeBuf, writeLen, data, 0, len);
      writeLen := writeLen + len;
      Extended(writeBuf[..], writeLen - len, writeLen);
    }

    /** rs_tube_catchup_write. */
    method CatchupWrite()
      requires Valid() && Queued() != []
      modifies `writeLen, `nextOut, `availOut, writeBuf, output
      ensures Valid()
      ensures var k := Min(|old(Queued())|, old(availOut));
              && Delivered() == old(Delivered()) + old(Queued())[..k]
              && Queued() == old(Queued())[k..]
              && availOut == old(availOut) - k
    {
      var len := Min(writeLen, availOut);
      if availOut == 0 {
        return;
      }
      Send(writeBuf, 0, len);
      var remain := writeLen - len;
      if remain > 0 {
        Move(writeBuf, 0, writeBuf, len, remain);
      }
      writeLen := remain;
    }

    /** Copy bytes to the output buffer. */
    method Send(src: array<Byte>, from: nat, len: nat)
      requires Valid() && src != output && from + len <= src.Length && len <= availOut
      modifies `nextOut, `availOut, output
      ensures Valid() && Delivered() == old(Delivered()) + src[from..from + len]
      ensures availOut == old(availOut) - len
    {
      ghost var before := Stored();
      Move(output, nextOut, src, from, len);
      nextOut := nextOut + len;
      availOut := availOut - len;
      Extended(output[..], nextOut - len, nextOut);
      Regroup(drained, before, src[from..from + len]);
    }

    /** rs_tube_copy_from_scoop, for a copy of copyLen bytes. */
    method CopyFromScoop(copyLen: nat) returns (thisLen: nat)
      requires Valid()
      modifies `scoopNext, `scoopAvail, `nextOut, `availOut, output
      ensures Valid() && thisLen == Min(copyLen, Min(|old(Scoop())|, old(availOut)))
      ensures Delivered() == old(Delivered()) + old(Scoop())[..thisLen] && Scoop() == old(Scoop())[thisLen..]
      ensures availOut == old(availOut) - thisLen
    {
      thisLen := Min(copyLen, scoopAvail);
      thisLen := Min(thisLen, availOut);
      Send(scoopBuf, scoopNext, thisLen);
      Slices(scoopBuf[..], scoopNext, scoopNext + scoopAvail, thisLen);
      scoopAvail := scoopAvail - thisLen;
      scoopNext := scoopNext + thisLen;
    }

    /** rs_buffers_copy. */
    method BuffersCopy(maxLen: nat) returns (len: nat)
      requires Valid() && maxLen > 0
      modifies `nextIn, `availIn, `nextOut, `availOut, output
      ensures Valid() && len == Min(maxLen, Min(|old(Input())|, old(availOut)))
      ensures Delivered() == old(Delivered()) + old(Input())[..len] && Input() == old(Input())[len..]
      ensures Queued() == old(Queued()) && Scoop() == old(Scoop())
      ensures availOut == old(availOut) - len
    {
      len := Min(maxLen, availIn);
      len := Min(len, availOut);
      if len == 0 {
        return;
      }
      Send(input, nextIn, len);
      Slices(input[..], nextIn, nextIn + availIn, len);
      nextIn := nextIn + len;
      availIn := availIn - len;
    }

    /** Make room for len bytes, with the scooped ones in front. */
    method Gather(len: nat)
      requires Valid() && len > scoopAvail
      modifies `scoopBuf, `scoopNext, scoopBuf
      ensures Valid() && scoopNext == 0 && scoopBuf.Length >= len && Scoop() == old(Scoop())
      ensures scoopBuf == old(scoopBuf) || fresh(scoopBuf)
    {
      if scoopBuf.Length < len {
        var newbuf := new Byte[2 * len];
        if scoopAvail > 0 {
          Move(newbuf, 0, scoopBuf, scoopNext, scoopAvail);
        }
        scoopBuf, scoopNext := newbuf, 0;
      } else {
        Move(scoopBuf, 0, scoopBuf, scoopNext, scoopAvail);
        scoopNext := 0;
      }
    }

    /** rs_scoop_input: the buffer never overflows. */
    method ScoopInput(len: nat)
      requires Valid() && len > |Scoop()|
      modifies `scoopBuf, `scoopNext, `scoopAvail, `nextIn, `availIn, scoopBuf
      ensures Valid()
      ensures var k := Min(len - |old(Scoop())|, |old(Input())|);
              Scoop() == old(Scoop()) + old(Input())[..k] && Input() == old(Input())[k..]
      ensures scoopBuf == old(scoopBuf) || fresh(scoopBuf)
    {
      Gather(len);
      var tocopy := len - scoopAvail;
      tocopy := Min(tocopy, availIn);
      assert tocopy + scoopAvail <= scoopBuf.Length;
      Pour(tocopy);
    }

    /** Take bytes from the input into a scoop whose buffer has room for them. */
    method Pour(n: nat)
      requires Valid() && scoopNext == 0 && scoopAvail + n <= scoopBuf.Length && n <= |Input()|
      modifies `scoopAvail, `nextIn, `availIn, scoopBuf
      ensures Valid() && Scoop() == old(Scoop()) + old(Input())[..n] && Input() == old(Input())[n..]
    {
      var a := scoopAvail;
      Move(scoopBuf, a, input, nextIn, n);
      Slices(input[..], nextIn, nextIn + availIn, n);
      scoopAvail := a + n;
      nextIn := nextIn + n;
      availIn := availIn - n;
      Extended(scoopBuf[..], a, a + n);
    }

    /** rs_scoop_advance: never over a mixture of scoop and input. */
    method ScoopAdvance(len: nat)
      requires Valid() && len <= if Scoop() != [] then |Scoop()| else |Input()|
      modifies `scoopNext, `scoopAvail, `nextIn, `availIn
      ensures Valid()
      ensures old(Scoop()) != [] ==> Scoop() == old(Scoop())[len..] && Input() == old(Input())
      ensures old(Scoop()) == [] ==> Scoop() == [] && Input() == old(Input())[len..]
    {
      if scoopAvail != 0 {
        scoopAvail := scoopAvail - len;
        scoopNext := scoopNext + len;
      } else {
        availIn := availIn - len;
        nextIn := nextIn + len;
      }
    }

    /** The branches of rs_scoop_readahead that take input into the scoop. */
    method ScoopMore(len: nat, ghost eof: bool) returns (r: Jobs.Result)
      requires Valid() && |Scoop()| < len && |Scoop()| + |Input()| > 0
      requires Scoop() == [] ==> |Input()| < len
      modifies `scoopBuf, `scoopNext, `scoopAvail, `nextIn, `availIn, scoopBuf
      ensures Valid() && (r == Jobs.Done ==> |Scoop()| == len)
      ensures scoopBuf == old(scoopBuf) || fresh(scoopBuf)
      ensures Jobs.Sight(r, if r == Jobs.Done then Scoop() else [], Scoop(), Input())
              == Jobs.Readahead(old(Scoop()), old(Input()), eof, len)
    {
      ScoopInput(len);
      return if scoopAvail < len then Jobs.Blocked else Jobs.Done;
    }

    /** rs_scoop_readahead: on success, buf[from..from + len] are the bytes asked for. */
    method ScoopReadahead(len: nat, eof: bool) returns (r: Jobs.Result, buf: array<Byte>, from: nat)
      requires Valid()
      modifies `scoopBuf, `scoopNext, `scoopAvail, `nextIn, `availIn, scoopBuf
      ensures Valid() && from + (if r == Jobs.Done then len else 0) <= buf.Length
      ensures scoopBuf == old(scoopBuf) || fresh(scoopBuf)
      ensures Jobs.Sight(r, if r == Jobs.Done then buf[from..from + len] else [], Scoop(), Input())
              == Jobs.Readahead(old(Scoop()), old(Input()), eof, len)
    {
      buf, from := scoopBuf, 0;
      if scoopAvail >= len {
        assert Scoop()[..len] == scoopBuf[scoopNext..scoopNext + len];
        return Jobs.Done, scoopBuf, scoopNext;
      } else if scoopAvail > 0 {
        r := ScoopMore(len, eof);
        return r, scoopBuf, scoopNext;
      } else if availIn >= len {
        assert Input()[..len] == input[nextIn..nextIn + len];
        return Jobs.Done, input, nextIn;
      } else if availIn > 0 {
        r := ScoopMore(len, eof);
        return r, scoopBuf, scoopNext;
      } else if eof {
        return Jobs.InputEnded, scoopBuf, 0;
      } else {
        return Jobs.Blocked, scoopBuf, 0;
      }
    }

    /** rs_infilebuf_fill, when the input is used up and the file has more. */
    method Fill(data: seq<Byte>)
      requires Valid() && Input() == [] && |data| <= input.Length
      modifies `nextIn, `availIn, input
      ensures Valid() && Input() == data
    {
      Memcpy(input, 0, data);
      nextIn, availIn := 0, |data|;
    }

    /** rs_outfilebuf_drain: the caller takes what was stored. */
    method Drain()
      requires Valid()
      modifies `nextOut, `availOut, `drained
      ensures Valid() && Delivered() == old(Delivered()) && availOut == output.Length
    {
      drained := Delivered();
      nextOut, availOut := 0, output.Length;
    }
  }
}
