/** What a delta looks like, told from the commands read back from its bytes: it covers the new
    file, finds what there is to be found, and does not split what can be one command. */
module DeltaShape {
  import opened Bytes
  import opened NetInt
  import opened Commands
  import opened Checksums
  import opened Sumset
  import opened Search
  import opened Jobs
  import opened DeltaSpec
  import opened Meaning
  import opened SigSpec
  import opened RoundTrip
  import opened Streams

  // ---------------------------------------------------------------------
  // Reading commands back
  // ---------------------------------------------------------------------

  /** The commands in a delta file. */
  function CommandsIn(delta: seq<Byte>): (cs: seq<Cmd>)
    requires |delta| >= 4
  {
    ReadAll(delta[4..]).cs
  }

  /** Commands that end once, at the end. */
  predicate EndsOnce(cs: seq<Cmd>) {
    cs != [] && forall k :: 0 <= k < |cs| ==> (cs[k] == End <==> k == |cs| - 1)
  }

  lemma {:induction false} ReadOneOfEncode(c: Cmd, tail: seq<Byte>)
    requires Encodable(c) && (c.Literal? ==> |c.data| < TWO_31)
    ensures ReadOne(Encode(c) + tail) == Read(c, |Encode(c)|)
  {
    hide DecodeHead, EncodeHead;
    var head, t := EncodeHead(c), Payload(c) + tail;
    var s := head + t;
    assert Encode(c) + tail == s;
    DecodeOfEncodeHead(c, t);
    if c.Literal? {
      assert s[|head|..|head| + |c.data|] == c.data;
    }
  }

  lemma {:induction false} ReadBack(cs: seq<Cmd>)
    requires AllEncodable(cs) && LiteralsFit(cs) && EndsOnce(cs)
    ensures ReadAll(EncodeAll(cs)) == Stream(cs, [])
    decreases |cs|
  {
    hide ReadOne, Encode;
    var c, more := cs[0], EncodeAll(cs[1..]);
    assert Encodable(c);
    ReadOneOfEncode(c, more);
    assert (Encode(c) + more)[|Encode(c)|..] == more;
    if |cs| > 1 {
      forall k | 0 <= k < |cs[1..]| ensures cs[1..][k] == End <==> k == |cs[1..]| - 1 {
        assert cs[1..][k] == cs[k + 1];
      }
      ReadBack(cs[1..]);
      assert [c] + cs[1..] == cs;
    } else {
      assert cs[1..] == [] && cs == [End];
    }
  }

  lemma {:induction false} CommandsOfDelta(g: Rules, newFile: seq<Byte>)
    requires RulesOk(g) && |newFile| < TWO_63
    ensures var delta := DeltaOf(g, newFile);
            && |delta| >= 4 && CommandsIn(delta) == Scan(g, 0, newFile, Nothing)
            && EndsOnce(CommandsIn(delta)) && ReadAll(delta[4..]).tail == []
  {
    hide Scan, EncodeInt, EncodeAll;
    var cs := Scan(g, 0, newFile, Nothing);
    ScanIsSensible(g, 0, newFile, Nothing);
    forall c <- cs ensures c.Literal? ==> |c.data| < TWO_31 {
      assert Sensible(c, g.outbuflen);
    }
    ReadBack(cs);
    assert (EncodeInt(DELTA_MAGIC, 4) + EncodeAll(cs))[4..] == EncodeAll(cs);
  }

  // ---------------------------------------------------------------------
  // Neighbours
  // ---------------------------------------------------------------------

  /** Two commands that may follow each other: a copy is not continued by the next, and a
      literal only if it fills the output buffer. */
  predicate MayFollow(c: Cmd, d: Cmd, outbuflen: nat) {
    && (c.Copy? && d.Copy? ==> d.pos != c.pos + c.len)
    && (c.Literal? && d.Literal? ==> |c.data| == Max(1, outbuflen))
  }

  predicate Unsplit(cs: seq<Cmd>, outbuflen: nat) {
    forall k :: 0 <= k < |cs| - 1 ==> MayFollow(cs[k], cs[k + 1], outbuflen)
  }

  /** The first command is what the pending item grows into. */
  predicate BeginsWith(cs: seq<Cmd>, p: Pending) {
    cs != [] &&
    match p
    case Nothing => true
    case Miss(data) => cs[0].Literal? && data <= cs[0].data
    case Match(pos, len) => cs[0].Copy? && cs[0].pos == pos && len <= cs[0].len
  }

  lemma {:induction false} StepIsUnsplit(h: Hit, w: nat, first: Byte, p: Pending, outbuflen: nat, cs: seq<Cmd>,
                                         k: nat, q: Pending, rest: seq<Cmd>)
    requires p.Miss? ==> 1 <= |p.data| <= Max(1, outbuflen)
    requires Step(h, w, first, p, outbuflen) == (cs, k, q) && Unsplit(rest, outbuflen) && BeginsWith(rest, q)
    ensures Unsplit(cs + rest, outbuflen) && BeginsWith(cs + rest, p)
  {
    hide Unsplit;
    if cs == [] {
      assert cs + rest == rest;
    } else {
      assert cs == [cs[0]] && cs + rest == [cs[0]] + rest;
      Prefixed(cs[0], rest, outbuflen);
    }
  }

  lemma {:induction false} ScanIsUnsplit(g: Rules, n: nat, u: seq<Byte>, p: Pending)
    requires ScanReady(g, u, p)
    ensures Unsplit(Scan(g, n, u, p), g.outbuflen) && BeginsWith(Scan(g, n, u, p), p)
    decreases |u|
  {
    if u != [] {
      hide Scan, Step, Unsplit, BeginsWith;
      var (cs, k, q) := Step(g.look(n, u), Width(g, u), u[0], p, g.outbuflen);
      ScanStep(g, n, u, p);
      ScanIsUnsplit(g, n + k, u[k..], q);
      StepIsUnsplit(g.look(n, u), Width(g, u), u[0], p, g.outbuflen, cs, k, q, Scan(g, n + k, u[k..], q));
    }
  }

  lemma {:induction false} Prefixed(c: Cmd, cs: seq<Cmd>, outbuflen: nat)
    requires cs != [] && Unsplit(cs, outbuflen) && MayFollow(c, cs[0], outbuflen)
    ensures Unsplit([c] + cs, outbuflen)
  {
    forall k | 0 <= k < |cs| ensures MayFollow(([c] + cs)[k], ([c] + cs)[k + 1], outbuflen) {
      if k > 0 {
        assert MayFollow(cs[k - 1], cs[k], outbuflen);
      }
    }
  }

  /** In no delta is a copy continued by the next one, or a literal by the next one unless the
      output buffer's size was reached. */
  lemma {:induction false} DeltaIsUnsplit(g: Rules, newFile: seq<Byte>, k: nat)
    requires RulesOk(g) && |newFile| < TWO_63
    ensures |DeltaOf(g, newFile)| >= 4
    ensures var cs := CommandsIn(DeltaOf(g, newFile));
            k + 1 < |cs| ==>
              && !(cs[k].Copy? && cs[k + 1].Copy? && cs[k + 1].pos == cs[k].pos + cs[k].len)
              && (cs[k].Literal? && cs[k + 1].Literal? ==> |cs[k].data| == if g.outbuflen == 0 then 1 else g.outbuflen)
  {
    hide Scan, DeltaOf, CommandsIn;
    CommandsOfDelta(g, newFile);
    ScanIsUnsplit(g, 0, newFile, Nothing);
    var cs := CommandsIn(DeltaOf(g, newFile));
    assert k + 1 < |cs| ==> MayFollow(cs[k], cs[k + 1], g.outbuflen);
  }

  // ---------------------------------------------------------------------
  // Finding what there is to be found
  // ---------------------------------------------------------------------

  /** From position o on, windows are found one behind another, and so are the blocks. */
  ghost predicate Found(g: Rules, file: seq<Byte>, o: nat, pos: nat, len: nat)
    requires RulesOk(g)
    decreases len
  {
    && len > 0 && o + len <= |file| && g.look(o, file[o..]) == Hit(pos)
    && var w := Width(g, file[o..]);
       w == len || (w < len && Found(g, file, o + w, pos + w, len - w))
  }

  /** At no position from o on, for n bytes, is the window found. */
  ghost predicate Missed(g: Rules, file: seq<Byte>, o: nat, n: nat)
    requires RulesOk(g)
  {
    o + n <= |file| && forall j :: o <= j < o + n ==> g.look(j, file[j..]).NoHit?
  }

  /** The commands make up the file from position o on. */
  ghost predicate Explains(g: Rules, file: seq<Byte>, o: nat, cs: seq<Cmd>)
    requires RulesOk(g)
    decreases |cs|
  {
    cs != [] &&
    match cs[0]
    case End => |cs| == 1 && o == |file|
    case Literal(data) =>
      && Missed(g, file, o, |data|) && data == file[o..o + |data|]
      && Explains(g, file, o + |data|, cs[1..])
    case Copy(pos, len) => Found(g, file, o, pos, len) && Explains(g, file, o + len, cs[1..])
  }

  function Size(p: Pending): (n: nat) {
    match p
    case Nothing => 0
    case Miss(data) => |data|
    case Match(_, len) => len
  }

  /** The pending item stands for the last bytes before position n. */
  ghost predicate StandsFor(g: Rules, file: seq<Byte>, n: nat, p: Pending)
    requires RulesOk(g)
  {
    && Size(p) <= n <= |file|
    && match p
       case Nothing => true
       case Miss(data) => Missed(g, file, n - |data|, |data|) && data == file[n - |data|..n]
       case Match(pos, len) => Found(g, file, n - len, pos, len)
  }

  lemma {:induction false} FoundMore(g: Rules, file: seq<Byte>, o: nat, pos: nat, len: nat)
    requires RulesOk(g) && Found(g, file, o, pos, len) && o + len < |file|
    requires g.look(o + len, file[o + len..]) == Hit(pos + len)
    ensures Found(g, file, o, pos, len + Width(g, file[o + len..]))
    decreases len
  {
    var w := Width(g, file[o..]);
    if w < len {
      FoundMore(g, file, o + w, pos + w, len - w);
    } else {
      assert Found(g, file, o + len, pos + len, Width(g, file[o + len..]));
    }
  }

  /** A flushed item in front of commands that explain the rest. */
  lemma {:induction false} FlushExplains(g: Rules, file: seq<Byte>, n: nat, p: Pending, cs: seq<Cmd>)
    requires RulesOk(g) && StandsFor(g, file, n, p) && Explains(g, file, n, cs)
    ensures Explains(g, file, n - Size(p), PendCmds(p) + cs)
  {
    match p
    case Nothing => assert PendCmds(p) + cs == cs;
    case Miss(data) => assert ([Literal(data)] + cs)[1..] == cs;
    case Match(pos, len) => assert ([Copy(pos, len)] + cs)[1..] == cs;
  }

  lemma {:induction false} ScanExplains(g: Rules, file: seq<Byte>, n: nat, p: Pending)
    requires n <= |file| && ScanReady(g, file[n..], p) && StandsFor(g, file, n, p)
    ensures Explains(g, file, n - Size(p), Scan(g, n, file[n..], p))
    decreases |file| - n
  {
    var u := file[n..];
    if u == [] {
      FlushExplains(g, file, n, p, [End]);
    } else if g.look(n, u).Hit? {
      HitExplains(g, file, n, p);
    } else {
      MissExplains(g, file, n, p);
    }
  }

  lemma {:induction false} HitExplains(g: Rules, file: seq<Byte>, n: nat, p: Pending)
    requires n < |file| && ScanReady(g, file[n..], p) && StandsFor(g, file, n, p) && g.look(n, file[n..]).Hit?
    ensures Explains(g, file, n - Size(p), Scan(g, n, file[n..], p))
    decreases |file| - n, 0
  {
    hide Scan, Explains;
    var u := file[n..];
    var pos, w := g.look(n, u).pos, Width(g, u);
    ScanHit(g, n, u, p, pos);
    assert u[w..] == file[n + w..];
    if Extends(p, pos) {
      FoundMore(g, file, n - p.len, p.pos, p.len);
      ScanExplains(g, file, n + w, Match(p.pos, p.len + w));
    } else {
      ScanExplains(g, file, n + w, Match(pos, w));
      FlushExplains(g, file, n, p, Scan(g, n + w, u[w..], Match(pos, w)));
    }
  }

  /** One byte more is missed, alone or behind others. */
  lemma {:induction false} MissStands(g: Rules, file: seq<Byte>, n: nat, p: Pending)
    requires RulesOk(g) && n < |file| && StandsFor(g, file, n, p) && g.look(n, file[n..]).NoHit?
    ensures StandsFor(g, file, n + 1, Miss([file[n]]))
    ensures !p.Match? ==> StandsFor(g, file, n + 1, Miss(MissData(p) + [file[n]]))
  {
    MissedMore(g, file, n, 0);
    hide Found, Missed;
    OneMoreByte(file, n, n);
    if p.Miss? {
      MissedMore(g, file, n - |p.data|, |p.data|);
      OneMoreByte(file, n - |p.data|, n);
    }
  }

  lemma {:induction false} MissedMore(g: Rules, file: seq<Byte>, o: nat, n: nat)
    requires RulesOk(g) && Missed(g, file, o, n) && o + n < |file| && g.look(o + n, file[o + n..]).NoHit?
    ensures Missed(g, file, o, n + 1)
  {
  }

  lemma {:induction false} OneMoreByte(file: seq<Byte>, o: nat, n: nat)
    requires o <= n < |file|
    ensures file[o..n + 1] == file[o..n] + [file[n]] && [] + [file[n]] == [file[n]]
  {
  }

  lemma {:induction false} MissExplains(g: Rules, file: seq<Byte>, n: nat, p: Pending)
    requires n < |file| && ScanReady(g, file[n..], p) && StandsFor(g, file, n, p) && g.look(n, file[n..]).NoHit?
    ensures Explains(g, file, n - Size(p), Scan(g, n, file[n..], p))
    decreases |file| - n, 0
  {
    hide Scan, Explains, Found, Missed;
    var u := file[n..];
    ScanMiss(g, n, u, p);
    MissStands(g, file, n, p);
    assert u[1..] == file[n + 1..];
    if MissFlushes(p, g.outbuflen) {
      ScanExplains(g, file, n + 1, Miss([u[0]]));
      FlushExplains(g, file, n, p, Scan(g, n + 1, u[1..], Miss([u[0]])));
    } else {
      ScanExplains(g, file, n + 1, Miss(MissData(p) + [u[0]]));
    }
  }

  // ---------------------------------------------------------------------
  // Position by position
  // ---------------------------------------------------------------------

  function Length(c: Cmd): (n: nat) {
    match c
    case Literal(data) => |data|
    case Copy(_, len) => len
    case End => 0
  }

  /** Where in the new file command k begins. */
  function Position(cs: seq<Cmd>, k: nat): (o: nat)
    requires k <= |cs|
  {
    if k == 0 then 0 else Length(cs[0]) + Position(cs[1..], k - 1)
  }

  lemma {:induction false} ExplainsFrom(g: Rules, file: seq<Byte>, o: nat, cs: seq<Cmd>, k: nat)
    requires RulesOk(g) && Explains(g, file, o, cs) && k < |cs|
    ensures Explains(g, file, o + Position(cs, k), cs[k..])
    decreases k
  {
    if k > 0 {
      hide Found, Missed;
      ExplainsFrom(g, file, o + Length(cs[0]), cs[1..], k - 1);
      assert cs[1..][k - 1..] == cs[k..];
    }
  }

  /** What is found copies the same bytes, if no hit reaches past the end of the old file. */
  lemma {:induction false} FoundCopies(g: Rules, basis: seq<Byte>, file: seq<Byte>, o: nat, pos: nat, len: nat)
    requires Faithful(g, basis) && Found(g, file, o, pos, len)
    requires forall n: nat, u: seq<Byte> :: u != [] && g.look(n, u).Hit? ==> g.look(n, u).pos + Width(g, u) <= |basis|
    ensures pos + len <= |basis| && basis[pos..pos + len] == file[o..o + len]
    decreases len
  {
    var u := file[o..];
    var w := Width(g, u);
    assert g.look(o, u) == Hit(pos);
    var x, y := basis[pos..pos + w], file[o..o + w];
    forall k | 0 <= k < w ensures x[k] == y[k] {
      assert basis[g.look(o, u).pos + k] == u[k];
    }
    if w < len {
      FoundCopies(g, basis, file, o + w, pos + w, len - w);
      assert basis[pos..pos + len] == basis[pos..pos + w] + basis[pos + w..pos + len];
      assert file[o..o + len] == file[o..o + w] + file[o + w..o + len];
    }
    assert basis[pos..pos + w] == file[o..o + w];
  }

  /** The bytes of the window that starts at position j. */
  function WindowAt(b: nat, file: seq<Byte>, j: nat): (w: seq<Byte>)
    requires j <= |file|
  {
    file[j..Min(j + b, |file|)]
  }

  /** Where nothing is found there is no block with the bytes of the window. */
  lemma {:induction false} MissedIsNoBlock(v: SigValue, env: Env, b: nat, strongLen: nat, strongOf: nat -> seq<Byte>,
                                           basis: seq<Byte>, file: seq<Byte>, j: nat, i: nat)
    requires Loaded(v, b, strongLen, strongOf, basis) && Manageable(b, |basis|) && SigOk(v) && EnvOk(env)
    requires j <= |file| && Look(v, env, j, file[j..]).NoHit? && i * b < |basis|
    ensures BlockAt(b, basis, i) != WindowAt(b, file, j)
  {
    hide WeakSum, Find, Indexed, BlocksOf;
    var w := WindowAt(b, file, j);
    LoadedIsOk(v, b, strongLen, strongOf, basis);
    BlockCounted(b, |basis|, i);
    assert file[j..][..Min(b, |file[j..]|)] == w;
    if BlockAt(b, basis, i) == w {
      assert basis[Mul(i, b)..][..|w|] == w;
      assert Matches(v, i, WeakSum(w), w);
    }
    FindAgreesWithScan(v, WeakSum(w), w, env.staleOf(j));
  }

  lemma {:induction false} BlockCounted(b: nat, len: nat, i: nat)
    requires b >= 1 && i * b < len
    ensures i < BlockCount(b, len)
  {
    CountBounds(b, len);
    var n := BlockCount(b, len);
    if i > n {
      AtLeastOnce(i - n, n, b);
    }
  }

  /** A copy begins at a block. */
  lemma {:induction false} FoundAtBlock(v: SigValue, env: Env, file: seq<Byte>, o: nat, pos: nat)
    requires SigOk(v) && EnvOk(env) && o <= |file| && Look(v, env, o, file[o..]) == Hit(pos)
    ensures exists i: nat :: i < |v.blocks| && pos == Mul(i, v.blockLen)
  {
    hide WeakSum, Find, Indexed;
    var w := file[o..][..Min(v.blockLen, |file[o..]|)];
    FindAgreesWithScan(v, WeakSum(w), w, env.staleOf(o));
  }

  /** What a command that begins at position o of the new file is.  A literal byte is one at
      which no block has the bytes of the window, down to the shorter windows at the end; a copy
      is of equal bytes and begins with a block. */
  ghost predicate Greedy(b: nat, basis: seq<Byte>, file: seq<Byte>, o: nat, c: Cmd)
    requires b >= 1
  {
    match c
    case End => o == |file|
    case Literal(data) =>
      && o + |data| <= |file| && data == file[o..o + |data|]
      && forall j: nat, i: nat :: o <= j < o + |data| && i * b < |basis| ==>
                                    BlockAt(b, basis, i) != WindowAt(b, file, j)
    case Copy(pos, len) =>
      && o + len <= |file| && pos + len <= |basis| && file[o..o + len] == basis[pos..pos + len]
      && exists i: nat :: i < BlockCount(b, |basis|) && pos == Mul(i, b)
  }

  lemma {:induction false} FirstIsGreedy(v: SigValue, env: Env, b: nat, strongLen: nat, basis: seq<Byte>,
                                         file: seq<Byte>, o: nat, cs: seq<Cmd>)
    requires Loaded(v, b, strongLen, env.strongOf, basis) && Manageable(b, |basis|) && SigOk(v) && EnvOk(env)
    requires Safe(b, |basis|) && Explains(RulesOf(v, env), file, o, cs)
    ensures Greedy(b, basis, file, o, cs[0])
  {
    assert b >= 1;
    hide Loaded, SigOk, EnvOk, Safe, Manageable, BlockAt, WindowAt, Look, BlockCount, Found, Missed;
    match cs[0]
    case End =>
    case Literal(data) => LiteralsMiss(v, env, b, strongLen, basis, file, o, |data|);
    case Copy(pos, len) => CopiesAreBlocks(v, env, b, strongLen, basis, file, o, pos, len);
  }

  /** For a signature of an old file whose last block is safe, every command of the delta is
      greedy where it begins, and they make up the new file. */
  lemma {:induction false} DeltaIsGreedy(v: SigValue, env: Env, b: nat, strongLen: nat, basis: seq<Byte>,
                                         newFile: seq<Byte>, k: nat)
    requires Loaded(v, b, strongLen, env.strongOf, basis) && Manageable(b, |basis|) && SigOk(v) && EnvOk(env)
    requires Safe(b, |basis|) && |newFile| < TWO_63
    requires k < |CommandsIn(DeltaBy(v, env, newFile))|
    ensures b >= 1
    ensures var cs := CommandsIn(DeltaBy(v, env, newFile)); Greedy(b, basis, newFile, Position(cs, k), cs[k])
  {
    hide Scan, DeltaOf, CommandsIn, Loaded, SigOk, EnvOk, Safe, Greedy, Explains;
    var g, cs := RulesOf(v, env), CommandsIn(DeltaBy(v, env, newFile));
    CommandsOfDelta(g, newFile);
    assert newFile[0..] == newFile;
    ScanExplains(g, newFile, 0, Nothing);
    ExplainsFrom(g, newFile, 0, cs, k);
    FirstIsGreedy(v, env, b, strongLen, basis, newFile, Position(cs, k), cs[k..]);
  }

  lemma {:induction false} LiteralsMiss(v: SigValue, env: Env, b: nat, strongLen: nat, basis: seq<Byte>,
                                        file: seq<Byte>, o: nat, n: nat)
    requires Loaded(v, b, strongLen, env.strongOf, basis) && Manageable(b, |basis|) && SigOk(v) && EnvOk(env)
    requires Missed(RulesOf(v, env), file, o, n)
    ensures o + n <= |file|
    ensures forall j: nat, i: nat :: o <= j < o + n && i * b < |basis| ==> BlockAt(b, basis, i) != WindowAt(b, file, j)
  {
    assert b >= 1;
    hide Loaded, SigOk, EnvOk, Manageable, BlockAt, WindowAt, Look;
    forall j: nat, i: nat | o <= j < o + n && i * b < |basis|
      ensures BlockAt(b, basis, i) != WindowAt(b, file, j)
    {
      assert RulesOf(v, env).look(j, file[j..]).NoHit?;
      LookIs(v, env, j, file[j..]);
      MissedIsNoBlock(v, env, b, strongLen, env.strongOf, basis, file, j, i);
    }
  }

  lemma {:induction false} CopiesAreBlocks(v: SigValue, env: Env, b: nat, strongLen: nat, basis: seq<Byte>,
                                           file: seq<Byte>, o: nat, pos: nat, len: nat)
    requires Loaded(v, b, strongLen, env.strongOf, basis) && Manageable(b, |basis|) && SigOk(v) && EnvOk(env)
    requires Safe(b, |basis|) && Found(RulesOf(v, env), file, o, pos, len)
    ensures o + len <= |file| && pos + len <= |basis| && file[o..o + len] == basis[pos..pos + len]
    ensures b >= 1 && exists i: nat :: i < BlockCount(b, |basis|) && pos == Mul(i, b)
  {
    LoadedIsOk(v, b, strongLen, env.strongOf, basis);
    LoadedNames(v, b, strongLen, env.strongOf, basis);
    assert b >= 1;
    hide Loaded, SigOk, EnvOk, Manageable, Safe, Look, BlockCount;
    RulesAreFaithful(v, env);
    AllStayInside(v, env, b, strongLen, basis);
    FoundCopies(RulesOf(v, env), basis, file, o, pos, len);
    assert RulesOf(v, env).look(o, file[o..]) == Hit(pos);
    LookIs(v, env, o, file[o..]);
    FoundAtBlock(v, env, file, o, pos);
  }

  lemma {:induction false} LookIs(v: SigValue, env: Env, n: nat, u: seq<Byte>)
    requires SigOk(v) && EnvOk(env)
    ensures RulesOf(v, env).look(n, u) == Look(v, env, n, u)
  {
  }

  lemma {:induction false} LoadedNames(v: SigValue, b: nat, strongLen: nat, strongOf: nat -> seq<Byte>,
                                       basis: seq<Byte>)
    requires Loaded(v, b, strongLen, strongOf, basis)
    ensures v.blockLen == b && v.oldFile == basis
  {
  }

  lemma {:induction false} AllStayInside(v: SigValue, env: Env, b: nat, strongLen: nat, basis: seq<Byte>)
    requires Loaded(v, b, strongLen, env.strongOf, basis) && Manageable(b, |basis|) && SigOk(v) && EnvOk(env)
    requires Safe(b, |basis|)
    ensures var g := RulesOf(v, env);
            forall n: nat, u: seq<Byte> :: u != [] && g.look(n, u).Hit? ==> g.look(n, u).pos + Width(g, u) <= |basis|
  {
    hide SigOk, EnvOk, Safe, Manageable, Look, BlocksOf, Indexed;
    var g := RulesOf(v, env);
    forall n: nat, u: seq<Byte> | u != [] && g.look(n, u).Hit?
      ensures g.look(n, u).pos + Width(g, u) <= |basis|
    {
      LookIs(v, env, n, u);
      HitsStayInside(v, env, b, strongLen, basis, n, u);
    }
  }

  ghost function DeltaBy(v: SigValue, env: Env, newFile: seq<Byte>): (r: seq<Byte>)
    requires SigOk(v) && EnvOk(env) && |newFile| < TWO_63
    ensures |r| >= 4
  {
    DeltaOf(RulesOf(v, env), newFile)
  }

  // ---------------------------------------------------------------------
  // A file against itself
  // ---------------------------------------------------------------------

  /** No two blocks have the same sum. */
  ghost predicate Distinct(b: nat, file: seq<Byte>)
    requires b >= 1
  {
    forall i: nat, j: nat :: i < j && j * b < |file| && i * b < |file| ==>
                               WeakSum(BlockAt(b, file, i)) != WeakSum(BlockAt(b, file, j))
  }

  /** Every block is found where it is, whatever the buffer holds. */
  lemma {:induction false} FindsItself(v: SigValue, env: Env, b: nat, strongLen: nat, strongOf: nat -> seq<Byte>,
                                       file: seq<Byte>, i: nat)
    requires Loaded(v, b, strongLen, strongOf, file) && Manageable(b, |file|) && SigOk(v) && EnvOk(env)
    requires Distinct(b, file) && i * b < |file|
    ensures Look(v, env, i * b, file[i * b..]) == Hit(i * b)
  {
    hide WeakSum, Find, Indexed, BlocksOf;
    var w := BlockAt(b, file, i);
    LoadedIsOk(v, b, strongLen, strongOf, file);
    BlockCounted(b, |file|, i);
    var u := file[i * b..];
    assert u[..Min(b, |u|)] == w;
    FindAgreesWithScan(v, WeakSum(w), w, env.staleOf(i * b));
    assert file[Mul(i, b)..][..|w|] == w;
    assert Matches(v, i, WeakSum(w), w);
    var h := Find(v, WeakSum(w), w, env.staleOf(i * b));
    var m: nat :| m < |v.blocks| && h.pos == Mul(m, b) && v.blocks[m].weak == WeakSum(w);
    assert Mul(m, b) == m * b < |file|;
    OnlyOne(b, file, i, m);
  }

  lemma {:induction false} OnlyOne(b: nat, file: seq<Byte>, i: nat, j: nat)
    requires b >= 1 && Distinct(b, file) && i * b < |file| && j * b < |file|
    requires WeakSum(BlockAt(b, file, i)) == WeakSum(BlockAt(b, file, j))
    ensures i == j
  {
    hide WeakSum;
    var x, y := WeakSum(BlockAt(b, file, i)), WeakSum(BlockAt(b, file, j));
    assert i < j ==> x != y;
    assert j < i ==> y != x;
  }

  /** A window found where a match of the whole beginning goes on. */
  lemma {:induction false} GoesOn(g: Rules, file: seq<Byte>, n: nat)
    requires RulesOk(g) && 1 <= n < |file| < TWO_63 && g.look(n, file[n..]) == Hit(n)
    ensures var m := n + Width(g, file[n..]);
            && m <= |file| && ScanReady(g, file[n..], Match(0, n)) && ScanReady(g, file[m..], Match(0, m))
            && Scan(g, n, file[n..], Match(0, n)) == Scan(g, m, file[m..], Match(0, m))
  {
    hide Scan;
    var u := file[n..];
    ScanHit(g, n, u, Match(0, n), n);
    assert u[Width(g, u)..] == file[n + Width(g, u)..];
  }

  lemma {:induction false} Opens(g: Rules, file: seq<Byte>)
    requires RulesOk(g) && file != [] && |file| < TWO_63 && g.look(0, file) == Hit(0)
    ensures var w := Width(g, file);
            && ScanReady(g, file, Nothing) && ScanReady(g, file[w..], Match(0, w))
            && Scan(g, 0, file, Nothing) == Scan(g, w, file[w..], Match(0, w))
  {
    hide Scan;
    ScanHit(g, 0, file, Nothing, 0);
    var w := Width(g, file);
    assert [] + Scan(g, w, file[w..], Match(0, w)) == Scan(g, w, file[w..], Match(0, w));
  }

  lemma {:induction false} AtEnd(g: Rules, file: seq<Byte>, n: nat)
    requires RulesOk(g) && 1 <= n == |file| < TWO_63
    ensures ScanReady(g, file[n..], Match(0, n)) && Scan(g, n, file[n..], Match(0, n)) == [Copy(0, n), End]
  {
  }

  lemma {:induction false} RestOfItself(v: SigValue, env: Env, b: nat, strongLen: nat, strongOf: nat -> seq<Byte>,
                                        file: seq<Byte>, i: nat, n: nat)
    requires Loaded(v, b, strongLen, strongOf, file) && Manageable(b, |file|) && SigOk(v) && EnvOk(env)
    requires Distinct(b, file) && n == Min(i * b, |file|) && 1 <= n && |file| < TWO_63
    ensures ScanReady(RulesOf(v, env), file[n..], Match(0, n))
    ensures Scan(RulesOf(v, env), n, file[n..], Match(0, n)) == [Copy(0, |file|), End]
    decreases |file| - n
  {
    hide SigOk, EnvOk, Loaded, Look, Scan, ScanReady, Distinct;
    var g := RulesOf(v, env);
    LoadedNames(v, b, strongLen, strongOf, file);
    if n < |file| {
      FindsItself(v, env, b, strongLen, strongOf, file, i);
      LookIs(v, env, n, file[n..]);
      GoesOn(g, file, n);
      assert (i + 1) * b == i * b + b;
      RestOfItself(v, env, b, strongLen, strongOf, file, i + 1, n + Width(g, file[n..]));
    } else {
      AtEnd(g, file, n);
    }
  }

  /** A file whose blocks have distinct sums, against its own signature, is one copy. */
  lemma {:induction false} DeltaOfItself(v: SigValue, env: Env, b: nat, strongLen: nat, strongOf: nat -> seq<Byte>,
                                         file: seq<Byte>)
    requires Loaded(v, b, strongLen, strongOf, file) && Manageable(b, |file|) && SigOk(v) && EnvOk(env)
    requires Distinct(b, file)
    ensures |file| < TWO_63
    ensures CommandsIn(DeltaBy(v, env, file)) == if file == [] then [End] else [Copy(0, |file|), End]
  {
    hide Scan, DeltaOf, CommandsIn, Loaded, SigOk, EnvOk, Look, Distinct;
    var g := RulesOf(v, env);
    CommandsOfDelta(g, file);
    if file == [] {
      ScanOfNothing(g);
    } else {
      LoadedNames(v, b, strongLen, strongOf, file);
      FindsItself(v, env, b, strongLen, strongOf, file, 0);
      assert file[0..] == file;
      LookIs(v, env, 0, file);
      Opens(g, file);
      RestOfItself(v, env, b, strongLen, strongOf, file, 1, Width(g, file));
    }
  }

  lemma {:induction false} ScanOfNothing(g: Rules)
    requires RulesOk(g)
    ensures Scan(g, 0, [], Nothing) == [End]
  {
  }
}
