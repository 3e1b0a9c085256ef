/** The sync queue as a list: what waits, and what calls and steps make of it.  Nothing here
    knows of the ring, the index or the cache. */
module QueueSpec {
  import opened Relations
  import opened Rings

  datatype Op =
    | MKNOD | MKDIR | SYMLINK | RMDIR | LINK | CHMOD | CHOWN | TRUNCATE
    | UTIMENS | RENAME | UNLINK | NEWFILE | WRITE | DELTA

  datatype Node = Node(op: Op, src: Path, dst: Path, time: nat, baseVer: nat,
                       isPacked: bool, isNewfile: bool, isDelete: bool, isEmpty: bool)

  /** What the rest of the client decides while nodes are packed: the relations, those whose
      version still fits, the versions of the files, whether a batch goes out as writes, and
      where a delta file is put. */
  datatype World = World(relation: map<Path, Path>, fits: set<Path>, version: Path -> nat,
                         writesPay: Path -> bool, deltaPath: Path -> Path)

  datatype Option<T> = None | Some(value: T)

  /** A node that later writes to its path may still join. */
  predicate Live(n: Node) {
    (n.op == NEWFILE || n.op == WRITE) && !n.isPacked && !n.isDelete
  }

  /** What sync_pack_write makes of a live node. */
  function PackedNode(n: Node, w: World): (r: Node) {
    if n.op == NEWFILE && n.src in w.relation && n.src in w.fits then
      n.(op := DELTA, isPacked := true, src := w.deltaPath(n.src), dst := n.src,
        baseVer := w.version(w.relation[n.src]))
    else if n.op == WRITE && !w.writesPay(n.src) then
      n.(op := DELTA, isPacked := true, src := w.deltaPath(n.src), dst := n.src)
    else n.(isPacked := true)
  }

  /** Packing one node may pack others. */
  predicate SameOrPacked(a: Node, b: Node, w: World) {
    a == b || (Live(a) && b == PackedNode(a, w))
  }

  /** What may become of a waiting node: only a live one changes, by being deleted, emptied if
      it is a new file, or packed in some world, and it keeps its place. */
  ghost predicate Evolved(a: Node, b: Node) {
    a == b || (Live(a) && (b == a.(isDelete := true)
                           || (a.op == NEWFILE && b == a.(op := MKNOD, isPacked := true))
                           || exists w :: b == PackedNode(a, w)))
  }

  /** What may become of a whole queue, new nodes at the end aside. */
  ghost predicate AllEvolved(s: seq<Node>, t: seq<Node>) {
    |s| <= |t| && forall k :: 0 <= k < |s| ==> Evolved(s[k], t[k])
  }

  ghost predicate AllSameOrPacked(s: seq<Node>, t: seq<Node>, w: World) {
    |s| == |t| && forall k :: 0 <= k < |s| ==> SameOrPacked(s[k], t[k], w)
  }

  /** A node as sync_enqueue fills it in. */
  function Fresh(op: Op, src: Path, dst: Path, time: nat, baseVer: nat): (r: Node) {
    Node(op, src, dst, time, baseVer, op != NEWFILE && op != WRITE, op == NEWFILE, false, false)
  }

  /** What a file system operation does to the queue: xmp_mknod, xmp_write, an operation
      that is only queued, sync_delete, truncation to nothing, sync_pack_write_path. */
  datatype Call =
    | NewFile(path: Path, time: nat)
    | WriteTo(path: Path, time: nat, baseVer: nat)
    | Other(op: Op, src: Path, dst: Path, time: nat, baseVer: nat)
    | Forget(path: Path)
    | TruncateToZero(path: Path)
    | PackNow(path: Path)

  /** What happens before a step of a round, each call with the world it finds, since calls
      change the relations and the versions, and the world the step itself finds. */
  datatype Moment = Moment(calls: seq<(Call, World)>, world: World)

  ghost predicate MomentOk(m: Moment) {
    Acyclic(m.world.relation) && CallsOk(m.calls)
  }

  ghost predicate CallsOk(calls: seq<(Call, World)>) {
    forall c <- calls :: CallOk(c.0) && Acyclic(c.1.relation)
  }

  predicate CallOk(call: Call) {
    call.Other? ==> call.op != NEWFILE && call.op != WRITE
  }

  // ---------------------------------------------------------------------
  // One node at a time
  // ---------------------------------------------------------------------

  lemma {:induction false} PackedIsNotLive(n: Node, w: World)
    requires Live(n)
    ensures !Live(PackedNode(n, w)) && PackedNode(n, w).isEmpty == n.isEmpty
  {
  }

  lemma {:induction false} PackingEvolves(s: seq<Node>, t: seq<Node>, w: World)
    requires AllSameOrPacked(s, t, w) && forall k :: 0 <= k < |s| ==> !s[k].isEmpty
    ensures AllEvolved(s, t)
  {
  }

  lemma {:induction false} EvolvesOn(s: seq<Node>, t: seq<Node>, u: seq<Node>)
    requires AllEvolved(s, t) && AllEvolved(t, u)
    ensures AllEvolved(s, u)
  {
    forall k | 0 <= k < |s| ensures Evolved(s[k], u[k]) {
      assert Evolved(s[k], t[k]) && Evolved(t[k], u[k]);
    }
  }

  /** Sending the first node, packed or not, leaves the others behind it. */
  lemma {:induction false} FirstSent(s: seq<Node>, n: Node, t: seq<Node>, w: World)
    requires s != [] && SameOrPacked(s[0], n, w) && AllSameOrPacked(s[1..], t, w)
    requires forall k :: 0 <= k < |s| ==> !s[k].isEmpty
    ensures AllEvolved(s, [n] + t)
  {
    forall k | 0 <= k < |s| ensures Evolved(s[k], ([n] + t)[k]) {
      if k > 0 {
        assert SameOrPacked(s[1..][k - 1], t[k - 1], w);
      }
    }
  }

  lemma {:induction false} OneMoreSent(s: seq<Node>, done: seq<Node>, t: seq<Node>, n: Node, u: seq<Node>)
    requires AllEvolved(s, done + t) && AllEvolved(t, [n] + u)
    ensures AllEvolved(s, done + [n] + u) && |u| >= |t| - 1
  {
    forall k | 0 <= k < |s| ensures Evolved(s[k], (done + [n] + u)[k]) {
      assert Evolved(s[k], (done + t)[k]);
      if k >= |done| {
        assert Evolved(t[k - |done|], ([n] + u)[k - |done|]);
      }
    }
  }

  lemma {:induction false} EvolvesNot(s: seq<Node>)
    ensures AllEvolved(s, [] + s)
  {
  }

  // ---------------------------------------------------------------------
  // Packing
  // ---------------------------------------------------------------------

  /** Where the node that waits under a path is, or the length. */
  function WaitingAt(s: seq<Node>, path: Path): (k: nat)
    ensures k <= |s| && (k < |s| ==> Live(s[k]) && s[k].src == path)
    ensures forall j :: 0 <= j < k ==> !(Live(s[j]) && s[j].src == path)
  {
    if s == [] then 0
    else if Live(s[0]) && s[0].src == path then 0
    else 1 + WaitingAt(s[1..], path)
  }

  lemma {:induction false} WaitingIs(s: seq<Node>, path: Path, k: nat)
    requires k <= |s| && (k < |s| ==> Live(s[k]) && s[k].src == path)
    requires forall j :: 0 <= j < k ==> !(Live(s[j]) && s[j].src == path)
    ensures WaitingAt(s, path) == k
  {
  }

  function LiveCount(s: seq<Node>): (n: nat) {
    if s == [] then 0 else (if Live(s[0]) then 1 else 0) + LiveCount(s[1..])
  }

  lemma {:induction false} OneLess(s: seq<Node>, k: nat, x: Node)
    requires k < |s| && Live(s[k]) && !Live(x)
    ensures LiveCount(s[k := x]) == LiveCount(s) - 1
    decreases k
  {
    if k == 0 {
      assert s[0 := x][1..] == s[1..];
    } else {
      assert s[k := x][1..] == s[1..][k - 1 := x];
      OneLess(s[1..], k - 1, x);
    }
  }

  /** sync_pack_write_path: the node that waits under the path is packed, and so are those it
      is related to. */
  function PackedPath(s: seq<Node>, path: Path, w: World): (t: seq<Node>)
    ensures |t| == |s|
    decreases LiveCount(s), 1
  {
    var k := WaitingAt(s, path);
    if k == |s| then s else PackedAt(s, k, w)
  }

  function PackedAt(s: seq<Node>, k: nat, w: World): (t: seq<Node>)
    requires k < |s| && Live(s[k])
    ensures |t| == |s|
    decreases LiveCount(s), 0
  {
    PackedIsNotLive(s[k], w);
    OneLess(s, k, PackedNode(s[k], w));
    var t := s[k := PackedNode(s[k], w)];
    if s[k].op == NEWFILE && s[k].src in w.relation then PackedPath(t, w.relation[s[k].src], w) else t
  }

  lemma {:induction false} RelatedIsLower(links: map<Path, Path>, rank: Path -> nat, path: Path)
    requires Ranked(links, rank) && path in links
    ensures rank(links[path]) < rank(path)
  {
  }

  /** Whether the related nodes are packed before or after makes no difference. */
  lemma {:induction false} PackedApart(s: seq<Node>, k: nat, x: Node, dst: Path, w: World, rank: Path -> nat)
    requires k < |s| && Ranked(w.relation, rank) && !Live(x) && Live(s[k]) && rank(s[k].src) > rank(dst)
    ensures PackedPath(s[k := x], dst, w) == PackedPath(s, dst, w)[k := x] && PackedPath(s, dst, w)[k] == s[k]
    decreases rank(dst)
  {
    hide PackedNode;
    var u := s[k := x];
    var j := WaitingAt(s, dst);
    WaitingIs(u, dst, j);
    if j < |s| {
      var y := PackedNode(s[j], w);
      var t := s[j := y];
      assert u[j := y] == t[k := x];
      if s[j].op == NEWFILE && dst in w.relation {
        PackedApart(t, k, x, w.relation[dst], w, rank);
      }
    }
  }

  // ---------------------------------------------------------------------
  // Calls
  // ---------------------------------------------------------------------

  /** A new node joins the queue if there is room. */
  function Added(s: seq<Node>, n: Node): (t: seq<Node>) {
    if |s| < QUEUE_SIZE then s + [n] else s
  }

  /** The node that waits under a path is replaced. */
  function Settled(s: seq<Node>, path: Path, emptied: bool): (t: seq<Node>) {
    var k := WaitingAt(s, path);
    if k == |s| then s
    else if emptied && s[k].op == NEWFILE then s[k := s[k].(op := MKNOD, isPacked := true)]
    else s[k := s[k].(isDelete := true)]
  }

  function Called(s: seq<Node>, call: Call, w: World): (t: seq<Node>) {
    match call
    case NewFile(path, time) => Added(PackedPath(s, path, w), Fresh(NEWFILE, path, [], time, 0))
    case WriteTo(path, time, baseVer) =>
      if WaitingAt(s, path) < |s| then s else Added(s, Fresh(WRITE, path, [], time, baseVer))
    case Other(op, src, dst, time, baseVer) => Added(s, Fresh(op, src, dst, time, baseVer))
    case Forget(path) => Settled(s, path, false)
    case TruncateToZero(path) => Settled(s, path, true)
    case PackNow(path) => PackedPath(s, path, w)
  }

  function CalledAll(s: seq<Node>, calls: seq<(Call, World)>): (t: seq<Node>) {
    if calls == [] then s
    else var last := calls[|calls| - 1]; Called(CalledAll(s, calls[..|calls| - 1]), last.0, last.1)
  }

  lemma {:induction false} NeverShorter(s: seq<Node>, calls: seq<(Call, World)>)
    ensures |CalledAll(s, calls)| >= |s|
    decreases |calls|
  {
    if calls != [] {
      NeverShorter(s, calls[..|calls| - 1]);
    }
  }

  lemma {:induction false} CalledMore(s: seq<Node>, calls: seq<(Call, World)>, c: (Call, World))
    ensures CalledAll(s, calls + [c]) == Called(CalledAll(s, calls), c.0, c.1)
  {
    assert (calls + [c])[..|calls|] == calls;
  }

  // ---------------------------------------------------------------------
  // Steps and rounds
  // ---------------------------------------------------------------------

  /** What is sent is the first node, packed if writes can still join it. */
  function Head(s: seq<Node>, w: World): (t: seq<Node>)
    requires s != []
    ensures |t| == |s|
  {
    if Live(s[0]) then PackedAt(s, 0, w) else s
  }

  datatype Progress = Progress(sent: seq<Node>, left: seq<Node>)

  /** Steps, each after some calls. */
  function Drained(s: seq<Node>, moments: seq<Moment>): (p: Progress)
    requires |moments| <= |s|
    ensures |p.sent| == |moments| && |p.left| >= |s| - |moments|
    decreases |moments|
  {
    if moments == [] then Progress([], s) else
    var m := moments[|moments| - 1];
    var p := Drained(s, moments[..|moments| - 1]);
    NeverShorter(p.left, m.calls);
    var t := Head(CalledAll(p.left, m.calls), m.world);
    Progress(p.sent + [t[0]], t[1..])
  }

  lemma {:induction false} DrainedMore(s: seq<Node>, moments: seq<Moment>, m: Moment)
    requires |moments| < |s|
    ensures var p := Drained(s, moments);
            && |CalledAll(p.left, m.calls)| >= 1
            && var t := Head(CalledAll(p.left, m.calls), m.world);
               Drained(s, moments + [m]) == Progress(p.sent + [t[0]], t[1..])
  {
    var p := Drained(s, moments);
    NeverShorter(p.left, m.calls);
    assert (moments + [m])[..|moments|] == moments;
  }

  /** The first n moments. */
  function Moments(between: nat -> Moment, n: nat): (ms: seq<Moment>)
    ensures |ms| == n
  {
    seq(n, k requires 0 <= k < n => between(k))
  }

  lemma {:induction false} DrainedNone(s: seq<Node>, between: nat -> Moment)
    ensures Drained(s, Moments(between, 0)) == Progress([], s)
  {
    assert Moments(between, 0) == [];
  }

  lemma {:induction false} DrainedNext(s: seq<Node>, between: nat -> Moment, n: nat)
    requires n < |s|
    ensures var p, m := Drained(s, Moments(between, n)), between(n);
            && |CalledAll(p.left, m.calls)| >= 1
            && var t := Head(CalledAll(p.left, m.calls), m.world);
               Drained(s, Moments(between, n + 1)) == Progress(p.sent + [t[0]], t[1..])
  {
    assert Moments(between, n + 1) == Moments(between, n) + [between(n)];
    DrainedMore(s, Moments(between, n), between(n));
  }

  // ---------------------------------------------------------------------
  // What packing touches
  // ---------------------------------------------------------------------

  /** Where n relations lead, one after another. */
  function Hops(links: map<Path, Path>, p: Path, n: nat): (q: Option<Path>) {
    if n == 0 then Some(p) else
    match Hops(links, p, n - 1)
    case None => None
    case Some(q) => if q in links then Some(links[q]) else None
  }

  ghost predicate Reaches(links: map<Path, Path>, p: Path, q: Path) {
    exists n: nat :: Hops(links, p, n) == Some(q)
  }

  lemma {:induction false} FirstHop(links: map<Path, Path>, p: Path, n: nat)
    requires p in links
    ensures Hops(links, p, n + 1) == Hops(links, links[p], n)
  {
    if n > 0 {
      FirstHop(links, p, n - 1);
    } else {
      assert Hops(links, p, 0) == Some(p);
    }
  }

  lemma {:induction false} ReachesOn(links: map<Path, Path>, p: Path, q: Path)
    ensures Reaches(links, p, p)
    ensures p in links && Reaches(links, links[p], q) ==> Reaches(links, p, q)
  {
    assert Hops(links, p, 0) == Some(p);
    if p in links && Reaches(links, links[p], q) {
      var n: nat :| Hops(links, links[p], n) == Some(q);
      FirstHop(links, p, n);
    }
  }

  /** Packing a path packs the node that waits under it, and otherwise only nodes that the
      relations lead to; every other node stays as it is. */
  lemma {:induction false} PackingTouches(s: seq<Node>, path: Path, w: World, j: nat)
    requires j < |s|
    ensures var t := PackedPath(s, path, w);
            && (t[j] != s[j] ==>
                  Live(s[j]) && Reaches(w.relation, path, s[j].src) && t[j] == PackedNode(s[j], w))
            && (j == WaitingAt(s, path) ==> t[j] == PackedNode(s[j], w))
    decreases LiveCount(s)
  {
    hide PackedNode, Reaches;
    var k := WaitingAt(s, path);
    if k < |s| {
      PackedIsNotLive(s[k], w);
      OneLess(s, k, PackedNode(s[k], w));
      ReachesOn(w.relation, path, s[j].src);
      ReachesOn(w.relation, path, path);
      if s[k].op == NEWFILE && path in w.relation {
        PackingTouches(s[k := PackedNode(s[k], w)], w.relation[path], w, j);
      }
    }
  }

  /** No two nodes wait under one path. */
  ghost predicate OneEach(s: seq<Node>) {
    forall i, j :: 0 <= i < j < |s| && Live(s[i]) && Live(s[j]) ==> s[i].src != s[j].src
  }

  /** Where n relations lead, as long as a new file waits at each path on the way. */
  function Chain(s: seq<Node>, links: map<Path, Path>, p: Path, n: nat): (q: Option<Path>) {
    if n == 0 then Some(p) else
    match Chain(s, links, p, n - 1)
    case None => None
    case Some(q) =>
      var k := WaitingAt(s, q);
      if k < |s| && s[k].op == NEWFILE && q in links then Some(links[q]) else None
  }

  ghost predicate Leads(s: seq<Node>, links: map<Path, Path>, p: Path, q: Path) {
    exists n: nat :: Chain(s, links, p, n) == Some(q)
  }

  lemma {:induction false} ChainEnds(s: seq<Node>, links: map<Path, Path>, p: Path, q: Path)
    requires Chain(s, links, p, 1) == None
    ensures Leads(s, links, p, q) <==> p == q
  {
    assert Chain(s, links, p, 0) == Some(p);
    if Leads(s, links, p, q) {
      var n: nat :| Chain(s, links, p, n) == Some(q);
      if n > 0 {
        StaysEnded(s, links, p, n);
      }
    }
  }

  lemma {:induction false} StaysEnded(s: seq<Node>, links: map<Path, Path>, p: Path, n: nat)
    requires Chain(s, links, p, 1) == None && n > 0
    ensures Chain(s, links, p, n) == None
  {
    if n > 1 {
      StaysEnded(s, links, p, n - 1);
    }
  }

  /** One link further; the path left behind is never asked again. */
  lemma {:induction false} FirstLink(s: seq<Node>, k: nat, x: Node, links: map<Path, Path>, rank: Path -> nat, n: nat)
    requires Ranked(links, rank) && k < |s| && k == WaitingAt(s, s[k].src) && s[k].op == NEWFILE && s[k].src in links
    requires !Live(x)
    ensures var p := s[k].src;
            && Chain(s, links, p, n + 1) == Chain(s[k := x], links, links[p], n)
            && (Chain(s, links, p, n + 1).Some? ==> rank(Chain(s, links, p, n + 1).value) < rank(p))
  {
    var p, t := s[k].src, s[k := x];
    assert Chain(s, links, p, 0) == Some(p);
    if n == 0 {
      assert Chain(t, links, links[p], 0) == Some(links[p]);
      assert Chain(s, links, p, 1) == Some(links[p]);
    } else {
      FirstLink(s, k, x, links, rank, n - 1);
      if Chain(s, links, p, n).Some? {
        var q := Chain(s, links, p, n).value;
        WaitingIs(t, q, WaitingAt(s, q));
      }
    }
  }

  lemma {:induction false} LeadsOn(s: seq<Node>, k: nat, x: Node, links: map<Path, Path>, rank: Path -> nat, q: Path)
    requires Ranked(links, rank) && k < |s| && k == WaitingAt(s, s[k].src) && s[k].op == NEWFILE && s[k].src in links
    requires !Live(x)
    ensures var p := s[k].src; Leads(s, links, p, q) <==> p == q || Leads(s[k := x], links, links[p], q)
  {
    var p, t := s[k].src, s[k := x];
    assert Chain(s, links, p, 0) == Some(p);
    if Leads(s, links, p, q) && p != q {
      var n: nat :| Chain(s, links, p, n) == Some(q);
      FirstLink(s, k, x, links, rank, n - 1);
    }
    if Leads(t, links, links[p], q) {
      var n: nat :| Chain(t, links, links[p], n) == Some(q);
      FirstLink(s, k, x, links, rank, n);
    }
  }

  /** Packing a path packs exactly the nodes that wait under it or under a path it leads to,
      through relations of new files that wait themselves; every other node stays as it is. */
  lemma {:induction false} PackingIs(s: seq<Node>, path: Path, w: World, rank: Path -> nat, j: nat)
    requires OneEach(s) && Ranked(w.relation, rank) && j < |s|
    ensures PackedPath(s, path, w)[j]
            == if Live(s[j]) && Leads(s, w.relation, path, s[j].src) then PackedNode(s[j], w) else s[j]
    decreases rank(path)
  {
    hide PackedNode, Leads;
    var k := WaitingAt(s, path);
    assert Chain(s, w.relation, path, 0) == Some(path);
    if k < |s| {
      var x := PackedNode(s[k], w);
      PackedIsNotLive(s[k], w);
      if s[k].op == NEWFILE && path in w.relation {
        LeadsOn(s, k, x, w.relation, rank, s[j].src);
        PackingIs(s[k := x], w.relation[path], w, rank, j);
      } else {
        ChainEnds(s, w.relation, path, s[j].src);
      }
    } else {
      ChainEnds(s, w.relation, path, s[j].src);
    }
  }

  /** So does a step that finds the first node waiting: what is sent is packed, and so is
      whatever its path leads to. */
  lemma {:induction false} HeadIs(s: seq<Node>, w: World, rank: Path -> nat, j: nat)
    requires OneEach(s) && Ranked(w.relation, rank) && j < |s|
    ensures Head(s, w)[j]
            == if Live(s[0]) && Live(s[j]) && Leads(s, w.relation, s[0].src, s[j].src) then PackedNode(s[j], w)
               else s[j]
    ensures Live(s[0]) ==> Head(s, w)[0] == PackedNode(s[0], w)
  {
    if Live(s[0]) {
      hide PackedNode, Leads;
      WaitingIs(s, s[0].src, 0);
      PackingIs(s, s[0].src, w, rank, j);
      PackingTouches(s, s[0].src, w, 0);
    }
  }

  // ---------------------------------------------------------------------
  // What a call adds and changes
  // ---------------------------------------------------------------------

  /** A write joins the node that waits under its path. */
  ghost predicate Joins(s: seq<Node>, path: Path) {
    exists j :: 0 <= j < |s| && Live(s[j]) && s[j].src == path
  }

  /** The node a call puts into the queue. */
  predicate Brings(call: Call, n: Node) {
    && !n.isDelete && !n.isEmpty
    && match call
       case NewFile(path, time) => n.op == NEWFILE && n.src == path && n.time == time && Live(n) && n.isNewfile
       case WriteTo(path, time, baseVer) =>
         n.op == WRITE && n.src == path && n.time == time && n.baseVer == baseVer && Live(n) && !n.isNewfile
       case Other(op, src, dst, time, baseVer) =>
         && n.op == op && n.src == src && n.dst == dst && n.time == time && n.baseVer == baseVer
         && !Live(n) && !n.isNewfile
       case _ => false
  }

  /** A call that has something to send. */
  ghost predicate Queues(s: seq<Node>, call: Call) {
    call.Other? || call.NewFile? || (call.WriteTo? && !Joins(s, call.path))
  }

  /** The node a call adds is its own, at the end, and it is added exactly when the call has
      something to send and there is room. */
  lemma {:induction false} CallAdds(s: seq<Node>, call: Call, w: World)
    requires CallOk(call)
    ensures var t := Called(s, call, w);
            && |s| <= |t| <= |s| + 1
            && (|t| == |s| + 1 <==> Queues(s, call) && |s| < QUEUE_SIZE)
            && (|t| == |s| + 1 ==> Brings(call, t[|s|]))
  {
    hide PackedPath;
  }

  /** What becomes of the node that a call is about, and of the others. */
  lemma {:induction false} CallChanges(s: seq<Node>, call: Call, w: World, j: nat)
    requires j < |s|
    ensures var n, m := s[j], Called(s, call, w)[j];
            match call
            case Other(_, _, _, _, _) => m == n
            case WriteTo(_, _, _) => m == n
            case NewFile(path, _) =>
              && (m != n ==> Live(n) && Reaches(w.relation, path, n.src) && m == PackedNode(n, w))
              && (j == WaitingAt(s, path) ==> m == PackedNode(n, w))
            case PackNow(path) =>
              && (m != n ==> Live(n) && Reaches(w.relation, path, n.src) && m == PackedNode(n, w))
              && (j == WaitingAt(s, path) ==> m == PackedNode(n, w))
            case Forget(path) => m == if j == WaitingAt(s, path) then n.(isDelete := true) else n
            case TruncateToZero(path) =>
              m == if j != WaitingAt(s, path) then n
                   else if n.op == NEWFILE then n.(op := MKNOD, isPacked := true) else n.(isDelete := true)
  {
    hide PackedNode, Reaches;
    if call.NewFile? || call.PackNow? {
      PackingTouches(s, call.path, w, j);
    }
  }

  /** After a path has been packed, forgotten or emptied, nothing waits under it any more. */
  lemma {:induction false} NothingWaits(s: seq<Node>, call: Call, w: World)
    requires OneEach(s) && (call.PackNow? || call.Forget? || call.TruncateToZero?)
    ensures !Joins(Called(s, call, w), call.path)
  {
    var t := Called(s, call, w);
    forall j | 0 <= j < |t| ensures !(Live(t[j]) && t[j].src == call.path) {
      hide PackedNode, Reaches, PackedPath;
      CallChanges(s, call, w, j);
      var k := WaitingAt(s, call.path);
      if j == k {
        PackedIsNotLive(s[k], w);
      } else if t[j] != s[j] {
        PackedIsNotLive(s[j], w);
      }
    }
  }

  // ---------------------------------------------------------------------
  // Many calls, and rounds
  // ---------------------------------------------------------------------

  /** The nodes that calls bring, each as it was when it joined. */
  function Brought(s: seq<Node>, calls: seq<(Call, World)>): (ns: seq<Node>) {
    if calls == [] then [] else
    var t := CalledAll(s, calls[..|calls| - 1]);
    var c := calls[|calls| - 1];
    var u := Called(t, c.0, c.1);
    Brought(s, calls[..|calls| - 1]) + (if |u| > |t| then [u[|t|]] else [])
  }

  lemma {:induction false} CallEvolves(s: seq<Node>, call: Call, w: World)
    requires CallOk(call) && forall k :: 0 <= k < |s| ==> !s[k].isEmpty
    ensures |Called(s, call, w)| >= |s| && AllEvolved(s, Called(s, call, w))
    ensures forall k :: 0 <= k < |Called(s, call, w)| ==> !Called(s, call, w)[k].isEmpty
  {
    var t := Called(s, call, w);
    CallAdds(s, call, w);
    forall k | 0 <= k < |t| ensures (k < |s| ==> Evolved(s[k], t[k])) && !t[k].isEmpty {
      if k < |s| {
        hide Reaches, PackedPath;
        CallChanges(s, call, w, k);
      }
    }
  }

  ghost predicate NoneEmpty(s: seq<Node>) {
    forall k :: 0 <= k < |s| ==> !s[k].isEmpty
  }

  /** Behind the nodes that were waiting stand those of the calls, in order, and no others. */
  lemma {:induction false} CallsBring(s: seq<Node>, calls: seq<(Call, World)>)
    requires NoneEmpty(s) && forall c <- calls :: CallOk(c.0)
    ensures var t := CalledAll(s, calls);
            NoneEmpty(t) && |t| == |s| + |Brought(s, calls)| && AllEvolved(s + Brought(s, calls), t)
    decreases |calls|
  {
    if calls == [] {
      assert s + [] == s;
      EvolvesNot(s);
      assert [] + s == s;
    } else {
      hide Called;
      var n := |calls| - 1;
      var c := calls[n];
      CallsBring(s, calls[..n]);
      var t := CalledAll(s, calls[..n]);
      CallEvolves(t, c.0, c.1);
      CallAdds(t, c.0, c.1);
      BringOne(s + Brought(s, calls[..n]), t, Called(t, c.0, c.1));
      var u := Called(t, c.0, c.1);
      Reassociate(s, Brought(s, calls[..n]), if |u| > |t| then [u[|t|]] else []);
    }
  }

  lemma {:induction false} Reassociate(s: seq<Node>, t: seq<Node>, u: seq<Node>)
    ensures s + (t + u) == s + t + u
  {
  }

  lemma {:induction false} BringOne(s: seq<Node>, t: seq<Node>, u: seq<Node>)
    requires |s| == |t| && |t| <= |u| <= |t| + 1 && AllEvolved(s, t) && AllEvolved(t, u)
    ensures AllEvolved(s + (if |u| > |t| then [u[|t|]] else []), u)
  {
    EvolvesOn(s, t, u);
    var r := s + (if |u| > |t| then [u[|t|]] else []);
    forall k | 0 <= k < |r| ensures Evolved(r[k], u[k]) {
      assert k < |s| ==> Evolved(s[k], u[k]);
    }
  }

  lemma {:induction false} HeadEvolves(s: seq<Node>, w: World)
    requires NoneEmpty(s) && s != []
    ensures AllEvolved(s, Head(s, w)) && NoneEmpty(Head(s, w)) && !Live(Head(s, w)[0])
  {
    if Live(s[0]) {
      WaitingIs(s, s[0].src, 0);
      assert Head(s, w) == PackedPath(s, s[0].src, w);
      forall k | 0 <= k < |s| ensures Evolved(s[k], Head(s, w)[k]) && !Head(s, w)[k].isEmpty {
        hide Reaches, PackedPath;
        PackingTouches(s, s[0].src, w, k);
      }
      PackingTouches(s, s[0].src, w, 0);
      PackedIsNotLive(s[0], w);
    }
  }

  /** The nodes that calls bring between the steps. */
  function BroughtBetween(s: seq<Node>, moments: seq<Moment>): (ns: seq<Node>)
    requires |moments| <= |s|
  {
    if moments == [] then [] else
    var m := moments[|moments| - 1];
    BroughtBetween(s, moments[..|moments| - 1]) + Brought(Drained(s, moments[..|moments| - 1]).left, m.calls)
  }

  ghost predicate AllCallsOk(moments: seq<Moment>) {
    forall m <- moments :: forall c <- m.calls :: CallOk(c.0)
  }

  /** What has been sent and is left after some steps stems from what waited and what was brought. */
  ghost predicate Accounted(s: seq<Node>, brought: seq<Node>, p: Progress) {
    && NoneEmpty(p.left) && |p.sent| + |p.left| == |s| + |brought| && AllEvolved(s + brought, p.sent + p.left)
    && forall n <- p.sent :: !Live(n)
  }

  lemma {:induction false} OkOfMoments(between: nat -> Moment, n: nat)
    requires forall k :: MomentOk(between(k))
    ensures AllCallsOk(Moments(between, n))
  {
    forall m | m in Moments(between, n) ensures forall c <- m.calls :: CallOk(c.0) {
      var k :| 0 <= k < n && m == between(k);
      assert MomentOk(between(k));
    }
  }

  lemma {:induction false} OneStepMore(s: seq<Node>, brought: seq<Node>, p: Progress, m: Moment)
    requires Accounted(s, brought, p) && p.left != [] && forall c <- m.calls :: CallOk(c.0)
    ensures var t := CalledAll(p.left, m.calls);
            && t != []
            && var h := Head(t, m.world);
               Accounted(s, brought + Brought(p.left, m.calls), Progress(p.sent + [h[0]], h[1..]))
  {
    hide CalledAll, Brought, Head, AllEvolved;
    CallsBring(p.left, m.calls);
    var t := CalledAll(p.left, m.calls);
    HeadEvolves(t, m.world);
    var h := Head(t, m.world);
    var more := Brought(p.left, m.calls);
    Behind(s + brought, p.sent, p.left, more, t, h);
    Reassociate(s, brought, more);
    assert p.sent + [h[0]] + h[1..] == p.sent + h;
  }

  lemma {:induction false} StepsBring(s: seq<Node>, moments: seq<Moment>)
    requires NoneEmpty(s) && |moments| <= |s| && AllCallsOk(moments)
    ensures Accounted(s, BroughtBetween(s, moments), Drained(s, moments))
    decreases |moments|
  {
    if moments == [] {
      assert s + [] == s == [] + s;
      EvolvesNot(s);
    } else {
      hide CalledAll, Brought, Head, Accounted;
      var n := |moments| - 1;
      assert moments[n] in moments;
      StepsBring(s, moments[..n]);
      OneStepMore(s, BroughtBetween(s, moments[..n]), Drained(s, moments[..n]), moments[n]);
    }
  }

  /** Nodes sent stay as they are while the others go on. */
  lemma {:induction false} Behind(s: seq<Node>, sent: seq<Node>, left: seq<Node>, more: seq<Node>, t: seq<Node>,
                                  h: seq<Node>)
    requires |s| == |sent + left| && AllEvolved(s, sent + left)
    requires |left + more| == |t| == |h| && AllEvolved(left + more, t) && AllEvolved(t, h)
    ensures AllEvolved(s + more, sent + h)
  {
    EvolvesOn(left + more, t, h);
    forall k | 0 <= k < |s + more| ensures Evolved((s + more)[k], (sent + h)[k]) {
      assert k < |s| ==> Evolved(s[k], (sent + left)[k]);
      if k >= |sent| {
        assert Evolved((left + more)[k - |sent|], h[k - |sent|]);
      }
    }
  }

  /** What a round has sent, and what it leaves, are the nodes that were waiting when it began
      and behind them those of the calls made meanwhile, all in order. */
  lemma {:induction false} RoundBrings(s: seq<Node>, asleep: seq<(Call, World)>, moments: seq<Moment>)
    requires NoneEmpty(s) && (forall c <- asleep :: CallOk(c.0)) && AllCallsOk(moments)
    requires |moments| <= |CalledAll(s, asleep)|
    ensures var t := CalledAll(s, asleep);
            var p, brought := Drained(t, moments), Brought(s, asleep) + BroughtBetween(t, moments);
            && |p.sent| + |p.left| == |s| + |brought| && AllEvolved(s + brought, p.sent + p.left)
            && forall n <- p.sent :: !Live(n)
  {
    hide CalledAll, Brought, BroughtBetween, Drained, AllEvolved;
    CallsBring(s, asleep);
    var t := CalledAll(s, asleep);
    StepsBring(t, moments);
    var p, more := Drained(t, moments), BroughtBetween(t, moments);
    Longer(s + Brought(s, asleep), t, more);
    EvolvesOn(s + Brought(s, asleep) + more, t + more, p.sent + p.left);
    Reassociate(s, Brought(s, asleep), more);
  }

  lemma {:induction false} Longer(s: seq<Node>, t: seq<Node>, more: seq<Node>)
    requires |s| == |t| && AllEvolved(s, t)
    ensures AllEvolved(s + more, t + more)
  {
    forall k | 0 <= k < |s + more| ensures Evolved((s + more)[k], (t + more)[k]) {
      assert k < |s| ==> Evolved(s[k], t[k]);
    }
  }
}
