/** syncrelation.c: the ring of recent renames, in order of expiry, and the index that
    finds the relation of a path. */
module RelationQueue {
  import opened Relations
  import opened Rings

  /** `src` was moved to `dst`, which had version `time`. */
  datatype Node = Node(src: Path, dst: Path, time: nat, isDelete: bool, isEmpty: bool)

  /** The nodes that stand for a relation of this source are marked. */
  function Without(s: seq<Node>, src: Path): (t: seq<Node>)
    ensures |t| == |s|
    ensures forall k :: 0 <= k < |s| ==> t[k] == if s[k].src == src then s[k].(isDelete := true) else s[k]
  {
    seq(|s|, k requires 0 <= k < |s| => if s[k].src == src then s[k].(isDelete := true) else s[k])
  }

  /** Likewise for a target. */
  function WithoutTarget(s: seq<Node>, dst: Path): (t: seq<Node>)
    ensures |t| == |s|
    ensures forall k :: 0 <= k < |s| ==> t[k] == if s[k].dst == dst then s[k].(isDelete := true) else s[k]
  {
    seq(|s|, k requires 0 <= k < |s| => if s[k].dst == dst then s[k].(isDelete := true) else s[k])
  }

  /** Only the newest relation of a source can be live. */
  ghost predicate OnlyNewestLive(s: seq<Node>) {
    forall j, k :: 0 <= j < k < |s| && s[j].src == s[k].src ==> s[j].isDelete
  }

  /** The live relation of a source: the last of its nodes, if not deleted. */
  function Relation(s: seq<Node>, src: Path): (r: seq<Node>)
    decreases |s|
  {
    if s == [] then []
    else if s[|s| - 1].src == src then (if s[|s| - 1].isDelete then [] else [s[|s| - 1]])
    else Relation(s[..|s| - 1], src)
  }

  /** A waiting node keeps its place; the only change is that it may be marked. */
  predicate Aged(a: Node, b: Node) {
    b == a || b == a.(isDelete := true)
  }

  ghost predicate AllAged(s: seq<Node>, t: seq<Node>) {
    |s| <= |t| && forall k :: 0 <= k < |s| ==> Aged(s[k], t[k])
  }

  /** What a file system operation does to the relations: xmp_rename and xmp_unlink. */
  datatype Call = Renamed(src: Path, dst: Path, time: nat) | Unlinked(path: Path, tmp: Path, time: nat)

  /** A rename to the same path never reaches the file system, and a removed file is moved to
      another directory. */
  predicate CallOk(call: Call) {
    match call
    case Renamed(src, dst, _) => src != dst
    case Unlinked(path, tmp, _) => path != tmp
  }

  /** A new relation joins if there is room, and supersedes an older one of its source. */
  function Joined(s: seq<Node>, x: Node): (t: seq<Node>) {
    if |s| < QUEUE_SIZE then Without(s, x.src) + [x] else s
  }

  /** What a call makes of the list of relations. */
  function Called(s: seq<Node>, call: Call): (t: seq<Node>) {
    match call
    case Renamed(src, dst, time) => Joined(Without(s, dst), Node(src, dst, time, false, false))
    case Unlinked(path, tmp, time) =>
      Joined(Without(WithoutTarget(s, path), path), Node(path, tmp, time, false, false))
  }

  function CalledAll(s: seq<Node>, calls: seq<Call>): (t: seq<Node>) {
    if calls == [] then s else Called(CalledAll(s, calls[..|calls| - 1]), calls[|calls| - 1])
  }

  lemma {:induction false} CalledMore(s: seq<Node>, calls: seq<Call>, call: Call)
    ensures CalledAll(s, calls + [call]) == Called(CalledAll(s, calls), call)
  {
    assert (calls + [call])[..|calls|] == calls;
  }

  lemma {:induction false} NeverShorter(s: seq<Node>, calls: seq<Call>)
    ensures |CalledAll(s, calls)| >= |s|
    decreases |calls|
  {
    if calls != [] {
      NeverShorter(s, calls[..|calls| - 1]);
    }
  }

  /** What is left after the first n steps of a round, each after some calls. */
  function Left(s: seq<Node>, between: nat -> seq<Call>, n: nat): (t: seq<Node>)
    requires n <= |s|
    ensures |t| >= |s| - n
  {
    if n == 0 then s else
    NeverShorter(Left(s, between, n - 1), between(n - 1));
    CalledAll(Left(s, between, n - 1), between(n - 1))[1..]
  }

  /** The nodes that expire in the first n steps. */
  function Gone(s: seq<Node>, between: nat -> seq<Call>, n: nat): (xs: seq<Node>)
    requires n <= |s|
    ensures |xs| == n
  {
    if n == 0 then [] else
    NeverShorter(Left(s, between, n - 1), between(n - 1));
    Gone(s, between, n - 1) + [CalledAll(Left(s, between, n - 1), between(n - 1))[0]]
  }

  lemma {:induction false} NoneGone(s: seq<Node>, between: nat -> seq<Call>)
    ensures Left(s, between, 0) == s && Gone(s, between, 0) == []
  {
  }

  lemma {:induction false} OneMoreGone(s: seq<Node>, between: nat -> seq<Call>, n: nat, t: seq<Node>, x: Node,
                                       u: seq<Node>)
    requires n < |s| && t == Left(s, between, n) && [x] + u == CalledAll(t, between(n))
    ensures Left(s, between, n + 1) == u && Gone(s, between, n + 1) == Gone(s, between, n) + [x]
  {
    assert ([x] + u)[0] == x && ([x] + u)[1..] == u;
  }

  /** The relations that a lookup finds. */
  function LinksIn(s: seq<Node>): (links: map<Path, Path>) {
    map p | p in (set x <- s :: x.src) && Relation(s, p) != [] :: Relation(s, p)[0].dst
  }

  lemma {:induction false} FoundInList(s: seq<Node>, p: Path)
    requires Relation(s, p) != []
    ensures p in LinksIn(s) && exists k :: 0 <= k < |s| && Relation(s, p) == [s[k]] && s[k].src == p
    decreases |s|
  {
    var n := |s| - 1;
    if s[n].src != p {
      FoundInList(s[..n], p);
      assert forall k :: 0 <= k < n ==> s[..n][k] == s[k];
    }
  }

  // ---------------------------------------------------------------------
  // What a lookup finds
  // ---------------------------------------------------------------------

  lemma {:induction false} RelationIs(s: seq<Node>, p: Path, k: nat)
    requires k < |s| && s[k].src == p && forall j :: k < j < |s| ==> s[j].src != p
    ensures Relation(s, p) == if s[k].isDelete then [] else [s[k]]
    decreases |s|
  {
    if k < |s| - 1 {
      RelationIs(s[..|s| - 1], p, k);
    }
  }

  lemma {:induction false} WithoutLeaves(s: seq<Node>, src: Path, p: Path)
    ensures Relation(Without(s, src), p) == if p == src then [] else Relation(s, p)
    decreases |s|
  {
    if s != [] {
      var n := |s| - 1;
      assert Without(s, src)[..n] == Without(s[..n], src);
      WithoutLeaves(s[..n], src, p);
    }
  }

  lemma {:induction false} WithoutTargetLeaves(s: seq<Node>, dst: Path, p: Path)
    ensures var r := Relation(s, p);
            Relation(WithoutTarget(s, dst), p) == if r != [] && r[0].dst == dst then [] else r
    decreases |s|
  {
    if s != [] {
      var n := |s| - 1;
      assert WithoutTarget(s, dst)[..n] == WithoutTarget(s[..n], dst);
      WithoutTargetLeaves(s[..n], dst, p);
    }
  }

  lemma {:induction false} JoinedLeads(s: seq<Node>, x: Node, p: Path)
    requires !x.isDelete
    ensures Relation(Joined(s, x), p) == if p == x.src && |s| < QUEUE_SIZE then [x] else Relation(s, p)
  {
    if |s| < QUEUE_SIZE {
      WithoutLeaves(s, x.src, p);
      assert Joined(s, x)[..|s|] == Without(s, x.src);
    }
  }

  /** What a lookup finds after a rename: the new name for the old one, with the version it
      had; for the new name nothing; and what it found before for every other path. */
  lemma {:induction false} AfterRename(s: seq<Node>, src: Path, dst: Path, time: nat, p: Path)
    requires src != dst
    ensures var t := Called(s, Renamed(src, dst, time));
            && |t| == (if |s| < QUEUE_SIZE then |s| + 1 else |s|)
            && Relation(t, p) == if p == src && |s| < QUEUE_SIZE then [Node(src, dst, time, false, false)]
                                 else if p == dst then [] else Relation(s, p)
  {
    WithoutLeaves(s, dst, p);
    JoinedLeads(Without(s, dst), Node(src, dst, time, false, false), p);
  }

  /** What a lookup finds after a file was removed: for its path the temporary name, and
      nothing for a path that led to it. */
  lemma {:induction false} AfterUnlink(s: seq<Node>, path: Path, tmp: Path, time: nat, p: Path)
    ensures var t, r := Called(s, Unlinked(path, tmp, time)), Relation(s, p);
            && |t| == (if |s| < QUEUE_SIZE then |s| + 1 else |s|)
            && Relation(t, p) == if p == path && |s| < QUEUE_SIZE then [Node(path, tmp, time, false, false)]
                                 else if p == path then []
                                 else if r != [] && r[0].dst == path then [] else r
  {
    var u := WithoutTarget(s, path);
    WithoutTargetLeaves(s, path, p);
    WithoutLeaves(u, path, p);
    JoinedLeads(Without(u, path), Node(path, tmp, time, false, false), p);
  }

  /** What a lookup finds after the oldest relation expired: what it found before, unless that
      was the oldest. */
  lemma {:induction false} AfterExpiry(s: seq<Node>, p: Path)
    requires OnlyNewestLive(s) && s != []
    ensures Relation(s[1..], p) == if s[0].src == p && !s[0].isDelete then [] else Relation(s, p)
    decreases |s|
  {
    var n := |s| - 1;
    if n > 0 {
      assert s[1..][..n - 1] == s[..n][1..] && s[1..][n - 1] == s[n];
      if s[n].src != p {
        AfterExpiry(s[..n], p);
      }
    }
  }

  /** The relation a call makes. */
  function Made(call: Call): (x: Node) {
    match call
    case Renamed(src, dst, time) => Node(src, dst, time, false, false)
    case Unlinked(path, tmp, time) => Node(path, tmp, time, false, false)
  }

  function MadeBy(calls: seq<Call>): (s: seq<Node>) {
    seq(|calls|, k requires 0 <= k < |calls| => Made(calls[k]))
  }

  /** Behind the relations there were stand those of the calls, in order, as many as there is
      room for. */
  lemma {:induction false} CallsMake(s: seq<Node>, calls: seq<Call>)
    requires |s| <= QUEUE_SIZE
    ensures var t := CalledAll(s, calls);
            && |t| == (if |s| + |calls| < QUEUE_SIZE then |s| + |calls| else QUEUE_SIZE)
            && AllAged(s + MadeBy(calls)[..|t| - |s|], t)
    decreases |calls|
  {
    if calls == [] {
      assert s + MadeBy(calls)[..0] == s;
    } else {
      var n := |calls| - 1;
      CallsMake(s, calls[..n]);
      var t, u := CalledAll(s, calls[..n]), CalledAll(s, calls);
      var before, after := s + MadeBy(calls[..n])[..|t| - |s|], s + MadeBy(calls)[..|u| - |s|];
      CallAges(t, calls[n]);
      forall k | 0 <= k < |after| ensures Aged(after[k], u[k]) {
        if k < |t| {
          assert after[k] == before[k] && Aged(before[k], t[k]) && Aged(t[k], u[k]);
        }
      }
    }
  }

  lemma {:induction false} CallAges(s: seq<Node>, call: Call)
    ensures AllAged(s, Called(s, call)) && |Called(s, call)| == if |s| < QUEUE_SIZE then |s| + 1 else |s|
    ensures |s| < QUEUE_SIZE ==> Called(s, call)[|s|] == Made(call)
  {
  }

  /** Where the index entries lead. */
  function LinksOf(rhs: map<Path, nat>, ring: seq<Node>): (links: map<Path, Path>)
    requires forall p :: p in rhs ==> rhs[p] < |ring|
  {
    map p | p in rhs :: ring[rhs[p]].dst
  }

  /** Marking or freeing a node leaves the links alone. */
  lemma {:induction false} LinksStay(rhs: map<Path, nat>, ring: seq<Node>, loc: nat, x: Node)
    requires (forall p :: p in rhs ==> rhs[p] < |ring|) && loc < |ring| && x.dst == ring[loc].dst
    ensures LinksOf(rhs, ring[loc := x]) == LinksOf(rhs, ring)
  {
  }

  lemma {:induction false} LinksDrop(rhs: map<Path, nat>, ring: seq<Node>, src: Path)
    requires forall p :: p in rhs ==> rhs[p] < |ring|
    ensures LinksOf(rhs - {src}, ring) == LinksOf(rhs, ring) - {src}
  {
  }

  lemma {:induction false} LinksGrow(rhs: map<Path, nat>, ring: seq<Node>, src: Path, loc: nat, x: Node)
    requires (forall p :: p in rhs ==> rhs[p] < |ring| && (p != src ==> rhs[p] != loc)) && loc < |ring|
    ensures LinksOf(rhs[src := loc], ring[loc := x]) == LinksOf(rhs, ring)[src := x.dst]
  {
  }

  /** The links that do not lead to a path. */
  function Avoiding(links: map<Path, Path>, dst: Path): (r: map<Path, Path>) {
    map p | p in links && links[p] != dst :: links[p]
  }

  lemma {:induction false} AvoidingIs(links: map<Path, Path>, left: map<Path, Path>, dst: Path)
    requires forall p :: p in left ==> p in links && left[p] == links[p] != dst
    requires forall p :: p in links && links[p] != dst ==> p in left
    ensures left == Avoiding(links, dst)
  {
  }

  class Queue {
    const node: array<Node>
    var head: nat
    var tail: nat
    var rhs: map<Path, nat>

    /** Number of occupied slots. */
    ghost var count: nat

    ghost predicate Ring()
      reads `head, `tail, `count, node
    {
      && node.Length == QUEUE_SIZE && head < QUEUE_SIZE && count <= QUEUE_SIZE
      && tail == (head + count) % QUEUE_SIZE
      && forall loc :: 0 <= loc < QUEUE_SIZE ==> (node[loc].isEmpty <==> Place(head, loc) >= count)
    }

    ghost predicate Holds(loc: nat, src: Path)
      requires node.Length == QUEUE_SIZE
      reads node
    {
      loc < QUEUE_SIZE && !node[loc].isEmpty && !node[loc].isDelete && node[loc].src == src
    }

    /** Index entries and live nodes are in bijection. */
    ghost predicate Indexed()
      requires node.Length == QUEUE_SIZE
      reads `rhs, node
    {
      && (forall p :: p in rhs ==> Holds(rhs[p], p))
      && forall loc :: 0 <= loc < QUEUE_SIZE && !node[loc].isEmpty && !node[loc].isDelete ==>
                         node[loc].src in rhs && rhs[node[loc].src] == loc
    }

    ghost predicate Valid()
      reads this, node
    {
      Ring() && Indexed() && OnlyNewestLive(Contents())
    }

    /** The relations that can be found. */
    function Links(): (links: map<Path, Path>)
      requires Ring() && Indexed()
      reads `head, `tail, `count, `rhs, node
    {
      LinksOf(rhs, node[..])
    }

    /** Following relations always ends. */
    ghost predicate Sound()
      reads this, node
    {
      Valid() && Acyclic(Links())
    }

    ghost function Contents(): (s: seq<Node>)
      requires Ring()
      reads `head, `tail, `count, node
      ensures |s| == count
    {
      Window(node[..], head, count)
    }

    constructor ()
      ensures Sound() && fresh(node) && count == 0
    {
      var empty := Node([], [], 0, false, true);
      node := new Node[QUEUE_SIZE](i => empty);
      head, tail, count, rhs := 0, 0, 0, map[];
      new;
      EmptyIsAcyclic();
      assert Links() == map[];
    }

    lemma {:induction false} At(loc: nat)
      requires Ring() && loc < QUEUE_SIZE && !node[loc].isEmpty
      ensures 0 <= Place(head, loc) < count && Contents()[Place(head, loc)] == node[loc]
    {
      PlaceSlot(head, loc);
    }

    lemma {:induction false} SlotOf(k: nat)
      requires Ring() && k < count
      ensures Slot(head, k) < QUEUE_SIZE && Contents()[k] == node[Slot(head, k)] && !Contents()[k].isEmpty
      ensures Place(head, Slot(head, k)) == k
    {
      SlotPlace(head, k);
    }

    /** The index finds the live relation of a source, or that there is none. */
    lemma {:induction false} FindIsRelation(src: Path)
      requires Valid()
      ensures src in rhs ==> rhs[src] < QUEUE_SIZE && Relation(Contents(), src) == [node[rhs[src]]]
      ensures src !in rhs ==> Relation(Contents(), src) == []
    {
      var s := Contents();
      if src in rhs {
        assert Holds(rhs[src], src);
        At(rhs[src]);
        NewestIsRelation(s, src, Place(head, rhs[src]));
      } else {
        forall k | 0 <= k < |s| && s[k].src == src ensures s[k].isDelete {
          SlotOf(k);
        }
        NoRelation(s, src);
      }
    }

    /** The links are those of the list. */
    lemma {:induction false} LinksAre()
      requires Valid()
      ensures Links() == LinksIn(Contents()) && Links().Keys == rhs.Keys
      ensures forall p :: p in rhs ==> rhs[p] < QUEUE_SIZE && Relation(Contents(), p) == [node[rhs[p]]]
    {
      hide Window, OnlyNewestLive, Relation;
      forall p ensures p in rhs <==> p in LinksIn(Contents())
        ensures p in rhs ==> rhs[p] < QUEUE_SIZE && Relation(Contents(), p) == [node[rhs[p]]]
      {
        FindIsRelation(p);
        if p in rhs {
          FoundInList(Contents(), p);
        }
      }
    }

    // -------------------------------------------------------------------
    // Deleting
    // -------------------------------------------------------------------

    /** rel_delete: mark the node an index entry points to, and drop the entry. */
    method DeleteEntry(src: Path)
      requires Valid() && src in rhs
      modifies `rhs, node
      ensures Valid() && rhs == old(rhs) - {src} && Contents() == Without(old(Contents()), src)
      ensures forall loc :: 0 <= loc < QUEUE_SIZE ==> node[loc].dst == old(node[loc].dst)
      ensures Links() == old(Links()) - {src}
    {
      hide Window, Place;
      ghost var s := Contents();
      var loc := rhs[src];
      assert Holds(loc, src);
      At(loc);
      MarkOne(s, src, Place(head, loc));
      node[loc] := node[loc].(isDelete := true);
      WindowChanges(old(node[..]), head, count, loc, node[loc]);
      assert node[..] == old(node[..])[loc := node[loc]];
      LinksStay(rhs, old(node[..]), loc, node[loc]);
      LinksDrop(rhs, node[..], src);
      rhs := rhs - {src};
    }

    lemma {:induction false} NoneToMark(src: Path)
      requires Valid() && src !in rhs
      ensures Without(Contents(), src) == Contents()
    {
      forall k | 0 <= k < count && Contents()[k].src == src ensures Contents()[k].isDelete {
        SlotOf(k);
      }
    }

    /** rel_delete_src. */
    method DeleteSource(src: Path)
      requires Valid()
      modifies `rhs, node
      ensures Valid() && rhs == old(rhs) - {src} && Contents() == Without(old(Contents()), src)
      ensures Links() == old(Links()) - {src}
    {
      if src in rhs {
        DeleteEntry(src);
      } else {
        NoneToMark(src);
        assert rhs - {src} == rhs;
      }
    }

    /** One entry of rel_delete_dst. */
    method DeleteIfTarget(src: Path, dst: Path, ghost s: seq<Node>)
      requires Valid() && src in rhs && MarkedFor(s, Contents(), dst)
      modifies `rhs, node
      ensures Valid() && MarkedFor(s, Contents(), dst)
      ensures src in old(Links()) && Links() == if old(Links())[src] == dst then old(Links()) - {src} else old(Links())
    {
      hide Window, Place, Without;
      assert Holds(rhs[src], src);
      if node[rhs[src]].dst == dst {
        ghost var before := Contents();
        At(rhs[src]);
        OneTarget(s, before, src, dst, Place(head, rhs[src]));
        DeleteEntry(src);
      }
    }

    /** rel_delete_dst, over the entries there are when it starts. */
    method DeleteTarget(dst: Path)
      requires Valid()
      modifies `rhs, node
      ensures Valid() && Contents() == WithoutTarget(old(Contents()), dst)
      ensures Links() == Avoiding(old(Links()), dst)
    {
      hide Window, Place, Without, Ring, Indexed, OnlyNewestLive;
      ghost var s, links := Contents(), Links();
      var todo := rhs.Keys;
      while todo != {}
        invariant Valid() && todo <= Links().Keys
        invariant MarkedFor(s, Contents(), dst)
        invariant forall p :: p in Links() ==> p in links && Links()[p] == links[p]
        invariant forall p :: p in links && (links[p] != dst || p in todo) ==> p in Links()
        invariant forall p :: p in Links() && p !in todo ==> Links()[p] != dst
        decreases todo
      {
        var src :| src in todo;
        todo := todo - {src};
        DeleteIfTarget(src, dst, s);
      }
      TargetsMarked(s, dst);
      AvoidingIs(links, Links(), dst);
    }

    lemma {:induction false} LiveLink(loc: nat)
      requires Valid() && loc < QUEUE_SIZE && !node[loc].isEmpty && !node[loc].isDelete
      ensures node[loc].src in Links() && Links()[node[loc].src] == node[loc].dst
    {
    }

    lemma {:induction false} TargetsMarked(s: seq<Node>, dst: Path)
      requires Valid() && MarkedFor(s, Contents(), dst) && forall p :: p in Links() ==> Links()[p] != dst
      ensures Contents() == WithoutTarget(s, dst)
    {
      forall k | 0 <= k < count && Contents()[k].dst == dst ensures Contents()[k].isDelete {
        SlotOf(k);
        if !Contents()[k].isDelete {
          LiveLink(Slot(head, k));
          assert false;
        }
      }
      AllMarked(s, Contents(), dst);
    }

    // -------------------------------------------------------------------
    // Enqueue and dequeue
    // -------------------------------------------------------------------

    /** Take the slot at the tail. */
    method Push(x: Node)
      requires Ring() && count < QUEUE_SIZE && !x.isEmpty
      modifies `tail, `count, node
      ensures Ring() && count == old(count) + 1 && Contents() == old(Contents()) + [x]
      ensures old(tail) < QUEUE_SIZE && old(tail < QUEUE_SIZE && node[tail].isEmpty) && node[old(tail)] == x
      ensures node.Length == QUEUE_SIZE && node[..] == old(node[..])[old(tail) := x]
    {
      hide Window;
      var p := tail;
      assert Place(head, p) == count && p == Slot(head, count);
      ghost var ring := node[..];
      tail := (p + 1) % QUEUE_SIZE;
      node[p] := x;
      WindowGrows(ring, head, count, x);
      assert node[..] == ring[p := x];
      count := count + 1;
    }

    /** One attempt of rel_enqueue, taken as one step; it waits while the ring is full.  An
        older relation of the same source is superseded. */
    method Enqueue(src: Path, dst: Path, time: nat) returns (ok: bool)
      requires Valid()
      modifies this, node
      ensures Valid() && head == old(head)
      ensures ok <==> old(count) < QUEUE_SIZE
      ensures !ok ==> Contents() == old(Contents()) && rhs == old(rhs)
      ensures ok ==> Contents() == Without(old(Contents()), src) + [Node(src, dst, time, false, false)]
      ensures ok ==> rhs == old(rhs)[src := old(tail)]
      ensures Links() == if ok then old(Links())[src := dst] else old(Links())
    {
      assert count < QUEUE_SIZE ==> Place(head, tail) == count;
      if !node[tail].isEmpty {
        return false;
      }
      Add(src, dst, time);
      return true;
    }

    method Add(src: Path, dst: Path, time: nat)
      requires Valid() && count < QUEUE_SIZE
      modifies this, node
      ensures Valid() && head == old(head)
      ensures Contents() == Without(old(Contents()), src) + [Node(src, dst, time, false, false)]
      ensures rhs == old(rhs)[src := old(tail)] && Links() == old(Links())[src := dst]
    {
      hide Window, Place, Ring, Indexed;
      ghost var links := Links();
      DeleteSource(src);
      ghost var s := Contents();
      NewestStaysNewest(s, Node(src, dst, time, false, false));
      AddEntry(Node(src, dst, time, false, false));
      assert (links - {src})[src := dst] == links[src := dst];
    }

    /** A node for a source without relation, and its index entry. */
    method AddEntry(x: Node)
      requires Valid() && count < QUEUE_SIZE && x.src !in rhs && !x.isDelete && !x.isEmpty
      requires OnlyNewestLive(Contents() + [x])
      modifies this, node
      ensures Valid() && head == old(head) && Contents() == old(Contents()) + [x]
      ensures rhs == old(rhs)[x.src := old(tail)] && Links() == old(Links())[x.src := x.dst]
    {
      hide Window, Place, Ring, OnlyNewestLive;
      var p := tail;
      ghost var ring := node[..];
      Push(x);
      LinksGrow(rhs, ring, x.src, p, x);
      rhs := rhs[x.src := p];
    }

    /** rel_dequeue: the oldest node expires.  If it was superseded, the index entry of its
        source belongs to its replacement and stays. */
    method Dequeue()
      requires Valid()
      modifies this, node
      ensures Valid()
      ensures old(count) == 0 ==> Contents() == old(Contents()) && rhs == old(rhs) && head == old(head)
      ensures old(count) > 0 ==>
                && Contents() == old(Contents())[1..] && head == Slot(old(head), 1)
                && rhs == if old(Contents())[0].isDelete then old(rhs) else old(rhs) - {old(Contents())[0].src}
      ensures Links().Items <= old(Links()).Items
    {
      hide Window;
      var q := head;
      assert Place(head, q) == 0;
      if node[q].isEmpty {
        return;
      }
      ghost var s := Contents();
      At(q);
      if node[q].src in rhs && !node[q].isDelete {
        DeleteEntry(node[q].src);
        FirstIsOnly(s, s[0].src);
      }
      Shift();
    }

    /** Give up the slot at the head. */
    method Pop(x: Node)
      requires Ring() && count > 0 && x.isEmpty
      modifies `head, `count, node
      ensures Ring() && count == old(count) - 1 && head == Slot(old(head), 1) && Contents() == old(Contents())[1..]
      ensures old(head) < node.Length && node[..] == old(node[..])[old(head) := x]
    {
      hide Window, Place, Slot;
      var q := head;
      PlaceMoves(q, q);
      ghost var ring := node[..];
      head := (head + 1) % QUEUE_SIZE;
      node[q] := x;
      WindowShrinks(ring, q, count, x);
      assert node[..] == ring[q := x];
      UseShrinks(ring, q, count, x, (n: Node) => n.isEmpty);
      assert tail == (head + (count - 1)) % QUEUE_SIZE;
      count := count - 1;
    }

    /** The first node, which is marked, leaves. */
    method Shift()
      requires Valid() && count > 0 && Contents()[0].isDelete
      modifies this, node
      ensures Valid() && rhs == old(rhs) && Links() == old(Links())
      ensures Contents() == old(Contents())[1..] && head == Slot(old(head), 1)
    {
      SlotOf(0);
      FirstSlot(head);
      hide Window, OnlyNewestLive, Place, Slot, Ring;
      LaterStaysNewest(Contents());
      var x := node[head].(isEmpty := true);
      LinksStay(rhs, node[..], head, x);
      Pop(x);
    }

    // -------------------------------------------------------------------
    // Expiry rounds
    // -------------------------------------------------------------------

    /** How far a round of rel_execute will go. */
    method Snapshot() returns (recordTail: nat)
      requires Ring()
      ensures recordTail == head + if count == QUEUE_SIZE then 0 else count
    {
      recordTail := if tail >= head then tail else tail + QUEUE_SIZE;
    }

    /** The relation part of xmp_rename. */
    method Rename(src: Path, dst: Path, time: nat)
      requires Sound() && src != dst
      modifies this, node
      ensures Sound() && head == old(head) && AllAged(old(Contents()), Contents())
      ensures Links() == (if old(count) < QUEUE_SIZE then (old(Links()) - {dst})[src := dst] else old(Links()) - {dst})
      ensures Contents() == Called(old(Contents()), Renamed(src, dst, time))
    {
      hide Window, Indexed, OnlyNewestLive, Ring;
      ghost var links := Links();
      if dst in rhs {
        DeleteEntry(dst);
      } else {
        NoneToMark(dst);
      }
      assert Links() == links - {dst};
      FewerAcyclic(links, Links());
      IntoSink(Links(), src, dst);
      var ok := Enqueue(src, dst, time);
    }

    /** The relation part of xmp_unlink: the file is moved to a temporary name. */
    method Unlink(path: Path, tmp: Path, time: nat)
      requires Sound() && path != tmp
      modifies this, node
      ensures Sound() && head == old(head) && AllAged(old(Contents()), Contents())
      ensures Links() == if old(count) < QUEUE_SIZE then (Avoiding(old(Links()), path) - {path})[path := tmp]
                         else Avoiding(old(Links()), path) - {path}
      ensures Contents() == Called(old(Contents()), Unlinked(path, tmp, time))
    {
      hide Window, Indexed, OnlyNewestLive, Ring;
      ghost var links := Links();
      DeleteTarget(path);
      FewerAcyclic(links, Links());
      links := Links();
      DeleteSource(path);
      FewerAcyclic(links, Links());
      FromSource(Links(), path, tmp);
      var ok := Enqueue(path, tmp, time);
    }

    method Do(call: Call)
      requires Sound() && CallOk(call)
      modifies this, node
      ensures Sound() && head == old(head) && AllAged(old(Contents()), Contents())
      ensures Contents() == Called(old(Contents()), call)
    {
      match call
      case Renamed(src, dst, time) => Rename(src, dst, time);
      case Unlinked(path, tmp, time) => Unlink(path, tmp, time);
    }

    method DoAll(calls: seq<Call>)
      requires Sound() && forall call <- calls :: CallOk(call)
      modifies this, node
      ensures Sound() && head == old(head) && AllAged(old(Contents()), Contents())
      ensures Contents() == CalledAll(old(Contents()), calls)
    {
      hide Window, Indexed, OnlyNewestLive, Ring, Acyclic, Called;
      ghost var start := Contents();
      for i := 0 to |calls|
        invariant Sound() && head == old(head) && AllAged(start, Contents())
        invariant Contents() == CalledAll(start, calls[..i])
      {
        assert CallOk(calls[i]);
        ghost var before := Contents();
        Do(calls[i]);
        CalledMore(start, calls[..i], calls[i]);
        assert calls[..i + 1] == calls[..i] + [calls[i]];
        AgesOn(start, before, Contents());
      }
      assert calls[..|calls|] == calls;
    }

    lemma {:induction false} HeadInRange()
      requires Ring()
      ensures head < QUEUE_SIZE && count <= QUEUE_SIZE
    {
    }

    /** One step of a round, with the calls that come before it. */
    method ExpireOne(calls: seq<Call>) returns (ghost x: Node)
      requires Sound() && count > 0 && forall call <- calls :: CallOk(call)
      modifies this, node
      ensures Sound() && head == Slot(old(head), 1) && AllAged(old(Contents()), [x] + Contents())
      ensures [x] + Contents() == CalledAll(old(Contents()), calls)
    {
      hide Window, Indexed, OnlyNewestLive, Ring, Slot, Acyclic, CallOk;
      ghost var start := Contents();
      DoAll(calls);
      ghost var middle, links := Contents(), Links();
      Dequeue();
      FewerAcyclic(links, Links());
      x := middle[0];
      assert [x] + middle[1..] == middle;
    }

    /** What has expired after some steps, and what is left. */
    ghost predicate Expired(s: seq<Node>, between: nat -> seq<Call>, expired: seq<Node>)
      requires Ring()
      reads `head, `tail, `count, node
    {
      && |expired| <= |s| && expired == Gone(s, between, |expired|) && Contents() == Left(s, between, |expired|)
      && AllAged(s, expired + Contents())
    }

    /** One more step. */
    method ExpireNext(ghost s: seq<Node>, between: nat -> seq<Call>, k: nat, ghost done: seq<Node>)
      returns (ghost expired: seq<Node>)
      requires Sound() && count > 0 && k == |done| < |s| && Expired(s, between, done)
      requires forall call <- between(k) :: CallOk(call)
      modifies this, node
      ensures Sound() && head == Slot(old(head), 1) && count >= old(count) - 1
      ensures |expired| == k + 1 && Expired(s, between, expired)
    {
      hide Window, Indexed, OnlyNewestLive, Ring, Slot, Acyclic, CallOk, AllAged, CalledAll, Left, Gone;
      ghost var before := Contents();
      ghost var x := ExpireOne(between(k));
      OneMoreExpired(s, done, before, x, Contents());
      OneMoreGone(s, between, k, before, x, Contents());
      expired := done + [x];
    }

    /** The second part of a round: the nodes up to the recorded tail expire in order, with
        any calls before each step. */
    method Expire(recordTail: nat, between: nat -> seq<Call>) returns (ghost expired: seq<Node>)
      requires Sound() && head <= recordTail <= head + count && forall k, call :: call in between(k) ==> CallOk(call)
      modifies this, node
      ensures Sound() && |expired| == recordTail - old(head) && Expired(old(Contents()), between, expired)
    {
      HeadInRange();
      FirstSlot(head);
      ghost var s := Contents();
      expired := [];
      AgesNot(s);
      NoneGone(s, between);
      assert Expired(s, between, expired);
      hide Window, Indexed, OnlyNewestLive, Ring, Slot, Acyclic, CallOk, Expired;
      var first := head;
      var i := first;
      while i < recordTail
        invariant first == old(head) <= i <= recordTail && |expired| == i - first
        invariant Sound() && Valid() && head == Slot(first, i - first) && recordTail - i <= count
        invariant Expired(s, between, expired)
      {
        SlotOfIndex(first, i);
        expired := ExpireNext(s, between, i - first, expired);
        i := i + 1;
      }
    }

    /** A round of rel_execute, with any calls while it sleeps and between its steps: the
        relations that were waiting when it began expire, in order, and no others; with a full
        ring, none do.  Following relations always ends. */
    method Round(calls: seq<Call>, between: nat -> seq<Call>) returns (ghost expired: seq<Node>)
      requires Sound() && forall call <- calls :: CallOk(call)
      requires forall k, call :: call in between(k) ==> CallOk(call)
      modifies this, node
      ensures Sound() && |expired| == if old(count) == QUEUE_SIZE then 0 else old(count)
      ensures AllAged(old(Contents()), expired + Contents())
      ensures var s := CalledAll(old(Contents()), calls);
              |expired| <= |s| && Contents() == Left(s, between, |expired|) && expired == Gone(s, between, |expired|)
    {
      ghost var start := Contents();
      var recordTail := Snapshot();
      hide Window, Indexed, OnlyNewestLive, Ring, Acyclic, CallOk, CalledAll, Left, Gone;
      DoAll(calls);
      ghost var middle := Contents();
      expired := Expire(recordTail, between);
      AgesOn(start, middle, expired + Contents());
    }
  }

  lemma {:induction false} OneMoreExpired(s: seq<Node>, done: seq<Node>, t: seq<Node>, x: Node, u: seq<Node>)
    requires AllAged(s, done + t) && AllAged(t, [x] + u)
    ensures AllAged(s, done + [x] + u) && |u| >= |t| - 1
  {
    forall k | 0 <= k < |s| ensures Aged(s[k], (done + [x] + u)[k]) {
      assert Aged(s[k], (done + t)[k]);
      if k >= |done| {
        assert Aged(t[k - |done|], ([x] + u)[k - |done|]);
      }
    }
  }

  lemma {:induction false} AgesNot(s: seq<Node>)
    ensures AllAged(s, [] + s)
  {
  }

  /** A new node for a source whose relations are all marked is the newest. */
  lemma {:induction false} NewestStaysNewest(s: seq<Node>, x: Node)
    requires OnlyNewestLive(s) && forall k :: 0 <= k < |s| && s[k].src == x.src ==> s[k].isDelete
    ensures OnlyNewestLive(s + [x])
  {
  }

  lemma {:induction false} LaterStaysNewest(s: seq<Node>)
    requires OnlyNewestLive(s) && s != []
    ensures OnlyNewestLive(s[1..])
  {
  }

  /** A live first node is the only one of its source. */
  lemma {:induction false} FirstIsOnly(s: seq<Node>, src: Path)
    requires OnlyNewestLive(s) && s != [] && s[0].src == src && !s[0].isDelete
    ensures Without(s, src)[1..] == s[1..] && Without(s, src)[0].isDelete
  {
    forall k | 1 <= k < |s| ensures s[k].src != src {
    }
  }

  lemma {:induction false} AgesOn(s: seq<Node>, t: seq<Node>, u: seq<Node>)
    requires AllAged(s, t) && AllAged(t, u)
    ensures AllAged(s, u)
  {
    forall k | 0 <= k < |s| ensures Aged(s[k], u[k]) {
      assert Aged(s[k], t[k]) && Aged(t[k], u[k]);
    }
  }

  /** Some of the nodes for this target have been marked. */
  ghost predicate MarkedFor(s: seq<Node>, t: seq<Node>, dst: Path) {
    |s| == |t| && forall k :: 0 <= k < |s| ==> t[k] == s[k] || (s[k].dst == dst && t[k] == s[k].(isDelete := true))
  }

  lemma {:induction false} OneTarget(s: seq<Node>, t: seq<Node>, src: Path, dst: Path, k: nat)
    requires MarkedFor(s, t, dst) && OnlyNewestLive(t)
    requires k < |t| && t[k].src == src && t[k].dst == dst && !t[k].isDelete
    ensures MarkedFor(s, Without(t, src), dst)
  {
    forall j | 0 <= j < |t| && j != k && t[j].src == src ensures t[j].isDelete {
      assert j < k || k < j;
    }
  }

  lemma {:induction false} AllMarked(s: seq<Node>, t: seq<Node>, dst: Path)
    requires MarkedFor(s, t, dst) && forall k :: 0 <= k < |t| && t[k].dst == dst ==> t[k].isDelete
    ensures t == WithoutTarget(s, dst)
  {
    forall k | 0 <= k < |s| ensures t[k] == WithoutTarget(s, dst)[k] {
    }
  }

  lemma {:induction false} MarkOne(s: seq<Node>, src: Path, k: nat)
    requires OnlyNewestLive(s) && k < |s| && s[k].src == src && !s[k].isDelete
    ensures s[k := s[k].(isDelete := true)] == Without(s, src) && OnlyNewestLive(Without(s, src))
  {
    forall j | 0 <= j < |s| && j != k && s[j].src == src ensures s[j].isDelete {
      assert j < k || k < j;
    }
  }

  lemma {:induction false} NewestIsRelation(s: seq<Node>, src: Path, k: nat)
    requires OnlyNewestLive(s) && k < |s| && s[k].src == src && !s[k].isDelete
    ensures Relation(s, src) == [s[k]]
    decreases |s|
  {
    var last := |s| - 1;
    if k < last {
      assert s[last].src != src;
      NewestIsRelation(s[..last], src, k);
    }
  }

  lemma {:induction false} NoRelation(s: seq<Node>, src: Path)
    requires forall k :: 0 <= k < |s| && s[k].src == src ==> s[k].isDelete
    ensures Relation(s, src) == []
    decreases |s|
  {
    if s != [] {
      NoRelation(s[..|s| - 1], src);
    }
  }
}
