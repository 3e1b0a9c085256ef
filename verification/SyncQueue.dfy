/** syncqueue.c: the ring of operations waiting to be sent, the index of those that can
    still absorb writes, and the lookup cache in front of the index. */
module SyncQueue {
  import opened Relations
  import opened Rings
  import opened QueueSpec

  class Queue {
    const node: array<Node>
    var head: nat
    var tail: nat
    var shs: map<Path, nat>
    var cachePath: Path
    var cacheResult: Option<nat>

    /** Number of occupied slots. */
    ghost var count: nat

    /** The occupied slots are exactly the count slots from the head on, and tail follows them. */
    ghost predicate Ring()
      reads `head, `tail, `count, node
    {
      && node.Length == QUEUE_SIZE && head < QUEUE_SIZE && count <= QUEUE_SIZE
      && tail == (head + count) % QUEUE_SIZE
      && forall loc :: 0 <= loc < QUEUE_SIZE ==> (node[loc].isEmpty <==> Place(head, loc) >= count)
    }

    /** The node at this place is waiting under this path. */
    ghost predicate Waits(loc: nat, path: Path)
      requires node.Length == QUEUE_SIZE
      reads node
    {
      loc < QUEUE_SIZE && !node[loc].isEmpty && Live(node[loc]) && node[loc].src == path
    }

    /** Index and live nodes are in bijection, except for the nodes being packed. */
    ghost predicate Indexed(busy: set<nat>)
      requires node.Length == QUEUE_SIZE
      reads `shs, node
    {
      && (forall p :: p in shs ==> shs[p] in busy || Waits(shs[p], p))
      && forall loc :: 0 <= loc < QUEUE_SIZE && loc !in busy && !node[loc].isEmpty && Live(node[loc]) ==>
                         node[loc].src in shs && shs[node[loc].src] == loc
    }

    /** A cached result is the result a lookup would give. */
    ghost predicate Cached()
      reads `shs, `cachePath, `cacheResult
    {
      cacheResult.Some? ==> cachePath in shs && shs[cachePath] == cacheResult.value
    }

    ghost predicate Valid()
      reads this, node
    {
      Ring() && Indexed({}) && Cached()
    }

    /** The waiting operations, oldest first. */
    ghost function Contents(): (s: seq<Node>)
      requires Ring()
      reads `head, `tail, `count, node
      ensures |s| == count
    {
      Window(node[..], head, count)
    }

    lemma {:induction false} Occupied()
      requires Ring()
      ensures forall k :: 0 <= k < count ==> !Contents()[k].isEmpty
    {
      forall k | 0 <= k < count ensures !Contents()[k].isEmpty {
        SlotPlace(head, k);
      }
    }

    lemma {:induction false} HeadInRange()
      requires Ring()
      ensures head < QUEUE_SIZE && count <= QUEUE_SIZE
    {
    }

    lemma {:induction false} FirstOccupied()
      requires Ring() && count > 0
      ensures head < node.Length && !node[head].isEmpty && Contents()[0] == node[head]
    {
      assert Slot(head, 0) == head && Place(head, head) == 0;
    }

    function Lookup(path: Path): (r: Option<nat>)
      reads `shs
    {
      if path in shs then Some(shs[path]) else None
    }

    /** initial. */
    constructor ()
      ensures Valid() && fresh(node) && count == 0
    {
      var empty := Node(MKNOD, [], [], 0, 0, false, false, false, true);
      node := new Node[QUEUE_SIZE](i => empty);
      head, tail, count, shs, cachePath, cacheResult := 0, 0, 0, map[], [], None;
    }

    // -------------------------------------------------------------------
    // Enqueue and dequeue
    // -------------------------------------------------------------------

    /** Take the slot at the tail. */
    method Push(x: Node)
      requires Ring() && count < QUEUE_SIZE && !x.isEmpty
      modifies `tail, `count, node
      ensures Ring() && count == old(count) + 1 && Contents() == old(Contents()) + [x]
      ensures old(tail) < QUEUE_SIZE && old(tail < QUEUE_SIZE && node[tail].isEmpty) && node[old(tail)] == x
      ensures forall loc :: 0 <= loc < QUEUE_SIZE && loc != old(tail) ==> node[loc] == old(node[loc])
    {
      hide Window;
      var p := tail;
      assert Place(head, p) == count && p == Slot(head, count);
      ghost var ring := node[..];
      tail := (p + 1) % QUEUE_SIZE;
      node[p] := x;
      WindowGrows(ring, head, count, x);
      assert node[..] == ring[p := x];
      count := count + 1;
    }

    /** One attempt of sync_enqueue, which waits while the ring is full.  Only one node per
        path may be waiting for writes. */
    method Enqueue(op: Op, src: Path, dst: Path, time: nat, baseVer: nat) returns (ok: bool)
      requires Valid() && (op == NEWFILE || op == WRITE ==> src !in shs)
      modifies this, node
      ensures Valid() && head == old(head)
      ensures ok <==> old(count) < QUEUE_SIZE
      ensures Contents() == Added(old(Contents()), Fresh(op, src, dst, time, baseVer))
      ensures !ok ==> Contents() == old(Contents()) && shs == old(shs)
      ensures ok ==> Contents() == old(Contents()) + [Fresh(op, src, dst, time, baseVer)]
      ensures ok ==> shs == if op == NEWFILE || op == WRITE then old(shs)[src := old(tail)] else old(shs)
    {
      var p := tail;
      assert count < QUEUE_SIZE ==> Place(head, p) == count;
      if !node[p].isEmpty {
        return false;
      }
      hide Ring, Window, Place;
      Push(Fresh(op, src, dst, time, baseVer));
      if op == NEWFILE || op == WRITE {
        shs := shs[src := p];
      }
      return true;
    }

    /** Give up the slot at the head. */
    method Pop(x: Node)
      requires Ring() && count > 0 && x.isEmpty
      modifies `head, `count, node
      ensures Ring() && count == old(count) - 1 && head == Slot(old(head), 1) && Contents() == old(Contents())[1..]
      ensures old(head) < node.Length && node[..] == old(node[..])[old(head) := x]
    {
      hide Window, Place, Slot;
      var q := head;
      PlaceMoves(q, q);
      ghost var ring := node[..];
      head := (head + 1) % QUEUE_SIZE;
      node[q] := x;
      WindowShrinks(ring, q, count, x);
      assert node[..] == ring[q := x];
      UseShrinks(ring, q, count, x, (n: Node) => n.isEmpty);
      assert tail == (head + (count - 1)) % QUEUE_SIZE;
      count := count - 1;
    }

    /** sync_dequeue: the first node, which must not be waiting for writes any more. */
    method Dequeue() returns (n: Option<Node>)
      requires Valid() && (count > 0 ==> !Live(Contents()[0]))
      modifies this, node
      ensures Valid() && shs == old(shs)
      ensures n.None? <==> old(count) == 0
      ensures n.None? ==> Contents() == old(Contents()) && head == old(head)
      ensures n.Some? ==> n.value == old(Contents())[0] && Contents() == old(Contents())[1..]
      ensures n.Some? ==> head == Slot(old(head), 1)
    {
      var q := head;
      assert Place(head, q) == 0 && (count > 0 ==> Contents()[0] == node[Slot(head, 0)]);
      if node[q].isEmpty {
        return None;
      }
      hide Window, Place, Slot, Ring;
      n := Some(node[q]);
      Pop(node[q].(isPacked := false, isDelete := true, isEmpty := true));
    }

    // -------------------------------------------------------------------
    // The index
    // -------------------------------------------------------------------

    /** sync_find: the cache never changes the answer. */
    method Find(path: Path) returns (r: Option<nat>)
      requires Cached()
      modifies `cachePath, `cacheResult
      ensures Cached() && r == Lookup(path)
    {
      if cacheResult != None && path == cachePath {
        return cacheResult;
      }
      r := Lookup(path);
      if r.Some? {
        cachePath := path;
        cacheResult := r;
      }
    }

    /** Take a path out of the index; whoever does so must see to the cache. */
    method Unindex(path: Path)
      modifies `shs, `cacheResult
      ensures shs == old(shs) - {path} && cacheResult == None && Cached()
    {
      shs := shs - {path};
      cacheResult := None;
    }

    /** Mark a node that has just been taken out of the index. */
    method Settle(loc: nat, x: Node, ghost path: Path)
      requires Ring() && Indexed({loc}) && loc < QUEUE_SIZE && Place(head, loc) < count
      requires path !in shs && (forall p :: p in shs ==> shs[p] != loc)
      requires !Live(x) && !x.isEmpty
      modifies node
      ensures Ring() && Indexed({})
      ensures 0 <= Place(head, loc) && Contents() == old(Contents())[Place(head, loc) := x]
    {
      hide Window;
      ghost var ring := node[..];
      node[loc] := x;
      assert node[..] == ring[loc := x];
      WindowChanges(ring, head, count, loc, x);
    }

    /** sync_delete. */
    method Delete(path: Path)
      requires Valid()
      modifies this, node
      ensures Valid() && head == old(head) && count == old(count)
      ensures shs == old(shs) - {path}
      ensures path !in old(shs) ==> Contents() == old(Contents())
      ensures path in old(shs) ==>
                var k := Place(head, old(shs)[path]);
                0 <= k < count && Contents() == old(Contents())[k := old(Contents())[k].(isDelete := true)]
    {
      hide Window;
      var r := Find(path);
      if r.Some? {
        var loc := r.value;
        assert Waits(loc, path);
        Unindex(path);
        Settle(loc, node[loc].(isDelete := true), path);
        PlaceSlot(head, loc);
      }
    }

    /** sync_delete_write: a new file stays, as an empty one. */
    method DeleteWrite(path: Path)
      requires Valid()
      modifies this, node
      ensures Valid() && head == old(head) && count == old(count)
      ensures shs == old(shs) - {path}
      ensures path !in old(shs) ==> Contents() == old(Contents())
      ensures path in old(shs) ==>
                var k := Place(head, old(shs)[path]);
                && 0 <= k < count
                && var n := old(Contents())[k];
                   Contents() == old(Contents())[k := if n.op == NEWFILE then n.(op := MKNOD, isPacked := true)
                                                      else n.(isDelete := true)]
    {
      hide Window;
      var r := Find(path);
      if r.Some? {
        var loc := r.value;
        assert Waits(loc, path);
        Unindex(path);
        PlaceSlot(head, loc);
        if node[loc].op == NEWFILE {
          Settle(loc, node[loc].(op := MKNOD, isPacked := true), path);
        } else {
          Settle(loc, node[loc].(isDelete := true), path);
        }
      }
    }

    // -------------------------------------------------------------------
    // Packing
    // -------------------------------------------------------------------

    /** A node in its place. */
    lemma {:induction false} InPlace(loc: nat)
      requires Ring() && loc < QUEUE_SIZE && !node[loc].isEmpty
      ensures 0 <= Place(head, loc) < count && Contents()[Place(head, loc)] == node[loc]
    {
      PlaceSlot(head, loc);
    }

    /** The index leads to the node that waits, if none of those being packed is under the path. */
    lemma {:induction false} IndexFinds(path: Path, busy: set<nat>)
      requires Ring() && Indexed(busy) && (path in shs ==> shs[path] !in busy)
      requires forall l :: l in busy && 0 <= l < QUEUE_SIZE && !node[l].isEmpty && Live(node[l]) ==> node[l].src != path
      ensures path in shs ==>
                shs[path] < QUEUE_SIZE && WaitingAt(Contents(), path) == Place(head, shs[path]) < count
      ensures path !in shs ==> WaitingAt(Contents(), path) == count
    {
      var s := Contents();
      var k := if path in shs then Place(head, shs[path]) else count;
      if path in shs {
        assert Waits(shs[path], path);
        InPlace(shs[path]);
      }
      forall j | 0 <= j < k ensures !(Live(s[j]) && s[j].src == path) {
        SlotPlace(head, j);
      }
      WaitingIs(s, path, k);
    }

    /** At most one node waits under a path. */
    lemma {:induction false} OneWaits()
      requires Valid()
      ensures OneEach(Contents())
    {
      var s := Contents();
      forall j, k | 0 <= j < k < |s| && Live(s[j]) && Live(s[k]) ensures s[j].src != s[k].src {
        SlotPlace(head, j);
        SlotPlace(head, k);
      }
    }

    /** The nodes being packed are all of higher rank. */
    ghost predicate Above(busy: set<nat>, rank: Path -> nat, low: nat)
      requires node.Length == QUEUE_SIZE
      reads node
    {
      forall l :: l in busy && 0 <= l < QUEUE_SIZE && !node[l].isEmpty && Live(node[l]) ==> rank(node[l].src) >= low
    }

    /** sync_pack_write for a node that is being packed: one with a relation first packs the
        node waiting under the related path, and takes it out of the index. */
    method PackWrite(loc: nat, w: World, ghost rank: Path -> nat, ghost busy: set<nat>)
      requires Ring() && Indexed(busy) && Cached() && Ranked(w.relation, rank)
      requires loc in busy && loc < QUEUE_SIZE && !node[loc].isEmpty && Live(node[loc])
      requires forall p :: p in shs && shs[p] in busy ==> rank(p) >= rank(node[loc].src)
      requires Above(busy, rank, rank(node[loc].src))
      modifies `shs, `cachePath, `cacheResult, node
      ensures Ring() && Indexed(busy) && Cached()
      ensures forall p :: p in shs ==> p in old(shs) && shs[p] == old(shs)[p]
      ensures forall p :: p in old(shs) && rank(p) >= old(rank(node[loc].src)) ==> p in shs
      ensures forall l :: 0 <= l < QUEUE_SIZE ==> SameOrPacked(old(node[l]), node[l], w)
      ensures forall l :: l in busy && 0 <= l < QUEUE_SIZE && l != loc ==> node[l] == old(node[l])
      ensures node[loc] == PackedNode(old(node[loc]), w)
      ensures 0 <= Place(head, loc) < old(count) && old(Contents())[Place(head, loc)] == old(node[loc])
      ensures Contents() == PackedAt(old(Contents()), Place(head, loc), w)
      decreases rank(node[loc].src), 0
    {
      hide PackedNode, PackedPath, Place, Window, Ranked;
      InPlace(loc);
      var n := node[loc];
      ghost var s, k := Contents(), Place(head, loc);
      PackedIsNotLive(n, w);
      if n.op == NEWFILE && n.src in w.relation {
        RelatedIsLower(w.relation, rank, n.src);
        PackRelated(loc, w.relation[n.src], w, rank, busy);
        PackedApart(s, k, PackedNode(n, w), w.relation[n.src], w, rank);
      }
      Replace(loc, PackedNode(n, w), busy);
    }

    /** A node being packed gets its packed form. */
    method Replace(loc: nat, x: Node, ghost busy: set<nat>)
      requires Ring() && Indexed(busy) && loc in busy && loc < QUEUE_SIZE && !node[loc].isEmpty && !x.isEmpty
      requires 0 <= Place(head, loc) < count
      modifies node
      ensures Ring() && Indexed(busy) && node[loc] == x
      ensures forall l :: 0 <= l < QUEUE_SIZE && l != loc ==> node[l] == old(node[l])
      ensures Contents() == old(Contents())[Place(head, loc) := x]
    {
      hide Window;
      ghost var ring := node[..];
      node[loc] := x;
      assert node[..] == ring[loc := x];
      WindowChanges(ring, head, count, loc, x);
    }

    /** The node waiting under a related path, if there is one. */
    method PackRelated(loc: nat, dst: Path, w: World, ghost rank: Path -> nat, ghost busy: set<nat>)
      requires Ring() && Indexed(busy) && Cached() && Ranked(w.relation, rank)
      requires loc in busy && loc < QUEUE_SIZE && rank(dst) < rank(node[loc].src)
      requires forall p :: p in shs && shs[p] in busy ==> rank(p) >= rank(node[loc].src)
      requires Above(busy, rank, rank(node[loc].src))
      modifies `shs, `cachePath, `cacheResult, node
      ensures Ring() && Indexed(busy) && Cached()
      ensures forall p :: p in shs ==> p in old(shs) && shs[p] == old(shs)[p]
      ensures forall p :: p in old(shs) && rank(p) >= old(rank(node[loc].src)) ==> p in shs
      ensures forall l :: 0 <= l < QUEUE_SIZE ==> SameOrPacked(old(node[l]), node[l], w)
      ensures forall l :: l in busy && 0 <= l < QUEUE_SIZE ==> node[l] == old(node[l])
      ensures Contents() == PackedPath(old(Contents()), dst, w)
      decreases rank(dst), 1
    {
      hide PackedNode, PackedAt, Place, Window;
      IndexFinds(dst, busy);
      var r := Find(dst);
      if r.Some? {
        var other := r.value;
        assert Waits(other, dst);
        ghost var n := node[other];
        PackWrite(other, w, rank, busy + {other});
        PackedIsNotLive(n, w);
        assert dst in shs;
        UnindexPacked(dst, other, busy);
      }
    }

    /** Take a node that has just been packed out of the index. */
    method UnindexPacked(path: Path, loc: nat, ghost busy: set<nat>)
      requires node.Length == QUEUE_SIZE && loc < QUEUE_SIZE && Indexed(busy + {loc})
      requires path in shs && !Live(node[loc]) && forall p :: p in shs ==> (shs[p] == loc <==> p == path)
      modifies `shs, `cacheResult
      ensures Indexed(busy) && Cached() && shs == old(shs) - {path}
    {
      Unindex(path);
    }

    /** sync_pack_write for a node just taken out of the index. */
    method PackUnindexed(loc: nat, w: World, ghost rank: Path -> nat)
      requires Ring() && Indexed({loc}) && Cached() && Ranked(w.relation, rank)
      requires loc < QUEUE_SIZE && !node[loc].isEmpty && Live(node[loc])
      requires forall p :: p in shs ==> shs[p] != loc
      modifies `shs, `cachePath, `cacheResult, node
      ensures Valid() && AllSameOrPacked(old(Contents()), Contents(), w)
      ensures forall p :: p in shs ==> p in old(shs)
      ensures node[loc] == PackedNode(old(node[loc]), w)
      ensures 0 <= Place(head, loc) < old(count) && old(Contents())[Place(head, loc)] == old(node[loc])
      ensures Contents() == PackedAt(old(Contents()), Place(head, loc), w)
    {
      hide PackedNode, PackedAt, Place;
      ghost var n := node[loc];
      PackWrite(loc, w, rank, {loc});
      PackedIsNotLive(n, w);
    }

    /** Take a waiting node out of the index; the cache is emptied if it holds the path. */
    method TakeOut(path: Path, loc: nat)
      requires Valid() && path in shs && shs[path] == loc && Waits(loc, path)
      modifies `shs, `cacheResult
      ensures Indexed({loc}) && Cached() && shs == old(shs) - {path} && forall p :: p in shs ==> shs[p] != loc
    {
      hide Ring;
      shs := shs - {path};
      if path == cachePath {
        cacheResult := None;
      }
    }

    /** sync_pack_write_path. */
    method PackWritePath(path: Path, w: World, ghost rank: Path -> nat)
      requires Valid() && Ranked(w.relation, rank)
      modifies `shs, `cachePath, `cacheResult, node
      ensures Valid() && path !in shs && AllSameOrPacked(old(Contents()), Contents(), w)
      ensures Contents() == PackedPath(old(Contents()), path, w)
    {
      hide Window, PackedNode, PackedAt, Place, Cached;
      IndexFinds(path, {});
      var r := Find(path);
      if r.Some? {
        var loc := r.value;
        assert Waits(loc, path);
        TakeOut(path, loc);
        PackUnindexed(loc, w, rank);
      }
    }

    // -------------------------------------------------------------------
    // Execution rounds
    // -------------------------------------------------------------------

    /** The first part of a round of sync_execute: how far this round will go. */
    method Snapshot() returns (recordTail: nat)
      requires Ring()
      ensures recordTail == head + if count == QUEUE_SIZE then 0 else count
    {
      recordTail := if tail >= head then tail else tail + QUEUE_SIZE;
    }

    /** One step of a round: pack the first node if writes can still join it, send it, and
        take it out of the queue. */
    method ExecuteOne(w: World, ghost rank: Path -> nat) returns (sent: Node)
      requires Valid() && Ranked(w.relation, rank) && count > 0
      modifies this, node
      ensures Valid() && head == Slot(old(head), 1)
      ensures !Live(sent) && SameOrPacked(old(Contents())[0], sent, w)
      ensures AllSameOrPacked(old(Contents())[1..], Contents(), w)
      ensures var t := Head(old(Contents()), w); sent == t[0] && Contents() == t[1..]
    {
      FirstOccupied();
      hide PackedNode, PackedAt, Window;
      var q := head;
      assert Slot(head, 0) == q && Place(head, q) == 0;
      ghost var s := Contents();
      assert s[0] == node[q] && !node[q].isEmpty;
      if Live(node[q]) {
        PackFirst(w, rank);
      }
      assert Contents() == Head(s, w);
      FirstOccupied();
      sent := node[q];
      var n := Dequeue();
    }

    // -------------------------------------------------------------------
    // Client calls, and a whole round
    // -------------------------------------------------------------------

    /** The queue's part of one file system operation.  Where the ring is full, the enqueuer
        waits, and nothing has happened yet. */
    method Do(call: Call, w: World, ghost rank: Path -> nat)
      requires Valid() && Ranked(w.relation, rank) && CallOk(call)
      modifies this, node
      ensures Valid() && head == old(head) && AllEvolved(old(Contents()), Contents())
      ensures Contents() == Called(old(Contents()), call, w)
      ensures count == old(count) + if old(Queues(Contents(), call)) && old(count) < QUEUE_SIZE then 1 else 0
      ensures count > old(count) ==> Brings(call, Contents()[old(count)])
    {
      hide Window, PackedNode, PackedPath, Place, Indexed, Cached, Queues, Brings;
      ghost var start := Contents();
      Occupied();
      CallAdds(start, call, w);
      match call
      case NewFile(path, time) =>
        PackWritePath(path, w, rank);
        PackingEvolves(start, Contents(), w);
        var ok := Enqueue(NEWFILE, path, [], time, 0);
      case WriteTo(path, time, baseVer) =>
        IndexFinds(path, {});
        var r := Find(path);
        if r.None? {
          var ok := Enqueue(WRITE, path, [], time, baseVer);
        }
      case Other(op, src, dst, time, baseVer) =>
        var ok := Enqueue(op, src, dst, time, baseVer);
      case Forget(path) => DoDelete(path);
      case TruncateToZero(path) => DoDeleteWrite(path);
      case PackNow(path) =>
        PackWritePath(path, w, rank);
        PackingEvolves(start, Contents(), w);
    }

    method DoDelete(path: Path)
      requires Valid()
      modifies this, node
      ensures Valid() && head == old(head) && AllEvolved(old(Contents()), Contents())
      ensures Contents() == Settled(old(Contents()), path, false)
    {
      hide Window;
      IndexFinds(path, {});
      if path in shs {
        assert Waits(shs[path], path);
        PlaceSlot(head, shs[path]);
      }
      Delete(path);
    }

    method DoDeleteWrite(path: Path)
      requires Valid()
      modifies this, node
      ensures Valid() && head == old(head) && AllEvolved(old(Contents()), Contents())
      ensures Contents() == Settled(old(Contents()), path, true)
    {
      hide Window;
      IndexFinds(path, {});
      if path in shs {
        assert Waits(shs[path], path);
        PlaceSlot(head, shs[path]);
      }
      DeleteWrite(path);
    }

    /** Any number of operations, each in its own world. */
    method DoAll(calls: seq<(Call, World)>)
      requires Valid() && CallsOk(calls)
      modifies this, node
      ensures Valid() && head == old(head) && AllEvolved(old(Contents()), Contents())
      ensures Contents() == CalledAll(old(Contents()), calls)
    {
      hide Ring, Window, PackedNode, Indexed, Cached, Live, CallOk, Called;
      ghost var start := Contents();
      EvolvesNot(start);
      for i := 0 to |calls|
        invariant Valid() && head == old(head) && AllEvolved(start, Contents())
        invariant Contents() == CalledAll(start, calls[..i])
      {
        assert CallOk(calls[i].0) && Acyclic(calls[i].1.relation);
        ghost var rank: Path -> nat :| Ranked(calls[i].1.relation, rank);
        ghost var before := Contents();
        Do(calls[i].0, calls[i].1, rank);
        CalledMore(start, calls[..i], calls[i]);
        assert calls[..i + 1] == calls[..i] + [calls[i]];
        EvolvesOn(start, before, Contents());
      }
      assert calls[..|calls|] == calls;
    }

    /** One step of a round, with the operations that come before it. */
    method Step(m: Moment) returns (n: Node)
      requires Valid() && MomentOk(m) && count > 0
      modifies this, node
      ensures Valid() && head == Slot(old(head), 1) && !Live(n) && AllEvolved(old(Contents()), [n] + Contents())
      ensures var t := CalledAll(old(Contents()), m.calls);
              t != [] && n == Head(t, m.world)[0] && Contents() == Head(t, m.world)[1..]
    {
      NeverShorter(Contents(), m.calls);
      hide Ring, Window, PackedNode, Indexed, Cached, Live, CallsOk, Slot, CalledAll, Head;
      ghost var rank: Path -> nat :| Ranked(m.world.relation, rank);
      ghost var start := Contents();
      DoAll(m.calls);
      ghost var middle := Contents();
      Occupied();
      n := ExecuteOne(m.world, rank);
      FirstSent(middle, n, Contents(), m.world);
      EvolvesOn(start, middle, [n] + Contents());
    }

    /** What has been sent after some steps, and what is left. */
    ghost predicate HasSent(s: seq<Node>, between: nat -> Moment, sent: seq<Node>)
      requires Ring()
      reads `head, `tail, `count, node
    {
      && |sent| <= |s| && Drained(s, Moments(between, |sent|)) == Progress(sent, Contents())
      && AllEvolved(s, sent + Contents()) && forall n <- sent :: !Live(n)
    }

    /** One more step. */
    method DrainNext(ghost s: seq<Node>, between: nat -> Moment, done: seq<Node>) returns (sent: seq<Node>)
      requires Valid() && count > 0 && |done| < |s| && HasSent(s, between, done) && MomentOk(between(|done|))
      modifies this, node
      ensures Valid() && head == Slot(old(head), 1) && count >= old(count) - 1
      ensures |sent| == |done| + 1 && HasSent(s, between, sent)
    {
      hide Ring, Window, PackedNode, Indexed, Cached, Live, Slot, AllEvolved, MomentOk;
      hide Drained, CalledAll, Head, Moments;
      ghost var before := Contents();
      var n := Step(between(|done|));
      DrainedNext(s, between, |done|);
      OneMoreSent(s, done, before, n, Contents());
      sent := done + [n];
    }

    /** The second part of a round: the nodes up to the recorded tail leave in order, with
        any operations before each step. */
    method Drain(recordTail: nat, between: nat -> Moment) returns (sent: seq<Node>)
      requires Valid() && head <= recordTail <= head + count && forall k :: MomentOk(between(k))
      modifies this, node
      ensures Valid() && |sent| == recordTail - old(head) && HasSent(old(Contents()), between, sent)
    {
      HeadInRange();
      FirstSlot(head);
      ghost var start := Contents();
      sent := [];
      EvolvesNot(start);
      DrainedNone(start, between);
      assert HasSent(start, between, sent);
      hide Ring, Window, Indexed, Cached, Slot, HasSent, MomentOk;
      var i := head;
      while i < recordTail
        invariant old(head) <= i <= recordTail && |sent| == i - old(head)
        invariant Valid() && head == Slot(old(head), i - old(head)) && recordTail - i <= count
        invariant HasSent(start, between, sent)
      {
        SlotOfIndex(old(head), i);
        assert MomentOk(between(|sent|));
        sent := DrainNext(start, between, sent);
        i := i + 1;
      }
    }

    /** A round of sync_execute, with any client calls while it sleeps and between its steps,
        each in its own world: it sends exactly the nodes that were waiting when it began, in
        order, unless the ring was full.  Then it sends nothing. */
    method Round(asleep: seq<(Call, World)>, between: nat -> Moment) returns (sent: seq<Node>)
      requires Valid() && CallsOk(asleep) && forall k :: MomentOk(between(k))
      modifies this, node
      ensures Valid() && |sent| == (if old(count) == QUEUE_SIZE then 0 else old(count))
      ensures forall n <- sent :: !Live(n)
      ensures AllEvolved(old(Contents()), sent + Contents())
      ensures |CalledAll(old(Contents()), asleep)| >= |sent|
      ensures Drained(CalledAll(old(Contents()), asleep), Moments(between, |sent|)) == Progress(sent, Contents())
      ensures var brought := Brought(old(Contents()), asleep)
                             + BroughtBetween(CalledAll(old(Contents()), asleep), Moments(between, |sent|));
              |sent| + count == old(count) + |brought| && AllEvolved(old(Contents()) + brought, sent + Contents())
    {
      ghost var start := Contents();
      Occupied();
      var recordTail := Snapshot();
      hide Ring, Window, PackedNode, Indexed, Cached, Live, Slot, Place, Brought, BroughtBetween, CalledAll, Drained;
      hide AllEvolved, Moments;
      DoAll(asleep);
      ghost var middle := Contents();
      sent := Drain(recordTail, between);
      EvolvesOn(start, middle, sent + Contents());
      OkOfMoments(between, |sent|);
      RoundBrings(start, asleep, Moments(between, |sent|));
    }

    method PackFirst(w: World, ghost rank: Path -> nat)
      requires Valid() && Ranked(w.relation, rank) && count > 0 && Live(node[head])
      modifies `shs, `cachePath, `cacheResult, node
      ensures Valid() && AllSameOrPacked(old(Contents()), Contents(), w)
      ensures !Live(node[head]) && head == old(head) && count == old(count)
      ensures old(Live(Contents()[0])) && Contents() == PackedAt(old(Contents()), 0, w)
    {
      InPlace(head);
      hide Window, PackedNode, PackedAt;
      assert Place(head, head) == 0;
      var src := node[head].src;
      var r := Find(src);
      assert r == Some(head);
      if r.Some? {
        Unindex(src);
      }
      PackedIsNotLive(node[head], w);
      PackUnindexed(head, w, rank);
    }
  }
}
