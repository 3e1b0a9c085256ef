/** Both queues of the client together.  Whatever is packed is packed with the relations there
    are at that moment, which calls and expiries change all the time. */
module ClientQueues {
  import opened Relations
  import opened Rings
  import opened QueueSpec
  import SyncQueue
  import RelationQueue

  /** What packing needs to know besides the relations. */
  datatype Facts = Facts(version: Path -> nat, writesPay: Path -> bool, deltaPath: Path -> Path)

  /** What may happen at any time: a call of one of the two queues, or the oldest relation
      expires.  A file system operation is a few of these in a row. */
  datatype Event =
    | OnSync(sync: Call, facts: Facts)
    | OnRelations(relation: RelationQueue.Call)
    | Expiry

  predicate EventOk(e: Event) {
    match e
    case OnSync(call, facts) => CallOk(call)
    case OnRelations(call) => RelationQueue.CallOk(call)
    case Expiry => true
  }

  ghost predicate EventsOk(events: seq<Event>) {
    forall e <- events :: EventOk(e)
  }

  // ---------------------------------------------------------------------
  // Both queues as lists
  // ---------------------------------------------------------------------

  /** The world as the relations make it: one still fits while its target has the version that
      the relation was made with. */
  function WorldOf(r: seq<RelationQueue.Node>, facts: Facts): (w: World) {
    var links := RelationQueue.LinksIn(r);
    var fits := set p | p in links && facts.version(links[p]) == RelationQueue.Relation(r, p)[0].time;
    World(links, fits, facts.version, facts.writesPay, facts.deltaPath)
  }

  /** What an event makes of the relations. */
  function RelationsAfter(r: seq<RelationQueue.Node>, e: Event): (t: seq<RelationQueue.Node>) {
    match e
    case OnSync(_, _) => r
    case OnRelations(call) => RelationQueue.Called(r, call)
    case Expiry => if r == [] then r else r[1..]
  }

  function RelationsAfterAll(r: seq<RelationQueue.Node>, events: seq<Event>): (t: seq<RelationQueue.Node>) {
    if events == [] then r
    else RelationsAfter(RelationsAfterAll(r, events[..|events| - 1]), events[|events| - 1])
  }

  /** The calls of the sync queue among some events, each with the world it finds. */
  function Trace(r: seq<RelationQueue.Node>, events: seq<Event>): (calls: seq<(Call, World)>) {
    if events == [] then [] else
    var e := events[|events| - 1];
    Trace(r, events[..|events| - 1])
    + if e.OnSync? then [(e.sync, WorldOf(RelationsAfterAll(r, events[..|events| - 1]), e.facts))] else []
  }

  lemma {:induction false} OneMoreEvent(r: seq<RelationQueue.Node>, events: seq<Event>, e: Event)
    ensures var t := RelationsAfterAll(r, events);
            && RelationsAfterAll(r, events + [e]) == RelationsAfter(t, e)
            && Trace(r, events + [e]) == Trace(r, events) + if e.OnSync? then [(e.sync, WorldOf(t, e.facts))] else []
  {
    assert (events + [e])[..|events|] == events;
  }

  lemma {:induction false} NoEvents(r: seq<RelationQueue.Node>)
    ensures RelationsAfterAll(r, []) == r && Trace(r, []) == []
  {
  }

  lemma {:induction false} TraceOk(r: seq<RelationQueue.Node>, events: seq<Event>)
    requires EventsOk(events)
    ensures forall c <- Trace(r, events) :: CallOk(c.0)
    decreases |events|
  {
    if events != [] {
      TraceOk(r, events[..|events| - 1]);
      assert EventOk(events[|events| - 1]);
    }
  }

  /** The relations after the first n steps of a round, and the events before each. */
  function RelationsBetween(r: seq<RelationQueue.Node>, between: nat -> seq<Event>, n: nat)
    : (t: seq<RelationQueue.Node>)
  {
    if n == 0 then r else RelationsAfterAll(RelationsBetween(r, between, n - 1), between(n - 1))
  }

  /** What the sync queue sees of the events before a step, and of the world in it. */
  function MomentAt(r: seq<RelationQueue.Node>, between: nat -> seq<Event>, facts: nat -> Facts, n: nat): (m: Moment) {
    Moment(Trace(RelationsBetween(r, between, n), between(n)),
           WorldOf(RelationsBetween(r, between, n + 1), facts(n)))
  }

  function MomentsOf(r: seq<RelationQueue.Node>, between: nat -> seq<Event>, facts: nat -> Facts)
    : (moments: nat -> Moment)
  {
    (n: nat) => MomentAt(r, between, facts, n)
  }

  lemma {:induction false} MomentsOk(r: seq<RelationQueue.Node>, between: nat -> seq<Event>, facts: nat -> Facts,
                                     n: nat)
    requires forall k :: EventsOk(between(k))
    ensures AllCallsOk(Moments(MomentsOf(r, between, facts), n))
  {
    forall m | m in Moments(MomentsOf(r, between, facts), n) ensures forall c <- m.calls :: CallOk(c.0) {
      var k :| 0 <= k < n && m == MomentAt(r, between, facts, k);
      TraceOk(RelationsBetween(r, between, k), between(k));
    }
  }

  lemma {:induction false} NextMoment(s: seq<Node>, r: seq<RelationQueue.Node>, between: nat -> seq<Event>,
                                      facts: nat -> Facts, k: nat, p: Progress, t: seq<RelationQueue.Node>, n: Node,
                                      left: seq<Node>)
    requires k < |s| && Drained(s, Moments(MomentsOf(r, between, facts), k)) == p
    requires t == RelationsBetween(r, between, k)
    requires var u := CalledAll(p.left, Trace(t, between(k)));
             && u != []
             && var h := Head(u, WorldOf(RelationsAfterAll(t, between(k)), facts(k)));
                n == h[0] && left == h[1..]
    ensures Drained(s, Moments(MomentsOf(r, between, facts), k + 1)) == Progress(p.sent + [n], left)
    ensures RelationsBetween(r, between, k + 1) == RelationsAfterAll(t, between(k))
  {
    hide Drained, Moments, CalledAll, Head, Trace, WorldOf, RelationsAfterAll;
    DrainedNext(s, MomentsOf(r, between, facts), k);
  }

  /** A file moved away and made anew goes out as a delta against what it was moved to,
      exactly when that still is the version that was moved. */
  lemma {:induction false} MovedAndMadeAnew(r: seq<RelationQueue.Node>, src: Path, dst: Path, time: nat, facts: Facts,
                                            n: Node)
    requires src != dst && |r| < QUEUE_SIZE && n.op == NEWFILE && n.src == src
    ensures var w := WorldOf(RelationQueue.Called(r, RelationQueue.Renamed(src, dst, time)), facts);
            var m := PackedNode(n, w);
            && (m.op == DELTA <==> facts.version(dst) == time)
            && (if m.op == DELTA then m.dst == src && m.baseVer == time && m.time == n.time
                else m == n.(isPacked := true))
  {
    var t := RelationQueue.Called(r, RelationQueue.Renamed(src, dst, time));
    hide RelationQueue.Called;
    RelationQueue.AfterRename(r, src, dst, time, src);
    RelationQueue.FoundInList(t, src);
  }

  /** A removed file made anew goes out as a delta against its temporary name, likewise. */
  lemma {:induction false} RemovedAndMadeAnew(r: seq<RelationQueue.Node>, path: Path, tmp: Path, time: nat,
                                              facts: Facts, n: Node)
    requires |r| < QUEUE_SIZE && n.op == NEWFILE && n.src == path
    ensures var w := WorldOf(RelationQueue.Called(r, RelationQueue.Unlinked(path, tmp, time)), facts);
            var m := PackedNode(n, w);
            && (m.op == DELTA <==> facts.version(tmp) == time)
            && (if m.op == DELTA then m.dst == path && m.baseVer == time && m.time == n.time
                else m == n.(isPacked := true))
  {
    var t := RelationQueue.Called(r, RelationQueue.Unlinked(path, tmp, time));
    hide RelationQueue.Called;
    RelationQueue.AfterUnlink(r, path, tmp, time, path);
    RelationQueue.FoundInList(t, path);
  }

  // ---------------------------------------------------------------------
  // The queues themselves
  // ---------------------------------------------------------------------

  class Queues {
    const sync: SyncQueue.Queue
    const rel: RelationQueue.Queue

    ghost predicate Sound()
      reads this, sync, sync.node, rel, rel.node
    {
      sync.Valid() && rel.Sound()
    }

    /** The waiting relations. */
    ghost function Renames(): (r: seq<RelationQueue.Node>)
      requires rel.Sound()
      reads this, rel, rel.node
    {
      rel.Contents()
    }

    constructor ()
      ensures Sound() && fresh(sync) && fresh(sync.node) && fresh(rel) && fresh(rel.node)
      ensures sync.count == 0 == rel.count
    {
      sync := new SyncQueue.Queue();
      rel := new RelationQueue.Queue();
    }

    /** The world as it is now. */
    method Now(facts: Facts) returns (w: World)
      requires rel.Sound()
      ensures w == WorldOf(Renames(), facts) && w.relation == rel.Links()
    {
      hide RelationQueue.LinksIn, RelationQueue.Relation, Acyclic;
      rel.LinksAre();
      var fits := set p | p in rel.rhs && facts.version(rel.node[rel.rhs[p]].dst) == rel.node[rel.rhs[p]].time;
      w := World(rel.Links(), fits, facts.version, facts.writesPay, facts.deltaPath);
      assert w.fits == WorldOf(Renames(), facts).fits;
    }

    method Do(e: Event)
      requires Sound() && EventOk(e)
      modifies sync, sync.node, rel, rel.node
      ensures Sound() && sync.head == old(sync.head)
      ensures AllEvolved(old(sync.Contents()), sync.Contents())
      ensures sync.Contents()
              == if e.OnSync? then Called(old(sync.Contents()), e.sync, WorldOf(old(Renames()), e.facts))
                 else old(sync.Contents())
      ensures Renames() == RelationsAfter(old(Renames()), e)
    {
      hide Acyclic, AllEvolved, WorldOf, Called, RelationQueue.Called;
      EvolvesNot(sync.Contents());
      assert [] + sync.Contents() == sync.Contents();
      match e
      case OnSync(call, facts) =>
        var w := Now(facts);
        ghost var rank: Path -> nat := RankOf(w.relation);
        sync.Do(call, w, rank);
      case OnRelations(call) => rel.Do(call);
      case Expiry => ExpireOldest();
    }

    method ExpireOldest()
      requires rel.Sound()
      modifies rel, rel.node
      ensures rel.Sound()
      ensures Renames() == if old(Renames()) == [] then [] else old(Renames())[1..]
    {
      ghost var links := rel.Links();
      rel.Dequeue();
      FewerAcyclic(links, rel.Links());
    }

    /** What both queues have become. */
    ghost predicate Ran(s: seq<Node>, r: seq<RelationQueue.Node>, events: seq<Event>)
      requires Sound()
      reads this, sync, sync.node, rel, rel.node
    {
      && sync.Contents() == CalledAll(s, Trace(r, events)) && Renames() == RelationsAfterAll(r, events)
      && AllEvolved(s, sync.Contents())
    }

    /** One more event. */
    method DoNext(e: Event, ghost s: seq<Node>, ghost r: seq<RelationQueue.Node>, ghost events: seq<Event>)
      requires Sound() && EventOk(e) && Ran(s, r, events)
      modifies sync, sync.node, rel, rel.node
      ensures Sound() && sync.head == old(sync.head) && Ran(s, r, events + [e])
    {
      hide RelationQueue.Queue.Sound, AllEvolved, WorldOf, Called, CalledAll, RelationsAfter, RelationsAfterAll, Trace;
      ghost var before := sync.Contents();
      Do(e);
      OneMoreEvent(r, events, e);
      EvolvesOn(s, before, sync.Contents());
      TraceGoesOn(s, r, events, e);
    }

    method DoAll(events: seq<Event>)
      requires Sound() && EventsOk(events)
      modifies sync, sync.node, rel, rel.node
      ensures Sound() && sync.head == old(sync.head) && Ran(old(sync.Contents()), old(Renames()), events)
    {
      ghost var start, r := sync.Contents(), Renames();
      EvolvesNot(start);
      assert [] + start == start;
      NoEvents(r);
      NoCalls(start);
      assert Ran(start, r, []);
      hide RelationQueue.Queue.Sound, Ran;
      for i := 0 to |events|
        invariant Sound() && sync.head == old(sync.head) && Ran(start, r, events[..i])
      {
        assert EventOk(events[i]);
        DoNext(events[i], start, r, events[..i]);
        assert events[..i + 1] == events[..i] + [events[i]];
      }
      assert events[..|events|] == events;
    }

    lemma {:induction false} TraceGoesOn(s: seq<Node>, r: seq<RelationQueue.Node>, events: seq<Event>, e: Event)
      ensures var t := CalledAll(s, Trace(r, events));
              CalledAll(s, Trace(r, events + [e]))
              == if e.OnSync? then Called(t, e.sync, WorldOf(RelationsAfterAll(r, events), e.facts)) else t
    {
      hide CalledAll, Called, WorldOf;
      OneMoreEvent(r, events, e);
      if e.OnSync? {
        CalledMore(s, Trace(r, events), (e.sync, WorldOf(RelationsAfterAll(r, events), e.facts)));
      } else {
        assert Trace(r, events) + [] == Trace(r, events);
      }
    }

    /** One step of a round of sync_execute, with what happens before it. */
    method Step(events: seq<Event>, facts: Facts) returns (n: Node)
      requires Sound() && EventsOk(events) && sync.count > 0
      modifies sync, sync.node, rel, rel.node
      ensures Sound() && sync.head == Slot(old(sync.head), 1) && !Live(n)
      ensures AllEvolved(old(sync.Contents()), [n] + sync.Contents())
      ensures Renames() == RelationsAfterAll(old(Renames()), events)
      ensures var t := CalledAll(old(sync.Contents()), Trace(old(Renames()), events));
              && t != []
              && var h := Head(t, WorldOf(Renames(), facts));
                 n == h[0] && sync.Contents() == h[1..]
    {
      hide Head, WorldOf, CalledAll, Trace, RelationsAfterAll;
      ghost var start := sync.Contents();
      DoAll(events);
      ghost var middle := sync.Contents();
      NoCalls(middle);
      var w := Now(facts);
      n := sync.Step(Moment([], w));
      EvolvesOn(start, middle, [n] + sync.Contents());
    }

    lemma {:induction false} NoCalls(s: seq<Node>)
      ensures CalledAll(s, []) == s
    {
    }

    /** The nodes up to the recorded tail leave in order, with anything before each step. */
    method Drain(recordTail: nat, between: nat -> seq<Event>, facts: nat -> Facts) returns (sent: seq<Node>)
      requires Sound() && sync.head <= recordTail <= sync.head + sync.count && forall k :: EventsOk(between(k))
      modifies sync, sync.node, rel, rel.node
      ensures Sound() && |sent| == recordTail - old(sync.head) && forall n <- sent :: !Live(n)
      ensures AllEvolved(old(sync.Contents()), sent + sync.Contents())
      ensures Drained(old(sync.Contents()), Moments(MomentsOf(old(Renames()), between, facts), |sent|))
              == Progress(sent, sync.Contents())
      ensures Renames() == RelationsBetween(old(Renames()), between, |sent|)
    {
      sync.HeadInRange();
      FirstSlot(sync.head);
      hide RelationQueue.Queue.Sound, AllEvolved, Live, Slot, EventsOk;
      hide SyncQueue.Queue.Ring, SyncQueue.Queue.Indexed, SyncQueue.Queue.Cached;
      hide Drained, Moments, MomentsOf, CalledAll, Head, Trace, WorldOf, RelationsAfterAll;
      ghost var start, r := sync.Contents(), Renames();
      sent := [];
      EvolvesNot(start);
      DrainedNone(start, MomentsOf(r, between, facts));
      var first := sync.head;
      var i := first;
      while i < recordTail
        invariant first == old(sync.head) <= i <= recordTail && |sent| == i - first
        invariant Sound() && sync.Valid() && sync.head == Slot(first, i - first) && recordTail - i <= sync.count
        invariant forall n <- sent :: !Live(n)
        invariant AllEvolved(start, sent + sync.Contents())
        invariant Drained(start, Moments(MomentsOf(r, between, facts), |sent|)) == Progress(sent, sync.Contents())
        invariant Renames() == RelationsBetween(r, between, |sent|)
      {
        SlotOfIndex(first, i);
        ghost var before, done := sync.Contents(), sent;
        ghost var t := Renames();
        var n := Step(between(|sent|), facts(|sent|));
        NextMoment(start, r, between, facts, |sent|, Progress(sent, before), t, n, sync.Contents());
        OneMoreSent(start, done, before, n, sync.Contents());
        sent := sent + [n];
        i := i + 1;
      }
    }

    /** A round of sync_execute, while anything at all happens to both queues, before its first
        step and between its steps: it sends exactly the nodes that were waiting when it began,
        in order, unless the ring was full, when it sends nothing; following relations ends
        whenever a node is packed; and the nodes that the calls made meanwhile bring stand
        behind those that were waiting. */
    method Round(asleep: seq<Event>, between: nat -> seq<Event>, facts: nat -> Facts) returns (sent: seq<Node>)
      requires Sound() && EventsOk(asleep) && forall k :: EventsOk(between(k))
      modifies sync, sync.node, rel, rel.node
      ensures Sound() && |sent| == if old(sync.count) == QUEUE_SIZE then 0 else old(sync.count)
      ensures forall n <- sent :: !Live(n)
      ensures AllEvolved(old(sync.Contents()), sent + sync.Contents())
      ensures var calls, r := Trace(old(Renames()), asleep), RelationsAfterAll(old(Renames()), asleep);
              var t, moments := CalledAll(old(sync.Contents()), calls), Moments(MomentsOf(r, between, facts), |sent|);
              && |sent| <= |t| && Drained(t, moments) == Progress(sent, sync.Contents())
              && Renames() == RelationsBetween(r, between, |sent|)
              && var brought := Brought(old(sync.Contents()), calls) + BroughtBetween(t, moments);
                 && |sent| + sync.count == old(sync.count) + |brought|
                 && AllEvolved(old(sync.Contents()) + brought, sent + sync.Contents())
    {
      sync.Occupied();
      ghost var start, earlier := sync.Contents(), Renames();
      var recordTail := sync.Snapshot();
      sync.HeadInRange();
      hide RelationQueue.Queue.Sound, Live, Drained, Moments, MomentsOf, CalledAll, Trace, RelationsAfterAll;
      hide Brought, BroughtBetween, RelationsBetween, AllEvolved;
      DoAll(asleep);
      ghost var middle, r := sync.Contents(), Renames();
      sent := Drain(recordTail, between, facts);
      EvolvesOn(start, middle, sent + sync.Contents());
      TraceOk(earlier, asleep);
      MomentsOk(r, between, facts, |sent|);
      RoundBrings(start, Trace(earlier, asleep), Moments(MomentsOf(r, between, facts), |sent|));
    }
  }

  ghost function RankOf(links: map<Path, Path>): (rank: Path -> nat)
    requires Acyclic(links)
    ensures Ranked(links, rank)
  {
    var rank :| Ranked(links, rank);
    rank
  }
}
