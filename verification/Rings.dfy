/** Positions in a ring of QUEUE_SIZE slots, all of which can be in use. */
module Rings {
  const QUEUE_SIZE := 65536

  /** The k-th slot from the head. */
  function Slot(head: nat, k: nat): (r: nat) {
    if head + k < QUEUE_SIZE then head + k else head + k - QUEUE_SIZE
  }

  /** How far behind the head a slot lies. */
  function Place(head: nat, loc: nat): (r: int) {
    if loc >= head then loc - head else loc - head + QUEUE_SIZE
  }

  lemma {:induction false} SlotPlace(head: nat, k: nat)
    requires head < QUEUE_SIZE && k < QUEUE_SIZE
    ensures Slot(head, k) < QUEUE_SIZE && Place(head, Slot(head, k)) == k
  {
  }

  lemma {:induction false} PlaceSlot(head: nat, loc: nat)
    requires head < QUEUE_SIZE && loc < QUEUE_SIZE
    ensures 0 <= Place(head, loc) < QUEUE_SIZE && Slot(head, Place(head, loc)) == loc
  {
  }

  /** With the first slot given up, every other slot is one nearer to the head. */
  lemma {:induction false} PlaceMoves(head: nat, loc: nat)
    requires head < QUEUE_SIZE && loc < QUEUE_SIZE
    ensures (head + 1) % QUEUE_SIZE == Slot(head, 1) < QUEUE_SIZE
    ensures Place(Slot(head, 1), loc) == if loc == head then QUEUE_SIZE - 1 else Place(head, loc) - 1
  {
  }

  /** A loop index that has not been wrapped names the same slot. */
  lemma {:induction false} SlotOfIndex(head: nat, i: nat)
    requires head < QUEUE_SIZE && head <= i < head + QUEUE_SIZE
    ensures Slot(head, i - head) == i % QUEUE_SIZE
    ensures Slot(Slot(head, i - head), 1) == Slot(head, i + 1 - head)
  {
  }

  lemma {:induction false} FirstSlot(head: nat)
    requires head < QUEUE_SIZE
    ensures Slot(head, 0) == head
  {
  }

  /** The nodes in use, oldest first. */
  function Window<T>(ring: seq<T>, head: nat, count: nat): (s: seq<T>)
    requires |ring| == QUEUE_SIZE && head < QUEUE_SIZE && count <= QUEUE_SIZE
    ensures |s| == count
    ensures forall k :: 0 <= k < count ==> s[k] == ring[Slot(head, k)]
  {
    seq(count, k requires 0 <= k < count => ring[Slot(head, k)])
  }

  /** Filling the slot after the last. */
  lemma {:induction false} WindowGrows<T>(ring: seq<T>, head: nat, count: nat, x: T)
    requires |ring| == QUEUE_SIZE && head < QUEUE_SIZE && count < QUEUE_SIZE
    ensures Slot(head, count) < QUEUE_SIZE
    ensures Window(ring[Slot(head, count) := x], head, count + 1) == Window(ring, head, count) + [x]
  {
    forall k | 0 <= k < count ensures Slot(head, k) != Slot(head, count) {
      SlotPlace(head, k);
      SlotPlace(head, count);
    }
  }

  /** Giving up the first slot. */
  lemma {:induction false} WindowShrinks<T>(ring: seq<T>, head: nat, count: nat, x: T)
    requires |ring| == QUEUE_SIZE && head < QUEUE_SIZE && 0 < count <= QUEUE_SIZE
    ensures Window(ring[head := x], (head + 1) % QUEUE_SIZE, count - 1) == Window(ring, head, count)[1..]
  {
    var w := Window(ring[head := x], (head + 1) % QUEUE_SIZE, count - 1);
    forall k | 0 <= k < count - 1 ensures w[k] == Window(ring, head, count)[1..][k] {
      assert Slot((head + 1) % QUEUE_SIZE, k) == Slot(head, k + 1);
      SlotPlace(head, k + 1);
    }
  }

  /** Which slots are in use once the first has been given up. */
  lemma {:induction false} UseShrinks<T>(ring: seq<T>, head: nat, count: nat, x: T, empty: T -> bool)
    requires |ring| == QUEUE_SIZE && head < QUEUE_SIZE && 0 < count <= QUEUE_SIZE && empty(x)
    requires forall loc :: 0 <= loc < QUEUE_SIZE ==> (empty(ring[loc]) <==> Place(head, loc) >= count)
    ensures forall loc :: 0 <= loc < QUEUE_SIZE ==>
                            (empty(ring[head := x][loc]) <==> Place(Slot(head, 1), loc) >= count - 1)
  {
    hide Place, Slot;
    forall loc | 0 <= loc < QUEUE_SIZE
      ensures empty(ring[head := x][loc]) <==> Place(Slot(head, 1), loc) >= count - 1
    {
      PlaceMoves(head, loc);
    }
  }

  /** Changing one node in use. */
  lemma {:induction false} WindowChanges<T>(ring: seq<T>, head: nat, count: nat, loc: nat, x: T)
    requires |ring| == QUEUE_SIZE && head < QUEUE_SIZE && count <= QUEUE_SIZE
    requires loc < QUEUE_SIZE && Place(head, loc) < count
    ensures 0 <= Place(head, loc)
    ensures Window(ring[loc := x], head, count) == Window(ring, head, count)[Place(head, loc) := x]
  {
    PlaceSlot(head, loc);
    forall k | 0 <= k < count && k != Place(head, loc) ensures Slot(head, k) != loc {
      SlotPlace(head, k);
    }
  }
}
