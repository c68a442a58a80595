/** The eight-slot ring shared by both queue designs of 02_threads/thread_demo.c: the value the
    protocols step through, and the in-place class that holds it in an array. */
module Ring {

  const QUEUE_SIZE := 8

  datatype RawRing = RawRing(data: seq<int>, head: int, tail: int, count: int)

  type Ring = r: RawRing | |r.data| == QUEUE_SIZE && 0 <= r.head < QUEUE_SIZE && 0 <= r.tail < QUEUE_SIZE
    witness RawRing([0, 0, 0, 0, 0, 0, 0, 0], 0, 0, 0)

  function Slot(base: int, k: int): (i: int)
    ensures 0 <= i < QUEUE_SIZE
  {
    (base + k) % QUEUE_SIZE
  }

  lemma SlotShift(base: int, a: int, j: int)
    ensures Slot(Slot(base, a), j) == Slot(base, a + j)
  {
  }

  /** Positions fewer than eight apart lie in different slots. */
  lemma SlotsApart(base: int, k: int, m: int)
    requires k < m < k + QUEUE_SIZE
    ensures Slot(base, k) != Slot(base, m)
  {
  }

  /** `data[tail] = val`, `tail = (tail + 1) % QUEUE_SIZE` and their mirror at the head. */
  function WriteSlot(r: Ring, val: int): Ring { r.(data := r.data[r.tail := val]) }
  function AdvanceTail(r: Ring): Ring { r.(tail := Slot(r.tail, 1)) }
  function ReadSlot(r: Ring): int { r.data[r.head] }
  function AdvanceHead(r: Ring): Ring { r.(head := Slot(r.head, 1)) }

  /** What the ring holds, read from `head` for `count` slots. */
  function Contents(r: Ring): seq<int>
    requires 0 <= r.count <= QUEUE_SIZE
  {
    seq(r.count, k requires 0 <= k < r.count => r.data[Slot(r.head, k)])
  }

  /** The ring between two operations: the tail lies `count` slots past the head. */
  predicate Settled(r: Ring) {
    0 <= r.count <= QUEUE_SIZE && r.tail == Slot(r.head, r.count)
  }

  /** The guarded updates of `queue_push` and `queue_pop`, on the value. */
  function Pushed(r: Ring, val: int): Ring { AdvanceTail(WriteSlot(r, val)).(count := r.count + 1) }
  function Popped(r: Ring): Ring { AdvanceHead(r).(count := r.count - 1) }

  lemma PushedContents(r: Ring, val: int)
    requires Settled(r) && r.count < QUEUE_SIZE
    ensures Settled(Pushed(r, val)) && Contents(Pushed(r, val)) == Contents(r) + [val]
  {
    var r' := Pushed(r, val);
    SlotShift(r.head, r.count, 1);
    forall k | 0 <= k < r.count ensures Contents(r')[k] == Contents(r)[k] {
      SlotsApart(r.head, k, r.count);
    }
  }

  lemma PoppedContents(r: Ring)
    requires Settled(r) && r.count > 0
    ensures Settled(Popped(r)) && Contents(r) == [ReadSlot(r)] + Contents(Popped(r))
  {
    var r' := Popped(r);
    SlotShift(r.head, 1, r.count - 1);
    forall k | 0 <= k < r.count - 1 ensures Contents(r')[k] == Contents(r)[k + 1] {
      SlotShift(r.head, 1, k);
    }
  }

  /** The queue as the C struct holds it: a fixed array and three indices, updated in place. */
  class BoundedQueue {
    const data: array<int>
    var head: int
    var tail: int
    var count: int

    ghost predicate Valid() reads this, data {
      && data.Length == QUEUE_SIZE
      && 0 <= head < QUEUE_SIZE && 0 <= tail < QUEUE_SIZE
      && Settled(RawRing(data[..], head, tail, count))
    }

    ghost function View(): (r: Ring)
      requires Valid()
      reads this, data
    {
      RawRing(data[..], head, tail, count)
    }

    /** A static queue starts zeroed; a queue used before may start at any rotation. */
    constructor (rotation: nat)
      requires rotation < QUEUE_SIZE
      ensures Valid() && fresh(data) && Contents(View()) == []
      ensures head == tail == rotation
    {
      data := new int[QUEUE_SIZE](_ => 0);
      head, tail, count := rotation, rotation, 0;
    }

    /** The guarded part of a push: refused when full, which is where the caller must wait. */
    method Push(val: int) returns (ok: bool)
      requires Valid()
      modifies this`tail, this`count, data
      ensures Valid()
      ensures ok <==> |old(Contents(View()))| < 8
      ensures Contents(View()) == if ok then old(Contents(View())) + [val] else old(Contents(View()))
      ensures ok ==> View() == Pushed(old(View()), val)
      ensures ok ==> tail == (old(tail) + 1) % 8 && data[..] == old(data[..])[old(tail) := val]
      ensures !ok ==> View() == old(View())
    {
      if count == QUEUE_SIZE {
        return false;
      }
      PushedContents(View(), val);
      data[tail] := val;
      tail := (tail + 1) % QUEUE_SIZE;
      count := count + 1;
      ok := true;
      assert RawRing(data[..], head, tail, count) == Pushed(old(View()), val);
    }

    /** The guarded part of a pop: refused when empty. */
    method Pop() returns (ok: bool, val: int)
      requires Valid()
      modifies this`head, this`count
      ensures Valid()
      ensures ok <==> |old(Contents(View()))| > 0
      ensures old(Contents(View())) == if ok then [val] + Contents(View()) else Contents(View())
      ensures ok ==> View() == Popped(old(View()))
      ensures ok ==> head == (old(head) + 1) % 8 && val == data[old(head)]
      ensures !ok ==> View() == old(View())
    {
      if count == 0 {
        return false, 0;
      }
      PoppedContents(View());
      val := data[head];
      head := (head + 1) % QUEUE_SIZE;
      count := count - 1;
      ok := true;
      assert RawRing(data[..], head, tail, count) == Popped(old(View()));
    }
  }
}
