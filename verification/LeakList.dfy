/** The tracker of 05_memory/memory_demo.c as it runs: a singly linked list changed in place, with the
    pointer-to-pointer walk that unlinks a record. Each call does to the list what its
    specification does to the sequence of records. */
module LeakList {
  import opened StepSystem
  import opened LeakTracker

  class Node {
    var ptr: nat
    var size: nat
    var addr: nat
    var next: Node?

    constructor (ptr: nat, size: nat, addr: nat, next: Node?)
      ensures this.ptr == ptr && this.size == size && this.addr == addr && this.next == next
    {
      this.ptr, this.size, this.addr, this.next := ptr, size, addr, next;
    }
  }

  class Tracker {
    var head: Node?
    var total: nat
    var live: map<nat, nat>
    var log: seq<HeapEvent>
    ghost var nodes: seq<Node>

    ghost function At(i: nat): Node?
      reads this
    {
      if i < |nodes| then nodes[i] else null
    }

    /** The list is the chain of nodes, without a cycle. */
    ghost predicate Valid() reads this, nodes {
      && head == At(0)
      && (forall i {:trigger nodes[i].next} :: 0 <= i < |nodes| ==> nodes[i].next == At(i + 1))
      && (forall i, j :: 0 <= i < j < |nodes| ==> nodes[i] != nodes[j])
    }

    ghost function Records(): (r: seq<Record>)
      reads this, nodes
      ensures |r| == |nodes|
    {
      seq(|nodes|, i requires 0 <= i < |nodes| reads this, nodes =>
        Record(nodes[i].ptr, nodes[i].size, nodes[i].addr))
    }

    ghost function View(): World reads this, nodes { World(live, Records(), total, log) }

    constructor ()
      ensures Valid() && Init(View())
    {
      head, total, live, log := null, 0, map[], [];
      nodes := [];
    }

    /** `tracked_malloc`, with the heap's answer to its two allocations; zero is NULL. */
    method Malloc(size: nat, answer: Option<(nat, nat)>) returns (p: nat)
      requires Valid()
      modifies this
      ensures Valid() && fresh(set n | n in nodes && n !in old(nodes))
      ensures View() == Apply(old(View()), Op.Malloc(size, answer))
      ensures match answer
              case None => p == 0 && View() == old(View())
              case Some((block, record)) =>
                && p == block
                && Records() == [Record(block, size, record)] + old(Records())
                && total == (old(total) + size) % 0x1_0000_0000_0000_0000
                && live == old(live)[block := size][record := 24]
                && log == old(log) + [Malloced(block), Malloced(record)]
    {
      match answer
      case None =>
        p := 0;
      case Some((block, record)) =>
        p := block;
        var rec := new Node(p, size, record, head);
        head := rec;
        nodes := [rec] + nodes;
        total := (total + size) % WORD;
        live := live[p := size][record := RECORD_SIZE];
        log := log + [Malloced(p), Malloced(record)];
    }

    /** `*cur = tmp->next`, through the head or through the previous record. */
    method Unlink(prev: Node?, cur: Node, ghost i: nat)
      requires Valid() && i < |nodes| && cur == nodes[i]
      requires prev == if i == 0 then null else nodes[i - 1]
      modifies this`head, this`nodes, nodes
      ensures Valid()
      ensures nodes == old(nodes)[..i] + old(nodes)[i + 1..]
      ensures Records() == Without(old(Records()), i)
    {
      if prev == null {
        head := cur.next;
      } else {
        prev.next := cur.next;
      }
      nodes := nodes[..i] + nodes[i + 1..];
    }

    /** `tracked_free`: `prev` stands for the pointer slot being examined, null for the list head. */
    method Free(ptr: nat) returns (found: bool, ghost i: nat)
      requires Valid()
      modifies this, nodes
      ensures Valid() && forall n :: n in nodes ==> n in old(nodes)
      ensures View() == Apply(old(View()), Op.Free(ptr))
      ensures i <= |old(Records())| && forall k :: 0 <= k < i ==> old(Records())[k].ptr != ptr
      ensures found ==> i < |old(Records())| && old(Records())[i].ptr == ptr && Drops(old(View()), View(), i)
      ensures !found ==> i == |old(Records())| && View() == old(View())
    {
      ghost var records := Records();
      var prev: Node? := null;
      var cur := head;
      i := 0;
      while cur != null
        invariant 0 <= i <= |nodes| && cur == At(i)
        invariant prev == if i == 0 then null else nodes[i - 1]
        invariant forall k :: 0 <= k < i ==> records[k].ptr != ptr
        decreases |nodes| - i
        modifies {}
      {
        assert records[i].ptr == cur.ptr;
        if cur.ptr == ptr {
          break;
        }
        prev := cur;
        cur := cur.next;
        i := i + 1;
      }
      if cur == null {
        return false, i;
      }
      assert Find(records, ptr) == i;
      FreeDrops(View(), ptr);
      var size, addr := cur.size, cur.addr;
      Unlink(prev, cur, i);
      total := (total - size) % WORD;
      live := live - {addr, ptr};
      log := log + [Freed(addr), Freed(ptr)];
      found := true;
    }

    /** `check_leaks`. */
    method Report() returns (r: LeakTracker.Report)
      requires Valid()
      ensures r == CheckLeaks(View())
      ensures r.NoLeaks? <==> |Records()| == 0
      ensures r.Leaks? ==> r.total == total && |r.lines| == |Records()|
                           && forall i :: 0 <= i < |r.lines| ==> r.lines[i] == (Records()[i].ptr, Records()[i].size)
    {
      if head == null {
        return NoLeaks;
      }
      var lines: seq<(nat, nat)> := [];
      var cur := head;
      while cur != null
        invariant |lines| <= |nodes| && cur == At(|lines|)
        invariant lines == Lines(Records())[..|lines|]
        decreases |nodes| - |lines|
      {
        lines := lines + [(cur.ptr, cur.size)];
        cur := cur.next;
      }
      r := Leaks(lines, total);
    }
  }
}
