/** Loading and unloading 10_device_driver/chardev.c: five resources taken in order, any of which may
    fail, and the goto ladder that gives back what was taken. */
module DeviceLifecycle {

  datatype Resource = Region | Buffer | Cdev | Class | Node

  datatype Event = Acquire(r: Resource) | Release(r: Resource)

  const ORDER: seq<Resource> := [Region, Buffer, Cdev, Class, Node]

  datatype Held = Held(stack: seq<Resource>) | Broken

  /** What is held after a history, last taken first to go; broken by taking a resource twice or by
      releasing anything but the latest one. */
  function HeldAfter(log: seq<Event>): Held {
    if log == [] then Held([]) else
      var h, e := HeldAfter(log[..|log| - 1]), log[|log| - 1];
      if h.Broken? then Broken
      else if e.Acquire? then
        if e.r in h.stack then Broken else Held(h.stack + [e.r])
      else if h.stack != [] && h.stack[|h.stack| - 1] == e.r then Held(h.stack[..|h.stack| - 1])
      else Broken
  }

  /** A live cdev means callers may arrive, and they use the buffer. */
  predicate Servable(h: Held) { h.Held? && (Cdev in h.stack ==> Buffer in h.stack) }

  predicate AlwaysServable(log: seq<Event>) {
    forall k :: 0 <= k <= |log| ==> Servable(HeldAfter(log[..k]))
  }

  /** The first step of the ladder that fails, or five when none does. */
  function Reach(fails: set<Resource>): nat {
    if Region in fails then 0 else if Buffer in fails then 1 else if Cdev in fails then 2
    else if Class in fails then 3 else if Node in fails then 4 else 5
  }

  function Acquires(k: nat): seq<Event>
    requires k <= |ORDER|
  {
    seq(k, i requires 0 <= i < k => Acquire(ORDER[i]))
  }

  /** The first k resources given back, latest first. */
  function Releases(k: nat): seq<Event>
    requires k <= |ORDER|
  {
    seq(k, i requires 0 <= i < k => Release(ORDER[k - 1 - i]))
  }

  function InitTrace(fails: set<Resource>): seq<Event> {
    var k := Reach(fails);
    if k == |ORDER| then Acquires(k) else Acquires(k) + Releases(k)
  }

  /** How far the ladder gets: everything before that point succeeds and the step there, if there is
      one, fails. */
  predicate StopsAt(fails: set<Resource>, k: nat) {
    && k <= 5
    && (forall i :: 0 <= i < k ==> [Region, Buffer, Cdev, Class, Node][i] !in fails)
    && (k < 5 ==> [Region, Buffer, Cdev, Class, Node][k] in fails)
  }

  lemma Extend(log: seq<Event>, e: Event)
    requires AlwaysServable(log) && Servable(HeldAfter(log + [e]))
    ensures AlwaysServable(log + [e])
  {
    var log' := log + [e];
    forall k | 0 <= k <= |log'| ensures Servable(HeldAfter(log'[..k])) {
      assert if k <= |log| then log'[..k] == log[..k] else log'[..k] == log';
    }
  }

  /** Every stage of the ladder is servable, and the next resource is a new one. */
  lemma Stages(k: nat)
    requires k <= |ORDER|
    ensures Servable(Held(ORDER[..k]))
    ensures k < |ORDER| ==> ORDER[k] !in ORDER[..k] && ORDER[..k] + [ORDER[k]] == ORDER[..k + 1]
  {
    assert k > 2 ==> ORDER[..k][1] == Buffer;
  }

  lemma {:induction false} AcquiresHold(log: seq<Event>, k: nat)
    requires k <= |ORDER| && AlwaysServable(log) && HeldAfter(log) == Held([])
    ensures AlwaysServable(log + Acquires(k)) && HeldAfter(log + Acquires(k)) == Held(ORDER[..k])
  {
    if k == 0 {
      assert log + Acquires(0) == log;
    } else {
      AcquiresHold(log, k - 1);
      Stages(k - 1);
      Stages(k);
      var pre := log + Acquires(k - 1);
      assert log + Acquires(k) == pre + [Acquire(ORDER[k - 1])];
      assert (pre + [Acquire(ORDER[k - 1])])[..|pre|] == pre;
      Extend(pre, Acquire(ORDER[k - 1]));
    }
  }

  lemma OneBack(log: seq<Event>, k: nat)
    requires 0 < k <= |ORDER| && AlwaysServable(log) && HeldAfter(log) == Held(ORDER[..k])
    ensures var log' := log + [Release(ORDER[k - 1])];
            AlwaysServable(log') && HeldAfter(log') == Held(ORDER[..k - 1])
  {
    var e := Release(ORDER[k - 1]);
    assert (log + [e])[..|log|] == log && ORDER[..k][..k - 1] == ORDER[..k - 1];
    Stages(k - 1);
    Extend(log, e);
  }

  lemma ReleasesStart(k: nat)
    requires 0 < k <= |ORDER|
    ensures Releases(k) == [Release(ORDER[k - 1])] + Releases(k - 1)
  {
  }

  lemma {:induction false} ReleasesHold(log: seq<Event>, k: nat)
    requires k <= |ORDER| && AlwaysServable(log) && HeldAfter(log) == Held(ORDER[..k])
    ensures AlwaysServable(log + Releases(k)) && HeldAfter(log + Releases(k)) == Held([])
    decreases k
  {
    if k == 0 {
      assert log + Releases(0) == log;
    } else {
      var log' := log + [Release(ORDER[k - 1])];
      OneBack(log, k);
      ReleasesHold(log', k - 1);
      ReleasesStart(k);
      assert log + ([Release(ORDER[k - 1])] + Releases(k - 1)) == log' + Releases(k - 1);
    }
  }

  /** The traces written out, event by event. */
  lemma Traces()
    ensures Acquires(5) == [Acquire(Region), Acquire(Buffer), Acquire(Cdev), Acquire(Class), Acquire(Node)]
    ensures Releases(5) == [Release(Node), Release(Class), Release(Cdev), Release(Buffer), Release(Region)]
    ensures forall k :: 0 <= k <= 5 ==> Acquires(k) == Acquires(5)[..k] && Releases(k) == Releases(5)[5 - k..]
  {
  }

  lemma ReachStops(fails: set<Resource>)
    ensures StopsAt(fails, Reach(fails))
    ensures Reach(fails) == 5 <==> fails == {}
  {
    var k := Reach(fails);
    if k == 5 {
      forall r: Resource ensures r !in fails {
        match r
        case Region =>
        case Buffer =>
        case Cdev =>
        case Class =>
        case Node =>
      }
    } else {
      assert ORDER[k] in fails;
    }
  }

  lemma LadderHolds(log: seq<Event>, k: nat)
    requires AlwaysServable(log) && HeldAfter(log) == Held([]) && k <= 5
    ensures AlwaysServable(log + Acquires(k)) && HeldAfter(log + Acquires(k)) == Held(ORDER[..k])
    ensures AlwaysServable(log + Acquires(k) + Releases(k)) && HeldAfter(log + Acquires(k) + Releases(k)) == Held([])
    ensures log + (Acquires(k) + Releases(k)) == log + Acquires(k) + Releases(k)
    ensures k == 5 ==> ORDER[..k] == ORDER
  {
    AcquiresHold(log, k);
    ReleasesHold(log + Acquires(k), k);
  }

  lemma StopsOnce(fails: set<Resource>, j: nat, k: nat)
    requires StopsAt(fails, j) && StopsAt(fails, k)
    ensures j == k
  {
  }

  /** For every choice of failing steps, with k the place of the first that fails: a load in which
      none fails takes all five and holds them, and unloading gives them back in reverse; any other
      takes exactly the first k and gives exactly those back in reverse, leaving nothing; and at no
      point on the way is the cdev live without its buffer. */
  lemma LoadUnload(log: seq<Event>, fails: set<Resource>) returns (k: nat)
    requires AlwaysServable(log) && HeldAfter(log) == Held([])
    ensures k <= 5
    ensures forall i :: 0 <= i < k ==> [Region, Buffer, Cdev, Class, Node][i] !in fails
    ensures k < 5 ==> [Region, Buffer, Cdev, Class, Node][k] in fails
    ensures var up := [Acquire(Region), Acquire(Buffer), Acquire(Cdev), Acquire(Class), Acquire(Node)];
            var down := [Release(Node), Release(Class), Release(Cdev), Release(Buffer), Release(Region)];
            var after := log + InitTrace(fails);
            && AlwaysServable(after)
            && (fails == {} ==>
                  && k == 5 && InitTrace(fails) == up
                  && HeldAfter(after) == Held([Region, Buffer, Cdev, Class, Node])
                  && AlwaysServable(after + down) && HeldAfter(after + down) == Held([]))
            && (fails != {} ==> k < 5 && InitTrace(fails) == up[..k] + down[5 - k..] && HeldAfter(after) == Held([]))
  {
    k := Reach(fails);
    ReachStops(fails);
    Traces();
    LadderHolds(log, k);
  }

  /** The module as loaded and unloaded in place. */
  class Module {
    var log: seq<Event>
    var loaded: bool

    ghost predicate Valid() reads this {
      AlwaysServable(log) && HeldAfter(log) == Held(if loaded then ORDER else [])
    }

    constructor ()
      ensures Valid() && !loaded && log == []
    {
      log, loaded := [], false;
    }

    method Take(r: Resource, fails: set<Resource>) returns (ok: bool)
      modifies this`log
      ensures ok == (r !in fails)
      ensures log == old(log) + if ok then [Acquire(r)] else []
    {
      ok := r !in fails;
      if ok {
        log := log + [Acquire(r)];
      }
    }

    method Give(r: Resource)
      modifies this`log
      ensures log == old(log) + [Release(r)]
    {
      log := log + [Release(r)];
    }

    /** The labels of the ladder, entered with the given number of resources held. */
    method Unwind(held: nat)
      requires held <= 5
      modifies this`log
      ensures log == old(log)
                     + [Release(Node), Release(Class), Release(Cdev), Release(Buffer), Release(Region)][5 - held..]
    {
      if held >= 5 {
        Give(Node);
      }
      if held >= 4 {
        Give(Class);
      }
      if held >= 3 {
        Give(Cdev);
      }
      if held >= 2 {
        Give(Buffer);
      }
      if held >= 1 {
        Give(Region);
      }
    }

    /** The straight-line part of `chardev_init`, up to the first failure. */
    method Climb(fails: set<Resource>) returns (held: nat)
      modifies this`log
      ensures held <= 5
      ensures forall i :: 0 <= i < held ==> [Region, Buffer, Cdev, Class, Node][i] !in fails
      ensures held < 5 ==> [Region, Buffer, Cdev, Class, Node][held] in fails
      ensures log == old(log) + [Acquire(Region), Acquire(Buffer), Acquire(Cdev), Acquire(Class), Acquire(Node)][..held]
    {
      var ok := Take(Region, fails);
      if !ok {
        return 0;
      }
      ok := Take(Buffer, fails);
      if !ok {
        return 1;
      }
      ok := Take(Cdev, fails);
      if !ok {
        return 2;
      }
      ok := Take(Class, fails);
      if !ok {
        return 3;
      }
      ok := Take(Node, fails);
      held := if ok then 5 else 4;
    }

    /** `chardev_init`: success, or the unwind from the step that failed. */
    method Attempt(fails: set<Resource>) returns (ok: bool)
      modifies this`log
      ensures ok <==> fails == {}
      ensures log == old(log) + InitTrace(fails)
    {
      ReachStops(fails);
      Traces();
      var held := Climb(fails);
      StopsOnce(fails, held, Reach(fails));
      ok := held == 5;
      if !ok {
        Unwind(held);
      }
    }

    method Load(fails: set<Resource>) returns (ok: bool)
      requires Valid() && !loaded
      modifies this
      ensures Valid()
      ensures loaded == ok && (ok <==> fails == {})
      ensures ok ==> log == old(log) + [Acquire(Region), Acquire(Buffer), Acquire(Cdev), Acquire(Class), Acquire(Node)]
      ensures log == old(log) + InitTrace(fails)
    {
      var _ := LoadUnload(log, fails);
      ok := Attempt(fails);
      loaded := ok;
    }

    /** `chardev_exit`. */
    method Unload()
      requires Valid() && loaded
      modifies this
      ensures Valid() && !loaded
      ensures log == old(log) + [Release(Node), Release(Class), Release(Cdev), Release(Buffer), Release(Region)]
    {
      Traces();
      ReleasesHold(log, 5);
      Unwind(5);
      loaded := false;
    }
  }
}
