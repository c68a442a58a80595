/** The queue protocol over whole runs: FIFO order, no deadlock, exact delivery and termination,
    for every mix of threads and every interleaving. */
module CondQueueTheorems {
  import opened Ring
  import opened Sums
  import opened StepSystem
  import opened Workload
  import opened CondQueue
  import opened CondQueueSafety

  function ProducerOne(th: Thread): int { if th.producer then 1 else 0 }
  function ConsumerOne(th: Thread): int { if th.producer then 0 else 1 }

  function Producers(s: State): int { Sum(s.threads, ProducerOne) }
  function Consumers(s: State): int { Sum(s.threads, ConsumerOne) }

  // ---- Mutual exclusion and FIFO order ----

  lemma Reached(s0: State, sched: seq<Label>) returns (s: State)
    requires Init(s0) && Runs(Next, s0, sched)
    ensures s == After(Next, s0, sched) && Inv(s)
  {
    InitHolds(s0);
    RunHolds(s0, sched);
    s := After(Next, s0, sched);
  }

  lemma MutualExclusion(s0: State, sched: seq<Label>, t: nat, u: nat)
    requires Init(s0) && Runs(Next, s0, sched)
    requires t < |After(Next, s0, sched).threads| && u < |After(Next, s0, sched).threads|
    requires Holds(After(Next, s0, sched).threads[t].pc) && Holds(After(Next, s0, sched).threads[u].pc)
    ensures t == u && After(Next, s0, sched).owner == Some(t)
  {
    var s := Reached(s0, sched);
  }

  /** A consumer that has advanced `head` but not yet lowered `count` carries the oldest value. */
  predicate Carrying(s: State) {
    Holder(s).Some? && !Holder(s).value.producer && Holder(s).value.pc == Tally
  }

  lemma ReachedRing(s0: State, sched: seq<Label>) returns (s: State)
    requires Init(s0) && Runs(Next, s0, sched)
    ensures s == After(Next, s0, sched) && RingInv(s.ring, s.pushed, s.popped, Holder(s))
  {
    s := Reached(s0, sched);
  }

  /** Everything pushed is everything popped, then what the ring holds from `head` on. */
  predicate FifoShape(r: Ring, pushed: seq<Event>, popped: seq<Event>, h: Option<Thread>) {
    && 0 <= r.count <= 8
    && if Lead(h, false) == 1 then
         && r.count > 0
         && Vals(pushed) == Vals(popped) + [h.value.val] + Contents(r.(count := r.count - 1))
       else Vals(pushed) == Vals(popped) + Contents(r)
  }

  lemma Fifo(s0: State, sched: seq<Label>)
    requires Init(s0) && Runs(Next, s0, sched)
    ensures var s := After(Next, s0, sched);
            && FifoShape(s.ring, s.pushed, s.popped, Holder(s))
            && (!Carrying(s) ==> Vals(s.pushed) == Vals(s.popped) + Contents(s.ring))
  {
    var s := ReachedRing(s0, sched);
    FifoView(s.ring, s.pushed, s.popped, Holder(s));
  }

  lemma ContentsFrom(r: Ring, pushed: seq<Event>, a: nat)
    requires 0 <= r.count <= QUEUE_SIZE && r.head == Slot(0, a) && a + r.count == |pushed|
    requires forall k :: a <= k < |pushed| ==> r.data[Slot(0, k)] == pushed[k].val
    ensures Vals(pushed) == Vals(pushed)[..a] + Contents(r)
  {
    var v, w := Vals(pushed), Vals(pushed)[..a] + Contents(r);
    forall k | a <= k < |pushed| ensures w[k] == v[k] {
      SlotShift(0, a, k - a);
    }
  }

  lemma FifoView(r: Ring, pushed: seq<Event>, popped: seq<Event>, h: Option<Thread>)
    requires RingInv(r, pushed, popped, h)
    ensures FifoShape(r, pushed, popped, h)
  {
    assert Vals(popped) == Vals(pushed)[..|popped|];
    if Lead(h, false) == 1 {
      ContentsFrom(r.(count := r.count - 1), pushed, |popped| + 1);
    } else {
      ContentsFrom(r, pushed, |popped|);
    }
  }

  lemma {:induction false} ByPrefix(log: seq<Event>, k: nat, t: nat)
    requires k <= |log|
    ensures By(log[..k], t) <= By(log, t)
  {
    if k < |log| {
      var last := |log| - 1;
      ByPrefix(log[..last], k, t);
      assert log[..last][..k] == log[..k];
    } else {
      assert log[..k] == log;
    }
  }

  lemma PopsRepeatPushes(r: Ring, pushed: seq<Event>, popped: seq<Event>, h: Option<Thread>)
    requires RingInv(r, pushed, popped, h)
    ensures |popped| <= |pushed| && Vals(popped) == Vals(pushed[..|popped|])
  {
    forall k | 0 <= k < |popped| ensures Vals(popped)[k] == Vals(pushed[..|popped|])[k] {
      assert popped[k].val == pushed[k].val;
    }
  }

  /** What a producer with bound n has sent, value by value. */
  lemma SentValues(th: Thread, sent: seq<int>, got: seq<int>)
    requires OwnLog(th, sent, got) && th.producer
    ensures |sent| <= (if th.n < 0 then 1 else th.n + 1)
    ensures forall k :: 0 <= k < |sent| ==> sent[k] == if k < th.n then k else -1
    ensures th.pc == Done ==> |sent| == if th.n < 0 then 1 else th.n + 1
  {
    forall k | 0 <= k < |sent| ensures sent[k] == if k < th.n then k else -1 {
      assert sent[k] == ItemAt(th.n, k);
    }
  }

  lemma ReachedOwn(s0: State, sched: seq<Label>) returns (s: State)
    requires Init(s0) && Runs(Next, s0, sched)
    ensures s == After(Next, s0, sched) && OwnInv(s)
  {
    s := Reached(s0, sched);
  }

  /** The k-th pop returns the k-th push, and what has come out of one producer is a prefix of
      0, 1, ..., n-1, -1: nothing lost, repeated or reordered. */
  lemma ProducerOrder(s0: State, sched: seq<Label>, p: nat)
    requires Init(s0) && Runs(Next, s0, sched)
    requires p < |After(Next, s0, sched).threads| && After(Next, s0, sched).threads[p].producer
    ensures var s := After(Next, s0, sched);
            var n := s.threads[p].n;
            && |s.popped| <= |s.pushed|
            && Vals(s.popped) == Vals(s.pushed[..|s.popped|])
            && By(s.pushed[..|s.popped|], p) <= By(s.pushed, p)
            && |By(s.pushed, p)| <= (if n < 0 then 1 else n + 1)
            && forall k :: 0 <= k < |By(s.pushed, p)| ==> By(s.pushed, p)[k] == if k < n then k else -1
  {
    var s := ReachedRing(s0, sched);
    PopsRepeatPushes(s.ring, s.pushed, s.popped, Holder(s));
    ByPrefix(s.pushed, |s.popped|, p);
    var _ := ReachedOwn(s0, sched);
    SentValues(s.threads[p], By(s.pushed, p), By(s.popped, p));
  }

  // ---- No lost wakeup, no deadlock ----

  /** While a consumer sleeps, queued items never outnumber the awake consumers and the signals
      still owed; with the mutex free no signal is owed. The same for producers and free slots. */
  lemma NoLostWakeup(s0: State, sched: seq<Label>)
    requires Init(s0) && Runs(Next, s0, sched)
    ensures var s := After(Next, s0, sched);
            && (SomeAsleep(s.threads, false) ==>
                  s.ring.count <= Sum(s.threads, PopperAwake) + Sum(s.threads, PushSignalOwed))
            && (SomeAsleep(s.threads, true) ==>
                  8 - s.ring.count <= Sum(s.threads, PusherAwake) + Sum(s.threads, PopSignalOwed))
            && (s.owner == None ==> Sum(s.threads, PushSignalOwed) == Sum(s.threads, PopSignalOwed) == 0)
  {
    var s := Reached(s0, sched);
    if s.owner == None {
      SumZero(s.threads, PushSignalOwed);
      SumZero(s.threads, PopSignalOwed);
    }
  }

  /** Everyone still running sleeps, all on the same side, with the queue empty for consumers
      and full for producers. */
  predicate OneSidedSleep(s: State, producer: bool) {
    && s.ring.count == (if producer then 8 else 0)
    && SomeAsleep(s.threads, producer)
    && forall t :: 0 <= t < |s.threads| ==>
         s.threads[t].pc == Done || (s.threads[t].pc == Asleep && s.threads[t].producer == producer)
  }

  lemma StuckMeansParked(s: State)
    requires LockInv(s) && Stuck(s)
    ensures s.owner == None
    ensures forall t :: 0 <= t < |s.threads| ==> s.threads[t].pc == Done || s.threads[t].pc == Asleep
  {
    assert s.owner.Some? ==> Blocked(s, s.owner.value);
    forall t: nat | t < |s.threads| ensures s.threads[t].pc == Done || s.threads[t].pc == Asleep {
      assert Blocked(s, t);
    }
  }

  lemma ParkedCounts(s: State)
    requires PopWakeInv(s.ring.count, s.threads) && PushWakeInv(s.ring.count, s.threads)
    requires forall t :: 0 <= t < |s.threads| ==> s.threads[t].pc == Done || s.threads[t].pc == Asleep
    ensures SomeAsleep(s.threads, false) ==> s.ring.count <= 0
    ensures SomeAsleep(s.threads, true) ==> s.ring.count >= QUEUE_SIZE
  {
    SumZero(s.threads, PopperAwake);
    SumZero(s.threads, PusherAwake);
    SumZero(s.threads, PopSignalOwed);
    SumZero(s.threads, PushSignalOwed);
  }

  lemma ParkedShape(s: State)
    requires forall t :: 0 <= t < |s.threads| ==> s.threads[t].pc == Done || s.threads[t].pc == Asleep
    requires 0 <= s.ring.count <= QUEUE_SIZE
    requires SomeAsleep(s.threads, false) ==> s.ring.count <= 0
    requires SomeAsleep(s.threads, true) ==> s.ring.count >= QUEUE_SIZE
    ensures AllDone(s) || OneSidedSleep(s, false) || OneSidedSleep(s, true)
  {
  }

  /** Exactly when a reachable state has no step left but a spurious wakeup. */
  lemma StuckStates(s0: State, sched: seq<Label>)
    requires Init(s0) && Runs(Next, s0, sched)
    ensures var s := After(Next, s0, sched);
            Stuck(s) <==> AllDone(s) || OneSidedSleep(s, false) || OneSidedSleep(s, true)
  {
    var s := Reached(s0, sched);
    if Stuck(s) {
      StuckMeansParked(s);
      ParkedCounts(s);
      ParkedShape(s);
    }
  }

  // ---- Sentinels decide who finishes ----

  lemma SumPrefix(log: seq<Event>, k: nat)
    requires k <= |log|
    ensures Sum(log[..k], IsSentinel) <= Sum(log, IsSentinel)
    ensures k < |log| && log[|log| - 1].val == SENTINEL ==> Sum(log[..k], IsSentinel) < Sum(log, IsSentinel)
  {
    if k < |log| {
      var last := |log| - 1;
      SumPrefix(log[..last], k);
      assert log[..last][..k] == log[..k];
    } else {
      assert log[..k] == log;
    }
  }

  /** Pops repeat pushes, so the sentinels popped are among those pushed. */
  lemma SentinelsInOrder(r: Ring, pushed: seq<Event>, popped: seq<Event>, h: Option<Thread>)
    requires RingInv(r, pushed, popped, h)
    ensures Sum(popped, IsSentinel) <= Sum(pushed, IsSentinel)
    ensures r.count == 0 ==> Sum(popped, IsSentinel) == Sum(pushed, IsSentinel)
    ensures r.count > 0 && pushed[|pushed| - 1].val == SENTINEL ==>
              Sum(popped, IsSentinel) < Sum(pushed, IsSentinel)
  {
    var front := pushed[..|popped|];
    SumMono(popped, IsSentinel, front, IsSentinel);
    SumMono(front, IsSentinel, popped, IsSentinel);
    SumPrefix(pushed, |popped|);
    assert r.count == 0 ==> front == pushed;
  }

  /** Sentinels pushed, against the number of producers. */
  lemma SentinelsOfProducers(s: State)
    requires OwnInv(s) && SentinelInv(s)
    ensures Sum(s.pushed, IsSentinel) <= Producers(s)
    ensures !SomeUnfinished(s, true) ==> Sum(s.pushed, IsSentinel) == Producers(s)
    ensures SomeAsleep(s.threads, true) ==> Sum(s.pushed, IsSentinel) < Producers(s)
  {
    var ts := s.threads;
    assert forall t: nat | t < |ts| :: OwnLog(ts[t], By(s.pushed, t), By(s.popped, t));
    SumMono(ts, SentinelPushed, ts, ProducerOne);
    if !SomeUnfinished(s, true) {
      SumMono(ts, ProducerOne, ts, SentinelPushed);
    }
    if t :| 0 <= t < |ts| && ts[t].pc == Asleep && ts[t].producer {
      assert SentinelPushed(ts[t]) < ProducerOne(ts[t]);
    }
  }

  /** Sentinels popped, against the number of consumers. */
  lemma SentinelsOfConsumers(s: State)
    requires OwnInv(s) && SentinelInv(s)
    ensures Sum(s.popped, IsSentinel) <= Consumers(s)
    ensures !SomeUnfinished(s, false) ==> Sum(s.popped, IsSentinel) == Consumers(s)
    ensures SomeAsleep(s.threads, false) ==> Sum(s.popped, IsSentinel) < Consumers(s)
  {
    var ts := s.threads;
    assert forall t: nat | t < |ts| :: OwnLog(ts[t], By(s.pushed, t), By(s.popped, t));
    SumMono(ts, SentinelTaken, ts, ConsumerOne);
    if !SomeUnfinished(s, false) {
      SumMono(ts, ConsumerOne, ts, SentinelTaken);
    }
    if t :| 0 <= t < |ts| && ts[t].pc == Asleep && !ts[t].producer {
      assert SentinelTaken(ts[t]) < ConsumerOne(ts[t]);
    }
  }

  predicate SomeUnfinished(s: State, producer: bool) {
    exists t :: 0 <= t < |s.threads| && s.threads[t].producer == producer && s.threads[t].pc != Done
  }

  /** Once every producer is done, the last value pushed is a sentinel. */
  lemma LastPushIsSentinel(s: State)
    requires OwnInv(s) && FromThreads(s.threads, s.pushed, true) && AllDone(s) && s.pushed != []
    ensures s.pushed[|s.pushed| - 1].val == SENTINEL
  {
    var e := s.pushed[|s.pushed| - 1];
    assert OwnLog(s.threads[e.tid], By(s.pushed, e.tid), By(s.popped, e.tid));
    var sent := By(s.pushed, e.tid);
    assert sent[|sent| - 1] == e.val;
  }

  lemma StuckCounts(s: State)
    requires Inv(s)
    requires AllDone(s) || OneSidedSleep(s, false) || OneSidedSleep(s, true)
    ensures OneSidedSleep(s, false) ==> Producers(s) == Sum(s.popped, IsSentinel) < Consumers(s)
    ensures OneSidedSleep(s, true) ==> Consumers(s) == Sum(s.popped, IsSentinel) < Producers(s)
    ensures AllDone(s) ==> Consumers(s) == Sum(s.popped, IsSentinel) <= Producers(s)
    ensures AllDone(s) ==> (Producers(s) == Consumers(s) <==> s.ring.count == 0)
  {
    SentinelsOfProducers(s);
    SentinelsOfConsumers(s);
    SentinelsInOrder(s.ring, s.pushed, s.popped, Holder(s));
    if AllDone(s) && s.pushed != [] {
      LastPushIsSentinel(s);
    }
  }

  /** Threads never change role or bound during a run. */
  predicate SameCast(a: State, b: State) {
    && |a.threads| == |b.threads|
    && forall t :: 0 <= t < |a.threads| ==>
         a.threads[t].producer == b.threads[t].producer && a.threads[t].n == b.threads[t].n
  }

  lemma CastKept(s0: State, sched: seq<Label>)
    requires Runs(Next, s0, sched)
    ensures SameCast(s0, After(Next, s0, sched))
    ensures Producers(After(Next, s0, sched)) == Producers(s0)
    ensures Consumers(After(Next, s0, sched)) == Consumers(s0)
  {
    forall a: State, l: Label | Next(a, l).Some? ensures SameCast(a, Next(a, l).value) {
      forall t: nat | t < |a.threads| ensures
          && Apply(a, l).threads[t].producer == a.threads[t].producer
          && Apply(a, l).threads[t].n == a.threads[t].n
      {
        ThreadAfter(a, l, t);
      }
    }
    Relation(Next, SameCast, s0, sched);
    var s := After(Next, s0, sched);
    SumMono(s0.threads, ProducerOne, s.threads, ProducerOne);
    SumMono(s.threads, ProducerOne, s0.threads, ProducerOne);
    SumMono(s0.threads, ConsumerOne, s.threads, ConsumerOne);
    SumMono(s.threads, ConsumerOne, s0.threads, ConsumerOne);
  }

  /** How every run can end, by the numbers of producers and consumers it started with: equal
      numbers always finish with an empty queue; otherwise the surplus side decides. */
  lemma Outcome(s0: State, sched: seq<Label>)
    requires Init(s0) && Runs(Next, s0, sched) && Stuck(After(Next, s0, sched))
    ensures var s := After(Next, s0, sched);
            && (Producers(s0) == Consumers(s0) ==> AllDone(s) && s.ring.count == 0)
            && (Producers(s0) < Consumers(s0) ==>
                  OneSidedSleep(s, false) && Sum(s.threads, SentinelTaken) == Producers(s0))
            && (Producers(s0) > Consumers(s0) ==>
                  && (forall t :: 0 <= t < |s.threads| && !s.threads[t].producer ==> s.threads[t].pc == Done)
                  && (AllDone(s) || OneSidedSleep(s, true))
                  && (AllDone(s) <==> Sum(s0.threads, PushesLeft) - |s.popped| <= 8))
            && (AllDone(s) && s.ring.count == 0 ==> Producers(s0) == Consumers(s0))
  {
    var s := Reached(s0, sched);
    CastKept(s0, sched);
    StuckStates(s0, sched);
    StuckCounts(s);
    if Producers(s0) > Consumers(s0) {
      SurplusProducers(s0, sched);
    }
  }

  /** Pushes made and pushes still to make always add up to what the producers set out to push. */
  lemma PushAccount(s0: State, sched: seq<Label>)
    requires Init(s0) && Runs(Next, s0, sched)
    ensures var s := After(Next, s0, sched);
            |s.pushed| + Sum(s.threads, PushesLeft) == Sum(s0.threads, PushesLeft)
  {
    var total := Sum(s0.threads, PushesLeft);
    var inv := (a: State) => |a.pushed| + Sum(a.threads, PushesLeft) == total;
    forall a: State, l: Label | inv(a) && Next(a, l).Some? ensures inv(Next(a, l).value) {
      PushesLeftStep(a, l);
    }
    Invariance(Next, inv, s0, sched);
  }

  lemma PushesLeftStep(s: State, l: Label)
    requires Enabled(s, l)
    ensures |Apply(s, l).pushed| + Sum(Apply(s, l).threads, PushesLeft) == |s.pushed| + Sum(s.threads, PushesLeft)
  {
    var th := s.threads[l.tid];
    PushesLeftMoves(s.ring, th);
    WeightKept(s.threads, PushesLeft, Woke(l), l.tid, NewThread(s.ring, th));
  }

  /** Nothing is left to push once all are done; a sleeping producer still has something to push. */
  lemma PushesLeftWhenStuck(s: State)
    requires OwnInv(s)
    ensures AllDone(s) ==> Sum(s.threads, PushesLeft) == 0
    ensures SomeAsleep(s.threads, true) ==> Sum(s.threads, PushesLeft) >= 1
  {
    forall t: nat | t < |s.threads| ensures
        && PushesLeft(s.threads[t]) >= 0
        && (s.threads[t].pc == Done ==> PushesLeft(s.threads[t]) == 0)
        && (s.threads[t].pc == Asleep && s.threads[t].producer ==> PushesLeft(s.threads[t]) >= 1)
    {
      assert OwnLog(s.threads[t], By(s.pushed, t), By(s.popped, t));
    }
    SumNonNeg(s.threads, PushesLeft);
    if AllDone(s) {
      SumZero(s.threads, PushesLeft);
    }
  }

  /** With more producers than consumers, a run ends with everyone finished exactly when what was
      never popped fits the queue; that is certain beforehand when all pushes but one for each
      consumer fit. */
  lemma SurplusProducers(s0: State, sched: seq<Label>)
    requires Init(s0) && Runs(Next, s0, sched) && Stuck(After(Next, s0, sched))
    requires Producers(s0) > Consumers(s0)
    ensures var s := After(Next, s0, sched);
            && (AllDone(s) <==> Sum(s0.threads, PushesLeft) - |s.popped| <= 8)
            && (!AllDone(s) ==> OneSidedSleep(s, true))
            && Consumers(s0) <= |s.popped|
            && (Sum(s0.threads, PushesLeft) - Consumers(s0) <= 8 ==> AllDone(s))
  {
    var s := Reached(s0, sched);
    CastKept(s0, sched);
    StuckStates(s0, sched);
    StuckCounts(s);
    PushAccount(s0, sched);
    PushesLeftWhenStuck(s);
    SentinelsAtMost(s.popped);
  }

  lemma {:induction false} SentinelsAtMost(log: seq<Event>)
    ensures Sum(log, IsSentinel) <= |log|
  {
    if log != [] {
      SentinelsAtMost(log[..|log| - 1]);
    }
  }

  /** 0, 1, ..., n-1, -1. */
  predicate WholeProgram(sent: seq<int>, n: int) {
    && |sent| == (if n < 0 then 1 else n + 1)
    && (forall k :: 0 <= k < n ==> sent[k] == k) && sent[|sent| - 1] == -1
  }

  lemma OwnLogsOnceDone(s: State, t: nat)
    requires OwnInv(s) && t < |s.threads| && s.threads[t].pc == Done
    ensures s.threads[t].producer ==> WholeProgram(By(s.pushed, t), s.threads[t].n)
    ensures !s.threads[t].producer ==> SentinelOnlyLast(By(s.popped, t), true)
  {
    assert OwnLog(s.threads[t], By(s.pushed, t), By(s.popped, t));
    if s.threads[t].producer {
      SentValues(s.threads[t], By(s.pushed, t), By(s.popped, t));
    }
  }

  lemma BalancedEnd(s0: State, sched: seq<Label>, t: nat) returns (s: State)
    requires Init(s0) && Runs(Next, s0, sched) && Stuck(After(Next, s0, sched))
    requires Producers(s0) == Consumers(s0) && t < |s0.threads|
    ensures s == After(Next, s0, sched) && Vals(s.popped) == Vals(s.pushed)
    ensures s0.threads[t].producer ==> WholeProgram(By(s.pushed, t), s0.threads[t].n)
    ensures !s0.threads[t].producer ==> SentinelOnlyLast(By(s.popped, t), true)
  {
    s := Reached(s0, sched);
    CastKept(s0, sched);
    Outcome(s0, sched);
    FifoView(s.ring, s.pushed, s.popped, Holder(s));
    OwnLogsOnceDone(s, t);
  }

  /** What a finished balanced run has delivered: the pops are the pushes in the same order, every
      producer's pushes were 0, 1, ..., n-1 and then -1, and each consumer received one -1, last. */
  lemma Delivery(s0: State, sched: seq<Label>, t: nat)
    requires Init(s0) && Runs(Next, s0, sched) && Stuck(After(Next, s0, sched))
    requires Producers(s0) == Consumers(s0) && t < |s0.threads|
    ensures var s, n := After(Next, s0, sched), s0.threads[t].n;
            var sent, got := By(s.pushed, t), By(s.popped, t);
            && Vals(s.popped) == Vals(s.pushed)
            && (s0.threads[t].producer ==>
                  && |sent| == (if n < 0 then 1 else n + 1)
                  && (forall k :: 0 <= k < n ==> sent[k] == k) && sent[|sent| - 1] == -1)
            && (!s0.threads[t].producer ==>
                  |got| > 0 && got[|got| - 1] == -1 && forall k :: 0 <= k < |got| - 1 ==> got[k] != -1)
  {
    var s := BalancedEnd(s0, sched, t);
  }

  // ---- Termination ----

  const WAKE_RANK := 5

  /** Steps a thread can still take before it next counts a push or a pop. */
  function Rank(th: Thread): int {
    match th.pc
    case Done => 0
    case Asleep => 0
    case Tally => 1
    case Advance => 2
    case Touch => 3
    case Test => 4
    case Lock => 5
    case Woken => WAKE_RANK
    case Unlock => 6
    case Signal => 7
  }

  function SignalOne(th: Thread): int { if th.pc == Signal then 1 else 0 }

  function PushesLeft(th: Thread): int { if th.producer then Pushes(th.n) - Progress(th) else 0 }

  /** One push or pop pays for its own later steps and for a signal that wakes every thread. */
  function Price(n: int): int { 7 + WAKE_RANK * n }

  /** Pushes still to come count twice, once for the pop each will need. */
  function OpsLeft(s: State): int { 2 * Sum(s.threads, PushesLeft) + |s.pushed| - |s.popped| }

  function Measure(s: State): int {
    Price(|s.threads|) * OpsLeft(s) + Sum(s.threads, Rank)
    + WAKE_RANK * |s.threads| * Sum(s.threads, SignalOne)
  }

  lemma WakeRise(ts: seq<Thread>, wake: set<nat>)
    requires forall u :: u in wake ==> u < |ts| && ts[u].pc == Asleep
    ensures Sum(Wake(ts, wake), Rank) <= Sum(ts, Rank) + WAKE_RANK * |ts|
  {
    SumRise(ts, Wake(ts, wake), Rank, WAKE_RANK);
  }

  /** The ranks after a step: waking raises each sleeper's by at most five. */
  lemma RankStep(s: State, l: Label)
    requires Enabled(s, l)
    ensures var th, th' := s.threads[l.tid], NewThread(s.ring, s.threads[l.tid]);
            Sum(Apply(s, l).threads, Rank)
              <= Sum(s.threads, Rank) - Rank(th) + Rank(th')
                 + if th.pc == Signal then WAKE_RANK * |s.threads| else 0
  {
    var th, th', mid := s.threads[l.tid], NewThread(s.ring, s.threads[l.tid]), Wake(s.threads, Woke(l));
    assert l.tid !in Woke(l) && mid[l.tid] == th;
    SumUpdate(mid, Rank, l.tid, th');
    if th.pc == Signal {
      WakeRise(s.threads, Woke(l));
    } else {
      assert mid == s.threads;
    }
  }

  /** A thread's own rank drops with every step except the two that are paid for elsewhere. */
  lemma RankMoves(r: Ring, th: Thread)
    requires th.pc != Done
    ensures Rank(NewThread(r, th)) + 1 <= Rank(th)
              + (if th.pc == Tally then 7 else 0) + (if th.pc == Asleep then WAKE_RANK + 1 else 0)
    ensures SignalOne(NewThread(r, th)) == if th.pc == Tally then 1 else 0
  {
  }

  lemma PushesLeftMoves(r: Ring, th: Thread)
    requires th.pc != Done
    ensures PushesLeft(NewThread(r, th)) == PushesLeft(th) - if th.producer && th.pc == Tally then 1 else 0
  {
  }

  lemma OpsStep(s: State, l: Label)
    requires Enabled(s, l)
    ensures OpsLeft(Apply(s, l)) == OpsLeft(s) - if s.threads[l.tid].pc == Tally then 1 else 0
  {
    var t, th := l.tid, s.threads[l.tid];
    PushesLeftMoves(s.ring, th);
    WeightKept(s.threads, PushesLeft, Woke(l), t, NewThread(s.ring, th));
    assert |Logged(t, th, true)| - |Logged(t, th, false)|
        == if th.pc == Tally then if th.producer then 1 else -1 else 0;
  }

  lemma SignalStep(s: State, l: Label)
    requires Enabled(s, l)
    ensures Sum(Apply(s, l).threads, SignalOne)
         == Sum(s.threads, SignalOne) - SignalOne(s.threads[l.tid]) + SignalOne(NewThread(s.ring, s.threads[l.tid]))
  {
    WeightKept(s.threads, SignalOne, Woke(l), l.tid, NewThread(s.ring, s.threads[l.tid]));
  }

  /** Only a spurious wakeup may raise the measure, and by no more than five. */
  function Grant(l: Label): int { if l.Spurious? then WAKE_RANK + 1 else 0 }

  lemma MeasureArithmetic(n: nat, ops: int, rank: int, sig: int, ops': int, rank': int, sig': int, g: int,
                          tally: bool, signal: bool)
    requires ops' == ops - (if tally then 1 else 0)
    requires sig' == sig + (if tally then 1 else 0) - (if signal then 1 else 0)
    requires rank' + 1 <= rank + g + (if tally then 7 else 0) + (if signal then WAKE_RANK * n else 0)
    requires !(tally && signal)
    ensures Price(n) * ops' + rank' + WAKE_RANK * n * sig' + 1 <= Price(n) * ops + rank + WAKE_RANK * n * sig + g
  {
    assert Price(n) * (ops - 1) == Price(n) * ops - Price(n);
    assert WAKE_RANK * n * (sig + 1) == WAKE_RANK * n * sig + WAKE_RANK * n;
    assert WAKE_RANK * n * (sig - 1) == WAKE_RANK * n * sig - WAKE_RANK * n;
  }

  lemma MeasureStep(s: State, l: Label)
    requires Enabled(s, l)
    ensures Measure(Apply(s, l)) + 1 <= Measure(s) + Grant(l)
  {
    var s', th := Apply(s, l), s.threads[l.tid];
    RankStep(s, l);
    RankMoves(s.ring, th);
    OpsStep(s, l);
    SignalStep(s, l);
    MeasureArithmetic(|s.threads|, OpsLeft(s), Sum(s.threads, Rank), Sum(s.threads, SignalOne),
                      OpsLeft(s'), Sum(s'.threads, Rank), Sum(s'.threads, SignalOne), Grant(l),
                      th.pc == Tally, th.pc == Signal);
  }

  lemma ProductNonNeg(a: int, b: int)
    requires a >= 0 && b >= 0
    ensures a * b >= 0
  {
  }

  lemma MeasureNonNeg(s: State)
    requires OwnInv(s) && |s.popped| <= |s.pushed|
    ensures Measure(s) >= 0
  {
    assert OpsLeft(s) >= 0 by {
      forall t: nat | t < |s.threads| ensures PushesLeft(s.threads[t]) >= 0 {
        assert OwnLog(s.threads[t], By(s.pushed, t), By(s.popped, t));
      }
      SumNonNeg(s.threads, PushesLeft);
    }
    SumNonNeg(s.threads, Rank);
    SumNonNeg(s.threads, SignalOne);
    ProductNonNeg(Price(|s.threads|), OpsLeft(s));
    ProductNonNeg(WAKE_RANK * |s.threads|, Sum(s.threads, SignalOne));
  }

  lemma ReachedMeasure(s0: State, sched: seq<Label>) returns (s: State)
    requires Init(s0) && Runs(Next, s0, sched)
    ensures s == After(Next, s0, sched) && Measure(s) >= 0
  {
    s := Reached(s0, sched);
    MeasureNonNeg(s);
  }

  lemma {:induction false} EntryRank(ts: seq<Thread>)
    requires forall t :: 0 <= t < |ts| ==> ts[t].pc == Lock
    ensures Sum(ts, Rank) == 5 * |ts|
  {
    if |ts| > 0 {
      EntryRank(ts[..|ts| - 1]);
    }
  }

  /** Bound on the steps of a run without spurious wakeups: a constant price for each push and
      each pop, and one entry per thread. */
  function StepBudget(s0: State): int {
    Price(|s0.threads|) * (2 * Sum(s0.threads, PushesLeft)) + 5 * |s0.threads|
  }

  lemma InitialMeasure(s0: State)
    requires Init(s0)
    ensures Measure(s0) == StepBudget(s0)
  {
    SumZero(s0.threads, SignalOne);
    EntryRank(s0.threads);
  }

  predicate Always(s: State) { true }

  /** Every run is finite: its length is bounded by the starting state and by how many spurious
      wakeups occurred in it. */
  lemma Terminates(s0: State, sched: seq<Label>)
    requires Init(s0) && Runs(Next, s0, sched)
    ensures |sched| <= StepBudget(s0) + Sum(sched, Grant)
  {
    forall a: State, l: Label | Next(a, l).Some? ensures Measure(Next(a, l).value) + 1 <= Measure(a) + Grant(l) {
      MeasureStep(a, l);
    }
    LengthBound(Next, Always, Measure, Grant, s0, sched);
    var s := ReachedMeasure(s0, sched);
    InitialMeasure(s0);
  }

  lemma OneMore(s0: State, sched: seq<Label>) returns (l: Label)
    requires Init(s0) && Runs(Next, s0, sched) && !Stuck(After(Next, s0, sched))
    ensures l.Act? && Runs(Next, s0, sched + [l])
    ensures 0 <= Measure(After(Next, s0, sched + [l])) < Measure(After(Next, s0, sched))
  {
    var s := After(Next, s0, sched);
    var t: nat :| t < |s.threads| && !Blocked(s, t);
    BlockedMeansNoStep(s, t);
    var wake :| Enabled(s, Act(t, wake));
    l := Act(t, wake);
    Extend(Next, s0, sched, l);
    MeasureStep(s, l);
    var s' := ReachedMeasure(s0, sched + [l]);
  }

  /** From every reachable state the threads can run on, without spurious wakeups, to a state
      with no step left; with equal numbers that is everyone finished and nothing queued. */
  lemma {:induction false} CanFinish(s0: State, sched: seq<Label>) returns (full: seq<Label>)
    requires Init(s0) && Runs(Next, s0, sched)
    ensures sched <= full && Runs(Next, s0, full) && Stuck(After(Next, s0, full))
    ensures forall k :: |sched| <= k < |full| ==> full[k].Act?
    ensures Producers(s0) == Consumers(s0) ==>
              AllDone(After(Next, s0, full)) && After(Next, s0, full).ring.count == 0
    decreases Measure(After(Next, s0, sched))
  {
    if Stuck(After(Next, s0, sched)) {
      full := sched;
      Outcome(s0, sched);
    } else {
      var l := OneMore(s0, sched);
      full := CanFinish(s0, sched + [l]);
    }
  }
}
