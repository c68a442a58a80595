/** What every step of the queue protocol keeps: mutual exclusion, the FIFO, each thread's own
    order, the sentinel count and the two wakeup bounds. */
module CondQueueSafety {
  import opened Ring
  import opened Sums
  import opened StepSystem
  import opened Workload
  import opened CondQueue

  // ---- Mutual exclusion ----

  /** The threads between lock and unlock are exactly the owner. */
  predicate LockInv(s: State) {
    && (s.owner.Some? ==> s.owner.value < |s.threads|)
    && forall t :: 0 <= t < |s.threads| ==> (Holds(s.threads[t].pc) <==> s.owner == Some(t))
  }

  lemma StepLock(s: State, l: Label)
    requires LockInv(s) && Enabled(s, l)
    ensures LockInv(Apply(s, l))
  {
  }

  function Holder(s: State): Option<Thread> {
    if s.owner.Some? && s.owner.value < |s.threads| then Some(s.threads[s.owner.value]) else None
  }

  // ---- The ring is a FIFO ----

  predicate InUpdate(pc: Pc) { pc == Touch || pc == Advance || pc == Tally }

  /** One when the holder is of the given kind and has moved its index but not yet the count. */
  function Lead(h: Option<Thread>, producer: bool): int {
    if h.Some? && h.value.producer == producer && h.value.pc == Tally then 1 else 0
  }

  /** What the holder's place in the update says of the slot it works on. */
  predicate Midway(r: Ring, pushed: seq<Event>, popped: seq<Event>, th: Thread) {
    InUpdate(th.pc) ==>
      if th.producer then
        && |pushed| < |popped| + QUEUE_SIZE
        && (th.pc != Touch ==> r.data[Slot(0, |pushed|)] == Item(th))
      else
        && |popped| < |pushed|
        && (th.pc != Touch ==> th.val == pushed[|popped|].val)
  }

  /** Slot k mod 8 holds the k-th pushed value until it is popped, and pops repeat the pushes. */
  predicate RingInv(r: Ring, pushed: seq<Event>, popped: seq<Event>, h: Option<Thread>) {
    && |popped| <= |pushed| <= |popped| + QUEUE_SIZE
    && r.count == |pushed| - |popped|
    && r.head == Slot(0, |popped| + Lead(h, false))
    && r.tail == Slot(0, |pushed| + Lead(h, true))
    && (forall k :: |popped| <= k < |pushed| ==> r.data[Slot(0, k)] == pushed[k].val)
    && (forall k :: 0 <= k < |popped| ==> popped[k].val == pushed[k].val)
    && (h.Some? ==> Midway(r, pushed, popped, h.value))
  }

  /** The ring and the logs after the holder's step, with the mutex kept or given up. */
  predicate RingStep(r: Ring, pushed: seq<Event>, popped: seq<Event>, t: nat, th: Thread) {
    var th' := NewThread(r, th);
    RingInv(NewRing(r, th), pushed + Logged(t, th, true), popped + Logged(t, th, false),
            if Holds(th'.pc) then Some(th') else None)
  }

  lemma QuietStep(r: Ring, pushed: seq<Event>, popped: seq<Event>, t: nat, th: Thread)
    requires RingInv(r, pushed, popped, Some(th)) && (th.pc == Test || th.pc == Signal || th.pc == Unlock)
    ensures RingStep(r, pushed, popped, t, th)
  {
    assert pushed + Logged(t, th, true) == pushed && popped + Logged(t, th, false) == popped;
  }

  lemma PushWrite(r: Ring, pushed: seq<Event>, popped: seq<Event>, t: nat, th: Thread)
    requires RingInv(r, pushed, popped, Some(th)) && th.pc == Touch && th.producer
    ensures RingStep(r, pushed, popped, t, th)
  {
    assert pushed + Logged(t, th, true) == pushed && popped + Logged(t, th, false) == popped;
    forall k | |popped| <= k < |pushed| ensures Slot(0, k) != Slot(0, |pushed|) {
      SlotsApart(0, k, |pushed|);
    }
  }

  lemma PushAdvance(r: Ring, pushed: seq<Event>, popped: seq<Event>, t: nat, th: Thread)
    requires RingInv(r, pushed, popped, Some(th)) && th.pc == Advance && th.producer
    ensures RingStep(r, pushed, popped, t, th)
  {
    assert pushed + Logged(t, th, true) == pushed && popped + Logged(t, th, false) == popped;
    SlotShift(0, |pushed|, 1);
  }

  lemma PushTally(r: Ring, pushed: seq<Event>, popped: seq<Event>, t: nat, th: Thread)
    requires RingInv(r, pushed, popped, Some(th)) && th.pc == Tally && th.producer
    ensures RingStep(r, pushed, popped, t, th)
  {
    assert popped + Logged(t, th, false) == popped;
  }

  lemma PopStep(r: Ring, pushed: seq<Event>, popped: seq<Event>, t: nat, th: Thread)
    requires RingInv(r, pushed, popped, Some(th)) && InUpdate(th.pc) && !th.producer
    ensures RingStep(r, pushed, popped, t, th)
  {
    assert pushed + Logged(t, th, true) == pushed;
    if th.pc != Tally {
      assert popped + Logged(t, th, false) == popped;
      SlotShift(0, |popped|, 1);
    }
  }

  lemma HolderStep(r: Ring, pushed: seq<Event>, popped: seq<Event>, t: nat, th: Thread)
    requires RingInv(r, pushed, popped, Some(th)) && Holds(th.pc)
    ensures RingStep(r, pushed, popped, t, th)
  {
    if !InUpdate(th.pc) {
      QuietStep(r, pushed, popped, t, th);
    } else if !th.producer {
      PopStep(r, pushed, popped, t, th);
    } else if th.pc == Touch {
      PushWrite(r, pushed, popped, t, th);
    } else if th.pc == Advance {
      PushAdvance(r, pushed, popped, t, th);
    } else {
      PushTally(r, pushed, popped, t, th);
    }
  }

  /** A thread that takes the mutex finds the ring between two updates. */
  lemma EntryStep(r: Ring, pushed: seq<Event>, popped: seq<Event>, th: Thread)
    requires RingInv(r, pushed, popped, None) && !InUpdate(th.pc)
    ensures RingInv(r, pushed, popped, Some(th))
  {
  }

  lemma HolderAfter(s: State, l: Label)
    requires LockInv(s) && Enabled(s, l)
    ensures var th, th' := s.threads[l.tid], NewThread(s.ring, s.threads[l.tid]);
            var h' := if Holds(th'.pc) then Some(th') else None;
            if Holds(th.pc) then Holder(s) == Some(th) && Holder(Apply(s, l)) == h'
            else if th.pc == Asleep then Holder(Apply(s, l)) == Holder(s)
            else Holder(s) == None && h' == Some(th') && Holder(Apply(s, l)) == h' && th'.pc == Test
  {
  }

  lemma StepRing(s: State, l: Label)
    requires LockInv(s) && RingInv(s.ring, s.pushed, s.popped, Holder(s)) && Enabled(s, l)
    ensures var s' := Apply(s, l); RingInv(s'.ring, s'.pushed, s'.popped, Holder(s'))
  {
    var t, th := l.tid, s.threads[l.tid];
    HolderAfter(s, l);
    if Holds(th.pc) {
      HolderStep(s.ring, s.pushed, s.popped, t, th);
    } else {
      assert s.pushed + Logged(t, th, true) == s.pushed && s.popped + Logged(t, th, false) == s.popped;
      if th.pc != Asleep {
        EntryStep(s.ring, s.pushed, s.popped, NewThread(s.ring, th));
      }
    }
  }

  // ---- No lost wakeup ----

  /** Awake inside the waiting loop or the update, so sure to look at the queue again. */
  predicate Heading(pc: Pc) { pc == Woken || pc == Test || InUpdate(pc) }

  function PopperAwake(th: Thread): int { if !th.producer && Heading(th.pc) then 1 else 0 }
  function PusherAwake(th: Thread): int { if th.producer && Heading(th.pc) then 1 else 0 }
  function PopSignalOwed(th: Thread): int { if !th.producer && th.pc == Signal then 1 else 0 }
  function PushSignalOwed(th: Thread): int { if th.producer && th.pc == Signal then 1 else 0 }

  predicate SomeAsleep(ts: seq<Thread>, producer: bool) {
    exists t :: 0 <= t < |ts| && ts[t].pc == Asleep && ts[t].producer == producer
  }

  /** While a consumer sleeps, every queued item is covered by an awake consumer or by a signal
      still to be sent. */
  predicate PopWakeInv(count: int, ts: seq<Thread>) {
    SomeAsleep(ts, false) ==> count <= Sum(ts, PopperAwake) + Sum(ts, PushSignalOwed)
  }

  /** While a producer sleeps, so is every free slot. */
  predicate PushWakeInv(count: int, ts: seq<Thread>) {
    SomeAsleep(ts, true) ==> QUEUE_SIZE - count <= Sum(ts, PusherAwake) + Sum(ts, PopSignalOwed)
  }

  /** A weight that waking leaves alone, across a step that wakes some threads and moves one. */
  lemma WeightKept(ts: seq<Thread>, f: Thread -> int, wake: set<nat>, t: nat, th': Thread)
    requires t < |ts| && t !in wake
    requires forall u :: u in wake ==> u < |ts| && f(ts[u].(pc := Woken)) == f(ts[u])
    ensures Sum(Wake(ts, wake)[t := th'], f) == Sum(ts, f) - f(ts[t]) + f(th')
  {
    var mid := Wake(ts, wake);
    SumUpdate(mid, f, t, th');
    SumMono(ts, f, mid, f);
    SumMono(mid, f, ts, f);
  }

  /** A weight that waking raises. */
  lemma WeightRaised(ts: seq<Thread>, f: Thread -> int, wake: set<nat>, t: nat, th': Thread)
    requires t < |ts| && t !in wake
    requires forall u :: u in wake ==> u < |ts| && f(ts[u].(pc := Woken)) > f(ts[u])
    ensures Sum(Wake(ts, wake)[t := th'], f)
         >= Sum(ts, f) - f(ts[t]) + f(th') + if wake == {} then 0 else 1
  {
    var mid := Wake(ts, wake);
    SumUpdate(mid, f, t, th');
    SumMono(ts, f, mid, f);
    if wake != {} {
      var u :| u in wake;
      assert f(ts[u]) < f(mid[u]);
    }
  }

  /** Who can still be asleep on one side after a step. */
  lemma AsleepStep(s: State, l: Label, producer: bool)
    requires Enabled(s, l) && SomeAsleep(Apply(s, l).threads, producer)
    ensures var th := s.threads[l.tid];
            || SomeAsleep(s.threads, producer)
            || (th.pc == Test && th.producer == producer && MustWait(s.ring, th))
    ensures l.Act? && s.threads[l.tid].pc == Signal && s.threads[l.tid].producer != producer ==> l.wake != {}
  {
    var s' := Apply(s, l);
    var u: nat :| u < |s'.threads| && s'.threads[u].pc == Asleep && s'.threads[u].producer == producer;
    if u != l.tid {
      assert s'.threads[u] == s.threads[u];
      assert u in Sleepers(s.threads, producer);
    }
  }

  lemma PopCounts(s: State, l: Label)
    requires Enabled(s, l)
    ensures var th, th' := s.threads[l.tid], NewThread(s.ring, s.threads[l.tid]);
            var ts' := Apply(s, l).threads;
            && Sum(ts', PushSignalOwed) == Sum(s.threads, PushSignalOwed) - PushSignalOwed(th) + PushSignalOwed(th')
            && Sum(ts', PopperAwake) >= Sum(s.threads, PopperAwake) - PopperAwake(th) + PopperAwake(th')
                 + if Woke(l) != {} && th.producer then 1 else 0
  {
    var th, th' := s.threads[l.tid], NewThread(s.ring, s.threads[l.tid]);
    WeightKept(s.threads, PushSignalOwed, Woke(l), l.tid, th');
    if th.producer {
      WeightRaised(s.threads, PopperAwake, Woke(l), l.tid, th');
    } else {
      WeightKept(s.threads, PopperAwake, Woke(l), l.tid, th');
    }
  }

  lemma StepPopWake(s: State, l: Label)
    requires PopWakeInv(s.ring.count, s.threads) && Enabled(s, l)
    ensures PopWakeInv(Apply(s, l).ring.count, Apply(s, l).threads)
  {
    var ts' := Apply(s, l).threads;
    if SomeAsleep(ts', false) {
      AsleepStep(s, l, false);
      PopCounts(s, l);
      SumNonNeg(ts', PopperAwake);
      SumNonNeg(ts', PushSignalOwed);
    }
  }

  lemma PushCounts(s: State, l: Label)
    requires Enabled(s, l)
    ensures var th, th' := s.threads[l.tid], NewThread(s.ring, s.threads[l.tid]);
            var ts' := Apply(s, l).threads;
            && Sum(ts', PopSignalOwed) == Sum(s.threads, PopSignalOwed) - PopSignalOwed(th) + PopSignalOwed(th')
            && Sum(ts', PusherAwake) >= Sum(s.threads, PusherAwake) - PusherAwake(th) + PusherAwake(th')
                 + if Woke(l) != {} && !th.producer then 1 else 0
  {
    var th, th' := s.threads[l.tid], NewThread(s.ring, s.threads[l.tid]);
    WeightKept(s.threads, PopSignalOwed, Woke(l), l.tid, th');
    if !th.producer {
      WeightRaised(s.threads, PusherAwake, Woke(l), l.tid, th');
    } else {
      WeightKept(s.threads, PusherAwake, Woke(l), l.tid, th');
    }
  }

  lemma StepPushWake(s: State, l: Label)
    requires PushWakeInv(s.ring.count, s.threads) && Enabled(s, l)
    ensures PushWakeInv(Apply(s, l).ring.count, Apply(s, l).threads)
  {
    var ts' := Apply(s, l).threads;
    if SomeAsleep(ts', true) {
      AsleepStep(s, l, true);
      PushCounts(s, l);
      SumNonNeg(ts', PusherAwake);
      SumNonNeg(ts', PopSignalOwed);
    }
  }

  // ---- Each thread's own log ----

  predicate PastTally(pc: Pc) { pc == Signal || pc == Unlock || pc == Done }

  function Progress(th: Thread): nat { th.i + if PastTally(th.pc) then 1 else 0 }

  /** A consumer has its sentinel once it counted the pop that returned one. */
  predicate Sated(th: Thread) { !th.producer && PastTally(th.pc) && th.val == SENTINEL }

  predicate SentinelOnlyLast(got: seq<int>, sated: bool) {
    && (sated ==> |got| > 0 && got[|got| - 1] == -1)
    && forall k :: 0 <= k < |got| - (if sated then 1 else 0) ==> got[k] != -1
  }

  /** A producer pushed a prefix of its program; a consumer received no sentinel but the one that
      finishes it. */
  predicate OwnLog(th: Thread, sent: seq<int>, got: seq<int>) {
    if th.producer then
      && th.i < Pushes(th.n) && (th.pc == Done ==> Progress(th) == Pushes(th.n))
      && sent == Program(th.n, Progress(th)) && got == []
    else
      && (th.pc == Done ==> Sated(th))
      && SentinelOnlyLast(got, Sated(th)) && sent == []
  }

  predicate OwnInv(s: State) {
    forall t: nat | t < |s.threads| :: OwnLog(s.threads[t], By(s.pushed, t), By(s.popped, t))
  }

  lemma OwnLogStep(r: Ring, t: nat, th: Thread, sent: seq<int>, got: seq<int>)
    requires OwnLog(th, sent, got) && th.pc != Done
    ensures OwnLog(NewThread(r, th), sent + Vals(Logged(t, th, true)), got + Vals(Logged(t, th, false)))
  {
    assert th.producer ==> Program(th.n, th.i + 1) == Program(th.n, th.i) + [Item(th)];
    if th.pc != Tally {
      assert sent + Vals(Logged(t, th, true)) == sent && got + Vals(Logged(t, th, false)) == got;
    }
  }

  lemma ByLogged(log: seq<Event>, t: nat, th: Thread, producer: bool, u: nat)
    ensures By(log + Logged(t, th, producer), u)
         == By(log, u) + if t == u then Vals(Logged(t, th, producer)) else []
  {
    var es := Logged(t, th, producer);
    assert es != [] ==> (log + es)[..|log|] == log;
    assert es == [] ==> log + es == log;
  }

  /** How a step leaves thread u. */
  lemma ThreadAfter(s: State, l: Label, u: nat)
    requires Enabled(s, l) && u < |s.threads|
    ensures |Apply(s, l).threads| == |s.threads|
    ensures Apply(s, l).threads[u] == if u == l.tid then NewThread(s.ring, s.threads[u])
                                      else if u in Woke(l) then s.threads[u].(pc := Woken)
                                      else s.threads[u]
    ensures u in Woke(l) ==> s.threads[u].pc == Asleep && u != l.tid
  {
  }

  lemma OwnAt(s: State, l: Label, u: nat)
    requires OwnInv(s) && Enabled(s, l) && u < |s.threads|
    ensures |Apply(s, l).threads| == |s.threads|
    ensures var s' := Apply(s, l); OwnLog(s'.threads[u], By(s'.pushed, u), By(s'.popped, u))
  {
    var t, th := l.tid, s.threads[l.tid];
    ThreadAfter(s, l, u);
    ByLogged(s.pushed, t, th, true, u);
    ByLogged(s.popped, t, th, false, u);
    assert OwnLog(s.threads[u], By(s.pushed, u), By(s.popped, u));
    if u == t {
      OwnLogStep(s.ring, t, th, By(s.pushed, t), By(s.popped, t));
    }
  }

  lemma StepOwn(s: State, l: Label)
    requires OwnInv(s) && Enabled(s, l)
    ensures OwnInv(Apply(s, l))
  {
    var s' := Apply(s, l);
    ThreadAfter(s, l, l.tid);
    forall u: nat | u < |s'.threads| ensures OwnLog(s'.threads[u], By(s'.pushed, u), By(s'.popped, u)) {
      OwnAt(s, l, u);
    }
  }

  // ---- Sentinels ----

  function SentinelPushed(th: Thread): int {
    if th.producer && Progress(th) == Pushes(th.n) then 1 else 0
  }
  function SentinelTaken(th: Thread): int { if Sated(th) then 1 else 0 }
  function IsSentinel(e: Event): int { if e.val == SENTINEL then 1 else 0 }

  /** The sentinels pushed and popped so far are those of the threads past their last call. */
  predicate SentinelInv(s: State) {
    && Sum(s.pushed, IsSentinel) == Sum(s.threads, SentinelPushed)
    && Sum(s.popped, IsSentinel) == Sum(s.threads, SentinelTaken)
  }

  lemma SentinelLogged(log: seq<Event>, t: nat, th: Thread, producer: bool)
    ensures Sum(log + Logged(t, th, producer), IsSentinel) == Sum(log, IsSentinel)
            + if th.pc == Tally && th.producer == producer
                 && (if producer then Item(th) else th.val) == SENTINEL then 1 else 0
  {
    if th.pc == Tally && th.producer == producer {
      SumAppend(log, IsSentinel, Logged(t, th, producer)[0]);
    } else {
      assert log + Logged(t, th, producer) == log;
    }
  }

  lemma SentinelCounts(s: State, l: Label)
    requires Enabled(s, l)
    ensures var th, th' := s.threads[l.tid], NewThread(s.ring, s.threads[l.tid]);
            var ts' := Apply(s, l).threads;
            && Sum(ts', SentinelPushed) == Sum(s.threads, SentinelPushed) - SentinelPushed(th) + SentinelPushed(th')
            && Sum(ts', SentinelTaken) == Sum(s.threads, SentinelTaken) - SentinelTaken(th) + SentinelTaken(th')
  {
    var th' := NewThread(s.ring, s.threads[l.tid]);
    WeightKept(s.threads, SentinelPushed, Woke(l), l.tid, th');
    WeightKept(s.threads, SentinelTaken, Woke(l), l.tid, th');
  }

  /** A thread counts as past its sentinel from the very step that logs one. */
  lemma SentinelMoves(r: Ring, th: Thread)
    requires th.producer ==> th.i < Pushes(th.n)
    requires th.pc == Done ==> (if th.producer then SentinelPushed(th) else SentinelTaken(th)) == 1
    ensures SentinelPushed(NewThread(r, th)) - SentinelPushed(th)
         == if th.pc == Tally && th.producer && Item(th) == SENTINEL then 1 else 0
    ensures SentinelTaken(NewThread(r, th)) - SentinelTaken(th)
         == if th.pc == Tally && !th.producer && th.val == SENTINEL then 1 else 0
  {
  }

  lemma OwnFacts(s: State, t: nat)
    requires OwnInv(s) && t < |s.threads|
    ensures s.threads[t].producer ==> s.threads[t].i < Pushes(s.threads[t].n)
  {
    assert OwnLog(s.threads[t], By(s.pushed, t), By(s.popped, t));
  }

  lemma SentinelSums(s: State, l: Label)
    requires SentinelInv(s) && Enabled(s, l)
    requires s.threads[l.tid].producer ==> s.threads[l.tid].i < Pushes(s.threads[l.tid].n)
    ensures SentinelInv(Apply(s, l))
  {
    var t, th := l.tid, s.threads[l.tid];
    SentinelMoves(s.ring, th);
    SentinelCounts(s, l);
    SentinelLogged(s.pushed, t, th, true);
    SentinelLogged(s.popped, t, th, false);
  }

  lemma StepSentinel(s: State, l: Label)
    requires SentinelInv(s) && OwnInv(s) && Enabled(s, l)
    ensures SentinelInv(Apply(s, l))
  {
    OwnFacts(s, l.tid);
    SentinelSums(s, l);
  }

  /** Every push was logged by a producer and every pop by a consumer. */
  predicate FromThreads(ts: seq<Thread>, log: seq<Event>, producer: bool) {
    forall k :: 0 <= k < |log| ==> log[k].tid < |ts| && ts[log[k].tid].producer == producer
  }

  lemma StepFrom(s: State, l: Label, log: seq<Event>, producer: bool)
    requires FromThreads(s.threads, log, producer) && Enabled(s, l)
    ensures FromThreads(Apply(s, l).threads, log + Logged(l.tid, s.threads[l.tid], producer), producer)
  {
  }

  // ---- All of it, over whole runs ----

  predicate Inv(s: State) {
    && LockInv(s)
    && RingInv(s.ring, s.pushed, s.popped, Holder(s))
    && PopWakeInv(s.ring.count, s.threads) && PushWakeInv(s.ring.count, s.threads)
    && OwnInv(s) && SentinelInv(s)
    && FromThreads(s.threads, s.pushed, true) && FromThreads(s.threads, s.popped, false)
  }

  lemma InitHolds(s: State)
    requires Init(s)
    ensures Inv(s)
  {
    SumZero(s.threads, SentinelPushed);
    SumZero(s.threads, SentinelTaken);
    forall t: nat | t < |s.threads| ensures OwnLog(s.threads[t], By(s.pushed, t), By(s.popped, t)) {
      assert By(s.pushed, t) == [] == Program(s.threads[t].n, 0);
    }
  }

  lemma StepHolds(s: State, l: Label)
    requires Inv(s) && Enabled(s, l)
    ensures Inv(Apply(s, l))
  {
    StepLock(s, l);
    StepRing(s, l);
    StepPopWake(s, l);
    StepPushWake(s, l);
    StepOwn(s, l);
    StepSentinel(s, l);
    StepFrom(s, l, s.pushed, true);
    StepFrom(s, l, s.popped, false);
  }

  lemma RunHolds(s: State, sched: seq<Label>)
    requires Inv(s) && Runs(Next, s, sched)
    ensures Inv(After(Next, s, sched))
  {
    forall a: State, l: Label | Inv(a) && Next(a, l).Some? ensures Inv(Next(a, l).value) {
      StepHolds(a, l);
    }
    Invariance(Next, Inv, s, sched);
  }
}
