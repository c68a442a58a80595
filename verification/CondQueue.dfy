/** The mutex and two-condition-variable queue of 02_threads/thread_demo.c as a step system: any
    number of producers and consumers, one C statement per step, any interleaving. */
module CondQueue {
  import opened Ring
  import opened StepSystem
  import opened Workload

  /** Where a thread stands in `queue_push` (producer) or `queue_pop` (consumer). */
  datatype Pc =
    | Lock      // about to take the mutex on entry
    | Test      // evaluating the `while` condition, mutex held
    | Touch     // the slot access
    | Advance   // moving tail or head
    | Tally     // `count++` or `count--`
    | Signal    // `pthread_cond_signal` on the other side's condition
    | Unlock    // `pthread_mutex_unlock`
    | Asleep    // blocked inside `pthread_cond_wait`, mutex released
    | Woken     // woken inside `pthread_cond_wait`, contending for the mutex
    | Done

  /** `n` and `i` are the producer's bound and loop index, `val` the consumer's popped value. */
  datatype Thread = Thread(producer: bool, n: int, pc: Pc, i: nat, val: int)

  datatype Event = Event(tid: nat, val: int)

  /** `pushed` and `popped` record every `count++` and `count--` with the value it covers. */
  datatype State = State(ring: Ring, owner: Option<nat>, threads: seq<Thread>,
                         pushed: seq<Event>, popped: seq<Event>)

  /** One scheduling decision. A signal names the sleepers it wakes. */
  datatype Label = Act(tid: nat, wake: set<nat>) | Spurious(tid: nat)

  predicate Holds(pc: Pc) {
    pc == Test || pc == Touch || pc == Advance || pc == Tally || pc == Signal || pc == Unlock
  }

  /** The value a producer is pushing: its loop index, then the sentinel. */
  function Item(th: Thread): int { ItemAt(th.n, th.i) }

  function Sleepers(threads: seq<Thread>, producers: bool): set<nat> {
    set t: nat | t < |threads| && threads[t].pc == Asleep && threads[t].producer == producers
  }

  /** POSIX lets a signal wake more than one thread, and at least one when any is blocked. */
  predicate LegalWake(s: State, th: Thread, wake: set<nat>) {
    && wake <= Sleepers(s.threads, !th.producer)
    && (wake == {} ==> Sleepers(s.threads, !th.producer) == {})
  }

  predicate Enabled(s: State, l: Label) {
    && l.tid < |s.threads|
    && var th := s.threads[l.tid];
       match l
       case Spurious(_) => th.pc == Asleep
       case Act(_, wake) =>
         match th.pc
         case Lock => s.owner == None && wake == {}
         case Woken => s.owner == None && wake == {}
         case Asleep => false
         case Done => false
         case Signal => LegalWake(s, th, wake)
         case _ => wake == {}
  }

  predicate MustWait(r: Ring, th: Thread) {
    r.count == if th.producer then QUEUE_SIZE else 0
  }

  /** Leaving the call: the producer's `for` loop and final sentinel, the consumer's `break`. */
  function Leave(th: Thread): Thread {
    if th.producer then
      if th.i < th.n then th.(pc := Lock, i := th.i + 1) else th.(pc := Done)
    else
      th.(pc := if th.val == SENTINEL then Done else Lock)
  }

  function Wake(threads: seq<Thread>, wake: set<nat>): (r: seq<Thread>)
    ensures |r| == |threads|
  {
    seq(|threads|, t requires 0 <= t < |threads| =>
      if t in wake then threads[t].(pc := Woken) else threads[t])
  }

  /** The acting thread's own next state, from what it sees of the ring. */
  function NewThread(r: Ring, th: Thread): Thread {
    match th.pc
    case Lock => th.(pc := Test)
    case Woken => th.(pc := Test)
    case Test => th.(pc := if MustWait(r, th) then Asleep else Touch)
    case Touch => if th.producer then th.(pc := Advance) else th.(pc := Advance, val := ReadSlot(r))
    case Advance => th.(pc := Tally)
    case Tally => th.(pc := Signal)
    case Signal => th.(pc := Unlock)
    case Unlock => Leave(th)
    case Asleep => th.(pc := Woken)
    case Done => th
  }

  function NewRing(r: Ring, th: Thread): Ring {
    match th.pc
    case Touch => if th.producer then WriteSlot(r, Item(th)) else r
    case Advance => if th.producer then AdvanceTail(r) else AdvanceHead(r)
    case Tally => r.(count := if th.producer then r.count + 1 else r.count - 1)
    case _ => r
  }

  /** The mutex is taken on entry and on waking, given up by the unlock and by going to sleep. */
  function NewOwner(owner: Option<nat>, r: Ring, t: nat, th: Thread): Option<nat> {
    if th.pc == Lock || th.pc == Woken then Some(t)
    else if th.pc == Unlock || (th.pc == Test && MustWait(r, th)) then None
    else owner
  }

  function Logged(t: nat, th: Thread, producer: bool): seq<Event> {
    if th.pc == Tally && th.producer == producer then [Event(t, if producer then Item(th) else th.val)] else []
  }

  function Apply(s: State, l: Label): State
    requires Enabled(s, l)
  {
    var t, th := l.tid, s.threads[l.tid];
    State(NewRing(s.ring, th), NewOwner(s.owner, s.ring, t, th),
          Wake(s.threads, Woke(l))[t := NewThread(s.ring, th)],
          s.pushed + Logged(t, th, true), s.popped + Logged(t, th, false))
  }

  function Woke(l: Label): set<nat> { if l.Act? then l.wake else {} }

  function Next(s: State, l: Label): Option<State> {
    if Enabled(s, l) then Some(Apply(s, l)) else None
  }

  /** The zeroed static queue and any mix of threads, none of which has started. */
  predicate Init(s: State) {
    && s.ring.head == 0 && s.ring.tail == 0 && s.ring.count == 0
    && s.owner == None && s.pushed == [] && s.popped == []
    && forall t :: 0 <= t < |s.threads| ==> s.threads[t].pc == Lock && s.threads[t].i == 0
  }

  /** A thread with no step of its own: finished, asleep, or waiting for a held mutex. */
  predicate Blocked(s: State, t: nat)
    requires t < |s.threads|
  {
    var pc := s.threads[t].pc;
    pc == Done || pc == Asleep || ((pc == Lock || pc == Woken) && s.owner != None)
  }

  ghost predicate Stuck(s: State) { forall t: nat | t < |s.threads| :: Blocked(s, t) }

  predicate AllDone(s: State) { forall t | 0 <= t < |s.threads| :: s.threads[t].pc == Done }

  /** The values of a log, in order, and those of one thread. */
  function Vals(log: seq<Event>): (v: seq<int>)
    ensures |v| == |log|
  {
    seq(|log|, k requires 0 <= k < |log| => log[k].val)
  }

  function By(log: seq<Event>, t: nat): seq<int> {
    if log == [] then [] else
      var e := log[|log| - 1];
      By(log[..|log| - 1], t) + if e.tid == t then [e.val] else []
  }

  /** Blocked is exactly the absence of an enabled step of one's own. */
  lemma BlockedMeansNoStep(s: State, t: nat)
    requires t < |s.threads|
    ensures Blocked(s, t) <==> forall wake :: !Enabled(s, Act(t, wake))
  {
    var all := Sleepers(s.threads, !s.threads[t].producer);
    if !Blocked(s, t) {
      assert Enabled(s, Act(t, {})) || Enabled(s, Act(t, all));
    }
  }

  /** The three update steps of a thread that holds the mutex are, on the ring, the in-place push of
      its item or the in-place pop of the value it then carries. */
  lemma UpdateIsPushOrPop(r: Ring, th: Thread)
    requires th.pc == Touch
    ensures var (r1, th1) := (NewRing(r, th), NewThread(r, th));
            var (r2, th2) := (NewRing(r1, th1), NewThread(r1, th1));
            var (r3, th3) := (NewRing(r2, th2), NewThread(r2, th2));
            && th3.pc == Signal
            && r3 == (if th.producer then Pushed(r, Item(th)) else Popped(r))
            && (!th.producer ==> th3.val == ReadSlot(r))
  {
  }
}
