/** The mutex-protected counter of 02_threads/thread_demo.c, with `g_counter++` split into its load
    and its store. */
module MutexCounter {
  import opened StepSystem
  import opened Sums

  datatype Pc = Lock | Load | Store | Unlock | Done

  /** `i` is the loop index, `reg` the value loaded from the counter. */
  datatype Thread = Thread(pc: Pc, i: nat, reg: int)

  datatype State = State(counter: int, owner: Option<nat>, iters: nat, threads: seq<Thread>)

  function LoopHead(iters: nat, i: nat): Pc { if i < iters then Lock else Done }

  predicate Enabled(s: State, t: nat) {
    && t < |s.threads| && s.threads[t].pc != Done
    && (s.threads[t].pc == Lock ==> s.owner == None)
  }

  function Apply(s: State, t: nat): State
    requires Enabled(s, t)
  {
    var th := s.threads[t];
    match th.pc
    case Lock => s.(owner := Some(t), threads := s.threads[t := th.(pc := Load)])
    case Load => s.(threads := s.threads[t := th.(pc := Store, reg := s.counter)])
    case Store => s.(counter := th.reg + 1, threads := s.threads[t := th.(pc := Unlock)])
    case Unlock =>
      s.(owner := None, threads := s.threads[t := th.(pc := LoopHead(s.iters, th.i + 1), i := th.i + 1)])
  }

  function Next(s: State, t: nat): Option<State> {
    if Enabled(s, t) then Some(Apply(s, t)) else None
  }

  predicate Init(s: State) {
    && s.counter == 0 && s.owner == None
    && forall t :: 0 <= t < |s.threads| ==> s.threads[t].pc == LoopHead(s.iters, 0) && s.threads[t].i == 0
  }

  predicate Inside(pc: Pc) { pc == Load || pc == Store || pc == Unlock }

  /** Increments a thread has stored. */
  function Stored(th: Thread): int { th.i + if th.pc == Unlock then 1 else 0 }

  predicate ThreadInv(s: State, t: nat)
    requires t < |s.threads|
  {
    var th := s.threads[t];
    && (Inside(th.pc) <==> s.owner == Some(t))
    && th.i <= s.iters && (th.pc == Done <==> th.i == s.iters)
    && (th.pc == Store ==> th.reg == s.counter)
  }

  /** The counter is the number of increments stored: none was lost. */
  predicate Inv(s: State) {
    && (s.owner.Some? ==> s.owner.value < |s.threads|)
    && (forall t: nat | t < |s.threads| :: ThreadInv(s, t))
    && s.counter == Sum(s.threads, Stored)
  }

  lemma StepHolds(s: State, t: nat)
    requires Inv(s) && Enabled(s, t)
    ensures Inv(Apply(s, t))
  {
    var s' := Apply(s, t);
    assert ThreadInv(s, t);
    SumUpdate(s.threads, Stored, t, s'.threads[t]);
    forall u: nat | u < |s'.threads| ensures ThreadInv(s', u) {
      assert ThreadInv(s, u);
    }
  }

  lemma Reached(s0: State, sched: seq<nat>) returns (s: State)
    requires Init(s0) && Runs(Next, s0, sched)
    ensures s == After(Next, s0, sched) && Inv(s)
    ensures |s.threads| == |s0.threads| && s.iters == s0.iters
  {
    SumZero(s0.threads, Stored);
    var inv := (a: State) => Inv(a) && |a.threads| == |s0.threads| && a.iters == s0.iters;
    forall a: State, t: nat | inv(a) && Next(a, t).Some? ensures inv(Next(a, t).value) {
      StepHolds(a, t);
    }
    Invariance(Next, inv, s0, sched);
    s := After(Next, s0, sched);
  }

  lemma MutualExclusion(s0: State, sched: seq<nat>, t: nat, u: nat)
    requires Init(s0) && Runs(Next, s0, sched)
    requires t < |After(Next, s0, sched).threads| && u < |After(Next, s0, sched).threads|
    requires Inside(After(Next, s0, sched).threads[t].pc) && Inside(After(Next, s0, sched).threads[u].pc)
    ensures t == u
  {
    var s := Reached(s0, sched);
    assert ThreadInv(s, t) && ThreadInv(s, u);
  }

  lemma {:induction false} SumOfDone(ts: seq<Thread>, iters: nat)
    requires forall t :: 0 <= t < |ts| ==> ts[t].pc == Done && ts[t].i == iters
    ensures Sum(ts, Stored) == |ts| * iters
  {
    if |ts| > 0 {
      SumOfDone(ts[..|ts| - 1], iters);
      assert |ts| * iters == (|ts| - 1) * iters + iters;
    }
  }

  /** A run that cannot go on has every thread finished and the counter at threads times
      iterations, whatever the interleaving. */
  lemma FinalCount(s0: State, sched: seq<nat>)
    requires Init(s0) && Runs(Next, s0, sched)
    ensures var s := After(Next, s0, sched);
            && ((forall t :: !Enabled(s, t)) <==> (forall t :: 0 <= t < |s.threads| ==> s.threads[t].pc == Done))
            && ((forall t :: !Enabled(s, t)) ==> s.counter == |s0.threads| * s0.iters)
  {
    var s := Reached(s0, sched);
    assert s.owner.Some? ==> ThreadInv(s, s.owner.value) && Enabled(s, s.owner.value);
    if forall t :: !Enabled(s, t) {
      forall t: nat | t < |s.threads| ensures s.threads[t].pc == Done && s.threads[t].i == s.iters {
        assert ThreadInv(s, t) && !Enabled(s, t);
      }
      SumOfDone(s.threads, s.iters);
    }
  }

  /** Steps a thread has taken: four per iteration. */
  function StepsTaken(th: Thread): int {
    4 * th.i + match th.pc
               case Lock => 0
               case Load => 1
               case Store => 2
               case Unlock => 3
               case Done => 0
  }

  lemma {:induction false} ExactLength(s: State, sched: seq<nat>)
    requires Runs(Next, s, sched)
    ensures Sum(After(Next, s, sched).threads, StepsTaken) == Sum(s.threads, StepsTaken) + |sched|
    decreases |sched|
  {
    if sched != [] {
      var t, s' := sched[0], Apply(s, sched[0]);
      SumUpdate(s.threads, StepsTaken, t, s'.threads[t]);
      ExactLength(s', sched[1..]);
    }
  }

  lemma {:induction false} StepsBound(ts: seq<Thread>, iters: nat)
    requires forall t :: 0 <= t < |ts| ==> ts[t].i <= iters && (ts[t].pc == Done <==> ts[t].i == iters)
    ensures Sum(ts, StepsTaken) <= 4 * (|ts| * iters)
    ensures (forall t :: 0 <= t < |ts| ==> ts[t].pc == Done) <==> Sum(ts, StepsTaken) == 4 * (|ts| * iters)
  {
    if |ts| > 0 {
      var last := |ts| - 1;
      StepsBound(ts[..last], iters);
      assert |ts| * iters == last * iters + iters;
      assert forall t :: 0 <= t < last ==> ts[t] == ts[..last][t];
      assert StepsTaken(ts[last]) <= 4 * iters && (ts[last].pc == Done <==> StepsTaken(ts[last]) == 4 * iters);
    }
  }

  /** Four steps per thread and iteration: no run is longer, and exactly the finished ones are that
      long. */
  lemma Terminates(s0: State, sched: seq<nat>)
    requires Init(s0) && Runs(Next, s0, sched)
    ensures var s := After(Next, s0, sched);
            && |sched| <= 4 * (|s0.threads| * s0.iters)
            && ((forall t :: 0 <= t < |s.threads| ==> s.threads[t].pc == Done)
                <==> |sched| == 4 * (|s0.threads| * s0.iters))
  {
    var s := Reached(s0, sched);
    SumZero(s0.threads, StepsTaken);
    ExactLength(s0, sched);
    forall t: nat | t < |s.threads| ensures s.threads[t].i <= s.iters && (s.threads[t].pc == Done <==> s.threads[t].i == s.iters) {
      assert ThreadInv(s, t);
    }
    StepsBound(s.threads, s.iters);
  }
}
