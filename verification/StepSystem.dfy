/** Schedules over a step function: a run is the list of scheduling decisions taken, and what
    every step keeps or uses up holds of whole runs. */
module StepSystem {
  import opened Sums

  datatype Option<+T> = None | Some(value: T)

  /** Every decision in the schedule can be taken, starting from s. */
  predicate Runs<S, L>(next: (S, L) -> Option<S>, s: S, sched: seq<L>)
    decreases |sched|
  {
    sched == [] || (next(s, sched[0]).Some? && Runs(next, next(s, sched[0]).value, sched[1..]))
  }

  /** The state the schedule leads to. */
  function After<S, L>(next: (S, L) -> Option<S>, s: S, sched: seq<L>): S
    requires Runs(next, s, sched)
    decreases |sched|
  {
    if sched == [] then s else After(next, next(s, sched[0]).value, sched[1..])
  }

  ghost predicate Preserved<S(!new), L(!new)>(next: (S, L) -> Option<S>, inv: S -> bool) {
    forall s: S, l: L :: inv(s) && next(s, l).Some? ==> inv(next(s, l).value)
  }

  /** What every step keeps, every run keeps. */
  lemma {:induction false} Invariance<S(!new), L(!new)>(
      next: (S, L) -> Option<S>, inv: S -> bool, s: S, sched: seq<L>)
    requires Preserved(next, inv) && inv(s) && Runs(next, s, sched)
    ensures inv(After(next, s, sched))
    decreases |sched|
  {
    if sched != [] {
      Invariance(next, inv, next(s, sched[0]).value, sched[1..]);
    }
  }

  /** A run as a whole satisfies any reflexive, transitive relation that each step satisfies. */
  lemma {:induction false} Relation<S(!new), L(!new)>(
      next: (S, L) -> Option<S>, rel: (S, S) -> bool, s: S, sched: seq<L>)
    requires forall a: S :: rel(a, a)
    requires forall a: S, b: S, c: S :: rel(a, b) && rel(b, c) ==> rel(a, c)
    requires forall a: S, l: L :: next(a, l).Some? ==> rel(a, next(a, l).value)
    requires Runs(next, s, sched)
    ensures rel(s, After(next, s, sched))
    decreases |sched|
  {
    if sched != [] {
      Relation(next, rel, next(s, sched[0]).value, sched[1..]);
    }
  }

  ghost predicate UsesUp<S(!new), L(!new)>(
      next: (S, L) -> Option<S>, inv: S -> bool, left: S -> int, grant: L -> int)
  {
    forall s: S, l: L :: inv(s) && next(s, l).Some? ==> left(next(s, l).value) + 1 <= left(s) + grant(l)
  }

  /** A measure that every step lowers, up to what the step is granted, bounds the run's length. */
  lemma {:induction false} LengthBound<S(!new), L(!new)>(
      next: (S, L) -> Option<S>, inv: S -> bool, left: S -> int, grant: L -> int, s: S, sched: seq<L>)
    requires Preserved(next, inv) && UsesUp(next, inv, left, grant)
    requires inv(s) && Runs(next, s, sched)
    ensures |sched| + left(After(next, s, sched)) <= left(s) + Sum(sched, grant)
    decreases |sched|
  {
    if sched != [] {
      LengthBound(next, inv, left, grant, next(s, sched[0]).value, sched[1..]);
      SumSplit(sched, grant);
    }
  }

  lemma {:induction false} SumSplit<L>(sched: seq<L>, f: L -> int)
    requires sched != []
    ensures Sum(sched, f) == f(sched[0]) + Sum(sched[1..], f)
  {
    var last := |sched| - 1;
    if last > 0 {
      SumSplit(sched[..last], f);
      assert sched[..last][1..] == sched[1..][..last - 1];
    }
  }

  /** A run extended by one step. */
  lemma {:induction false} Extend<S, L>(next: (S, L) -> Option<S>, s: S, sched: seq<L>, l: L)
    requires Runs(next, s, sched) && next(After(next, s, sched), l).Some?
    ensures Runs(next, s, sched + [l])
    ensures After(next, s, sched + [l]) == next(After(next, s, sched), l).value
    decreases |sched|
  {
    if sched != [] {
      Extend(next, next(s, sched[0]).value, sched[1..], l);
      assert (sched + [l])[1..] == sched[1..] + [l];
    }
  }
}
