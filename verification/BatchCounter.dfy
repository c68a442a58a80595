/** `producer2` and `consumer2` of 02_threads/thread_demo.c: each loop runs under one mutex that is
    given up only by sleeping on a condition or by finishing. */
module BatchCounter {
  import opened StepSystem
  import opened Sums

  /** The producer waits while `count > 10`. */
  const LIMIT := 10
  const BATCH := LIMIT + 1

  datatype Pc = Lock | Test | Tally | Signal | Unlock | Asleep | Woken | Done

  datatype Side = Producer | Consumer

  /** A thread and how many increments or decrements it has made. */
  datatype Thread = Thread(pc: Pc, i: nat)

  datatype State = State(n: nat, count: int, owner: Option<Side>, prod: Thread, cons: Thread)

  datatype Label = Act(side: Side) | Spurious(side: Side)

  function Of(s: State, side: Side): Thread { if side.Producer? then s.prod else s.cons }

  function Other(side: Side): Side { if side.Producer? then Consumer else Producer }

  function Put(s: State, side: Side, th: Thread): State {
    if side.Producer? then s.(prod := th) else s.(cons := th)
  }

  predicate Holds(pc: Pc) { pc == Test || pc == Tally || pc == Signal || pc == Unlock }

  predicate MustWait(s: State, side: Side) {
    if side.Producer? then s.count > LIMIT else s.count == 0
  }

  predicate Enabled(s: State, l: Label) {
    var pc := Of(s, l.side).pc;
    match l
    case Spurious(_) => pc == Asleep
    case Act(_) => pc != Asleep && pc != Done && (pc == Lock || pc == Woken ==> s.owner == None)
  }

  /** Where the `for` loop goes when its body is done, or on entry. */
  function LoopHead(n: nat, i: nat): Pc { if i < n then Test else Unlock }

  /** Only one thread can sleep on either condition, so a signal wakes it if it is there. */
  function Wake(th: Thread): Thread { if th.pc == Asleep then th.(pc := Woken) else th }

  function Apply(s: State, l: Label): State
    requires Enabled(s, l)
  {
    var th := Of(s, l.side);
    match th.pc
    case Lock => Put(s.(owner := Some(l.side)), l.side, th.(pc := LoopHead(s.n, th.i)))
    case Woken => Put(s.(owner := Some(l.side)), l.side, th.(pc := Test))
    case Test =>
      if MustWait(s, l.side) then Put(s.(owner := None), l.side, th.(pc := Asleep))
      else Put(s, l.side, th.(pc := Tally))
    case Tally =>
      Put(s.(count := if l.side.Producer? then s.count + 1 else s.count - 1), l.side, Thread(Signal, th.i + 1))
    case Signal =>
      Put(Put(s, Other(l.side), Wake(Of(s, Other(l.side)))), l.side, th.(pc := LoopHead(s.n, th.i)))
    case Unlock => Put(s.(owner := None), l.side, th.(pc := Done))
    case Asleep => Put(s, l.side, th.(pc := Woken))
  }

  function Next(s: State, l: Label): Option<State> {
    if Enabled(s, l) then Some(Apply(s, l)) else None
  }

  predicate Init(s: State) {
    s.count == 0 && s.owner == None && s.prod == Thread(Lock, 0) && s.cons == Thread(Lock, 0)
  }

  /** A total that a thread may leave behind when it gives up the mutex. */
  predicate BatchTotal(i: nat, n: nat) { i % BATCH == 0 || i == n }

  predicate ThreadInv(s: State, side: Side) {
    var th := Of(s, side);
    && (Holds(th.pc) <==> s.owner == Some(side))
    && th.i <= s.n
    && (th.pc == Test || th.pc == Tally || th.pc == Asleep || th.pc == Woken ==> th.i < s.n)
    && (th.pc == Unlock || th.pc == Done ==> th.i == s.n)
    && (s.owner != Some(side) ==> BatchTotal(th.i, s.n))
    // A sleeper is either rightly asleep or about to be signalled by the other thread.
    && (th.pc == Asleep ==> MustWait(s, side) || Of(s, Other(side)).pc == Signal)
  }

  predicate Inv(s: State) {
    && ThreadInv(s, Producer) && ThreadInv(s, Consumer)
    && s.count == s.prod.i - s.cons.i && 0 <= s.count <= BATCH
    && (s.prod.pc == Tally ==> s.count < BATCH)
    && (s.cons.pc == Tally ==> s.count > 0)
  }

  lemma StepActing(s: State, l: Label)
    requires Inv(s) && Enabled(s, l)
    ensures ThreadInv(Apply(s, l), l.side)
  {
  }

  lemma StepWaiting(s: State, l: Label)
    requires Inv(s) && Enabled(s, l)
    ensures ThreadInv(Apply(s, l), Other(l.side))
  {
  }

  lemma StepHolds(s: State, l: Label)
    requires Inv(s) && Enabled(s, l)
    ensures Inv(Apply(s, l)) && Apply(s, l).n == s.n
  {
    StepActing(s, l);
    StepWaiting(s, l);
    assert l.side == Producer || l.side == Consumer;
  }

  lemma Reached(s0: State, sched: seq<Label>) returns (s: State)
    requires Init(s0) && Runs(Next, s0, sched)
    ensures s == After(Next, s0, sched) && Inv(s) && s.n == s0.n
  {
    var inv := (a: State) => Inv(a) && a.n == s0.n;
    forall a: State, l: Label | inv(a) && Next(a, l).Some? ensures inv(Next(a, l).value) {
      StepHolds(a, l);
    }
    Invariance(Next, inv, s0, sched);
    s := After(Next, s0, sched);
  }

  /** Whenever the mutex is free, work has moved in whole batches of eleven or is at its end, and
      an unfinished producer leaves `count` at exactly nothing or one batch. */
  lemma MovesInBatches(s0: State, sched: seq<Label>)
    requires Init(s0) && Runs(Next, s0, sched) && After(Next, s0, sched).owner == None
    ensures var s := After(Next, s0, sched);
            && (s.prod.i % 11 == 0 || s.prod.i == s0.n) && (s.cons.i % 11 == 0 || s.cons.i == s0.n)
            && (s.prod.i < s0.n ==> s.count == 0 || s.count == 11)
  {
    var s := Reached(s0, sched);
  }

  /** While one thread works, the other's total stands still at a batch boundary: the count walks
      a single batch up or down. */
  lemma OneBatchAtATime(s0: State, sched: seq<Label>)
    requires Init(s0) && Runs(Next, s0, sched)
    ensures var s := After(Next, s0, sched);
            && 0 <= s.count <= 11 && s.count == s.prod.i - s.cons.i
            && (s.owner == Some(Producer) ==> s.cons.i % 11 == 0 || s.cons.i == s0.n)
            && (s.owner == Some(Consumer) ==> s.prod.i % 11 == 0 || s.prod.i == s0.n)
  {
    var s := Reached(s0, sched);
  }

  /** No deadlock, for any number of iterations: a state where no thread can move is one where
      both have finished, and then the count is back to zero. */
  lemma NoDeadlock(s0: State, sched: seq<Label>)
    requires Init(s0) && Runs(Next, s0, sched)
    ensures var s := After(Next, s0, sched);
            && ((!Enabled(s, Act(Producer)) && !Enabled(s, Act(Consumer))) <==> (s.prod.pc == Done && s.cons.pc == Done))
            && (s.prod.pc == Done && s.cons.pc == Done ==> s.count == 0 && s.prod.i == s.cons.i == s0.n)
  {
    var s := Reached(s0, sched);
    match s.owner {
      case None =>
      case Some(side) => assert side == Producer || side == Consumer;
    }
  }

  // ---- Termination ----

  function Rank(pc: Pc): int {
    match pc
    case Done => 0
    case Asleep => 0
    case Unlock => 1
    case Tally => 1
    case Test => 2
    case Lock => 3
    case Woken => 3
    case Signal => 6
  }

  /** Six per increment or decrement: its own steps and the sleeper its signal may wake. */
  function Left(s: State): int {
    6 * (2 * s.n - s.prod.i - s.cons.i) + Rank(s.prod.pc) + Rank(s.cons.pc)
  }

  function Grant(l: Label): int { if l.Spurious? then 4 else 0 }

  lemma LeftStep(s: State, l: Label)
    requires Enabled(s, l)
    ensures Left(Apply(s, l)) + 1 <= Left(s) + Grant(l)
  {
  }

  lemma LeftUsedUp()
    ensures Preserved(Next, Inv) && UsesUp(Next, Inv, Left, Grant)
  {
    forall a: State, l: Label | Inv(a) && Next(a, l).Some?
      ensures Inv(Next(a, l).value) && Left(Next(a, l).value) + 1 <= Left(a) + Grant(l)
    {
      StepHolds(a, l);
      LeftStep(a, l);
    }
  }

  lemma LeftNonNeg(s: State)
    requires Inv(s)
    ensures Left(s) >= 0
  {
  }

  /** Every run is finite but for its spurious wakeups. */
  lemma Terminates(s0: State, sched: seq<Label>)
    requires Init(s0) && Runs(Next, s0, sched)
    ensures |sched| <= 12 * s0.n + 6 + Sum(sched, Grant)
  {
    LeftUsedUp();
    LengthBound(Next, Inv, Left, Grant, s0, sched);
    var s := Reached(s0, sched);
    LeftNonNeg(s);
  }
}
