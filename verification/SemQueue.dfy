/** The two-semaphore queue of 02_threads/thread_demo.c: one producer, one consumer, no lock, one
    C statement per step and `count` split into its load and its store. */
module SemQueue {
  import opened Ring
  import opened StepSystem
  import opened Workload

  /** `sem_init(&_sem_queue.sem_not_full, 0, 5)`. */
  const TOKENS := 5

  datatype Pc = Wait | Touch | Advance | Load | Store | Post | Done

  /** `i` counts completed pushes, `got` the values that `raw_queue_pop` returned; the two
      registers hold the value of `count` between its load and its store. */
  datatype State = State(ring: Ring, notFull: int, notEmpty: int, n: int,
                         ppc: Pc, i: nat, preg: int,
                         cpc: Pc, val: int, creg: int, got: seq<int>)

  datatype Label = Producer | Consumer

  predicate Enabled(s: State, l: Label) {
    match l
    case Producer => s.ppc != Done && (s.ppc == Wait ==> s.notFull > 0)
    case Consumer => s.cpc != Done && (s.cpc == Wait ==> s.notEmpty > 0)
  }

  function Apply(s: State, l: Label): State {
    if l.Producer? then
      match s.ppc
      case Wait => s.(notFull := s.notFull - 1, ppc := Touch)
      case Touch => s.(ring := WriteSlot(s.ring, ItemAt(s.n, s.i)), ppc := Advance)
      case Advance => s.(ring := AdvanceTail(s.ring), ppc := Load)
      case Load => s.(preg := s.ring.count, ppc := Store)
      case Store => s.(ring := s.ring.(count := s.preg + 1), ppc := Post)
      case Post => s.(notEmpty := s.notEmpty + 1, i := s.i + 1, ppc := if s.i < s.n then Wait else Done)
      case Done => s
    else
      match s.cpc
      case Wait => s.(notEmpty := s.notEmpty - 1, cpc := Touch)
      case Touch => s.(val := ReadSlot(s.ring), cpc := Advance)
      case Advance => s.(ring := AdvanceHead(s.ring), cpc := Load)
      case Load => s.(creg := s.ring.count, cpc := Store)
      case Store => s.(ring := s.ring.(count := s.creg - 1), cpc := Post)
      case Post =>
        s.(notFull := s.notFull + 1, got := s.got + [s.val], cpc := if s.val == SENTINEL then Done else Wait)
      case Done => s
  }

  function Next(s: State, l: Label): Option<State> {
    if Enabled(s, l) then Some(Apply(s, l)) else None
  }

  /** Both semaphores fresh; the ring may stand at any rotation with any count left over. */
  predicate Init(s: State, tokens: int) {
    && s.ring.head == s.ring.tail && s.notFull == tokens && s.notEmpty == 0
    && s.ppc == Wait && s.i == 0 && s.cpc == Wait && s.got == []
  }

  // ---- Invariant ----

  function InFlight(pc: Pc): int { if pc == Wait || pc == Done then 0 else 1 }
  function Moved(pc: Pc): int { if pc == Load || pc == Store || pc == Post then 1 else 0 }
  predicate Touched(pc: Pc) { pc == Advance || Moved(pc) == 1 }

  /** Tokens are conserved, and the completed pushes not yet popped are those available or being
      popped. */
  predicate TokenInv(s: State, tokens: int) {
    && s.notFull >= 0 && s.notEmpty >= 0
    && s.notFull + s.notEmpty + InFlight(s.ppc) + InFlight(s.cpc) == tokens
    && s.i - |s.got| == s.notEmpty + InFlight(s.cpc)
  }

  /** Each side finishes exactly when it has moved the sentinel. */
  predicate ProgressInv(s: State) {
    && s.i <= Pushes(s.n) && (s.ppc == Done <==> s.i == Pushes(s.n))
    && |s.got| <= Pushes(s.n) && (s.cpc == Done <==> |s.got| == Pushes(s.n))
    && s.got == Program(s.n, |s.got|)
    && (Touched(s.cpc) ==> s.val == ItemAt(s.n, |s.got|))
  }

  /** Slot base+k holds the k-th item from its write until its pop completes. */
  predicate SlotInv(s: State, base: int) {
    && s.ring.tail == Slot(base, s.i + Moved(s.ppc))
    && s.ring.head == Slot(base, |s.got| + Moved(s.cpc))
    && (forall k :: |s.got| <= k < s.i ==> s.ring.data[Slot(base, k)] == ItemAt(s.n, k))
    && (Touched(s.ppc) ==> s.ring.data[Slot(base, s.i)] == ItemAt(s.n, s.i))
  }

  predicate Inv(s: State, tokens: int, base: int) {
    TokenInv(s, tokens) && ProgressInv(s) && SlotInv(s, base)
  }

  lemma StepTokens(s: State, tokens: int, l: Label)
    requires TokenInv(s, tokens) && Enabled(s, l)
    ensures TokenInv(Apply(s, l), tokens)
  {
  }

  lemma StepProgress(s: State, tokens: int, base: int, l: Label)
    requires Inv(s, tokens, base) && Enabled(s, l)
    ensures ProgressInv(Apply(s, l))
  {
    if l.Consumer? && s.cpc == Post {
      assert Program(s.n, |s.got| + 1) == Program(s.n, |s.got|) + [ItemAt(s.n, |s.got|)];
    }
  }

  /** The write lands outside the window of items not yet popped. */
  lemma StepSlotWrite(s: State, tokens: int, base: int)
    requires tokens <= QUEUE_SIZE && TokenInv(s, tokens) && SlotInv(s, base) && s.ppc == Touch
    ensures SlotInv(Apply(s, Producer), base)
  {
    forall k | |s.got| <= k < s.i ensures Slot(base, k) != Slot(base, s.i) {
      SlotsApart(base, k, s.i);
    }
  }

  lemma StepSlotProducer(s: State, tokens: int, base: int)
    requires tokens <= QUEUE_SIZE && Inv(s, tokens, base) && Enabled(s, Producer)
    ensures SlotInv(Apply(s, Producer), base)
  {
    if s.ppc == Touch {
      StepSlotWrite(s, tokens, base);
    } else if s.ppc == Advance {
      SlotShift(base, s.i, 1);
    }
  }

  lemma StepSlotConsumer(s: State, tokens: int, base: int)
    requires Inv(s, tokens, base) && Enabled(s, Consumer)
    ensures SlotInv(Apply(s, Consumer), base)
  {
    if s.cpc == Advance {
      SlotShift(base, |s.got|, 1);
    }
  }

  lemma Reached(s0: State, tokens: int, sched: seq<Label>) returns (s: State)
    requires 0 <= tokens <= QUEUE_SIZE && Init(s0, tokens) && Runs(Next, s0, sched)
    ensures s == After(Next, s0, sched) && Inv(s, tokens, s0.ring.head)
  {
    var base := s0.ring.head;
    var inv := (a: State) => Inv(a, tokens, base);
    forall a: State, l: Label | inv(a) && Next(a, l).Some? ensures inv(Next(a, l).value) {
      StepTokens(a, tokens, l);
      StepProgress(a, tokens, base, l);
      if l.Producer? {
        StepSlotProducer(a, tokens, base);
      } else {
        StepSlotConsumer(a, tokens, base);
      }
    }
    assert s0.got == Program(s0.n, 0);
    Invariance(Next, inv, s0, sched);
    s := After(Next, s0, sched);
  }

  // ---- Theorems, for any number of tokens that the slots can back ----

  /** Tokens are conserved, and the slot being written is never the slot being read. */
  lemma Safety(s0: State, tokens: int, sched: seq<Label>)
    requires 0 <= tokens <= 8 && Init(s0, tokens) && Runs(Next, s0, sched)
    ensures var s := After(Next, s0, sched);
            && s.notFull >= 0 && s.notEmpty >= 0
            && s.notFull + s.notEmpty + InFlight(s.ppc) + InFlight(s.cpc) == tokens
            && (s.ppc == Touch && s.cpc == Touch ==> s.ring.tail != s.ring.head)
  {
    var s := Reached(s0, tokens, sched);
  }

  /** The consumer has received a prefix of 0, 1, ..., n-1, -1, and all of it once done. */
  lemma Delivery(s0: State, tokens: int, sched: seq<Label>)
    requires 0 <= tokens <= 8 && Init(s0, tokens) && Runs(Next, s0, sched)
    ensures var s := After(Next, s0, sched);
            && |s.got| <= (if s0.n < 0 then 1 else s0.n + 1)
            && (forall k :: 0 <= k < |s.got| ==> s.got[k] == if k < s0.n then k else -1)
            && (s.cpc == Done <==> |s.got| == if s0.n < 0 then 1 else s0.n + 1)
            && (s.cpc == Done ==> s.ppc == Done && s.notEmpty == 0)
  {
    var s := Reached(s0, tokens, sched);
    BoundKept(s0, sched);
    assert forall k :: 0 <= k < |s.got| ==> s.got[k] == ItemAt(s.n, k);
  }

  /** With at least one token, some thread can move until both have finished. */
  lemma NoDeadlock(s0: State, tokens: int, sched: seq<Label>)
    requires 1 <= tokens <= 8 && Init(s0, tokens) && Runs(Next, s0, sched)
    ensures var s := After(Next, s0, sched);
            (!Enabled(s, Producer) && !Enabled(s, Consumer)) <==> (s.ppc == Done && s.cpc == Done)
  {
    var s := Reached(s0, tokens, sched);
  }

  // ---- Every complete run takes the same number of steps ----

  function StepIndex(pc: Pc): int {
    match pc
    case Wait => 0
    case Touch => 1
    case Advance => 2
    case Load => 3
    case Store => 4
    case Post => 5
    case Done => 0
  }

  function StepsTaken(s: State): int { 6 * s.i + StepIndex(s.ppc) + 6 * |s.got| + StepIndex(s.cpc) }

  lemma OneStep(s: State, l: Label)
    requires Enabled(s, l)
    ensures StepsTaken(Apply(s, l)) == StepsTaken(s) + 1
  {
  }

  lemma {:induction false} ExactLength(s: State, sched: seq<Label>)
    requires Runs(Next, s, sched)
    ensures StepsTaken(After(Next, s, sched)) == StepsTaken(s) + |sched|
    decreases |sched|
  {
    if sched != [] {
      OneStep(s, sched[0]);
      ExactLength(Apply(s, sched[0]), sched[1..]);
    }
  }

  /** Twelve steps per value, no more in any run and no fewer in a finished one. */
  lemma Terminates(s0: State, tokens: int, sched: seq<Label>)
    requires 0 <= tokens <= 8 && Init(s0, tokens) && Runs(Next, s0, sched)
    ensures var s := After(Next, s0, sched);
            && |sched| <= 12 * (if s0.n < 0 then 1 else s0.n + 1)
            && (s.ppc == Done && s.cpc == Done <==> |sched| == 12 * (if s0.n < 0 then 1 else s0.n + 1))
  {
    var s := Reached(s0, tokens, sched);
    ExactLength(s0, sched);
    BoundKept(s0, sched);
  }

  lemma {:induction false} BoundKept(s: State, sched: seq<Label>)
    requires Runs(Next, s, sched)
    ensures After(Next, s, sched).n == s.n
    decreases |sched|
  {
    if sched != [] {
      BoundKept(Apply(s, sched[0]), sched[1..]);
    }
  }

  // ---- The racy count never matters ----

  /** The state with `count` and both registers forgotten. */
  function Blind(s: State): State { s.(ring := s.ring.(count := 0), preg := 0, creg := 0) }

  /** A step taken after something else wrote an arbitrary value to `count`. */
  datatype Disturbed = Disturbed(l: Label, count: int)

  function NextDisturbed(s: State, d: Disturbed): Option<State> {
    Next(s.(ring := s.ring.(count := d.count)), d.l)
  }

  function Labels(ds: seq<Disturbed>): (r: seq<Label>)
    ensures |r| == |ds|
  {
    seq(|ds|, k requires 0 <= k < |ds| => ds[k].l)
  }

  lemma BlindStep(a: State, b: State, l: Label)
    requires Blind(a) == Blind(b)
    ensures Enabled(a, l) == Enabled(b, l)
    ensures Blind(Apply(a, l)) == Blind(Apply(b, l))
  {
  }

  /** Two runs under the same schedule agree on everything but `count` and its two registers,
      even when one of them has `count` overwritten arbitrarily before every step. */
  lemma {:induction false} CountIndependence(a: State, b: State, ds: seq<Disturbed>)
    requires Blind(a) == Blind(b)
    ensures Runs(Next, a, Labels(ds)) <==> Runs(NextDisturbed, b, ds)
    ensures Runs(Next, a, Labels(ds)) ==>
              Blind(After(Next, a, Labels(ds))) == Blind(After(NextDisturbed, b, ds))
    decreases |ds|
  {
    if ds != [] {
      var l := ds[0].l;
      var b' := b.(ring := b.ring.(count := ds[0].count));
      BlindStep(a, b', l);
      assert Labels(ds)[1..] == Labels(ds[1..]);
      if Enabled(a, l) {
        CountIndependence(Apply(a, l), Apply(b', l), ds[1..]);
      }
    }
  }

  // ---- When the racy count is right ----

  /** Increments and decrements stored so far. */
  function Raised(s: State): int { s.i + if s.ppc == Post then 1 else 0 }
  function Lowered(s: State): int { |s.got| + if s.cpc == Post then 1 else 0 }

  predicate Exact(s: State, c0: int) { s.ring.count == c0 + Raised(s) - Lowered(s) }

  /** Both threads hold a loaded value: the unprotected updates overlap. */
  predicate Overlap(s: State) { s.ppc == Store && s.cpc == Store }

  /** In every state the schedule passes through. */
  predicate AlwaysExact(s: State, c0: int, sched: seq<Label>)
    requires Runs(Next, s, sched)
    decreases |sched|
  {
    Exact(s, c0) && (sched != [] ==> AlwaysExact(Apply(s, sched[0]), c0, sched[1..]))
  }

  predicate NeverOverlap(s: State, sched: seq<Label>)
    requires Runs(Next, s, sched)
    decreases |sched|
  {
    !Overlap(s) && (sched != [] ==> NeverOverlap(Apply(s, sched[0]), sched[1..]))
  }

  lemma {:induction false} SerialIsExact(s: State, c0: int, sched: seq<Label>)
    requires Runs(Next, s, sched) && NeverOverlap(s, sched) && Exact(s, c0)
    requires (s.ppc == Store ==> s.preg == s.ring.count) && (s.cpc == Store ==> s.creg == s.ring.count)
    ensures AlwaysExact(s, c0, sched)
    decreases |sched|
  {
    if sched != [] {
      assert !Overlap(s);
      SerialIsExact(Apply(s, sched[0]), c0, sched[1..]);
    }
  }

  /** A thread that holds a value the other has since moved past spoils the count when it stores. */
  predicate Stale(s: State) {
    (s.cpc == Store && s.creg < s.ring.count) || (s.ppc == Store && s.preg > s.ring.count)
  }

  lemma {:induction false} StaleSpoils(s: State, c0: int, sched: seq<Label>)
    requires Runs(Next, s, sched) && Stale(s) && AlwaysExact(s, c0, sched)
    ensures After(Next, s, sched).ppc == Store || After(Next, s, sched).cpc == Store
    decreases |sched|
  {
    if sched != [] {
      var s' := Apply(s, sched[0]);
      assert Exact(s', c0);
      StaleSpoils(s', c0, sched[1..]);
    }
  }

  lemma {:induction false} ExactIsSerial(s: State, c0: int, sched: seq<Label>)
    requires Runs(Next, s, sched) && AlwaysExact(s, c0, sched)
    requires After(Next, s, sched).ppc == Done && After(Next, s, sched).cpc == Done
    requires (s.ppc == Store ==> s.preg >= s.ring.count) && (s.cpc == Store ==> s.creg <= s.ring.count)
    ensures NeverOverlap(s, sched)
    decreases |sched|
  {
    if sched != [] {
      var s' := Apply(s, sched[0]);
      assert Exact(s', c0);
      if Stale(s) {
        StaleSpoils(s, c0, sched);
      } else if Overlap(s) {
        StaleSpoils(s', c0, sched[1..]);
      } else {
        ExactIsSerial(s', c0, sched[1..]);
      }
    }
  }

  /** `count` can be wrong, and exactly this decides it: in a finished run it matched the updates made
      at every moment if and only if the two updates never overlapped. */
  lemma CountExactIffNoOverlap(s0: State, tokens: int, sched: seq<Label>)
    requires Init(s0, tokens) && Runs(Next, s0, sched)
    requires After(Next, s0, sched).ppc == Done && After(Next, s0, sched).cpc == Done
    ensures AlwaysExact(s0, s0.ring.count, sched) <==> NeverOverlap(s0, sched)
  {
    if NeverOverlap(s0, sched) {
      SerialIsExact(s0, s0.ring.count, sched);
    }
    if AlwaysExact(s0, s0.ring.count, sched) {
      ExactIsSerial(s0, s0.ring.count, sched);
    }
  }

  // ---- Where the final value comes from ----

  /** The updates whose effect a value of `count` still carries. */
  datatype Kept = Kept(inc: nat, dec: nat)

  /** The account of `count` itself and of the two loaded copies. */
  datatype Account = Account(count: Kept, preg: Kept, creg: Kept)

  /** A load copies the account and a store replaces it, adding its own update: whatever the other
      side stored in between is dropped. */
  function Flow(s: State, l: Label, g: Account): Account {
    match l
    case Producer =>
      if s.ppc == Load then g.(preg := g.count)
      else if s.ppc == Store then g.(count := g.preg.(inc := g.preg.inc + 1)) else g
    case Consumer =>
      if s.cpc == Load then g.(creg := g.count)
      else if s.cpc == Store then g.(count := g.creg.(dec := g.creg.dec + 1)) else g
  }

  function FlowOf(s: State, sched: seq<Label>, g: Account): Account
    requires Runs(Next, s, sched)
    decreases |sched|
  {
    if sched == [] then g else FlowOf(Apply(s, sched[0]), sched[1..], Flow(s, sched[0], g))
  }

  predicate Accounts(k: Kept, value: int, c0: int, s: State) {
    value == c0 + k.inc - k.dec && k.inc <= Raised(s) && k.dec <= Lowered(s)
  }

  predicate AccountInv(s: State, g: Account, c0: int) {
    && Accounts(g.count, s.ring.count, c0, s)
    && (s.ppc == Store ==> Accounts(g.preg, s.preg, c0, s))
    && (s.cpc == Store ==> Accounts(g.creg, s.creg, c0, s))
  }

  lemma AccountStep(s: State, g: Account, c0: int, l: Label)
    requires AccountInv(s, g, c0) && Enabled(s, l)
    ensures AccountInv(Apply(s, l), Flow(s, l, g), c0)
  {
  }

  lemma {:induction false} AccountRun(s: State, g: Account, c0: int, sched: seq<Label>)
    requires AccountInv(s, g, c0) && Runs(Next, s, sched)
    ensures AccountInv(After(Next, s, sched), FlowOf(s, sched, g), c0)
    decreases |sched|
  {
    if sched != [] {
      AccountStep(s, g, c0, sched[0]);
      AccountRun(Apply(s, sched[0]), Flow(s, sched[0], g), c0, sched[1..]);
    }
  }

  /** The accounting law of the race: in every run `count` is its start plus the increments and minus
      the decrements it kept, so it is off by the decrements lost less the increments lost, and a
      finished run ends where it started exactly when as many of each were lost. */
  lemma CountAccount(s0: State, tokens: int, sched: seq<Label>)
    requires 0 <= tokens <= QUEUE_SIZE && Init(s0, tokens) && Runs(Next, s0, sched)
    ensures var s := After(Next, s0, sched);
            var kept := FlowOf(s0, sched, Account(Kept(0, 0), Kept(0, 0), Kept(0, 0))).count;
            var lostInc, lostDec := Raised(s) - kept.inc, Lowered(s) - kept.dec;
            && lostInc >= 0 && lostDec >= 0
            && s.ring.count == s0.ring.count + Raised(s) - Lowered(s) + lostDec - lostInc
            && (Exact(s, s0.ring.count) <==> lostInc == lostDec)
            && (s.ppc == Done && s.cpc == Done ==> (s.ring.count == s0.ring.count <==> lostInc == lostDec))
  {
    AccountRun(s0, Account(Kept(0, 0), Kept(0, 0), Kept(0, 0)), s0.ring.count, sched);
    var s := Reached(s0, tokens, sched);
  }

  // ---- A finished run with a wrong count ----

  /** One whole push; a pop and the second push both load `count`; the push stores and finishes, then
      the pop stores over it, and a second pop finishes the run. */
  function Turn(k: nat): Label { if 6 <= k < 10 || 16 <= k then Consumer else Producer }

  function Stage(k: int): Pc {
    if k <= 0 then Wait else if k == 1 then Touch else if k == 2 then Advance
    else if k == 3 then Load else if k == 4 then Store else Post
  }

  /** The control state of that run after k of its twenty-four steps. */
  predicate ShownControl(s: State, k: nat) {
    && s.n == 1
    && s.i == (if k < 6 then 0 else if k < 16 then 1 else 2)
    && |s.got| == (if k < 18 then 0 else if k < 24 then 1 else 2)
    && s.ppc == (if k < 6 then Stage(k) else if k < 10 then Wait else if k < 16 then Stage(k - 10) else Done)
    && s.cpc == (if k < 6 then Wait else if k < 10 then Stage(k - 6) else if k < 17 then Store
                 else if k == 17 then Post else if k < 24 then Stage(k - 18) else Done)
    && s.notFull == (if k == 0 || k == 24 then 5 else if 11 <= k < 18 then 3 else 4)
    && s.notEmpty == (if k == 6 || 16 <= k <= 18 then 1 else 0)
  }

  predicate ShownCount(s: State, k: nat) {
    && s.ring.count == (if k < 5 then 0 else if k < 15 then 1 else if k < 17 then 2 else if k < 23 then 0 else -1)
    && (s.ppc == Store ==> s.preg == if k == 4 then 0 else 1)
    && (s.cpc == Store ==> s.creg == if k == 22 then 0 else 1)
  }

  lemma ShownStep(s: State, k: nat)
    requires k < 24 && ShownControl(s, k) && ProgressInv(s)
    ensures Enabled(s, Turn(k)) && ShownControl(Apply(s, Turn(k)), k + 1)
  {
  }

  lemma ShownCountStep(s: State, k: nat)
    requires k < 24 && ShownControl(s, k) && ShownCount(s, k)
    ensures ShownCount(Apply(s, Turn(k)), k + 1)
  {
  }

  lemma {:induction false} ExactAtEnd(s: State, c0: int, sched: seq<Label>)
    requires Runs(Next, s, sched) && AlwaysExact(s, c0, sched)
    ensures Exact(After(Next, s, sched), c0)
    decreases |sched|
  {
    if sched != [] {
      ExactAtEnd(Apply(s, sched[0]), c0, sched[1..]);
    }
  }

  lemma ReachedProgress(s0: State, tokens: int, sched: seq<Label>)
    requires 0 <= tokens <= QUEUE_SIZE && Init(s0, tokens) && Runs(Next, s0, sched)
    ensures ProgressInv(After(Next, s0, sched))
  {
    var s := Reached(s0, tokens, sched);
  }

  lemma {:induction false} ShownRun(s0: State, k: nat) returns (sched: seq<Label>)
    requires Init(s0, TOKENS) && s0.n == 1 && s0.ring.count == 0 && k <= 24
    ensures |sched| == k && Runs(Next, s0, sched)
    ensures ShownControl(After(Next, s0, sched), k) && ShownCount(After(Next, s0, sched), k)
  {
    if k == 0 {
      sched := [];
    } else {
      var front := ShownRun(s0, k - 1);
      var s, l := After(Next, s0, front), Turn(k - 1);
      ReachedProgress(s0, TOKENS, front);
      ShownStep(s, k - 1);
      ShownCountStep(s, k - 1);
      Extend(Next, s0, front, l);
      sched := front + [l];
    }
  }

  /** The count can end wrong: with the five tokens of the source and two values to push, a run in
      which both threads finish and the queue is empty leaves `count` one below its start. */
  lemma CountEndsWrong(s0: State) returns (sched: seq<Label>)
    requires Init(s0, 5) && s0.n == 1 && s0.ring.count == 0
    ensures Runs(Next, s0, sched)
    ensures var s := After(Next, s0, sched);
            && s.ppc == Done && s.cpc == Done && s.notEmpty == 0 && s.ring.count == -1
            && !AlwaysExact(s0, 0, sched) && !NeverOverlap(s0, sched)
  {
    sched := ShownRun(s0, 24);
    if AlwaysExact(s0, 0, sched) {
      ExactAtEnd(s0, 0, sched);
    }
    CountExactIffNoOverlap(s0, TOKENS, sched);
  }
}
