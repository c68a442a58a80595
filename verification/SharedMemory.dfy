/** The two-semaphore handoff of 03_ipc/shm_demo.c: a parent writes numbered messages into one shared
    buffer byte by byte, a child reads them byte by byte, in any interleaving. */
module SharedMemory {
  import opened StepSystem
  import opened Sums

  const BUF_SIZE := 256
  const NUL := '\0'

  datatype Message = Message(number: int, text: string)

  // ---- What is written ----

  function Decimal(n: nat): (s: string)
    ensures NUL !in s
  {
    var d := ['0' + (n % 10) as char];
    if n < 10 then d else Decimal(n / 10) + d
  }

  /** The text of message i from a producer with the given process id. */
  function Line(i: nat, pid: nat): (s: string)
    ensures NUL !in s
  {
    "Hello #" + Decimal(i) + " from producer (PID " + Decimal(pid) + ")"
  }

  /** `snprintf` keeps at most BUF_SIZE - 1 characters and ends them with a NUL. */
  function Clip(text: string): string { if |text| < BUF_SIZE then text else text[..BUF_SIZE - 1] }

  /** Message i as the reader should see it. */
  function Sent(i: nat, pid: nat): Message { Message(i, Clip(Line(i, pid))) }

  lemma SentHasNoNul(i: nat, pid: nat)
    ensures NUL !in Sent(i, pid).text && |Sent(i, pid).text| < BUF_SIZE
  {
  }

  predicate Digits(s: string) { s != [] && forall k :: 0 <= k < |s| ==> '0' <= s[k] <= '9' }

  /** A string of digits read as a base-ten numeral, first digit most significant. */
  function Reading(s: string): int {
    if s == [] then 0 else 10 * Reading(s[..|s| - 1]) + (s[|s| - 1] as int - '0' as int)
  }

  /** The printed number reads back as itself and has no leading zero. */
  lemma {:induction false} DecimalReads(n: nat)
    ensures Digits(Decimal(n)) && Reading(Decimal(n)) == n
    ensures Decimal(n)[0] == '0' ==> Decimal(n) == "0"
  {
    var d := ['0' + (n % 10) as char];
    if n >= 10 {
      DecimalReads(n / 10);
      assert Decimal(n)[..|Decimal(n)| - 1] == Decimal(n / 10);
      assert Reading("0") == 0;
    } else {
      assert d[..0] == [];
    }
  }

  function Power(k: nat): nat { if k == 0 then 1 else 10 * Power(k - 1) }

  lemma {:induction false} DecimalLength(n: nat, k: nat)
    requires n < Power(k) && k > 0
    ensures |Decimal(n)| <= k
  {
    if n >= 10 {
      DecimalLength(n / 10, k - 1);
    }
  }

  /** A process id or a message number is a 32-bit int, at most ten digits. */
  lemma TenDigits(n: nat)
    requires n < 0x8000_0000
    ensures |Decimal(n)| <= 10
  {
    assert Power(4) == 10000 && Power(8) == 10000 * Power(4) && Power(10) == 100 * Power(8);
    DecimalLength(n, 10);
  }

  /** What the reader should see of message i: the fixed words around the two numbers, i first and
      the process id second, whole for every pair of non-negative ints and otherwise cut at 255. */
  lemma TextIsFramed(i: nat, pid: nat) returns (num: string, id: string)
    ensures Sent(i, pid).number == i
    ensures Digits(num) && Reading(num) == i && (num[0] == '0' ==> num == "0")
    ensures Digits(id) && Reading(id) == pid && (id[0] == '0' ==> id == "0")
    ensures var frame := "Hello #" + num + " from producer (PID " + id + ")";
            && Sent(i, pid).text == (if |frame| <= 255 then frame else frame[..255])
            && (i < 0x8000_0000 && pid < 0x8000_0000 ==> Sent(i, pid).text == frame)
  {
    num, id := Decimal(i), Decimal(pid);
    DecimalReads(i);
    DecimalReads(pid);
    if i < 0x8000_0000 && pid < 0x8000_0000 {
      TenDigits(i);
      TenDigits(pid);
    }
  }

  // ---- The buffer in place ----

  /** The characters before the first NUL. */
  function CString(s: seq<char>): string {
    if s == [] || s[0] == NUL then [] else [s[0]] + CString(s[1..])
  }

  lemma {:induction false} CStringIs(s: seq<char>, k: nat)
    requires k < |s| && s[k] == NUL && NUL !in s[..k]
    ensures CString(s) == s[..k]
  {
    if k > 0 {
      assert s[0] == s[..k][0];
      assert s[1..][..k - 1] == s[..k][1..];
      CStringIs(s[1..], k - 1);
    }
  }

  class SharedBuf {
    const data: array<char>
    var number: int

    constructor ()
      ensures fresh(data) && data.Length == BUF_SIZE
    {
      data := new char[BUF_SIZE](_ => NUL);
      number := 0;
    }

    /** `msg_number = i` and the `snprintf` into `data`. */
    method Store(i: int, text: string)
      requires data.Length == BUF_SIZE && NUL !in text
      modifies this, data
      ensures number == i && CString(data[..]) == if |text| <= 255 then text else text[..255]
      ensures forall k :: |text| < k < 256 ==> data[k] == old(data[k])
    {
      number := i;
      var k := 0;
      while k < |text| && k < BUF_SIZE - 1
        invariant 0 <= k <= |Clip(text)| && number == i
        invariant data[..k] == text[..k]
        invariant forall j :: k <= j < BUF_SIZE ==> data[j] == old(data[j])
      {
        data[k] := text[k];
        k := k + 1;
      }
      data[k] := NUL;
      assert data[..k] == Clip(text);
      CStringIs(data[..], k);
    }

    /** What the child's `printf` takes from the buffer. */
    method Load() returns (m: Message)
      requires NUL in data[..]
      ensures m == Message(number, CString(data[..]))
    {
      var k := 0;
      while data[k] != NUL
        invariant 0 <= k < data.Length && NUL !in data[..k] && NUL in data[k..]
        decreases data.Length - k
      {
        k := k + 1;
      }
      CStringIs(data[..], k);
      m := Message(number, data[..k]);
    }
  }

  // ---- The protocol ----

  datatype Pc = Wait | Number | Bytes | Post | Done

  /** `i` and `j` count messages handed over and taken; `k` and `read` are how far each side is in
      the bytes; `num` and `text` are what the child has read of the current message. */
  datatype State = State(n: nat, pid: nat, data: seq<char>, number: int, semW: int, semR: int,
                         ppc: Pc, i: nat, k: nat,
                         cpc: Pc, num: int, text: string, seen: seq<Message>)

  datatype Label = Producer | Consumer

  predicate Enabled(s: State, l: Label) {
    match l
    case Producer => s.ppc != Done && (s.ppc == Wait ==> s.semW > 0)
    case Consumer =>
      && s.cpc != Done && (s.cpc == Wait ==> s.semR > 0)
      && (s.cpc == Bytes ==> |s.text| < |s.data|)
  }

  function LoopHead(i: nat, n: nat): Pc { if i < n then Wait else Done }

  function Store(data: seq<char>, k: nat, c: char): seq<char> { if k < |data| then data[k := c] else data }

  function Apply(s: State, l: Label): State
    requires Enabled(s, l)
  {
    if l.Producer? then
      match s.ppc
      case Wait => s.(semW := s.semW - 1, ppc := Number)
      case Number => s.(number := s.i, k := 0, ppc := Bytes)
      case Bytes =>
        var t := Sent(s.i, s.pid).text;
        if s.k < |t| then s.(data := Store(s.data, s.k, t[s.k]), k := s.k + 1)
        else s.(data := Store(s.data, s.k, NUL), ppc := Post)
      case Post => s.(semR := s.semR + 1, i := s.i + 1, ppc := LoopHead(s.i + 1, s.n))
    else
      match s.cpc
      case Wait => s.(semR := s.semR - 1, cpc := Number)
      case Number => s.(num := s.number, text := [], cpc := Bytes)
      case Bytes =>
        var c := s.data[|s.text|];
        if c == NUL then s.(cpc := Post) else s.(text := s.text + [c])
      case Post =>
        s.(semW := s.semW + 1, seen := s.seen + [Message(s.num, s.text)], cpc := LoopHead(|s.seen| + 1, s.n))
  }

  function Next(s: State, l: Label): Option<State> {
    if Enabled(s, l) then Some(Apply(s, l)) else None
  }

  /** Fresh semaphores and whatever bytes the shared memory happens to hold. */
  predicate Init(s: State) {
    && |s.data| == BUF_SIZE && s.semW == 1 && s.semR == 0
    && s.ppc == LoopHead(0, s.n) && s.i == 0 && s.cpc == LoopHead(0, s.n) && s.seen == []
  }

  function Busy(pc: Pc): int { if pc == Wait || pc == Done then 0 else 1 }

  /** One of: the slot is free, a message lies ready, one side is at work on it. */
  predicate TurnInv(s: State) {
    && s.semW >= 0 && s.semR >= 0
    && s.semW + s.semR + Busy(s.ppc) + Busy(s.cpc) == 1
    && s.i - |s.seen| == s.semR + Busy(s.cpc)
    && s.i <= s.n && (s.ppc == Done <==> s.i == s.n)
    && |s.seen| <= s.n && (s.cpc == Done <==> |s.seen| == s.n)
  }

  /** The buffer holds the first k bytes of message i, or all of it. */
  predicate Written(s: State, i: nat, k: nat) {
    var t := Sent(i, s.pid).text;
    s.number == i && k <= |t| && k <= |s.data| && s.data[..k] == t[..k]
  }

  predicate Complete(s: State, i: nat)
    requires |s.data| == BUF_SIZE
  {
    var t := Sent(i, s.pid).text;
    Written(s, i, |t|) && s.data[|t|] == NUL
  }

  predicate BufferInv(s: State) {
    && |s.data| == BUF_SIZE
    && (s.ppc == Bytes ==> Written(s, s.i, s.k))
    && (s.ppc == Post ==> Complete(s, s.i))
    && (s.semR + Busy(s.cpc) == 1 ==> Complete(s, |s.seen|))
    && (s.cpc == Bytes || s.cpc == Post ==>
          var t := Sent(|s.seen|, s.pid).text;
          && s.num == |s.seen| && |s.text| <= |t| && s.text == t[..|s.text|]
          && (s.cpc == Post ==> s.text == t))
  }

  predicate SeenInv(s: State) {
    forall j :: 0 <= j < |s.seen| ==> s.seen[j] == Sent(j, s.pid)
  }

  predicate Inv(s: State) { TurnInv(s) && BufferInv(s) && SeenInv(s) }

  lemma StepTurn(s: State, l: Label)
    requires TurnInv(s) && Enabled(s, l)
    ensures TurnInv(Apply(s, l))
  {
  }

  lemma StepProducer(s: State)
    requires Inv(s) && Enabled(s, Producer)
    ensures BufferInv(Apply(s, Producer))
  {
    SentHasNoNul(s.i, s.pid);
    if s.ppc == Bytes {
      var t, s' := Sent(s.i, s.pid).text, Apply(s, Producer);
      assert s.k < |t| ==> s'.data[..s.k + 1] == s.data[..s.k] + [t[s.k]] == t[..s.k + 1];
      assert s'.data[..s.k] == s.data[..s.k];
    }
  }

  /** The reader takes the next character of the message, or its NUL, from the complete buffer. */
  lemma ReadNext(s: State)
    requires BufferInv(s) && s.cpc == Bytes && TurnInv(s)
    ensures var t := Sent(|s.seen|, s.pid).text;
            && |t| < |s.data| && |s.text| <= |t| && NUL !in t
            && s.data[|s.text|] == if |s.text| < |t| then t[|s.text|] else NUL
  {
    var t := Sent(|s.seen|, s.pid).text;
    SentHasNoNul(|s.seen|, s.pid);
    assert |s.text| < |t| ==> s.data[|s.text|] == s.data[..|t|][|s.text|] == t[|s.text|];
  }

  lemma StepReads(s: State)
    requires BufferInv(s) && TurnInv(s) && s.cpc == Bytes && Enabled(s, Consumer)
    ensures BufferInv(Apply(s, Consumer))
  {
    ReadNext(s);
  }

  lemma StepConsumer(s: State)
    requires BufferInv(s) && TurnInv(s) && Enabled(s, Consumer)
    ensures BufferInv(Apply(s, Consumer))
  {
    if s.cpc == Bytes {
      StepReads(s);
    }
  }

  lemma StepSeen(s: State, l: Label)
    requires Inv(s) && Enabled(s, l)
    ensures SeenInv(Apply(s, l))
  {
  }

  lemma StepHolds(s: State, l: Label)
    requires Inv(s) && Enabled(s, l)
    ensures Inv(Apply(s, l)) && Apply(s, l).n == s.n && Apply(s, l).pid == s.pid
  {
    StepTurn(s, l);
    StepSeen(s, l);
    if l.Producer? {
      StepProducer(s);
    } else {
      StepConsumer(s);
    }
  }

  lemma InitHolds(s: State)
    requires Init(s)
    ensures Inv(s)
  {
  }

  lemma Reached(s0: State, sched: seq<Label>) returns (s: State)
    requires Init(s0) && Runs(Next, s0, sched)
    ensures s == After(Next, s0, sched) && Inv(s) && s.n == s0.n && s.pid == s0.pid
  {
    InitHolds(s0);
    var inv := (a: State) => Inv(a) && a.n == s0.n && a.pid == s0.pid;
    forall a: State, l: Label | inv(a) && Next(a, l).Some? ensures inv(Next(a, l).value) {
      StepHolds(a, l);
    }
    Invariance(Next, inv, s0, sched);
    s := After(Next, s0, sched);
  }

  /** The j-th message read is the j-th message written, number and text together, whatever was in
      the buffer before; and the two semaphores and the work in progress always total one. */
  lemma Handoff(s0: State, sched: seq<Label>)
    requires Init(s0) && Runs(Next, s0, sched)
    ensures var s := After(Next, s0, sched);
            && s.semW >= 0 && s.semR >= 0 && s.semW + s.semR + Busy(s.ppc) + Busy(s.cpc) == 1
            && |s.seen| <= s.i <= |s.seen| + 1
            && forall j :: 0 <= j < |s.seen| ==> s.seen[j] == Sent(j, s0.pid) && s.seen[j].number == j
  {
    var s := Reached(s0, sched);
  }

  /** The byte-by-byte steps leave in the buffer what the in-place store leaves, and give the reader
      what the in-place load gives. */
  lemma StepsStoreAndLoad(s0: State, sched: seq<Label>)
    requires Init(s0) && Runs(Next, s0, sched)
    ensures var s := After(Next, s0, sched);
            && (s.ppc == Post ==> s.number == s.i && CString(s.data) == Clip(Line(s.i, s.pid)))
            && (s.cpc == Post ==> Message(s.num, s.text) == Message(s.number, CString(s.data)))
  {
    var s := Reached(s0, sched);
    if s.ppc == Post {
      CompleteReads(s, s.i);
    }
    if s.cpc == Post {
      CompleteReads(s, |s.seen|);
    }
  }

  lemma CompleteReads(s: State, i: nat)
    requires |s.data| == BUF_SIZE && Complete(s, i)
    ensures CString(s.data) == Sent(i, s.pid).text
  {
    SentHasNoNul(i, s.pid);
    CStringIs(s.data, |Sent(i, s.pid).text|);
  }

  /** Neither process is stuck before both are done, and then all n messages have been read. */
  lemma NoDeadlock(s0: State, sched: seq<Label>)
    requires Init(s0) && Runs(Next, s0, sched)
    ensures var s := After(Next, s0, sched);
            && ((!Enabled(s, Producer) && !Enabled(s, Consumer)) <==> (s.ppc == Done && s.cpc == Done))
            && (s.ppc == Done && s.cpc == Done ==> |s.seen| == s0.n)
  {
    var s := Reached(s0, sched);
    SentHasNoNul(|s.seen|, s.pid);
  }

  // ---- Termination ----

  /** At most 255 characters and a NUL, the number, and the two semaphore calls. */
  const MAX_STEPS := 259

  /** How far a side is in its current message. */
  function Position(pc: Pc, k: nat): int {
    match pc
    case Wait => 0
    case Number => 1
    case Bytes => 2 + k
    case Post => MAX_STEPS - 1
    case Done => 0
  }

  function Left(s: State): int {
    MAX_STEPS * (2 * s.n - s.i - |s.seen|) - Position(s.ppc, s.k) - Position(s.cpc, |s.text|)
  }

  function NoGrant(l: Label): int { 0 }

  lemma LeftStep(s: State, l: Label)
    requires Inv(s) && Enabled(s, l)
    ensures Left(Apply(s, l)) + 1 <= Left(s)
  {
    SentHasNoNul(s.i, s.pid);
    SentHasNoNul(|s.seen|, s.pid);
  }

  lemma LeftUsedUp()
    ensures Preserved(Next, Inv) && UsesUp(Next, Inv, Left, NoGrant)
  {
    forall a: State, l: Label | Inv(a) && Next(a, l).Some?
      ensures Inv(Next(a, l).value) && Left(Next(a, l).value) + 1 <= Left(a) + NoGrant(l)
    {
      StepHolds(a, l);
      LeftStep(a, l);
    }
  }

  /** No run is longer than 518 steps per message. */
  lemma Terminates(s0: State, sched: seq<Label>)
    requires Init(s0) && Runs(Next, s0, sched)
    ensures |sched| <= 518 * s0.n
  {
    InitHolds(s0);
    LeftUsedUp();
    LengthBound(Next, Inv, Left, NoGrant, s0, sched);
    SumZero(sched, NoGrant);
    LeftAtStart(s0);
    LeftAtEnd(s0, sched);
  }

  lemma LeftAtStart(s0: State)
    requires Init(s0)
    ensures Left(s0) == 2 * MAX_STEPS * s0.n
  {
  }

  lemma LeftAtEnd(s0: State, sched: seq<Label>)
    requires Init(s0) && Runs(Next, s0, sched)
    ensures Left(After(Next, s0, sched)) >= 0
  {
    var s := Reached(s0, sched);
    SentHasNoNul(s.i, s.pid);
    SentHasNoNul(|s.seen|, s.pid);
  }
}
