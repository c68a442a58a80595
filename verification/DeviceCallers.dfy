/** Any number of callers inside 10_device_driver/chardev.c at once, byte by byte: the device lock,
    user copies that may fault part way, the left shift and the clear as separate steps. Every run
    is equivalent to the atomic device serving the calls one at a time. */
module DeviceCallers {
  import opened CharDevice
  import opened StepSystem
  import opened Sums

  datatype Pc =
    | Idle
    | Enter    // in the call, lock not yet requested
    | Lock     // `mutex_lock`
    | Look     // the emptiness or space test
    | Copy     // one byte of `copy_to_user` or `copy_from_user`
    | Shift    // one byte of `memmove`
    | Commit   // the update of `buf_len` or `echo`, or GSIZE's load
    | Clear    // one byte of `memset`
    | Unlock   // `mutex_unlock`
    | Exit     // lock released, about to return (GSIZE copies its result out here)

  /** `n` is the length agreed on, `k` the byte reached, `out` the bytes copied to the user. `start`
      is the length of the log when the call began and `at` the place of its own entry. */
  datatype Caller = Caller(pc: Pc, op: Op, ok: bool, n: nat, k: nat, out: seq<Byte>, res: Result,
                           start: nat, at: nat)

  /** A call that has returned, with the length of the log when it did. */
  datatype Call = Call(caller: nat, op: Op, ok: bool, res: Result, start: nat, at: nat, end: nat)

  datatype State = State(buf: seq<Byte>, len: nat, echo: int, owner: Option<nat>,
                         callers: seq<Caller>, log: seq<Entry>, calls: seq<Call>)

  /** `ok` foretells whether the call's user copy succeeds; a copy that does not may fault at any
      byte. */
  datatype Label = Start(t: nat, op: Op, ok: bool) | Act(t: nat) | FaultNow(t: nat)

  function Fetch(buf: seq<Byte>, i: int): Byte { if 0 <= i < |buf| then buf[i] else 0 }
  function Put(buf: seq<Byte>, i: int, b: Byte): seq<Byte> { if 0 <= i < |buf| then buf[i := b] else buf }

  predicate Inside(pc: Pc) {
    pc == Look || pc == Copy || pc == Shift || pc == Commit || pc == Clear || pc == Unlock
  }

  predicate Enabled(s: State, l: Label) {
    && l.t < |s.callers|
    && var c := s.callers[l.t];
       match l
       case Start(_, _, _) => c.pc == Idle
       case FaultNow(_) => c.pc == Copy && !c.ok
       case Act(_) => c.pc != Idle && (c.pc == Lock ==> s.owner == None)
  }

  /** The result, if this step is the one that decides it. */
  function Verdict(len: nat, c: Caller, fault: bool): Option<Result> {
    match c.pc
    case Enter =>
      if c.op.OtherIoctl? then Some(NotTty) else if c.op.SetEcho? && !c.ok then Some(Fault) else None
    case Look =>
      if c.op.Read? && len == 0 then Some(Returned([]))
      else if c.op.Write? && len >= BUF_SIZE then Some(NoSpace) else None
    case Copy => if fault || (c.k >= c.n && !c.ok) then Some(Fault) else None
    case Commit => Some(Outcome(len, c))
    case _ => None
  }

  function Outcome(len: nat, c: Caller): Result {
    match c.op
    case Read(_) => Returned(c.out)
    case Write(_) => Accepted(c.n)
    case GetSize => if c.ok then Size(len) else Fault
    case _ => Zero
  }

  function NextPc(len: nat, c: Caller, decided: bool): Pc {
    match c.pc
    case Idle => Idle
    case Enter => if decided then Exit else Lock
    case Lock => Look
    case Look => if decided then Unlock else if c.op.Read? || c.op.Write? then Copy else Commit
    case Copy => if decided then Unlock else if c.k < c.n then Copy else if c.op.Read? then Shift else Commit
    case Shift => if c.k + c.n < len then Shift else Commit
    case Commit => if c.op.Reset? then Clear else Unlock
    case Clear => if c.k < BUF_SIZE then Clear else Unlock
    case Unlock => Exit
    case Exit => Idle
  }

  function Agreed(len: nat, op: Op): nat {
    match op
    case Read(count) => Min(count, len)
    case Write(bytes) => if len < BUF_SIZE then Min(|bytes|, BUF_SIZE - len) else 0
    case _ => 0
  }

  /** The caller's own variables after its step. */
  function NewLocals(buf: seq<Byte>, len: nat, c: Caller): Caller {
    match c.pc
    case Look => c.(n := Agreed(len, c.op), k := 0, out := [])
    case Copy =>
      if c.k >= c.n then c.(k := 0)
      else if c.op.Read? then c.(k := c.k + 1, out := c.out + [Fetch(buf, c.k)])
      else c.(k := c.k + 1)
    case Shift => c.(k := c.k + 1)
    case Commit => c.(k := 0)
    case Clear => c.(k := c.k + 1)
    case _ => c
  }

  function NewBuf(buf: seq<Byte>, len: nat, c: Caller, decided: bool): seq<Byte> {
    match c.pc
    case Copy =>
      if !decided && c.op.Write? && c.k < c.n && c.k < |c.op.bytes| then Put(buf, len + c.k, c.op.bytes[c.k]) else buf
    case Shift => if c.k + c.n < len then Put(buf, c.k, Fetch(buf, c.k + c.n)) else buf
    case Clear => if c.k < BUF_SIZE then Put(buf, c.k, 0) else buf
    case _ => buf
  }

  function NewLen(len: nat, c: Caller): nat {
    if c.pc != Commit then len else
      match c.op
      case Read(_) => if c.n <= len then len - c.n else 0
      case Write(_) => len + c.n
      case Reset => 0
      case _ => len
  }

  function NewEcho(echo: int, c: Caller): int { if c.pc == Commit && c.op.SetEcho? then c.op.val else echo }

  function NewOwner(owner: Option<nat>, t: nat, c: Caller): Option<nat> {
    if c.pc == Lock then Some(t) else if c.pc == Unlock then None else owner
  }

  function NewCaller(buf: seq<Byte>, len: nat, logged: nat, c: Caller, v: Option<Result>): Caller {
    var c' := NewLocals(buf, len, c).(pc := NextPc(len, c, v.Some?));
    if v.Some? then c'.(res := v.value, at := logged) else c'
  }

  function Apply(s: State, l: Label): State
    requires Enabled(s, l)
  {
    var t, c := l.t, s.callers[l.t];
    if l.Start? then
      s.(callers := s.callers[t := Caller(Enter, l.op, l.ok, 0, 0, [], Zero, |s.log|, 0)])
    else
      var v := Verdict(s.len, c, l.FaultNow?);
      State(NewBuf(s.buf, s.len, c, v.Some?), NewLen(s.len, c), NewEcho(s.echo, c), NewOwner(s.owner, t, c),
            s.callers[t := NewCaller(s.buf, s.len, |s.log|, c, v)],
            if v.Some? then s.log + [Entry(t, c.op, c.ok, v.value)] else s.log,
            if c.pc == Exit then s.calls + [Call(t, c.op, c.ok, c.res, c.start, c.at, |s.log|)] else s.calls)
  }

  function Next(s: State, l: Label): Option<State> {
    if Enabled(s, l) then Some(Apply(s, l)) else None
  }

  predicate Init(s: State) {
    && |s.buf| == BUF_SIZE && s.len == 0 && s.echo == 1 && s.owner == None && s.log == [] && s.calls == []
    && forall t :: 0 <= t < |s.callers| ==> s.callers[t].pc == Idle
  }

  // ---- Mutual exclusion ----

  predicate LockInv(s: State) {
    && (s.owner.Some? ==> s.owner.value < |s.callers|)
    && forall t :: 0 <= t < |s.callers| ==> (Inside(s.callers[t].pc) <==> s.owner == Some(t))
  }

  function Holder(s: State): Option<Caller> {
    if s.owner.Some? && s.owner.value < |s.callers| then Some(s.callers[s.owner.value]) else None
  }

  lemma StepLock(s: State, l: Label)
    requires LockInv(s) && Enabled(s, l)
    ensures LockInv(Apply(s, l))
  {
  }

  // ---- The array holds the atomic device's queue ----

  /** The left shift is under way: the live bytes are being rearranged. */
  predicate Shifting(c: Caller) { c.op.Read? && (c.pc == Shift || c.pc == Commit) }

  /** The first k bytes are zero. */
  predicate Zeroed(buf: seq<Byte>, k: nat)
    requires k <= |buf|
  {
    forall i :: 0 <= i < k ==> buf[i] == 0
  }

  /** What the holder's place in its call says of the array, for the queue q it started from. */
  predicate HolderInv(buf: seq<Byte>, len: nat, q: seq<Byte>, c: Caller)
    requires len == |q| <= |buf| == BUF_SIZE
  {
    && (Inside(c.pc) ==> !c.op.OtherIoctl? && (c.op.SetEcho? ==> c.ok))
    && (c.pc == Copy ==> c.op.Read? || c.op.Write?)
    && (c.pc == Shift ==> c.op.Read?)
    && (c.pc == Clear ==> c.op.Reset? && len == 0 && c.k <= BUF_SIZE && Zeroed(buf, c.k))
    && (c.pc == Unlock && c.op.Reset? ==> len == 0 && Zeroed(buf, BUF_SIZE))
    && (c.op.Read? && (c.pc == Copy || Shifting(c)) ==>
          && len > 0 && c.n == Min(c.op.count, len)
          && (c.pc == Copy ==> c.k <= c.n && c.out == q[..c.k])
          && (Shifting(c) ==> c.ok && c.out == q[..c.n]))
    && (c.op.Read? && c.pc == Shift ==>
          && c.k + c.n <= len
          && buf[..c.k] == q[c.n..c.n + c.k] && buf[c.k..len] == q[c.k..])
    && (c.op.Read? && c.pc == Commit ==> buf[..len - c.n] == q[c.n..])
    && (c.op.Write? && (c.pc == Copy || c.pc == Commit) ==>
          && len < BUF_SIZE && c.n == Min(|c.op.bytes|, BUF_SIZE - len)
          && (c.pc == Copy ==> c.k <= c.n && buf[len..len + c.k] == c.op.bytes[..c.k])
          && (c.pc == Commit ==> c.ok && buf[len..len + c.n] == c.op.bytes[..c.n]))
  }

  predicate DataInv(buf: seq<Byte>, len: nat, echo: int, d: Device, h: Option<Caller>) {
    && |buf| == BUF_SIZE && len == |d.queue| <= BUF_SIZE && echo == d.echo
    && ((h.Some? && Shifting(h.value)) || buf[..len] == d.queue)
    && (h.Some? ==> HolderInv(buf, len, d.queue, h.value))
  }

  /** The holder's step keeps the array in step with the atomic device, and the result it decides
      is the atomic device's. */
  predicate GoodStep(buf: seq<Byte>, len: nat, echo: int, d: Device, c: Caller, logged: nat, fault: bool) {
    var v := Verdict(len, c, fault);
    var c' := NewCaller(buf, len, logged, c, v);
    var (d', r) := Serve(d, c.op, c.ok);
    && (v.Some? ==> v.value == r)
    && DataInv(NewBuf(buf, len, c, v.Some?), NewLen(len, c), NewEcho(echo, c), if v.Some? then d' else d,
               if Inside(c'.pc) then Some(c') else None)
  }

  lemma LookStep(buf: seq<Byte>, len: nat, echo: int, d: Device, c: Caller, logged: nat)
    requires DataInv(buf, len, echo, d, Some(c)) && c.pc == Look
    ensures GoodStep(buf, len, echo, d, c, logged, false)
  {
  }

  lemma FaultStep(buf: seq<Byte>, len: nat, echo: int, d: Device, c: Caller, logged: nat, fault: bool)
    requires DataInv(buf, len, echo, d, Some(c)) && c.pc == Copy && !c.ok && (fault || c.k >= c.n)
    ensures GoodStep(buf, len, echo, d, c, logged, fault)
  {
  }

  lemma CopyOutStep(buf: seq<Byte>, len: nat, echo: int, d: Device, c: Caller, logged: nat)
    requires DataInv(buf, len, echo, d, Some(c)) && c.pc == Copy && c.op.Read? && (c.k < c.n || c.ok)
    ensures GoodStep(buf, len, echo, d, c, logged, false)
  {
    assert forall i :: 0 <= i < len ==> buf[i] == buf[..len][i];
    if c.k < c.n {
      assert d.queue[..c.k + 1] == d.queue[..c.k] + [d.queue[c.k]];
    }
  }

  lemma CopyByte(buf: seq<Byte>, len: nat, bytes: seq<Byte>, k: nat)
    requires len + k < |buf| && k < |bytes| && buf[len..len + k] == bytes[..k]
    ensures var buf' := buf[len + k := bytes[k]];
            buf'[..len] == buf[..len] && buf'[len..len + k + 1] == bytes[..k + 1]
  {
    var buf' := buf[len + k := bytes[k]];
    assert buf'[len..len + k] == buf[len..len + k];
    assert buf'[len..len + k + 1] == buf'[len..len + k] + [bytes[k]];
    assert bytes[..k + 1] == bytes[..k] + [bytes[k]];
  }

  lemma CopyInStep(buf: seq<Byte>, len: nat, echo: int, d: Device, c: Caller, logged: nat)
    requires DataInv(buf, len, echo, d, Some(c)) && c.pc == Copy && c.op.Write? && (c.k < c.n || c.ok)
    ensures GoodStep(buf, len, echo, d, c, logged, false)
  {
    if c.k < c.n {
      CopyByte(buf, len, c.op.bytes, c.k);
    }
  }

  lemma ShiftByte(buf: seq<Byte>, q: seq<Byte>, n: nat, k: nat)
    requires |q| <= |buf| && k + n < |q|
    requires buf[..k] == q[n..n + k] && buf[k..|q|] == q[k..]
    ensures var buf' := buf[k := buf[k + n]];
            buf'[..k + 1] == q[n..n + k + 1] && buf'[k + 1..|q|] == q[k + 1..]
  {
    var buf' := buf[k := buf[k + n]];
    assert buf[k + n] == buf[k..|q|][n] == q[k..][n] == q[k + n];
    assert buf'[..k + 1] == buf[..k] + [q[k + n]];
    assert buf'[k + 1..|q|] == buf[k..|q|][1..];
  }

  lemma ShiftMore(buf: seq<Byte>, len: nat, echo: int, d: Device, c: Caller, logged: nat)
    requires DataInv(buf, len, echo, d, Some(c)) && c.pc == Shift && c.k + c.n < len
    ensures GoodStep(buf, len, echo, d, c, logged, false)
  {
    ShiftByte(buf, d.queue, c.n, c.k);
    assert NewCaller(buf, len, logged, c, Verdict(len, c, false)) == c.(k := c.k + 1);
    assert NewBuf(buf, len, c, false) == buf[c.k := buf[c.k + c.n]];
  }

  lemma ShiftDone(buf: seq<Byte>, len: nat, echo: int, d: Device, c: Caller, logged: nat)
    requires DataInv(buf, len, echo, d, Some(c)) && c.pc == Shift && c.k + c.n >= len
    ensures GoodStep(buf, len, echo, d, c, logged, false)
  {
    assert buf[..len - c.n] == d.queue[c.n..];
  }

  lemma CommitStep(buf: seq<Byte>, len: nat, echo: int, d: Device, c: Caller, logged: nat)
    requires DataInv(buf, len, echo, d, Some(c)) && c.pc == Commit
    ensures GoodStep(buf, len, echo, d, c, logged, false)
  {
    if c.op.Write? {
      assert buf[..len + c.n] == buf[..len] + buf[len..len + c.n];
    }
  }

  lemma EndStep(buf: seq<Byte>, len: nat, echo: int, d: Device, c: Caller, logged: nat)
    requires DataInv(buf, len, echo, d, Some(c)) && (c.pc == Clear || c.pc == Unlock)
    ensures GoodStep(buf, len, echo, d, c, logged, false)
  {
  }

  lemma HolderStep(buf: seq<Byte>, len: nat, echo: int, d: Device, c: Caller, logged: nat, fault: bool)
    requires DataInv(buf, len, echo, d, Some(c)) && Inside(c.pc) && (fault ==> c.pc == Copy && !c.ok)
    ensures GoodStep(buf, len, echo, d, c, logged, fault)
  {
    match c.pc
    case Look => LookStep(buf, len, echo, d, c, logged);
    case Copy =>
      if fault || (c.k >= c.n && !c.ok) {
        FaultStep(buf, len, echo, d, c, logged, fault);
      } else if c.op.Read? {
        CopyOutStep(buf, len, echo, d, c, logged);
      } else {
        CopyInStep(buf, len, echo, d, c, logged);
      }
    case Shift =>
      if c.k + c.n < len {
        ShiftMore(buf, len, echo, d, c, logged);
      } else {
        ShiftDone(buf, len, echo, d, c, logged);
      }
    case Commit => CommitStep(buf, len, echo, d, c, logged);
    case Clear => EndStep(buf, len, echo, d, c, logged);
    case Unlock => EndStep(buf, len, echo, d, c, logged);
  }

  /** Outside the lock a call decides only results that leave the device alone, and a caller that
      takes the lock finds the array settled. */
  lemma OutsideStep(buf: seq<Byte>, len: nat, echo: int, d: Device, c: Caller, logged: nat)
    requires DataInv(buf, len, echo, d, None) && c.pc == Lock
    requires !c.op.OtherIoctl? && (c.op.SetEcho? ==> c.ok)
    ensures GoodStep(buf, len, echo, d, c, logged, false)
  {
  }

  /** Calls that need no lock never ask for it. */
  predicate LockBound(c: Caller) {
    c.pc == Lock || Inside(c.pc) ==> !c.op.OtherIoctl? && (c.op.SetEcho? ==> c.ok)
  }

  lemma ReplayAppend(log: seq<Entry>, e: Entry)
    ensures Replay(log + [e]) == Serve(Replay(log), e.op, e.ok).0
    ensures Legal(log) && e.res == Serve(Replay(log), e.op, e.ok).1 ==> Legal(log + [e])
  {
    var log' := log + [e];
    assert log'[..|log|] == log;
    if Legal(log) && e.res == Serve(Replay(log), e.op, e.ok).1 {
      forall k | 0 <= k < |log'| ensures log'[k].res == Serve(Replay(log'[..k]), log'[k].op, log'[k].ok).1 {
        assert k < |log| ==> log'[..k] == log[..k];
      }
    }
  }

  lemma HolderAfter(s: State, l: Label)
    requires LockInv(s) && Enabled(s, l)
    ensures var c, c' := s.callers[l.t], Apply(s, l).callers[l.t];
            if Inside(c.pc) then
              Holder(s) == Some(c) && Holder(Apply(s, l)) == if Inside(c'.pc) then Some(c') else None
            else if c.pc == Lock then Holder(s) == None && Holder(Apply(s, l)) == Some(c') && Inside(c'.pc)
            else Holder(Apply(s, l)) == Holder(s) && !Inside(c'.pc)
  {
  }

  /** The array follows the atomic device, and the log stays legal. */
  predicate Follows(s: State) {
    DataInv(s.buf, s.len, s.echo, Replay(s.log), Holder(s)) && Legal(s.log)
  }

  /** What a step appends to the log, and where that takes the atomic device. */
  lemma LogStep(s: State, l: Label)
    requires Enabled(s, l) && !l.Start? && Legal(s.log)
    ensures var c, d := s.callers[l.t], Replay(s.log);
            var v := Verdict(s.len, c, l.FaultNow?);
            && Replay(Apply(s, l).log) == (if v.Some? then Serve(d, c.op, c.ok).0 else d)
            && ((v.Some? ==> v.value == Serve(d, c.op, c.ok).1) ==> Legal(Apply(s, l).log))
  {
    var c := s.callers[l.t];
    var v := Verdict(s.len, c, l.FaultNow?);
    if v.Some? {
      ReplayAppend(s.log, Entry(l.t, c.op, c.ok, v.value));
    }
  }

  lemma StepInside(s: State, l: Label)
    requires LockInv(s) && Follows(s) && Enabled(s, l) && Inside(s.callers[l.t].pc)
    ensures Follows(Apply(s, l))
  {
    HolderAfter(s, l);
    LogStep(s, l);
    HolderStep(s.buf, s.len, s.echo, Replay(s.log), s.callers[l.t], |s.log|, l.FaultNow?);
  }

  lemma StepTakeLock(s: State, l: Label)
    requires LockInv(s) && Follows(s) && Enabled(s, l) && s.callers[l.t].pc == Lock
    requires LockBound(s.callers[l.t])
    ensures Follows(Apply(s, l))
  {
    HolderAfter(s, l);
    LogStep(s, l);
    OutsideStep(s.buf, s.len, s.echo, Replay(s.log), s.callers[l.t], |s.log|);
  }

  /** A result decided before the lock is one that leaves the device alone. */
  lemma EarlyVerdict(d: Device, c: Caller)
    requires c.pc == Enter || c.pc == Exit
    ensures var v := Verdict(|d.queue|, c, false);
            v.Some? ==> Serve(d, c.op, c.ok) == (d, v.value)
  {
  }

  lemma LogElsewhere(s: State, l: Label)
    requires Follows(s) && Enabled(s, l)
    requires !Inside(s.callers[l.t].pc) && s.callers[l.t].pc != Lock
    ensures Replay(Apply(s, l).log) == Replay(s.log) && Legal(Apply(s, l).log)
  {
    if !l.Start? {
      LogStep(s, l);
      EarlyVerdict(Replay(s.log), s.callers[l.t]);
    }
  }

  lemma StepElsewhere(s: State, l: Label)
    requires LockInv(s) && Follows(s) && Enabled(s, l)
    requires !Inside(s.callers[l.t].pc) && s.callers[l.t].pc != Lock
    ensures Follows(Apply(s, l))
  {
    HolderAfter(s, l);
    LogElsewhere(s, l);
  }

  lemma StepBound(s: State, l: Label)
    requires Enabled(s, l) && forall t :: 0 <= t < |s.callers| ==> LockBound(s.callers[t])
    ensures forall t :: 0 <= t < |s.callers| ==> LockBound(Apply(s, l).callers[t])
  {
    assert LockBound(s.callers[l.t]);
  }

  // ---- Each call and its place in the log ----

  predicate Decided(pc: Pc) { pc == Clear || pc == Unlock || pc == Exit }

  /** A decided call's entry lies in the part of the log written since the call began. */
  predicate CallerInv(log: seq<Entry>, t: nat, c: Caller) {
    && (c.pc != Idle ==> c.start <= |log|)
    && (Decided(c.pc) ==> c.start <= c.at < |log| && log[c.at] == Entry(t, c.op, c.ok, c.res))
  }

  /** A returned call took effect at one place of the log between its start and its end. */
  predicate CallInv(log: seq<Entry>, c: Call) {
    c.start <= c.at < c.end <= |log| && log[c.at] == Entry(c.caller, c.op, c.ok, c.res)
  }

  predicate CallsInv(s: State) {
    && (forall t: nat | t < |s.callers| :: CallerInv(s.log, t, s.callers[t]))
    && (forall k :: 0 <= k < |s.calls| ==> CallInv(s.log, s.calls[k]))
  }

  /** One caller's calls follow each other. */
  predicate CallsInTurn(calls: seq<Call>) {
    forall j, k :: 0 <= j < k < |calls| && calls[j].caller == calls[k].caller ==> calls[j].end <= calls[k].start
  }

  /** The call caller t is in began after all those it has returned from. */
  predicate Latest(calls: seq<Call>, t: nat, c: Caller) {
    c.pc != Idle ==> forall k :: 0 <= k < |calls| && calls[k].caller == t ==> calls[k].end <= c.start
  }

  predicate InTurn(s: State) {
    CallsInTurn(s.calls) && forall t: nat | t < |s.callers| :: Latest(s.calls, t, s.callers[t])
  }

  /** What a step may add to the log. */
  lemma LogGrows(s: State, l: Label)
    requires Enabled(s, l)
    ensures var log' := Apply(s, l).log;
            && |s.log| <= |log'| && log'[..|s.log|] == s.log
            && (!l.Start? ==>
                  var c := s.callers[l.t];
                  var v := Verdict(s.len, c, l.FaultNow?);
                  v.Some? ==> |log'| == |s.log| + 1 && log'[|s.log|] == Entry(l.t, c.op, c.ok, v.value))
  {
  }

  lemma CallerGrows(log: seq<Entry>, log': seq<Entry>, t: nat, c: Caller)
    requires CallerInv(log, t, c) && |log| <= |log'| && log'[..|log|] == log
    ensures CallerInv(log', t, c)
  {
    assert Decided(c.pc) ==> log'[c.at] == log'[..|log|][c.at];
  }

  lemma CallGrows(log: seq<Entry>, log': seq<Entry>, c: Call)
    requires CallInv(log, c) && |log| <= |log'| && log'[..|log|] == log
    ensures CallInv(log', c)
  {
    assert log'[c.at] == log'[..|log|][c.at];
  }

  /** A call is decided by the step with a verdict, and by no other. */
  lemma DecidedWhen(buf: seq<Byte>, len: nat, logged: nat, c: Caller, fault: bool)
    requires fault ==> c.pc == Copy
    ensures var v := Verdict(len, c, fault);
            var c' := NewCaller(buf, len, logged, c, v);
            && c'.start == c.start && c'.op == c.op && c'.ok == c.ok
            && (v.Some? ==> c'.res == v.value && c'.at == logged)
            && (v.None? ==> c'.res == c.res && c'.at == c.at && (Decided(c'.pc) ==> Decided(c.pc)))
            && (c'.pc != Idle ==> c.pc != Idle)
  {
  }

  lemma CallerStep(s: State, l: Label)
    requires CallsInv(s) && Enabled(s, l)
    ensures CallerInv(Apply(s, l).log, l.t, Apply(s, l).callers[l.t])
  {
    LogGrows(s, l);
    assert CallerInv(s.log, l.t, s.callers[l.t]);
    if !l.Start? {
      DecidedWhen(s.buf, s.len, |s.log|, s.callers[l.t], l.FaultNow?);
      CallerGrows(s.log, Apply(s, l).log, l.t, s.callers[l.t]);
    }
  }

  lemma StepCalls(s: State, l: Label)
    requires CallsInv(s) && Enabled(s, l)
    ensures CallsInv(Apply(s, l))
  {
    var s' := Apply(s, l);
    LogGrows(s, l);
    forall t: nat | t < |s'.callers| ensures CallerInv(s'.log, t, s'.callers[t]) {
      if t == l.t {
        CallerStep(s, l);
      } else {
        CallerGrows(s.log, s'.log, t, s.callers[t]);
      }
    }
    assert CallerInv(s.log, l.t, s.callers[l.t]);
    forall k | 0 <= k < |s'.calls| ensures CallInv(s'.log, s'.calls[k]) {
      if k < |s.calls| {
        CallGrows(s.log, s'.log, s.calls[k]);
      }
    }
  }

  lemma StepLatest(s: State, l: Label, t: nat)
    requires CallsInv(s) && InTurn(s) && Enabled(s, l) && t < |s.callers|
    ensures Latest(Apply(s, l).calls, t, Apply(s, l).callers[t])
  {
    assert Latest(s.calls, t, s.callers[t]);
    assert l.Start? ==> forall k :: 0 <= k < |s.calls| ==> CallInv(s.log, s.calls[k]);
  }

  lemma StepInTurn(s: State, l: Label)
    requires CallsInv(s) && InTurn(s) && Enabled(s, l)
    ensures InTurn(Apply(s, l))
  {
    forall t: nat | t < |s.callers| ensures Latest(Apply(s, l).calls, t, Apply(s, l).callers[t]) {
      StepLatest(s, l, t);
    }
    assert Latest(s.calls, l.t, s.callers[l.t]);
  }

  function DecidedOne(c: Caller): int { if Decided(c.pc) then 1 else 0 }

  /** Every log entry belongs to one returned call or to one decided call still inside. */
  predicate Balanced(s: State) { |s.log| == |s.calls| + Sum(s.callers, DecidedOne) }

  lemma StepBalanced(s: State, l: Label)
    requires Balanced(s) && Enabled(s, l)
    ensures Balanced(Apply(s, l))
  {
    SumUpdate(s.callers, DecidedOne, l.t, Apply(s, l).callers[l.t]);
  }

  // ---- Whole runs ----

  predicate Inv(s: State) {
    && LockInv(s) && Follows(s) && CallsInv(s) && InTurn(s) && Balanced(s)
    && forall t :: 0 <= t < |s.callers| ==> LockBound(s.callers[t])
  }

  lemma StepHolds(s: State, l: Label)
    requires Inv(s) && Enabled(s, l)
    ensures Inv(Apply(s, l))
  {
    StepLock(s, l);
    if Inside(s.callers[l.t].pc) {
      StepInside(s, l);
    } else if s.callers[l.t].pc == Lock {
      StepTakeLock(s, l);
    } else {
      StepElsewhere(s, l);
    }
    StepCalls(s, l);
    StepInTurn(s, l);
    StepBalanced(s, l);
    StepBound(s, l);
  }

  lemma InitHolds(s: State)
    requires Init(s)
    ensures Inv(s)
  {
    SumZero(s.callers, DecidedOne);
  }

  lemma Reached(s0: State, sched: seq<Label>) returns (s: State)
    requires Init(s0) && Runs(Next, s0, sched)
    ensures s == After(Next, s0, sched) && Inv(s)
  {
    InitHolds(s0);
    forall a: State, l: Label | Inv(a) && Next(a, l).Some? ensures Inv(Next(a, l).value) {
      StepHolds(a, l);
    }
    Invariance(Next, Inv, s0, sched);
    s := After(Next, s0, sched);
  }

  /** Linearizability: the log is a history the atomic device could have served one call at a time;
      every returned call has its result there, between its start and its end; a call that ended
      before another began comes first; and there are no other entries than those of returned or
      decided calls. */
  lemma Linearizable(s0: State, sched: seq<Label>)
    requires Init(s0) && Runs(Next, s0, sched)
    ensures var s := After(Next, s0, sched);
            && Legal(s.log)
            && (forall k :: 0 <= k < |s.calls| ==> CallInv(s.log, s.calls[k]))
            && (forall j, k :: 0 <= j < |s.calls| && 0 <= k < |s.calls| && s.calls[j].end <= s.calls[k].start ==>
                  s.calls[j].at < s.calls[k].at)
            && (forall j, k :: 0 <= j < k < |s.calls| ==> s.calls[j].at != s.calls[k].at)
            && |s.log| == |s.calls| + Sum(s.callers, DecidedOne)
  {
    var s := Reached(s0, sched);
    forall j, k | 0 <= j < k < |s.calls| ensures s.calls[j].at != s.calls[k].at {
      assert CallInv(s.log, s.calls[j]) && CallInv(s.log, s.calls[k]);
    }
  }

  // ---- Calls against the schedule itself ----

  /** The calls caller t was told to make, those it has returned from, and the one it is in. */
  function Started(sched: seq<Label>, t: nat): seq<(Op, bool)> {
    if sched == [] then [] else StartedBy(sched[0], t) + Started(sched[1..], t)
  }

  function StartedBy(l: Label, t: nat): seq<(Op, bool)> {
    if l.Start? && l.t == t then [(l.op, l.ok)] else []
  }

  function Finished(calls: seq<Call>, t: nat): seq<(Op, bool)> {
    if calls == [] then [] else
      var c := calls[|calls| - 1];
      Finished(calls[..|calls| - 1], t) + if c.caller == t then [(c.op, c.ok)] else []
  }

  function Open(c: Caller): seq<(Op, bool)> { if c.pc == Idle then [] else [(c.op, c.ok)] }

  lemma FinishedOne(calls: seq<Call>, c: Call, t: nat)
    ensures Finished(calls + [c], t) == Finished(calls, t) + if c.caller == t then [(c.op, c.ok)] else []
  {
    assert (calls + [c])[..|calls|] == calls;
  }

  lemma OpenStep(buf: seq<Byte>, len: nat, logged: nat, c: Caller, fault: bool)
    requires c.pc != Idle && (fault ==> c.pc == Copy)
    ensures Open(NewCaller(buf, len, logged, c, Verdict(len, c, fault))) == if c.pc == Exit then [] else Open(c)
  {
    DecidedWhen(buf, len, logged, c, fault);
  }

  lemma MadeReturn(s: State, t: nat, u: nat)
    requires Enabled(s, Act(t)) && s.callers[t].pc == Exit && u < |s.callers|
    ensures var s' := Apply(s, Act(t));
            Finished(s'.calls, u) + Open(s'.callers[u]) == Finished(s.calls, u) + Open(s.callers[u])
  {
    var c := s.callers[t];
    FinishedOne(s.calls, Call(t, c.op, c.ok, c.res, c.start, c.at, |s.log|), u);
    OpenStep(s.buf, s.len, |s.log|, c, false);
  }

  lemma MadeStep(s: State, l: Label, t: nat)
    requires Enabled(s, l) && t < |s.callers|
    ensures var s' := Apply(s, l);
            Finished(s'.calls, t) + Open(s'.callers[t]) == Finished(s.calls, t) + Open(s.callers[t]) + StartedBy(l, t)
  {
    if l.Act? && s.callers[l.t].pc == Exit {
      MadeReturn(s, l.t, t);
    } else if !l.Start? {
      OpenStep(s.buf, s.len, |s.log|, s.callers[l.t], l.FaultNow?);
      assert Apply(s, l).calls == s.calls;
    }
  }

  /** The calls a caller has returned from, and the one it is in, are those the schedule started for
      it, in order, each with its own arguments. */
  lemma {:induction false} CallsMatchStarts(s: State, sched: seq<Label>, t: nat)
    requires Runs(Next, s, sched) && t < |s.callers|
    ensures var s' := After(Next, s, sched);
            && |s'.callers| == |s.callers|
            && Finished(s'.calls, t) + Open(s'.callers[t])
               == Finished(s.calls, t) + Open(s.callers[t]) + Started(sched, t)
    decreases |sched|
  {
    if sched != [] {
      MadeStep(s, sched[0], t);
      CallsMatchStarts(Apply(s, sched[0]), sched[1..], t);
    }
  }

  /** What has happened since `mid`: the calls returned by then stand, and whoever was idle then has
      begun its later calls at or after that point of the log. */
  predicate Since(mid: State, s: State) {
    && |s.callers| == |mid.callers| && |mid.log| <= |s.log|
    && |mid.calls| <= |s.calls| && s.calls[..|mid.calls|] == mid.calls
    && (forall t :: 0 <= t < |s.callers| && mid.callers[t].pc == Idle && s.callers[t].pc != Idle ==>
          |mid.log| <= s.callers[t].start)
    && (forall k :: |mid.calls| <= k < |s.calls| ==>
          var t := s.calls[k].caller;
          t < |s.callers| && (mid.callers[t].pc == Idle ==> |mid.log| <= s.calls[k].start))
  }

  lemma StepSince(mid: State, s: State, l: Label)
    requires Since(mid, s) && Enabled(s, l)
    ensures Since(mid, Apply(s, l))
  {
    if !l.Start? {
      DecidedWhen(s.buf, s.len, |s.log|, s.callers[l.t], l.FaultNow?);
    }
  }

  lemma RunSince(mid: State, after: seq<Label>) returns (s: State)
    requires Inv(mid) && Runs(Next, mid, after)
    ensures s == After(Next, mid, after) && CallsInv(s) && Since(mid, s)
  {
    var both := (a: State) => Inv(a) && Since(mid, a);
    forall a: State, l: Label | both(a) && Next(a, l).Some? ensures both(Next(a, l).value) {
      StepHolds(a, l);
      StepSince(mid, a, l);
    }
    Invariance(Next, both, mid, after);
    s := After(Next, mid, after);
  }

  /** Real-time order, told by cutting the schedule anywhere: a call returned before the cut takes
      effect before every call begun after it. */
  lemma RealTimeOrder(s0: State, before: seq<Label>, after: seq<Label>, j: nat, k: nat)
    requires Init(s0) && Runs(Next, s0, before) && Runs(Next, After(Next, s0, before), after)
    requires var mid := After(Next, s0, before);
             var s := After(Next, mid, after);
             && j < |mid.calls| <= k < |s.calls| && s.calls[k].caller < |mid.callers|
             && mid.callers[s.calls[k].caller].pc == Idle
    ensures var mid := After(Next, s0, before);
            var s := After(Next, mid, after);
            j < |s.calls| && s.calls[j] == mid.calls[j] && s.calls[j].at < |mid.log| <= s.calls[k].at
  {
    var mid := Reached(s0, before);
    var s := RunSince(mid, after);
    assert CallInv(mid.log, mid.calls[j]) && CallInv(s.log, s.calls[k]);
    assert s.calls[j] == s.calls[..|mid.calls|][j];
  }

  /** With the lock free, the array's live bytes are the atomic device's queue, and the bytes
      accepted since the last RESET are those returned since then followed by the live ones; `echo`
      is what the last successful SECHO set. */
  lemma BytesConserved(s0: State, sched: seq<Label>)
    requires Init(s0) && Runs(Next, s0, sched) && After(Next, s0, sched).owner == None
    ensures var s := After(Next, s0, sched);
            && s.len <= |s.buf| == 4096 && s.echo == LastEcho(s.log)
            && s.buf[..s.len] == Replay(s.log).queue
            && AcceptedBytes(s.log) == ReturnedBytes(s.log) + s.buf[..s.len]
  {
    var s := Reached(s0, sched);
    Conservation(s.log);
  }

  /** GSIZE reports a length the queue really had at one moment during the call. */
  lemma SizeWasTrue(s0: State, sched: seq<Label>, k: nat)
    requires Init(s0) && Runs(Next, s0, sched) && k < |After(Next, s0, sched).calls|
    requires After(Next, s0, sched).calls[k].op == GetSize && After(Next, s0, sched).calls[k].res.Size?
    ensures var s := After(Next, s0, sched);
            var c := s.calls[k];
            c.start <= c.at < c.end <= |s.log| && c.res.len == |Replay(s.log[..c.at]).queue|
  {
    var s := Reached(s0, sched);
    assert CallInv(s.log, s.calls[k]);
  }

  /** In any interleaving every returned call has a result its own arguments allow: a read never more
      bytes than it asked for, a write never more than it brought, a fault only where the user copy
      fails, and the ioctls their fixed answers. */
  lemma ResultsFitCalls(s0: State, sched: seq<Label>, k: nat)
    requires Init(s0) && Runs(Next, s0, sched) && k < |After(Next, s0, sched).calls|
    ensures var c := After(Next, s0, sched).calls[k];
            match c.op
            case Read(count) =>
              c.res == Returned([]) || (if c.ok then c.res.Returned? && |c.res.bytes| <= count else c.res == Fault)
            case Write(bytes) =>
              c.res == NoSpace || (if c.ok then c.res.Accepted? && c.res.n <= |bytes| else c.res == Fault)
            case Reset => c.res == Zero
            case GetSize => if c.ok then c.res.Size? && c.res.len <= 4096 else c.res == Fault
            case SetEcho(_) => c.res == if c.ok then Zero else Fault
            case OtherIoctl => c.res == NotTty
  {
    var s := Reached(s0, sched);
    var c := s.calls[k];
    assert CallInv(s.log, c);
    LegalUpTo(s.log, c.at);
    Conservation(s.log[..c.at]);
    AtomicCalls(Replay(s.log[..c.at]), c.op, c.ok);
  }

  /** No step of a user copy, whether it moves a byte or faults, changes a live byte or the length. */
  lemma CopiesSpareLiveBytes(s0: State, sched: seq<Label>, l: Label)
    requires Init(s0) && Runs(Next, s0, sched) && Enabled(After(Next, s0, sched), l)
    requires After(Next, s0, sched).callers[l.t].pc == Copy
    ensures var s := After(Next, s0, sched);
            var s' := Apply(s, l);
            s.len <= |s.buf| == |s'.buf| && s'.len == s.len && s'.buf[..s.len] == s.buf[..s.len]
  {
    var s := Reached(s0, sched);
    HolderAfter(s, l);
    var s' := Apply(s, l);
    assert forall i :: 0 <= i < s.len ==> s'.buf[i] == s.buf[i];
  }

  /** In every interleaving a RESET about to unlock leaves an empty device and an array of zeros. */
  lemma ResetClears(s0: State, sched: seq<Label>, t: nat)
    requires Init(s0) && Runs(Next, s0, sched) && t < |After(Next, s0, sched).callers|
    requires After(Next, s0, sched).callers[t].pc == Unlock && After(Next, s0, sched).callers[t].op == Reset
    ensures var s := After(Next, s0, sched);
            && |s.buf| == 4096 && s.len == 0 && Replay(s.log).queue == []
            && forall i :: 0 <= i < 4096 ==> s.buf[i] == 0
  {
    var s := Reached(s0, sched);
    assert Holder(s) == Some(s.callers[t]);
  }

  /** The array indices a caller's next step reads or writes, as the C statements compute them. */
  function Touches(len: nat, c: Caller): seq<int> {
    match c.pc
    case Copy =>
      if c.k >= c.n then [] else if c.op.Read? then [c.k] else [len + c.k]
    case Shift => if c.k + c.n < len then [c.k, c.k + c.n] else []
    case Clear => if c.k < BUF_SIZE then [c.k] else []
    case _ => []
  }

  /** No step of any run touches the array out of bounds, so the guards in Fetch and Put never act:
      copies stay on their side of the live bytes, a write takes only bytes it was given, the moved
      length never underflows, and the clear stops at the end of the array. */
  lemma InBounds(s0: State, sched: seq<Label>, t: nat)
    requires Init(s0) && Runs(Next, s0, sched) && t < |After(Next, s0, sched).callers|
    ensures var s := After(Next, s0, sched);
            var c := s.callers[t];
            && s.len <= |s.buf| == 4096
            && (forall i :: 0 <= i < |Touches(s.len, c)| ==> 0 <= Touches(s.len, c)[i] < |s.buf|)
            && (c.pc == Copy && c.op.Read? ==> c.k <= c.n <= s.len)
            && (c.pc == Copy && c.op.Write? ==> c.k <= c.n <= |c.op.bytes| && s.len + c.n <= 4096)
            && (c.pc == Shift ==> c.n <= s.len && c.k <= s.len - c.n)
            && (c.pc == Clear ==> c.k <= 4096)
            && (c.pc == Commit && c.op.Read? ==> c.n <= s.len)
            && (c.pc == Commit && c.op.Write? ==> s.len + c.n <= 4096)
  {
    var s := Reached(s0, sched);
    assert Inside(s.callers[t].pc) ==> Holder(s) == Some(s.callers[t]);
  }

  // ---- Progress ----

  /** While a call is open, some caller has a step. */
  lemma NoDeadlock(s0: State, sched: seq<Label>)
    requires Init(s0) && Runs(Next, s0, sched)
    ensures var s := After(Next, s0, sched);
            (forall t: nat :: !Enabled(s, Act(t))) <==> forall t :: 0 <= t < |s.callers| ==> s.callers[t].pc == Idle
  {
    var s := Reached(s0, sched);
    if s.owner.Some? {
      assert Inside(s.callers[s.owner.value].pc) && Enabled(s, Act(s.owner.value));
    } else if t: nat :| t < |s.callers| && s.callers[t].pc != Idle {
      assert Enabled(s, Act(t));
    }
  }

  /** Upper bound on the steps a call still has ahead of it: each of its three byte loops takes at
      most one pass over the array. */
  function Rank(c: Caller): int {
    match c.pc
    case Idle => 0
    case Exit => 1
    case Unlock => 2
    case Clear => 3 + BUF_SIZE - c.k
    case Commit => BUF_SIZE + 4
    case Shift => 2 * BUF_SIZE + 5 - c.k
    case Copy => 3 * BUF_SIZE + 6 - c.k
    case Look => 3 * BUF_SIZE + 7
    case Lock => 3 * BUF_SIZE + 8
    case Enter => 3 * BUF_SIZE + 9
  }

  predicate WithinLoop(c: Caller) { c.pc == Copy || c.pc == Shift || c.pc == Clear ==> c.k <= BUF_SIZE }

  lemma LoopsBounded(s: State, t: nat)
    requires LockInv(s) && Follows(s) && t < |s.callers|
    ensures WithinLoop(s.callers[t])
  {
    assert Inside(s.callers[t].pc) ==> Holder(s) == Some(s.callers[t]);
  }

  const CALL_STEPS := 3 * BUF_SIZE + 10

  function Grant(l: Label): int { if l.Start? then CALL_STEPS else 0 }

  lemma RankMoves(buf: seq<Byte>, len: nat, logged: nat, c: Caller, fault: bool)
    requires WithinLoop(c) && c.pc != Idle && (fault ==> c.pc == Copy)
    ensures Rank(NewCaller(buf, len, logged, c, Verdict(len, c, fault))) + 1 <= Rank(c)
  {
  }

  function RankSum(s: State): int { Sum(s.callers, Rank) }

  lemma RankStep(s: State, l: Label)
    requires Inv(s) && Enabled(s, l)
    ensures RankSum(Apply(s, l)) + 1 <= RankSum(s) + Grant(l)
  {
    LoopsBounded(s, l.t);
    SumUpdate(s.callers, Rank, l.t, Apply(s, l).callers[l.t]);
    if !l.Start? {
      RankMoves(s.buf, s.len, |s.log|, s.callers[l.t], l.FaultNow?);
    }
  }

  lemma RankUsedUp()
    ensures Preserved(Next, Inv) && UsesUp(Next, Inv, RankSum, Grant)
  {
    forall a: State, l: Label | Inv(a) && Next(a, l).Some?
      ensures Inv(Next(a, l).value) && RankSum(Next(a, l).value) + 1 <= RankSum(a) + Grant(l)
    {
      StepHolds(a, l);
      RankStep(a, l);
    }
  }

  lemma RankNonNeg(s: State)
    requires Inv(s)
    ensures RankSum(s) >= 0
  {
    forall t: nat | t < |s.callers| ensures Rank(s.callers[t]) >= 0 {
      LoopsBounded(s, t);
    }
    SumNonNeg(s.callers, Rank);
  }

  /** Every call is over in a bounded number of its own steps: no run, however many callers are at
      work in it, is longer than 12298 steps for each call it starts. */
  lemma CallsTerminate(s0: State, sched: seq<Label>)
    requires Init(s0) && Runs(Next, s0, sched)
    ensures |sched| <= Sum(sched, Grant)
  {
    InitHolds(s0);
    RankUsedUp();
    LengthBound(Next, Inv, RankSum, Grant, s0, sched);
    SumZero(s0.callers, Rank);
    var s := Reached(s0, sched);
    RankNonNeg(s);
  }
}
