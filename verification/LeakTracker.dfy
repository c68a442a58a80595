/** The leak-tracking allocator of 05_memory/memory_demo.c over a heap that may place blocks anywhere
    free, reuse addresses and run out, shared with code that does not use the tracker. */
module LeakTracker {
  import opened StepSystem
  import opened Sums

  /** `size_t` arithmetic is modulo this. */
  const WORD := 0x1_0000_0000_0000_0000
  const RECORD_SIZE := 24

  /** An `AllocRecord`: the block it describes and the address of its own block. */
  datatype Record = Record(ptr: nat, size: nat, addr: nat)

  datatype HeapEvent = Malloced(addr: nat) | Freed(addr: nat)

  /** Live blocks by address, the tracker's list front first, its running total, and every call
      that reached the underlying `malloc` and `free`. */
  datatype World = World(live: map<nat, nat>, records: seq<Record>, total: nat, log: seq<HeapEvent>)

  /** `Malloc` carries the heap's answer: nothing, or the block and the record's block. */
  datatype Op =
    | Malloc(size: nat, answer: Option<(nat, nat)>)
    | Free(ptr: nat)
    | OtherMalloc(addr: nat, size: nat)
    | OtherFree(addr: nat)

  /** Where the heap may put a block of n bytes: in the address space, away from address zero and
      from every live block. */
  predicate Fits(live: map<nat, nat>, a: nat, n: nat) {
    && 0 < a && a + n <= WORD && a !in live
    && forall b | b in live :: Apart(a, n, b, live[b])
  }

  predicate Apart(a: nat, n: nat, b: nat, m: nat) { a + n <= b || b + m <= a }

  predicate Tracks(records: seq<Record>, a: nat) {
    exists i :: 0 <= i < |records| && (records[i].ptr == a || records[i].addr == a)
  }

  /** The heap answers legally; other code frees only live blocks of its own. Callers may hand any
      pointer at all to `tracked_free`. */
  predicate Enabled(w: World, op: Op) {
    match op
    case Malloc(size, None) => true
    case Malloc(size, Some((p, r))) => Fits(w.live, p, size) && Fits(w.live[p := size], r, RECORD_SIZE)
    case Free(_) => true
    case OtherMalloc(a, n) => Fits(w.live, a, n)
    case OtherFree(a) => a in w.live && !Tracks(w.records, a)
  }

  /** The first record for ptr, or the length of the list. */
  function Find(records: seq<Record>, ptr: nat): (i: nat)
    ensures i <= |records|
    ensures i < |records| ==> records[i].ptr == ptr
    ensures forall k :: 0 <= k < i ==> records[k].ptr != ptr
  {
    if records == [] || records[0].ptr == ptr then 0 else 1 + Find(records[1..], ptr)
  }

  function Without(records: seq<Record>, i: nat): seq<Record>
    requires i < |records|
  {
    records[..i] + records[i + 1..]
  }

  function Apply(w: World, op: Op): World {
    match op
    case Malloc(size, None) => w
    case Malloc(size, Some((p, r))) =>
      World(w.live[p := size][r := RECORD_SIZE], [Record(p, size, r)] + w.records, (w.total + size) % WORD,
            w.log + [Malloced(p), Malloced(r)])
    case Free(ptr) =>
      var i := Find(w.records, ptr);
      if i == |w.records| then w else
        var rec := w.records[i];
        World(w.live - {rec.addr, ptr}, Without(w.records, i), (w.total - rec.size) % WORD,
              w.log + [Freed(rec.addr), Freed(ptr)])
    case OtherMalloc(a, n) => w.(live := w.live[a := n], log := w.log + [Malloced(a)])
    case OtherFree(a) => w.(live := w.live - {a}, log := w.log + [Freed(a)])
  }

  function Next(w: World, op: Op): Option<World> {
    if Enabled(w, op) then Some(Apply(w, op)) else None
  }

  predicate Init(w: World) { w == World(map[], [], 0, []) }

  // ---- The list and the heap ----

  function SizeOf(rec: Record): int { rec.size }

  predicate HeapInv(live: map<nat, nat>) {
    && (forall a | a in live :: 0 < a && a + live[a] <= WORD)
    && (forall a, b | a in live && b in live && a != b :: Apart(a, live[a], b, live[b]))
  }

  /** Every record and the block it names are live, and no two of all these addresses coincide. */
  predicate ListInv(live: map<nat, nat>, records: seq<Record>) {
    && (forall i :: 0 <= i < |records| ==> Backed(live, records[i]))
    && (forall i, j :: 0 <= i < j < |records| ==> Separate(records[i], records[j]))
  }

  predicate Backed(live: map<nat, nat>, r: Record) {
    && r.ptr in live && live[r.ptr] == r.size && r.addr in live && live[r.addr] == RECORD_SIZE
    && r.ptr != r.addr
  }

  predicate Separate(r: Record, q: Record) {
    r.ptr != q.ptr && r.ptr != q.addr && r.addr != q.ptr && r.addr != q.addr
  }

  // ---- Live blocks are disjoint, so their sizes never wrap a size_t ----

  function Span(a: nat, n: nat): (r: set<int>)
    ensures forall x :: x in r <==> a <= x < a + n
    ensures |r| == n
  {
    if n == 0 then {} else Span(a, n - 1) + {a + n - 1}
  }

  function Covered(records: seq<Record>): set<int> {
    if records == [] then {} else
      Covered(records[..|records| - 1]) + Span(records[|records| - 1].ptr, records[|records| - 1].size)
  }

  lemma {:induction false} CoveredBy(records: seq<Record>, x: int)
    requires x in Covered(records)
    ensures exists i :: 0 <= i < |records| && x in Span(records[i].ptr, records[i].size)
  {
    var last := |records| - 1;
    if x !in Span(records[last].ptr, records[last].size) {
      CoveredBy(records[..last], x);
      var i :| 0 <= i < last && x in Span(records[..last][i].ptr, records[..last][i].size);
      assert x in Span(records[i].ptr, records[i].size);
    }
  }

  predicate Disjoint(records: seq<Record>) {
    forall i, j :: 0 <= i < j < |records| ==>
      Apart(records[i].ptr, records[i].size, records[j].ptr, records[j].size)
  }

  lemma {:induction false} CoveredSize(records: seq<Record>)
    requires Disjoint(records)
    ensures |Covered(records)| == Sum(records, SizeOf)
  {
    if records != [] {
      var last := |records| - 1;
      var front, mine := Covered(records[..last]), Span(records[last].ptr, records[last].size);
      CoveredSize(records[..last]);
      forall x | x in front && x in mine ensures false {
        CoveredBy(records[..last], x);
      }
      assert front !! mine;
    }
  }

  /** The tracked sizes always sum to less than 2^64. */
  lemma TotalFits(live: map<nat, nat>, records: seq<Record>)
    requires HeapInv(live) && ListInv(live, records)
    ensures 0 <= Sum(records, SizeOf) < 0x1_0000_0000_0000_0000
  {
    forall i, j | 0 <= i < j < |records|
      ensures Apart(records[i].ptr, records[i].size, records[j].ptr, records[j].size)
    {
      assert Backed(live, records[i]) && Backed(live, records[j]) && Separate(records[i], records[j]);
    }
    CoveredSize(records);
    var room := Span(1, WORD - 1);
    forall x | x in Covered(records) ensures x in room {
      CoveredBy(records, x);
      var i :| 0 <= i < |records| && x in Span(records[i].ptr, records[i].size);
      assert Backed(live, records[i]);
    }
    assert room == Covered(records) + (room - Covered(records));
    SumNonNeg(records, SizeOf);
  }

  // ---- The underlying calls ----

  /** Whether a block is live after the logged calls. */
  predicate LiveIn(log: seq<HeapEvent>, a: nat) {
    if log == [] then false else
      var e := log[|log| - 1];
      if e.addr == a then e.Malloced? else LiveIn(log[..|log| - 1], a)
  }

  /** Between two frees of one address there is an allocation at it. */
  predicate NoDoubleFree(log: seq<HeapEvent>) {
    forall i, j :: 0 <= i < j < |log| && log[i].Freed? && log[j] == log[i] ==>
      exists k :: i < k < j && log[k] == Malloced(log[i].addr)
  }

  /** Every block was live when it was freed. */
  predicate FreesLive(log: seq<HeapEvent>) {
    forall i :: 0 <= i < |log| && log[i].Freed? ==> LiveIn(log[..i], log[i].addr)
  }

  lemma FreesLiveOne(log: seq<HeapEvent>, e: HeapEvent)
    requires FreesLive(log) && (e.Freed? ==> LiveIn(log, e.addr))
    ensures FreesLive(log + [e])
  {
    var log' := log + [e];
    forall i | 0 <= i < |log'| && log'[i].Freed? ensures LiveIn(log'[..i], log'[i].addr) {
      assert log'[..i] == log[..i];
      assert i == |log| ==> log[..i] == log;
    }
  }

  lemma {:induction false} LiveSinceFree(log: seq<HeapEvent>, i: nat)
    requires i < |log| && log[i].Freed? && LiveIn(log, log[i].addr)
    ensures exists k :: i < k < |log| && log[k] == Malloced(log[i].addr)
  {
    var last := |log| - 1;
    if log[last].addr != log[i].addr {
      LiveSinceFree(log[..last], i);
      var k :| i < k < last && log[..last][k] == Malloced(log[i].addr);
      assert log[k] == Malloced(log[i].addr);
    }
  }

  lemma LogOne(log: seq<HeapEvent>, e: HeapEvent)
    requires NoDoubleFree(log) && FreesLive(log) && (e.Freed? ==> LiveIn(log, e.addr))
    ensures NoDoubleFree(log + [e]) && FreesLive(log + [e])
    ensures forall a :: LiveIn(log + [e], a) <==> if a == e.addr then e.Malloced? else LiveIn(log, a)
  {
    var log' := log + [e];
    assert log'[..|log|] == log;
    FreesLiveOne(log, e);
    forall i, j | 0 <= i < j < |log'| && log'[i].Freed? && log'[j] == log'[i]
      ensures exists k :: i < k < j && log'[k] == Malloced(log'[i].addr)
    {
      if j < |log| {
        var k :| i < k < j && log[k] == Malloced(log[i].addr);
        assert log'[k] == Malloced(log'[i].addr);
      } else {
        LiveSinceFree(log, i);
        var k :| i < k < |log| && log[k] == Malloced(log[i].addr);
        assert log'[k] == Malloced(log'[i].addr);
      }
    }
  }

  /** The log accounts for the live blocks, and every free in it is of a live block, not a double free. */
  ghost predicate LogInv(live: map<nat, nat>, log: seq<HeapEvent>) {
    NoDoubleFree(log) && FreesLive(log) && forall a :: a in live <==> LiveIn(log, a)
  }

  ghost predicate Inv(w: World) {
    && HeapInv(w.live) && ListInv(w.live, w.records)
    && w.total == Sum(w.records, SizeOf)
    && LogInv(w.live, w.log)
  }

  // ---- What each call keeps ----

  lemma HeapGrows(live: map<nat, nat>, a: nat, n: nat)
    requires HeapInv(live) && Fits(live, a, n)
    ensures HeapInv(live[a := n])
  {
    var live' := live[a := n];
    forall x, y | x in live' && y in live' && x != y ensures Apart(x, live'[x], y, live'[y]) {
      assert x == a ==> Apart(a, n, y, live[y]);
      assert y == a ==> Apart(a, n, x, live[x]);
    }
  }

  lemma ListSurvives(live: map<nat, nat>, live': map<nat, nat>, records: seq<Record>)
    requires ListInv(live, records)
    requires forall i :: 0 <= i < |records| ==>
               && (forall a | a in {records[i].ptr, records[i].addr} && a in live :: a in live' && live'[a] == live[a])
    ensures ListInv(live', records)
  {
    forall i | 0 <= i < |records| ensures Backed(live', records[i]) {
      assert Backed(live, records[i]);
    }
  }

  lemma ListWithout(live: map<nat, nat>, records: seq<Record>, i: nat)
    requires ListInv(live, records) && i < |records|
    ensures ListInv(live - {records[i].addr, records[i].ptr}, Without(records, i))
  {
    var live', rest := live - {records[i].addr, records[i].ptr}, Without(records, i);
    forall k | 0 <= k < |rest| ensures Backed(live', rest[k]) {
      var k' := if k < i then k else k + 1;
      assert rest[k] == records[k'] && Backed(live, records[k']);
      assert if k' < i then Separate(records[k'], records[i]) else Separate(records[i], records[k']);
    }
  }

  lemma {:induction false} SumWithout(records: seq<Record>, i: nat)
    requires i < |records|
    ensures Sum(Without(records, i), SizeOf) == Sum(records, SizeOf) - records[i].size
  {
    var last := |records| - 1;
    if i < last {
      SumWithout(records[..last], i);
      assert Without(records, i)[..last - 1] == Without(records[..last], i);
    } else {
      assert Without(records, i) == records[..last];
    }
  }

  lemma ListMalloc(live: map<nat, nat>, records: seq<Record>, rec: Record)
    requires ListInv(live, records) && rec.ptr !in live && rec.addr !in live && rec.ptr != rec.addr
    ensures ListInv(live[rec.ptr := rec.size][rec.addr := RECORD_SIZE], [rec] + records)
  {
    var live', records' := live[rec.ptr := rec.size][rec.addr := RECORD_SIZE], [rec] + records;
    forall i | 0 <= i < |records'| ensures Backed(live', records'[i]) {
      assert i > 0 ==> Backed(live, records[i - 1]);
    }
    forall i, j | 0 <= i < j < |records'| ensures Separate(records'[i], records'[j]) {
      assert Backed(live, records[j - 1]);
      assert i > 0 ==> Separate(records[i - 1], records[j - 1]);
    }
  }

  lemma LogTwo(live: map<nat, nat>, log: seq<HeapEvent>, e: HeapEvent, f: HeapEvent)
    requires LogInv(live, log) && e.addr != f.addr && e.Malloced? == f.Malloced?
    requires e.Freed? ==> e.addr in live && f.addr in live
    ensures NoDoubleFree(log + [e, f]) && FreesLive(log + [e, f])
    ensures forall a :: LiveIn(log + [e, f], a) <==> if a in {e.addr, f.addr} then e.Malloced? else a in live
  {
    LogOne(log, e);
    LogOne(log + [e], f);
    assert log + [e, f] == log + [e] + [f];
  }

  lemma LogFree(live: map<nat, nat>, log: seq<HeapEvent>, addr: nat, ptr: nat)
    requires LogInv(live, log) && addr != ptr && addr in live && ptr in live
    ensures LogInv(live - {addr, ptr}, log + [Freed(addr), Freed(ptr)])
  {
    LogTwo(live, log, Freed(addr), Freed(ptr));
  }

  lemma SmallMod(x: int)
    requires 0 <= x < WORD
    ensures x % WORD == x
  {
  }

  lemma TotalMalloc(live: map<nat, nat>, records: seq<Record>, rec: Record)
    requires HeapInv(live) && ListInv(live, [rec] + records)
    ensures Sum([rec] + records, SizeOf) == Sum(records, SizeOf) + rec.size < WORD
  {
    var records' := [rec] + records;
    SumSplit(records', SizeOf);
    assert records'[1..] == records;
    TotalFits(live, records');
  }

  lemma HeapTwo(live: map<nat, nat>, p: nat, size: nat, r: nat)
    requires HeapInv(live) && Fits(live, p, size) && Fits(live[p := size], r, RECORD_SIZE)
    ensures HeapInv(live[p := size][r := RECORD_SIZE])
  {
    HeapGrows(live, p, size);
    HeapGrows(live[p := size], r, RECORD_SIZE);
  }

  lemma StepMalloc(w: World, size: nat, p: nat, r: nat)
    requires Inv(w) && Enabled(w, Malloc(size, Some((p, r))))
    ensures Inv(Apply(w, Malloc(size, Some((p, r)))))
  {
    var live', rec := w.live[p := size][r := RECORD_SIZE], Record(p, size, r);
    HeapTwo(w.live, p, size, r);
    ListMalloc(w.live, w.records, rec);
    TotalMalloc(live', w.records, rec);
    SumNonNeg(w.records, SizeOf);
    SmallMod(w.total + size);
    LogTwo(w.live, w.log, Malloced(p), Malloced(r));
  }

  lemma HeapShrinks(live: map<nat, nat>, gone: set<nat>)
    requires HeapInv(live)
    ensures HeapInv(live - gone)
  {
  }

  lemma TotalFree(live: map<nat, nat>, records: seq<Record>, i: nat)
    requires HeapInv(live) && ListInv(live, records) && i < |records|
    ensures Sum(Without(records, i), SizeOf) == Sum(records, SizeOf) - records[i].size
    ensures 0 <= Sum(Without(records, i), SizeOf) < WORD
  {
    SumWithout(records, i);
    TotalFits(live, records);
    SumNonNeg(Without(records, i), SizeOf);
  }

  lemma StepFree(w: World, ptr: nat)
    requires Inv(w)
    ensures Inv(Apply(w, Free(ptr)))
  {
    var i := Find(w.records, ptr);
    if i < |w.records| {
      var rec := w.records[i];
      assert Backed(w.live, rec);
      HeapShrinks(w.live, {rec.addr, ptr});
      ListWithout(w.live, w.records, i);
      TotalFree(w.live, w.records, i);
      LogFree(w.live, w.log, rec.addr, ptr);
      SmallMod(w.total - rec.size);
    }
  }

  lemma StepOther(w: World, op: Op)
    requires Inv(w) && Enabled(w, op) && (op.OtherMalloc? || op.OtherFree?)
    ensures Inv(Apply(w, op))
  {
    ListSurvives(w.live, Apply(w, op).live, w.records);
    if op.OtherMalloc? {
      HeapGrows(w.live, op.addr, op.size);
      LogOne(w.log, Malloced(op.addr));
    } else {
      LogOne(w.log, Freed(op.addr));
    }
  }

  lemma StepHolds(w: World, op: Op)
    requires Inv(w) && Enabled(w, op)
    ensures Inv(Apply(w, op))
  {
    match op
    case Malloc(size, None) =>
    case Malloc(size, Some((p, r))) => StepMalloc(w, size, p, r);
    case Free(ptr) => StepFree(w, ptr);
    case OtherMalloc(_, _) => StepOther(w, op);
    case OtherFree(_) => StepOther(w, op);
  }

  lemma Reached(w0: World, ops: seq<Op>) returns (w: World)
    requires Init(w0) && Runs(Next, w0, ops)
    ensures w == After(Next, w0, ops) && Inv(w)
  {
    forall a: World, op: Op | Inv(a) && Next(a, op).Some? ensures Inv(Next(a, op).value) {
      StepHolds(a, op);
    }
    Invariance(Next, Inv, w0, ops);
    w := After(Next, w0, ops);
  }

  // ---- The list against the callers' own account ----

  /** What a caller keeping its own books would have outstanding, by address. */
  function Account(owed: map<nat, nat>, op: Op): map<nat, nat> {
    match op
    case Malloc(size, Some((p, _))) => owed[p := size]
    case Free(ptr) => owed - {ptr}
    case _ => owed
  }

  function Outstanding(owed: map<nat, nat>, ops: seq<Op>): map<nat, nat>
    decreases |ops|
  {
    if ops == [] then owed else Outstanding(Account(owed, ops[0]), ops[1..])
  }

  /** The list holds one record for each outstanding block, with its size, and no other. */
  predicate Matches(records: seq<Record>, owed: map<nat, nat>) {
    && (forall i :: 0 <= i < |records| ==> records[i].ptr in owed && owed[records[i].ptr] == records[i].size)
    && (forall i, j :: 0 <= i < j < |records| ==> records[i].ptr != records[j].ptr)
    && (forall p | p in owed :: exists i :: 0 <= i < |records| && records[i].ptr == p)
  }

  lemma MatchesMalloc(records: seq<Record>, owed: map<nat, nat>, rec: Record)
    requires Matches(records, owed) && rec.ptr !in owed
    ensures Matches([rec] + records, owed[rec.ptr := rec.size])
  {
    var records', owed' := [rec] + records, owed[rec.ptr := rec.size];
    forall p | p in owed' ensures exists i :: 0 <= i < |records'| && records'[i].ptr == p {
      if p == rec.ptr {
        assert records'[0].ptr == p;
      } else {
        var i :| 0 <= i < |records| && records[i].ptr == p;
        assert records'[i + 1].ptr == p;
      }
    }
  }

  lemma MatchesFree(records: seq<Record>, owed: map<nat, nat>, i: nat)
    requires Matches(records, owed) && i < |records|
    ensures Matches(Without(records, i), owed - {records[i].ptr})
  {
    var rest, owed' := Without(records, i), owed - {records[i].ptr};
    forall p | p in owed' ensures exists k :: 0 <= k < |rest| && rest[k].ptr == p {
      var k :| 0 <= k < |records| && records[k].ptr == p;
      assert rest[if k < i then k else k - 1].ptr == p;
    }
  }

  lemma MatchesStep(w: World, owed: map<nat, nat>, op: Op)
    requires Inv(w) && Matches(w.records, owed) && Enabled(w, op)
    ensures Matches(Apply(w, op).records, Account(owed, op))
  {
    match op
    case Malloc(size, Some((p, r))) =>
      forall i | 0 <= i < |w.records| ensures w.records[i].ptr != p {
        assert Backed(w.live, w.records[i]);
      }
      MatchesMalloc(w.records, owed, Record(p, size, r));
    case Free(ptr) =>
      var i := Find(w.records, ptr);
      if i < |w.records| {
        MatchesFree(w.records, owed, i);
      } else {
        assert owed - {ptr} == owed;
      }
    case _ =>
  }

  lemma {:induction false} MatchesRun(w: World, owed: map<nat, nat>, ops: seq<Op>)
    requires Inv(w) && Matches(w.records, owed) && Runs(Next, w, ops)
    ensures Matches(After(Next, w, ops).records, Outstanding(owed, ops))
    decreases |ops|
  {
    if ops != [] {
      MatchesStep(w, owed, ops[0]);
      StepHolds(w, ops[0]);
      MatchesRun(Apply(w, ops[0]), Account(owed, ops[0]), ops[1..]);
    }
  }

  // ---- Every live block is owed to someone ----

  /** The blocks that code outside the tracker holds, with their sizes, going by its own calls. */
  function OtherAccount(held: map<nat, nat>, op: Op): map<nat, nat> {
    match op
    case OtherMalloc(a, n) => held[a := n]
    case OtherFree(a) => held - {a}
    case _ => held
  }

  function HeldByOthers(held: map<nat, nat>, ops: seq<Op>): map<nat, nat>
    decreases |ops|
  {
    if ops == [] then held else HeldByOthers(OtherAccount(held, ops[0]), ops[1..])
  }

  /** A block is live exactly when a record names it, as block or as record, or other code holds it. */
  ghost predicate Owed(live: map<nat, nat>, records: seq<Record>, held: map<nat, nat>) {
    && (forall a :: a in live <==> Tracks(records, a) || a in held)
    && (forall a | a in held :: a in live && live[a] == held[a] && !Tracks(records, a))
  }

  lemma TracksMore(records: seq<Record>, rec: Record)
    ensures forall a :: Tracks([rec] + records, a) <==> a == rec.ptr || a == rec.addr || Tracks(records, a)
  {
    var records' := [rec] + records;
    assert records'[0] == rec;
    forall i | 0 <= i < |records| ensures records'[i + 1] == records[i] {
    }
  }

  lemma LessTracked(live: map<nat, nat>, records: seq<Record>, i: nat, a: nat)
    requires ListInv(live, records) && i < |records| && Tracks(Without(records, i), a)
    ensures Tracks(records, a) && a != records[i].ptr && a != records[i].addr
  {
    var rest := Without(records, i);
    var k :| 0 <= k < |rest| && (rest[k].ptr == a || rest[k].addr == a);
    var k' := if k < i then k else k + 1;
    assert rest[k] == records[k'];
    assert if k' < i then Separate(records[k'], records[i]) else Separate(records[i], records[k']);
  }

  lemma StillTracked(records: seq<Record>, i: nat, a: nat)
    requires i < |records| && Tracks(records, a) && a != records[i].ptr && a != records[i].addr
    ensures Tracks(Without(records, i), a)
  {
    var k :| 0 <= k < |records| && (records[k].ptr == a || records[k].addr == a);
    assert Without(records, i)[if k < i then k else k - 1] == records[k];
  }

  lemma TracksLess(live: map<nat, nat>, records: seq<Record>, i: nat)
    requires ListInv(live, records) && i < |records|
    ensures forall a :: Tracks(Without(records, i), a) <==>
                        Tracks(records, a) && a != records[i].ptr && a != records[i].addr
  {
    forall a | Tracks(Without(records, i), a)
      ensures Tracks(records, a) && a != records[i].ptr && a != records[i].addr
    {
      LessTracked(live, records, i, a);
    }
    forall a | Tracks(records, a) && a != records[i].ptr && a != records[i].addr
      ensures Tracks(Without(records, i), a)
    {
      StillTracked(records, i, a);
    }
  }

  lemma OwedMalloc(live: map<nat, nat>, records: seq<Record>, held: map<nat, nat>, rec: Record)
    requires Owed(live, records, held) && rec.ptr !in live && rec.addr !in live
    ensures Owed(live[rec.ptr := rec.size][rec.addr := RECORD_SIZE], [rec] + records, held)
  {
    TracksMore(records, rec);
  }

  lemma OwedFree(live: map<nat, nat>, records: seq<Record>, held: map<nat, nat>, i: nat)
    requires ListInv(live, records) && Owed(live, records, held) && i < |records|
    ensures Owed(live - {records[i].addr, records[i].ptr}, Without(records, i), held)
  {
    TracksLess(live, records, i);
    assert Tracks(records, records[i].ptr) && Tracks(records, records[i].addr);
  }

  lemma OwedStep(w: World, held: map<nat, nat>, op: Op)
    requires ListInv(w.live, w.records) && Owed(w.live, w.records, held) && Enabled(w, op)
    ensures Owed(Apply(w, op).live, Apply(w, op).records, OtherAccount(held, op))
  {
    match op
    case Malloc(size, Some((p, r))) =>
      OwedMalloc(w.live, w.records, held, Record(p, size, r));
    case Free(ptr) =>
      var i := Find(w.records, ptr);
      if i < |w.records| {
        OwedFree(w.live, w.records, held, i);
      }
    case _ =>
  }

  lemma {:induction false} OwedRun(w: World, held: map<nat, nat>, ops: seq<Op>)
    requires Inv(w) && Owed(w.live, w.records, held) && Runs(Next, w, ops)
    ensures Owed(After(Next, w, ops).live, After(Next, w, ops).records, HeldByOthers(held, ops))
    decreases |ops|
  {
    if ops != [] {
      OwedStep(w, held, ops[0]);
      StepHolds(w, ops[0]);
      OwedRun(Apply(w, ops[0]), OtherAccount(held, ops[0]), ops[1..]);
    }
  }

  /** After every sequence of calls, against every heap: the records are exactly the outstanding
      blocks, all live and apart from each other; the live blocks are exactly those, the records'
      own and the ones other code holds; and the running total is the sum of the tracked sizes with
      no wrap-around. */
  lemma Agreement(w0: World, ops: seq<Op>)
    requires Init(w0) && Runs(Next, w0, ops)
    ensures var w := After(Next, w0, ops);
            && Matches(w.records, Outstanding(map[], ops))
            && ListInv(w.live, w.records)
            && Owed(w.live, w.records, HeldByOthers(map[], ops))
            && w.total == Sum(w.records, SizeOf) < 0x1_0000_0000_0000_0000
  {
    var w := Reached(w0, ops);
    MatchesRun(w0, map[], ops);
    OwedRun(w0, map[], ops);
    TotalFits(w.live, w.records);
  }

  /** From w to w' record i is unlinked, its size taken off the total modulo 2^64, and first its own
      block and then the caller's freed. */
  ghost predicate Drops(w: World, w': World, i: nat)
    requires i < |w.records|
  {
    && w'.records == w.records[..i] + w.records[i + 1..]
    && w'.total == (w.total - w.records[i].size) % 0x1_0000_0000_0000_0000
    && w'.live == w.live - {w.records[i].ptr, w.records[i].addr}
    && w'.log == w.log + [Freed(w.records[i].addr), Freed(w.records[i].ptr)]
  }

  lemma FreeDrops(w: World, ptr: nat)
    ensures var w', i := Apply(w, Free(ptr)), Find(w.records, ptr);
            if i == |w.records| then w' == w else Drops(w, w', i)
  {
  }

  lemma FreeTotal(w: World, i: nat)
    requires Inv(w) && i < |w.records|
    ensures (w.total - w.records[i].size) % WORD == w.total - w.records[i].size && Backed(w.live, w.records[i])
  {
    TotalFree(w.live, w.records, i);
    SmallMod(w.total - w.records[i].size);
  }

  lemma FoundIffOwed(records: seq<Record>, owed: map<nat, nat>, ptr: nat)
    requires Matches(records, owed)
    ensures var i := Find(records, ptr);
            && (i < |records| <==> ptr in owed)
            && (i < |records| ==> records[i].size == owed[ptr])
  {
  }

  lemma DroppedNotLive(w: World, w': World, i: nat)
    requires i < |w.records| && Drops(w, w', i) && Inv(w)
    ensures w'.total == w.total - w.records[i].size
    ensures w.records[i].ptr in w.live && w.records[i].addr in w.live
    ensures w.records[i].ptr !in w'.live && w.records[i].addr !in w'.live
  {
    FreeTotal(w, i);
  }

  /** After any run, freeing an outstanding pointer takes its block and its record's block out of the
      live ones, and exactly its size off the total; freeing anything else, the null pointer and a
      pointer freed before included, does nothing. */
  lemma FreeReleases(w0: World, ops: seq<Op>, ptr: nat) returns (i: nat)
    requires Init(w0) && Runs(Next, w0, ops)
    ensures var w, owed := After(Next, w0, ops), Outstanding(map[], ops);
            var w' := Apply(w, Free(ptr));
            && (ptr !in owed ==> w' == w)
            && (ptr in owed ==>
                  && i < |w.records| && w.records[i] == Record(ptr, owed[ptr], w.records[i].addr)
                  && Drops(w, w', i) && w'.total == w.total - owed[ptr]
                  && ptr in w.live && ptr !in w'.live
                  && w.records[i].addr in w.live && w.records[i].addr !in w'.live)
  {
    var w := Reached(w0, ops);
    MatchesRun(w0, map[], ops);
    FreeDrops(w, ptr);
    i := Find(w.records, ptr);
    FoundIffOwed(w.records, Outstanding(map[], ops), ptr);
    if i < |w.records| {
      DroppedNotLive(w, Apply(w, Free(ptr)), i);
    }
  }

  lemma MallocTotal(w: World, size: nat, p: nat, r: nat)
    requires Inv(w) && Enabled(w, Malloc(size, Some((p, r))))
    ensures 0 <= w.total && w.total + size < WORD
  {
    var live' := w.live[p := size][r := RECORD_SIZE];
    HeapTwo(w.live, p, size, r);
    ListMalloc(w.live, w.records, Record(p, size, r));
    TotalMalloc(live', w.records, Record(p, size, r));
  }

  lemma MallocBack(w: World, size: nat, p: nat, r: nat)
    requires p !in w.live && r !in w.live && w.total + size < WORD
    ensures var between := Apply(w, Malloc(size, Some((p, r))));
            && between.total == w.total + size
            && Apply(between, Free(p)) == w.(log := w.log + [Malloced(p), Malloced(r), Freed(r), Freed(p)])
  {
    var between := Apply(w, Malloc(size, Some((p, r))));
    assert Find(between.records, p) == 0;
    SmallMod(w.total + size);
    SmallMod(w.total);
    assert Without(between.records, 0) == w.records;
    assert between.live - {r, p} == w.live;
    assert between.log + [Freed(r), Freed(p)] == w.log + [Malloced(p), Malloced(r), Freed(r), Freed(p)];
  }

  /** After any run, `tracked_malloc` followed by `tracked_free` of its answer restores the heap, the
      list and the total, having reached `malloc` and `free` twice each; in between the block is
      live, recorded and counted, and the total has not wrapped. */
  lemma MallocThenFree(w0: World, ops: seq<Op>, size: nat, p: nat, r: nat)
    requires Init(w0) && Runs(Next, w0, ops)
    requires Enabled(After(Next, w0, ops), Malloc(size, Some((p, r))))
    ensures var w := After(Next, w0, ops);
            var between := Apply(w, Malloc(size, Some((p, r))));
            && between.live == w.live[p := size][r := 24]
            && between.records == [Record(p, size, r)] + w.records
            && between.total == w.total + size < 0x1_0000_0000_0000_0000
            && Apply(between, Free(p))
               == w.(log := w.log + [Malloced(p), Malloced(r), Freed(r), Freed(p)])
  {
    var w := Reached(w0, ops);
    MallocTotal(w, size, p, r);
    MallocBack(w, size, p, r);
  }

  /** Whatever pointers the callers hand in, the underlying `free` never sees a block twice without
      an allocation in between, nor one that is not live. */
  lemma FreesAreSound(w0: World, ops: seq<Op>)
    requires Init(w0) && Runs(Next, w0, ops)
    ensures var w := After(Next, w0, ops);
            NoDoubleFree(w.log) && FreesLive(w.log) && forall a :: a in w.live <==> LiveIn(w.log, a)
  {
    var w := Reached(w0, ops);
  }

  // ---- The leak report ----

  /** `check_leaks`: the printed lines and the printed total, or the all-clear. */
  datatype Report = NoLeaks | Leaks(lines: seq<(nat, nat)>, total: nat)

  function LineSize(line: (nat, nat)): int { line.1 }

  function Lines(records: seq<Record>): (lines: seq<(nat, nat)>)
    ensures |lines| == |records|
  {
    seq(|records|, i requires 0 <= i < |records| => (records[i].ptr, records[i].size))
  }

  function CheckLeaks(w: World): Report {
    if w.records == [] then NoLeaks else Leaks(Lines(w.records), w.total)
  }

  lemma {:induction false} SumOfLines(records: seq<Record>)
    ensures Sum(Lines(records), LineSize) == Sum(records, SizeOf)
  {
    if records != [] {
      var last := |records| - 1;
      SumOfLines(records[..last]);
      assert Lines(records)[..last] == Lines(records[..last]);
    }
  }

  /** The report is all-clear exactly when nothing is outstanding; otherwise its lines are the
      outstanding blocks, each once, and its total is the sum of the sizes it printed. */
  ghost predicate Exact(report: Report, owed: map<nat, nat>) {
    match report
    case NoLeaks => owed == map[]
    case Leaks(lines, total) =>
      && owed != map[] && total == Sum(lines, LineSize)
      && (forall i :: 0 <= i < |lines| ==> lines[i].0 in owed && owed[lines[i].0] == lines[i].1)
      && (forall i, j :: 0 <= i < j < |lines| ==> lines[i].0 != lines[j].0)
      && forall p | p in owed :: exists i :: 0 <= i < |lines| && lines[i].0 == p
  }

  lemma ReportOf(w: World, owed: map<nat, nat>)
    requires Matches(w.records, owed) && w.total == Sum(w.records, SizeOf)
    ensures Exact(CheckLeaks(w), owed)
  {
    SumOfLines(w.records);
    if w.records != [] {
      assert w.records[0].ptr in owed;
    }
    forall p | p in owed ensures exists i :: 0 <= i < |Lines(w.records)| && Lines(w.records)[i].0 == p {
      var i :| 0 <= i < |w.records| && w.records[i].ptr == p;
      assert Lines(w.records)[i].0 == p;
    }
  }

  /** `check_leaks` after any sequence of calls. */
  lemma ReportIsExact(w0: World, ops: seq<Op>)
    requires Init(w0) && Runs(Next, w0, ops)
    ensures Exact(CheckLeaks(After(Next, w0, ops)), Outstanding(map[], ops))
  {
    Agreement(w0, ops);
    ReportOf(After(Next, w0, ops), Outstanding(map[], ops));
  }
}
