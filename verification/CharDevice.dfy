/** The character device of 10_device_driver/chardev.c: a bounded byte queue kept at the front of an
    array, as one atomic specification and as the in-place class that implements it. */
module CharDevice {

  const BUF_SIZE := 4096

  type Byte = b: int | 0 <= b < 256

  /** The device as its callers see it. */
  datatype Device = Device(queue: seq<Byte>, echo: int)

  datatype Op =
    | Read(count: nat)
    | Write(bytes: seq<Byte>)
    | Reset
    | GetSize
    | SetEcho(val: int)
    | OtherIoctl

  datatype Result =
    | Returned(bytes: seq<Byte>)  // read: the bytes copied out, none at end of file
    | Accepted(n: nat)            // write
    | Zero                        // ioctl success
    | Size(len: nat)              // GSIZE success, with the value stored for the caller
    | Fault | NoSpace | NotTty    // -EFAULT, -ENOSPC, -ENOTTY

  function Min(a: nat, b: nat): nat { if a < b then a else b }

  /** One call, done atomically. `ok` says whether the user-memory copy succeeds, if there is one. */
  function Serve(d: Device, op: Op, ok: bool): (Device, Result) {
    match op
    case Read(count) =>
      if d.queue == [] then (d, Returned([]))
      else if !ok then (d, Fault)
      else
        var n := Min(count, |d.queue|);
        (d.(queue := d.queue[n..]), Returned(d.queue[..n]))
    case Write(bytes) =>
      if |d.queue| >= BUF_SIZE then (d, NoSpace)
      else if !ok then (d, Fault)
      else
        var n := Min(|bytes|, BUF_SIZE - |d.queue|);
        (d.(queue := d.queue + bytes[..n]), Accepted(n))
    case Reset => (d.(queue := []), Zero)
    case GetSize => (d, if ok then Size(|d.queue|) else Fault)
    case SetEcho(val) => if ok then (d.(echo := val), Zero) else (d, Fault)
    case OtherIoctl => (d, NotTty)
  }

  /** What each call gives its caller and leaves behind, by outcome. */
  lemma AtomicCalls(d: Device, op: Op, ok: bool)
    requires |d.queue| <= 4096
    ensures var (d', r) := Serve(d, op, ok);
            match op
            case Read(count) =>
              && d'.echo == d.echo
              && (d.queue == [] ==> d'.queue == [] && r == Returned([]))
              && (d.queue != [] && !ok ==> d'.queue == d.queue && r == Fault)
              && (d.queue != [] && ok ==>
                    r.Returned? && r.bytes + d'.queue == d.queue
                    && |r.bytes| <= count && (|r.bytes| < count ==> d'.queue == []))
            case Write(bytes) =>
              && d'.echo == d.echo
              && (|d.queue| == 4096 ==> d'.queue == d.queue && r == NoSpace)
              && (|d.queue| < 4096 && !ok ==> d'.queue == d.queue && r == Fault)
              && (|d.queue| < 4096 && ok ==>
                    r.Accepted? && r.n <= |bytes| && d'.queue == d.queue + bytes[..r.n]
                    && |d'.queue| <= 4096 && (r.n < |bytes| ==> |d'.queue| == 4096))
            case Reset => d' == Device([], d.echo) && r == Zero
            case GetSize => d' == d && r == if ok then Size(|d.queue|) else Fault
            case SetEcho(val) =>
              d'.queue == d.queue && (if ok then d'.echo == val && r == Zero else d'.echo == d.echo && r == Fault)
            case OtherIoctl => d' == d && r == NotTty
  {
    var (d', r) := Serve(d, op, ok);
    if op.Read? && r.Returned? {
      assert r.bytes + d'.queue == d.queue;
    }
  }

  // ---- The in-place device ----

  class CharDev {
    const buf: array<Byte>
    var bufLen: nat
    var echo: int

    ghost predicate Valid() reads this, buf { buf.Length == BUF_SIZE && bufLen <= BUF_SIZE }

    ghost function View(): (d: Device)
      requires Valid()
      reads this, buf
    {
      Device(buf[..bufLen], echo)
    }

    constructor ()
      ensures Valid() && fresh(buf) && View() == Device([], 1)
    {
      buf := new Byte[BUF_SIZE](_ => 0);
      bufLen, echo := 0, 1;
    }

    /** `memmove(buf, buf + n, bufLen - n)`, byte by byte from the left. */
    method ShiftLeft(n: nat)
      requires Valid() && n <= bufLen
      modifies buf
      ensures buf[..bufLen - n] == old(buf[n..bufLen])
      ensures buf[bufLen - n..] == old(buf[bufLen - n..])
    {
      var k := 0;
      while k < bufLen - n
        invariant 0 <= k <= bufLen - n
        invariant forall i :: 0 <= i < k ==> buf[i] == old(buf[i + n])
        invariant forall i :: k <= i < BUF_SIZE ==> buf[i] == old(buf[i])
      {
        buf[k] := buf[k + n];
        k := k + 1;
      }
      assert buf[..bufLen - n] == old(buf[n..bufLen]);
    }

    /** `chardev_read`; `copyOk` is the outcome of `copy_to_user`. */
    method Read(count: nat, copyOk: bool) returns (r: Result)
      requires Valid()
      modifies this`bufLen, buf
      ensures Valid()
      ensures (View(), r) == Serve(old(View()), Op.Read(count), copyOk)
      ensures old(bufLen) == 0 ==> bufLen == 0 && r == Returned([])
      ensures old(bufLen) > 0 && !copyOk ==> buf[..bufLen] == old(buf[..bufLen]) && r == Fault
      ensures old(bufLen) > 0 && copyOk ==>
                && r.Returned? && r.bytes + buf[..bufLen] == old(buf[..bufLen])
                && |r.bytes| <= count && (|r.bytes| < count ==> bufLen == 0)
    {
      if bufLen == 0 {
        return Returned([]);
      }
      var n := Min(count, bufLen);
      if !copyOk {
        return Fault;
      }
      r := Returned(buf[..n]);
      assert old(View()).queue[..n] == buf[..n];
      ShiftLeft(n);
      bufLen := bufLen - n;
      assert old(View()).queue[n..] == buf[..bufLen];
      AtomicCalls(old(View()), Op.Read(count), copyOk);
    }

    /** `chardev_write`; `copied` is how many bytes `copy_from_user` stored before it stopped, so
        a fault may leave part of the input beyond the live bytes. */
    method Write(bytes: seq<Byte>, copied: nat) returns (r: Result)
      requires Valid()
      modifies this`bufLen, buf
      ensures Valid()
      ensures var n := Min(|bytes|, 4096 - old(bufLen));
              (View(), r) == Serve(old(View()), Op.Write(bytes), copied >= n)
      ensures old(bufLen) == 4096 ==> buf[..bufLen] == old(buf[..bufLen]) && r == NoSpace
      ensures old(bufLen) < 4096 && copied < |bytes| && copied < 4096 - old(bufLen) ==>
                buf[..bufLen] == old(buf[..bufLen]) && r == Fault
      ensures old(bufLen) < 4096 && (copied >= |bytes| || copied >= 4096 - old(bufLen)) ==>
                && r.Accepted? && r.n <= |bytes| && buf[..bufLen] == old(buf[..bufLen]) + bytes[..r.n]
                && bufLen <= 4096 && (r.n < |bytes| ==> bufLen == 4096)
    {
      var space := BUF_SIZE - bufLen;
      if space == 0 {
        return NoSpace;
      }
      var n := Min(|bytes|, space);
      var k := 0;
      while k < Min(n, copied)
        invariant 0 <= k <= Min(n, copied)
        invariant buf[..bufLen] == old(buf[..bufLen])
        invariant buf[bufLen..bufLen + k] == bytes[..k]
        modifies buf
      {
        buf[bufLen + k] := bytes[k];
        k := k + 1;
      }
      if copied < n {
        return Fault;
      }
      bufLen := bufLen + n;
      r := Accepted(n);
      assert buf[..bufLen] == old(buf[..bufLen]) + bytes[..n];
    }

    /** `chardev_ioctl`; RESET also clears the whole array. */
    method Ioctl(op: Op, copyOk: bool) returns (r: Result)
      requires Valid() && !op.Read? && !op.Write?
      modifies this`bufLen, this`echo, buf
      ensures Valid()
      ensures (View(), r) == Serve(old(View()), op, copyOk)
      ensures match op
              case Reset => r == Zero && bufLen == 0 && echo == old(echo) && forall i :: 0 <= i < 4096 ==> buf[i] == 0
              case GetSize => View() == old(View()) && r == if copyOk then Size(bufLen) else Fault
              case SetEcho(val) =>
                && buf[..bufLen] == old(buf[..bufLen])
                && echo == (if copyOk then val else old(echo)) && r == if copyOk then Zero else Fault
              case OtherIoctl => View() == old(View()) && r == NotTty
    {
      match op
      case Reset =>
        bufLen := 0;
        for i := 0 to BUF_SIZE
          invariant forall k :: 0 <= k < i ==> buf[k] == 0
          modifies buf
        {
          buf[i] := 0;
        }
        r := Zero;
      case GetSize =>
        r := if copyOk then Size(bufLen) else Fault;
      case SetEcho(val) =>
        if !copyOk {
          return Fault;
        }
        echo := val;
        r := Zero;
      case OtherIoctl =>
        r := NotTty;
    }
  }

  // ---- Chunking ----

  /** What a write took, with a full device taking nothing. */
  function Taken(r: Result): nat { if r.Accepted? then r.n else 0 }

  /** Writing a and then b is writing a + b: same device, same number of bytes accepted, and
      -ENOSPC exactly when the first of them gets it. */
  lemma WritesJoin(d: Device, a: seq<Byte>, b: seq<Byte>)
    requires |d.queue| <= 4096
    ensures var (d1, r1) := Serve(d, Write(a), true);
            var (d2, r2) := Serve(d1, Write(b), true);
            var (d3, r3) := Serve(d, Write(a + b), true);
            && d2 == d3
            && Taken(r1) + Taken(r2) == Taken(r3)
            && (r3.NoSpace? <==> r1.NoSpace?)
            && (r2.NoSpace? <==> |d.queue| + |a| >= 4096)
  {
    var space := BUF_SIZE - |d.queue|;
    if space > 0 {
      var (d1, _) := Serve(d, Write(a), true);
      var (d2, _) := Serve(d1, Write(b), true);
      var (d3, _) := Serve(d, Write(a + b), true);
      assert d2.queue == d3.queue;
    }
  }

  /** Reading m and then n bytes is reading m + n: same bytes in the same order, same rest. */
  lemma ReadsJoin(d: Device, m: nat, n: nat)
    ensures var (d1, r1) := Serve(d, Read(m), true);
            var (d2, r2) := Serve(d1, Read(n), true);
            var (d3, r3) := Serve(d, Read(m + n), true);
            && d2 == d3 && r1.Returned? && r2.Returned? && r3 == Returned(r1.bytes + r2.bytes)
            && |r1.bytes| <= m && |r2.bytes| <= n && (|r3.bytes| < m + n ==> d3.queue == [])
  {
    var (d1, r1) := Serve(d, Read(m), true);
    var (d2, r2) := Serve(d1, Read(n), true);
    var (d3, r3) := Serve(d, Read(m + n), true);
    assert d2.queue == d3.queue && r3.bytes == r1.bytes + r2.bytes;
  }

  function Flat(chunks: seq<seq<Byte>>): seq<Byte> {
    if chunks == [] then [] else Flat(chunks[..|chunks| - 1]) + chunks[|chunks| - 1]
  }

  function Total(counts: seq<nat>): nat {
    if counts == [] then 0 else Total(counts[..|counts| - 1]) + counts[|counts| - 1]
  }

  /** A list of writes one after the other: the device left and the bytes taken in all. */
  function WriteAll(d: Device, chunks: seq<seq<Byte>>): (Device, nat) {
    if chunks == [] then (d, 0) else
      var (d1, n) := WriteAll(d, chunks[..|chunks| - 1]);
      var (d2, r) := Serve(d1, Write(chunks[|chunks| - 1]), true);
      (d2, n + Taken(r))
  }

  /** A list of reads one after the other: the device left and the bytes received in all. */
  function ReadAll(d: Device, counts: seq<nat>): (Device, seq<Byte>) {
    if counts == [] then (d, []) else
      var (d1, bytes) := ReadAll(d, counts[..|counts| - 1]);
      var (d2, r) := Serve(d1, Read(counts[|counts| - 1]), true);
      (d2, bytes + if r.Returned? then r.bytes else [])
  }

  /** However a byte string is cut into writes, the device takes the same bytes. */
  lemma {:induction false} WriteChunking(d: Device, chunks: seq<seq<Byte>>)
    requires |d.queue| <= 4096
    ensures var (d', r) := Serve(d, Write(Flat(chunks)), true);
            && WriteAll(d, chunks) == (d', Taken(r))
            && Taken(r) <= |Flat(chunks)| && d'.queue == d.queue + Flat(chunks)[..Taken(r)]
            && |d'.queue| <= 4096 && (Taken(r) < |Flat(chunks)| ==> |d'.queue| == 4096)
  {
    if chunks != [] {
      var front := chunks[..|chunks| - 1];
      WriteChunking(d, front);
      WritesJoin(d, Flat(front), chunks[|chunks| - 1]);
    } else {
      assert d.queue + [] == d.queue;
    }
  }

  lemma {:induction false} ReadsAddUp(d: Device, counts: seq<nat>)
    ensures var (d', r) := Serve(d, Read(Total(counts)), true);
            r.Returned? && ReadAll(d, counts) == (d', r.bytes)
  {
    if counts != [] {
      var front := counts[..|counts| - 1];
      ReadsAddUp(d, front);
      ReadsJoin(d, Total(front), counts[|counts| - 1]);
    }
  }

  lemma ReadTakesFront(d: Device, count: nat)
    ensures var (d', r) := Serve(d, Read(count), true);
            && r.Returned? && r.bytes + d'.queue == d.queue && |r.bytes| <= count
            && (|r.bytes| < count ==> d'.queue == [])
  {
    var (d', r) := Serve(d, Read(count), true);
    assert r.bytes + d'.queue == d.queue;
  }

  /** However a demand is cut into reads, the device gives the same bytes in the same order: its
      oldest ones, as many as were asked for or all there are. */
  lemma ReadChunking(d: Device, counts: seq<nat>)
    ensures var (d', r) := Serve(d, Read(Total(counts)), true);
            && r.Returned? && ReadAll(d, counts) == (d', r.bytes)
            && r.bytes + d'.queue == d.queue && |r.bytes| <= Total(counts)
            && (|r.bytes| < Total(counts) ==> d'.queue == [])
  {
    ReadsAddUp(d, counts);
    ReadTakesFront(d, Total(counts));
  }

  /** The same on the array: a client's loop of writes is one write, and its loop of reads, each with
      its own left shift, is one read. */
  method WriteLoop(dev: CharDev, chunks: seq<seq<Byte>>) returns (n: nat)
    requires dev.Valid()
    modifies dev, dev.buf
    ensures dev.Valid()
    ensures var (d', r) := Serve(old(dev.View()), Write(Flat(chunks)), true);
            dev.View() == d' && n == Taken(r)
    ensures n <= |Flat(chunks)| && dev.View().queue == old(dev.View()).queue + Flat(chunks)[..n]
    ensures n < |Flat(chunks)| ==> dev.bufLen == 4096
  {
    n := 0;
    ghost var d := dev.View();
    for i := 0 to |chunks|
      invariant dev.Valid() && (dev.View(), n) == WriteAll(d, chunks[..i])
    {
      var r := dev.Write(chunks[i], |chunks[i]|);
      n := n + Taken(r);
      assert chunks[..i + 1][..i] == chunks[..i];
    }
    assert chunks[..|chunks|] == chunks;
    WriteChunking(d, chunks);
  }

  method ReadLoop(dev: CharDev, counts: seq<nat>) returns (bytes: seq<Byte>)
    requires dev.Valid()
    modifies dev, dev.buf
    ensures dev.Valid()
    ensures (dev.View(), Returned(bytes)) == Serve(old(dev.View()), Read(Total(counts)), true)
    ensures bytes + dev.View().queue == old(dev.View()).queue
    ensures |bytes| <= Total(counts) && (|bytes| < Total(counts) ==> dev.bufLen == 0)
  {
    bytes := [];
    ghost var d := dev.View();
    for i := 0 to |counts|
      invariant dev.Valid() && (dev.View(), bytes) == ReadAll(d, counts[..i])
    {
      var r := dev.Read(counts[i], true);
      if r.Returned? {
        bytes := bytes + r.bytes;
      }
      assert counts[..i + 1][..i] == counts[..i];
    }
    assert counts[..|counts|] == counts;
    ReadChunking(d, counts);
  }

  // ---- Whole histories ----

  datatype Entry = Entry(caller: nat, op: Op, ok: bool, res: Result)

  /** The device after a history of atomic calls, starting empty with echo on. */
  function Replay(log: seq<Entry>): Device {
    if log == [] then Device([], 1)
    else Serve(Replay(log[..|log| - 1]), log[|log| - 1].op, log[|log| - 1].ok).0
  }

  /** Every recorded result is the one the atomic device gives at that point. */
  predicate Legal(log: seq<Entry>) {
    forall k :: 0 <= k < |log| ==> log[k].res == Serve(Replay(log[..k]), log[k].op, log[k].ok).1
  }

  /** The bytes one call adds to what the device accepted, and to what it returned. */
  function In(e: Entry): seq<Byte> {
    if e.op.Write? && e.res.Accepted? && e.res.n <= |e.op.bytes| then e.op.bytes[..e.res.n] else []
  }
  function Out(e: Entry): seq<Byte> { if e.op.Read? && e.res.Returned? then e.res.bytes else [] }

  /** The bytes a history accepted, and returned, since its last RESET. */
  function AcceptedBytes(log: seq<Entry>): seq<Byte> {
    if log == [] then [] else
      var e := log[|log| - 1];
      if e.op.Reset? then [] else AcceptedBytes(log[..|log| - 1]) + In(e)
  }

  function ReturnedBytes(log: seq<Entry>): seq<Byte> {
    if log == [] then [] else
      var e := log[|log| - 1];
      if e.op.Reset? then [] else ReturnedBytes(log[..|log| - 1]) + Out(e)
  }

  /** The value the last successful SECHO of a history set, one if there was none. */
  function LastEcho(log: seq<Entry>): int {
    if log == [] then 1 else
      var e := log[|log| - 1];
      if e.op.SetEcho? && e.res == Zero then e.op.val else LastEcho(log[..|log| - 1])
  }

  lemma ServeBalance(d: Device, e: Entry)
    requires |d.queue| <= 4096 && e.res == Serve(d, e.op, e.ok).1 && !e.op.Reset?
    ensures var d' := Serve(d, e.op, e.ok).0;
            d.queue + In(e) == Out(e) + d'.queue && |d'.queue| <= BUF_SIZE
  {
  }

  lemma LegalUpTo(log: seq<Entry>, k: nat)
    requires Legal(log) && k <= |log|
    ensures Legal(log[..k])
  {
    forall j | 0 <= j < k ensures log[..k][j].res == Serve(Replay(log[..k][..j]), log[..k][j].op, log[..k][j].ok).1 {
      assert log[..k][..j] == log[..j];
    }
  }

  lemma ServeEcho(d: Device, e: Entry)
    requires e.res == Serve(d, e.op, e.ok).1
    ensures Serve(d, e.op, e.ok).0.echo == if e.op.SetEcho? && e.res == Zero then e.op.val else d.echo
  {
  }

  lemma {:induction false} EchoIsLast(log: seq<Entry>)
    requires Legal(log)
    ensures Replay(log).echo == LastEcho(log)
  {
    if log != [] {
      var prev, e := log[..|log| - 1], log[|log| - 1];
      LegalUpTo(log, |log| - 1);
      EchoIsLast(prev);
      ServeEcho(Replay(prev), e);
    }
  }

  lemma {:induction false} BytesBalance(log: seq<Entry>)
    requires Legal(log)
    ensures AcceptedBytes(log) == ReturnedBytes(log) + Replay(log).queue && |Replay(log).queue| <= BUF_SIZE
  {
    if log != [] {
      var prev, e := log[..|log| - 1], log[|log| - 1];
      LegalUpTo(log, |log| - 1);
      BytesBalance(prev);
      if !e.op.Reset? {
        ServeBalance(Replay(prev), e);
        Rejoin(AcceptedBytes(prev), ReturnedBytes(prev), Replay(prev).queue, In(e), Out(e), Replay(log).queue);
      }
    }
  }

  /** Nothing is lost, invented or reordered: what came in since the last RESET is what went out
      since then, followed by what the device still holds, never more than 4096 bytes; and `echo` is
      what the last successful SECHO set. */
  lemma Conservation(log: seq<Entry>)
    requires Legal(log)
    ensures AcceptedBytes(log) == ReturnedBytes(log) + Replay(log).queue
    ensures |Replay(log).queue| <= 4096
    ensures Replay(log).echo == LastEcho(log)
  {
    BytesBalance(log);
    EchoIsLast(log);
  }

  lemma Rejoin(acc: seq<Byte>, ret: seq<Byte>, q: seq<Byte>, i: seq<Byte>, o: seq<Byte>, q': seq<Byte>)
    requires acc == ret + q && q + i == o + q'
    ensures acc + i == (ret + o) + q'
  {
    assert acc + i == ret + (q + i) == ret + (o + q');
  }
}
