/** The event loop of 07_networking/tcp_server.c, as far as descriptors go: a batch of events is a
    snapshot, and while it is worked off descriptors are closed and their numbers handed out again
    by `accept4`. */
module EpollServer {
  import opened StepSystem

  const MAX_EVENTS := 64

  /** One reported event: the number in `data.fd`, whether it has HUP, RDHUP or ERR, and the
      connection the kernel means by it, which the program never sees. */
  datatype Event = Event(fd: nat, hup: bool, conn: nat)

  /** What was done for an event: the connection the number stood for at that moment, if any. */
  datatype Handled = Handled(e: Event, actual: Option<nat>)

  /** `open` maps client descriptors to connections and `interest` what epoll watches besides the
      listening socket; `unwatched` are the descriptors whose `EPOLL_CTL_ADD` failed. */
  datatype State = State(sfd: nat, reserved: set<nat>, open: map<nat, nat>, interest: map<nat, nat>,
                         unwatched: set<nat>, conns: nat, batch: seq<Event>, idx: nat, handled: seq<Handled>)

  /** A pass of the loop, with the kernel's answers: the reported batch, `accept4`'s descriptor and
      whether the unchecked ADD took, `recv`'s return value. */
  datatype Label =
    | Wait(batch: seq<Event>)
    | Accept(answer: Option<nat>, added: bool)
    | HangUp
    | Receive(n: int)

  /** epoll reports at most 64 watched descriptors, each at most once. */
  predicate LegalBatch(s: State, batch: seq<Event>) {
    && |batch| <= MAX_EVENTS
    && (forall i, j :: 0 <= i < j < |batch| ==> batch[i].fd != batch[j].fd)
    && forall i :: 0 <= i < |batch| && batch[i].fd != s.sfd ==> Watched(s, batch[i])
  }

  predicate Watched(s: State, e: Event) { e.fd in s.interest && s.interest[e.fd] == e.conn }

  predicate Enabled(s: State, l: Label) {
    if s.idx >= |s.batch| then l.Wait? && LegalBatch(s, l.batch) else
      var e := s.batch[s.idx];
      match l
      case Wait(_) => false
      case Accept(answer, _) =>
        e.fd == s.sfd && (answer.Some? ==> answer.value !in s.open && answer.value !in s.reserved)
      case HangUp => e.fd != s.sfd && e.hup
      case Receive(_) => e.fd != s.sfd && !e.hup
  }

  function Lookup(open: map<nat, nat>, fd: nat): Option<nat> { if fd in open then Some(open[fd]) else None }

  /** `epoll_ctl(DEL)` and `close`, and the loop goes on to the next event. */
  function Close(s: State, fd: nat): State { s.(open := s.open - {fd}, interest := s.interest - {fd}) }

  function Touch(s: State): State
    requires s.idx < |s.batch|
  {
    var e := s.batch[s.idx];
    s.(idx := s.idx + 1, handled := s.handled + [Handled(e, Lookup(s.open, e.fd))])
  }

  function Apply(s: State, l: Label): State
    requires Enabled(s, l)
  {
    match l
    case Wait(batch) => s.(batch := batch, idx := 0)
    case Accept(None, _) => s.(idx := s.idx + 1)
    case Accept(Some(fd), added) =>
      s.(idx := s.idx + 1, conns := s.conns + 1, open := s.open[fd := s.conns],
         interest := if added then s.interest[fd := s.conns] else s.interest,
         unwatched := if added then s.unwatched else s.unwatched + {fd})
    case HangUp => Close(Touch(s), s.batch[s.idx].fd)
    case Receive(n) => if n <= 0 then Close(Touch(s), s.batch[s.idx].fd) else Touch(s)
  }

  function Next(s: State, l: Label): Option<State> {
    if Enabled(s, l) then Some(Apply(s, l)) else None
  }

  predicate Init(s: State) {
    && s.sfd in s.reserved && s.open == map[] && s.interest == map[] && s.unwatched == {}
    && s.batch == [] && s.idx == 0 && s.handled == []
  }

  /** epoll watches exactly the open clients whose ADD took, each for its current connection. */
  predicate InterestInv(s: State) {
    && s.sfd in s.reserved
    && (forall fd | fd in s.open :: fd !in s.reserved)
    && s.open.Keys == s.interest.Keys + s.unwatched && s.interest.Keys !! s.unwatched
    && forall fd | fd in s.interest && fd in s.open :: s.interest[fd] == s.open[fd]
  }

  /** The rest of the batch still speaks of the connections it was reported for. */
  predicate PendingInv(s: State) {
    && s.idx <= |s.batch|
    && (forall i, j :: 0 <= i < j < |s.batch| ==> s.batch[i].fd != s.batch[j].fd)
    && forall i :: s.idx <= i < |s.batch| && s.batch[i].fd != s.sfd ==> Watched(s, s.batch[i])
  }

  predicate HandledInv(s: State) {
    forall k :: 0 <= k < |s.handled| ==> s.handled[k].actual == Some(s.handled[k].e.conn)
  }

  /** A connection's number is its own: all that were ever seen are below the next to be given. */
  predicate FreshInv(s: State) {
    && (forall fd | fd in s.open :: s.open[fd] < s.conns)
    && (forall f, g | f in s.open && g in s.open && f != g :: s.open[f] != s.open[g])
    && forall k :: 0 <= k < |s.handled| ==> s.handled[k].e.conn < s.conns
  }

  predicate Inv(s: State) { InterestInv(s) && PendingInv(s) && HandledInv(s) && FreshInv(s) }

  lemma StepInterest(s: State, l: Label)
    requires InterestInv(s) && PendingInv(s) && Enabled(s, l)
    ensures InterestInv(Apply(s, l))
  {
    if !l.Wait? && !l.Accept? {
      assert Watched(s, s.batch[s.idx]);
    }
  }

  lemma StepPending(s: State, l: Label)
    requires InterestInv(s) && PendingInv(s) && Enabled(s, l)
    ensures PendingInv(Apply(s, l))
  {
    var s' := Apply(s, l);
    if !l.Wait? {
      forall i | s'.idx <= i < |s'.batch| && s'.batch[i].fd != s'.sfd ensures Watched(s', s'.batch[i]) {
        assert Watched(s, s.batch[i]);
      }
    }
  }

  lemma StepHandled(s: State, l: Label)
    requires Inv(s) && Enabled(s, l)
    ensures HandledInv(Apply(s, l))
  {
    if !l.Wait? && !l.Accept? {
      assert Watched(s, s.batch[s.idx]);
    }
  }

  lemma StepFresh(s: State, l: Label)
    requires InterestInv(s) && PendingInv(s) && FreshInv(s) && Enabled(s, l)
    ensures FreshInv(Apply(s, l))
  {
    if !l.Wait? && !l.Accept? {
      assert Watched(s, s.batch[s.idx]) && s.batch[s.idx].fd in s.open;
    }
  }

  lemma RunHolds(s: State, sched: seq<Label>)
    requires Inv(s) && Runs(Next, s, sched)
    ensures Inv(After(Next, s, sched))
  {
    forall a: State, l: Label | Inv(a) && Next(a, l).Some? ensures Inv(Next(a, l).value) {
      StepInterest(a, l);
      StepPending(a, l);
      StepHandled(a, l);
      StepFresh(a, l);
    }
    Invariance(Next, Inv, s, sched);
  }

  /** Every event handled, in any batch of any run, concerned the very connection it was reported
      for, even where its number was closed and reused while the batch was worked off. */
  lemma EventsHitTheirConnection(s0: State, sched: seq<Label>)
    requires Init(s0) && Runs(Next, s0, sched)
    ensures var s := After(Next, s0, sched);
            && (forall k :: 0 <= k < |s.handled| ==> s.handled[k].actual == Some(s.handled[k].e.conn))
            && (forall i :: s.idx <= i < |s.batch| && s.batch[i].fd != s.sfd ==>
                  Lookup(s.open, s.batch[i].fd) == Some(s.batch[i].conn))
            && (forall f, g | f in s.open && g in s.open && f != g :: s.open[f] != s.open[g])
            && (forall fd | fd in s.open :: s.open[fd] < s.conns)
            && (forall k :: 0 <= k < |s.handled| ==> s.handled[k].e.conn < s.conns)
  {
    RunHolds(s0, sched);
    var s := After(Next, s0, sched);
    forall i | s.idx <= i < |s.batch| && s.batch[i].fd != s.sfd
      ensures Lookup(s.open, s.batch[i].fd) == Some(s.batch[i].conn)
    {
      assert Watched(s, s.batch[i]);
    }
  }

  predicate AddFailed(l: Label) { l.Accept? && l.answer.Some? && !l.added }

  predicate AllAdded(sched: seq<Label>) { forall k :: 0 <= k < |sched| ==> !AddFailed(sched[k]) }

  lemma {:induction false} UnwatchedCameFromFailures(s: State, sched: seq<Label>)
    requires Runs(Next, s, sched)
    ensures s.unwatched <= After(Next, s, sched).unwatched
    ensures After(Next, s, sched).unwatched == {} <==> s.unwatched == {} && AllAdded(sched)
    ensures forall k :: 0 <= k < |sched| && AddFailed(sched[k]) ==>
              sched[k].answer.value in After(Next, s, sched).unwatched
    decreases |sched|
  {
    if sched != [] {
      UnwatchedCameFromFailures(Apply(s, sched[0]), sched[1..]);
      assert forall k :: 1 <= k < |sched| ==> sched[k] == sched[1..][k - 1];
      assert AllAdded(sched) <==> !AddFailed(sched[0]) && AllAdded(sched[1..]);
    }
  }

  /** epoll watches every open client exactly in the runs where no ADD failed; a client whose ADD
      failed stays open and unwatched for good. */
  lemma WatchesAllClients(s0: State, sched: seq<Label>)
    requires Init(s0) && Runs(Next, s0, sched)
    ensures var s := After(Next, s0, sched);
            && (s.interest.Keys == s.open.Keys <==> AllAdded(sched))
            && s.interest.Keys <= s.open.Keys && s.unwatched == s.open.Keys - s.interest.Keys
            && (forall k :: 0 <= k < |sched| && AddFailed(sched[k]) ==>
                  sched[k].answer.value in s.open && sched[k].answer.value !in s.interest)
            && forall fd | fd in s.interest && fd in s.open :: s.interest[fd] == s.open[fd]
  {
    RunHolds(s0, sched);
    UnwatchedCameFromFailures(s0, sched);
    var s := After(Next, s0, sched);
    forall k | 0 <= k < |sched| && AddFailed(sched[k])
      ensures sched[k].answer.value in s.open && sched[k].answer.value !in s.interest
    {
      assert sched[k].answer.value in s.unwatched && s.unwatched <= s.open.Keys;
    }
  }

  /** A run in which the interest set falls short: one connection, accepted but not added. */
  lemma AddFailureLosesAClient(s0: State, fd: nat) returns (sched: seq<Label>)
    requires Init(s0) && fd !in s0.reserved
    ensures Runs(Next, s0, sched) && sched == [Wait([Event(s0.sfd, false, 0)]), Accept(Some(fd), false)]
    ensures var s := After(Next, s0, sched);
            fd in s.open && fd !in s.interest && s.interest.Keys != s.open.Keys
  {
    var wait, accept := Wait([Event(s0.sfd, false, 0)]), Accept(Some(fd), false);
    assert Runs(Next, s0, []);
    Extend(Next, s0, [], wait);
    assert [] + [wait] == [wait];
    Extend(Next, s0, [wait], accept);
    sched := [wait] + [accept];
    WatchesAllClients(s0, sched);
    assert AddFailed(sched[1]);
  }

  // ---- Which clients are open ----

  /** The batch in hand and the place reached in it, going by the passes alone. */
  function Current(sched: seq<Label>): (seq<Event>, nat) {
    if sched == [] then ([], 0) else
      var last := sched[|sched| - 1];
      var (batch, idx) := Current(sched[..|sched| - 1]);
      if last.Wait? then (last.batch, 0) else (batch, idx + 1)
  }

  /** Pass j works on an event reported for client number fd. */
  predicate About(sched: seq<Label>, j: nat, fd: nat)
    requires j < |sched|
  {
    var (batch, idx) := Current(sched[..j]);
    (sched[j].HangUp? || sched[j].Receive?) && idx < |batch| && batch[idx].fd == fd
  }

  /** Pass j, if it concerns fd, finds no hang-up and receives at least one byte. */
  predicate Spared(sched: seq<Label>, j: nat, fd: nat)
    requires j < |sched|
  {
    About(sched, j, fd) ==>
      var (batch, idx) := Current(sched[..j]);
      !batch[idx].hup && sched[j].Receive? && sched[j].n > 0
  }

  /** Among the first m passes one accepted fd, and every later one spared it. */
  predicate Kept(sched: seq<Label>, m: nat, fd: nat)
    requires m <= |sched|
  {
    exists k :: 0 <= k < m && sched[k].Accept? && sched[k].answer == Some(fd)
                && forall j :: k < j < m ==> Spared(sched, j, fd)
  }

  lemma KeptStep(sched: seq<Label>, m: nat, fd: nat)
    requires m < |sched|
    ensures Kept(sched, m + 1, fd) <==>
            (sched[m].Accept? && sched[m].answer == Some(fd)) || (Kept(sched, m, fd) && Spared(sched, m, fd))
  {
    if Kept(sched, m, fd) && Spared(sched, m, fd) {
      var k :| 0 <= k < m && sched[k].Accept? && sched[k].answer == Some(fd)
               && forall j :: k < j < m ==> Spared(sched, j, fd);
      assert forall j :: k < j < m + 1 ==> Spared(sched, j, fd);
    }
  }

  lemma {:induction false} InHand(s0: State, sched: seq<Label>, m: nat)
    requires Init(s0) && Runs(Next, s0, sched) && m <= |sched|
    ensures Runs(Next, s0, sched[..m])
    ensures var s := After(Next, s0, sched[..m]); Current(sched[..m]) == (s.batch, s.idx)
  {
    if m > 0 {
      InHand(s0, sched, m - 1);
      PrefixStep(s0, sched, m - 1);
      assert sched[..m][..m - 1] == sched[..m - 1];
    }
  }

  /** One pass: a number is open afterwards if it was just accepted, or was open and this event, if
      it was reported for it, was no hang-up and brought at least one byte. */
  lemma OpenStep(s: State, l: Label, fd: nat)
    requires Enabled(s, l)
    ensures fd in Apply(s, l).open <==>
            || (l.Accept? && l.answer == Some(fd))
            || (fd in s.open && ((l.HangUp? || l.Receive?) && s.batch[s.idx].fd == fd ==>
                                   !s.batch[s.idx].hup && l.Receive? && l.n > 0))
  {
  }

  lemma {:induction false} OpenIffKept(s0: State, sched: seq<Label>, m: nat, fd: nat)
    requires Init(s0) && Runs(Next, s0, sched) && m <= |sched|
    ensures Runs(Next, s0, sched[..m])
    ensures fd in After(Next, s0, sched[..m]).open <==> Kept(sched, m, fd)
  {
    if m > 0 {
      OpenIffKept(s0, sched, m - 1, fd);
      InHand(s0, sched, m - 1);
      PrefixStep(s0, sched, m - 1);
      KeptStep(sched, m - 1, fd);
      OpenStep(After(Next, s0, sched[..m - 1]), sched[m - 1], fd);
    }
  }

  /** After every run the open clients are exactly those that were accepted and since then neither
      hung up nor gave `recv` a result of zero or less. */
  lemma OpenClients(s0: State, sched: seq<Label>, fd: nat)
    requires Init(s0) && Runs(Next, s0, sched)
    ensures fd in After(Next, s0, sched).open <==>
            exists k :: 0 <= k < |sched| && sched[k].Accept? && sched[k].answer == Some(fd)
                        && forall j :: k < j < |sched| ==> Spared(sched, j, fd)
  {
    OpenIffKept(s0, sched, |sched|, fd);
    assert sched[..|sched|] == sched;
  }

  /** The client events a schedule worked on, in order. */
  function Worked(sched: seq<Label>): seq<Event> {
    if sched == [] then [] else
      var front, last := sched[..|sched| - 1], sched[|sched| - 1];
      var (batch, idx) := Current(front);
      Worked(front) + if (last.HangUp? || last.Receive?) && idx < |batch| then [batch[idx]] else []
  }

  function EventsOf(handled: seq<Handled>): (es: seq<Event>)
    ensures |es| == |handled|
  {
    seq(|handled|, k requires 0 <= k < |handled| => handled[k].e)
  }

  /** No reported client event is skipped, repeated or taken out of order. */
  lemma {:induction false} EveryEventHandled(s0: State, sched: seq<Label>, m: nat)
    requires Init(s0) && Runs(Next, s0, sched) && m <= |sched|
    ensures Runs(Next, s0, sched[..m])
    ensures EventsOf(After(Next, s0, sched[..m]).handled) == Worked(sched[..m])
  {
    if m > 0 {
      EveryEventHandled(s0, sched, m - 1);
      InHand(s0, sched, m - 1);
      PrefixStep(s0, sched, m - 1);
      assert sched[..m][..m - 1] == sched[..m - 1];
      TouchRecords(After(Next, s0, sched[..m - 1]), sched[m - 1]);
    }
  }

  lemma TouchRecords(s: State, l: Label)
    requires Enabled(s, l)
    ensures EventsOf(Apply(s, l).handled)
         == EventsOf(s.handled) + if l.HangUp? || l.Receive? then [s.batch[s.idx]] else []
  {
  }

  // ---- The loop itself ----

  /** The kernel's answer to whichever call an event leads to. */
  datatype Answer = Answer(accepted: Option<nat>, added: bool, received: int)

  /** The branch the loop body takes. */
  function Branch(sfd: nat, e: Event, a: Answer): Label {
    if e.fd == sfd then Accept(a.accepted, a.added) else if e.hup then HangUp else Receive(a.received)
  }

  function Branches(sfd: nat, events: seq<Event>, answers: seq<Answer>): (ls: seq<Label>)
    requires |answers| == |events|
    ensures |ls| == |events|
  {
    seq(|events|, i requires 0 <= i < |events| => Branch(sfd, events[i], answers[i]))
  }

  /** Among the first m events of a batch, those reported for client fd from event k on left it open. */
  predicate LeftOpen(events: seq<Event>, answers: seq<Answer>, k: nat, m: nat, fd: nat)
    requires m <= |events| == |answers|
  {
    forall j :: k <= j < m && events[j].fd == fd ==> !events[j].hup && answers[j].received > 0
  }

  /** Client fd after m events: open before and left so, or accepted on the way and left so. */
  predicate OpenAfter(sfd: nat, was: bool, events: seq<Event>, answers: seq<Answer>, m: nat, fd: nat)
    requires m <= |events| == |answers|
  {
    || (was && LeftOpen(events, answers, 0, m, fd))
    || exists k :: 0 <= k < m && events[k].fd == sfd && answers[k].accepted == Some(fd)
                   && LeftOpen(events, answers, k + 1, m, fd)
  }

  lemma OpenAfterStep(sfd: nat, was: bool, events: seq<Event>, answers: seq<Answer>, m: nat, fd: nat)
    requires m < |events| == |answers| && fd != sfd
    ensures OpenAfter(sfd, was, events, answers, m + 1, fd) <==>
            || (events[m].fd == sfd && answers[m].accepted == Some(fd))
            || (OpenAfter(sfd, was, events, answers, m, fd)
                && (events[m].fd == fd ==> !events[m].hup && answers[m].received > 0))
  {
    if events[m].fd == sfd && answers[m].accepted == Some(fd) {
      assert LeftOpen(events, answers, m + 1, m + 1, fd);
    }
    if k :| 0 <= k < m && events[k].fd == sfd && answers[k].accepted == Some(fd)
            && LeftOpen(events, answers, k + 1, m, fd) && !(events[m].fd == fd && (events[m].hup || answers[m].received <= 0))
    {
      assert LeftOpen(events, answers, k + 1, m + 1, fd);
    }
  }

  class Server {
    const sfd: nat
    var open: map<nat, nat>
    var interest: map<nat, nat>
    var unwatched: set<nat>
    var conns: nat
    var handled: seq<Handled>
    ghost const reserved: set<nat>

    ghost function View(batch: seq<Event>, idx: nat): State reads this {
      State(sfd, reserved, open, interest, unwatched, conns, batch, idx, handled)
    }

    constructor (sfd: nat, ghost reserved: set<nat>)
      requires sfd in reserved
      ensures Init(View([], 0)) && this.sfd == sfd
    {
      this.sfd, this.reserved := sfd, reserved;
      open, interest, unwatched, conns, handled := map[], map[], {}, 0, [];
    }

    /** `handle_new_connection`. */
    method HandleNewConnection(answer: Option<nat>, added: bool)
      modifies this
      ensures handled == old(handled)
      ensures match answer
              case None => open == old(open) && interest == old(interest) && unwatched == old(unwatched) && conns == old(conns)
              case Some(fd) =>
                && conns == old(conns) + 1 && open == old(open)[fd := old(conns)]
                && interest == (if added then old(interest)[fd := old(conns)] else old(interest))
                && unwatched == (if added then old(unwatched) else old(unwatched) + {fd})
    {
      if answer.None? {
        return;
      }
      var fd := answer.value;
      open := open[fd := conns];
      if added {
        interest := interest[fd := conns];
      } else {
        unwatched := unwatched + {fd};
      }
      conns := conns + 1;
    }

    method CloseClient(fd: nat)
      modifies this`open, this`interest
      ensures open == old(open) - {fd} && interest == old(interest) - {fd}
    {
      interest := interest - {fd};
      open := open - {fd};
    }

    /** One turn of the `for` loop. */
    method HandleEvent(ghost batch: seq<Event>, ghost i: nat, e: Event, a: Answer)
      requires i < |batch| && batch[i] == e
      requires Enabled(View(batch, i), Branch(sfd, e, a))
      modifies this
      ensures View(batch, i + 1) == Apply(old(View(batch, i)), Branch(sfd, e, a))
      ensures e.fd != sfd && e.fd in old(open) ==> (e.fd in open <==> !e.hup && a.received > 0)
      ensures e.fd != sfd ==> open - {e.fd} == old(open) - {e.fd} && interest - {e.fd} == old(interest) - {e.fd}
      ensures e.fd != sfd && !e.hup && a.received > 0 ==> open == old(open) && interest == old(interest)
      ensures e.fd != sfd && (e.hup || a.received <= 0) ==> e.fd !in open && e.fd !in interest
      ensures handled == old(handled) + if e.fd == sfd then [] else [Handled(e, Lookup(old(open), e.fd))]
      ensures e.fd == sfd ==>
                match a.accepted
                case None => open == old(open) && interest == old(interest)
                case Some(fd) =>
                  && open == old(open)[fd := old(conns)]
                  && interest == if a.added then old(interest)[fd := old(conns)] else old(interest)
    {
      if e.fd == sfd {
        HandleNewConnection(a.accepted, a.added);
      } else {
        handled := handled + [Handled(e, Lookup(open, e.fd))];
        if e.hup || a.received <= 0 {
          CloseClient(e.fd);
        }
      }
    }

    /** One turn of the `while` loop: `epoll_wait` and then the whole batch, whatever the kernel
        answers along the way. */
    method ServeBatch(events: seq<Event>, answers: seq<Answer>)
      requires |answers| == |events|
      requires Runs(Next, View([], 0), [Wait(events)] + Branches(sfd, events, answers))
      modifies this
      ensures View(events, |events|)
           == After(Next, old(View([], 0)), [Wait(events)] + Branches(sfd, events, answers))
      ensures old(Inv(View([], 0))) ==> Inv(View(events, |events|))
      ensures forall fd | fd != sfd :: fd in open <==> OpenAfter(sfd, fd in old(open), events, answers, |events|, fd)
    {
      ghost var all := [Wait(events)] + Branches(sfd, events, answers);
      ghost var s0 := View([], 0);
      PrefixStep(s0, all, 0);
      for i := 0 to |events|
        invariant Runs(Next, s0, all[..i + 1])
        invariant View(events, i) == After(Next, s0, all[..i + 1])
        invariant forall fd | fd != sfd :: fd in open <==> OpenAfter(sfd, fd in old(open), events, answers, i, fd)
      {
        forall fd | fd != sfd
          ensures OpenAfter(sfd, fd in old(open), events, answers, i + 1, fd) <==>
                  || (events[i].fd == sfd && answers[i].accepted == Some(fd))
                  || (fd in open && (events[i].fd == fd ==> !events[i].hup && answers[i].received > 0))
        {
          OpenAfterStep(sfd, fd in old(open), events, answers, i, fd);
        }
        PrefixStep(s0, all, i + 1);
        HandleEvent(events, i, events[i], answers[i]);
      }
      assert all[..|events| + 1] == all;
      if Inv(s0) {
        RunHolds(s0, all);
      }
    }
  }

  /** Each step of a run is enabled where the run has got to, and takes it one further. */
  lemma PrefixStep(s: State, sched: seq<Label>, k: nat)
    requires Runs(Next, s, sched) && k < |sched|
    ensures Runs(Next, s, sched[..k]) && Enabled(After(Next, s, sched[..k]), sched[k])
    ensures Runs(Next, s, sched[..k + 1])
    ensures After(Next, s, sched[..k + 1]) == Apply(After(Next, s, sched[..k]), sched[k])
  {
    Cut(s, sched, k);
    assert sched[..k + 1] == sched[..k] + [sched[k]];
    Extend(Next, s, sched[..k], sched[k]);
  }

  /** A prefix of a run is a run, and its next step is enabled. */
  lemma {:induction false} Cut(s: State, sched: seq<Label>, k: nat)
    requires Runs(Next, s, sched) && k <= |sched|
    ensures Runs(Next, s, sched[..k])
    ensures k < |sched| ==> Enabled(After(Next, s, sched[..k]), sched[k])
    decreases |sched|
  {
    if k > 0 {
      Cut(Apply(s, sched[0]), sched[1..], k - 1);
      assert sched[..k][1..] == sched[1..][..k - 1];
    }
  }
}
