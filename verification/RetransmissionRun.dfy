/**
 Runs of the retransmission buffer: packets are sent, acknowledged and retransmitted in
 any order.
 */
module RetransmissionRun {
  import opened Basics
  import opened Bits
  import opened PacketNumber
  import opened AckFrames
  import opened AckWalk
  import opened PriorityQueue
  import opened Retransmission
  import opened AckRemoval
  import opened Backoff

  /** A packet in `SendOnly` has nothing that would be retransmitted: it is not listed, but takes a number. */
  datatype Event =
    | Send(pktLen: nat, unprotected: bool, at: nat)
    | SendOnly
    | Acknowledge(ack: Ack, byUnprotected: bool)
    | Timer(ts: nat, outcome: nat -> Outcome)

  /** Whether the connection goes on, or what ended it. */
  datatype Ending = Going | BadAck | TimedOut | CannotWrite

  /** The packets in flight, the next packet number, and the largest number acknowledged so far. */
  datatype Flight = Flight(info: seq<Info>, next: nat, top: nat)

  // ----- one event -----

  ghost predicate Acknowledged(s: Flight, ack: Ack, unprotected: bool, s': Flight) {
    var j := Job(s.info, ack, unprotected, s.top);
    && s'.next == s.next && Left(s'.info, j) && Topped(s'.info, s'.top, j)
    && (Descending(s.info) ==>
          s'.info == Kept(s.info, ack, unprotected) && s'.top == TopOf(s.info, ack, unprotected, s.top))
    && (Blocked(s.info, ack) ==> s'.info == s.info)
  }

  function EndOf(status: Status): Ending {
    if status == Timeout then TimedOut else if status == Error then CannotWrite else Going
  }

  ghost predicate LeadsTo(s: Flight, e: Event, end: Ending, s': Flight) {
    match e
    case Send(pktLen, unprotected, at) =>
      end == Going && s' == Flight([FirstSent(s.next, pktLen, unprotected, at)] + s.info, s.next + 1, s.top)
    case SendOnly =>
      end == Going && s' == s.(next := s.next + 1)
    case Acknowledge(ack, unprotected) =>
      if ValidAck(ack) then end == Going && Acknowledged(s, ack, unprotected, s') else end == BadAck && s' == s
    case Timer(ts, outcome) =>
      exists at, status :: Fired(s, ts, outcome, at, status, end, s')
  }

  ghost predicate Fired(s: Flight, ts: nat, outcome: nat -> Outcome, at: seq<nat>, status: Status, end: Ending, s': Flight) {
    && Retransmitted(s.info, ts, s.next, outcome, at, status, s'.info)
    && s'.next == NextNumber(s.next, status) && s'.top == s.top && end == EndOf(status)
  }

  lemma LeftSound(s: seq<Info>, j: Job, next: nat)
    requires Sound(j.orig, next) && Left(s, j)
    ensures Sound(s, next)
  {
    forall i | 0 <= i < |s| ensures Timed(s[i]) && s[i].pktNum < next {
      assert s[i] in Infos(j.orig);
      var k :| 0 <= k < |j.orig| && j.orig[k] == s[i];
    }
  }

  /** No packet is retransmitted more than twice, and no number is used twice. */
  lemma StepSound(s: Flight, e: Event, end: Ending, s': Flight)
    requires Sound(s.info, s.next) && LeadsTo(s, e, end, s')
    ensures Sound(s'.info, s'.next) && s.next <= s'.next
  {
    match e
    case Send(pktLen, unprotected, at) =>
      FreshTimed(s.next, pktLen, unprotected, at);
    case SendOnly =>
    case Acknowledge(ack, unprotected) =>
      if ValidAck(ack) { LeftSound(s'.info, Job(s.info, ack, unprotected, s.top), s.next); }
    case Timer(ts, outcome) =>
      var at, status :| Fired(s, ts, outcome, at, status, end, s');
      RetransmittedSound(s.info, ts, s.next, outcome, at, status, s'.info);
  }

  /** No packet is sent in part or moved for lack of room. */
  ghost predicate Orderly(e: Event) {
    e.Timer? ==> forall k {:trigger e.outcome(k)} :: !e.outcome(k).Partial? && !e.outcome(k).Full?
  }

  lemma StepOrder(s: Flight, e: Event, end: Ending, s': Flight)
    requires Sound(s.info, s.next) && LeadsTo(s, e, end, s') && Descending(s.info) && Orderly(e)
    ensures Descending(s'.info)
  {
    match e
    case Send(pktLen, unprotected, at) =>
    case SendOnly =>
    case Acknowledge(ack, unprotected) =>
      KeptDescending(s.info, ack, unprotected);
    case Timer(ts, outcome) =>
      var at, status :| Fired(s, ts, outcome, at, status, end, s');
      OrderKept(s.info, ts, s.next, outcome, at, status, s'.info);
      if status != Idle {
        var i := Handling(s.info, ts, s.next, outcome, at, status, s'.info);
        assert !e.outcome(|at|).Partial?;
      }
  }

  /** The entry stems from the list before, or its packet was just sent. */
  ghost predicate Origin(s: Flight, e: Event, x: Info, x': Info) {
    Stems(x, x') && (x in s.info || (e.Send? && x == FirstSent(s.next, e.pktLen, e.unprotected, e.at)))
  }

  lemma StepOrigin(s: Flight, e: Event, end: Ending, s': Flight, x': Info) returns (x: Info)
    requires Sound(s.info, s.next) && LeadsTo(s, e, end, s') && x' in s'.info
    ensures Origin(s, e, x, x')
  {
    x := x';
    match e
    case Send(pktLen, unprotected, at) =>
    case SendOnly =>
    case Acknowledge(ack, unprotected) =>
      assert x in Infos(s'.info);
    case Timer(ts, outcome) =>
      var at, status :| Fired(s, ts, outcome, at, status, end, s');
      x := RetransmittedStems(s.info, ts, s.next, outcome, at, status, s'.info, x');
  }

  /** The event may take the packet off the list. */
  ghost predicate MayTake(e: Event, x: Info) {
    match e
    case Send(_, _, _) => false
    case SendOnly => false
    case Acknowledge(ack, unprotected) => ValidAck(ack) && Taken(x, ack, unprotected)
    case Timer(ts, _) => x.expiry <= ts
  }

  /** A packet that was neither acknowledged nor has expired is still in flight. */
  lemma StepHolds(s: Flight, e: Event, end: Ending, s': Flight, x: Info)
    requires LeadsTo(s, e, end, s') && x in s.info && !MayTake(e, x)
    ensures x in s'.info
  {
    match e
    case Send(pktLen, unprotected, at) =>
    case SendOnly =>
    case Acknowledge(ack, unprotected) =>
    case Timer(ts, outcome) =>
      var at, status :| Fired(s, ts, outcome, at, status, end, s');
      UnexpiredStays(s.info, ts, s.next, outcome, at, status, s'.info, x);
  }

  // ----- runs -----

  /**
   The first `n` events lead through these states; only the last of them may have ended the connection.
   At first nothing is in flight.  The first number is chosen by the application; the largest
   acknowledged one is 0 for a client, while a server sets it to the number before its first.
   */
  ghost predicate Run(states: seq<Flight>, events: seq<Event>, n: nat, end: Ending) {
    && n <= |events| && |states| == n + 1 && states[0].info == []
    && (n == 0 ==> end == Going)
    && forall i {:trigger events[i]} :: 0 <= i < n ==> LeadsTo(states[i], events[i], if i + 1 < n then Going else end, states[i + 1])
  }

  /** The packet was sent by one of the first `k` events, or took over frames of one that was. */
  ghost predicate Sent(states: seq<Flight>, events: seq<Event>, k: nat, x: Info)
    requires k <= |states| && k <= |events|
  {
    exists i :: 0 <= i < k && SentBy(states[i], events[i], x)
  }

  ghost predicate SentBy(s: Flight, e: Event, x: Info) {
    e.Send? && Stems(FirstSent(s.next, e.pktLen, e.unprotected, e.at), x)
  }

  ghost predicate AllSent(states: seq<Flight>, events: seq<Event>, k: nat)
    requires k < |states| && k <= |events|
  {
    forall x :: x in states[k].info ==> Sent(states, events, k, x)
  }

  lemma {:induction false} RunSound(states: seq<Flight>, events: seq<Event>, n: nat, end: Ending, k: nat)
    requires Run(states, events, n, end) && k <= n
    ensures Sound(states[k].info, states[k].next)
  {
    if k > 0 {
      RunSound(states, events, n, end, k - 1);
      StepSound(states[k - 1], events[k - 1], if k < n then Going else end, states[k]);
    }
  }

  lemma {:induction false} RunSent(states: seq<Flight>, events: seq<Event>, n: nat, end: Ending, k: nat)
    requires Run(states, events, n, end) && k <= n
    ensures AllSent(states, events, k)
  {
    if k > 0 {
      RunSent(states, events, n, end, k - 1);
      RunSound(states, events, n, end, k - 1);
      forall x' | x' in states[k].info ensures Sent(states, events, k, x') {
        var x := StepOrigin(states[k - 1], events[k - 1], if k < n then Going else end, states[k], x');
        if x in states[k - 1].info {
          var i :| 0 <= i < k - 1 && SentBy(states[i], events[i], x);
          assert SentBy(states[i], events[i], x');
        } else {
          assert SentBy(states[k - 1], events[k - 1], x');
        }
      }
    }
  }

  ghost predicate AllOrderly(events: seq<Event>, k: nat)
    requires k <= |events|
  {
    forall i {:trigger events[i]} :: 0 <= i < k ==> Orderly(events[i])
  }

  lemma {:induction false} RunOrder(states: seq<Flight>, events: seq<Event>, n: nat, end: Ending, k: nat)
    requires Run(states, events, n, end) && k <= n && AllOrderly(events, k)
    ensures Descending(states[k].info)
  {
    if k > 0 {
      RunOrder(states, events, n, end, k - 1);
      RunSound(states, events, n, end, k - 1);
      StepOrder(states[k - 1], events[k - 1], if k < n then Going else end, states[k]);
    }
  }

  /** A packet is in flight for as long as no event can have taken it off the list. */
  lemma {:induction false} RunHolds(states: seq<Flight>, events: seq<Event>, n: nat, end: Ending, i: nat, k: nat, x: Info)
    requires Run(states, events, n, end) && i <= k <= n && x in states[i].info
    requires forall m {:trigger events[m]} :: i <= m < k ==> !MayTake(events[m], x)
    ensures x in states[k].info
  {
    if i < k {
      RunHolds(states, events, n, end, i, k - 1, x);
      StepHolds(states[k - 1], events[k - 1], if k < n then Going else end, states[k], x);
    }
  }

  /**
   If no packet was sent in part or moved before it, a valid ACK frame takes exactly the
   packets that it acknowledges off the list.
   */
  lemma RunAcked(states: seq<Flight>, events: seq<Event>, n: nat, end: Ending, k: nat, x: Info)
    requires Run(states, events, n, end) && k < n && AllOrderly(events, k)
    requires events[k].Acknowledge? && ValidAck(events[k].ack)
    ensures x in states[k + 1].info <==> x in states[k].info && !Taken(x, events[k].ack, events[k].byUnprotected)
  {
    RunOrder(states, events, n, end, k);
    assert LeadsTo(states[k], events[k], if k + 1 < n then Going else end, states[k + 1]);
    KeptAre(states[k].info, events[k].ack, events[k].byUnprotected, x);
  }

  /** The number was that of a packet in flight when a valid ACK frame acknowledged it. */
  ghost predicate AckedIn(s: Flight, e: Event, pn: nat) {
    && e.Acknowledge? && ValidAck(e.ack) && Acks(e.ack, pn)
    && exists x :: x in s.info && x.pktNum == pn && Eligible(x, e.byUnprotected)
  }

  lemma StepTop(s: Flight, e: Event, end: Ending, s': Flight)
    requires LeadsTo(s, e, end, s')
    ensures s.top <= s'.top && (s'.top == s.top || AckedIn(s, e, s'.top))
  {
    if e.Timer? {
      var at, status :| Fired(s, e.ts, e.outcome, at, status, end, s');
    }
  }

  /** The largest acknowledged number is the initial one or was acknowledged by some event, and is not exceeded by any other. */
  lemma {:induction false} RunTop(states: seq<Flight>, events: seq<Event>, n: nat, end: Ending, k: nat)
    requires Run(states, events, n, end) && k <= n
    ensures states[k].top == states[0].top || exists i :: 0 <= i < k && AckedIn(states[i], events[i], states[k].top)
    ensures forall i {:trigger states[i]} :: 0 <= i <= k ==> states[i].top <= states[k].top
  {
    if k > 0 {
      RunTop(states, events, n, end, k - 1);
      assert LeadsTo(states[k - 1], events[k - 1], if k < n then Going else end, states[k]);
      StepTop(states[k - 1], events[k - 1], if k < n then Going else end, states[k]);
    }
  }

  /**
   The number of the next packet, for a receiver that has seen packets up to `max` and acknowledged no
   others.  If it has seen all that the sender took to have arrived at first, it recovers the number; in
   the 32-bit form as long as at most 2^31 are not acknowledged.  If it has not, the width is still
   the one chosen from the initial number, and it recovers the number exactly if that is near enough.
   */
  lemma NextRecovered(states: seq<Flight>, events: seq<Event>, n: nat, end: Ending, pn: nat, top: nat, max: nat)
    requires Run(states, events, n, end) && pn == states[n].next && top == states[n].top && max < pn < SPAN
    requires states[0].top < SPAN && forall i {:trigger events[i]} :: 0 <= i < n ==> AcksUpTo(events[i], max)
    ensures Unseen(states[0].top) <= max + 1 && (SelectBits(pn, top) == 32 ==> pn + 1 - Unseen(top) <= 0x8000_0000) ==>
              Recovers(max, pn, SelectBits(pn, top))
    ensures max + 1 < Unseen(states[0].top) ==>
              top == states[0].top && (Recovers(max, pn, SelectBits(pn, top)) <==> Recoverable(max + 1, pn, Pow2(SelectBits(pn, top))))
  {
    TopSeen(states, events, n, end, max);
    UnseenFrom(states[0].top, top, max);
    if max + 1 < Unseen(states[0].top) {
      RecoveredExactly(max, pn, SelectBits(pn, top));
    } else if SelectBits(pn, top) == 32 ==> pn + 1 - Unseen(top) <= 0x8000_0000 {
      SenderRecovered(pn, top, max);
    }
  }

  /** Either nothing above the initial number was acknowledged, or what was is no more than `max`. */
  lemma TopSeen(states: seq<Flight>, events: seq<Event>, n: nat, end: Ending, max: nat)
    requires Run(states, events, n, end) && forall i {:trigger events[i]} :: 0 <= i < n ==> AcksUpTo(events[i], max)
    ensures states[n].top == states[0].top || states[0].top <= states[n].top <= max
  {
    RunTop(states, events, n, end, n);
    if states[n].top != states[0].top {
      var i :| 0 <= i < n && AckedIn(states[i], events[i], states[n].top);
      assert AcksUpTo(events[i], max);
    }
  }

  lemma UnseenFrom(top0: nat, top: nat, max: nat)
    requires top0 < SPAN && max < SPAN - 1 && (top == top0 || top0 <= top <= max)
    ensures Unseen(top0) <= max + 1 ==> top < SPAN && Unseen(top) <= max + 1
    ensures max + 1 < Unseen(top0) ==> top == top0
  {
  }

  /** If this is a valid ACK frame, it acknowledges nothing above `max`. */
  ghost predicate AcksUpTo(e: Event, max: nat) {
    e.Acknowledge? && ValidAck(e.ack) ==> forall pn: nat {:trigger Acks(e.ack, pn)} :: Acks(e.ack, pn) ==> pn <= max
  }

  // ----- the buffer -----

  ghost function State(rtb: Rtb, next: nat): Flight
    reads rtb
  {
    Flight(rtb.info, next, rtb.largestAcked)
  }

  /** Keeps a packet that is sent for the first time. */
  method Keep(rtb: Rtb, pktNum: nat, pktLen: nat, unprotected: bool, at: nat)
    requires rtb.Valid()
    modifies rtb.Repr()
    ensures rtb.Valid() && fresh(rtb.Repr() - old(rtb.Repr())) && rtb.largestAcked == old(rtb.largestAcked)
    ensures rtb.info == [FirstSent(pktNum, pktLen, unprotected, at)] + old(rtb.info)
  {
    var e := new Ent(pktNum, pktLen, unprotected, at + INITIAL_EXPIRY, at + DEADLINE_PERIOD);
    rtb.Add(e);
  }

  /** An ACK frame that is not valid ends the connection. */
  method Confirm(rtb: Rtb, ghost next: nat, ack: Ack, unprotected: bool) returns (end: Ending)
    requires rtb.Valid()
    modifies rtb.Repr()
    ensures rtb.Valid() && fresh(rtb.Repr() - old(rtb.Repr()))
    ensures LeadsTo(old(State(rtb, next)), Acknowledge(ack, unprotected), end, State(rtb, next))
  {
    var ok := ValidateAck(ack);
    if !ok {
      return BadAck;
    }
    RecvAck(rtb, ack, unprotected);
    return Going;
  }

  method Fire(rtb: Rtb, next: nat, ts: nat, outcome: nat -> Outcome) returns (end: Ending, next': nat)
    requires rtb.Valid()
    modifies rtb.Repr()
    ensures rtb.Valid() && fresh(rtb.Repr() - old(rtb.Repr()))
    ensures LeadsTo(old(State(rtb, next)), Timer(ts, outcome), end, State(rtb, next'))
  {
    var status;
    ghost var at;
    status, at := Retransmit(rtb, ts, next, outcome);
    end, next' := EndOf(status), NextNumber(next, status);
    assert Fired(old(State(rtb, next)), ts, outcome, at, status, end, State(rtb, next'));
  }

  method Step(rtb: Rtb, next: nat, e: Event) returns (end: Ending, next': nat)
    requires rtb.Valid()
    modifies rtb.Repr()
    ensures rtb.Valid() && fresh(rtb.Repr() - old(rtb.Repr()))
    ensures LeadsTo(old(State(rtb, next)), e, end, State(rtb, next'))
  {
    match e
    case Send(pktLen, unprotected, at) =>
      Keep(rtb, next, pktLen, unprotected, at);
      end, next' := Going, next + 1;
    case SendOnly =>
      end, next' := Going, next + 1;
    case Acknowledge(ack, unprotected) =>
      end := Confirm(rtb, next, ack, unprotected);
      next' := next;
    case Timer(ts, outcome) =>
      end, next' := Fire(rtb, next, ts, outcome);
  }

  /** A fresh buffer; a server takes the number before its first one to be acknowledged. */
  method Begin(top: nat) returns (rtb: Rtb)
    ensures rtb.Valid() && fresh(rtb.Repr()) && rtb.info == [] && rtb.largestAcked == top
  {
    rtb := new Rtb();
    rtb.largestAcked := top;
  }

  /**
   Whatever is sent, acknowledged and retransmitted from number `first` on, until the connection ends: the list and
   the queue hold the same packets, whose lengths add up to the bytes in flight; all of them
   were sent, under different numbers, and none was retransmitted more than twice.  The list
   is in descending order if no packet was sent in part or moved for lack of room.
   */
  method RunAll(events: seq<Event>, first: nat, top: nat)
    returns (rtb: Rtb, next: nat, n: nat, end: Ending, ghost states: seq<Flight>)
    ensures rtb.Valid() && rtb.bytesInFlight == SumLen(rtb.info) && |rtb.info| == |rtb.list| == |rtb.pq.ents|
    ensures Run(states, events, n, end) && (end == Going ==> n == |events|) && states[0] == Flight([], first, top)
    ensures states[n] == State(rtb, next) && Sound(rtb.info, next) && AllSent(states, events, n)
    ensures AllOrderly(events, n) ==> Descending(rtb.info)
  {
    rtb := Begin(top);
    next, n, end, states := Drive(rtb, first, events);
    RunEnds(states, events, n, end, rtb.info, next);
  }

  /** Handles the events, up to the one that ends the connection. */
  method Drive(rtb: Rtb, first: nat, events: seq<Event>) returns (next: nat, n: nat, end: Ending, ghost states: seq<Flight>)
    requires rtb.Valid() && rtb.info == []
    modifies rtb.Repr()
    ensures rtb.Valid() && Run(states, events, n, end) && (end == Going ==> n == |events|)
    ensures states[0] == old(State(rtb, first)) && states[n] == State(rtb, next)
  {
    next, n, end, states := first, 0, Going, [State(rtb, first)];
    while n < |events| && end == Going
      invariant n <= |events| && rtb.Valid() && fresh(rtb.Repr() - old(rtb.Repr()))
      invariant Run(states, events, n, end) && states[0] == old(State(rtb, first)) && states[n] == State(rtb, next)
    {
      end, next, states := Turn(rtb, next, events, n, states);
      n := n + 1;
    }
  }

  /** One turn of the loop of Drive. */
  method Turn(rtb: Rtb, next: nat, events: seq<Event>, n: nat, ghost states: seq<Flight>)
    returns (end: Ending, next': nat, ghost states': seq<Flight>)
    requires rtb.Valid() && n < |events| && Run(states, events, n, Going) && states[n] == State(rtb, next)
    modifies rtb.Repr()
    ensures rtb.Valid() && fresh(rtb.Repr() - old(rtb.Repr()))
    ensures Run(states', events, n + 1, end) && states'[0] == states[0] && states'[n + 1] == State(rtb, next')
  {
    end, next' := Step(rtb, next, events[n]);
    states' := RunMore(states, events, n, end, State(rtb, next'));
  }

  lemma RunEnds(states: seq<Flight>, events: seq<Event>, n: nat, end: Ending, info: seq<Info>, next: nat)
    requires Run(states, events, n, end) && info == states[n].info && next == states[n].next
    ensures Sound(info, next) && AllSent(states, events, n) && (AllOrderly(events, n) ==> Descending(info))
  {
    RunSound(states, events, n, end, n);
    RunSent(states, events, n, end, n);
    if AllOrderly(events, n) { RunOrder(states, events, n, end, n); }
  }

  lemma RunMore(states: seq<Flight>, events: seq<Event>, n: nat, end: Ending, s: Flight) returns (more: seq<Flight>)
    requires Run(states, events, n, Going) && n < |events| && LeadsTo(states[n], events[n], end, s)
    ensures Run(more, events, n + 1, end) && more[0] == states[0] && more[n + 1] == s
  {
    more := states + [s];
    forall i | 0 <= i < n + 1 ensures LeadsTo(more[i], events[i], if i < n then Going else end, more[i + 1]) {
      if i < n {
        assert more[i] == states[i] && more[i + 1] == states[i + 1];
        assert LeadsTo(states[i], events[i], Going, states[i + 1]);
      } else {
        assert more[n] == states[n] && more[n + 1] == s;
      }
    }
  }
}
