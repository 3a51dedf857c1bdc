/**
 When packets are retransmitted: the times at which a packet that is not acknowledged is sent
 again, and at which the connection gives up, if the timer is never late.
 */
module Timing {
  import opened Bits
  import opened AckWalk
  import opened Backoff
  import opened RetransmissionRun

  /** The timer fires no later than the packets that it finds expired. */
  ghost predicate Punctual(s: Flight, e: Event) {
    e.Timer? ==> forall x {:trigger x in s.info} :: x in s.info && x.expiry <= e.ts ==> x.expiry == e.ts
  }

  /** Sent 5 seconds before its deadline, the packet expires 1, 3 or 7 seconds after that. */
  predicate OnTime(x: Info) {
    && (x.count == 0 ==> x.expiry + 4_000_000 == x.deadline)
    && (x.count == 1 ==> x.expiry + 2_000_000 == x.deadline)
    && (x.count == 2 ==> x.expiry == x.deadline + 2_000_000)
    && x.count <= 2
  }

  ghost predicate AllOnTime(info: seq<Info>) {
    forall x {:trigger x in info} :: x in info ==> OnTime(x)
  }

  lemma FirstOnTime(pktNum: nat, pktLen: nat, unprotected: bool, at: nat)
    ensures var x := FirstSent(pktNum, pktLen, unprotected, at); OnTime(x) && x.count == 0 && x.deadline == at + 5_000_000
  {
  }

  lemma FollowsOnTime(x: Info, x': Info, ts: nat, pktNum: nat)
    requires OnTime(x) && Follows(x, x', ts, pktNum) && (x.expiry <= ts ==> x.expiry == ts)
    ensures OnTime(x')
  {
    assert Pow2(1) == 2 && Pow2(2) == 4;
  }

  lemma StepOnTime(s: Flight, e: Event, end: Ending, s': Flight)
    requires Sound(s.info, s.next) && AllOnTime(s.info) && LeadsTo(s, e, end, s') && Punctual(s, e)
    ensures AllOnTime(s'.info)
  {
    match e
    case Send(pktLen, unprotected, at) => FirstOnTime(s.next, pktLen, unprotected, at);
    case SendOnly =>
    case Acknowledge(ack, unprotected) =>
      forall x | x in s'.info ensures OnTime(x) { assert x in Infos(s'.info); }
    case Timer(ts, outcome) =>
      var at, status :| Fired(s, ts, outcome, at, status, end, s');
      forall x' | x' in s'.info ensures OnTime(x') {
        var x := RetransmittedStems(s.info, ts, s.next, outcome, at, status, s'.info, x');
        FollowsOnTime(x, x', ts, s.next);
      }
  }

  /**
   In every run in which the timer is never late, a packet in flight that was sent once expires 1 second after it was
   sent, one that was sent twice 3 seconds after it was first sent, and one that was sent three times after 7 seconds.
   */
  lemma {:induction false} RunOnTime(states: seq<Flight>, events: seq<Event>, n: nat, end: Ending, k: nat)
    requires Run(states, events, n, end) && k <= n && forall i {:trigger events[i]} :: 0 <= i < k ==> Punctual(states[i], events[i])
    ensures AllOnTime(states[k].info)
  {
    if k > 0 {
      RunOnTime(states, events, n, end, k - 1);
      RunSound(states, events, n, end, k - 1);
      StepOnTime(states[k - 1], events[k - 1], if k < n then Going else end, states[k]);
    }
  }

  // ----- what the timer does -----

  /** Only this packet has expired. */
  ghost predicate OnlyDue(s: Flight, ts: nat, x: Info) {
    && x in s.info && x.expiry <= ts && Distinct(s.info)
    && forall y {:trigger y in s.info} :: y in s.info && y.expiry <= ts ==> y == x
  }

  lemma DuePlace(s: Flight, ts: nat, x: Info, i: nat)
    requires OnlyDue(s, ts, x) && Due(s.info, ts, i)
    ensures s.info[i] == x
  {
    assert s.info[i] in s.info;
  }

  /** A packet that has expired before its deadline goes out again, in the next packet; after it, the connection gives up. */
  lemma FiresOnce(s: Flight, ts: nat, outcome: nat -> Outcome, end: Ending, s': Flight, x: Info)
    requires LeadsTo(s, Timer(ts, outcome), end, s') && OnlyDue(s, ts, x) && outcome(0).Complete?
    ensures if x.deadline <= ts then end == TimedOut
            else end == Going && Renewed(x, ts, s.next, outcome(0).pktLen) in s'.info && s'.next == s.next + 1
    ensures x.deadline > ts ==> forall y {:trigger y in s'.info} :: y in s'.info ==> y == Renewed(x, ts, s.next, outcome(0).pktLen) || (y in s.info && y != x)
  {
    var at, status :| Fired(s, ts, outcome, at, status, end, s');
    NothingSkipped(s, ts, outcome, at, x);
    var k :| 0 <= k < |s.info| && s.info[k] == x;
    assert Rest(s.info, []) == s.info;
    assert status != Idle;
    var i := Handling(s.info, ts, s.next, outcome, at, status, s'.info);
    DuePlace(s, ts, x, i);
    if x.deadline > ts { ReturnedList(s, i, x, Renewed(x, ts, s.next, outcome(0).pktLen), s'); }
  }

  lemma ReturnedList(s: Flight, i: nat, x: Info, r: Info, s': Flight)
    requires i < |s.info| && s.info[i] == x && Distinct(s.info) && s'.info == [r] + Without(s.info, i)
    ensures r in s'.info && forall y {:trigger y in s'.info} :: y in s'.info ==> y == r || (y in s.info && y != x)
  {
    WithoutAt(s.info, i);
    assert s'.info[0] == r;
    forall y | y in s'.info && y != r ensures y in s.info && y != x {
      var k :| 0 <= k < |s'.info| && s'.info[k] == y;
      assert Without(s.info, i)[k - 1] == y;
    }
  }

  lemma NothingSkipped(s: Flight, ts: nat, outcome: nat -> Outcome, at: seq<nat>, x: Info)
    requires OnlyDue(s, ts, x) && Skipped(s.info, ts, outcome, at) && !outcome(0).Cancelled?
    ensures at == []
  {
    if at != [] { FirstSkipped(s.info, ts, outcome, at); }
  }

  lemma {:induction false} FirstSkipped(s: seq<Info>, ts: nat, outcome: nat -> Outcome, at: seq<nat>)
    requires Skipped(s, ts, outcome, at) && at != []
    ensures outcome(0).Cancelled?
    decreases |at|
  {
    if |at| > 1 { FirstSkipped(s, ts, outcome, at[..|at| - 1]); }
  }

  // ----- a packet that is never acknowledged -----

  /** A packet is sent at `at`, and the timer fires after 1, 3 and 7 seconds. */
  function Lonely(pktLen: nat, unprotected: bool, at: nat, outcome: nat -> Outcome): seq<Event> {
    [Send(pktLen, unprotected, at), Timer(at + 1_000_000, outcome), Timer(at + 3_000_000, outcome), Timer(at + 7_000_000, outcome)]
  }

  lemma OneLeft(s: Flight, ts: nat, outcome: nat -> Outcome, end: Ending, s': Flight, x: Info)
    requires s.info == [x] && x.expiry <= ts && LeadsTo(s, Timer(ts, outcome), end, s') && outcome(0).Complete?
    ensures if x.deadline <= ts then end == TimedOut
            else end == Going && s' == Flight([Renewed(x, ts, s.next, outcome(0).pktLen)], s.next + 1, s.top)
  {
    FiresOnce(s, ts, outcome, end, s', x);
    var at, status :| Fired(s, ts, outcome, at, status, end, s');
    NothingSkipped(s, ts, outcome, at, x);
    assert Rest(s.info, []) == s.info;
    assert s.info[0] == x;
    assert status != Idle;
    var i := Handling(s.info, ts, s.next, outcome, at, status, s'.info);
    assert Without(s.info, 0) == [];
  }

  /** One packet in flight, sent `count + 1` times, the first time at `at`. */
  ghost predicate Alone(s: Flight, pktNum: nat, count: nat, at: nat) {
    && |s.info| == 1 && s.next == pktNum + 1
    && var x := s.info[0]; x.pktNum == pktNum && x.count == count && x.deadline == at + 5_000_000 && OnTime(x)
  }

  lemma LoneTurn(s: Flight, ts: nat, outcome: nat -> Outcome, end: Ending, s': Flight, pktNum: nat, count: nat, at: nat)
    requires Alone(s, pktNum, count, at) && s.info[0].expiry == ts
    requires LeadsTo(s, Timer(ts, outcome), end, s') && outcome(0).Complete?
    ensures if count == 2 then end == TimedOut else end == Going && Alone(s', pktNum + 1, count + 1, at)
  {
    var x := s.info[0];
    OneLeft(s, ts, outcome, end, s', x);
    if count < 2 { FollowsOnTime(x, Renewed(x, ts, s.next, outcome(0).pktLen), ts, s.next); }
  }

  /** It goes out again after 1 and after 3 seconds, each time in a new packet, and after 7 the connection gives up. */
  lemma Lone(states: seq<Flight>, first: nat, pktLen: nat, unprotected: bool, at: nat, outcome: nat -> Outcome, end: Ending)
    requires Run(states, Lonely(pktLen, unprotected, at, outcome), 4, end) && states[0].next == first && outcome(0).Complete?
    ensures Alone(states[1], first, 0, at) && Alone(states[2], first + 1, 1, at) && Alone(states[3], first + 2, 2, at)
    ensures end == TimedOut
  {
    var events := Lonely(pktLen, unprotected, at, outcome);
    assert LeadsTo(states[0], events[0], Going, states[1]);
    assert LeadsTo(states[1], events[1], Going, states[2]);
    assert LeadsTo(states[2], events[2], Going, states[3]);
    assert LeadsTo(states[3], events[3], end, states[4]);
    LoneTurn(states[1], at + 1_000_000, outcome, Going, states[2], first, 0, at);
    LoneTurn(states[2], at + 3_000_000, outcome, Going, states[3], first + 1, 1, at);
    LoneTurn(states[3], at + 7_000_000, outcome, end, states[4], first + 2, 2, at);
  }

  /** If the timer is never late, the connection gives up only on a packet that was sent three times, 7 seconds after the first. */
  lemma RunTimesOut(states: seq<Flight>, events: seq<Event>, n: nat) returns (x: Info)
    requires Run(states, events, n, TimedOut) && 0 < n && forall i {:trigger events[i]} :: 0 <= i < n ==> Punctual(states[i], events[i])
    ensures events[n - 1].Timer? && x in states[n - 1].info && x.count == 2 && x.expiry == events[n - 1].ts == x.deadline + 2_000_000
  {
    var s, e, s' := states[n - 1], events[n - 1], states[n];
    assert LeadsTo(s, e, TimedOut, s');
    RunOnTime(states, events, n, TimedOut, n - 1);
    RunSound(states, events, n, TimedOut, n - 1);
    var at, status :| Fired(s, e.ts, e.outcome, at, status, TimedOut, s');
    RestSound(s.info, e.ts, e.outcome, at, s.next);
    var i := Handling(s.info, e.ts, s.next, e.outcome, at, status, s'.info);
    x := Rest(s.info, at)[i];
    assert x in Infos(Rest(s.info, at));
    StatusTimeout(e.outcome(|at|));
  }

  lemma StatusTimeout(o: Outcome)
    ensures StatusOf(o) != Timeout
  {
  }
}
