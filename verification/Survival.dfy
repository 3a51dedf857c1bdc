/**
 No packet is forgotten: what was sent stays in flight, in one packet or another, until it is
 acknowledged, unless it need not be sent any more.
 */
module Survival {
  import opened AckFrames
  import opened AckWalk
  import opened Backoff
  import opened RetransmissionRun

  /** No frame that has to be retransmitted turns out to be cancelled. */
  ghost predicate Needed(e: Event) {
    e.Timer? ==> forall k {:trigger e.outcome(k)} :: !e.outcome(k).Cancelled? && !e.outcome(k).Emptied?
  }

  /** The packet, or one that took over frames of it, is in flight. */
  ghost predicate InFlight(s: Flight, x: Info) { exists y :: y in s.info && Stems(x, y) }

  lemma InFlightBy(s: Flight, x: Info, y: Info)
    requires y in s.info && Stems(x, y)
    ensures InFlight(s, x)
  {
  }

  /** What comes back to the list for a packet that has expired. */
  lemma ReturnedStems(e: Info, ts: nat, pktNum: nat, o: Outcome) returns (e': Info)
    requires o.Complete? || o.Partial? || o.Full?
    ensures e' in Returned(e, ts, pktNum, o) && Stems(e, e')
  {
    e' := Returned(e, ts, pktNum, o)[0];
  }

  lemma NoneSkipped(s: seq<Info>, ts: nat, outcome: nat -> Outcome, at: seq<nat>)
    requires Skipped(s, ts, outcome, at) && forall k {:trigger outcome(k)} :: !outcome(k).Cancelled?
    ensures at == []
  {
  }

  lemma TimerKeeps(s: Flight, e: Event, end: Ending, s': Flight, x: Info)
    requires e.Timer? && LeadsTo(s, e, end, s') && end == Going && Needed(e) && x in s.info
    ensures InFlight(s', x)
  {
    var at, status :| Fired(s, e.ts, e.outcome, at, status, end, s');
    NoneSkipped(s.info, e.ts, e.outcome, at);
    assert Rest(s.info, []) == s.info;
    if status == Idle {
      InFlightBy(s', x, x);
    } else {
      var i := Handling(s.info, e.ts, s.next, e.outcome, at, status, s'.info);
      HandledKeeps(s, e.ts, e.outcome(|at|), i, status, s', x);
    }
  }

  lemma HandledKeeps(s: Flight, ts: nat, o: Outcome, i: nat, status: Status, s': Flight, x: Info)
    requires Handled(s.info, ts, s.next, o, i, status, s'.info) && EndOf(status) == Going && x in s.info && !o.Emptied?
    ensures InFlight(s', x)
  {
    WithoutAt(s.info, i);
    if x == s.info[i] {
      var y := ReturnedStems(x, ts, s.next, o);
      InFlightBy(s', x, y);
    } else {
      var k :| 0 <= k < |s.info| && s.info[k] == x;
      InFlightBy(s', x, x);
    }
  }

  /** Which entries there are after the packet that is due was dealt with. */
  ghost predicate Outcomes(r: seq<Info>, e: Info, ts: nat, pktNum: nat, o: Outcome, s': seq<Info>, y: Info) {
    y in s' <==>
    || (y in r && (y != e || o.Full?))
    || ((o.Complete? || o.Partial?) && y == Info(pktNum, o.pktLen, e.unprotected, NextExpiry(ts, e.count), e.deadline, e.count + 1))
    || (o.Partial? && y == e.(pktLen := o.pktLen))
  }

  /**
   A packet that is due before its deadline: what was written has an entry of its own, what was not keeps the old one, and
   if nothing is left to be sent, neither does it.
   */
  lemma HandledLeaves(r: seq<Info>, ts: nat, pktNum: nat, o: Outcome, i: nat, status: Status, s': seq<Info>, y: Info)
    requires Handled(r, ts, pktNum, o, i, status, s') && ts < r[i].deadline && Distinct(r)
    ensures Outcomes(r, r[i], ts, pktNum, o, s', y)
  {
    var rest, back := Without(r, i), Returned(r[i], ts, pktNum, o);
    WithoutAt(r, i);
    assert y in s' <==> y in back || y in rest;
    if y in rest {
      var k :| 0 <= k < |rest| && rest[k] == y;
      assert y == r[if k < i then k else k + 1];
    }
    if y in r {
      var k :| 0 <= k < |r| && r[k] == y;
    }
  }

  /** The frame acknowledges a packet that carries frames of `x`. */
  ghost predicate AckedBy(s: Flight, e: Event, x: Info) {
    e.Acknowledge? && ValidAck(e.ack) && exists y :: y in s.info && Stems(x, y) && Taken(y, e.ack, e.byUnprotected)
  }

  lemma StepKeeps(s: Flight, e: Event, end: Ending, s': Flight, x: Info, y: Info)
    requires LeadsTo(s, e, end, s') && end == Going && Needed(e) && y in s.info && Stems(x, y)
    ensures InFlight(s', x) || AckedBy(s, e, x)
  {
    if e.Timer? {
      TimerKeeps(s, e, end, s', y);
      var z :| z in s'.info && Stems(y, z);
      InFlightBy(s', x, z);
    } else if !(e.Acknowledge? && ValidAck(e.ack) && Taken(y, e.ack, e.byUnprotected)) {
      StepHolds(s, e, end, s', y);
      InFlightBy(s', x, y);
    }
  }

  /**
   In every run in which no frame turns out to be cancelled, and as long as the connection goes on: a packet that was in flight
   is so still, as it is or in packets that took over its frames, or one of these was acknowledged in the meantime.
   */
  lemma {:induction false} RunSurvives(states: seq<Flight>, events: seq<Event>, n: nat, i: nat, k: nat, x: Info)
    requires Run(states, events, n, Going) && i <= k <= n && x in states[i].info
    requires forall j {:trigger events[j]} :: i <= j < k ==> Needed(events[j])
    ensures InFlight(states[k], x) || exists j :: i <= j < k && AckedBy(states[j], events[j], x)
  {
    if i == k {
      InFlightBy(states[k], x, x);
    } else {
      RunSurvives(states, events, n, i, k - 1, x);
      if InFlight(states[k - 1], x) {
        var y :| y in states[k - 1].info && Stems(x, y);
        StepKeeps(states[k - 1], events[k - 1], Going, states[k], x, y);
      }
    }
  }

  /** An ACK frame in a packet without protection leaves a protected packet in flight. */
  lemma ProtectedStays(s: Flight, e: Event, end: Ending, s': Flight, x: Info)
    requires LeadsTo(s, e, end, s') && e.Acknowledge? && e.byUnprotected && x in s.info && !x.unprotected
    ensures x in s'.info
  {
    StepHolds(s, e, end, s', x);
  }
}
