/**
 Retransmission timers: how often a packet can be retransmitted before its deadline,
 and the loop that retransmits expired packets.
 */
module Backoff {
  import opened Bits
  import opened AckWalk
  import opened PriorityQueue
  import opened Retransmission

  // In microseconds.
  const INITIAL_EXPIRY: nat := 1_000_000
  const DEADLINE_PERIOD: nat := 5_000_000

  /**
   First sent DEADLINE_PERIOD before its deadline and retransmitted `count` times since,
   the packet has waited for 1 + 2 + ... + 2^count initial expiry periods.
   */
  ghost predicate Timed(e: Info) {
    e.count <= 2 && e.deadline + (Pow2(e.count + 1) - 1) * INITIAL_EXPIRY <= e.expiry + DEADLINE_PERIOD
  }

  ghost predicate AllTimed(s: seq<Info>) {
    forall i {:trigger s[i]} :: 0 <= i < |s| ==> Timed(s[i])
  }

  ghost predicate NumbersBelow(s: seq<Info>, pktNum: nat) {
    forall i {:trigger s[i]} :: 0 <= i < |s| ==> s[i].pktNum < pktNum
  }

  /** The entry of a packet that is sent for the first time. */
  function FirstSent(pktNum: nat, pktLen: nat, unprotected: bool, at: nat): Info {
    Info(pktNum, pktLen, unprotected, at + INITIAL_EXPIRY, at + DEADLINE_PERIOD, 0)
  }

  lemma FreshTimed(pktNum: nat, pktLen: nat, unprotected: bool, ts: nat)
    ensures Timed(FirstSent(pktNum, pktLen, unprotected, ts))
  {
    assert Pow2(1) == 2;
  }

  function NextExpiry(ts: nat, count: nat): nat { ts + INITIAL_EXPIRY * Pow2(count + 1) }

  /** The first retransmission waits two seconds, twice the time before it, and every other one twice as long as the one before. */
  lemma Doubling(ts: nat, count: nat, at: nat)
    ensures FirstSent(0, 0, false, at).expiry == at + 1_000_000 && NextExpiry(ts, 0) == ts + 2 * 1_000_000
    ensures NextExpiry(ts, count + 1) - ts == 2 * (NextExpiry(ts, count) - ts)
  {
    assert Pow2(1) == 2;
    assert Pow2(count + 2) == 2 * Pow2(count + 1);
  }

  /** The entry that goes with a retransmission at `ts` in packet `pktNum`. */
  function Renewed(e: Info, ts: nat, pktNum: nat, pktLen: nat): Info {
    Info(pktNum, pktLen, e.unprotected, NextExpiry(ts, e.count), e.deadline, e.count + 1)
  }

  /** A packet that has expired before its deadline was retransmitted at most once before. */
  lemma BackoffStep(e: Info, ts: nat, pktNum: nat, pktLen: nat)
    requires Timed(e) && e.expiry <= ts < e.deadline
    ensures e.count < 2 && Timed(Renewed(e, ts, pktNum, pktLen))
  {
    assert Pow2(1) == 2 && Pow2(2) == 4 && Pow2(3) == 8;
  }

  /** What came of trying to write the frames of an entry into a packet. */
  datatype Outcome =
    | Complete(pktLen: nat)   // all frames were written
    | Partial(pktLen: nat)    // some were, the others are left
    | Emptied(pktLen: nat)    // a packet was written, and no frame is left in the entry
    | Cancelled               // no frame needs to be sent any more
    | Full                    // there was no room
    | Failed

  datatype Status = Idle | Wrote | WrotePart | Timeout | NoBuf | Error

  /** The next packet number, after `pktNum` was used or not. */
  function NextNumber(pktNum: nat, status: Status): nat { if status == Wrote || status == WrotePart then pktNum + 1 else pktNum }

  function StatusOf(o: Outcome): Status {
    match o
    case Complete(_) => Wrote
    case Partial(_) => WrotePart
    case Emptied(_) => Wrote
    case Cancelled => Idle
    case Full => NoBuf
    case Failed => Error
  }

  /** What goes back to the head of the list for an entry that had expired. */
  function Returned(e: Info, ts: nat, pktNum: nat, o: Outcome): seq<Info> {
    match o
    case Complete(pktLen) => [Renewed(e, ts, pktNum, pktLen)]
    case Partial(pktLen) => [e.(pktLen := pktLen), Renewed(e, ts, pktNum, pktLen)]
    case Full => [e]
    case Emptied(_) => []
    case Cancelled => []
    case Failed => []
  }

  // ----- what a retransmission does to the list -----

  /** The entry at `i` has expired, before all others. */
  ghost predicate Due(s: seq<Info>, ts: nat, i: nat) {
    i < |s| && s[i].expiry <= ts && forall k {:trigger s[k]} :: 0 <= k < |s| ==> s[i].expiry <= s[k].expiry
  }

  ghost predicate NoneDue(s: seq<Info>, ts: nat) {
    forall k {:trigger s[k]} :: 0 <= k < |s| ==> s[k].expiry > ts
  }

  /** The list after the entries at these places were taken out, one after the other. */
  ghost function Rest(s: seq<Info>, at: seq<nat>): seq<Info>
    decreases |at|
  {
    if at == [] then s else
    var n := |at| - 1;
    var r := Rest(s, at[..n]);
    if at[n] < |r| then Without(r, at[n]) else r
  }

  /** Those entries were due, and none of them had to be sent any more. */
  ghost predicate Skipped(s: seq<Info>, ts: nat, outcome: nat -> Outcome, at: seq<nat>)
    decreases |at|
  {
    at == [] ||
    var n := |at| - 1;
    var r := Rest(s, at[..n]);
    Skipped(s, ts, outcome, at[..n]) && Due(r, ts, at[n]) && r[at[n]].deadline > ts && outcome(n).Cancelled?
  }

  /** What becomes of the entry that is due next, at `i`. */
  ghost predicate Handled(r: seq<Info>, ts: nat, pktNum: nat, o: Outcome, i: nat, status: Status, s': seq<Info>) {
    && Due(r, ts, i)
    && if r[i].deadline <= ts then status == Timeout && s' == Without(r, i) else
       !o.Cancelled? && status == StatusOf(o) && s' == Returned(r[i], ts, pktNum, o) + Without(r, i)
  }

  /**
   All that a retransmission does: entries that need not be sent any more are dropped in
   the order of their expiry, and the one after them is dealt with by what came of it.
   */
  ghost predicate Retransmitted(s: seq<Info>, ts: nat, pktNum: nat, outcome: nat -> Outcome,
                                at: seq<nat>, status: Status, s': seq<Info>)
  {
    Skipped(s, ts, outcome, at) &&
    var r := Rest(s, at);
    if status == Idle then s' == r && NoneDue(r, ts) else
    exists i: nat :: Handled(r, ts, pktNum, outcome(|at|), i, status, s')
  }

  lemma Handling(s: seq<Info>, ts: nat, pktNum: nat, outcome: nat -> Outcome, at: seq<nat>, status: Status, s': seq<Info>)
    returns (i: nat)
    requires Retransmitted(s, ts, pktNum, outcome, at, status, s') && status != Idle
    ensures Handled(Rest(s, at), ts, pktNum, outcome(|at|), i, status, s')
  {
    i :| Handled(Rest(s, at), ts, pktNum, outcome(|at|), i, status, s');
  }

  lemma HandledLast(s: seq<Info>, ts: nat, pktNum: nat, outcome: nat -> Outcome, at: seq<nat>, i: nat, status: Status, s': seq<Info>)
    requires Skipped(s, ts, outcome, at) && status != Idle && Handled(Rest(s, at), ts, pktNum, outcome(|at|), i, status, s')
    ensures Retransmitted(s, ts, pktNum, outcome, at, status, s')
  {
  }

  // ----- what that keeps -----

  /** No packet was retransmitted more than twice; all numbers are different, and were used before `next`. */
  ghost predicate Sound(s: seq<Info>, next: nat) { AllTimed(s) && NumbersBelow(s, next) && Distinct(s) }

  lemma WithoutAt<T>(s: seq<T>, i: nat)
    requires i < |s|
    ensures forall k {:trigger Without(s, i)[k]} :: 0 <= k < |s| - 1 ==> Without(s, i)[k] == s[if k < i then k else k + 1]
    ensures forall k {:trigger s[k]} :: 0 <= k < |s| && k != i ==> s[k] in Without(s, i)
  {
    forall k | 0 <= k < |s| && k != i ensures s[k] in Without(s, i) {
      assert Without(s, i)[if k < i then k else k - 1] == s[k];
    }
  }

  lemma WithoutSound(s: seq<Info>, i: nat, next: nat)
    requires i < |s| && Sound(s, next)
    ensures Sound(Without(s, i), next) && (Descending(s) ==> Descending(Without(s, i)))
    ensures Infos(Without(s, i)) <= Infos(s)
    ensures forall k {:trigger Without(s, i)[k]} :: 0 <= k < |s| - 1 ==> Without(s, i)[k].pktNum != s[i].pktNum
  {
    WithoutAt(s, i);
  }

  lemma {:induction false} RestSound(s: seq<Info>, ts: nat, outcome: nat -> Outcome, at: seq<nat>, next: nat)
    requires Sound(s, next) && Skipped(s, ts, outcome, at)
    ensures Sound(Rest(s, at), next) && (Descending(s) ==> Descending(Rest(s, at))) && Infos(Rest(s, at)) <= Infos(s)
    decreases |at|
  {
    if at != [] {
      var n := |at| - 1;
      RestSound(s, ts, outcome, at[..n], next);
      WithoutSound(Rest(s, at[..n]), at[n], next);
    }
  }

  /** What goes back is sound, too, and fits the entries that stayed. */
  lemma ReturnedSound(r: seq<Info>, i: nat, ts: nat, pktNum: nat, o: Outcome)
    requires Sound(r, pktNum) && Due(r, ts, i) && ts < r[i].deadline
    ensures Sound(Returned(r[i], ts, pktNum, o) + Without(r, i), NextNumber(pktNum, StatusOf(o)))
  {
    WithoutSound(r, i, pktNum);
    match o
    case Complete(pktLen) => BackoffStep(r[i], ts, pktNum, pktLen);
    case Partial(pktLen) => BackoffStep(r[i], ts, pktNum, pktLen);
    case Full =>
    case Emptied(_) =>
    case Cancelled =>
    case Failed =>
  }

  /** Whatever comes of a retransmission, no packet is ever retransmitted more than twice. */
  lemma RetransmittedSound(s: seq<Info>, ts: nat, pktNum: nat, outcome: nat -> Outcome, at: seq<nat>, status: Status, s': seq<Info>)
    requires Sound(s, pktNum) && Retransmitted(s, ts, pktNum, outcome, at, status, s')
    ensures Sound(s', NextNumber(pktNum, status))
  {
    RestSound(s, ts, outcome, at, pktNum);
    var r := Rest(s, at);
    if status != Idle {
      var i := Handling(s, ts, pktNum, outcome, at, status, s');
      if r[i].deadline <= ts {
        WithoutSound(r, i, pktNum);
      } else {
        ReturnedSound(r, i, ts, pktNum, outcome(|at|));
      }
    }
  }

  /** Dealing with the entry at `i` leaves a descending list in order: it is not sent in part, or moved to the head for lack of room. */
  predicate InOrder(r: seq<Info>, ts: nat, o: Outcome, i: nat)
    requires i < |r|
  {
    r[i].deadline <= ts || (!o.Partial? && (o.Full? ==> i == 0))
  }

  /**
   A descending list stays so exactly if the packet that is due is past its deadline, or is not
   sent in part, and if there is no room for it, is the first of the list already.
   */
  lemma OrderKept(s: seq<Info>, ts: nat, pktNum: nat, outcome: nat -> Outcome, at: seq<nat>, status: Status, s': seq<Info>)
    requires Sound(s, pktNum) && Descending(s) && Retransmitted(s, ts, pktNum, outcome, at, status, s')
    ensures NoneDue(Rest(s, at), ts) ==> Descending(s')
    ensures forall i: nat {:trigger Due(Rest(s, at), ts, i)} :: Handled(Rest(s, at), ts, pktNum, outcome(|at|), i, status, s') ==>
              (Descending(s') <==> InOrder(Rest(s, at), ts, outcome(|at|), i))
  {
    RestSound(s, ts, outcome, at, pktNum);
    var r := Rest(s, at);
    if status != Idle {
      var i := Handling(s, ts, pktNum, outcome, at, status, s');
      assert r[i].expiry <= ts;
    }
    forall i: nat | Handled(r, ts, pktNum, outcome(|at|), i, status, s')
      ensures Descending(s') <==> InOrder(r, ts, outcome(|at|), i)
    {
      HandledOrder(r, ts, pktNum, outcome(|at|), i, status, s');
    }
  }

  lemma HandledOrder(r: seq<Info>, ts: nat, pktNum: nat, o: Outcome, i: nat, status: Status, s': seq<Info>)
    requires Descending(r) && NumbersBelow(r, pktNum) && Handled(r, ts, pktNum, o, i, status, s')
    ensures Descending(s') <==> InOrder(r, ts, o, i)
  {
    if r[i].deadline > ts && o.Partial? {
      assert s'[0].pktNum < s'[1].pktNum;
    } else if r[i].deadline > ts && o.Full? {
      MovedOrder(r, i);
    } else {
      WithoutAt(r, i);
    }
  }

  lemma MovedOrder(r: seq<Info>, i: nat)
    requires Descending(r) && i < |r|
    ensures Descending([r[i]] + Without(r, i)) <==> i == 0
  {
    var s := [r[i]] + Without(r, i);
    if i == 0 {
      assert s == r;
    } else {
      assert s[0] == r[i] && s[1] == r[0];
    }
  }

  /** The entry is the same packet, or one that took over frames of it. */
  ghost predicate Stems(e: Info, e': Info) {
    && e'.deadline == e.deadline && e'.unprotected == e.unprotected && e.count <= e'.count
    && (e'.count == e.count ==> e'.pktNum == e.pktNum && e'.expiry == e.expiry)
  }

  /** The entry is the same packet, or the one that was sent in its place at `ts` in packet `pktNum`. */
  ghost predicate Follows(e: Info, e': Info, ts: nat, pktNum: nat) {
    e' == e.(pktLen := e'.pktLen) || (e.expiry <= ts < e.deadline && e' == Renewed(e, ts, pktNum, e'.pktLen))
  }

  /** Every entry stems from one that was in the list. */
  lemma RetransmittedStems(s: seq<Info>, ts: nat, pktNum: nat, outcome: nat -> Outcome, at: seq<nat>, status: Status, s': seq<Info>,
                           e': Info) returns (e: Info)
    requires Sound(s, pktNum) && Retransmitted(s, ts, pktNum, outcome, at, status, s') && e' in s'
    ensures e in s && Stems(e, e') && Follows(e, e', ts, pktNum)
  {
    RestSound(s, ts, outcome, at, pktNum);
    var r := Rest(s, at);
    e := e';
    if e !in Infos(r) {
      var i := Handling(s, ts, pktNum, outcome, at, status, s');
      WithoutSound(r, i, pktNum);
      assert e !in Infos(Without(r, i));
      e := r[i];
    }
    assert e in Infos(r);
  }

  /** An entry that has not expired stays as it is. */
  lemma UnexpiredStays(s: seq<Info>, ts: nat, pktNum: nat, outcome: nat -> Outcome, at: seq<nat>, status: Status, s': seq<Info>, e: Info)
    requires Retransmitted(s, ts, pktNum, outcome, at, status, s') && e in s && ts < e.expiry
    ensures e in s'
  {
    RestHolds(s, ts, outcome, at, e);
    var r := Rest(s, at);
    if status != Idle {
      var i := Handling(s, ts, pktNum, outcome, at, status, s');
      WithoutAt(r, i);
    }
  }

  lemma {:induction false} RestHolds(s: seq<Info>, ts: nat, outcome: nat -> Outcome, at: seq<nat>, e: Info)
    requires Skipped(s, ts, outcome, at) && e in s && ts < e.expiry
    ensures e in Rest(s, at)
    decreases |at|
  {
    if at != [] {
      var n := |at| - 1;
      RestHolds(s, ts, outcome, at[..n], e);
      WithoutAt(Rest(s, at[..n]), at[n]);
    }
  }

  // ----- the buffer -----

  /** Gives the entry a new packet number and the next, longer expiry period. */
  method Renew(e: Ent, ts: nat, pktNum: nat)
    modifies e`pktNum, e`expiry, e`count
    ensures Describe(e) == Renewed(old(Describe(e)), ts, pktNum, e.pktLen)
  {
    e.pktNum := pktNum;
    e.count := e.count + 1;
    e.expiry := ts + INITIAL_EXPIRY * Pow2(e.count);
  }

  /** Puts an entry whose packet was retransmitted back. */
  method Resend(rtb: Rtb, e: Ent, ts: nat, pktNum: nat, pktLen: nat)
    requires rtb.Valid() && e !in rtb.list
    modifies rtb`list, rtb`bytesInFlight, rtb`info, rtb.pq, rtb.pq.q, Elems(rtb.list)`index, e
    ensures rtb.Valid() && rtb.list == [e] + old(rtb.list) && (rtb.pq.q == old(rtb.pq.q) || fresh(rtb.pq.q))
    ensures rtb.info == [Renewed(old(Describe(e)), ts, pktNum, pktLen)] + old(rtb.info)
  {
    SameIn(rtb.list, rtb.pq.ents, e);
    Renew(e, ts, pktNum);
    e.pktLen := pktLen;
    rtb.Add(e);
  }

  /** An entry for frames that have been retransmitted before. */
  method NewPart(e: Ent, ts: nat, pktNum: nat, pktLen: nat) returns (n: Ent)
    ensures fresh(n) && Describe(n) == Renewed(Describe(e), ts, pktNum, pktLen)
  {
    n := new Ent(pktNum, pktLen, e.unprotected, ts + INITIAL_EXPIRY, e.deadline);
    n.count := e.count;
    Renew(n, ts, pktNum);
  }

  /** The frames that were written get an entry of their own; the others stay in theirs, with its old number. */
  method ResendPart(rtb: Rtb, e: Ent, ts: nat, pktNum: nat, pktLen: nat)
    requires rtb.Valid() && e !in rtb.list
    modifies rtb`list, rtb`bytesInFlight, rtb`info, rtb.pq, rtb.pq.q, Elems(rtb.list)`index, e
    ensures rtb.Valid() && (rtb.pq.q == old(rtb.pq.q) || fresh(rtb.pq.q))
    ensures fresh(Elems(rtb.list) - old(Elems(rtb.list)) - {e})
    ensures rtb.info == Returned(old(Describe(e)), ts, pktNum, Partial(pktLen)) + old(rtb.info)
  {
    var n := NewPart(e, ts, pktNum, pktLen);
    rtb.Add(n);
    AddRest(rtb, e, pktLen);
  }

  /** Frames that were not written stay in their entry, with its old number. */
  method AddRest(rtb: Rtb, e: Ent, pktLen: nat)
    requires rtb.Valid() && e !in rtb.list
    modifies rtb`list, rtb`bytesInFlight, rtb`info, rtb.pq, rtb.pq.q, Elems(rtb.list)`index, e
    ensures rtb.Valid() && rtb.list == [e] + old(rtb.list) && (rtb.pq.q == old(rtb.pq.q) || fresh(rtb.pq.q))
    ensures rtb.info == [old(Describe(e)).(pktLen := pktLen)] + old(rtb.info)
  {
    SameIn(rtb.list, rtb.pq.ents, e);
    e.pktLen := pktLen;
    rtb.Add(e);
  }

  /** Deals with an entry that was taken out of the buffer because it had expired. */
  method Handle(rtb: Rtb, e: Ent, ts: nat, pktNum: nat, outcome: Outcome) returns (status: Status)
    requires rtb.Valid() && e !in rtb.list && !outcome.Cancelled?
    modifies rtb`list, rtb`bytesInFlight, rtb`info, rtb.pq, rtb.pq.q, Elems(rtb.list)`index, e
    ensures rtb.Valid() && (rtb.pq.q == old(rtb.pq.q) || fresh(rtb.pq.q)) && status == StatusOf(outcome)
    ensures fresh(Elems(rtb.list) - old(Elems(rtb.list)) - {e})
    ensures rtb.info == Returned(old(Describe(e)), ts, pktNum, outcome) + old(rtb.info)
  {
    match outcome
    case Complete(pktLen) =>
      Resend(rtb, e, ts, pktNum, pktLen);
      status := Wrote;
    case Partial(pktLen) =>
      ResendPart(rtb, e, ts, pktNum, pktLen);
      status := WrotePart;
    case Full =>
      rtb.Add(e);
      status := NoBuf;
    case Emptied(_) =>
      status := Wrote;
    case Failed =>
      status := Error;
  }

  /** Deals with the entry that was due next, at `i` of the list `r`. */
  method Settle(rtb: Rtb, e: Ent, ts: nat, pktNum: nat, o: Outcome, ghost r: seq<Info>, ghost i: nat) returns (status: Status)
    requires rtb.Valid() && e !in rtb.list && (e.deadline <= ts || !o.Cancelled?)
    requires Due(r, ts, i) && Describe(e) == r[i] && rtb.info == Without(r, i)
    modifies rtb`list, rtb`bytesInFlight, rtb`info, rtb.pq, rtb.pq.q, Elems(rtb.list)`index, e
    ensures rtb.Valid() && fresh(rtb.Repr() - (old(rtb.Repr()) + {e})) && rtb.largestAcked == old(rtb.largestAcked)
    ensures status != Idle && Handled(r, ts, pktNum, o, i, status, rtb.info)
  {
    if e.deadline <= ts {
      return Timeout;
    }
    status := Handle(rtb, e, ts, pktNum, o);
  }

  /** Retransmits the packet that expired first, passing over those that need not be sent any more. */
  method Retransmit(rtb: Rtb, ts: nat, pktNum: nat, outcome: nat -> Outcome) returns (status: Status, ghost at: seq<nat>)
    requires rtb.Valid()
    modifies rtb.Repr()
    ensures rtb.Valid() && rtb.largestAcked == old(rtb.largestAcked) && fresh(rtb.Repr() - old(rtb.Repr()))
    ensures Retransmitted(old(rtb.info), ts, pktNum, outcome, at, status, rtb.info)
  {
    var e, o;
    ghost var i;
    e, o, at, i := NextDue(rtb, ts, outcome);
    if e == null {
      return Idle, at;
    }
    ghost var repr := rtb.Repr() + {e};
    assert repr <= old(rtb.Repr());
    status := Settle(rtb, e, ts, pktNum, o, Rest(old(rtb.info), at), i);
    assert fresh(rtb.Repr() - repr);
    HandledLast(old(rtb.info), ts, pktNum, outcome, at, i, status, rtb.info);
  }

  /** Takes out the packet that expired first, after those that need not be sent any more. */
  method NextDue(rtb: Rtb, ts: nat, outcome: nat -> Outcome) returns (e: Ent?, o: Outcome, ghost at: seq<nat>, ghost i: nat)
    requires rtb.Valid()
    modifies rtb`list, rtb`bytesInFlight, rtb`info, rtb.pq, rtb.pq.q, Elems(rtb.list)`index
    ensures rtb.Valid() && rtb.Repr() <= old(rtb.Repr()) && rtb.largestAcked == old(rtb.largestAcked)
    ensures e == null ==> Skipping(old(rtb.info), ts, outcome, at, rtb.info) && NoneDue(rtb.info, ts)
    ensures e != null ==> e in old(Elems(rtb.list)) && e !in rtb.list && Picked(old(rtb.info), ts, outcome, at, i, Describe(e), o, rtb.info)
  {
    at := [];
    var n: nat := 0;
    while true
      invariant rtb.Valid() && rtb.pq.q == old(rtb.pq.q) && Elems(rtb.list) <= old(Elems(rtb.list))
      invariant n == |at| && Skipping(old(rtb.info), ts, outcome, at, rtb.info)
      decreases |rtb.list|
    {
      ghost var r := rtb.info;
      e, i := TakeExpired(rtb, ts);
      o := outcome(n);
      if e == null || e.deadline <= ts || !o.Cancelled? {
        if e != null { PickedIs(old(rtb.info), ts, outcome, at, i, Describe(e), o, rtb.info, r); }
        return;
      }
      SkippedMore(old(rtb.info), ts, outcome, at, i);
      at := at + [i];
      n := n + 1;
    }
  }

  /** What is left of the list after the entries at these places were skipped. */
  ghost predicate Skipping(s: seq<Info>, ts: nat, outcome: nat -> Outcome, at: seq<nat>, r: seq<Info>) {
    Skipped(s, ts, outcome, at) && r == Rest(s, at)
  }

  /** After those were skipped, the entry at `i` is the next to be dealt with. */
  ghost predicate Picked(s: seq<Info>, ts: nat, outcome: nat -> Outcome, at: seq<nat>, i: nat, d: Info, o: Outcome, rest: seq<Info>) {
    var r := Rest(s, at);
    && Skipped(s, ts, outcome, at) && Due(r, ts, i) && d == r[i] && rest == Without(r, i)
    && o == outcome(|at|) && (d.deadline <= ts || !o.Cancelled?)
  }

  lemma PickedIs(s: seq<Info>, ts: nat, outcome: nat -> Outcome, at: seq<nat>, i: nat, d: Info, o: Outcome, rest: seq<Info>, r: seq<Info>)
    requires Skipping(s, ts, outcome, at, r) && Due(r, ts, i) && d == r[i] && rest == Without(r, i)
    requires o == outcome(|at|) && (d.deadline <= ts || !o.Cancelled?)
    ensures Picked(s, ts, outcome, at, i, d, o, rest)
  {
  }

  lemma SkippedMore(s: seq<Info>, ts: nat, outcome: nat -> Outcome, at: seq<nat>, i: nat)
    requires Skipped(s, ts, outcome, at) && Due(Rest(s, at), ts, i)
    requires Rest(s, at)[i].deadline > ts && outcome(|at|).Cancelled?
    ensures Skipping(s, ts, outcome, at + [i], Without(Rest(s, at), i))
  {
    assert (at + [i])[..|at|] == at;
  }

  /** Takes out the entry that expires first, if it has expired. */
  method TakeExpired(rtb: Rtb, ts: nat) returns (e: Ent?, ghost i: nat)
    requires rtb.Valid()
    modifies rtb`list, rtb`bytesInFlight, rtb`info, rtb.pq, rtb.pq.q, Elems(rtb.list)`index
    ensures rtb.Valid() && rtb.pq.q == old(rtb.pq.q) && Elems(rtb.list) <= old(Elems(rtb.list))
    ensures e == null ==> rtb.info == old(rtb.info) && NoneDue(rtb.info, ts)
    ensures e != null ==> e in old(rtb.list) && e !in rtb.list && |rtb.list| < |old(rtb.list)|
    ensures e != null ==> Due(old(rtb.info), ts, i) && Describe(e) == old(rtb.info)[i] && rtb.info == Without(old(rtb.info), i)
  {
    e := rtb.Top();
    if e == null || e.expiry > ts {
      return null, 0;
    }
    e, i := rtb.Pop();
  }
}
