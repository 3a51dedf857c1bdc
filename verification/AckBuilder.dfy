/**
 Building an ACK frame from the packets in the tracker.
 */
module AckBuilder {
  import opened Basics
  import opened AckFrames
  import opened AckTracker
  import opened Bits

  /** The numbers a frame of this protection may acknowledge, in order. */
  ghost function Sel(ents: seq<Entry>, unprotected: bool): seq<nat> {
    if ents == [] then [] else
    Sel(ents[..|ents| - 1], unprotected) +
    (if Eligible(ents[|ents| - 1], unprotected) then [ents[|ents| - 1].pktNum] else [])
  }

  predicate Eligible(e: Entry, unprotected: bool) { unprotected ==> e.unprotected }

  lemma SelNext(ents: seq<Entry>, unprotected: bool, i: nat)
    requires i < |ents|
    ensures var pns := Sel(ents[..i], unprotected);
            Sel(ents[..i + 1], unprotected) == if Eligible(ents[i], unprotected) then pns + [ents[i].pktNum] else pns
  {
    assert ents[..i + 1][..i] == ents[..i];
  }

  lemma {:induction false} SelAre(ents: seq<Entry>, unprotected: bool, pn: nat)
    ensures pn in Sel(ents, unprotected) <==> exists e :: e in ents && Eligible(e, unprotected) && e.pktNum == pn
  {
    if ents != [] {
      var n := |ents| - 1;
      SelAre(ents[..n], unprotected, pn);
      assert ents == ents[..n] + [ents[n]];
    }
  }

  /** The number of maximal runs of consecutive numbers in a descending sequence. */
  ghost function Runs(pns: seq<nat>): nat {
    if pns == [] then 0
    else if |pns| == 1 then 1
    else Runs(pns[..|pns| - 1]) + (if pns[|pns| - 2] == pns[|pns| - 1] + 1 then 0 else 1)
  }

  lemma RunsNext(pns: seq<nat>, pn: nat)
    requires pns != []
    ensures Runs(pns + [pn]) == Runs(pns) + (if pns[|pns| - 1] == pn + 1 then 0 else 1)
  {
    assert (pns + [pn])[..|pns|] == pns;
  }

  lemma {:induction false} RunsMono(ents: seq<Entry>, unprotected: bool, i: nat)
    requires i <= |ents|
    ensures Runs(Sel(ents[..i], unprotected)) <= Runs(Sel(ents, unprotected))
    decreases |ents| - i
  {
    if i == |ents| {
      assert ents[..i] == ents;
    } else {
      RunsMono(ents, unprotected, i + 1);
      SelNext(ents, unprotected, i);
      var pns := Sel(ents[..i], unprotected);
      if Eligible(ents[i], unprotected) && pns != [] {
        RunsNext(pns, ents[i].pktNum);
      }
    }
  }

  // The most runs of which a frame acknowledges all packets.
  const MAX_RUNS: nat := MAX_ACK_BLKS + 1

  /** The entries that a frame is drawn up from: all of them, or those up to the first packet of the 257th run. */
  ghost function Cut(ents: seq<Entry>, unprotected: bool): (p: nat)
    ensures p <= |ents|
  {
    if ents == [] || Runs(Sel(ents[..|ents| - 1], unprotected)) <= MAX_RUNS then |ents| else Cut(ents[..|ents| - 1], unprotected)
  }

  lemma {:induction false} CutIs(ents: seq<Entry>, unprotected: bool, p: nat)
    requires 0 < p <= |ents| && Runs(Sel(ents[..p - 1], unprotected)) <= MAX_RUNS
    requires p < |ents| ==> Runs(Sel(ents[..p], unprotected)) > MAX_RUNS
    ensures Cut(ents, unprotected) == p
  {
    if p < |ents| {
      var rest := ents[..|ents| - 1];
      assert rest[..p] == ents[..p] && rest[..p - 1] == ents[..p - 1];
      RunsMono(rest, unprotected, p);
      CutIs(rest, unprotected, p);
    }
  }

  /** The frame is valid, and acknowledges exactly the eligible packets among the entries it is drawn up from. */
  ghost predicate Describes(ack: Ack, ents: seq<Entry>, unprotected: bool) {
    var pns := Sel(ents[..Cut(ents, unprotected)], unprotected);
    && ValidAck(ack) && |ack.blks| + 1 == Runs(pns)
    && (forall pn: nat {:trigger Acks(ack, pn)} :: Acks(ack, pn) <==> pn in pns)
  }

  /** What is left of the entries: all of them, or those before the 257th run. */
  ghost function Left(ents: seq<Entry>, unprotected: bool): seq<Entry> {
    if Runs(Sel(ents, unprotected)) <= MAX_RUNS || Cut(ents, unprotected) == 0 then ents else ents[..Cut(ents, unprotected) - 1]
  }

  /** A frame being built: the last run, from `first` down to `last`, is not in it yet. */
  datatype Draft = Draft(largest: nat, delay: nat, initial: bool, firstLen: nat, blks: seq<Blk>, gap: nat,
                         first: nat, last: nat)
  {
    predicate Valid() {
      && last <= first
      && (initial ==> first == largest && blks == [])
      && (!initial ==> Bottom(blks, largest - firstLen) - gap - 2 == first)
    }

    function Finish(): Ack
      requires Valid()
    {
      if initial then Ack(largest, delay, first - last, [])
      else Ack(largest, delay, firstLen, blks + [Blk(gap, first - last)])
    }

    /** The next number continues the run. */
    function Continue(): Draft
      requires Valid() && 0 < last
    {
      this.(last := last - 1)
    }

    /** The next number starts a new run. */
    function Start(pn: nat): Draft
      requires Valid() && pn + 1 < last
    {
      var d := if initial then this.(initial := false, firstLen := first - last)
               else this.(blks := blks + [Blk(gap, first - last)]);
      d.(gap := last - pn - 2, first := pn, last := pn)
    }
  }

  function Low(a: Ack): int { Bottom(a.blks, a.largest - a.firstLen) }

  lemma FinishLow(d: Draft)
    requires d.Valid()
    ensures Low(d.Finish()) == d.last
  {
    if !d.initial {
      AppendBlk(d.blks, d.largest - d.firstLen, Blk(d.gap, d.first - d.last), 0);
    }
  }

  lemma ContinueAcks(d: Draft, pn: nat)
    requires d.Valid() && 0 < d.last
    ensures Acks(d.Continue().Finish(), pn) <==> Acks(d.Finish(), pn) || pn == d.last - 1
  {
    if !d.initial {
      AppendBlk(d.blks, d.largest - d.firstLen, Blk(d.gap, d.first - d.last), pn);
      AppendBlk(d.blks, d.largest - d.firstLen, Blk(d.gap, d.first - d.last + 1), pn);
    }
  }

  lemma StartAcks(d: Draft, next: nat, pn: nat)
    requires d.Valid() && next + 1 < d.last
    ensures d.Start(next).Valid()
    ensures Acks(d.Start(next).Finish(), pn) <==> Acks(d.Finish(), pn) || pn == next
  {
    var a := d.Finish();
    FinishLow(d);
    AppendBlk(a.blks, a.largest - a.firstLen, Blk(d.last - next - 2, 0), pn);
  }

  /** The draft acknowledges exactly the numbers in `pns`, with one block for each run but the first. */
  ghost predicate Drafts(d: Draft, pns: seq<nat>) {
    && d.Valid() && pns != [] && pns[0] == d.largest && pns[|pns| - 1] == d.last
    && (forall pn: nat {:trigger pn in pns} :: Acks(d.Finish(), pn) <==> pn in pns)
    && Runs(pns) == |d.Finish().blks| + 1
  }

  lemma DraftStarts(pn: nat, delay: nat)
    ensures Drafts(Draft(pn, delay, true, 0, [], 0, pn, pn), [pn])
  {
  }

  lemma DraftContinues(d: Draft, pns: seq<nat>)
    requires Drafts(d, pns) && 0 < d.last
    ensures Drafts(d.Continue(), pns + [d.last - 1])
  {
    forall pn: nat ensures Acks(d.Continue().Finish(), pn) <==> pn in pns + [d.last - 1] { ContinueAcks(d, pn); }
    RunsNext(pns, d.last - 1);
  }

  lemma DraftTurns(d: Draft, pns: seq<nat>, next: nat)
    requires Drafts(d, pns) && next + 1 < d.last
    ensures Drafts(d.Start(next), pns + [next])
  {
    StartAcks(d, next, 0);
    forall pn: nat ensures Acks(d.Start(next).Finish(), pn) <==> pn in pns + [next] { StartAcks(d, next, pn); }
    RunsNext(pns, next);
  }

  /** The first entry that is eligible. */
  method FirstEligible(ents: seq<Entry>, unprotected: bool) returns (i: nat)
    ensures i <= |ents| && Sel(ents[..i], unprotected) == []
    ensures i < |ents| ==> Eligible(ents[i], unprotected)
    ensures i == |ents| <==> Sel(ents, unprotected) == []
  {
    i := 0;
    while i < |ents| && !Eligible(ents[i], unprotected)
      invariant i <= |ents| && Sel(ents[..i], unprotected) == []
    {
      SelNext(ents, unprotected, i);
      i := i + 1;
    }
    if i < |ents| {
      SelNext(ents, unprotected, i);
      SelPrefix(ents, unprotected, i + 1);
    } else {
      assert ents[..i] == ents;
    }
  }

  lemma {:induction false} SelPrefix(ents: seq<Entry>, unprotected: bool, i: nat)
    requires i <= |ents|
    ensures Sel(ents[..i], unprotected) <= Sel(ents, unprotected)
    decreases |ents| - i
  {
    if i == |ents| {
      assert ents[..i] == ents;
    } else {
      SelPrefix(ents, unprotected, i + 1);
      SelNext(ents, unprotected, i);
    }
  }

  /** The numbers still ahead are below the last one taken in. */
  lemma SelLast(ents: seq<Entry>, unprotected: bool, i: nat)
    requires Descending(ents) && i < |ents| && Sel(ents[..i], unprotected) != []
    ensures var pns := Sel(ents[..i], unprotected); pns[|pns| - 1] > ents[i].pktNum
  {
    var pns := Sel(ents[..i], unprotected);
    var pn := pns[|pns| - 1];
    assert pn in pns;
    SelAre(ents[..i], unprotected, pn);
    var e :| e in ents[..i] && Eligible(e, unprotected) && e.pktNum == pn;
  }

  /** Draws up a frame from the entries up to `p`: all of them, unless there are too many runs. */
  method DrawUp(ents: seq<Entry>, unprotected: bool, start: nat, delay: nat) returns (d: Draft, p: nat, full: bool)
    requires Descending(ents) && start < |ents| && Eligible(ents[start], unprotected)
    requires Sel(ents[..start], unprotected) == []
    ensures start < p <= |ents| && Drawn(d, ents, unprotected, p) && d.delay == delay
    ensures p == Cut(ents, unprotected) && (full <==> Runs(Sel(ents, unprotected)) > MAX_RUNS)
  {
    d := Begin(ents, unprotected, start, delay);
    p, full := start + 1, false;
    while p < |ents| && !full
      invariant start < p <= |ents| && d.delay == delay && Drawing(d, ents, unprotected, p, full)
    {
      d, full := Consider(d, ents, unprotected, p);
      p := p + 1;
    }
    DrawingEnds(d, ents, unprotected, p, full);
  }

  /** The first `p` entries are in the draft; it is `full` once the last of them began the 257th run. */
  ghost predicate Drawing(d: Draft, ents: seq<Entry>, unprotected: bool, p: nat, full: bool) {
    && 0 < p <= |ents| && Drawn(d, ents, unprotected, p)
    && Runs(Sel(ents[..p - 1], unprotected)) <= MAX_RUNS
    && (full <==> Runs(Sel(ents[..p], unprotected)) > MAX_RUNS)
  }

  lemma DrawingEnds(d: Draft, ents: seq<Entry>, unprotected: bool, p: nat, full: bool)
    requires Drawing(d, ents, unprotected, p, full) && (full || p == |ents|)
    ensures p == Cut(ents, unprotected) && (full <==> Runs(Sel(ents, unprotected)) > MAX_RUNS)
  {
    CutIs(ents, unprotected, p);
    RunsMono(ents, unprotected, p);
    if p == |ents| { assert ents[..p] == ents; }
  }

  lemma DrawnDescribes(d: Draft, ents: seq<Entry>, unprotected: bool)
    requires Drawn(d, ents, unprotected, Cut(ents, unprotected))
    ensures Describes(d.Finish(), ents, unprotected)
  {
    FinishLow(d);
  }

  /** The draft acknowledges exactly the eligible numbers among the first `p` entries. */
  ghost predicate Drawn(d: Draft, ents: seq<Entry>, unprotected: bool, p: nat) {
    p <= |ents| && Drafts(d, Sel(ents[..p], unprotected))
  }

  method Begin(ents: seq<Entry>, unprotected: bool, start: nat, delay: nat) returns (d: Draft)
    requires start < |ents| && Eligible(ents[start], unprotected) && Sel(ents[..start], unprotected) == []
    ensures Drawing(d, ents, unprotected, start + 1, false) && d.delay == delay
  {
    var pn := ents[start].pktNum;
    d := Draft(pn, delay, true, 0, [], 0, pn, pn);
    DraftStarts(pn, delay);
    SelNext(ents, unprotected, start);
  }

  /** One turn of the loop of DrawUp. */
  method Consider(d: Draft, ents: seq<Entry>, unprotected: bool, p: nat) returns (d': Draft, full: bool)
    requires Descending(ents) && p < |ents| && Drawing(d, ents, unprotected, p, false)
    ensures Drawing(d', ents, unprotected, p + 1, full) && d'.delay == d.delay
  {
    if Eligible(ents[p], unprotected) {
      d', full := TakeIn(d, ents, unprotected, p);
    } else {
      SelNext(ents, unprotected, p);
      d', full := d, false;
    }
  }

  /** Takes in one more number, which continues the last run or starts a new one. */
  method TakeIn(d: Draft, ents: seq<Entry>, unprotected: bool, p: nat) returns (d': Draft, full: bool)
    requires Descending(ents) && p < |ents| && Eligible(ents[p], unprotected)
    requires Drafts(d, Sel(ents[..p], unprotected)) && Runs(Sel(ents[..p], unprotected)) <= MAX_ACK_BLKS + 1
    ensures Drafts(d', Sel(ents[..p + 1], unprotected)) && d'.delay == d.delay
    ensures full <==> Runs(Sel(ents[..p + 1], unprotected)) > MAX_ACK_BLKS + 1
    ensures Runs(Sel(ents[..p + 1], unprotected)) <= MAX_ACK_BLKS + 2
  {
    ghost var pns := Sel(ents[..p], unprotected);
    SelNext(ents, unprotected, p);
    SelLast(ents, unprotected, p);
    RunsNext(pns, ents[p].pktNum);
    if ents[p].pktNum + 1 == d.last {
      DraftContinues(d, pns);
      return d.Continue(), false;
    }
    DraftTurns(d, pns, ents[p].pktNum);
    d' := d.Start(ents[p].pktNum);
    full := |d'.blks| == MAX_ACK_BLKS;
  }

  /** The time from `since` to `ts`, in 64-bit arithmetic. */
  function Elapsed(since: nat, ts: nat): nat { if since <= ts then ts - since else (ts - since) % SPAN }

  /** The delay is the time from `since` to `ts` in these units, rounded down. */
  predicate InUnits(delay: nat, since: nat, ts: nat, unit: nat) {
    delay * unit <= Elapsed(since, ts) < (delay + 1) * unit
  }

  /** The delay is the time since the largest number arrived. */
  ghost predicate Delays(ack: Ack, ents: seq<Entry>, unprotected: bool, ts: nat, unit: nat) {
    exists e :: e in ents && Eligible(e, unprotected) && e.pktNum == ack.largest && InUnits(ack.delay, e.tstamp, ts, unit)
  }

  method Delay(since: nat, ts: nat, unit: nat) returns (delay: nat)
    requires 0 < unit
    ensures InUnits(delay, since, ts, unit)
  {
    var time := if since <= ts then ts - since else (ts - since) % SPAN;
    delay := time / unit;
    Quotient(time, unit);
  }

  lemma Quotient(x: nat, w: nat)
    requires 0 < w
    ensures x / w * w <= x < (x / w + 1) * w
  {
    var q := x / w;
    assert x == q * w + x % w;
    assert (q + 1) * w == q * w + w;
  }

  /** The numbers of a draft start with that of the first entry it may acknowledge. */
  lemma StartsWith(d: Draft, ents: seq<Entry>, unprotected: bool, start: nat, p: nat)
    requires start < p <= |ents| && Drawn(d, ents, unprotected, p)
    requires Sel(ents[..start], unprotected) == [] && Eligible(ents[start], unprotected)
    ensures d.Finish().largest == ents[start].pktNum
  {
    SelNext(ents, unprotected, start);
    SelPrefix(ents[..p], unprotected, start + 1);
    assert ents[..p][..start + 1] == ents[..start + 1];
  }

  /** Writes a frame about the entries from `start` on, which is the first that it may acknowledge. */
  method Compose(ents: seq<Entry>, ts: nat, delayExponent: nat, unprotected: bool, start: nat) returns (ack: Ack, n: nat, full: bool)
    requires Descending(ents) && start < |ents| && Eligible(ents[start], unprotected)
    requires Sel(ents[..start], unprotected) == []
    ensures Describes(ack, ents, unprotected) && Delays(ack, ents, unprotected, ts, Pow2(delayExponent))
    ensures 0 < n <= |ents| && n == Cut(ents, unprotected) && (full <==> Runs(Sel(ents, unprotected)) > MAX_RUNS)
  {
    var delay := Delay(ents[start].tstamp, ts, Pow2(delayExponent));
    var d;
    d, n, full := DrawUp(ents, unprotected, start, delay);
    DrawnDescribes(d, ents, unprotected);
    ack := d.Finish();
    DrawnDelays(d, ents, unprotected, start, n, ts, Pow2(delayExponent));
  }

  lemma DrawnDelays(d: Draft, ents: seq<Entry>, unprotected: bool, start: nat, p: nat, ts: nat, unit: nat)
    requires start < p <= |ents| && Drawn(d, ents, unprotected, p) && Sel(ents[..start], unprotected) == []
    requires Eligible(ents[start], unprotected) && InUnits(d.delay, ents[start].tstamp, ts, unit)
    ensures Delays(d.Finish(), ents, unprotected, ts, unit)
  {
    StartsWith(d, ents, unprotected, start, p);
    assert ents[start] in ents;
  }

  /**
   Builds a frame if one is due and there is something to acknowledge.  It is valid and
   acknowledges exactly the eligible packets, if they form at most 256 runs, and otherwise
   those up to the first packet of the 257th run, from which on the tracker then forgets.  It tells
   how long ago the largest of them arrived.
   */
  method CreateAckFrame(tr: Acktr, ts: nat, delayExponent: nat, unprotected: bool) returns (r: Option<Ack>)
    requires tr.Valid()
    modifies tr
    ensures tr.Valid() && tr.activeAck == old(tr.activeAck) && tr.acks.items == old(tr.acks.items)
    ensures r.None? <==> !old(tr.activeAck) || Sel(old(tr.ents), unprotected) == []
    ensures r.None? ==> tr.ents == old(tr.ents)
    ensures r.Some? ==> Describes(r.value, old(tr.ents), unprotected) && tr.ents == Left(old(tr.ents), unprotected)
    ensures r.Some? ==> Delays(r.value, old(tr.ents), unprotected, ts, Pow2(delayExponent))
  {
    if !tr.activeAck {
      return None;
    }
    var start := FirstEligible(tr.ents, unprotected);
    if start == |tr.ents| {
      return None;
    }
    var ack, n, full := Compose(tr.ents, ts, delayExponent, unprotected, start);
    if full {
      tr.Forget(n - 1);
    }
    r := Some(ack);
  }
}
