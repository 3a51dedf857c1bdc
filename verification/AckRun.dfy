/**
 Whole runs of the ACK machinery: packets arrive, ACK frames are built and sent, and
 are acknowledged in turn.
 */
module AckRun {
  import opened Bits
  import opened FlowControl
  import opened AckFrames
  import opened AckTracker
  import opened AckBuilder

  /** `Send` is a chance to send an ACK frame, and `SendOther` a packet without one, which takes a number too. */
  datatype Event =
    | Packet(entry: Entry, active: bool)
    | Send(unprotected: bool, ts: nat)
    | SendOther
    | AckIn(ack: Ack, unprotected: bool)

  /** The tracker, the frames sent so far, the next packet number, the packets received, and the exponent of the delays. */
  datatype Track = Track(ents: seq<Entry>, items: seq<SentAck>, active: bool, frames: seq<Ack>, next: nat, received: set<nat>,
                         exponent: nat)

  /** Nothing was received or sent yet; the first number is chosen by the application. */
  ghost predicate Fresh(s: Track) { s == Track([], [], false, [], s.next, {}, s.exponent) }

  // ----- what each event does -----

  /** A packet that is tracked already, or an ACK frame that is not valid, ends the connection and changes nothing. */
  ghost predicate Refused(s: Track, e: Event) {
    match e
    case Packet(entry, _) => Tracked(s.ents, entry.pktNum)
    case AckIn(ack, _) => !ValidAck(ack)
    case _ => false
  }

  ghost function AfterPacket(s: Track, e: Entry, active: bool): Track {
    var r := s.(received := s.received + {e.pktNum});
    if Tracked(s.ents, e.pktNum) then r else r.(ents := Trimmed(Insert(s.ents, e)), active := s.active || active)
  }

  ghost function AfterAckIn(s: Track, ack: Ack, unprotected: bool): Track {
    if !ValidAck(ack) then s else
    var j := Selected(s.items, ack, unprotected);
    if j < |s.items| then s.(ents := Survivors(s.ents, s.items[j].ack), items := s.items[..j]) else s
  }

  /** A frame is due, and there is something to acknowledge. */
  ghost predicate Due(s: Track, unprotected: bool) { s.active && Sel(s.ents, unprotected) != [] }

  /** A frame is sent in packet `s.next`. */
  ghost predicate Emits(s: Track, unprotected: bool, ack: Ack, s': Track) {
    && Describes(ack, s.ents, unprotected)
    && s' == s.(ents := Left(s.ents, unprotected), items := Pushed(s.items, SentAck(ack, s.next, unprotected)), active := false,
                frames := s.frames + [ack], next := s.next + 1)
  }

  ghost predicate LeadsTo(s: Track, e: Event, s': Track) {
    match e
    case Packet(entry, active) => s' == AfterPacket(s, entry, active)
    case AckIn(ack, unprotected) => s' == AfterAckIn(s, ack, unprotected)
    case Send(unprotected, ts) =>
      if Due(s, unprotected) then exists ack :: Emits(s, unprotected, ack, s') && Delays(ack, s.ents, unprotected, ts, Pow2(s.exponent))
      else s' == s
    case SendOther => s' == s.(next := s.next + 1)
  }

  /** The tracker is full, or the packets to be acknowledged form too many runs. */
  ghost predicate Overflows(s: Track, e: Event) {
    match e
    case Packet(entry, _) => !Tracked(s.ents, entry.pktNum) && |s.ents| == MAX_ENT
    case Send(unprotected, _) => s.active && Runs(Sel(s.ents, unprotected)) > MAX_RUNS
    case _ => false
  }

  // ----- what is kept -----

  /** Every frame acknowledges received packets only. */
  ghost predicate Honest(frames: seq<Ack>, received: set<nat>) {
    forall i, pn: nat {:trigger Acks(frames[i], pn)} :: 0 <= i < |frames| && Acks(frames[i], pn) ==> pn in received
  }

  ghost predicate AckedBy(frames: seq<Ack>, pn: nat) { exists i :: 0 <= i < |frames| && Acks(frames[i], pn) }

  /** No received packet has been lost sight of before a frame acknowledged it. */
  ghost predicate Complete(s: Track) {
    forall pn {:trigger pn in s.received} :: pn in s.received ==> Tracked(s.ents, pn) || AckedBy(s.frames, pn)
  }

  ghost predicate AllReceived(ents: seq<Entry>, received: set<nat>) {
    forall i :: 0 <= i < |ents| ==> ents[i].pktNum in received
  }

  /** The frames in the ring have been sent. */
  ghost predicate RingSent(items: seq<SentAck>, frames: seq<Ack>, next: nat) {
    forall i :: 0 <= i < |items| ==> items[i].ack in frames && items[i].pktNum < next
  }

  ghost predicate Sound(s: Track) {
    && Descending(s.ents) && |s.ents| <= MAX_ENT && AllReceived(s.ents, s.received)
    && Honest(s.frames, s.received) && RingSent(s.items, s.frames, s.next)
  }

  lemma Here(ents: seq<Entry>, x: Entry)
    requires x in ents
    ensures Tracked(ents, x.pktNum)
  {
    var k :| 0 <= k < |ents| && ents[k] == x;
  }

  lemma {:induction false} PlaceOf(ents: seq<Entry>, pktNum: nat) returns (i: nat)
    ensures Place(ents, i, pktNum)
  {
    i := 0;
    if ents != [] && ents[0].pktNum > pktNum {
      var k := PlaceOf(ents[1..], pktNum);
      i := k + 1;
      forall j | 0 <= j < i ensures ents[j].pktNum > pktNum { if j > 0 { assert ents[j] == ents[1..][j - 1]; } }
    }
  }

  lemma AddIsLargest(ents: seq<Entry>, e: Entry) returns (ents': seq<Entry>)
    requires Descending(ents) && |ents| <= MAX_ENT && !Tracked(ents, e.pktNum)
    ensures ents' == Trimmed(Insert(ents, e)) && Largest(ents, e, ents', MAX_ENT)
  {
    var i := PlaceOf(ents, e.pktNum);
    InsertLargest(ents, i, e, MAX_ENT);
    ents' := Trimmed(Insert(ents, e));
  }

  lemma AddReceived(ents: seq<Entry>, e: Entry, ents': seq<Entry>, received: set<nat>)
    requires AllReceived(ents, received) && Largest(ents, e, ents', MAX_ENT)
    ensures AllReceived(ents', received + {e.pktNum})
  {
    forall i | 0 <= i < |ents'| ensures ents'[i].pktNum in received + {e.pktNum} {
      if ents'[i] != e { assert ents'[i] in ents; }
    }
  }

  lemma HonestMore(frames: seq<Ack>, received: set<nat>, pn: nat)
    requires Honest(frames, received)
    ensures Honest(frames, received + {pn})
  {
  }

  lemma PacketSound(s: Track, e: Entry, active: bool)
    requires Sound(s)
    ensures Sound(AfterPacket(s, e, active))
  {
    HonestMore(s.frames, s.received, e.pktNum);
    if Tracked(s.ents, e.pktNum) {
      var k :| 0 <= k < |s.ents| && s.ents[k].pktNum == e.pktNum;
      assert s.received + {e.pktNum} == s.received;
    } else {
      var ents' := AddIsLargest(s.ents, e);
      AddReceived(s.ents, e, ents', s.received);
    }
  }

  lemma PruneReceived(ents: seq<Entry>, ack: Ack, received: set<nat>)
    requires AllReceived(ents, received)
    ensures AllReceived(Survivors(ents, ack), received)
  {
    forall i | 0 <= i < |Survivors(ents, ack)| ensures Survivors(ents, ack)[i].pktNum in received {
      SurvivorsAre(ents, ack, Survivors(ents, ack)[i]);
    }
  }

  lemma AckInSound(s: Track, ack: Ack, unprotected: bool)
    requires Sound(s)
    ensures Sound(AfterAckIn(s, ack, unprotected))
  {
    var j := Selected(s.items, ack, unprotected);
    if ValidAck(ack) && j < |s.items| {
      SurvivorsDescending(s.ents, s.items[j].ack);
      PruneReceived(s.ents, s.items[j].ack, s.received);
    }
  }

  /** A frame built from the tracker is honest. */
  lemma BuiltHonest(ents: seq<Entry>, unprotected: bool, ack: Ack, frames: seq<Ack>, received: set<nat>)
    requires AllReceived(ents, received) && Honest(frames, received) && Describes(ack, ents, unprotected)
    ensures Honest(frames + [ack], received)
  {
    var p := Cut(ents, unprotected);
    forall pn: nat | Acks(ack, pn) ensures pn in received {
      SelAre(ents[..p], unprotected, pn);
      var e :| e in ents[..p] && e.pktNum == pn;
    }
  }

  lemma RingPushed(items: seq<SentAck>, ack: Ack, unprotected: bool, frames: seq<Ack>, next: nat)
    requires RingSent(items, frames, next)
    ensures RingSent(Pushed(items, SentAck(ack, next, unprotected)), frames + [ack], next + 1)
  {
    var items' := Pushed(items, SentAck(ack, next, unprotected));
    forall i | 0 <= i < |items'| ensures items'[i].ack in frames + [ack] && items'[i].pktNum < next + 1 {
      if i > 0 { assert items'[i] == items[i - 1]; }
    }
  }

  lemma EmitSound(s: Track, unprotected: bool, ack: Ack, s': Track)
    requires Sound(s) && Emits(s, unprotected, ack, s')
    ensures Sound(s')
  {
    BuiltHonest(s.ents, unprotected, ack, s.frames, s.received);
    RingPushed(s.items, ack, unprotected, s.frames, s.next);
  }

  lemma StepSound(s: Track, e: Event, s': Track)
    requires Sound(s) && LeadsTo(s, e, s')
    ensures Sound(s')
  {
    match e
    case Packet(entry, active) => PacketSound(s, entry, active);
    case AckIn(ack, unprotected) => AckInSound(s, ack, unprotected);
    case Send(unprotected, _) =>
      if Due(s, unprotected) {
        var ack :| Emits(s, unprotected, ack, s');
        EmitSound(s, unprotected, ack, s');
      }
    case SendOther =>
  }

  // ----- answers -----

  /** The packet is tracked, and a frame of this protection may acknowledge it. */
  ghost predicate Ackable(s: Track, unprotected: bool, pn: nat) {
    exists e :: e in s.ents && e.pktNum == pn && (unprotected ==> e.unprotected)
  }

  /**
   If an acknowledgement is due, the next chance to send one is used: the frame acknowledges all packets that may
   be acknowledged in it, unless they form too many runs, and no others; it tells how long ago the largest of
   them arrived; and then no more is due.
   */
  lemma SendAnswers(s: Track, unprotected: bool, ts: nat, s': Track) returns (ack: Ack)
    requires Sound(s) && LeadsTo(s, Send(unprotected, ts), s') && s.active && exists e :: e in s.ents && Eligible(e, unprotected)
    ensures s'.frames == s.frames + [ack] && !s'.active && s'.next == s.next + 1
    ensures forall pn: nat {:trigger Acks(ack, pn)} :: Acks(ack, pn) ==> Ackable(s, unprotected, pn) && pn <= ack.largest
    ensures !Overflows(s, Send(unprotected, ts)) ==> forall pn: nat {:trigger Acks(ack, pn)} :: Ackable(s, unprotected, pn) ==> Acks(ack, pn)
    ensures exists e :: e in s.ents && Eligible(e, unprotected) && e.pktNum == ack.largest && InUnits(ack.delay, e.tstamp, ts, Pow2(s.exponent))
  {
    var e :| e in s.ents && Eligible(e, unprotected);
    SelAre(s.ents, unprotected, e.pktNum);
    ack :| Emits(s, unprotected, ack, s') && Delays(ack, s.ents, unprotected, ts, Pow2(s.exponent));
    forall pn: nat | Acks(ack, pn) ensures Ackable(s, unprotected, pn) && pn <= ack.largest { AckedAckable(s, unprotected, ack, pn); }
    if !Overflows(s, Send(unprotected, ts)) {
      forall pn: nat | Ackable(s, unprotected, pn) ensures Acks(ack, pn) { AckableAcked(s, unprotected, ack, pn); }
    }
  }

  lemma AckedAckable(s: Track, unprotected: bool, ack: Ack, pn: nat)
    requires Describes(ack, s.ents, unprotected) && Acks(ack, pn)
    ensures Ackable(s, unprotected, pn) && pn <= ack.largest
  {
    SelAre(s.ents[..Cut(s.ents, unprotected)], unprotected, pn);
    AckLargest(ack, pn);
  }

  lemma AckableAcked(s: Track, unprotected: bool, ack: Ack, pn: nat)
    requires Describes(ack, s.ents, unprotected) && Ackable(s, unprotected, pn) && Runs(Sel(s.ents, unprotected)) <= MAX_RUNS
    ensures Acks(ack, pn)
  {
    WholeCut(s.ents, unprotected);
    assert s.ents[..|s.ents|] == s.ents;
    SelAre(s.ents, unprotected, pn);
  }

  lemma AckLargest(ack: Ack, pn: nat)
    requires ValidAck(ack) && Acks(ack, pn)
    ensures pn <= ack.largest
  {
    if AcksBelow(ack.blks, ack.largest - ack.firstLen, pn) { BelowLow(ack.blks, ack.largest - ack.firstLen, pn); }
  }

  lemma WholeCut(ents: seq<Entry>, unprotected: bool)
    requires Runs(Sel(ents, unprotected)) <= MAX_RUNS
    ensures Cut(ents, unprotected) == |ents|
  {
    if ents != [] {
      RunsMono(ents, unprotected, |ents| - 1);
      CutIs(ents, unprotected, |ents|);
    }
  }

  // ----- completeness -----

  /** A packet added to a tracker that is not full loses nothing. */
  lemma PacketComplete(s: Track, e: Entry, active: bool)
    requires Sound(s) && Complete(s) && (Tracked(s.ents, e.pktNum) || |s.ents| < MAX_ENT)
    ensures Complete(AfterPacket(s, e, active))
  {
    if !Tracked(s.ents, e.pktNum) {
      var ents' := AddIsLargest(s.ents, e);
      Here(ents', e);
      forall pn | pn in s.received && Tracked(s.ents, pn) ensures Tracked(ents', pn) {
        var k :| 0 <= k < |s.ents| && s.ents[k].pktNum == pn;
        Here(ents', s.ents[k]);
      }
    }
  }

  /** Removing what a sent frame covered loses nothing. */
  lemma PruneComplete(s: Track, ack: Ack, unprotected: bool)
    requires Sound(s) && Complete(s)
    ensures Complete(AfterAckIn(s, ack, unprotected))
  {
    var j := Selected(s.items, ack, unprotected);
    if ValidAck(ack) && j < |s.items| {
      var sent := s.items[j].ack;
      forall pn | pn in s.received ensures Tracked(Survivors(s.ents, sent), pn) || AckedBy(s.frames, pn) {
        if Acks(sent, pn) {
          var k :| 0 <= k < |s.frames| && s.frames[k] == sent;
        } else if Tracked(s.ents, pn) {
          var k :| 0 <= k < |s.ents| && s.ents[k].pktNum == pn;
          SurvivorsAre(s.ents, sent, s.ents[k]);
          Here(Survivors(s.ents, sent), s.ents[k]);
        }
      }
    }
  }

  /** Packets are forgotten only for a frame that was sent in a packet now acknowledged, without protection only if it was sent so. */
  lemma PrunedFor(s: Track, ack: Ack, unprotected: bool, pn: nat)
    requires Tracked(s.ents, pn) && !Tracked(AfterAckIn(s, ack, unprotected).ents, pn)
    ensures exists j :: 0 <= j < |s.items| && Acks(ack, s.items[j].pktNum) && Acks(s.items[j].ack, pn) && (unprotected ==> s.items[j].unprotected)
  {
    var j := Selected(s.items, ack, unprotected);
    SelectedHit(s.items, ack, unprotected);
    var k :| 0 <= k < |s.ents| && s.ents[k].pktNum == pn;
    SurvivorsAre(s.ents, s.items[j].ack, s.ents[k]);
    if !Acks(s.items[j].ack, pn) { Here(Survivors(s.ents, s.items[j].ack), s.ents[k]); }
  }

  lemma {:induction false} SelectedHit(items: seq<SentAck>, ack: Ack, unprotected: bool)
    ensures var j := Selected(items, ack, unprotected); j < |items| ==> Acks(ack, items[j].pktNum) && (unprotected ==> items[j].unprotected)
  {
    if items != [] { SelectedHit(items[1..], ack, unprotected); }
  }

  lemma AckedMore(frames: seq<Ack>, ack: Ack, pn: nat)
    ensures AckedBy(frames + [ack], pn) <==> AckedBy(frames, pn) || Acks(ack, pn)
  {
    var frames' := frames + [ack];
    if AckedBy(frames, pn) {
      var i :| 0 <= i < |frames| && Acks(frames[i], pn);
      assert frames'[i] == frames[i];
    }
    if Acks(ack, pn) { assert frames'[|frames|] == ack; }
    if AckedBy(frames', pn) {
      var i :| 0 <= i < |frames'| && Acks(frames'[i], pn);
      if i < |frames| { assert frames[i] == frames'[i]; }
    }
  }

  lemma EmitComplete(s: Track, unprotected: bool, ack: Ack, s': Track)
    requires Complete(s) && Emits(s, unprotected, ack, s') && Runs(Sel(s.ents, unprotected)) <= MAX_RUNS
    ensures Complete(s')
  {
    forall pn | pn in s.received && !Tracked(s.ents, pn) ensures AckedBy(s'.frames, pn) { AckedMore(s.frames, ack, pn); }
  }

  lemma StepComplete(s: Track, e: Event, s': Track)
    requires Sound(s) && Complete(s) && LeadsTo(s, e, s') && !Overflows(s, e)
    ensures Complete(s')
  {
    match e
    case Packet(entry, active) => PacketComplete(s, entry, active);
    case AckIn(ack, unprotected) => PruneComplete(s, ack, unprotected);
    case Send(unprotected, _) =>
      if Due(s, unprotected) {
        var ack :| Emits(s, unprotected, ack, s');
        EmitComplete(s, unprotected, ack, s');
      }
    case SendOther =>
  }

  // ----- overflow -----

  /** A full tracker drops the smallest number; nothing is lost exactly if that was acknowledged before. */
  lemma DroppedIff(s: Track, e: Entry, active: bool)
    requires Sound(s) && Complete(s) && Overflows(s, Packet(e, active))
    ensures |Insert(s.ents, e)| == MAX_ENT + 1
    ensures Complete(AfterPacket(s, e, active)) <==> AckedBy(s.frames, Insert(s.ents, e)[MAX_ENT].pktNum)
  {
    var i := PlaceOf(s.ents, e.pktNum);
    InsertAt(s.ents, i, e);
    assert i < |s.ents| ==> s.ents[i].pktNum < e.pktNum;
    InsertDescending(s.ents, i, e);
    var r, s' := Insert(s.ents, e), AfterPacket(s, e, active);
    var last := r[MAX_ENT];
    forall pn | pn in s'.received && pn != last.pktNum ensures Tracked(s'.ents, pn) || AckedBy(s.frames, pn) {
      if pn == e.pktNum {
        assert r[i] == e;
        assert s'.ents[i] == e;
      } else if Tracked(s.ents, pn) {
        var k :| 0 <= k < |s.ents| && s.ents[k].pktNum == pn;
        InsertKeeps(s.ents, i, e, k, r);
      }
    }
    assert !Tracked(s'.ents, last.pktNum);
    LastReceived(s.ents, i, e, s.received, r);
  }

  lemma InsertKeeps(ents: seq<Entry>, i: nat, e: Entry, k: nat, r: seq<Entry>)
    requires i <= |ents| == MAX_ENT && k < |ents| && r == ents[..i] + [e] + ents[i..] && ents[k].pktNum != r[MAX_ENT].pktNum
    ensures Tracked(r[..MAX_ENT], ents[k].pktNum)
  {
    var j := if k < i then k else k + 1;
    assert r[j] == ents[k];
    assert r[..MAX_ENT][j] == ents[k];
  }

  lemma LastReceived(ents: seq<Entry>, i: nat, e: Entry, received: set<nat>, r: seq<Entry>)
    requires i <= |ents| == MAX_ENT && AllReceived(ents, received) && r == ents[..i] + [e] + ents[i..]
    ensures r[MAX_ENT].pktNum in received + {e.pktNum}
  {
    if i < MAX_ENT { assert r[MAX_ENT] == ents[MAX_ENT - 1]; }
  }

  /**
   A frame for too many runs makes the tracker forget the entries past those it was drawn up
   from; nothing is lost exactly if all of these were acknowledged before.
   */
  lemma ForgottenIff(s: Track, unprotected: bool, ack: Ack, s': Track)
    requires Sound(s) && Complete(s) && Emits(s, unprotected, ack, s') && Runs(Sel(s.ents, unprotected)) > MAX_RUNS
    ensures Complete(s') <==>
            forall i {:trigger s.ents[i]} :: Cut(s.ents, unprotected) <= i < |s.ents| ==> AckedBy(s.frames, s.ents[i].pktNum)
  {
    var p := CutEligible(s.ents, unprotected);
    SelAre(s.ents[..p], unprotected, s.ents[p - 1].pktNum);
    assert s.ents[..p][p - 1] == s.ents[p - 1];
    forall i | p <= i < |s.ents| ensures !Acks(ack, s.ents[i].pktNum) { SelAre(s.ents[..p], unprotected, s.ents[i].pktNum); }
    CutComplete(s, ack, s', p);
  }

  /** After a frame that acknowledges entry `p - 1`, only the entries before it are tracked. */
  lemma CutComplete(s: Track, ack: Ack, s': Track, p: nat)
    requires Sound(s) && Complete(s) && 0 < p <= |s.ents| && Acks(ack, s.ents[p - 1].pktNum)
    requires forall i {:trigger s.ents[i]} :: p <= i < |s.ents| ==> !Acks(ack, s.ents[i].pktNum)
    requires s'.received == s.received && s'.frames == s.frames + [ack] && s'.ents == s.ents[..p - 1]
    ensures Complete(s') <==> forall i {:trigger s.ents[i]} :: p <= i < |s.ents| ==> AckedBy(s.frames, s.ents[i].pktNum)
  {
    AckedMore(s.frames, ack, s.ents[p - 1].pktNum);
    if Complete(s') {
      forall i | p <= i < |s.ents| ensures AckedBy(s.frames, s.ents[i].pktNum) {
        assert s.ents[i].pktNum in s'.received && !Tracked(s'.ents, s.ents[i].pktNum);
        AckedMore(s.frames, ack, s.ents[i].pktNum);
      }
    }
    if forall i {:trigger s.ents[i]} :: p <= i < |s.ents| ==> AckedBy(s.frames, s.ents[i].pktNum) {
      forall pn | pn in s'.received ensures Tracked(s'.ents, pn) || AckedBy(s'.frames, pn) {
        AckedMore(s.frames, ack, pn);
        if Tracked(s.ents, pn) {
          var k :| 0 <= k < |s.ents| && s.ents[k].pktNum == pn;
          assert k < p - 1 ==> s'.ents[k] == s.ents[k];
        }
      }
    }
  }

  /** The last entry that a frame for too many runs is drawn up from is in it. */
  lemma {:induction false} CutEligible(ents: seq<Entry>, unprotected: bool) returns (p: nat)
    requires Runs(Sel(ents, unprotected)) > MAX_RUNS
    ensures p == Cut(ents, unprotected) && 0 < p && Eligible(ents[p - 1], unprotected)
  {
    var n := |ents| - 1;
    assert ents[..n + 1] == ents;
    if Runs(Sel(ents[..n], unprotected)) <= MAX_RUNS {
      p := n + 1;
      SelNext(ents, unprotected, n);
    } else {
      p := CutEligible(ents[..n], unprotected);
    }
  }

  // ----- a run in which a packet is forgotten -----

  /** The even numbers below 2n, largest first. */
  function Evens(n: nat): (r: seq<Entry>)
    ensures |r| == n && forall i :: 0 <= i < n ==> r[i] == Entry(2 * (n - 1 - i), 0, false)
  {
    if n == 0 then [] else [Entry(2 * (n - 1), 0, false)] + Evens(n - 1)
  }

  /** `n` packets with even numbers, in order, and then a frame. */
  function Sparse(n: nat): (r: seq<Event>)
    ensures |r| == n + 1 && r[n] == Send(false, 0)
    ensures forall i :: 0 <= i < n ==> r[i] == Packet(Entry(2 * i, 0, false), true)
  {
    seq(n, i requires 0 <= i => Packet(Entry(2 * i, 0, false), true)) + [Send(false, 0)]
  }

  lemma {:induction false} EvensRuns(n: nat, k: nat)
    requires k <= n
    ensures |Sel(Evens(n)[..k], false)| == k == Runs(Sel(Evens(n)[..k], false))
    ensures k > 0 ==> Sel(Evens(n)[..k], false)[k - 1] == 2 * (n - k)
  {
    if k > 0 {
      EvensRuns(n, k - 1);
      SelNext(Evens(n), false, k - 1);
      if k > 1 { RunsNext(Sel(Evens(n)[..k - 1], false), 2 * (n - k)); }
    }
  }

  lemma {:induction false} SparseTracks(states: seq<Track>, n: nat, k: nat)
    requires Run(states, Sparse(n)) && Fresh(states[0]) && k <= n <= MAX_ENT
    ensures states[k].ents == Evens(k) && states[k].frames == [] && (k > 0 ==> states[k].active && 0 in states[k].received)
  {
    if k > 0 {
      SparseTracks(states, n, k - 1);
      assert LeadsTo(states[k - 1], Sparse(n)[k - 1], states[k]);
      EvenTracked(states[k - 1], k - 1);
    }
  }

  lemma EvenTracked(s: Track, k: nat)
    requires s.ents == Evens(k) && k < MAX_ENT
    ensures var s' := AfterPacket(s, Entry(2 * k, 0, false), true);
            s'.ents == Evens(k + 1) && s'.frames == s.frames && s'.active && s'.received == s.received + {2 * k}
  {
  }

  /** If there are more than 257 of them, packet 0 is received, but in the end it is neither tracked nor acknowledged. */
  lemma PacketForgotten(states: seq<Track>, n: nat)
    requires Run(states, Sparse(n)) && Fresh(states[0]) && 257 < n <= 1024
    ensures var s := states[n + 1]; 0 in s.received && !Tracked(s.ents, 0) && !AckedBy(s.frames, 0)
  {
    var s, s' := states[n], states[n + 1];
    SparseTracks(states, n, n);
    assert LeadsTo(s, Sparse(n)[n], s');
    EvensCut(s.ents, n, MAX_RUNS + 1);
    var ack :| Emits(s, false, ack, s');
    EvensForgotten(s, n, ack, s');
  }

  lemma EvensCut(ents: seq<Entry>, n: nat, p: nat)
    requires ents == Evens(n) && p == MAX_RUNS + 1 < n
    ensures Cut(ents, false) == p && Sel(ents, false) != [] && Runs(Sel(ents, false)) > MAX_RUNS && 0 !in Sel(ents[..p], false)
  {
    EvensRuns(n, n);
    EvensRuns(n, p);
    EvensRuns(n, p - 1);
    assert ents[..n] == ents;
    CutIs(ents, false, p);
    SelAre(ents[..p], false, 0);
  }

  lemma EvensForgotten(s: Track, n: nat, ack: Ack, s': Track)
    requires s.ents == Evens(n) && s.frames == [] && MAX_RUNS + 1 < n && Emits(s, false, ack, s')
    ensures !Tracked(s'.ents, 0) && !AckedBy(s'.frames, 0)
  {
    EvensCut(s.ents, n, MAX_RUNS + 1);
    AckedMore(s.frames, ack, 0);
  }

  // ----- runs -----

  /** The states of a run: one before and after each event, of which only the last may be refused. */
  ghost predicate Run(states: seq<Track>, events: seq<Event>) {
    && |states| == |events| + 1
    && (forall i {:trigger events[i]} :: 0 <= i < |events| ==> LeadsTo(states[i], events[i], states[i + 1]))
    && (forall i {:trigger events[i]} :: 0 <= i < |events| - 1 ==> !Refused(states[i], events[i]))
  }

  /** The packets that arrive in the first `n` events. */
  ghost function Arrived(events: seq<Event>, n: nat): set<nat>
    requires n <= |events|
  {
    if n == 0 then {} else
    Arrived(events, n - 1) + (if events[n - 1].Packet? then {events[n - 1].entry.pktNum} else {})
  }

  lemma {:induction false} RunSound(states: seq<Track>, events: seq<Event>, n: nat)
    requires Run(states, events) && Fresh(states[0]) && n <= |events|
    ensures Sound(states[n]) && states[n].received == Arrived(events, n)
  {
    if n > 0 {
      RunSound(states, events, n - 1);
      assert LeadsTo(states[n - 1], events[n - 1], states[n]);
      StepSound(states[n - 1], events[n - 1], states[n]);
    }
  }

  /** Without an overflow, every packet that has arrived is still tracked or was acknowledged in a frame. */
  lemma {:induction false} RunComplete(states: seq<Track>, events: seq<Event>, n: nat)
    requires Run(states, events) && Fresh(states[0]) && n <= |events|
    requires forall i {:trigger events[i]} :: 0 <= i < n ==> !Overflows(states[i], events[i])
    ensures Complete(states[n])
  {
    if n > 0 {
      RunComplete(states, events, n - 1);
      RunSound(states, events, n - 1);
      assert LeadsTo(states[n - 1], events[n - 1], states[n]) && !Overflows(states[n - 1], events[n - 1]);
      StepComplete(states[n - 1], events[n - 1], states[n]);
    }
  }

  lemma {:induction false} ReceivedBound(ents: seq<Entry>, received: set<nat>)
    requires Descending(ents) && AllReceived(ents, received)
    ensures |ents| <= |received|
  {
    if ents != [] {
      var n := |ents| - 1;
      var pn := ents[n].pktNum;
      forall i | 0 <= i < n ensures ents[..n][i].pktNum in received - {pn} { assert ents[..n][i] == ents[i]; }
      ReceivedBound(ents[..n], received - {pn});
    }
  }

  lemma {:induction false} RunsBound(ents: seq<Entry>, unprotected: bool)
    ensures Runs(Sel(ents, unprotected)) <= |ents|
  {
    if ents != [] {
      var n := |ents| - 1;
      RunsBound(ents[..n], unprotected);
      assert ents[..n + 1] == ents;
      SelNext(ents, unprotected, n);
      if Eligible(ents[n], unprotected) && Sel(ents[..n], unprotected) != [] {
        RunsNext(Sel(ents[..n], unprotected), ents[n].pktNum);
      }
    }
  }

  lemma {:induction false} ArrivedMono(events: seq<Event>, i: nat, n: nat)
    requires i <= n <= |events|
    ensures Arrived(events, i) <= Arrived(events, n)
  {
    if i < n { ArrivedMono(events, i, n - 1); }
  }

  /** It takes more than 256 different packets to overflow. */
  lemma FewFit(states: seq<Track>, events: seq<Event>, i: nat)
    requires Run(states, events) && Fresh(states[0]) && i < |events| && |Arrived(events, |events|)| <= MAX_RUNS
    ensures !Overflows(states[i], events[i])
  {
    RunSound(states, events, i);
    ArrivedMono(events, i, |events|);
    SubsetSize(Arrived(events, i), Arrived(events, |events|));
    ReceivedBound(states[i].ents, states[i].received);
    if events[i].Send? { RunsBound(states[i].ents, events[i].unprotected); }
  }

  /**
   Any run: no frame acknowledges a packet that has not arrived; and unless the tracker or a
   frame overflowed, for which more than 256 packets must arrive, every packet that has arrived
   is still tracked or was acknowledged in a frame.
   */
  lemma RunKeeps(states: seq<Track>, events: seq<Event>)
    requires Run(states, events) && Fresh(states[0])
    ensures var s := states[|events|]; Honest(s.frames, s.received) && s.received == Arrived(events, |events|)
    ensures (forall i {:trigger events[i]} :: 0 <= i < |events| ==> !Overflows(states[i], events[i])) ==> Complete(states[|events|])
    ensures |Arrived(events, |events|)| <= MAX_RUNS ==> Complete(states[|events|])
  {
    RunSound(states, events, |events|);
    if |Arrived(events, |events|)| <= MAX_RUNS {
      forall i | 0 <= i < |events| ensures !Overflows(states[i], events[i]) { FewFit(states, events, i); }
    }
    if forall i {:trigger events[i]} :: 0 <= i < |events| ==> !Overflows(states[i], events[i]) {
      RunComplete(states, events, |events|);
    }
  }

  /** Event `i` was a packet that calls for an acknowledgement, and no frame was sent since, up to event `n`. */
  ghost predicate Unanswered(states: seq<Track>, events: seq<Event>, i: nat, n: nat)
    requires n <= |events| && |states| == |events| + 1
  {
    && i < n && events[i].Packet? && events[i].active && !Refused(states[i], events[i])
    && forall j {:trigger states[j]} :: i <= j <= n ==> states[j].frames == states[i].frames
  }

  /** An acknowledgement is due exactly if a packet that calls for one has arrived since the last frame was sent. */
  lemma {:induction false} RunActive(states: seq<Track>, events: seq<Event>, n: nat)
    requires Run(states, events) && Fresh(states[0]) && n <= |events|
    ensures states[n].active <==> exists i: nat :: Unanswered(states, events, i, n)
  {
    if n > 0 {
      RunActive(states, events, n - 1);
      assert LeadsTo(states[n - 1], events[n - 1], states[n]);
      ActiveStep(states, events, n - 1, n);
    }
  }

  lemma ActiveStep(states: seq<Track>, events: seq<Event>, n: nat, m: nat)
    requires Run(states, events) && n < |events| && m == n + 1 && LeadsTo(states[n], events[n], states[m])
    requires states[n].active <==> exists i: nat :: Unanswered(states, events, i, n)
    ensures states[m].active <==> exists i: nat :: Unanswered(states, events, i, m)
  {
    var s, e, s' := states[n], events[n], states[m];
    if s'.active {
      if e.Packet? && e.active && !Refused(s, e) {
        assert Unanswered(states, events, n, m);
      } else {
        var i: nat :| Unanswered(states, events, i, n);
        assert states[n].frames == states[i].frames;
        assert Unanswered(states, events, i, m);
      }
    }
    if i: nat :| Unanswered(states, events, i, m) {
      assert states[n].frames == states[i].frames && states[m].frames == states[i].frames;
      if i < n { assert Unanswered(states, events, i, n); }
    }
  }

  // ----- the tracker -----

  /** The tracker is in this state. */
  ghost predicate Holds(tr: Acktr, s: Track)
    reads tr, tr.acks, tr.acks.buf
  {
    tr.Valid() && tr.ents == s.ents && tr.acks.items == s.items && tr.activeAck == s.active
  }

  /** One event, handled by the tracker; `ok` unless it ends the connection. */
  method Step(tr: Acktr, e: Event, delayExponent: nat, frames: seq<Ack>, next: nat, ghost s: Track)
    returns (ok: bool, frames': seq<Ack>, next': nat, ghost s': Track)
    requires Holds(tr, s) && Sound(s) && s.frames == frames && s.next == next && s.exponent == delayExponent
    modifies tr, tr.acks, tr.acks.buf
    ensures ok == !Refused(s, e) && LeadsTo(s, e, s') && Holds(tr, s') && s'.frames == frames' && s'.next == next'
    ensures s'.exponent == s.exponent
  {
    ok, frames', next' := true, frames, next;
    match e {
      case Packet(entry, active) =>
        s' := AfterPacket(s, entry, active);
        ok := tr.Add(entry, active);
      case AckIn(ack, unprotected) =>
        s' := AfterAckIn(s, ack, unprotected);
        ok := ValidateAck(ack);
        if ok {
          tr.RecvAck(ack, unprotected);
        }
      case Send(unprotected, ts) =>
        frames', next', s' := Emit(tr, unprotected, ts, delayExponent, frames, next, s);
      case SendOther =>
        next', s' := next + 1, s.(next := next + 1);
    }
  }

  /** The tracker has gone through these states, and goes on if `ok`. */
  ghost predicate Reaches(tr: Acktr, events: seq<Event>, n: nat, ok: bool, exponent: nat, frames: seq<Ack>, next: nat, states: seq<Track>)
    reads tr, tr.acks, tr.acks.buf
  {
    && n <= |events| && Run(states, events[..n]) && Holds(tr, states[n]) && states[n].frames == frames && states[n].next == next
    && states[n].exponent == exponent && (if n == 0 then ok else ok == !Refused(states[n - 1], events[n - 1]))
  }

  /** One turn of the loop of RunAll. */
  method Turn(tr: Acktr, events: seq<Event>, n: nat, delayExponent: nat, frames: seq<Ack>, next: nat, ghost states: seq<Track>)
    returns (ok: bool, frames': seq<Ack>, next': nat, ghost states': seq<Track>)
    requires n < |events| && Reaches(tr, events, n, true, delayExponent, frames, next, states) && Fresh(states[0])
    modifies tr, tr.acks, tr.acks.buf
    ensures Reaches(tr, events, n + 1, ok, delayExponent, frames', next', states') && states'[0] == states[0]
  {
    ghost var s';
    RunSound(states, events[..n], n);
    ok, frames', next', s' := Step(tr, events[n], delayExponent, frames, next, states[n]);
    states' := RunMore(states, events, n, s');
  }

  /** A frame is built, if one is due, and sent in packet `next`. */
  method Emit(tr: Acktr, unprotected: bool, ts: nat, delayExponent: nat, frames: seq<Ack>, next: nat, ghost s: Track)
    returns (frames': seq<Ack>, next': nat, ghost s': Track)
    requires Holds(tr, s) && Sound(s) && s.frames == frames && s.next == next && s.exponent == delayExponent
    modifies tr, tr.acks, tr.acks.buf
    ensures LeadsTo(s, Send(unprotected, ts), s') && Holds(tr, s') && s'.frames == frames' && s'.next == next'
    ensures s'.exponent == s.exponent
  {
    frames', next', s' := frames, next, s;
    var r := CreateAckFrame(tr, ts, delayExponent, unprotected);
    if r.Some? {
      tr.AddAck(next, r.value, unprotected);
      tr.activeAck := false;
      frames', next' := frames + [r.value], next + 1;
      s' := s.(ents := tr.ents, items := tr.acks.items, active := false, frames := frames', next := next');
      assert Emits(s, unprotected, r.value, s');
    }
  }

  /**
   Any run of the tracker, up to the event that ends the connection, is a run of its states, and
   keeps what they keep.
   */
  method RunAll(events: seq<Event>, itemSize: nat, delayExponent: nat, first: nat)
    returns (ents: seq<Entry>, frames: seq<Ack>, n: nat, ghost states: seq<Track>)
    requires 0 < itemSize
    ensures n <= |events| && Run(states, events[..n]) && Fresh(states[0]) && states[0].next == first && states[0].exponent == delayExponent
    ensures states[n].ents == ents && states[n].frames == frames
    ensures n < |events| ==> 0 < n && Refused(states[n - 1], events[n - 1])
    ensures Honest(frames, Arrived(events[..n], n))
    ensures (forall i {:trigger events[i]} :: 0 <= i < n ==> !Overflows(states[i], events[i])) ==> Complete(states[n])
    ensures |Arrived(events[..n], n)| <= MAX_RUNS ==> Complete(states[n])
  {
    var tr := new Acktr(itemSize);
    var next, ok := first, true;
    n, frames, states := 0, [], [Track([], [], false, [], first, {}, delayExponent)];
    while n < |events| && ok
      invariant n <= |events| && fresh(tr) && fresh(tr.acks) && fresh(tr.acks.buf)
      invariant Reaches(tr, events, n, ok, delayExponent, frames, next, states)
      invariant Fresh(states[0]) && states[0].next == first && states[0].exponent == delayExponent
    {
      ok, frames, next, states := Turn(tr, events, n, delayExponent, frames, next, states);
      n := n + 1;
    }
    ents := tr.ents;
    PartKeeps(states, events, n);
  }

  /** What the run over the first `n` events keeps. */
  lemma PartKeeps(states: seq<Track>, events: seq<Event>, n: nat)
    requires n <= |events| && Run(states, events[..n]) && Fresh(states[0])
    ensures Honest(states[n].frames, Arrived(events[..n], n))
    ensures (forall i {:trigger events[i]} :: 0 <= i < n ==> !Overflows(states[i], events[i])) ==> Complete(states[n])
    ensures |Arrived(events[..n], n)| <= MAX_RUNS ==> Complete(states[n])
  {
    RunKeeps(states, events[..n]);
    if forall i {:trigger events[i]} :: 0 <= i < n ==> !Overflows(states[i], events[i]) {
      forall i | 0 <= i < n ensures !Overflows(states[i], events[..n][i]) { assert events[..n][i] == events[i]; }
    }
  }

  lemma RunMore(states: seq<Track>, events: seq<Event>, n: nat, s: Track) returns (states': seq<Track>)
    requires n < |events| && Run(states, events[..n]) && LeadsTo(states[n], events[n], s)
    requires n > 0 ==> !Refused(states[n - 1], events[n - 1])
    ensures Run(states', events[..n + 1]) && states'[0] == states[0] && states'[n + 1] == s && states'[n] == states[n]
  {
    states' := states + [s];
    var events' := events[..n + 1];
    forall i | 0 <= i < |events'| ensures LeadsTo(states'[i], events'[i], states'[i + 1]) {
      if i < n { assert events[..n][i] == events'[i]; }
    }
    forall i | 0 <= i < n ensures !Refused(states'[i], events'[i]) {
      if i < n - 1 { assert events[..n][i] == events'[i]; }
    }
  }
}
