/**
 Runs of two connections that talk to each other, over a network that may lose, repeat and
 reorder everything: what was granted covers what is sent in every state.
 */
module PeerRun {
  import opened Basics
  import opened StreamReceive
  import opened Streams
  import opened Ledger
  import opened Steps
  import opened Machine
  import opened History
  import opened RunIds
  import opened PeerFrames
  import opened Peers

  /**
   What can arrive from an endpoint in state `q`: STREAM frames that it wrote, a reset at the end of
   what it sent, and limits no higher than those it has set.  Other events are not messages.
   */
  predicate Sendable(q: State, e: Event) {
    match e
    case StreamIn(id, fr) => Piece(id, fr) in q.written
    case ResetIn(id, final) => id in q.t.a.sent && Finished(q.t.a, id) && final == |q.t.a.sent[id]|
    case StopSendingIn(id) => id in q.t.a.sent
    case MaxStreamDataIn(id, limit) => id in q.t.a.sent && limit <= Offered(q.t, id)
    case MaxDataIn(limit) => limit <= q.t.a.maxRx
    case MaxStreamIdIn(limit) => limit <= Space(q.t.b, limit).max
    case _ => true
  }

  // ----- what a step does -----

  /** The stream whose receiving side, or send limit, an event may change. */
  function RxOf(e: Event): set<nat> { if e.StreamIn? || e.ResetIn? then {e.id} else {} }

  function TxOf(e: Event): set<nat> { if e.MaxStreamDataIn? then {e.id} else {} }

  lemma StepFrames(s: State, e: Event, s': State)
    requires Whole(s) && LeadsTo(s, e, s')
    ensures Frame(s.t, s'.t, RxOf(e), TxOf(e))
  {
    if e.StreamIn? {
      StreamFrames(s.t, e.id, e.frame);
    } else if e.AckIn? {
      AfterIsAck(s, e);
      IdleFrame(s.t, s.t, {});
      if e.k < |s.written| { AckFrames(s.t, s.written[e.k].id, s.written[e.k].frame); }
    } else if e.Write? {
      AfterIsWritten(s, e);
      WriteFrames(s.t, e.id, e.data, e.fin, e.left);
    } else {
      AfterIsOther(s, e);
      UnrecordedFrames(s.t, e);
    }
  }

  lemma UnrecordedFrames(t: Endpoint, e: Event)
    requires Sound(t) && Possible(e) && !e.StreamIn? && !e.AckIn? && !e.Write?
    ensures Frame(t, AfterOther(t, e), RxOf(e), TxOf(e))
  {
    if e.ResetIn? {
      ResetFrames(t, e.id, e.final);
    } else if e.MaxStreamDataIn? {
      MaxStreamDataFrames(t, e.id, e.limit);
    } else {
      OtherFrames(t, e);
    }
  }

  /** Nothing is taken back, and nothing is sent except by writing. */
  lemma StepGrows(s: State, e: Event, s': State)
    requires Whole(s) && LeadsTo(s, e, s')
    ensures Grows(s.t.a, s'.t.a) && IdsGrow(s.t.b, s'.t.b) && (!e.Write? ==> Quiet(s.t.a, s'.t.a))
    ensures e.Write? ==> forall x :: x in s'.t.a.sent && x !in s'.t.a.strms ==> SentOn(s'.t.a, x) == SentOn(s.t.a, x)
  {
    if e.StreamIn? {
      StreamKeeps(s.t, e.id, e.frame);
    } else if e.AckIn? {
      AfterIsAck(s, e);
      Same(s.t.a);
      if e.k < |s.written| {
        WrittenBound(s.t, s.written, e.k);
        AckKeeps(s.t, s.written[e.k].id, s.written[e.k].frame);
      }
    } else if e.Write? {
      AfterIsWritten(s, e);
      WriteGrows(s.t, e.id, e.data, e.fin, e.left, s'.t);
    } else {
      AfterIsOther(s, e);
      OtherKeeps(s.t, e);
    }
  }

  lemma WriteGrows(t: Endpoint, id: nat, data: seq<byte>, fin: bool, left: nat, t': Endpoint)
    requires Sound(t) && t' == AfterWrite(t, id, data, fin, left)
    ensures Grows(t.a, t'.a) && IdsGrow(t.b, t'.b)
    ensures forall x :: x in t'.a.sent && x !in t'.a.strms ==> SentOn(t'.a, x) == SentOn(t.a, x)
  {
    if WriteStatus(t, id, data, left) == Ok {
      var u := WriteKeeps(t, id, data, fin, left);
      WrittenOnly(t, id, data, fin, left, t');
    } else {
      Same(t.a);
    }
  }

  lemma WrittenOnly(t: Endpoint, id: nat, data: seq<byte>, fin: bool, left: nat, t': Endpoint)
    requires WriteStatus(t, id, data, left) == Ok && t' == AfterWrite(t, id, data, fin, left)
    ensures forall x :: x in t'.a.sent && x !in t'.a.strms ==> SentOn(t'.a, x) == SentOn(t.a, x)
  {
  }

  // ----- limits on sending -----

  predicate SameLimits(t: Endpoint, t': Endpoint) {
    t'.a.maxTx == t.a.maxTx && t'.maxLocalBidi == t.maxLocalBidi && t'.maxLocalUni == t.maxLocalUni
  }

  lemma {:induction false} AnnounceLimits(t: Endpoint)
    ensures SameLimits(t, AfterAnnounceStreams(t)) && AfterAnnounceStreams(t).a.sent.Keys <= t.a.sent.Keys + t.a.strms.Keys
    ensures AfterAnnounceStreams(t).a.strms.Keys == t.a.strms.Keys
    decreases |t.waiting|
  {
    if t.waiting != [] { AnnounceLimits(AnnounceFirst(t)); }
  }

  lemma StepLimits(s: State, e: Event, s': State)
    requires LeadsTo(s, e, s') && !e.MaxDataIn? && !e.MaxStreamIdIn?
    ensures SameLimits(s.t, s'.t)
  {
    if e.StreamIn? {
      StreamLimits(s.t, e.id, e.frame);
    } else if e.AckIn? {
      AfterIsAck(s, e);
    } else if !e.Write? {
      AfterIsOther(s, e);
      OtherLimits(s.t, e);
    }
  }

  lemma StreamLimits(t: Endpoint, id: nat, fr: StreamFrame)
    ensures SameLimits(t, AfterStream(t, id, fr))
  {
  }

  lemma OtherLimits(t: Endpoint, e: Event)
    requires !e.MaxDataIn? && !e.MaxStreamIdIn?
    ensures SameLimits(t, AfterOther(t, e))
  {
    if e.AnnounceStreams? { AnnounceLimits(t); }
  }

  // ----- the receiving side of the stream a frame is for -----

  /** A stream is charged up to the end of a frame that is accepted, if it was not charged that much before. */
  lemma StreamCharge(t: Endpoint, id: nat, fr: StreamFrame)
    requires Sound(t) && 0 < id && StreamStatus(t, id, fr) == Ok
    ensures ChargedTo(AfterStream(t, id, fr).a, id) <= Max(ChargedTo(t.a, id), fr.End())
  {
    var u := Found(t, id);
    FoundKeeps(t, id);
    if id in u.a.strms {
      var d := Verdict(u, id, fr);
      DecideStatus(u.a.strms[id].View(), fr, Credit(u.a));
      LiveAt(u, id);
      OpenAt(u.a.strms, u.a.charged, u.a.sent, id, u.a.strms[id]);
      TookCharge(u, id, fr, d);
      FoundCharge(t, id);
    }
  }

  lemma FoundCharge(t: Endpoint, id: nat)
    ensures ChargedTo(Found(t, id).a, id) <= ChargedTo(t.a, id)
  {
  }

  lemma TookCharge(t: Endpoint, id: nat, fr: StreamFrame, d: RxDecision)
    requires id in t.a.strms && ValidStrm(t.a.strms[id]) && d == Decide(t.a.strms[id].View(), fr, Credit(t.a)) && d.Accept?
    requires !t.a.strms[id].recvRst ==> ChargedTo(t.a, id) == t.a.strms[id].lastRx
    ensures ChargedTo(Took(t, id, fr, d).a, id) <= Max(ChargedTo(t.a, id), fr.End())
  {
  }

  /** The end of a stream becomes known by a frame with fin, which is taken in unless the application has stopped reading. */
  predicate Ended(t: Endpoint, id: nat, fr: StreamFrame, s: Strm, s': Strm) {
    s'.shutRd && !s'.recvRst ==> (fr.fin && s'.lastRx == fr.End() && (s'.stopSending || Taking(t, id, fr))) || SameRx(s, s')
  }

  lemma StreamEnds(t: Endpoint, id: nat, fr: StreamFrame)
    requires StreamStatus(t, id, fr) == Ok && Has(AfterStream(t, id, fr), id)
    ensures Has(Found(t, id), id) && Ended(t, id, fr, StrmOf(Found(t, id), id), StrmOf(AfterStream(t, id, fr), id))
  {
    var u := Found(t, id);
    if id in u.a.strms {
      var d := Verdict(u, id, fr);
      DecideStatus(u.a.strms[id].View(), fr, Credit(u.a));
      TookEnds(u, id, fr, d);
      ReceivedEnds(t, id, fr, d, u.a.strms[id]);
    }
  }

  lemma TookEnds(t: Endpoint, id: nat, fr: StreamFrame, d: RxDecision)
    requires id in t.a.strms && d.Accept?
    ensures Has(Took(t, id, fr, d), id) && StrmOf(Took(t, id, fr, d), id) == Received(t.a.strms[id], fr, d)
  {
    var s, c := Received(t.a.strms[id], fr, d), ChargedTo(t.a, id) + d.charge;
    TookIs(t, id, fr, d, s, c);
    AbsorbedIs(t, id, s, c, StillWaiting(t.waiting, id, fr, d), !d.action.Discard?);
  }

  lemma AbsorbedIs(t: Endpoint, id: nat, s: Strm, c: nat, waiting: seq<nat>, check: bool)
    requires ChargedTo(t.a, id) <= c
    ensures var t' := Absorbed(t, id, s, c, waiting, check); Has(t', id) && StrmOf(t', id) == s
  {
  }

  lemma ReceivedEnds(t: Endpoint, id: nat, fr: StreamFrame, d: RxDecision, s: Strm)
    requires id in Found(t, id).a.strms && s == Found(t, id).a.strms[id] && d == Verdict(Found(t, id), id, fr) && d.Accept?
    ensures Ended(t, id, fr, s, Received(s, fr, d))
  {
  }

  lemma ResetCharge(t: Endpoint, id: nat, final: nat)
    requires Sound(t) && ResetStatus(t, id, final) == Ok
    ensures ChargedTo(AfterReset(t, id, final).a, id) <= Max(ChargedTo(t.a, id), final)
    ensures var t' := AfterReset(t, id, final);
            Has(t', id) ==> StrmOf(t', id).recvRst || (Has(t, id) && StrmOf(t', id) == StrmOf(t, id))
  {
    if id in t.a.strms {
      LiveAt(t, id);
      OpenAt(t.a.strms, t.a.charged, t.a.sent, id, t.a.strms[id]);
      ResetStrmCharge(t, id, final);
      var s, c := ResetOf(t.a.strms[id]), ChargedTo(t.a, id) + (final - t.a.strms[id].lastRx);
      ResetStrmIs(t, id, final, s, c);
      AbsorbedIs(t, id, s, c, t.waiting, true);
    }
  }

  lemma ResetStrmCharge(t: Endpoint, id: nat, final: nat)
    requires id in t.a.strms && StrmResetStatus(t.a, t.a.strms[id], final) == Ok && ValidStrm(t.a.strms[id])
    requires !t.a.strms[id].recvRst ==> ChargedTo(t.a, id) == t.a.strms[id].lastRx
    ensures ChargedTo(ResetStrm(t, id, final).a, id) <= Max(ChargedTo(t.a, id), final)
  {
  }

  // ----- new streams -----

  /** The stream that an event may bring about. */
  ghost predicate Opened(t: Endpoint, e: Event, x: nat) {
    || (e.Open? && OpenStatus(t, e.bidi) == Ok && x == NextOf(t.b, e.bidi))
    || ((e.StreamIn? || e.MaxStreamDataIn?) && x == e.id && Opens(t, x))
  }

  lemma StepOpens(s: State, e: Event, s': State)
    requires Whole(s) && LeadsTo(s, e, s')
    ensures forall x :: x in s'.t.a.sent && x !in s.t.a.sent ==> Opened(s.t, e, x)
  {
    if e.StreamIn? {
      StreamOpens(s.t, e.id, e.frame);
    } else if e.AckIn? {
      AfterIsAck(s, e);
      if e.k < |s.written| { AckOpens(s.t, s.written[e.k].id, s.written[e.k].frame); }
    } else if e.Write? {
      if WriteStatus(s.t, e.id, e.data, e.left) == Ok { OpenedBefore(s.t, e.id); }
    } else {
      AfterIsOther(s, e);
      OtherOpens(s.t, e);
    }
  }

  lemma OpenedBefore(t: Endpoint, id: nat)
    requires Sound(t) && id in t.a.strms
    ensures id in t.a.sent
  {
    LiveAt(t, id);
    OpenAt(t.a.strms, t.a.charged, t.a.sent, id, t.a.strms[id]);
  }

  lemma AbsorbedSent(t: Endpoint, id: nat, s: Strm, c: nat, waiting: seq<nat>, check: bool)
    requires id in t.a.sent && ChargedTo(t.a, id) <= c
    ensures Absorbed(t, id, s, c, waiting, check).a.sent.Keys == t.a.sent.Keys
  {
  }

  lemma ChangedSent(t: Endpoint, id: nat, s: Strm)
    requires id in t.a.sent
    ensures Changed(t, id, s).a.sent.Keys == t.a.sent.Keys && Settled(Changed(t, id, s), id).a.sent.Keys == t.a.sent.Keys
  {
  }

  lemma StreamOpens(t: Endpoint, id: nat, fr: StreamFrame)
    requires Sound(t) && 0 < id && StreamStatus(t, id, fr) == Ok
    ensures forall x :: x in AfterStream(t, id, fr).a.sent && x !in t.a.sent ==> x == id && Opens(t, id)
  {
    var u := Found(t, id);
    FoundKeeps(t, id);
    if id in u.a.strms {
      OpenedBefore(u, id);
      DecideStatus(u.a.strms[id].View(), fr, Credit(u.a));
      TookSent(u, id, fr, Verdict(u, id, fr));
      assert AfterStream(t, id, fr).a.sent.Keys == u.a.sent.Keys;
    }
  }

  lemma TookSent(t: Endpoint, id: nat, fr: StreamFrame, d: RxDecision)
    requires id in t.a.strms && id in t.a.sent && d.Accept?
    ensures Took(t, id, fr, d).a.sent.Keys == t.a.sent.Keys
  {
    var s, c := Received(t.a.strms[id], fr, d), ChargedTo(t.a, id) + d.charge;
    TookIs(t, id, fr, d, s, c);
    AbsorbedSent(t, id, s, c, StillWaiting(t.waiting, id, fr, d), !d.action.Discard?);
  }

  lemma AckOpens(t: Endpoint, id: nat, fr: StreamFrame)
    requires Sound(t)
    ensures AfterAck(t, id, fr).a.sent.Keys <= t.a.sent.Keys
  {
    if id in t.a.strms { OpenedBefore(t, id); }
  }

  lemma OtherOpens(t: Endpoint, e: Event)
    requires Sound(t) && Possible(e) && !e.StreamIn? && !e.AckIn? && !e.Write?
    ensures forall x :: x in AfterOther(t, e).a.sent && x !in t.a.sent ==> Opened(t, e, x)
  {
    if e.MaxStreamDataIn? {
      MaxStreamDataOpens(t, e.id, e.limit);
    } else if e.AnnounceStreams? {
      AnnounceLimits(t);
      forall x | x in t.a.strms ensures x in t.a.sent { OpenedBefore(t, x); }
    } else {
      PlainOpens(t, e);
    }
  }

  lemma MaxStreamDataOpens(t: Endpoint, id: nat, limit: nat)
    requires Sound(t) && 0 < id
    ensures forall x :: x in AfterMaxStreamData(t, id, limit).a.sent && x !in t.a.sent ==> x == id && Opens(t, id)
  {
    if Admission(t.b, id) == Ok {
      FoundKeeps(t, id);
      if id in Found(t, id).a.strms { OpenedBefore(Found(t, id), id); }
    }
  }

  lemma PlainOpens(t: Endpoint, e: Event)
    requires Sound(t) && !e.StreamIn? && !e.AckIn? && !e.Write? && !e.MaxStreamDataIn? && !e.AnnounceStreams?
    ensures forall x :: x in AfterOther(t, e).a.sent && x !in t.a.sent ==> Opened(t, e, x)
  {
    if e.ResetIn? {
      ResetOpens(t, e.id, e.final);
    } else if e.StopSendingIn? {
      StopOpens(t, e.id);
    } else if e.StopWriting? || e.StopReading? {
      ShutdownOpens(t, e.id, e.appErrorCode);
    } else if e.Consume? {
      ConsumeOpens(t, e.id, e.n);
    }
  }

  lemma ResetOpens(t: Endpoint, id: nat, final: nat)
    requires Sound(t)
    ensures AfterReset(t, id, final).a.sent.Keys == t.a.sent.Keys
  {
    if ResetStatus(t, id, final) == Ok && id in t.a.strms {
      OpenedBefore(t, id);
      var s, c := ResetOf(t.a.strms[id]), ChargedTo(t.a, id) + (final - t.a.strms[id].lastRx);
      ResetStrmIs(t, id, final, s, c);
      AbsorbedSent(t, id, s, c, t.waiting, true);
    }
  }

  lemma StopOpens(t: Endpoint, id: nat)
    requires Sound(t)
    ensures AfterStop(t, id).a.sent.Keys == t.a.sent.Keys
  {
    if id in t.a.strms {
      OpenedBefore(t, id);
      ChangedSent(t, id, StopOf(t.a.strms[id]));
    }
  }

  lemma ShutdownOpens(t: Endpoint, id: nat, code: nat)
    requires Sound(t)
    ensures AfterStopWriting(t, id, code).a.sent.Keys == t.a.sent.Keys && AfterStopReading(t, id, code).a.sent.Keys == t.a.sent.Keys
  {
    if id in t.a.strms {
      OpenedBefore(t, id);
      ChangedSent(t, id, StopOf(t.a.strms[id]));
      ChangedSent(t, id, t.a.strms[id].(stopSending := true));
    }
  }

  lemma ConsumeOpens(t: Endpoint, id: nat, n: nat)
    requires Sound(t)
    ensures AfterConsume(t, id, n).a.sent.Keys == t.a.sent.Keys
  {
    if id in t.a.strms {
      OpenedBefore(t, id);
      ChangedSent(t, id, RaisedRx(t.a.strms[id], n));
    }
  }

  // ----- a step of the receiving endpoint -----

  lemma FromWritten(q: State, id: nat, fr: StreamFrame)
    requires Whole(q) && Piece(id, fr) in q.written
    ensures id in q.t.a.sent && fr.End() <= SentOn(q.t.a, id) && (fr.fin ==> Finished(q.t.a, id) && fr.End() == SentOn(q.t.a, id))
  {
    var k :| 0 <= k < |q.written| && q.written[k] == Piece(id, fr);
    assert Faithful(q.t.a, q.written[k]);
  }

  /** What a STREAM frame charges is covered by what was sent, and an end that it makes known is the right one. */
  lemma StreamRight(q: State, t: Endpoint, id: nat, fr: StreamFrame, t': Endpoint)
    requires Whole(q) && Sound(t) && Backed(q.t, t) && EndsKnown(q.t, t) && Silent(q.t, t) && Piece(id, fr) in q.written && 0 < id
    requires StreamStatus(t, id, fr) == Ok && t' == AfterStream(t, id, fr) && t'.b.server == t.b.server
    ensures ChargedTo(t'.a, id) <= SentOn(q.t.a, id) && EndRight(q.t, t', id)
  {
    assert ChargedTo(t.a, id) <= SentOn(q.t.a, id);
    FromWritten(q, id, fr);
    StreamCharge(t, id, fr);
    if Has(t', id) {
      StreamEnds(t, id, fr);
      var u := FoundLinked(q.t, t, id);
      assert EndRight(q.t, u, id);
    }
  }

  lemma ReceivedRight(q: State, p: State, e: Event, p': State, x: nat)
    requires Whole(q) && Whole(p) && Backed(q.t, p.t) && EndsKnown(q.t, p.t) && Silent(q.t, p.t)
    requires LeadsTo(p, e, p') && Sendable(q, e) && x in RxOf(e)
    requires p'.t.b.server == p.t.b.server
    ensures ChargedTo(p'.t.a, x) <= SentOn(q.t.a, x) && EndRight(q.t, p'.t, x)
  {
    assert ChargedTo(p.t.a, x) <= SentOn(q.t.a, x);
    if e.StreamIn? {
      StreamRight(q, p.t, x, e.frame, p'.t);
    } else {
      AfterIsOther(p, e);
      ResetCharge(p.t, x, e.final);
      assert EndRight(q.t, p.t, x) by { assert Has(p.t, x) ==> EndRight(q.t, p.t, x); }
    }
  }

  lemma AdmissionKept(t: Endpoint, t': Endpoint, x: nat)
    requires OnlyNew(t, t') && IdsGrow(t.b, t'.b) && Admission(t.b, x) == Ok
    ensures Admission(t'.b, x) == Ok
  {
    assert LocalStream(t.b.server, x) ==> Known(t.b, x);
  }

  lemma ReceiverStep(q: State, p: State, e: Event, p': State)
    requires Whole(q) && Whole(p) && Backed(q.t, p.t) && Agreed(q.t, p.t) && LeadsTo(p, e, p') && Sendable(q, e)
    ensures Backed(q.t, p'.t) && Agreed(q.t, p'.t)
  {
    StepFrames(p, e, p');
    StepGrows(p, e, p');
    forall x | x in RxOf(e) ensures ChargedTo(p'.t.a, x) <= SentOn(q.t.a, x) && EndRight(q.t, p'.t, x) {
      ReceivedRight(q, p, e, p', x);
    }
    ReceiverCharge(q.t, p.t, p'.t, RxOf(e));
    ReceiverBacked(q.t, p.t, p'.t);
    ReceiverEnds(q.t, p.t, p'.t, RxOf(e));
    StepOnly(p, e, p');
    forall x | x in q.t.a.sent ensures Admission(p'.t.b, x) == Ok {
      assert q.t.a.sent[x] == q.t.a.sent[x];
      AdmissionKept(p.t, p'.t, x);
    }
  }

  // ----- a step of the sending endpoint -----

  /** The limits under which streams are sent stay covered. */
  lemma SenderLimits(p: Endpoint, p': Endpoint, q: Endpoint, tx: set<nat>)
    requires LimitsBacked(p, q) && Roomy(q) && p.peerWindow == q.window && Sends(p, p', tx)
    requires forall x :: x in tx && x in p'.a.strms ==> p'.a.strms[x].maxTx <= Offered(q, x)
    ensures LimitsBacked(p', q)
  {
    forall x | x in p'.a.strms ensures p'.a.strms[x].maxTx <= Offered(q, x) {
      assert q.window <= Offered(q, x);
      if x !in tx { assert p'.a.strms[x].maxTx <= SendLimit(p, x); }
    }
  }

  lemma SenderSent(p: Endpoint, p': Endpoint, q: Endpoint)
    requires Sound(p') && LimitsBacked(p', q) && SentBacked(p, q)
    requires forall x :: x in p'.a.sent && x !in p'.a.strms ==> SentOn(p'.a, x) == SentOn(p.a, x)
    ensures SentBacked(p', q)
  {
    forall x: nat ensures SentOn(p'.a, x) <= Offered(q, x) {
      if x in p'.a.strms {
        LiveAt(p', x);
        OpenAt(p'.a.strms, p'.a.charged, p'.a.sent, x, p'.a.strms[x]);
        assert p'.a.strms[x].maxTx <= Offered(q, x);
      } else if x in p'.a.sent {
        assert SentOn(p.a, x) <= Offered(q, x);
      }
    }
  }

  lemma SenderCharge(p: Endpoint, p': Endpoint, q: Endpoint)
    requires ChargeBacked(p, q) && SentGrows(p.a, p'.a)
    ensures ChargeBacked(p', q)
  {
    forall x: nat ensures ChargedTo(q.a, x) <= SentOn(p'.a, x) {
      assert ChargedTo(q.a, x) <= SentOn(p.a, x);
      if x in p.a.sent { assert p.a.sent[x] <= p'.a.sent[x]; }
    }
  }

  /** What is not written stays as it was, also on streams that are closed by the step. */
  lemma SentKept(p: State, e: Event, p': State)
    requires Whole(p) && LeadsTo(p, e, p')
    ensures forall x :: x in p'.t.a.sent && x !in p'.t.a.strms ==> SentOn(p'.t.a, x) == SentOn(p.t.a, x)
  {
    StepGrows(p, e, p');
    if !e.Write? {
      forall x | x in p'.t.a.sent ensures SentOn(p'.t.a, x) == SentOn(p.t.a, x) {
        assert p'.t.a.sent[x] == SentBytes(p.t.a, x);
      }
    }
  }

  lemma RaisedWithin(p: Endpoint, id: nat, limit: nat, q: Endpoint)
    requires Sound(p) && 0 < id && limit <= Offered(q, id) && LimitsBacked(p, q) && Roomy(q) && p.peerWindow == q.window
    ensures var p' := AfterMaxStreamData(p, id, limit); id in p'.a.strms ==> p'.a.strms[id].maxTx <= Offered(q, id)
  {
    MaxStreamDataFrames(p, id, limit);
    assert q.window <= Offered(q, id);
  }

  lemma RaisedRight(p: State, e: Event, p': State, q: State, x: nat)
    requires Whole(p) && LeadsTo(p, e, p') && Sendable(q, e) && x in TxOf(e) && x in p'.t.a.strms
    requires LimitsBacked(p.t, q.t) && Roomy(q.t) && p.t.peerWindow == q.t.window
    ensures p'.t.a.strms[x].maxTx <= Offered(q.t, x)
  {
    AfterIsOther(p, e);
    RaisedWithin(p.t, x, e.limit, q.t);
  }

  /** The limit for the connection, and those for opening streams, stay covered. */
  lemma LimitsRight(p: State, e: Event, p': State, q: State)
    requires LeadsTo(p, e, p') && Sendable(q, e) && p.t.a.maxTx <= q.t.a.maxRx
    requires p.t.maxLocalBidi <= q.t.b.bidi.max && p.t.maxLocalUni <= q.t.b.uni.max
    ensures p'.t.a.maxTx <= q.t.a.maxRx && p'.t.maxLocalBidi <= q.t.b.bidi.max && p'.t.maxLocalUni <= q.t.b.uni.max
  {
    if e.MaxDataIn? || e.MaxStreamIdIn? {
      AfterIsOther(p, e);
    } else {
      StepLimits(p, e, p');
    }
  }

  lemma SenderBacked(p: State, e: Event, p': State, q: State)
    requires Whole(p) && Whole(p') && LeadsTo(p, e, p') && Sendable(q, e) && Backed(p.t, q.t) && Agreed(p.t, q.t)
    ensures Backed(p'.t, q.t)
  {
    StepFrames(p, e, p');
    StepGrows(p, e, p');
    LimitsRight(p, e, p', q);
    forall x | x in TxOf(e) && x in p'.t.a.strms ensures p'.t.a.strms[x].maxTx <= Offered(q.t, x) { RaisedRight(p, e, p', q, x); }
    SenderLimits(p.t, p'.t, q.t, TxOf(e));
    SentKept(p, e, p');
    SenderSent(p.t, p'.t, q.t);
    SenderCharge(p.t, p'.t, q.t);
  }

  /** A stream is local to exactly one of two endpoints. */
  lemma OneSide(p: Endpoint, q: Endpoint, x: nat)
    requires p.b.server != q.b.server
    ensures LocalStream(p.b.server, x) <==> !LocalStream(q.b.server, x)
  {
  }

  /** Nothing is ever sent on a stream on which only the other endpoint sends. */
  lemma SenderSilent(p: State, e: Event, p': State, q: Endpoint)
    requires Whole(p) && Whole(p') && LeadsTo(p, e, p') && Silent(p.t, q) && p.t.b.server != q.b.server
    ensures Silent(p'.t, q)
  {
    StepFrames(p, e, p');
    StepGrows(p, e, p');
    StepOpens(p, e, p');
    forall x | x in p'.t.a.sent && OneWay(q, x) ensures p'.t.a.sent[x] == [] && Finished(p'.t.a, x) {
      OneSide(p.t, q, x);
      if x in p.t.a.sent {
        assert p.t.a.sent[x] == [] && Finished(p.t.a, x);
      } else {
        assert !e.Write?;
        assert p'.t.a.sent[x] == SentBytes(p.t.a, x);
        NewShut(p.t, p'.t, x);
      }
    }
  }

  lemma NewShut(t: Endpoint, t': Endpoint, x: nat)
    requires Sound(t) && Shuts(t, t') && x !in t.a.sent && !LocalStream(t.b.server, x) && !BidiStream(x)
    ensures Finished(t'.a, x)
  {
    if x in t.a.strms { OpenedBefore(t, x); }
  }

  lemma SenderEnds(p: Endpoint, p': Endpoint, q: Endpoint)
    requires EndsKnown(p, q) && SentGrows(p.a, p'.a) && Silent(p', q)
    ensures EndsKnown(p', q)
  {
    forall x: nat ensures EndRight(p', q, x) {
      if Has(q, x) && StrmOf(q, x).shutRd && !StrmOf(q, x).recvRst {
        assert EndRight(p, q, x);
        if x in p.a.sent {
          assert p'.a.sent[x] == p.a.sent[x];
        } else if x in p'.a.sent {
          assert p'.a.sent[x] == [];
        }
      }
    }
  }

  /** A stream that comes about by an event is one that the other endpoint admits. */
  lemma OpenedAdmitted(p: State, e: Event, q: State, x: nat)
    requires Whole(p) && Whole(q) && Sendable(q, e) && Opened(p.t, e, x) && p.t.b.server != q.t.b.server
    requires p.t.maxLocalBidi <= q.t.b.bidi.max && p.t.maxLocalUni <= q.t.b.uni.max
    ensures Admission(q.t.b, x) == Ok
  {
    OneSide(p.t, q.t, x);
    if e.Open? {
      OpenedNew(p.t, e.bidi);
    } else {
      if e.StreamIn? { FromWritten(q, x, e.frame); }
      SentKnown(q.t, x);
    }
  }

  lemma SentKnown(t: Endpoint, x: nat)
    requires Sound(t) && x in t.a.sent
    ensures Known(t.b, x)
  {
    assert x in t.a.charged.Keys + t.a.sent.Keys;
  }

  lemma SenderAgreed(p: State, e: Event, p': State, q: State)
    requires Whole(p) && Whole(p') && Whole(q) && LeadsTo(p, e, p') && Sendable(q, e) && Backed(p.t, q.t) && Agreed(p.t, q.t)
    ensures Agreed(p'.t, q.t)
  {
    StepGrows(p, e, p');
    SenderSilent(p, e, p', q.t);
    SenderEnds(p.t, p'.t, q.t);
    LimitsRight(p, e, p', q);
    StepOpens(p, e, p');
    forall x | x in p'.t.a.sent ensures Admission(q.t.b, x) == Ok {
      if x in p.t.a.sent {
        assert p.t.a.sent[x] == p.t.a.sent[x];
      } else {
        OpenedAdmitted(p, e, q, x);
      }
    }
  }

  // ----- runs -----

  /** Every step of one of the endpoints keeps them linked. */
  lemma MoveKeeps(p: State, e: Event, p': State, q: State)
    requires Linked(p, q) && LeadsTo(p, e, p') && Sendable(q, e)
    ensures Linked(p', q)
  {
    StepStays(p, e, p');
    SenderBacked(p, e, p', q);
    SenderAgreed(p, e, p', q);
    ReceiverStep(q, p, e, p');
  }

  /** Both endpoints. */
  datatype Pair = Pair(client: State, server: State)

  /** One of the endpoints makes a step. */
  datatype Move = ByClient(e: Event) | ByServer(e: Event)

  ghost predicate Moves(s: Pair, m: Move, s': Pair) {
    match m
    case ByClient(e) => Sendable(s.server, e) && LeadsTo(s.client, e, s'.client) && s'.server == s.server
    case ByServer(e) => Sendable(s.client, e) && LeadsTo(s.server, e, s'.server) && s'.client == s.client
  }

  /** Both start with their own settings and those of the other. */
  function Opening(client: Settings, server: Settings): Pair {
    Pair(Beginning(false, client, server), Beginning(true, server, client))
  }

  ghost predicate PairRun(states: seq<Pair>, moves: seq<Move>) {
    && |states| == |moves| + 1
    && forall i {:trigger moves[i]} :: 0 <= i < |moves| ==> Moves(states[i], moves[i], states[i + 1])
  }

  lemma OpeningLinked(client: Settings, server: Settings)
    ensures Linked(Opening(client, server).client, Opening(client, server).server)
  {
    BeginningWhole(false, client, server);
    BeginningWhole(true, server, client);
    var p, q := Beginning(false, client, server).t, Beginning(true, server, client).t;
    forall x: nat ensures EndRight(p, q, x) && EndRight(q, p, x) {
      NoneAtFirst(false, client, server, x);
      NoneAtFirst(true, server, client, x);
    }
  }

  lemma NoneAtFirst(server: bool, local: Settings, remote: Settings, x: nat)
    ensures !Has(Beginning(server, local, remote).t, x)
  {
  }

  lemma {:induction false} RunLinked(states: seq<Pair>, moves: seq<Move>, n: nat)
    requires PairRun(states, moves) && n <= |moves| && Linked(states[0].client, states[0].server)
    ensures Linked(states[n].client, states[n].server)
  {
    if n > 0 {
      RunLinked(states, moves, n - 1);
      PairStep(states[n - 1], moves[n - 1], states[n]);
    }
  }

  lemma PairStep(s: Pair, m: Move, s': Pair)
    requires Linked(s.client, s.server) && Moves(s, m, s')
    ensures Linked(s'.client, s'.server)
  {
    if m.ByClient? {
      MoveKeeps(s.client, m.e, s'.client, s.server);
    } else {
      MoveKeeps(s.server, m.e, s'.server, s.client);
    }
  }

  /**
   Two endpoints that only hear what the other has said, in any order and any number of times: a STREAM
   frame that one has written so far is refused by the other now only if it is empty without fin, or if it
   brings something new on a stream that was reset before; in particular, flow control never refuses one
   while its stream was not reset.
   */
  lemma RunAccepts(client: Settings, server: Settings, states: seq<Pair>, moves: seq<Move>, n: nat, id: nat, fr: StreamFrame)
    requires PairRun(states, moves) && states[0] == Opening(client, server) && n <= |moves|
    ensures var s := states[n];
            && (Piece(id, fr) in s.client.written ==>
                  (StreamStatus(s.server.t, id, fr) == Ok <==> !Blank(fr) && !Late(s.server.t, id, fr.End())))
            && (Piece(id, fr) in s.server.written ==>
                  (StreamStatus(s.client.t, id, fr) == Ok <==> !Blank(fr) && !Late(s.client.t, id, fr.End())))
  {
    var s := states[n];
    OpeningLinked(client, server);
    RunLinked(states, moves, n);
    if Piece(id, fr) in s.client.written { FrameAccepted(s.client, s.server, id, fr); }
    if Piece(id, fr) in s.server.written { FrameAccepted(s.server, s.client, id, fr); }
  }

  /** The limits on stream IDs that are in force at `q` can be told to its peer as they are. */
  ghost predicate Tellable(q: State, bidi: nat, uni: nat) {
    && (Sendable(q, MaxStreamIdIn(q.t.b.bidi.max)) <==> BidiStream(bidi) || q.t.b.bidi.max <= q.t.b.uni.max)
    && (Sendable(q, MaxStreamIdIn(q.t.b.uni.max)) <==> !BidiStream(uni) || q.t.b.uni.max <= q.t.b.bidi.max)
  }

  /** Limits are raised by four, and so stay of the kind that the initial ones are of. */
  lemma KindKept(q: State, bidi: nat, uni: nat)
    requires Whole(q) && q.t.b.bidi.initial == bidi && q.t.b.uni.initial == uni
    ensures Tellable(q, bidi, uni)
  {
    assert ValidBook(q.t.b);
  }

  lemma {:induction false} RunInitial(client: Settings, server: Settings, states: seq<Pair>, moves: seq<Move>, n: nat)
    requires PairRun(states, moves) && states[0] == Opening(client, server) && n <= |moves|
    ensures var b, b' := states[n].client.t.b, states[n].server.t.b;
            && b.bidi.initial == client.maxIdBidi && b.uni.initial == client.maxIdUni
            && b'.bidi.initial == server.maxIdBidi && b'.uni.initial == server.maxIdUni
  {
    if n > 0 {
      RunInitial(client, server, states, moves, n - 1);
      OpeningLinked(client, server);
      RunLinked(states, moves, n - 1);
      InitialStep(states[n - 1], moves[n - 1], states[n]);
    }
  }

  lemma InitialStep(s: Pair, m: Move, s': Pair)
    requires Linked(s.client, s.server) && Moves(s, m, s')
    ensures IdsGrow(s.client.t.b, s'.client.t.b) && IdsGrow(s.server.t.b, s'.server.t.b)
  {
    if m.ByClient? { StepStays(s.client, m.e, s'.client); } else { StepStays(s.server, m.e, s'.server); }
  }

  /**
   What an endpoint announces in MAX_STREAM_ID is a message that the other may hear, exactly if the initial limit
   is an ID of the kind it is for, or else no more than the limit of the other kind, for which it will be taken.
   */
  lemma RunTellable(client: Settings, server: Settings, states: seq<Pair>, moves: seq<Move>, n: nat)
    requires PairRun(states, moves) && states[0] == Opening(client, server) && n <= |moves|
    ensures Tellable(states[n].client, client.maxIdBidi, client.maxIdUni)
    ensures Tellable(states[n].server, server.maxIdBidi, server.maxIdUni)
  {
    OpeningLinked(client, server);
    RunLinked(states, moves, n);
    RunInitial(client, server, states, moves, n);
    KindKept(states[n].client, client.maxIdBidi, client.maxIdUni);
    KindKept(states[n].server, server.maxIdBidi, server.maxIdUni);
  }

  /** The same for a RST_STREAM frame, at the end of what was sent. */
  lemma RunResets(client: Settings, server: Settings, states: seq<Pair>, moves: seq<Move>, n: nat, id: nat, final: nat)
    requires PairRun(states, moves) && states[0] == Opening(client, server) && n <= |moves|
    ensures var s := states[n];
            && (id in s.client.t.a.sent && Finished(s.client.t.a, id) && final == |s.client.t.a.sent[id]| ==>
                  (ResetStatus(s.server.t, id, final) == Ok <==> !Late(s.server.t, id, final)))
            && (id in s.server.t.a.sent && Finished(s.server.t.a, id) && final == |s.server.t.a.sent[id]| ==>
                  (ResetStatus(s.client.t, id, final) == Ok <==> !Late(s.client.t, id, final)))
  {
    var s := states[n];
    OpeningLinked(client, server);
    RunLinked(states, moves, n);
    if id in s.client.t.a.sent && Finished(s.client.t.a, id) && final == |s.client.t.a.sent[id]| {
      ResetAccepted(s.client, s.server, id, final);
    }
    if id in s.server.t.a.sent && Finished(s.server.t.a, id) && final == |s.server.t.a.sent[id]| {
      ResetAccepted(s.server, s.client, id, final);
    }
  }
}
