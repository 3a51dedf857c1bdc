/**
 Streams are closed when they have nothing left to do: which steps close a finished stream, and
 which leave it open.
 */
module Closing {
  import opened Basics
  import opened Ranges
  import opened StreamReceive
  import opened Streams
  import opened Ledger
  import opened Steps
  import opened Machine
  import opened History

  /** The stream is open although it has nothing left to do. */
  predicate Lingers(t: Endpoint, x: nat) { x in t.a.strms && ShouldClose(t.a.strms[x]) }

  /** From `t` to `t'`, no other stream than those in `but` begins to linger. */
  ghost predicate Tidy(t: Endpoint, t': Endpoint, but: set<nat>) {
    forall x: nat {:trigger Lingers(t', x)} :: Lingers(t', x) && x !in but ==> Lingers(t, x)
  }

  /** That is what the stream has done: it was finished, or reset, on both sides, and all of it was received and acknowledged. */
  lemma LingersIff(t: Endpoint, x: nat)
    requires Sound(t)
    ensures Lingers(t, x) <==> x in t.a.strms && Complete(t.a.strms[x])
  {
    if x in t.a.strms {
      LiveAt(t, x);
      CloseIff(t.a.strms[x]);
    }
  }

  lemma TidyTrans(t: Endpoint, u: Endpoint, v: Endpoint, but: set<nat>)
    requires Tidy(t, u, but) && Tidy(u, v, but)
    ensures Tidy(t, v, but)
  {
    forall x: nat | Lingers(v, x) && x !in but ensures Lingers(t, x) { assert Lingers(u, x); }
  }

  lemma SameTidy(t: Endpoint, t': Endpoint)
    requires t'.a.strms == t.a.strms
    ensures Tidy(t, t', {})
  {
  }

  // ----- changes of one stream -----

  lemma StoredTidy(t: Endpoint, id: nat, s: Strm, c: nat, sent: seq<byte>)
    requires ChargedTo(t.a, id) <= c && SentOn(t.a, id) <= |sent|
    ensures Tidy(t, Stored(t, id, s, c, sent), {id})
    ensures (ShouldClose(s) ==> Lingers(t, id)) ==> Tidy(t, Stored(t, id, s, c, sent), {})
  {
  }

  lemma ChangedTidy(t: Endpoint, id: nat, s: Strm)
    requires id in t.a.strms && (ShouldClose(s) ==> ShouldClose(t.a.strms[id]))
    ensures Tidy(t, Changed(t, id, s), {})
  {
    StoredTidy(t, id, s, ChargedTo(t.a, id), SentBytes(t.a, id));
  }

  /** Closing a stream with nothing left to do. */
  lemma SettledTidy(t: Endpoint, u: Endpoint, id: nat)
    requires Tidy(t, u, {id}) && id in u.a.strms
    ensures Tidy(t, Settled(u, id), {}) && !Lingers(Settled(u, id), id)
  {
    var v := Settled(u, id);
    forall x: nat | Lingers(v, x) ensures Lingers(t, x) { assert x != id && Lingers(u, x); }
  }

  lemma CheckedTidy(t: Endpoint, id: nat, s: Strm)
    requires id in t.a.strms
    ensures Tidy(t, Settled(Changed(t, id, s), id), {}) && !Lingers(Settled(Changed(t, id, s), id), id)
  {
    StoredTidy(t, id, s, ChargedTo(t.a, id), SentBytes(t.a, id));
    SettledTidy(t, Changed(t, id, s), id);
  }

  lemma AbsorbedTidy(t: Endpoint, id: nat, s: Strm, c: nat, waiting: seq<nat>, check: bool)
    requires id in t.a.strms && ChargedTo(t.a, id) <= c && (!check && ShouldClose(s) ==> ShouldClose(t.a.strms[id]))
    ensures Tidy(t, Absorbed(t, id, s, c, waiting, check), {})
    ensures check ==> !Lingers(Absorbed(t, id, s, c, waiting, check), id)
  {
    var u := Stored(t, id, s, c, SentBytes(t.a, id));
    StoredTidy(t, id, s, c, SentBytes(t.a, id));
    forall x: nat ensures Lingers(u.(waiting := waiting), x) == Lingers(u, x) {}
    if check { SettledTidy(t, u.(waiting := waiting), id); }
  }

  lemma FoundTidy(t: Endpoint, id: nat)
    ensures Tidy(t, Found(t, id), {})
  {
  }

  // ----- events -----

  /** A frame that is discarded does not finish a stream. */
  lemma DiscardKeepsOpen(s: Strm, fr: StreamFrame, credit: nat, d: RxDecision)
    requires d == Decide(s.View(), fr, credit) && d.Accept? && d.action.Discard?
    ensures ShouldClose(Received(s, fr, d)) ==> ShouldClose(s)
  {
  }

  lemma StreamTidy(t: Endpoint, id: nat, fr: StreamFrame)
    requires StreamStatus(t, id, fr) == Ok
    ensures Tidy(t, AfterStream(t, id, fr), {})
    ensures id in Found(t, id).a.strms && !Discards(Verdict(Found(t, id), id, fr)) ==> !Lingers(AfterStream(t, id, fr), id)
  {
    var u := Found(t, id);
    FoundTidy(t, id);
    if id in u.a.strms {
      var d := Verdict(u, id, fr);
      DecideStatus(u.a.strms[id].View(), fr, Credit(u.a));
      var s, c := Received(u.a.strms[id], fr, d), ChargedTo(u.a, id) + d.charge;
      TookIs(u, id, fr, d, s, c);
      if d.action.Discard? { DiscardKeepsOpen(u.a.strms[id], fr, Credit(u.a), d); }
      AbsorbedTidy(u, id, s, c, StillWaiting(u.waiting, id, fr, d), !d.action.Discard?);
      TidyTrans(t, u, Took(u, id, fr, d), {});
    } else {
      SameTidy(t, t);
    }
  }

  predicate Discards(d: RxDecision) { d.Accept? && d.action.Discard? }

  lemma ResetTidy(t: Endpoint, id: nat, final: nat)
    requires ResetStatus(t, id, final) == Ok
    ensures Tidy(t, AfterReset(t, id, final), {}) && !Lingers(AfterReset(t, id, final), id)
  {
    if id in t.a.strms {
      var s, c := ResetOf(t.a.strms[id]), ChargedTo(t.a, id) + (final - t.a.strms[id].lastRx);
      ResetStrmIs(t, id, final, s, c);
      AbsorbedTidy(t, id, s, c, t.waiting, true);
    } else {
      SameTidy(t, AfterReset(t, id, final));
    }
  }

  lemma StopTidy(t: Endpoint, id: nat)
    requires StopStatus(t, id) == Ok
    ensures Tidy(t, AfterStop(t, id), {}) && !Lingers(AfterStop(t, id), id)
  {
    if id in t.a.strms {
      CheckedTidy(t, id, StopOf(t.a.strms[id]));
    } else {
      SameTidy(t, AfterStop(t, id));
    }
  }

  lemma MaxStreamDataTidy(t: Endpoint, id: nat, limit: nat)
    ensures Tidy(t, AfterMaxStreamData(t, id, limit), {})
  {
    SameTidy(t, t);
    FoundTidy(t, id);
    var u := Found(t, id);
    if Admission(t.b, id) == Ok && id in u.a.strms {
      ChangedTidy(u, id, u.a.strms[id].(maxTx := Max(u.a.strms[id].maxTx, limit)));
      TidyTrans(t, u, RaisedTx(u, id, limit), {});
    }
  }

  /** The application is told of an acknowledgement if the acknowledged prefix grows, or with fin. */
  predicate Reported(t: Endpoint, id: nat, fr: StreamFrame) { id in t.a.strms && ReportedOn(t.a.strms[id], fr) }

  predicate ReportedOn(s: Strm, fr: StreamFrame) { AckedRange(s, fr.offset, |fr.data|, fr.fin).ackCalls != s.ackCalls }

  /** That is: the frame has fin, or carries the first offset that was not acknowledged yet. */
  lemma ReportedIff(s: Strm, fr: StreamFrame)
    requires ValidStrm(s) && fr.End() <= s.tx
    ensures ReportedOn(s, fr) <==> fr.fin || fr.offset <= FirstOffset(s.ackGaps) < fr.End()
  {
    Calls(s, fr.offset, |fr.data|, fr.fin);
    FirstMoves(s, Range(fr.offset, fr.End()));
  }

  lemma Calls(s: Strm, offset: nat, len: nat, fin: bool)
    ensures AckedRange(s, offset, len, fin).ackCalls != s.ackCalls <==>
            fin || FirstOffset(Subtract(s.ackGaps, Range(offset, offset + len))) != FirstOffset(s.ackGaps)
  {
    var c := Range(FirstOffset(s.ackGaps), FirstOffset(Subtract(s.ackGaps, Range(offset, offset + len))));
    assert |s.ackCalls + [c]| == |s.ackCalls| + 1;
  }

  lemma FirstMoves(s: Strm, q: Range)
    requires ValidStrm(s) && q.end <= s.tx
    ensures FirstOffset(Subtract(s.ackGaps, q)) != FirstOffset(s.ackGaps) <==> q.begin <= FirstOffset(s.ackGaps) < q.end
  {
    var gaps := Subtract(s.ackGaps, q);
    SubtractMissing(s.ackGaps, q, s.tx, s.tx);
    SubtractFirst(s.ackGaps, q);
    FirstOffsetIsLeastAll(s.ackGaps);
    FirstOffsetIsLeastAll(gaps);
    assert Covers(s.ackGaps, s.tx) && Covers(gaps, s.tx);
    assert Covers(s.ackGaps, FirstOffset(s.ackGaps));
  }

  lemma AckTidy(t: Endpoint, id: nat, fr: StreamFrame)
    ensures Tidy(t, AfterAck(t, id, fr), {}) && (Reported(t, id, fr) ==> !Lingers(AfterAck(t, id, fr), id))
  {
    if id in t.a.strms {
      var s := AckedRange(t.a.strms[id], fr.offset, |fr.data|, fr.fin);
      AckForm(t, id, fr, s);
      if s.ackCalls == t.a.strms[id].ackCalls {
        Unreported(t.a.strms[id], fr.offset, |fr.data|, fr.fin);
        ChangedTidy(t, id, s);
      } else {
        CheckedTidy(t, id, s);
      }
    } else {
      SameTidy(t, t);
    }
  }

  lemma Unreported(s: Strm, offset: nat, len: nat, fin: bool)
    requires AckedRange(s, offset, len, fin).ackCalls == s.ackCalls
    ensures ShouldClose(AckedRange(s, offset, len, fin)) ==> ShouldClose(s)
  {
  }

  lemma OpenTidy(t: Endpoint, bidi: bool)
    ensures Tidy(t, AfterOpen(t, bidi), {})
  {
  }

  /** Data that was just written is not acknowledged yet. */
  lemma WriteTidy(t: Endpoint, id: nat, data: seq<byte>, fin: bool, left: nat)
    requires Sound(t)
    ensures Tidy(t, AfterWrite(t, id, data, fin, left), if fin && data == [] then {id} else {})
  {
    if WriteStatus(t, id, data, left) == Ok {
      var fr := WrittenFrame(t, id, data, fin, left);
      WriteForm(t, id, data, fin, left, fr);
      var s, s' := t.a.strms[id], Sent(t.a.strms[id], |fr.data|, fr.fin);
      StoredTidy(t, id, s', ChargedTo(t.a, id), SentBytes(t.a, id) + fr.data);
      LiveAt(t, id);
      if data != [] { UnackedOpen(s, |fr.data|, fr.fin); }
    } else {
      SameTidy(t, t);
    }
  }

  lemma UnackedOpen(s: Strm, n: nat, fin: bool)
    requires ValidStrm(s) && !s.shutWr && 0 < n && s.tx < MAX_VARINT
    ensures !ShouldClose(Sent(s, n, fin))
  {
    assert Covers(s.ackGaps, s.tx);
    FirstOffsetIsLeastAll(s.ackGaps);
  }

  lemma ConsumeTidy(t: Endpoint, id: nat, n: nat)
    ensures Tidy(t, AfterConsume(t, id, n), {})
  {
    if id in t.a.strms { ChangedTidy(t, id, RaisedRx(t.a.strms[id], n)); } else { SameTidy(t, t); }
  }

  lemma StopReadingTidy(t: Endpoint, id: nat, code: nat)
    ensures Tidy(t, AfterStopReading(t, id, code), {})
  {
    if id in t.a.strms { ChangedTidy(t, id, t.a.strms[id].(stopSending := true)); }
    SameTidy(t, t);
  }

  lemma StopWritingTidy(t: Endpoint, id: nat, code: nat)
    ensures Tidy(t, AfterStopWriting(t, id, code), {id})
  {
    if ShutdownStatus(t, id, code) == Ok { StoredTidy(t, id, StopOf(t.a.strms[id]), ChargedTo(t.a, id), SentBytes(t.a, id)); }
  }

  lemma {:induction false} AnnounceTidy(t: Endpoint)
    ensures Tidy(t, AfterAnnounceStreams(t), {})
    decreases |t.waiting|
  {
    SameTidy(t, t);
    if t.waiting != [] {
      var id, u := t.waiting[0], AnnounceFirst(t);
      if id in t.a.strms { ChangedTidy(t, id, AdvertisedRx(t.a.strms[id])); } else { SameTidy(t, u); }
      assert Tidy(t, u, {});
      AnnounceTidy(u);
      TidyTrans(t, u, AfterAnnounceStreams(t), {});
    }
  }

  /** The steps after which a stream with nothing left to do may stay open: a reset, or an empty fin, by the application. */
  predicate Leaves(e: Event, x: nat) {
    (e.StopWriting? && e.id == x) || (e.Write? && e.id == x && e.fin && e.data == [])
  }

  function LeftBy(e: Event): set<nat> {
    if e.StopWriting? || (e.Write? && e.fin && e.data == []) then {e.id} else {}
  }

  lemma OtherTidy(t: Endpoint, e: Event)
    requires Answer(t, e) == Ok
    ensures Tidy(t, AfterOther(t, e), LeftBy(e))
  {
    match e
    case ResetIn(id, final) => ResetTidy(t, id, final);
    case StopSendingIn(id) => StopTidy(t, id);
    case MaxStreamDataIn(id, limit) => MaxStreamDataTidy(t, id, limit);
    case Open(bidi) => OpenTidy(t, bidi);
    case StopWriting(id, code) => StopWritingTidy(t, id, code);
    case StopReading(id, code) => StopReadingTidy(t, id, code);
    case Consume(id, n) => ConsumeTidy(t, id, n);
    case AnnounceStreams => AnnounceTidy(t);
    case _ => SameTidy(t, AfterOther(t, e));
  }

  lemma StepTidy(s: State, e: Event, s': State)
    requires Sound(s.t) && LeadsTo(s, e, s')
    ensures Tidy(s.t, s'.t, LeftBy(e))
  {
    if e.StreamIn? {
      StreamTidy(s.t, e.id, e.frame);
    } else if e.AckIn? {
      AfterIsAck(s, e);
      if e.k < |s.written| { AckTidy(s.t, s.written[e.k].id, s.written[e.k].frame); } else { SameTidy(s.t, s'.t); }
    } else if e.Write? {
      AfterIsWritten(s, e);
      WriteTidy(s.t, e.id, e.data, e.fin, e.left);
    } else {
      AfterIsOther(s, e);
      OtherTidy(s.t, e);
    }
  }

  /** The steps that close stream `x` if nothing is left to do on it. */
  predicate Checks(s: State, e: Event, x: nat) {
    match e
    case StreamIn(id, fr) => id == x && x in Found(s.t, x).a.strms && !Discards(Verdict(Found(s.t, x), x, fr))
    case ResetIn(id, _) => id == x
    case StopSendingIn(id) => id == x
    case AckIn(k) => k < |s.written| && s.written[k].id == x && Reported(s.t, x, s.written[k].frame)
    case _ => false
  }

  /**
   After a STREAM frame that is not discarded, a reset by either side, or an acknowledgement that is
   reported, the stream is closed exactly if both of its sides are done.
   */
  lemma StepCloses(s: State, e: Event, s': State, x: nat)
    requires Whole(s) && LeadsTo(s, e, s') && Checks(s, e, x)
    ensures x in s'.t.a.strms ==> !Complete(s'.t.a.strms[x])
    ensures x in s'.t.a.closed ==> Complete(s'.t.a.closed[x])
  {
    StepStays(s, e, s');
    if e.StreamIn? {
      StreamTidy(s.t, x, e.frame);
    } else if e.AckIn? {
      AfterIsAck(s, e);
      AckTidy(s.t, x, s.written[e.k].frame);
    } else {
      AfterIsOther(s, e);
      if e.ResetIn? { ResetTidy(s.t, x, e.final); } else { StopTidy(s.t, x); }
    }
    LingersIff(s'.t, x);
  }

  /** All of the receiving side was received, or it was reset. */
  ghost predicate RxDone(s: Strm) { s.shutRd && (s.recvRst || forall x: nat :: x < s.lastRx ==> !Covers(s.rxGaps, x)) }

  /** If the application resets the sending side when the other one is done, the stream stays open with nothing left to do. */
  lemma StopWritingLeaves(t: Endpoint, id: nat, code: nat)
    requires ShutdownStatus(t, id, code) == Ok && !t.a.strms[id].sentRst
    ensures var t' := AfterStopWriting(t, id, code); id in t'.a.strms && (Complete(t'.a.strms[id]) <==> RxDone(t.a.strms[id]))
  {
  }

  /** All that was sent was acknowledged. */
  ghost predicate TxDone(s: Strm) { forall x: nat :: x < s.tx ==> !Covers(s.ackGaps, x) }

  /** So it does after an empty end if everything before it was acknowledged. */
  lemma EmptyFinLeaves(t: Endpoint, id: nat, left: nat)
    requires Sound(t) && WriteStatus(t, id, [], left) == Ok
    ensures var t' := AfterWrite(t, id, [], true, left);
            id in t'.a.strms && (Complete(t'.a.strms[id]) <==> RxDone(t.a.strms[id]) && TxDone(t.a.strms[id]))
  {
    WriteForm(t, id, [], true, left, WrittenFrame(t, id, [], true, left));
    LiveAt(t, id);
    FinDone(t.a.strms[id]);
  }

  lemma FinDone(s: Strm)
    requires ValidStrm(s) && !s.sentRst
    ensures Complete(Sent(s, 0, true)) <==> RxDone(s) && TxDone(s)
  {
    FirstOffsetIsLeastAll(s.ackGaps);
    assert Covers(s.ackGaps, s.tx);
  }

  // ----- runs -----

  /**
   In every state of every run, a stream on which all was done is closed, unless the application has reset its
   sending side, or written an empty end.
   */
  lemma {:induction false} RunCloses(states: seq<State>, events: seq<Event>, n: nat, x: nat)
    requires Run(states, events) && n <= |events| && Whole(states[0]) && states[0].t.a.strms == map[]
    requires forall i {:trigger events[i]} :: 0 <= i < n ==> !Leaves(events[i], x)
    ensures x in states[n].t.a.strms ==> !Complete(states[n].t.a.strms[x])
  {
    RunTidy(states, events, n, x);
    RunStays(states, events, n);
    LingersIff(states[n].t, x);
  }

  lemma {:induction false} RunTidy(states: seq<State>, events: seq<Event>, n: nat, x: nat)
    requires Run(states, events) && n <= |events| && Whole(states[0]) && states[0].t.a.strms == map[]
    requires forall i {:trigger events[i]} :: 0 <= i < n ==> !Leaves(events[i], x)
    ensures !Lingers(states[n].t, x)
  {
    if n > 0 {
      RunTidy(states, events, n - 1, x);
      RunStays(states, events, n - 1);
      StepTidy(states[n - 1], events[n - 1], states[n]);
      assert !Leaves(events[n - 1], x);
    }
  }
}
