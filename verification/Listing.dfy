/**
 The list of streams for which MAX_STREAM_DATA is due: only streams that are still read, or were
 reset while they waited.
 */
module Listing {
  import opened Basics
  import opened StreamReceive
  import opened Streams
  import opened Ledger
  import opened Steps
  import opened Machine
  import opened History

  /** The stream is wanted, and its end is not known, unless by a reset. */
  predicate Read(s: Strm) { !s.stopSending && (s.shutRd ==> s.recvRst) }

  ghost predicate Wanted(t: Endpoint) {
    forall id {:trigger id in t.waiting} :: id in t.waiting && id in t.a.strms ==> Read(t.a.strms[id])
  }

  // ----- changes of one stream -----

  lemma StoredWanted(t: Endpoint, id: nat, s: Strm, c: nat, sent: seq<byte>, waiting: seq<nat>)
    requires Wanted(t) && ChargedTo(t.a, id) <= c && SentOn(t.a, id) <= |sent|
    requires forall x :: x in waiting ==> x in t.waiting || x == id
    requires id in waiting ==> Read(s)
    ensures Wanted(Stored(t, id, s, c, sent).(waiting := waiting))
  {
  }

  lemma SettledWanted(t: Endpoint, id: nat)
    requires Wanted(t) && id in t.a.strms
    ensures Wanted(Settled(t, id))
  {
  }

  lemma RelistedWanted(t: Endpoint, id: nat, s: Strm, waiting: seq<nat>)
    requires Wanted(t) && (id in waiting ==> Read(s)) && forall x :: x in waiting ==> x in t.waiting || x == id
    ensures Wanted(Relisted(t, id, s, waiting))
  {
    StoredWanted(t, id, s, ChargedTo(t.a, id), SentBytes(t.a, id), waiting);
  }

  lemma ChangedWanted(t: Endpoint, id: nat, s: Strm)
    requires Wanted(t) && id in t.a.strms && (Read(t.a.strms[id]) ==> Read(s))
    ensures Wanted(Changed(t, id, s)) && Wanted(Settled(Changed(t, id, s), id))
  {
    StoredWanted(t, id, s, ChargedTo(t.a, id), SentBytes(t.a, id), t.waiting);
    SettledWanted(Changed(t, id, s), id);
  }

  lemma AbsorbedWanted(t: Endpoint, id: nat, s: Strm, c: nat, waiting: seq<nat>, check: bool)
    requires Wanted(t) && ChargedTo(t.a, id) <= c && (id in waiting ==> Read(s)) && forall x :: x in waiting ==> x in t.waiting
    ensures Wanted(Absorbed(t, id, s, c, waiting, check))
  {
    StoredWanted(t, id, s, c, SentBytes(t.a, id), waiting);
    if check { SettledWanted(Stored(t, id, s, c, SentBytes(t.a, id)).(waiting := waiting), id); }
  }

  lemma FoundWanted(t: Endpoint, id: nat)
    requires Wanted(t) && Listed(t.waiting, t.a.strms)
    ensures Wanted(Found(t, id))
  {
  }

  // ----- events -----

  /** A frame with fin takes its stream off the list. */
  lemma ReceivedRead(s: Strm, fr: StreamFrame, credit: nat, d: RxDecision, ids: seq<nat>, id: nat)
    requires d == Decide(s.View(), fr, credit) && d.Accept? && (id in ids ==> Read(s))
    ensures id in StillWaiting(ids, id, fr, d) ==> Read(Received(s, fr, d))
  {
  }

  lemma StreamWanted(t: Endpoint, id: nat, fr: StreamFrame)
    requires Sound(t) && Wanted(t) && 0 < id && StreamStatus(t, id, fr) == Ok
    ensures Wanted(AfterStream(t, id, fr))
  {
    var u := Found(t, id);
    FoundWanted(t, id);
    FoundKeeps(t, id);
    if id in u.a.strms {
      var d := Verdict(u, id, fr);
      DecideStatus(u.a.strms[id].View(), fr, Credit(u.a));
      var s, c := Received(u.a.strms[id], fr, d), ChargedTo(u.a, id) + d.charge;
      TookIs(u, id, fr, d, s, c);
      ReceivedRead(u.a.strms[id], fr, Credit(u.a), d, u.waiting, id);
      AbsorbedWanted(u, id, s, c, StillWaiting(u.waiting, id, fr, d), !d.action.Discard?);
    }
  }

  lemma ResetWanted(t: Endpoint, id: nat, final: nat)
    requires Wanted(t)
    ensures Wanted(AfterReset(t, id, final))
  {
    if ResetStatus(t, id, final) == Ok && id in t.a.strms {
      var s, c := ResetOf(t.a.strms[id]), ChargedTo(t.a, id) + (final - t.a.strms[id].lastRx);
      ResetStrmIs(t, id, final, s, c);
      AbsorbedWanted(t, id, s, c, t.waiting, true);
    }
  }

  lemma StopWanted(t: Endpoint, id: nat)
    requires Wanted(t)
    ensures Wanted(AfterStop(t, id))
  {
    if id in t.a.strms { ChangedWanted(t, id, StopOf(t.a.strms[id])); }
  }

  lemma MaxStreamDataWanted(t: Endpoint, id: nat, limit: nat)
    requires Wanted(t) && Listed(t.waiting, t.a.strms)
    ensures Wanted(AfterMaxStreamData(t, id, limit))
  {
    var u := Found(t, id);
    FoundWanted(t, id);
    if id in u.a.strms { ChangedWanted(u, id, u.a.strms[id].(maxTx := Max(u.a.strms[id].maxTx, limit))); }
  }

  lemma AckWanted(t: Endpoint, id: nat, fr: StreamFrame)
    requires Wanted(t)
    ensures Wanted(AfterAck(t, id, fr))
  {
    if id in t.a.strms {
      var s := AckedRange(t.a.strms[id], fr.offset, |fr.data|, fr.fin);
      AckForm(t, id, fr, s);
      AckedRead(t.a.strms[id], fr.offset, |fr.data|, fr.fin);
      ChangedWanted(t, id, s);
    }
  }

  lemma AckedRead(s: Strm, offset: nat, len: nat, fin: bool)
    ensures Read(s) == Read(AckedRange(s, offset, len, fin))
  {
  }

  lemma WriteWanted(t: Endpoint, id: nat, data: seq<byte>, fin: bool, left: nat)
    requires Wanted(t)
    ensures Wanted(AfterWrite(t, id, data, fin, left))
  {
    if WriteStatus(t, id, data, left) == Ok {
      var fr := WrittenFrame(t, id, data, fin, left);
      WriteForm(t, id, data, fin, left, fr);
      StoredWanted(t, id, Sent(t.a.strms[id], |fr.data|, fr.fin), ChargedTo(t.a, id), SentBytes(t.a, id) + fr.data, t.waiting);
    }
  }

  lemma ConsumeWanted(t: Endpoint, id: nat, n: nat)
    requires Wanted(t)
    ensures Wanted(AfterConsume(t, id, n))
  {
    if id in t.a.strms {
      var s := RaisedRx(t.a.strms[id], n);
      RelistedWanted(t, id, s, WaitingWith(t.waiting, id, s, t.window));
    }
  }

  lemma ShutdownWanted(t: Endpoint, id: nat, code: nat)
    requires Wanted(t)
    ensures Wanted(AfterStopWriting(t, id, code)) && Wanted(AfterStopReading(t, id, code))
  {
    if id in t.a.strms {
      ChangedWanted(t, id, StopOf(t.a.strms[id]));
      RelistedWanted(t, id, t.a.strms[id].(stopSending := true), Without(t.waiting, id));
    }
  }

  lemma {:induction false} AnnounceWanted(t: Endpoint)
    ensures Wanted(AfterAnnounceStreams(t))
    decreases |t.waiting|
  {
    if t.waiting != [] { AnnounceWanted(AnnounceFirst(t)); }
  }

  lemma OpenWanted(t: Endpoint, bidi: bool)
    requires Sound(t) && Wanted(t)
    ensures Wanted(AfterOpen(t, bidi))
  {
    OpenKeeps(t, bidi);
  }

  lemma OtherWanted(t: Endpoint, e: Event)
    requires Sound(t) && Wanted(t)
    ensures Wanted(AfterOther(t, e))
  {
    match e
    case ResetIn(id, final) => ResetWanted(t, id, final);
    case StopSendingIn(id) => StopWanted(t, id);
    case MaxStreamDataIn(id, limit) => MaxStreamDataWanted(t, id, limit);
    case Open(bidi) => OpenWanted(t, bidi);
    case StopWriting(id, code) => ShutdownWanted(t, id, code);
    case StopReading(id, code) => ShutdownWanted(t, id, code);
    case Consume(id, n) => ConsumeWanted(t, id, n);
    case AnnounceStreams => AnnounceWanted(t);
    case _ =>
  }

  lemma StepWanted(s: State, e: Event, s': State)
    requires Whole(s) && Wanted(s.t) && LeadsTo(s, e, s')
    ensures Wanted(s'.t)
  {
    if e.StreamIn? {
      StreamWanted(s.t, e.id, e.frame);
    } else if e.AckIn? {
      AfterIsAck(s, e);
      if e.k < |s.written| { AckWanted(s.t, s.written[e.k].id, s.written[e.k].frame); }
    } else if e.Write? {
      AfterIsWritten(s, e);
      WriteWanted(s.t, e.id, e.data, e.fin, e.left);
    } else {
      AfterIsOther(s, e);
      OtherWanted(s.t, e);
    }
  }

  lemma {:induction false} RunWaits(states: seq<State>, events: seq<Event>, n: nat)
    requires Run(states, events) && n <= |events| && Whole(states[0]) && states[0].t.waiting == []
    ensures Wanted(states[n].t)
  {
    if n > 0 {
      RunWaits(states, events, n - 1);
      RunStays(states, events, n - 1);
      StepWanted(states[n - 1], events[n - 1], states[n]);
    }
  }

  /** The stream waits for an announcement, is open, was not stopped, and has no end that is known from a frame with fin. */
  ghost predicate WaitsRightly(t: Endpoint, id: nat) { id in t.a.strms && Read(t.a.strms[id]) }

  lemma AllRightly(t: Endpoint, id: nat)
    requires Sound(t) && Wanted(t) && id in t.waiting
    ensures WaitsRightly(t, id)
  {
  }

  /** In every state of every run, that is so of all streams on the list. */
  lemma RunWanted(states: seq<State>, events: seq<Event>, n: nat, id: nat)
    requires Run(states, events) && n <= |events| && Whole(states[0]) && states[0].t.waiting == [] && id in states[n].t.waiting
    ensures WaitsRightly(states[n].t, id)
  {
    RunWaits(states, events, n);
    RunStays(states, events, n);
    AllRightly(states[n].t, id);
  }
}
