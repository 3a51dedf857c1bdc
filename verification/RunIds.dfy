/**
 Stream IDs over whole runs: an ID that was used and has no stream any more, because its stream
 was closed or because it was only claimed, never gets a stream again.
 */
module RunIds {
  import opened Basics
  import opened StreamReceive
  import opened Streams
  import opened Ledger
  import opened Steps
  import opened Machine
  import opened History

  /** From `t` to `t'` no ID is forgotten, and streams appear only for IDs that were not used before. */
  ghost predicate OnlyNew(t: Endpoint, t': Endpoint) {
    && (forall x: nat {:trigger Known(t.b, x)} {:trigger Known(t'.b, x)} :: Known(t.b, x) ==> Known(t'.b, x))
    && (forall x {:trigger x in t'.a.strms} :: x in t'.a.strms ==> x in t.a.strms || !Known(t.b, x))
  }

  lemma OnlyNewTrans(t: Endpoint, u: Endpoint, v: Endpoint)
    requires OnlyNew(t, u) && OnlyNew(u, v)
    ensures OnlyNew(t, v)
  {
    forall x | x in v.a.strms ensures x in t.a.strms || !Known(t.b, x) {
      if x !in u.a.strms { assert !Known(u.b, x); }
    }
    forall x: nat | Known(t.b, x) ensures Known(v.b, x) { assert Known(u.b, x); }
  }

  /** The books have the same IDs, and no stream is new. */
  ghost predicate NoneNew(t: Endpoint, t': Endpoint) {
    && t'.b.server == t.b.server && t'.b.nextBidi == t.b.nextBidi && t'.b.nextUni == t.b.nextUni
    && t'.b.bidi.used == t.b.bidi.used && t'.b.uni.used == t.b.uni.used && t'.a.strms.Keys <= t.a.strms.Keys
  }

  lemma NoneNewOnly(t: Endpoint, t': Endpoint)
    requires NoneNew(t, t')
    ensures OnlyNew(t, t')
  {
    forall x: nat | Known(t.b, x) ensures Known(t'.b, x) {}
  }

  // ----- changes of one stream -----

  lemma StoredSame(t: Endpoint, id: nat, s: Strm, c: nat, sent: seq<byte>)
    requires id in t.a.strms && ChargedTo(t.a, id) <= c && SentOn(t.a, id) <= |sent|
    ensures NoneNew(t, Stored(t, id, s, c, sent)) && Stored(t, id, s, c, sent).a.strms.Keys == t.a.strms.Keys
  {
  }

  lemma SettledSame(t: Endpoint, id: nat)
    requires id in t.a.strms
    ensures NoneNew(t, Settled(t, id))
  {
    assert (t.a.strms - {id}).Keys == t.a.strms.Keys - {id};
  }

  lemma ChangedSame(t: Endpoint, id: nat, s: Strm)
    requires id in t.a.strms
    ensures NoneNew(t, Changed(t, id, s)) && NoneNew(t, Settled(Changed(t, id, s), id))
  {
    StoredSame(t, id, s, ChargedTo(t.a, id), SentBytes(t.a, id));
    SettledSame(Changed(t, id, s), id);
  }

  lemma AbsorbedSame(t: Endpoint, id: nat, s: Strm, c: nat, waiting: seq<nat>, check: bool)
    requires id in t.a.strms && ChargedTo(t.a, id) <= c
    ensures NoneNew(t, Absorbed(t, id, s, c, waiting, check))
  {
    StoredSame(t, id, s, c, SentBytes(t.a, id));
    SettledSame(Stored(t, id, s, c, SentBytes(t.a, id)).(waiting := waiting), id);
  }

  /** The peer claims an ID that was not used. */
  lemma ClaimedOnly(t: Endpoint, id: nat, create: bool)
    ensures OnlyNew(t, Claimed(t, id, create))
  {
    forall x: nat | Known(t.b, x) ensures Known(Claimed(t, id, create).b, x) {}
  }

  lemma FoundOnly(t: Endpoint, id: nat)
    ensures OnlyNew(t, Found(t, id))
  {
    NoneNewOnly(t, t);
    if Opens(t, id) { ClaimedOnly(t, id, true); }
  }

  // ----- events -----

  lemma StreamOnly(t: Endpoint, id: nat, fr: StreamFrame)
    requires StreamStatus(t, id, fr) == Ok
    ensures OnlyNew(t, AfterStream(t, id, fr))
  {
    var u := Found(t, id);
    FoundOnly(t, id);
    NoneNewOnly(t, t);
    if id in u.a.strms {
      var d := Verdict(u, id, fr);
      DecideStatus(u.a.strms[id].View(), fr, Credit(u.a));
      var s, c := Received(u.a.strms[id], fr, d), ChargedTo(u.a, id) + d.charge;
      TookIs(u, id, fr, d, s, c);
      AbsorbedSame(u, id, s, c, StillWaiting(u.waiting, id, fr, d), !d.action.Discard?);
      NoneNewOnly(u, Took(u, id, fr, d));
      OnlyNewTrans(t, u, Took(u, id, fr, d));
    }
  }

  lemma ResetOnly(t: Endpoint, id: nat, final: nat)
    ensures OnlyNew(t, AfterReset(t, id, final))
  {
    NoneNewOnly(t, t);
    if ResetStatus(t, id, final) == Ok {
      if id in t.a.strms {
        var s, c := ResetOf(t.a.strms[id]), ChargedTo(t.a, id) + (final - t.a.strms[id].lastRx);
        ResetStrmIs(t, id, final, s, c);
        AbsorbedSame(t, id, s, c, t.waiting, true);
        NoneNewOnly(t, ResetStrm(t, id, final));
      } else if Opens(t, id) {
        ClaimedOnly(t, id, false);
      }
    }
  }

  lemma StopOnly(t: Endpoint, id: nat)
    ensures OnlyNew(t, AfterStop(t, id))
  {
    NoneNewOnly(t, t);
    if StopStatus(t, id) == Ok {
      if id in t.a.strms {
        ChangedSame(t, id, StopOf(t.a.strms[id]));
        NoneNewOnly(t, AfterStop(t, id));
      } else if Opens(t, id) {
        ClaimedOnly(t, id, false);
      }
    }
  }

  lemma MaxStreamDataOnly(t: Endpoint, id: nat, limit: nat)
    ensures OnlyNew(t, AfterMaxStreamData(t, id, limit))
  {
    var u := Found(t, id);
    FoundOnly(t, id);
    NoneNewOnly(t, t);
    if Admission(t.b, id) == Ok && id in u.a.strms {
      ChangedSame(u, id, u.a.strms[id].(maxTx := Max(u.a.strms[id].maxTx, limit)));
      NoneNewOnly(u, RaisedTx(u, id, limit));
      OnlyNewTrans(t, u, RaisedTx(u, id, limit));
    }
  }

  lemma OpenOnly(t: Endpoint, bidi: bool)
    requires ValidBook(t.b)
    ensures OnlyNew(t, AfterOpen(t, bidi))
  {
    NextUnused(t.b, NextOf(t.b, bidi), bidi);
    TakenOnly(t.b, bidi);
  }

  lemma TakenOnly(b: IdBook, bidi: bool)
    ensures forall x: nat {:trigger Known(b, x)} {:trigger Known(TakeNext(b, bidi), x)} :: Known(b, x) ==> Known(TakeNext(b, bidi), x)
  {
  }

  lemma AckOnly(t: Endpoint, id: nat, fr: StreamFrame)
    ensures OnlyNew(t, AfterAck(t, id, fr))
  {
    if id in t.a.strms {
      var s := AckedRange(t.a.strms[id], fr.offset, |fr.data|, fr.fin);
      AckForm(t, id, fr, s);
      ChangedSame(t, id, s);
    }
    NoneNewOnly(t, AfterAck(t, id, fr));
  }

  lemma WriteOnly(t: Endpoint, id: nat, data: seq<byte>, fin: bool, left: nat)
    requires WriteStatus(t, id, data, left) == Ok
    ensures OnlyNew(t, AfterWrite(t, id, data, fin, left))
  {
    var fr := WrittenFrame(t, id, data, fin, left);
    WriteForm(t, id, data, fin, left, fr);
    StoredSame(t, id, Sent(t.a.strms[id], |fr.data|, fr.fin), ChargedTo(t.a, id), SentBytes(t.a, id) + fr.data);
    NoneNewOnly(t, AfterWrite(t, id, data, fin, left));
  }

  lemma LocalOnly(t: Endpoint, id: nat, code: nat, n: nat)
    ensures NoneNew(t, AfterStopWriting(t, id, code)) && NoneNew(t, AfterStopReading(t, id, code)) && NoneNew(t, AfterConsume(t, id, n))
  {
    if id in t.a.strms {
      ChangedSame(t, id, StopOf(t.a.strms[id]));
      ChangedSame(t, id, t.a.strms[id].(stopSending := true));
      ChangedSame(t, id, RaisedRx(t.a.strms[id], n));
    }
  }

  lemma {:induction false} AnnounceOnly(t: Endpoint)
    ensures NoneNew(t, AfterAnnounceStreams(t))
    decreases |t.waiting|
  {
    if t.waiting != [] {
      var id := t.waiting[0];
      if id in t.a.strms { ChangedSame(t, id, AdvertisedRx(t.a.strms[id])); }
      AnnounceOnly(AnnounceFirst(t));
    }
  }

  lemma OtherOnly(t: Endpoint, e: Event)
    requires Sound(t)
    ensures OnlyNew(t, AfterOther(t, e))
  {
    match e
    case ResetIn(id, final) => ResetOnly(t, id, final);
    case StopSendingIn(id) => StopOnly(t, id);
    case MaxStreamDataIn(id, limit) => MaxStreamDataOnly(t, id, limit);
    case Open(bidi) => OpenOnly(t, bidi);
    case _ => LocalsOnly(t, e);
  }

  lemma LocalsOnly(t: Endpoint, e: Event)
    requires !e.ResetIn? && !e.StopSendingIn? && !e.MaxStreamDataIn? && !e.Open?
    ensures OnlyNew(t, AfterOther(t, e))
  {
    match e {
      case StopWriting(id, code) => LocalOnly(t, id, code, 0);
      case StopReading(id, code) => LocalOnly(t, id, code, 0);
      case Consume(id, n) => LocalOnly(t, id, 0, n);
      case AnnounceStreams => AnnounceOnly(t);
      case _ =>
    }
    NoneNewOnly(t, AfterOther(t, e));
  }

  lemma StepOnly(s: State, e: Event, s': State)
    requires Whole(s) && LeadsTo(s, e, s')
    ensures OnlyNew(s.t, s'.t)
  {
    NoneNewOnly(s.t, s.t);
    if e.StreamIn? {
      StreamOnly(s.t, e.id, e.frame);
    } else if e.AckIn? {
      AfterIsAck(s, e);
      if e.k < |s.written| { AckOnly(s.t, s.written[e.k].id, s.written[e.k].frame); }
    } else if e.Write? {
      if WriteStatus(s.t, e.id, e.data, e.left) == Ok { WriteOnly(s.t, e.id, e.data, e.fin, e.left); }
    } else {
      AfterIsOther(s, e);
      OtherOnly(s.t, e);
    }
  }

  // ----- runs -----

  /** The ID was used, and has no stream: it was closed, or only claimed. */
  predicate Spent(t: Endpoint, x: nat) { Known(t.b, x) && x !in t.a.strms }

  lemma StepSpent(s: State, e: Event, s': State, x: nat)
    requires Whole(s) && LeadsTo(s, e, s') && Spent(s.t, x)
    ensures Spent(s'.t, x)
  {
    StepOnly(s, e, s');
    assert Known(s.t.b, x);
  }

  lemma {:induction false} StaysSpent(states: seq<State>, events: seq<Event>, i: nat, n: nat, x: nat)
    requires Run(states, events) && Whole(states[0]) && i <= n <= |events| && Spent(states[i].t, x)
    ensures Spent(states[n].t, x)
  {
    if i < n {
      StaysSpent(states, events, i, n - 1, x);
      RunStays(states, events, n - 1);
      StepSpent(states[n - 1], events[n - 1], states[n], x);
    }
  }

  /**
   An ID that is spent in some state of a run is spent in every later one; so is the ID of every
   stream that was closed: it is never used for another one.
   */
  lemma RunSpent(server: bool, local: Settings, remote: Settings, states: seq<State>, events: seq<Event>, i: nat, n: nat, x: nat)
    requires Run(states, events) && states[0] == Beginning(server, local, remote) && i <= n <= |events|
    requires Spent(states[i].t, x) || x in states[i].t.a.closed
    ensures Spent(states[n].t, x)
  {
    BeginningWhole(server, local, remote);
    RunStays(states, events, i);
    if x in states[i].t.a.closed { ClosedSpent(states[i].t, x); }
    StaysSpent(states, events, i, n, x);
  }

  lemma ClosedSpent(t: Endpoint, x: nat)
    requires Sound(t) && x in t.a.closed
    ensures Spent(t, x)
  {
    assert x in t.a.sent.Keys;
  }
}
