/**
 The sums over all streams in every run: the connection has sent the sum of what was sent on
 its streams, and unless the peer resets a stream, received the sum of what was received on them.
 */
module RunSums {
  import opened Basics
  import opened FlowControl
  import opened StreamReceive
  import opened Streams
  import opened Ledger
  import opened Steps
  import opened Machine
  import opened History

  ghost predicate NoReset(strms: map<nat, Strm>) {
    forall id {:trigger strms[id]} :: id in strms ==> !strms[id].recvRst
  }

  /** No stream was reset by the peer, and only streams that were opened have been charged. */
  ghost predicate Plain(a: Accounts) {
    a.charged.Keys == a.strms.Keys + a.closed.Keys && NoReset(a.strms) && NoReset(a.closed)
  }

  // ----- changes of one stream -----

  lemma PlainStored(t: Endpoint, id: nat, s: Strm, c: nat, sent: seq<byte>)
    requires Plain(t.a) && !s.recvRst && ChargedTo(t.a, id) <= c && SentOn(t.a, id) <= |sent|
    ensures Plain(Stored(t, id, s, c, sent).a)
  {
    assert t.a.charged[id := c].Keys == t.a.charged.Keys + {id};
  }

  lemma PlainAdded(t: Endpoint, id: nat, s: Strm)
    requires Plain(t.a) && !s.recvRst
    ensures Plain(Added(t, id, s).a)
  {
    assert t.a.charged[id := 0].Keys == t.a.charged.Keys + {id};
  }

  lemma PlainSettled(t: Endpoint, id: nat)
    requires Plain(t.a) && id in t.a.strms
    ensures Plain(Settled(t, id).a)
  {
    if ShouldClose(t.a.strms[id]) { PlainClosed(t.a, id); }
  }

  lemma PlainClosed(a: Accounts, id: nat)
    requires Plain(a) && id in a.strms
    ensures Plain(CloseStrm(a, id))
  {
    var a' := CloseStrm(a, id);
    assert a'.strms.Keys == a.strms.Keys - {id} && a'.closed.Keys == a.closed.Keys + {id};
    forall x | x in a'.strms ensures !a'.strms[x].recvRst { assert a'.strms[x] == a.strms[x]; }
  }

  lemma PlainAbsorbed(t: Endpoint, id: nat, s: Strm, c: nat, waiting: seq<nat>, check: bool)
    requires Plain(t.a) && !s.recvRst && ChargedTo(t.a, id) <= c
    ensures Plain(Absorbed(t, id, s, c, waiting, check).a)
  {
    PlainStored(t, id, s, c, SentBytes(t.a, id));
    var u := Stored(t, id, s, c, SentBytes(t.a, id)).(waiting := waiting);
    if check { PlainSettled(u, id); }
  }

  lemma PlainChanged(t: Endpoint, id: nat, s: Strm)
    requires Plain(t.a) && !s.recvRst
    ensures Plain(Changed(t, id, s).a)
  {
    PlainStored(t, id, s, ChargedTo(t.a, id), SentBytes(t.a, id));
  }

  lemma PlainFound(t: Endpoint, id: nat)
    requires Plain(t.a)
    ensures Plain(Found(t, id).a)
  {
    if Opens(t, id) { PlainAdded(Claimed(t, id, true), id, PeerStrm(id, t.window, t.peerWindow)); }
  }

  // ----- events -----

  lemma PlainStream(t: Endpoint, id: nat, fr: StreamFrame)
    requires Plain(t.a) && StreamStatus(t, id, fr) == Ok
    ensures Plain(AfterStream(t, id, fr).a)
  {
    var u := Found(t, id);
    PlainFound(t, id);
    if id in u.a.strms {
      var d := Verdict(u, id, fr);
      DecideStatus(u.a.strms[id].View(), fr, Credit(u.a));
      PlainTook(u, id, fr, d);
    }
  }

  lemma PlainTook(t: Endpoint, id: nat, fr: StreamFrame, d: RxDecision)
    requires Plain(t.a) && id in t.a.strms && d.Accept?
    ensures Plain(Took(t, id, fr, d).a)
  {
    var s, c := Received(t.a.strms[id], fr, d), ChargedTo(t.a, id) + d.charge;
    TookIs(t, id, fr, d, s, c);
    PlainAbsorbed(t, id, s, c, StillWaiting(t.waiting, id, fr, d), !d.action.Discard?);
  }

  lemma PlainStop(t: Endpoint, id: nat)
    requires Plain(t.a)
    ensures Plain(AfterStop(t, id).a)
  {
    if StopStatus(t, id) == Ok && id in t.a.strms {
      PlainChanged(t, id, StopOf(t.a.strms[id]));
      PlainSettled(Changed(t, id, StopOf(t.a.strms[id])), id);
    }
  }

  lemma PlainMaxStreamData(t: Endpoint, id: nat, limit: nat)
    requires Plain(t.a)
    ensures Plain(AfterMaxStreamData(t, id, limit).a)
  {
    var u := Found(t, id);
    PlainFound(t, id);
    if id in u.a.strms { PlainChanged(u, id, u.a.strms[id].(maxTx := Max(u.a.strms[id].maxTx, limit))); }
  }

  lemma PlainAck(t: Endpoint, id: nat, fr: StreamFrame)
    requires Plain(t.a)
    ensures Plain(AfterAck(t, id, fr).a)
  {
    if id in t.a.strms {
      var s := AckedRange(t.a.strms[id], fr.offset, |fr.data|, fr.fin);
      AckForm(t, id, fr, s);
      AckedSame(t.a.strms[id], fr.offset, |fr.data|, fr.fin);
      PlainChanged(t, id, s);
      PlainSettled(Changed(t, id, s), id);
    }
  }

  lemma PlainWrite(t: Endpoint, id: nat, data: seq<byte>, fin: bool, left: nat)
    requires Plain(t.a) && WriteStatus(t, id, data, left) == Ok
    ensures Plain(AfterWrite(t, id, data, fin, left).a)
  {
    var fr := WrittenFrame(t, id, data, fin, left);
    WriteForm(t, id, data, fin, left, fr);
    PlainStored(t, id, Sent(t.a.strms[id], |fr.data|, fr.fin), ChargedTo(t.a, id), SentBytes(t.a, id) + fr.data);
  }

  lemma PlainLocal(t: Endpoint, id: nat, code: nat, n: nat)
    requires Plain(t.a)
    ensures Plain(AfterStopWriting(t, id, code).a) && Plain(AfterStopReading(t, id, code).a) && Plain(AfterConsume(t, id, n).a)
  {
    if id in t.a.strms {
      PlainChanged(t, id, StopOf(t.a.strms[id]));
      PlainChanged(t, id, t.a.strms[id].(stopSending := true));
      PlainChanged(t, id, RaisedRx(t.a.strms[id], n));
    }
  }

  lemma {:induction false} PlainAnnounce(t: Endpoint)
    requires Plain(t.a)
    ensures Plain(AfterAnnounceStreams(t).a)
    decreases |t.waiting|
  {
    if t.waiting != [] {
      var id := t.waiting[0];
      if id in t.a.strms { PlainChanged(t, id, AdvertisedRx(t.a.strms[id])); }
      PlainAnnounce(AnnounceFirst(t));
    }
  }

  lemma PlainOther(t: Endpoint, e: Event)
    requires Plain(t.a) && !e.ResetIn?
    ensures Plain(AfterOther(t, e).a)
  {
    match e
    case StopSendingIn(id) => PlainStop(t, id);
    case MaxStreamDataIn(id, limit) => PlainMaxStreamData(t, id, limit);
    case Open(bidi) =>
      PlainAdded(t.(b := TakeNext(t.b, bidi)), NextOf(t.b, bidi), NewStrm(t.window, t.peerWindow).(shutRd := !bidi));
    case StopWriting(id, code) => PlainLocal(t, id, code, 0);
    case StopReading(id, code) => PlainLocal(t, id, code, 0);
    case Consume(id, n) => PlainLocal(t, id, 0, n);
    case AnnounceStreams => PlainAnnounce(t);
    case _ =>
  }

  lemma PlainStep(s: State, e: Event, s': State)
    requires Plain(s.t.a) && !e.ResetIn? && LeadsTo(s, e, s')
    ensures Plain(s'.t.a)
  {
    if e.StreamIn? {
      PlainStream(s.t, e.id, e.frame);
    } else if e.AckIn? {
      AfterIsAck(s, e);
      if e.k < |s.written| { PlainAck(s.t, s.written[e.k].id, s.written[e.k].frame); }
    } else if e.Write? {
      if WriteStatus(s.t, e.id, e.data, e.left) == Ok { PlainWrite(s.t, e.id, e.data, e.fin, e.left); }
    } else {
      AfterIsOther(s, e);
      PlainOther(s.t, e);
    }
  }

  // ----- runs -----

  ghost predicate NoResets(events: seq<Event>, n: nat)
    requires n <= |events|
  {
    forall i {:trigger events[i]} :: 0 <= i < n ==> !events[i].ResetIn?
  }

  lemma {:induction false} RunPlain(states: seq<State>, events: seq<Event>, n: nat)
    requires Run(states, events) && n <= |events| && Plain(states[0].t.a) && NoResets(events, n)
    ensures Plain(states[n].t.a)
  {
    if n > 0 {
      RunPlain(states, events, n - 1);
      PlainStep(states[n - 1], events[n - 1], states[n]);
    }
  }

  /**
   In every state of every run the connection's send offset is the sum of those of all streams
   ever opened, closed ones included; and so is its receive offset as long as no RST_STREAM frame
   has arrived.
   */
  lemma RunTotals(server: bool, local: Settings, remote: Settings, states: seq<State>, events: seq<Event>, n: nat)
    requires Run(states, events) && states[0] == Beginning(server, local, remote) && n <= |events|
    ensures var a := states[n].t.a; a.tx == Total(SentOffsets(AllStrms(a)))
    ensures NoResets(events, n) ==> var a := states[n].t.a; a.rx == Total(LastOffsets(AllStrms(a)))
  {
    var a := states[n].t.a;
    RunKeeps(server, local, remote, states, events, n);
    TxIsSum(a);
    if NoResets(events, n) {
      RunPlain(states, events, n);
      PlainSum(a);
    }
  }

  lemma PlainSum(a: Accounts)
    requires Balanced(a) && Plain(a)
    ensures a.rx == Total(LastOffsets(AllStrms(a)))
  {
    var all := AllStrms(a);
    assert all.Keys == a.strms.Keys + a.closed.Keys;
    forall id | id in all ensures !all[id].recvRst {
      if id in a.closed { assert all[id] == a.closed[id]; } else { assert all[id] == a.strms[id]; }
    }
    RxIsSum(a);
  }
}
