/**
 What a step of a connection leaves as it is, for all streams but one: the limits given to the
 peer and by the peer, what was charged, and how far each stream has come.
 */
module PeerFrames {
  import opened Basics
  import opened StreamReceive
  import opened Streams
  import opened Ledger
  import opened Steps
  import opened Machine
  import opened History

  /** The limit given to the peer for a stream, which is the initial one before it is opened. */
  function Offered(t: Endpoint, x: nat): nat {
    if x in t.a.strms then t.a.strms[x].maxRx else if x in t.a.closed then t.a.closed[x].maxRx else t.window
  }

  /** The limit given by the peer. */
  function SendLimit(t: Endpoint, x: nat): nat { if x in t.a.strms then t.a.strms[x].maxTx else t.peerWindow }

  /** No limit given to the peer is lowered. */
  ghost predicate Offers(t: Endpoint, t': Endpoint) {
    t'.window == t.window && forall x: nat {:trigger Offered(t', x)} :: Offered(t, x) <= Offered(t', x)
  }

  /** No limit given by the peer is raised, except for the streams in `but`. */
  ghost predicate Sends(t: Endpoint, t': Endpoint, but: set<nat>) {
    && t'.peerWindow == t.peerWindow
    && forall x {:trigger t'.a.strms[x]} :: x in t'.a.strms && x !in but ==> t'.a.strms[x].maxTx <= SendLimit(t, x)
  }

  ghost predicate Charges(t: Endpoint, t': Endpoint, but: set<nat>) {
    forall x: nat {:trigger ChargedTo(t'.a, x)} :: x !in but ==> ChargedTo(t'.a, x) == ChargedTo(t.a, x)
  }

  /** The stream exists, or did until it was closed. */
  predicate Has(t: Endpoint, x: nat) { x in t.a.strms || x in t.a.closed }

  function StrmOf(t: Endpoint, x: nat): Strm
    requires Has(t, x)
  {
    if x in t.a.strms then t.a.strms[x] else t.a.closed[x]
  }

  predicate SameRx(s: Strm, s': Strm) {
    s'.lastRx == s.lastRx && s'.shutRd == s.shutRd && s'.recvRst == s.recvRst && (s.stopSending ==> s'.stopSending)
  }

  /** A new stream: only those opened here for sending are shut for reading. */
  predicate Fresh(t: Endpoint, x: nat, s: Strm) {
    s.lastRx == 0 && !s.recvRst && (s.shutRd ==> LocalStream(t.b.server, x) && !BidiStream(x))
  }

  ghost predicate Receives(t: Endpoint, t': Endpoint, but: set<nat>) {
    && t'.b.server == t.b.server && (forall x: nat {:trigger Has(t, x)} :: Has(t, x) ==> Has(t', x))
    && forall x: nat {:trigger Has(t', x)} :: Has(t', x) && x !in but ==>
         if Has(t, x) then SameRx(StrmOf(t, x), StrmOf(t', x)) else Fresh(t, x, StrmOf(t', x))
  }

  /** Sides shut for writing stay shut, and new streams on which only the peer sends are shut for writing. */
  ghost predicate Shuts(t: Endpoint, t': Endpoint) {
    forall x {:trigger t'.a.strms[x]} :: x in t'.a.strms ==>
      if x in t.a.strms then t.a.strms[x].shutWr ==> t'.a.strms[x].shutWr
      else !LocalStream(t.b.server, x) && !BidiStream(x) ==> t'.a.strms[x].shutWr
  }

  /** All that, where the step may have changed the receiving side of streams in `rx` and the send limits of those in `tx`. */
  ghost predicate Frame(t: Endpoint, t': Endpoint, rx: set<nat>, tx: set<nat>) {
    Offers(t, t') && Sends(t, t', tx) && Charges(t, t', rx) && Receives(t, t', rx) && Shuts(t, t')
  }

  // ----- composition -----

  /** The step changes nothing of all that. */
  ghost predicate Idles(t: Endpoint, t': Endpoint) {
    && t'.window == t.window && t'.peerWindow == t.peerWindow && t'.b.server == t.b.server
    && t'.a.strms == t.a.strms && t'.a.closed == t.a.closed && t'.a.charged == t.a.charged
  }

  lemma IdleFrame(t: Endpoint, t': Endpoint, rx: set<nat>)
    requires Idles(t, t')
    ensures Frame(t, t', rx, {})
  {
  }

  lemma FrameTrans(t: Endpoint, u: Endpoint, v: Endpoint, rx: set<nat>, tx: set<nat>)
    requires Frame(t, u, {}, {}) && Frame(u, v, rx, tx) && t.a.strms.Keys <= u.a.strms.Keys
    ensures Frame(t, v, rx, tx)
  {
    OffersTrans(t, u, v);
    forall x: nat | x !in rx ensures ChargedTo(v.a, x) == ChargedTo(t.a, x) {
      assert ChargedTo(u.a, x) == ChargedTo(t.a, x);
    }
    StrmsTrans(t, u, v, rx, tx);
  }

  lemma OffersTrans(t: Endpoint, u: Endpoint, v: Endpoint)
    requires Offers(t, u) && Offers(u, v)
    ensures Offers(t, v)
  {
    forall x: nat ensures Offered(t, x) <= Offered(v, x) { assert Offered(t, x) <= Offered(u, x); }
  }

  lemma StrmsTrans(t: Endpoint, u: Endpoint, v: Endpoint, rx: set<nat>, tx: set<nat>)
    requires Sends(t, u, {}) && Receives(t, u, {}) && Shuts(t, u) && Sends(u, v, tx) && Receives(u, v, rx) && Shuts(u, v)
    requires t.a.strms.Keys <= u.a.strms.Keys
    ensures Sends(t, v, tx) && Receives(t, v, rx) && Shuts(t, v)
  {
    forall x | x in v.a.strms && x in u.a.strms ensures u.a.strms[x].maxTx <= SendLimit(t, x) {}
    ReceivesTrans(t, u, v, {}, rx);
  }

  lemma ReceivesTrans(t: Endpoint, u: Endpoint, v: Endpoint, rx: set<nat>, rx': set<nat>)
    requires Receives(t, u, rx) && Receives(u, v, rx') && (rx == {} || rx' == {})
    ensures Receives(t, v, rx + rx')
  {
    forall x: nat | Has(t, x) ensures Has(v, x) { assert Has(u, x); }
    forall x: nat | Has(v, x) && x !in rx + rx'
      ensures if Has(t, x) then SameRx(StrmOf(t, x), StrmOf(v, x)) else Fresh(t, x, StrmOf(v, x))
    {
      if Has(u, x) { assert Has(t, x) ==> SameRx(StrmOf(t, x), StrmOf(u, x)); }
    }
  }

  /** A stream is closed after a step that may have changed its receiving side. */
  lemma FrameClose(t: Endpoint, u: Endpoint, v: Endpoint, rx: set<nat>)
    requires Frame(t, u, rx, {}) && Frame(u, v, {}, {}) && v.a.strms.Keys <= u.a.strms.Keys
    ensures Frame(t, v, rx, {})
  {
    OffersTrans(t, u, v);
    forall x: nat | x !in rx ensures ChargedTo(v.a, x) == ChargedTo(t.a, x) {
      assert ChargedTo(u.a, x) == ChargedTo(t.a, x);
    }
    CloseTrans(t, u, v, rx);
  }

  lemma CloseTrans(t: Endpoint, u: Endpoint, v: Endpoint, rx: set<nat>)
    requires Sends(t, u, {}) && Receives(t, u, rx) && Shuts(t, u) && Sends(u, v, {}) && Receives(u, v, {}) && Shuts(u, v)
    requires v.a.strms.Keys <= u.a.strms.Keys
    ensures Sends(t, v, {}) && Receives(t, v, rx) && Shuts(t, v)
  {
    forall x | x in v.a.strms ensures x in u.a.strms && u.a.strms[x].maxTx <= SendLimit(t, x) && v.a.strms[x].maxTx <= u.a.strms[x].maxTx {}
    ReceivesTrans(t, u, v, rx, {});
    assert rx + {} == rx;
  }

  // ----- changes of one stream -----

  lemma StoredFrame(t: Endpoint, id: nat, s: Strm, c: nat, sent: seq<byte>)
    requires id in t.a.strms && ChargedTo(t.a, id) <= c && SentOn(t.a, id) <= |sent| && s.maxTx <= t.a.strms[id].maxTx
    requires t.a.strms[id].maxRx <= s.maxRx && (t.a.strms[id].shutWr ==> s.shutWr)
    ensures Frame(t, Stored(t, id, s, c, sent), {id}, {})
    ensures SameRx(t.a.strms[id], s) && c == ChargedTo(t.a, id) ==> Frame(t, Stored(t, id, s, c, sent), {}, {})
  {
  }

  lemma ChangedFrame(t: Endpoint, id: nat, s: Strm)
    requires id in t.a.strms && t.a.strms[id].maxRx <= s.maxRx && (t.a.strms[id].shutWr ==> s.shutWr)
    requires SameRx(t.a.strms[id], s) && s.maxTx <= t.a.strms[id].maxTx
    ensures Frame(t, Changed(t, id, s), {}, {})
  {
    StoredFrame(t, id, s, ChargedTo(t.a, id), SentBytes(t.a, id));
  }

  lemma SettledFrame(t: Endpoint, id: nat)
    requires id in t.a.strms && t.a.strms.Keys !! t.a.closed.Keys
    ensures Frame(t, Settled(t, id), {}, {}) && Settled(t, id).a.strms.Keys <= t.a.strms.Keys
  {
    if ShouldClose(t.a.strms[id]) { ClosedFrame(t, Settled(t, id), id); } else { IdleFrame(t, t, {}); }
  }

  lemma ClosedFrame(t: Endpoint, t': Endpoint, id: nat)
    requires id in t.a.strms && t.a.strms.Keys !! t.a.closed.Keys && t'.a == CloseStrm(t.a, id)
    requires t'.window == t.window && t'.peerWindow == t.peerWindow && t'.b.server == t.b.server
    ensures Frame(t, t', {}, {})
  {
    forall x | x in t'.a.strms ensures x in t.a.strms && t'.a.strms[x] == t.a.strms[x] {}
    forall x: nat ensures Offered(t, x) <= Offered(t', x) {
      if x in t.a.strms && x != id { assert x in t'.a.strms; }
    }
  }

  lemma AddedFrame(t: Endpoint, id: nat, s: Strm)
    requires id !in t.a.strms && id !in t.a.closed && id !in t.a.charged
    requires s.maxRx == t.window && s.maxTx == t.peerWindow && Fresh(t, id, s)
    requires !LocalStream(t.b.server, id) && !BidiStream(id) ==> s.shutWr
    ensures Frame(t, Added(t, id, s), {}, {})
  {
  }

  /** A change of a stream, and a check whether it is to be closed. */
  lemma CheckedFrame(t: Endpoint, u: Endpoint, id: nat, rx: set<nat>)
    requires Frame(t, u, rx, {}) && id in u.a.strms && u.a.strms.Keys !! u.a.closed.Keys
    ensures Frame(t, Settled(u, id), rx, {})
  {
    SettledFrame(u, id);
    FrameClose(t, u, Settled(u, id), rx);
  }

  lemma AbsorbedFrame(t: Endpoint, id: nat, s: Strm, c: nat, waiting: seq<nat>, check: bool)
    requires id in t.a.strms && ChargedTo(t.a, id) <= c && t.a.strms.Keys !! t.a.closed.Keys
    requires t.a.strms[id].maxRx <= s.maxRx && (t.a.strms[id].shutWr ==> s.shutWr) && s.maxTx <= t.a.strms[id].maxTx
    ensures Frame(t, Absorbed(t, id, s, c, waiting, check), {id}, {})
  {
    StoredFrame(t, id, s, c, SentBytes(t.a, id));
    var u := Stored(t, id, s, c, SentBytes(t.a, id)).(waiting := waiting);
    if check { CheckedFrame(t, u, id, {id}); }
  }

  lemma FoundFrame(t: Endpoint, id: nat)
    requires Sound(t) && 0 < id && Admission(t.b, id) == Ok
    ensures Frame(t, Found(t, id), {}, {}) && t.a.strms.Keys <= Found(t, id).a.strms.Keys
  {
    FoundKeeps(t, id);
    if Opens(t, id) {
      AddedFrame(Claimed(t, id, true), id, PeerStrm(id, t.window, t.peerWindow));
      FoundIs(t, id, Found(t, id));
    } else {
      IdleFrame(t, t, {});
    }
  }

  lemma FoundIs(t: Endpoint, id: nat, t': Endpoint)
    requires Frame(Claimed(t, id, true), t', {}, {})
    ensures Frame(t, t', {}, {})
  {
    IdleFrame(t, Claimed(t, id, true), {});
    FrameTrans(t, Claimed(t, id, true), t', {}, {});
  }

  // ----- events -----

  lemma StreamFrames(t: Endpoint, id: nat, fr: StreamFrame)
    requires Sound(t) && 0 < id && StreamStatus(t, id, fr) == Ok
    ensures Frame(t, AfterStream(t, id, fr), {id}, {})
  {
    var u := Found(t, id);
    FoundFrame(t, id);
    FoundKeeps(t, id);
    if id in u.a.strms {
      var d := Verdict(u, id, fr);
      DecideStatus(u.a.strms[id].View(), fr, Credit(u.a));
      TookFrame(u, id, fr, d);
      FrameTrans(t, u, Took(u, id, fr, d), {id}, {});
    } else {
      IdleFrame(t, t, {id});
    }
  }

  lemma TookFrame(t: Endpoint, id: nat, fr: StreamFrame, d: RxDecision)
    requires Sound(t) && id in t.a.strms && d.Accept?
    ensures Frame(t, Took(t, id, fr, d), {id}, {})
  {
    var s, c := Received(t.a.strms[id], fr, d), ChargedTo(t.a, id) + d.charge;
    TookIs(t, id, fr, d, s, c);
    AbsorbedFrame(t, id, s, c, StillWaiting(t.waiting, id, fr, d), !d.action.Discard?);
  }

  lemma ResetFrames(t: Endpoint, id: nat, final: nat)
    requires Sound(t)
    ensures Frame(t, AfterReset(t, id, final), {id}, {})
  {
    IdleFrame(t, t, {id});
    if ResetStatus(t, id, final) == Ok {
      if id in t.a.strms {
        var s, c := ResetOf(t.a.strms[id]), ChargedTo(t.a, id) + (final - t.a.strms[id].lastRx);
        ResetStrmIs(t, id, final, s, c);
        AbsorbedFrame(t, id, s, c, t.waiting, true);
      } else if Opens(t, id) {
        assert Frame(t, Claimed(t, id, false).(a := ChargeOnly(t.a, id, final)), {id}, {});
      }
    }
  }

  lemma StopFrames(t: Endpoint, id: nat)
    requires Sound(t)
    ensures Frame(t, AfterStop(t, id), {}, {})
  {
    IdleFrame(t, t, {});
    if StopStatus(t, id) == Ok {
      if id in t.a.strms {
        ChangedFrame(t, id, StopOf(t.a.strms[id]));
        CheckedFrame(t, Changed(t, id, StopOf(t.a.strms[id])), id, {});
      } else if Opens(t, id) {
        IdleFrame(t, Claimed(t, id, false), {});
      }
    }
  }

  lemma MaxStreamDataFrames(t: Endpoint, id: nat, limit: nat)
    requires Sound(t) && 0 < id
    ensures Frame(t, AfterMaxStreamData(t, id, limit), {}, {id})
    ensures var t' := AfterMaxStreamData(t, id, limit); id in t'.a.strms ==> t'.a.strms[id].maxTx <= Max(SendLimit(t, id), limit)
  {
    IdleFrame(t, t, {});
    if Admission(t.b, id) == Ok {
      var u := Found(t, id);
      FoundFrame(t, id);
      if id in u.a.strms {
        RaisedFrame(u, id, limit);
        FrameTrans(t, u, RaisedTx(u, id, limit), {}, {id});
        assert u.a.strms[id].maxTx <= SendLimit(t, id);
      }
    }
  }

  lemma RaisedFrame(t: Endpoint, id: nat, limit: nat)
    requires id in t.a.strms
    ensures Frame(t, RaisedTx(t, id, limit), {}, {id})
  {
  }

  lemma AckFrames(t: Endpoint, id: nat, fr: StreamFrame)
    requires Sound(t)
    ensures Frame(t, AfterAck(t, id, fr), {}, {})
  {
    IdleFrame(t, t, {});
    if id in t.a.strms {
      var s := AckedRange(t.a.strms[id], fr.offset, |fr.data|, fr.fin);
      AckForm(t, id, fr, s);
      AckedSides(t.a.strms[id], fr.offset, |fr.data|, fr.fin);
      ChangedFrame(t, id, s);
      CheckedFrame(t, Changed(t, id, s), id, {});
    }
  }

  lemma AckedSides(s: Strm, offset: nat, len: nat, fin: bool)
    ensures var s' := AckedRange(s, offset, len, fin); SameRx(s, s') && s'.maxRx == s.maxRx && s'.maxTx == s.maxTx && s'.shutWr == s.shutWr
  {
  }

  lemma OpenFrames(t: Endpoint, bidi: bool)
    requires Sound(t)
    ensures Frame(t, AfterOpen(t, bidi), {}, {})
  {
    IdleFrame(t, t, {});
    if OpenStatus(t, bidi) == Ok {
      var id, u := NextOf(t.b, bidi), t.(b := TakeNext(t.b, bidi));
      IdleFrame(t, u, {});
      OpenedNew(t, bidi);
      AddedFrame(u, id, NewStrm(t.window, t.peerWindow).(shutRd := !bidi));
      FrameTrans(t, u, AfterOpen(t, bidi), {}, {});
    }
  }

  lemma OpenedNew(t: Endpoint, bidi: bool)
    requires Sound(t)
    ensures var id := NextOf(t.b, bidi);
            id !in t.a.strms && id !in t.a.charged && id !in t.a.closed && LocalStream(t.b.server, id) && BidiStream(id) == bidi
  {
    TakeNextKeeps(t.b, bidi, t.a.strms.Keys, t.a.charged.Keys + t.a.sent.Keys);
    NextIsLocal(t.b.server, NextOf(t.b, bidi), bidi);
  }

  lemma WriteFrames(t: Endpoint, id: nat, data: seq<byte>, fin: bool, left: nat)
    ensures Frame(t, AfterWrite(t, id, data, fin, left), {}, {})
  {
    if WriteStatus(t, id, data, left) == Ok {
      var fr := WrittenFrame(t, id, data, fin, left);
      WriteForm(t, id, data, fin, left, fr);
      StoredFrame(t, id, Sent(t.a.strms[id], |fr.data|, fr.fin), ChargedTo(t.a, id), SentBytes(t.a, id) + fr.data);
    } else {
      IdleFrame(t, t, {});
    }
  }

  lemma ShutdownFrames(t: Endpoint, id: nat, code: nat)
    ensures Frame(t, AfterStopWriting(t, id, code), {}, {}) && Frame(t, AfterStopReading(t, id, code), {}, {})
  {
    IdleFrame(t, t, {});
    if id in t.a.strms {
      ChangedFrame(t, id, StopOf(t.a.strms[id]));
      ChangedFrame(t, id, t.a.strms[id].(stopSending := true));
    }
  }

  lemma ConsumeFrames(t: Endpoint, id: nat, n: nat)
    ensures Frame(t, AfterConsume(t, id, n), {}, {})
  {
    IdleFrame(t, t, {});
    if id in t.a.strms { ChangedFrame(t, id, RaisedRx(t.a.strms[id], n)); }
  }

  lemma AnnounceFirstFrame(t: Endpoint)
    requires Sound(t) && t.waiting != []
    ensures Frame(t, AnnounceFirst(t), {}, {})
  {
    var id := t.waiting[0];
    assert id in t.waiting;
    LiveAt(t, id);
    ChangedFrame(t, id, AdvertisedRx(t.a.strms[id]));
  }

  lemma {:induction false} AnnounceFrames(t: Endpoint)
    requires Sound(t)
    ensures Frame(t, AfterAnnounceStreams(t), {}, {})
    decreases |t.waiting|
  {
    if t.waiting == [] {
      IdleFrame(t, t, {});
    } else {
      AnnounceFirstFrame(t);
      AnnounceFirstKeeps(t);
      AnnounceFrames(AnnounceFirst(t));
      FrameTrans(t, AnnounceFirst(t), AfterAnnounceStreams(t), {}, {});
    }
  }

  /** Steps that change no stream. */
  predicate MovesLimit(e: Event) { e.MaxDataIn? || e.MaxStreamIdIn? || e.ConsumeAll? || e.AnnounceData? || e.AnnounceIds? }

  lemma LimitFrames(t: Endpoint, e: Event)
    requires MovesLimit(e)
    ensures Frame(t, AfterOther(t, e), {}, {})
  {
    IdleFrame(t, AfterOther(t, e), {});
  }

  predicate OfApplication(e: Event) { e.Open? || e.StopWriting? || e.StopReading? || e.Consume? }

  lemma ApplicationFrames(t: Endpoint, e: Event)
    requires Sound(t) && OfApplication(e)
    ensures Frame(t, AfterOther(t, e), {}, {})
  {
    match e
    case Open(bidi) => OpenFrames(t, bidi);
    case StopWriting(id, code) => ShutdownFrames(t, id, code);
    case StopReading(id, code) => ShutdownFrames(t, id, code);
    case Consume(id, n) => ConsumeFrames(t, id, n);
  }

  /** All other events without a record, except RST_STREAM and MAX_STREAM_DATA frames. */
  lemma OtherFrames(t: Endpoint, e: Event)
    requires Sound(t) && !e.StreamIn? && !e.ResetIn? && !e.MaxStreamDataIn? && !e.AckIn? && !e.Write?
    ensures Frame(t, AfterOther(t, e), {}, {})
  {
    if MovesLimit(e) {
      LimitFrames(t, e);
    } else if OfApplication(e) {
      ApplicationFrames(t, e);
    } else if e.StopSendingIn? {
      StopFrames(t, e.id);
    } else {
      AnnounceFrames(t);
    }
  }
}
