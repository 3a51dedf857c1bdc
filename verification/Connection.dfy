/**
 A connection: its streams, limits and stream ID trackers, and the steps that receive, send,
 open, reset and close.  Every step does what the machine does.
 */
module Connection {
  import opened Basics
  import opened Ranges
  import opened StreamReceive
  import opened Streams
  import opened Ledger
  import opened Steps
  import opened Machine
  import IdTracker

  /** The tracker has recorded exactly the IDs in `used`. */
  ghost predicate Tracked(gaps: seq<Range>, used: set<nat>) {
    forall q: nat :: q < IdTracker.ID_LIMIT ==> (q in used <==> IdTracker.Used(gaps, q))
  }

  lemma FreshTracked(gaps: seq<Range>)
    requires gaps == [Range(0, UINT64_MAX)]
    ensures Tracked(gaps, {})
  {
    forall x: nat | x < IdTracker.ID_LIMIT ensures !IdTracker.Used(gaps, x) { assert In(x, gaps[0]); }
  }

  class Conn {
    var a: Accounts
    var b: IdBook
    const remoteBidi: IdTracker.Idtr
    const remoteUni: IdTracker.Idtr
    // Streams that wait for a MAX_STREAM_DATA frame to be sent.
    var fcStrms: seq<nat>
    var maxLocalBidi: nat
    var maxLocalUni: nat
    const localMaxStreamData: nat
    const localMaxData: nat
    var remoteMaxStreamData: nat

    function State(): Endpoint
      reads this
    {
      Endpoint(a, b, fcStrms, maxLocalBidi, maxLocalUni, localMaxStreamData, localMaxData, remoteMaxStreamData)
    }

    /** The trackers have the peer's IDs. */
    ghost predicate Valid()
      reads this`b, remoteBidi, remoteUni
    {
      && remoteBidi != remoteUni && remoteBidi.Valid() && remoteUni.Valid()
      && remoteBidi.server == !b.server && remoteUni.server == !b.server
      && Tracked(remoteBidi.gaps, b.bidi.used) && Tracked(remoteUni.gaps, b.uni.used)
    }

    constructor (server: bool, local: Settings)
      ensures Valid() && fresh(remoteBidi) && fresh(remoteUni) && State() == Start(server, local)
    {
      var bidi := new IdTracker.Idtr(!server);
      var uni := new IdTracker.Idtr(!server);
      FreshTracked(bidi.gaps);
      if server {
        var ok := bidi.Open(0);
      }
      remoteBidi, remoteUni := bidi, uni;
      var start := Start(server, local);
      a, b, fcStrms, maxLocalBidi, maxLocalUni := start.a, start.b, [], 0, 0;
      localMaxStreamData, localMaxData, remoteMaxStreamData := local.maxStreamData, local.maxData, 0;
    }

    /** The peer's transport parameters replace the limits on sending. */
    method SetRemoteParams(remote: Settings)
      requires Valid()
      modifies this`a, this`remoteMaxStreamData, this`maxLocalBidi, this`maxLocalUni
      ensures Valid() && State() == WithParams(old(State()), remote)
    {
      a := a.(maxTx := remote.maxData);
      remoteMaxStreamData, maxLocalBidi, maxLocalUni := remote.maxStreamData, remote.maxIdBidi, remote.maxIdUni;
    }

    // ----- stream IDs and streams -----

    /** Whether closing a peer-initiated stream extends the peer's limit. */
    method RemoteExtension(id: nat) returns (extend: bool)
      requires Valid()
      ensures extend == ExtendsIds(b, id)
    {
      var firstGap := if BidiStream(id) then remoteBidi.FirstGap() else remoteUni.FirstGap();
      extend := Space(b, id).unsent <= MAX_VARINT - 4 && 0 < firstGap;
    }

    /** Closes a stream that has nothing left to do; one more peer-initiated stream may be opened in exchange. */
    method CloseIfShut(id: nat)
      requires Valid() && id in a.strms
      modifies this`a, this`b, this`fcStrms
      ensures Valid() && State() == Settled(old(State()), id)
    {
      if ShouldClose(a.strms[id]) {
        var extend := false;
        if !LocalStream(b.server, id) {
          extend := RemoteExtension(id);
        }
        CloseIdUsed(b, id, extend, ExtendsIds(b, id));
        a, b, fcStrms := CloseStrm(a, id), CloseId(b, id, extend), Without(fcStrms, id);
      }
    }

    /** Whether a peer-initiated ID has been used. */
    method IdInUse(id: nat) returns (inUse: bool)
      requires Valid() && id <= MAX_VARINT && !LocalStream(b.server, id)
      ensures inUse == Known(b, id)
    {
      EvenOdd(b.server, id);
      if BidiStream(id) {
        inUse := remoteBidi.IsOpen(id);
      } else {
        inUse := remoteUni.IsOpen(id);
      }
    }

    /** Records the use of a peer-initiated ID; refused exactly if it was used before. */
    method ClaimId(id: nat, create: bool) returns (ok: bool)
      requires Valid() && id <= MAX_VARINT && !LocalStream(b.server, id)
      modifies this`b, remoteBidi, remoteUni
      ensures Valid() && ok == !old(Known(b, id))
      ensures State() == if ok then Claimed(old(State()), id, create) else old(State())
    {
      EvenOdd(b.server, id);
      if BidiStream(id) {
        ok := remoteBidi.Open(id);
      } else {
        ok := remoteUni.Open(id);
      }
      if ok {
        b := Claim(b, id, create);
      }
    }

    /** Finds the stream a frame is for, creating it if the frame opens it; `found` is false if it is gone. */
    method FindOrCreate(id: nat) returns (found: bool)
      requires Valid() && id <= MAX_VARINT
      modifies this`a, this`b, remoteBidi, remoteUni
      ensures Valid() && State() == Found(old(State()), id) && found == (id in a.strms)
    {
      if id in a.strms {
        return true;
      }
      if LocalStream(b.server, id) {
        return false;
      }
      found := ClaimId(id, true);
      if found {
        a := Add(a, id, PeerStrm(id, localMaxStreamData, remoteMaxStreamData));
      }
    }

    // ----- frames received -----

    /** STREAM. */
    method RecvStream(id: nat, fr: StreamFrame) returns (status: Status)
      requires Valid() && id <= MAX_VARINT
      modifies this`a, this`b, this`fcStrms, remoteBidi, remoteUni
      ensures Valid() && status == StreamStatus(old(State()), id, fr) && State() == AfterStream(old(State()), id, fr)
    {
      status := PreCheck(b, id, fr);
      if status == Ok {
        var found := FindOrCreate(id);
        if found {
          status := RecvOnStream(id, fr);
        }
      }
    }

    /** The part of RecvStream after the stream has been found. */
    method RecvOnStream(id: nat, fr: StreamFrame) returns (status: Status)
      requires Valid() && id in a.strms
      modifies this`a, this`b, this`fcStrms
      ensures Valid() && status == StatusOf(Verdict(old(State()), id, fr)) && State() == Weighed(old(State()), id, fr)
    {
      ghost var t := State();
      var s := a.strms[id];
      var d := Decide(s.View(), fr, Credit(a));
      status := StatusOf(d);
      if d.Accept? {
        var charged := ChargedTo(a, id) + d.charge;
        TookIs(t, id, fr, d, Received(s, fr, d), charged);
        TakeFrame(id, fr, d, Received(s, fr, d), charged);
      } else if status == ErrFinalOffset {
        a := a.(rx := a.rx + Max(fr.End(), s.lastRx) - s.lastRx);
      }
    }

    /** Takes in a STREAM frame that passed the flow control and final offset checks. */
    method TakeFrame(id: nat, fr: StreamFrame, d: RxDecision, s: Strm, c: nat)
      requires Valid() && id in a.strms && d.Accept? && ChargedTo(a, id) <= c
      modifies this`a, this`b, this`fcStrms
      ensures Valid()
      ensures State() == Absorbed(old(State()), id, s, c, StillWaiting(old(fcStrms), id, fr, d), !d.action.Discard?)
    {
      a := Put(a, id, s, c, SentBytes(a, id));
      if d.action.Discard? {
        return;
      }
      if fr.fin && !d.action.CloseOnly? {
        fcStrms := Without(fcStrms, id);
      }
      CloseIfShut(id);
    }

    /** RST_STREAM. */
    method RecvRst(id: nat, final: nat) returns (status: Status)
      requires Valid() && id <= MAX_VARINT
      modifies this`a, this`b, this`fcStrms, remoteBidi, remoteUni
      ensures Valid() && status == ResetStatus(old(State()), id, final) && State() == AfterReset(old(State()), id, final)
    {
      if id == 0 {
        return ErrProto;
      }
      status := Admission(b, id);
      if status != Ok {
        return;
      }
      if id in a.strms {
        status := RstOnStream(id, final);
      } else if LocalStream(b.server, id) {
        status := if !BidiStream(id) && final != 0 then ErrFinalOffset else Ok;
      } else {
        status := RstUnopened(id, final);
      }
    }

    /** Reset of a stream that exists. */
    method RstOnStream(id: nat, final: nat) returns (status: Status)
      requires Valid() && id in a.strms
      modifies this`a, this`b, this`fcStrms
      ensures Valid() && status == StrmResetStatus(old(a), old(a).strms[id], final)
      ensures State() == if status == Ok then ResetStrm(old(State()), id, final) else old(State())
    {
      var s := a.strms[id];
      if (if s.shutRd then s.lastRx != final else s.lastRx > final) {
        return ErrFinalOffset;
      }
      var datalen := final - s.lastRx;
      if s.maxRx < final || Credit(a) < datalen {
        return ErrFlowControl;
      }
      status := Ok;
      var s', c := ResetOf(s), ChargedTo(a, id) + datalen;
      ResetStrmIs(State(), id, final, s', c);
      Absorb(id, s', c);
    }

    /** A stream is changed, and closed if that was all it waited for. */
    method Absorb(id: nat, s: Strm, c: nat)
      requires Valid() && ChargedTo(a, id) <= c
      modifies this`a, this`b, this`fcStrms
      ensures Valid() && State() == Absorbed(old(State()), id, s, c, old(fcStrms), true)
    {
      a := Put(a, id, s, c, SentBytes(a, id));
      CloseIfShut(id);
    }

    /** Reset of a peer-initiated stream that does not exist; it is claimed if it never did. */
    method RstUnopened(id: nat, final: nat) returns (status: Status)
      requires Valid() && 0 < id <= MAX_VARINT && id !in a.strms && !LocalStream(b.server, id) && Admission(b, id) == Ok
      modifies this`a, this`b, remoteBidi, remoteUni
      ensures Valid() && status == ResetStatus(old(State()), id, final) && State() == AfterReset(old(State()), id, final)
    {
      status := Ok;
      var inUse := IdInUse(id);
      if !inUse {
        if localMaxStreamData < final || Credit(a) < final {
          return ErrFlowControl;
        }
        var claimed := ClaimId(id, false);
        a := ChargeOnly(a, id, final);
      }
    }

    /** STOP_SENDING. */
    method RecvStopSending(id: nat) returns (status: Status)
      requires Valid() && id <= MAX_VARINT
      modifies this`a, this`b, this`fcStrms, remoteBidi, remoteUni
      ensures Valid() && status == StopStatus(old(State()), id) && State() == AfterStop(old(State()), id)
    {
      if id == 0 {
        return ErrProto;
      }
      status := Admission(b, id);
      if status == Ok {
        if id in a.strms {
          a := Put(a, id, StopOf(a.strms[id]), ChargedTo(a, id), SentBytes(a, id));
          CloseIfShut(id);
        } else if !LocalStream(b.server, id) {
          var inUse := IdInUse(id);
          if !inUse {
            var claimed := ClaimId(id, false);
          }
        }
      }
    }

    /** MAX_STREAM_DATA. */
    method RecvMaxStreamData(id: nat, limit: nat) returns (status: Status)
      requires Valid() && id <= MAX_VARINT
      modifies this`a, this`b, remoteBidi, remoteUni
      ensures Valid() && status == Admission(old(b), id) && State() == AfterMaxStreamData(old(State()), id, limit)
    {
      status := Admission(b, id);
      if status == Ok {
        var found := FindOrCreate(id);
        if found {
          a := Put(a, id, a.strms[id].(maxTx := Max(a.strms[id].maxTx, limit)), ChargedTo(a, id), SentBytes(a, id));
        }
      }
    }

    /** MAX_DATA. */
    method RecvMaxData(limit: nat)
      requires Valid()
      modifies this`a
      ensures Valid() && State() == AfterMaxData(old(State()), limit)
    {
      a := a.(maxTx := Max(a.maxTx, limit));
    }

    /** MAX_STREAM_ID. */
    method RecvMaxStreamId(limit: nat)
      requires Valid()
      modifies this`maxLocalBidi, this`maxLocalUni
      ensures Valid() && State() == AfterMaxStreamId(old(State()), limit)
    {
      if BidiStream(limit) {
        maxLocalBidi := Max(maxLocalBidi, limit);
      } else {
        maxLocalUni := Max(maxLocalUni, limit);
      }
    }

    /** A STREAM frame sent earlier is acknowledged. */
    method Acked(id: nat, fr: StreamFrame)
      requires Valid()
      modifies this`a, this`b, this`fcStrms
      ensures Valid() && State() == AfterAck(old(State()), id, fr)
    {
      if id in a.strms {
        var s := a.strms[id];
        var gaps := Subtract(s.ackGaps, Range(fr.offset, fr.offset + |fr.data|));
        var prev, next := FirstOffset(s.ackGaps), FirstOffset(gaps);
        var told := next != prev || fr.fin;
        var s' := s.(ackGaps := gaps, ackCalls := if told then s.ackCalls + [Range(prev, next)] else s.ackCalls);
        AckIs(State(), id, fr, s', told);
        StoreAcked(id, s', told);
      }
    }

    /** Stores a stream with more acknowledged, and closes it if the application was told and that was the last of it. */
    method StoreAcked(id: nat, s: Strm, told: bool)
      requires Valid()
      modifies this`a, this`b, this`fcStrms
      ensures Valid()
      ensures State() == if told then Settled(Changed(old(State()), id, s), id) else Changed(old(State()), id, s)
    {
      a := Put(a, id, s, ChargedTo(a, id), SentBytes(a, id));
      if told {
        CloseIfShut(id);
      }
    }

    // ----- calls of the application -----

    /** Opens the next local stream of a kind. */
    method OpenStream(bidi: bool) returns (status: Status, id: nat)
      requires Valid()
      modifies this`a, this`b
      ensures Valid() && status == OpenStatus(old(State()), bidi) && id == NextOf(old(b), bidi)
      ensures State() == AfterOpen(old(State()), bidi)
    {
      id := NextOf(b, bidi);
      if (if bidi then maxLocalBidi else maxLocalUni) < id {
        return ErrStreamIdBlocked, id;
      }
      b := TakeNext(b, bidi);
      a := Add(a, id, NewStrm(localMaxStreamData, remoteMaxStreamData).(shutRd := !bidi));
      return Ok, id;
    }

    /** Sends as much as the packet, the stream and the connection allow. */
    method WriteStream(id: nat, data: seq<byte>, fin: bool, left: nat) returns (status: Status, frame: StreamFrame)
      requires Valid()
      modifies this`a
      ensures Valid() && status == WriteStatus(old(State()), id, data, left)
      ensures status == Ok ==> frame == WrittenFrame(old(State()), id, data, fin, left)
      ensures State() == AfterWrite(old(State()), id, data, fin, left)
    {
      frame := StreamFrame(0, [], false);
      if id !in a.strms {
        return ErrStreamNotFound, frame;
      }
      var s := a.strms[id];
      if s.shutWr {
        return ErrStreamShutWr, frame;
      }
      if left <= STREAM_OVERHEAD {
        return ErrNoBuf, frame;
      }
      var n := Min(Min(Min(|data|, left - STREAM_OVERHEAD), Room(s.maxTx, s.tx)), Room(a.maxTx, a.tx));
      if data != [] && n == 0 {
        return ErrStreamDataBlocked, frame;
      }
      if left < FrameLen(id, s.tx, n) {
        return ErrNoBuf, frame;
      }
      status := Ok;
      frame := StreamFrame(s.tx, data[..n], fin && n == |data|);
      a := Put(a, id, Sent(s, n, frame.fin), ChargedTo(a, id), SentBytes(a, id) + frame.data);
    }

    /** Resets the sending side. */
    method ShutdownWrite(id: nat, appErrorCode: nat) returns (status: Status)
      requires Valid()
      modifies this`a
      ensures Valid() && status == ShutdownStatus(old(State()), id, appErrorCode)
      ensures State() == AfterStopWriting(old(State()), id, appErrorCode)
    {
      if id == 0 || appErrorCode == STOPPING {
        return ErrInvalidArgument;
      }
      if id !in a.strms {
        return ErrStreamNotFound;
      }
      status := Ok;
      if !a.strms[id].sentRst {
        a := Put(a, id, StopOf(a.strms[id]), ChargedTo(a, id), SentBytes(a, id));
      }
    }

    /** Asks the peer to stop sending. */
    method ShutdownRead(id: nat, appErrorCode: nat) returns (status: Status)
      requires Valid()
      modifies this`a, this`fcStrms
      ensures Valid() && status == ShutdownStatus(old(State()), id, appErrorCode)
      ensures State() == AfterStopReading(old(State()), id, appErrorCode)
    {
      if id == 0 || appErrorCode == STOPPING {
        return ErrInvalidArgument;
      }
      if id !in a.strms {
        return ErrStreamNotFound;
      }
      status := Ok;
      if !a.strms[id].stopSending {
        a := Put(a, id, a.strms[id].(stopSending := true), ChargedTo(a, id), SentBytes(a, id));
        fcStrms := Without(fcStrms, id);
      }
    }

    /** The application has consumed data: the stream's limit may be raised, and the peer told when it is worth it. */
    method ExtendMaxStreamOffset(id: nat, n: nat) returns (status: Status)
      requires Valid() && n < SPAN
      modifies this`a, this`fcStrms
      ensures Valid() && status == (if id in old(a).strms then Ok else ErrStreamNotFound)
      ensures State() == AfterConsume(old(State()), id, n)
    {
      if id !in a.strms {
        return ErrStreamNotFound;
      }
      status := Ok;
      var s := RaisedRx(a.strms[id], n);
      a := Put(a, id, s, ChargedTo(a, id), SentBytes(a, id));
      if !s.shutRd && !s.stopSending && id !in fcStrms && WorthAnnouncing(s, localMaxStreamData) {
        fcStrms := [id] + fcStrms;
      }
    }

    /** The application has consumed data: the connection's limit may be raised. */
    method ExtendMaxOffset(n: nat)
      requires Valid()
      modifies this`a
      ensures Valid() && State() == AfterConsumeAll(old(State()), n)
    {
      if MAX_VARINT < n || a.unsentMaxRx > MAX_VARINT - n {
        a := a.(unsentMaxRx := MAX_VARINT);
      } else {
        a := a.(unsentMaxRx := a.unsentMaxRx + n);
      }
    }

    // ----- limits announced when a packet is written -----

    /** MAX_DATA. */
    method FlushMaxData(riding: bool)
      requires Valid()
      modifies this`a
      ensures Valid() && State() == AfterAnnounceData(old(State()), riding)
    {
      if (riding || localMaxData / 2 < a.unsentMaxRx - a.maxRx) && a.unsentMaxRx > a.maxRx {
        a := a.(maxRx := a.unsentMaxRx);
      }
    }

    /** MAX_STREAM_DATA. */
    method FlushMaxStreamData()
      requires Valid() && Listed(fcStrms, a.strms)
      modifies this`a, this`fcStrms
      ensures Valid() && State() == AfterAnnounceStreams(old(State()))
    {
      while fcStrms != []
        invariant Listed(fcStrms, a.strms) && AfterAnnounceStreams(State()) == AfterAnnounceStreams(old(State()))
        decreases |fcStrms|
      {
        ghost var next := AnnounceFirst(State());
        var id := fcStrms[0];
        a := Put(a, id, AdvertisedRx(a.strms[id]), ChargedTo(a, id), SentBytes(a, id));
        fcStrms := fcStrms[1..];
        assert State() == next;
      }
    }

    /** MAX_STREAM_ID. */
    method FlushMaxStreamId(bidi: bool)
      requires Valid()
      modifies this`b
      ensures Valid() && State() == AfterAnnounceIds(old(State()), bidi)
    {
      b := Advertise(b, bidi);
    }
  }

  lemma AckIs(t: Endpoint, id: nat, fr: StreamFrame, s: Strm, told: bool)
    requires id in t.a.strms
    requires var gaps := Subtract(t.a.strms[id].ackGaps, Range(fr.offset, fr.End()));
             var prev, next := FirstOffset(t.a.strms[id].ackGaps), FirstOffset(gaps);
             && told == (next != prev || fr.fin)
             && s == t.a.strms[id].(ackGaps := gaps, ackCalls := if told then t.a.strms[id].ackCalls + [Range(prev, next)]
                                                                  else t.a.strms[id].ackCalls)
    ensures AfterAck(t, id, fr) == if told then Settled(Changed(t, id, s), id) else Changed(t, id, s)
  {
    var s0 := t.a.strms[id];
    assert AckedRange(s0, fr.offset, |fr.data|, fr.fin) == s;
    if told { assert |s.ackCalls| == |s0.ackCalls| + 1; }
  }

  lemma CloseIdUsed(b: IdBook, id: nat, extend: bool, extend': bool)
    requires LocalStream(b.server, id) || extend == extend'
    ensures var b' := CloseId(b, id, extend);
            && b' == CloseId(b, id, extend')
            && b'.server == b.server && b'.bidi.used == b.bidi.used && b'.uni.used == b.uni.used
  {
  }

  lemma EvenOdd(server: bool, id: nat)
    requires !LocalStream(server, id)
    ensures server ==> id % 2 == 0
  {
  }
}
