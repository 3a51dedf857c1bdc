/**
 Running a connection, and what a peer gets of the frames written in a run.
 */
module ConnectionRun {
  import opened Basics
  import opened StreamReceive
  import opened Ledger
  import opened Steps
  import opened Machine
  import opened Connection
  import opened History

  /** One event, handled by the connection. */
  method Step(conn: Conn, s: State, e: Event) returns (status: Status, s': State)
    requires conn.Valid() && conn.State() == s.t && Possible(e) && Listed(conn.fcStrms, conn.a.strms)
    modifies conn, conn.remoteBidi, conn.remoteUni
    ensures conn.Valid() && status == Answer(s.t, e) && s' == After(s, e) && conn.State() == s'.t
  {
    s', status := s, Ok;
    match e {
      case StreamIn(id, frame) =>
        if Taking(s.t, id, frame) {
          s' := s.(got := s.got + [Piece(id, frame)]);
        }
        status := conn.RecvStream(id, frame);
      case AckIn(k) =>
        if k < |s.written| {
          s' := s.(acked := s.acked + [s.written[k]]);
          conn.Acked(s.written[k].id, s.written[k].frame);
        }
      case Write(id, data, fin, left) =>
        var sent, frame := conn.WriteStream(id, data, fin, left);
        if sent == Ok {
          s' := s.(written := s.written + [Piece(id, frame)]);
        }
      case _ =>
        status := OtherStep(conn, e);
    }
    s' := s'.(t := conn.State());
  }

  method OtherStep(conn: Conn, e: Event) returns (status: Status)
    requires conn.Valid() && Possible(e) && Listed(conn.fcStrms, conn.a.strms) && !e.StreamIn? && !e.AckIn? && !e.Write?
    modifies conn, conn.remoteBidi, conn.remoteUni
    ensures conn.Valid() && status == Answer(old(conn.State()), e) && conn.State() == AfterOther(old(conn.State()), e)
  {
    status := Ok;
    match e
    case ResetIn(id, final) => status := conn.RecvRst(id, final);
    case StopSendingIn(id) => status := conn.RecvStopSending(id);
    case MaxStreamDataIn(id, limit) => status := conn.RecvMaxStreamData(id, limit);
    case MaxDataIn(limit) => conn.RecvMaxData(limit);
    case MaxStreamIdIn(limit) => conn.RecvMaxStreamId(limit);
    case Open(bidi) => var done, id := conn.OpenStream(bidi);
    case StopWriting(id, appErrorCode) => var done := conn.ShutdownWrite(id, appErrorCode);
    case StopReading(id, appErrorCode) => var done := conn.ShutdownRead(id, appErrorCode);
    case Consume(id, n) => var done := conn.ExtendMaxStreamOffset(id, n);
    case ConsumeAll(n) => conn.ExtendMaxOffset(n);
    case AnnounceData(riding) => conn.FlushMaxData(riding);
    case AnnounceStreams => conn.FlushMaxStreamData();
    case AnnounceIds(bidi) => conn.FlushMaxStreamId(bidi);
    case _ =>
  }

  /**
   Any run, from a fresh connection: it goes on up to the first event that ends the connection,
   and until then the accounts balance, the peer has no more streams than it was first allowed,
   every frame written is a faithful piece of what the application sent, and the gap lists say
   exactly what was acknowledged and received.
   */
  method RunAll(server: bool, local: Settings, remote: Settings, events: seq<Event>)
    returns (s: State, n: nat, status: Status, ghost states: seq<State>)
    requires forall i :: 0 <= i < |events| ==> Possible(events[i])
    ensures n <= |events| && Run(states, events[..n]) && states[0] == Beginning(server, local, remote) && states[n] == s
    ensures if n == |events| then status == Ok else status == Answer(s.t, events[n]) != Ok
    ensures Whole(s)
    ensures |PeerStreams(s.t.a, s.t.b, true)| <= local.maxIdBidi / 4 + 1
    ensures |PeerStreams(s.t.a, s.t.b, false)| <= local.maxIdUni / 4 + 1
  {
    var conn := new Conn(server, local);
    conn.SetRemoteParams(remote);
    BeginningWhole(server, local, remote);
    s, n, status, states := RunFrom(conn, Beginning(server, local, remote), events);
    RunKeeps(server, local, remote, states, events[..n], n);
  }

  /** The events are handled up to the first that ends the connection. */
  method RunFrom(conn: Conn, start: State, events: seq<Event>) returns (s: State, n: nat, status: Status, ghost states: seq<State>)
    requires conn.Valid() && conn.State() == start.t && Whole(start) && forall i :: 0 <= i < |events| ==> Possible(events[i])
    modifies conn, conn.remoteBidi, conn.remoteUni
    ensures n <= |events| && Run(states, events[..n]) && states[0] == start && states[n] == s
    ensures if n == |events| then status == Ok else status == Answer(s.t, events[n]) != Ok
  {
    s, n, status, states := start, 0, Ok, [start];
    while n < |events|
      invariant n <= |events| && status == Ok && conn.Valid() && conn.State() == s.t && Listed(s.t.waiting, s.t.a.strms)
      invariant Run(states, events[..n]) && states[0] == start && states[n] == s
    {
      var s';
      status, s' := Step(conn, s, events[n]);
      if status != Ok {
        return;
      }
      states := RunMore(states, events, n, s, s');
      s, n := s', n + 1;
    }
  }

  /** One more event of a run. */
  lemma RunMore(states: seq<State>, events: seq<Event>, n: nat, s: State, s': State) returns (states': seq<State>)
    requires n < |events| && Run(states, events[..n]) && states[n] == s && Whole(states[0]) && LeadsTo(s, events[n], s')
    ensures Run(states', events[..n + 1]) && states'[0] == states[0] && states'[n + 1] == s' && Whole(s')
  {
    states' := states + [s'];
    var events' := events[..n + 1];
    forall i | 0 <= i < |events'| ensures LeadsTo(states'[i], events'[i], states'[i + 1]) {
      if i < n { assert events[..n][i] == events'[i]; }
    }
    RunStays(states', events', n + 1);
  }

  // ----- from one endpoint to the other -----

  /** Frames written on stream `id`: any of them, in any order, any number of times. */
  predicate Arriving(frames: seq<StreamFrame>, ws: seq<Piece>, id: nat) {
    forall i :: 0 <= i < |frames| ==> Piece(id, frames[i]) in ws
  }

  lemma ArrivingPieces(a: Accounts, frames: seq<StreamFrame>, ws: seq<Piece>, id: nat)
    requires AllFaithful(a, ws) && Arriving(frames, ws, id) && id in a.sent
    ensures PiecesOf(frames, a.sent[id]) && (HasFin(frames) ==> Finished(a, id))
  {
    forall i | 0 <= i < |frames| ensures Faithful(a, Piece(id, frames[i])) {
      var k :| 0 <= k < |ws| && ws[k] == Piece(id, frames[i]);
    }
    if HasFin(frames) {
      var i :| 0 <= i < |frames| && frames[i].fin;
      assert Faithful(a, Piece(id, frames[i]));
    }
  }

  ghost predicate Carried(frames: seq<StreamFrame>, x: nat) {
    exists i :: 0 <= i < |frames| && frames[i].offset <= x < frames[i].End()
  }

  /** The data of a dropped frame was in an earlier one. */
  lemma CarriedTaken(frames: seq<StreamFrame>, ws: seq<Piece>, id: nat, x: nat)
    requires FinLast(ws) && Arriving(frames, ws, id) && Carried(frames, x)
    ensures Taken(frames, x)
  {
    var i :| 0 <= i < |frames| && frames[i].offset <= x < frames[i].End();
    if RepeatedFin(frames, i) {
      var j := FirstFin(frames[..i]);
      assert frames[..i][..j] == frames[..j];
      OneFin(ws, id, frames[i], frames[j]);
      assert Carries(frames, j, x);
    } else {
      assert Carries(frames, i, x);
    }
  }

  lemma {:induction false} FirstFin(frames: seq<StreamFrame>) returns (j: nat)
    requires HasFin(frames)
    ensures j < |frames| && frames[j].fin && !HasFin(frames[..j])
  {
    var n := |frames| - 1;
    if HasFin(frames[..n]) {
      j := FirstFin(frames[..n]);
      assert frames[..n][..j] == frames[..j];
    } else {
      j := n;
      forall i | 0 <= i < n ensures !frames[i].fin { assert frames[..n][i] == frames[i]; }
    }
  }

  ghost predicate NoBlank(frames: seq<StreamFrame>) {
    forall i :: 0 <= i < |frames| ==> !Blank(frames[i])
  }

  /** With enough credit the frames are accepted up to the first that says nothing. */
  lemma AmpleAccepts(frames: seq<StreamFrame>, n: nat, stream: seq<byte>, maxStreamData: nat, maxData: nat)
    requires PiecesOf(frames, stream) && Ample(stream, maxStreamData, maxData)
    requires AllAccepted(frames, n, maxStreamData, maxData)
    requires n < |frames| ==> Reply(frames, n, maxStreamData, maxData) != Ok
    ensures n == |frames| <==> NoBlank(frames)
    ensures n < |frames| ==> Blank(frames[n])
  {
    forall i | 0 <= i < |frames|
      ensures Reply(frames, i, maxStreamData, maxData) == if Blank(frames[i]) then ErrFrameFormat else Ok
    {
      AmpleReply(frames, i, stream, maxStreamData, maxData);
    }
  }

  /**
   What the peer's application gets of a stream, whatever the network loses, repeats and
   reorders: a prefix of what was sent, with fin only when that is all of it.  If the peer
   gave enough credit, it accepts all frames exactly if none is blank; and then its
   application gets all of the stream, with fin, once every byte and the fin have arrived.
   */
  method Transfer(frames: seq<StreamFrame>, maxStreamData: nat, maxData: nat, ghost s: State, ghost id: nat)
    returns (log: seq<Delivery>, status: Status)
    requires Whole(s) && id in s.t.a.sent && Arriving(frames, s.written, id)
    ensures Concat(log) <= s.t.a.sent[id]
    ensures FinRaised(log) ==> Concat(log) == s.t.a.sent[id] && Finished(s.t.a, id)
    ensures Ample(s.t.a.sent[id], maxStreamData, maxData) ==> (status == Ok <==> NoBlank(frames))
    ensures && Ample(s.t.a.sent[id], maxStreamData, maxData) && NoBlank(frames)
            && HasFin(frames) && (forall x: nat :: x < |s.t.a.sent[id]| ==> Carried(frames, x)) ==>
              Concat(log) == s.t.a.sent[id] && FinRaised(log)
  {
    log, status := Deliver(frames, maxStreamData, maxData, s.t.a, s.written, id);
  }

  method Deliver(frames: seq<StreamFrame>, maxStreamData: nat, maxData: nat, ghost a: Accounts, ghost ws: seq<Piece>, ghost id: nat)
    returns (log: seq<Delivery>, status: Status)
    requires AllFaithful(a, ws) && FinLast(ws) && id in a.sent && Arriving(frames, ws, id)
    ensures Concat(log) <= a.sent[id]
    ensures FinRaised(log) ==> Concat(log) == a.sent[id] && Finished(a, id)
    ensures Ample(a.sent[id], maxStreamData, maxData) ==> (status == Ok <==> NoBlank(frames))
    ensures && Ample(a.sent[id], maxStreamData, maxData) && NoBlank(frames)
            && HasFin(frames) && (forall x: nat :: x < |a.sent[id]| ==> Carried(frames, x)) ==>
              Concat(log) == a.sent[id] && FinRaised(log)
  {
    ArrivingPieces(a, frames, ws, id);
    var rx, n;
    log, rx, n, status := ReceiveAll(frames, maxStreamData, maxData, a.sent[id]);
    if Ample(a.sent[id], maxStreamData, maxData) {
      AmpleAccepts(frames, n, a.sent[id], maxStreamData, maxData);
    }
    if n == |frames| && HasFin(frames) && forall x: nat :: x < |a.sent[id]| ==> Carried(frames, x) {
      assert frames[..n] == frames;
      if rx < |a.sent[id]| {
        CarriedTaken(frames, ws, id, rx);
      }
    }
  }
}
