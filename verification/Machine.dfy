/**
 Flow control and stream IDs of a connection as a machine: what every frame received, call
 of the application and announcement does to its state, and the invariant they all keep.
 */
module Machine {
  import opened Basics
  import Varint
  import opened Ranges
  import opened StreamReceive
  import opened FlowControl
  import opened Streams
  import opened Ledger
  import opened Steps

  /**
   The state of a connection.  `waiting` are the streams that wait for a MAX_STREAM_DATA frame
   to be sent, `window` and `dataWindow` the limits first given to the peer for a stream and for
   the connection, and `peerWindow` the one given by the peer for a stream.
   */
  datatype Endpoint = Endpoint(
    a: Accounts, b: IdBook, waiting: seq<nat>,
    maxLocalBidi: nat, maxLocalUni: nat,
    window: nat, dataWindow: nat, peerWindow: nat)

  /** The limits that an endpoint sets for its peer in the handshake. */
  datatype Settings = Settings(maxStreamData: uint32, maxData: uint32, maxIdBidi: uint32, maxIdUni: uint32)

  ghost predicate Sound(t: Endpoint) {
    Inv(t.a, t.b) && Listed(t.waiting, t.a.strms) && t.peerWindow <= MAX_VARINT
  }

  ghost predicate Listed(ids: seq<nat>, strms: map<nat, Strm>) {
    forall id :: id in ids ==> id in strms
  }

  /** From `t` to `t'` nothing was sent, and nothing given to the peer was taken back. */
  ghost predicate Advances(t: Endpoint, t': Endpoint) {
    Calm(t.a, t'.a) && IdsGrow(t.b, t'.b)
  }

  lemma AdvancesTrans(t: Endpoint, u: Endpoint, v: Endpoint)
    requires Advances(t, u) && Advances(u, v) && t.a.strms.Keys <= u.a.strms.Keys
    ensures Advances(t, v)
  {
    CalmTrans(t.a, u.a, v.a);
  }

  function Start(server: bool, local: Settings): Endpoint {
    var used: set<nat> := if server then {0} else {};
    Endpoint(Accounts(map[], 0, local.maxData, local.maxData, 0, 0, map[], map[], map[]),
             IdBook(server, IdSpace(local.maxIdBidi, local.maxIdBidi, local.maxIdBidi, used, used, {}),
                    IdSpace(local.maxIdUni, local.maxIdUni, local.maxIdUni, {}, {}, {}),
                    if server then 1 else 4, if server then 3 else 2),
             [], 0, 0, local.maxStreamData, local.maxData, 0)
  }

  lemma StartSound(server: bool, local: Settings)
    ensures Sound(Start(server, local))
  {
  }

  /** The peer's transport parameters replace the limits on sending. */
  function WithParams(t: Endpoint, remote: Settings): Endpoint {
    t.(a := t.a.(maxTx := remote.maxData), maxLocalBidi := remote.maxIdBidi, maxLocalUni := remote.maxIdUni,
       peerWindow := remote.maxStreamData)
  }

  /** The invariant survives exactly if the new connection limit covers what has been sent already. */
  lemma ParamsKeep(t: Endpoint, remote: Settings)
    requires Sound(t)
    ensures Sound(WithParams(t, remote)) <==> t.a.tx <= remote.maxData
  {
    if t.a.tx <= remote.maxData { LimitsKeep(t.a, t.b, t.a.maxRx, t.a.unsentMaxRx, remote.maxData); }
  }

  // ----- changes of one stream -----

  function Without(ids: seq<nat>, id: nat): (r: seq<nat>)
    ensures forall x :: x in r <==> x in ids && x != id
  {
    if ids == [] then [] else (if ids[0] == id then [] else [ids[0]]) + Without(ids[1..], id)
  }

  function Stored(t: Endpoint, id: nat, s: Strm, c: nat, sent: seq<byte>): Endpoint
    requires ChargedTo(t.a, id) <= c && SentOn(t.a, id) <= |sent|
  {
    t.(a := Put(t.a, id, s, c, sent))
  }

  lemma StoredKeeps(t: Endpoint, id: nat, s: Strm, c: nat, sent: seq<byte>)
    requires Sound(t) && Live(t.b, id) && Fits(t.a, id, s, c, sent)
    ensures var t' := Stored(t, id, s, c, sent);
            Sound(t') && Grows(t.a, t'.a) && IdsGrow(t.b, t'.b) && t.a.strms.Keys <= t'.a.strms.Keys && id in t'.a.strms
    ensures sent == SentBytes(t.a, id) ==> Advances(t, Stored(t, id, s, c, sent))
  {
    StoreKeeps(t.a, t.b, id, s, c, sent);
    StoreGrows(t.a, id, s, c, sent);
    PutKeys(t.a, id, s, c, sent);
  }

  /** A change of a stream that charges and sends nothing. */
  function Changed(t: Endpoint, id: nat, s: Strm): Endpoint {
    Stored(t, id, s, ChargedTo(t.a, id), SentBytes(t.a, id))
  }

  lemma ChangedKeeps(t: Endpoint, id: nat, s: Strm)
    requires Sound(t) && Touches(t.a, id, s)
    ensures var t' := Changed(t, id, s); Sound(t') && Advances(t, t') && t.a.strms.Keys == t'.a.strms.Keys && id in t'.a.strms
  {
    LiveAt(t, id);
    TouchFits(t.a, id, s);
    StoredKeeps(t, id, s, ChargedTo(t.a, id), SentBytes(t.a, id));
  }

  /** A change of a stream and of the list of those that wait. */
  function Relisted(t: Endpoint, id: nat, s: Strm, waiting: seq<nat>): Endpoint { Changed(t, id, s).(waiting := waiting) }

  lemma RelistedKeeps(t: Endpoint, id: nat, s: Strm, waiting: seq<nat>)
    requires Sound(t) && Touches(t.a, id, s) && forall x :: x in waiting ==> x in t.waiting || x == id
    ensures var t' := Relisted(t, id, s, waiting); Sound(t') && Advances(t, t') && t.a.strms.Keys == t'.a.strms.Keys
  {
    ChangedKeeps(t, id, s);
    ListedOnly(t.waiting, waiting, Changed(t, id, s).a.strms, id);
  }

  lemma ListedOnly(ids: seq<nat>, ids': seq<nat>, strms: map<nat, Strm>, id: nat)
    requires Listed(ids, strms) && id in strms && forall x :: x in ids' ==> x in ids || x == id
    ensures Listed(ids', strms)
  {
  }

  /** The stream is closed if it has nothing left to do. */
  function Settled(t: Endpoint, id: nat): Endpoint
    requires id in t.a.strms
  {
    if ShouldClose(t.a.strms[id]) then
      t.(a := CloseStrm(t.a, id), b := CloseId(t.b, id, ExtendsIds(t.b, id)), waiting := Without(t.waiting, id))
    else t
  }

  lemma SettledKeeps(t: Endpoint, id: nat)
    requires Sound(t) && id in t.a.strms
    ensures Sound(Settled(t, id)) && Advances(t, Settled(t, id))
  {
    SettleKeeps(t.a, t.b, id);
  }

  lemma SettledAfter(t: Endpoint, u: Endpoint, id: nat)
    requires Sound(u) && Advances(t, u) && t.a.strms.Keys <= u.a.strms.Keys && id in u.a.strms
    ensures Sound(Settled(u, id)) && Advances(t, Settled(u, id))
  {
    SettledKeeps(u, id);
    AdvancesTrans(t, u, Settled(u, id));
  }

  /** A stream is changed in a way that sends nothing, and if `check`, closed if that was all it waited for. */
  function Absorbed(t: Endpoint, id: nat, s: Strm, c: nat, waiting: seq<nat>, check: bool): Endpoint
    requires ChargedTo(t.a, id) <= c
  {
    var u := Stored(t, id, s, c, SentBytes(t.a, id)).(waiting := waiting);
    if check then Settled(u, id) else u
  }

  lemma AbsorbedKeeps(t: Endpoint, id: nat, s: Strm, c: nat, waiting: seq<nat>, check: bool) returns (t': Endpoint)
    requires Sound(t) && id in t.a.strms && Fits(t.a, id, s, c, SentBytes(t.a, id))
    requires forall x :: x in waiting ==> x in t.waiting
    ensures t' == Absorbed(t, id, s, c, waiting, check) && Sound(t') && Advances(t, t')
  {
    LiveAt(t, id);
    StoredKeeps(t, id, s, c, SentBytes(t.a, id));
    t' := Stored(t, id, s, c, SentBytes(t.a, id)).(waiting := waiting);
    if check {
      SettledAfter(t, t', id);
      t' := Settled(t', id);
    }
  }

  lemma LiveAt(t: Endpoint, id: nat)
    requires Sound(t) && id in t.a.strms
    ensures Live(t.b, id) && ValidStrm(t.a.strms[id])
  {
    OpenAt(t.a.strms, t.a.charged, t.a.sent, id, t.a.strms[id]);
  }

  // ----- looking a stream up -----

  /** Whether a frame may name stream `id` at all. */
  function Admission(b: IdBook, id: nat): (r: Status) {
    if LocalStream(b.server, id) then
      if Next(b, id) <= id then ErrStreamState else Ok
    else if Space(b, id).max < id then ErrStreamId
    else Ok
  }

  /** The peer opens stream `id` by naming it. */
  predicate Opens(t: Endpoint, id: nat) { id !in t.a.strms && !LocalStream(t.b.server, id) && !Known(t.b, id) }

  /** A stream opened by the peer. */
  function PeerStrm(id: nat, maxRx: nat, maxTx: nat): Strm { NewStrm(maxRx, maxTx).(shutWr := !BidiStream(id)) }

  function Added(t: Endpoint, id: nat, s: Strm): Endpoint { t.(a := Add(t.a, id, s)) }

  function Claimed(t: Endpoint, id: nat, create: bool): Endpoint { t.(b := Claim(t.b, id, create)) }

  /** The stream a frame is for has been looked up, and created if the frame opens it. */
  function Found(t: Endpoint, id: nat): Endpoint {
    if Opens(t, id) then Added(Claimed(t, id, true), id, PeerStrm(id, t.window, t.peerWindow)) else t
  }

  lemma ClaimedKeeps(t: Endpoint, id: nat, create: bool)
    requires Sound(t) && Admission(t.b, id) == Ok && Opens(t, id)
    ensures Sound(Claimed(t, id, create)) && Advances(t, Claimed(t, id, create)) && Known(Claimed(t, id, create).b, id)
    ensures create ==> Live(Claimed(t, id, create).b, id)
    ensures id !in t.a.charged && id !in t.a.sent
  {
    ClaimKeeps(t.b, id, create, t.a.strms.Keys, t.a.charged.Keys + t.a.sent.Keys);
    Same(t.a);
  }

  lemma AddedKeeps(t: Endpoint, id: nat, s: Strm)
    requires Sound(t) && Live(t.b, id) && id != 0 && id !in t.a.strms && id !in t.a.charged && id !in t.a.sent
    requires s == NewStrm(t.window, t.peerWindow).(shutRd := s.shutRd, shutWr := s.shutWr)
    ensures var t' := Added(t, id, s); Sound(t') && Advances(t, t') && t.a.strms.Keys <= t'.a.strms.Keys && id in t'.a.strms
  {
    NewFits(t.a, id, s, t.window, t.peerWindow);
    AddIsPut(t.a, id, s);
    StoredKeeps(t, id, s, 0, []);
  }

  lemma FoundKeeps(t: Endpoint, id: nat)
    requires Sound(t) && 0 < id && Admission(t.b, id) == Ok
    ensures var t' := Found(t, id); Sound(t') && Advances(t, t') && t.a.strms.Keys <= t'.a.strms.Keys
    ensures Opens(t, id) ==> id !in t.a.closed && id !in t.a.sent && id !in t.a.charged
  {
    if Opens(t, id) {
      var u := Claimed(t, id, true);
      ClaimedKeeps(t, id, true);
      AddedKeeps(u, id, PeerStrm(id, t.window, t.peerWindow));
      AdvancesTrans(t, u, Found(t, id));
    } else {
      Same(t.a);
    }
  }

  // ----- STREAM -----

  /** The checks on a STREAM frame that do not look at the stream. */
  function PreCheck(b: IdBook, id: nat, fr: StreamFrame): Status {
    if Blank(fr) then ErrFrameFormat
    else if Admission(b, id) != Ok then Admission(b, id)
    else if LocalStream(b.server, id) && !BidiStream(id) && fr.End() != 0 then ErrFinalOffset
    else if fr.End() > MAX_VARINT then ErrProto
    else Ok
  }

  /** Credit left for the peer. */
  function Credit(a: Accounts): nat { if a.rx <= a.maxRx then a.maxRx - a.rx else 0 }

  /** What the stream a frame is for, and the credit left, make of the frame. */
  function Verdict(t: Endpoint, id: nat, fr: StreamFrame): RxDecision
    requires id in t.a.strms
  {
    Decide(t.a.strms[id].View(), fr, Credit(t.a))
  }

  function StatusOf(d: RxDecision): Status { if d.Reject? then d.status else Ok }

  /** The answer to a STREAM frame; one for a stream that is gone is ignored. */
  function StreamStatus(t: Endpoint, id: nat, fr: StreamFrame): Status {
    if PreCheck(t.b, id, fr) != Ok then PreCheck(t.b, id, fr)
    else if id !in Found(t, id).a.strms then Ok
    else StatusOf(Verdict(Found(t, id), id, fr))
  }

  /** A stream does not wait for credit any more once its end is known. */
  function StillWaiting(ids: seq<nat>, id: nat, fr: StreamFrame, d: RxDecision): (r: seq<nat>)
    requires d.Accept?
    ensures forall x :: x in r ==> x in ids
  {
    if fr.fin && !d.action.CloseOnly? && !d.action.Discard? then Without(ids, id) else ids
  }

  /** A STREAM frame is taken in. */
  function Took(t: Endpoint, id: nat, fr: StreamFrame, d: RxDecision): Endpoint
    requires id in t.a.strms && d.Accept?
  {
    Absorbed(t, id, Received(t.a.strms[id], fr, d), ChargedTo(t.a, id) + d.charge,
             StillWaiting(t.waiting, id, fr, d), !d.action.Discard?)
  }

  /** A frame whose offsets contradict the final one is refused after the connection was charged for it. */
  function Refused(t: Endpoint, id: nat, fr: StreamFrame, d: RxDecision): Endpoint
    requires id in t.a.strms
  {
    if d == Reject(ErrFinalOffset)
    then t.(a := t.a.(rx := t.a.rx + Max(fr.End(), t.a.strms[id].lastRx) - t.a.strms[id].lastRx)) else t
  }

  function Weighed(t: Endpoint, id: nat, fr: StreamFrame): Endpoint
    requires id in t.a.strms
  {
    var d := Verdict(t, id, fr);
    if d.Accept? then Took(t, id, fr, d) else Refused(t, id, fr, d)
  }

  /** The state after a STREAM frame, accepted or refused. */
  function AfterStream(t: Endpoint, id: nat, fr: StreamFrame): Endpoint {
    if PreCheck(t.b, id, fr) != Ok then t
    else if id !in Found(t, id).a.strms then t
    else Weighed(Found(t, id), id, fr)
  }

  lemma CreditLeft(t: Endpoint)
    requires Sound(t)
    ensures Credit(t.a) == t.a.maxRx - t.a.rx && Balanced(t.a)
  {
  }

  lemma TookKeeps(t: Endpoint, id: nat, fr: StreamFrame, d: RxDecision) returns (t': Endpoint)
    requires Sound(t) && id in t.a.strms && d == Verdict(t, id, fr) && d.Accept?
    ensures t' == Took(t, id, fr, d) && Sound(t') && Advances(t, t')
  {
    VerdictFits(t, id, fr, d);
    var s, c := Received(t.a.strms[id], fr, d), ChargedTo(t.a, id) + d.charge;
    TookIs(t, id, fr, d, s, c);
    t' := AbsorbedKeeps(t, id, s, c, StillWaiting(t.waiting, id, fr, d), !d.action.Discard?);
  }

  lemma TookIs(t: Endpoint, id: nat, fr: StreamFrame, d: RxDecision, s: Strm, c: nat)
    requires id in t.a.strms && d.Accept? && s == Received(t.a.strms[id], fr, d) && c == ChargedTo(t.a, id) + d.charge
    ensures Took(t, id, fr, d) == Absorbed(t, id, s, c, StillWaiting(t.waiting, id, fr, d), !d.action.Discard?)
  {
  }

  lemma VerdictFits(t: Endpoint, id: nat, fr: StreamFrame, d: RxDecision)
    requires Sound(t) && id in t.a.strms && d == Verdict(t, id, fr) && d.Accept?
    ensures Fits(t.a, id, Received(t.a.strms[id], fr, d), ChargedTo(t.a, id) + d.charge, SentBytes(t.a, id))
  {
    CreditLeft(t);
    FrameFits(t.a, id, fr, d);
  }

  lemma StreamKeeps(t: Endpoint, id: nat, fr: StreamFrame)
    requires Sound(t) && 0 < id && StreamStatus(t, id, fr) == Ok
    ensures Sound(AfterStream(t, id, fr)) && Advances(t, AfterStream(t, id, fr))
  {
    var u := Found(t, id);
    FoundKeeps(t, id);
    if id in u.a.strms {
      var d := Verdict(u, id, fr);
      DecideStatus(u.a.strms[id].View(), fr, Credit(u.a));
      var t' := TookKeeps(u, id, fr, d);
      AdvancesTrans(t, u, t');
    } else {
      Same(t.a);
    }
  }

  // ----- RST_STREAM -----

  function ResetOf(s: Strm): Strm { s.(shutRd := true, recvRst := true) }

  function StrmResetStatus(a: Accounts, s: Strm, final: nat): Status {
    if (if s.shutRd then s.lastRx != final else s.lastRx > final) then ErrFinalOffset
    else if s.maxRx < final || Credit(a) < final - s.lastRx then ErrFlowControl
    else Ok
  }

  function ResetStatus(t: Endpoint, id: nat, final: nat): Status {
    if id == 0 then ErrProto
    else if Admission(t.b, id) != Ok then Admission(t.b, id)
    else if id in t.a.strms then StrmResetStatus(t.a, t.a.strms[id], final)
    else if LocalStream(t.b.server, id) then if !BidiStream(id) && final != 0 then ErrFinalOffset else Ok
    else if Opens(t, id) && (t.window < final || Credit(t.a) < final) then ErrFlowControl
    else Ok
  }

  /** A stream that exists is reset. */
  function ResetStrm(t: Endpoint, id: nat, final: nat): Endpoint
    requires id in t.a.strms && t.a.strms[id].lastRx <= final
  {
    Absorbed(t, id, ResetOf(t.a.strms[id]), ChargedTo(t.a, id) + (final - t.a.strms[id].lastRx), t.waiting, true)
  }

  /** A reset charges the connection up to the final offset, whether or not the stream was ever created. */
  function AfterReset(t: Endpoint, id: nat, final: nat): Endpoint {
    if ResetStatus(t, id, final) != Ok then t
    else if id in t.a.strms then ResetStrm(t, id, final)
    else if Opens(t, id) then Claimed(t, id, false).(a := ChargeOnly(t.a, id, final))
    else t
  }

  lemma ResetKeeps(t: Endpoint, id: nat, final: nat)
    requires Sound(t)
    ensures Sound(AfterReset(t, id, final)) && Advances(t, AfterReset(t, id, final))
  {
    CreditLeft(t);
    Same(t.a);
    if ResetStatus(t, id, final) == Ok {
      if id in t.a.strms {
        var t' := ResetStrmKeeps(t, id, final);
      } else if Opens(t, id) {
        ClaimedKeeps(t, id, false);
        ChargeOnlyKeeps(t.a, Claimed(t, id, false).b, id, final);
      }
    }
  }

  lemma ResetStrmKeeps(t: Endpoint, id: nat, final: nat) returns (t': Endpoint)
    requires Sound(t) && id in t.a.strms && StrmResetStatus(t.a, t.a.strms[id], final) == Ok
    ensures t' == ResetStrm(t, id, final) && Sound(t') && Advances(t, t')
  {
    ResetStatusFits(t, id, final);
    var s, c := ResetOf(t.a.strms[id]), ChargedTo(t.a, id) + (final - t.a.strms[id].lastRx);
    ResetStrmIs(t, id, final, s, c);
    t' := AbsorbedKeeps(t, id, s, c, t.waiting, true);
  }

  lemma ResetStrmIs(t: Endpoint, id: nat, final: nat, s: Strm, c: nat)
    requires id in t.a.strms && t.a.strms[id].lastRx <= final
    requires s == ResetOf(t.a.strms[id]) && c == ChargedTo(t.a, id) + (final - t.a.strms[id].lastRx)
    ensures ResetStrm(t, id, final) == Absorbed(t, id, s, c, t.waiting, true)
  {
  }

  lemma ResetStatusFits(t: Endpoint, id: nat, final: nat)
    requires Sound(t) && id in t.a.strms && StrmResetStatus(t.a, t.a.strms[id], final) == Ok
    ensures Fits(t.a, id, ResetOf(t.a.strms[id]), ChargedTo(t.a, id) + (final - t.a.strms[id].lastRx), SentBytes(t.a, id))
  {
    CreditLeft(t);
    ResetFits(t.a, id, final);
  }

  /**
   The same RST_STREAM again, for a stream that the first one did not close, is accepted exactly
   if the first one charged nothing: lastRx is not moved to the final offset of a reset.
   */
  lemma RepeatedReset(t: Endpoint, id: nat, final: nat)
    requires id in t.a.strms && ResetStatus(t, id, final) == Ok && !ShouldClose(ResetOf(t.a.strms[id]))
    ensures ResetStatus(AfterReset(t, id, final), id, final) == if final == t.a.strms[id].lastRx then Ok else ErrFinalOffset
  {
    var t' := AfterReset(t, id, final);
    assert t'.a.strms[id] == ResetOf(t.a.strms[id]);
  }

  // ----- STOP_SENDING -----

  /** The sending side is reset. */
  function StopOf(s: Strm): Strm { s.(shutWr := true, sentRst := true) }

  function StopStatus(t: Endpoint, id: nat): Status { if id == 0 then ErrProto else Admission(t.b, id) }

  /** The sending side of the stream is reset; an unopened stream is only claimed. */
  function AfterStop(t: Endpoint, id: nat): Endpoint {
    if StopStatus(t, id) != Ok then t
    else if id in t.a.strms then Settled(Changed(t, id, StopOf(t.a.strms[id])), id)
    else if Opens(t, id) then Claimed(t, id, false)
    else t
  }

  lemma StopTouches(t: Endpoint, id: nat)
    requires Sound(t) && id in t.a.strms
    ensures Touches(t.a, id, StopOf(t.a.strms[id])) && Touches(t.a, id, t.a.strms[id].(stopSending := true))
  {
    LiveAt(t, id);
    StopValid(t.a.strms[id]);
  }

  lemma StopValid(s: Strm)
    requires ValidStrm(s)
    ensures ValidStrm(StopOf(s)) && ValidStrm(s.(stopSending := true))
  {
  }

  lemma StopKeeps(t: Endpoint, id: nat)
    requires Sound(t)
    ensures Sound(AfterStop(t, id)) && Advances(t, AfterStop(t, id))
  {
    Same(t.a);
    if StopStatus(t, id) == Ok {
      if id in t.a.strms {
        StopTouches(t, id);
        ChangedKeeps(t, id, StopOf(t.a.strms[id]));
        SettledAfter(t, Changed(t, id, StopOf(t.a.strms[id])), id);
      } else if Opens(t, id) {
        ClaimedKeeps(t, id, false);
      }
    }
  }

  // ----- MAX_STREAM_DATA, MAX_DATA, MAX_STREAM_ID -----

  function RaisedTx(t: Endpoint, id: nat, limit: nat): Endpoint
    requires id in t.a.strms
  {
    Changed(t, id, t.a.strms[id].(maxTx := Max(t.a.strms[id].maxTx, limit)))
  }

  function AfterMaxStreamData(t: Endpoint, id: nat, limit: nat): Endpoint {
    if Admission(t.b, id) != Ok then t
    else if id !in Found(t, id).a.strms then t
    else RaisedTx(Found(t, id), id, limit)
  }

  lemma RaisedTxKeeps(t: Endpoint, id: nat, limit: nat)
    requires Sound(t) && id in t.a.strms && limit <= MAX_VARINT
    ensures Sound(RaisedTx(t, id, limit)) && Advances(t, RaisedTx(t, id, limit))
  {
    LiveAt(t, id);
    RaisedTxValid(t.a.strms[id], limit);
    ChangedKeeps(t, id, t.a.strms[id].(maxTx := Max(t.a.strms[id].maxTx, limit)));
  }

  lemma RaisedTxValid(s: Strm, limit: nat)
    requires ValidStrm(s) && limit <= MAX_VARINT
    ensures ValidStrm(s.(maxTx := Max(s.maxTx, limit)))
  {
  }

  lemma MaxStreamDataKeeps(t: Endpoint, id: nat, limit: nat)
    requires Sound(t) && 0 < id && limit <= MAX_VARINT
    ensures Sound(AfterMaxStreamData(t, id, limit)) && Advances(t, AfterMaxStreamData(t, id, limit))
  {
    Same(t.a);
    if Admission(t.b, id) == Ok {
      var u := Found(t, id);
      FoundKeeps(t, id);
      if id in u.a.strms {
        RaisedTxKeeps(u, id, limit);
        AdvancesTrans(t, u, RaisedTx(u, id, limit));
      }
    }
  }

  function AfterMaxData(t: Endpoint, limit: nat): Endpoint { t.(a := t.a.(maxTx := Max(t.a.maxTx, limit))) }

  function AfterMaxStreamId(t: Endpoint, limit: nat): Endpoint {
    if BidiStream(limit) then t.(maxLocalBidi := Max(t.maxLocalBidi, limit)) else t.(maxLocalUni := Max(t.maxLocalUni, limit))
  }

  lemma MaxDataKeeps(t: Endpoint, limit: nat)
    requires Sound(t)
    ensures Sound(AfterMaxData(t, limit)) && Advances(t, AfterMaxData(t, limit))
  {
    CreditLeft(t);
    LimitsKeep(t.a, t.b, t.a.maxRx, t.a.unsentMaxRx, Max(t.a.maxTx, limit));
  }

  lemma MaxStreamIdKeeps(t: Endpoint, limit: nat)
    requires Sound(t)
    ensures Sound(AfterMaxStreamId(t, limit)) && Advances(t, AfterMaxStreamId(t, limit))
  {
    Same(t.a);
  }

  // ----- acknowledgements -----

  /** A STREAM frame was acknowledged; the stream is checked for being complete only when the application is told of something. */
  function AfterAck(t: Endpoint, id: nat, fr: StreamFrame): Endpoint {
    if id !in t.a.strms then t else
    var s := AckedRange(t.a.strms[id], fr.offset, |fr.data|, fr.fin);
    if s.ackCalls == t.a.strms[id].ackCalls then Changed(t, id, s) else Settled(Changed(t, id, s), id)
  }

  lemma AckForm(t: Endpoint, id: nat, fr: StreamFrame, s: Strm)
    requires id in t.a.strms && s == AckedRange(t.a.strms[id], fr.offset, |fr.data|, fr.fin)
    ensures AfterAck(t, id, fr) == if s.ackCalls == t.a.strms[id].ackCalls then Changed(t, id, s) else Settled(Changed(t, id, s), id)
    ensures s.ackGaps == Subtract(t.a.strms[id].ackGaps, Range(fr.offset, fr.End())) && s.rxGaps == t.a.strms[id].rxGaps
  {
    AckedGaps(t.a.strms[id], fr.offset, |fr.data|, fr.fin);
  }

  lemma AckedGaps(s: Strm, offset: nat, len: nat, fin: bool)
    ensures var s' := AckedRange(s, offset, len, fin);
            s'.ackGaps == Subtract(s.ackGaps, Range(offset, offset + len)) && s'.rxGaps == s.rxGaps
  {
  }

  lemma AckKeeps(t: Endpoint, id: nat, fr: StreamFrame)
    requires Sound(t) && (id in t.a.strms ==> fr.End() <= t.a.strms[id].tx)
    ensures Sound(AfterAck(t, id, fr)) && Advances(t, AfterAck(t, id, fr))
  {
    if id in t.a.strms {
      var s := AckedRange(t.a.strms[id], fr.offset, |fr.data|, fr.fin);
      AckTouches(t, id, fr);
      ChangedKeeps(t, id, s);
      SettledAfter(t, Changed(t, id, s), id);
    } else {
      Same(t.a);
    }
  }

  lemma AckTouches(t: Endpoint, id: nat, fr: StreamFrame)
    requires Sound(t) && id in t.a.strms && fr.End() <= t.a.strms[id].tx
    ensures Touches(t.a, id, AckedRange(t.a.strms[id], fr.offset, |fr.data|, fr.fin))
  {
    LiveAt(t, id);
    AckedValid(t.a.strms[id], fr.offset, |fr.data|, fr.fin);
    AckedSame(t.a.strms[id], fr.offset, |fr.data|, fr.fin);
  }

  lemma AckedSame(s: Strm, offset: nat, len: nat, fin: bool)
    ensures var s' := AckedRange(s, offset, len, fin);
            && s'.lastRx == s.lastRx && s'.tx == s.tx && s'.maxRx == s.maxRx && s'.recvRst == s.recvRst && s'.shutWr == s.shutWr
  {
  }

  // ----- opening and sending -----

  function OpenStatus(t: Endpoint, bidi: bool): Status {
    if (if bidi then t.maxLocalBidi else t.maxLocalUni) < NextOf(t.b, bidi) then ErrStreamIdBlocked else Ok
  }

  /** The next local stream of a kind is opened. */
  function AfterOpen(t: Endpoint, bidi: bool): Endpoint {
    if OpenStatus(t, bidi) != Ok then t
    else Added(t.(b := TakeNext(t.b, bidi)), NextOf(t.b, bidi), NewStrm(t.window, t.peerWindow).(shutRd := !bidi))
  }

  lemma OpenKeeps(t: Endpoint, bidi: bool)
    requires Sound(t)
    ensures Sound(AfterOpen(t, bidi)) && Advances(t, AfterOpen(t, bidi))
    ensures !Known(t.b, NextOf(t.b, bidi)) && NextOf(t.b, bidi) !in t.a.strms
  {
    var id, u := NextOf(t.b, bidi), t.(b := TakeNext(t.b, bidi));
    TakeNextKeeps(t.b, bidi, t.a.strms.Keys, t.a.charged.Keys + t.a.sent.Keys);
    NextUnused(t.b, id, bidi);
    NextIsLocal(t.b.server, id, bidi);
    Same(t.a);
    if OpenStatus(t, bidi) == Ok {
      AddedKeeps(u, id, NewStrm(t.window, t.peerWindow).(shutRd := !bidi));
      AdvancesTrans(t, u, AfterOpen(t, bidi));
    }
  }

  const STREAM_OVERHEAD: nat := 15
  const STOPPING: nat := 0

  /** The bytes that fit into the packet, the stream's credit and the connection's credit. */
  function Writable(t: Endpoint, id: nat, len: nat, left: nat): (n: nat)
    requires id in t.a.strms && STREAM_OVERHEAD < left
    ensures n <= len
  {
    Min(Min(Min(len, left - STREAM_OVERHEAD), Room(t.a.strms[id].maxTx, t.a.strms[id].tx)), Room(t.a.maxTx, t.a.tx))
  }

  /** The credit left, in 64-bit arithmetic: a limit that was overrun leaves a lot. */
  function Room(limit: nat, used: nat): (n: nat)
    ensures used <= limit ==> n <= limit - used
  {
    (limit - used) % SPAN
  }

  function WriteStatus(t: Endpoint, id: nat, data: seq<byte>, left: nat): Status {
    if id !in t.a.strms then ErrStreamNotFound
    else if t.a.strms[id].shutWr then ErrStreamShutWr
    else if left <= STREAM_OVERHEAD then ErrNoBuf
    else if data != [] && Writable(t, id, |data|, left) == 0 then ErrStreamDataBlocked
    else if left < FrameLen(id, t.a.strms[id].tx, Writable(t, id, |data|, left)) then ErrNoBuf
    else Ok
  }

  /** The length of a STREAM frame with `n` bytes of data. */
  function FrameLen(id: nat, offset: nat, n: nat): nat {
    1 + Varint.PutLen(id) + (if offset == 0 then 0 else Varint.PutLen(offset)) + Varint.PutLen(n) + n
  }

  /** The frame that is written: as much of the data as fits, and fin only with the last byte. */
  function WrittenFrame(t: Endpoint, id: nat, data: seq<byte>, fin: bool, left: nat): StreamFrame
    requires WriteStatus(t, id, data, left) == Ok
  {
    var n := Writable(t, id, |data|, left);
    StreamFrame(t.a.strms[id].tx, data[..n], fin && n == |data|)
  }

  function AfterWrite(t: Endpoint, id: nat, data: seq<byte>, fin: bool, left: nat): Endpoint {
    if WriteStatus(t, id, data, left) != Ok then t else
    var fr := WrittenFrame(t, id, data, fin, left);
    Stored(t, id, Sent(t.a.strms[id], |fr.data|, fr.fin), ChargedTo(t.a, id), SentBytes(t.a, id) + fr.data)
  }

  lemma WriteForm(t: Endpoint, id: nat, data: seq<byte>, fin: bool, left: nat, fr: StreamFrame)
    requires WriteStatus(t, id, data, left) == Ok && fr == WrittenFrame(t, id, data, fin, left)
    ensures id in t.a.strms && !t.a.strms[id].shutWr && fr.offset == t.a.strms[id].tx
    ensures AfterWrite(t, id, data, fin, left) ==
            Stored(t, id, Sent(t.a.strms[id], |fr.data|, fr.fin), ChargedTo(t.a, id), SentBytes(t.a, id) + fr.data)
  {
  }

  lemma WriteKeeps(t: Endpoint, id: nat, data: seq<byte>, fin: bool, left: nat) returns (t': Endpoint)
    requires Sound(t) && WriteStatus(t, id, data, left) == Ok
    ensures t' == AfterWrite(t, id, data, fin, left) && Sound(t') && Grows(t.a, t'.a) && IdsGrow(t.b, t'.b)
  {
    var fr := WrittenFrame(t, id, data, fin, left);
    WriteForm(t, id, data, fin, left, fr);
    WrittenFits(t, id, data, fin, left, fr);
    LiveAt(t, id);
    StoredKeeps(t, id, Sent(t.a.strms[id], |fr.data|, fr.fin), ChargedTo(t.a, id), SentBytes(t.a, id) + fr.data);
    t' := Stored(t, id, Sent(t.a.strms[id], |fr.data|, fr.fin), ChargedTo(t.a, id), SentBytes(t.a, id) + fr.data);
  }

  lemma WrittenFits(t: Endpoint, id: nat, data: seq<byte>, fin: bool, left: nat, fr: StreamFrame)
    requires Sound(t) && WriteStatus(t, id, data, left) == Ok && fr == WrittenFrame(t, id, data, fin, left)
    ensures Fits(t.a, id, Sent(t.a.strms[id], |fr.data|, fr.fin), ChargedTo(t.a, id), SentBytes(t.a, id) + fr.data)
  {
    LiveAt(t, id);
    CreditLeft(t);
    WriteFits(t.a, id, fr.data, fr.fin);
  }

  /** What is written stays within both limits exactly if they were not overrun before, as after a limit was lowered. */
  lemma WrittenWithin(t: Endpoint, id: nat, data: seq<byte>, fin: bool, left: nat)
    requires WriteStatus(t, id, data, left) == Ok
    ensures var n := |WrittenFrame(t, id, data, fin, left).data|;
            t.a.strms[id].tx + n <= t.a.strms[id].maxTx && t.a.tx + n <= t.a.maxTx <==>
            t.a.strms[id].tx <= t.a.strms[id].maxTx && t.a.tx <= t.a.maxTx
  {
  }

  /**
   The frame fits into the packet; and as long as no limit was overrun, as much is written as the data, the
   packet less 15 bytes and the two limits allow, and fin goes with the last byte.
   */
  lemma WrittenMost(t: Endpoint, id: nat, data: seq<byte>, fin: bool, left: nat)
    requires WriteStatus(t, id, data, left) == Ok
    ensures var s, fr, n := t.a.strms[id], WrittenFrame(t, id, data, fin, left), |WrittenFrame(t, id, data, fin, left).data|;
            && fr.offset == s.tx && fr.data <= data && (fr.fin <==> fin && fr.data == data)
            && n + 15 <= left && FrameLen(id, s.tx, n) <= left
            && (s.tx <= s.maxTx < SPAN && t.a.tx <= t.a.maxTx < SPAN ==>
                  n == |data| || n + 15 == left || s.tx + n == s.maxTx || t.a.tx + n == t.a.maxTx)
  {
    var n := Writable(t, id, |data|, left);
    assert n == |data| ==> data[..n] == data;
  }

  /** Data is blocked exactly by a limit that is used up. */
  lemma BlockedIff(t: Endpoint, id: nat, data: seq<byte>, left: nat)
    requires id in t.a.strms && t.a.strms[id].tx <= t.a.strms[id].maxTx < SPAN && t.a.tx <= t.a.maxTx < SPAN
    requires !t.a.strms[id].shutWr && 15 < left
    ensures WriteStatus(t, id, data, left) == ErrStreamDataBlocked <==>
            data != [] && (t.a.strms[id].tx == t.a.strms[id].maxTx || t.a.tx == t.a.maxTx)
  {
  }

  /**
   A frame takes at most 25 bytes besides its data.  They are no more than the 15 that are set aside if the stream
   ID is below 2^30 and the length below 2^14, or all three numbers are below 2^30.  If ID and offset are not below
   2^30 they are more, and then a packet is refused although it has room for data.
   */
  lemma OverheadBound(id: nat, offset: nat, n: nat)
    ensures FrameLen(id, offset, n) <= n + 25
    ensures id < 0x4000_0000 && n < 0x4000 ==> FrameLen(id, offset, n) <= n + 15
    ensures id < 0x4000_0000 && offset < 0x4000_0000 && n < 0x4000_0000 ==> FrameLen(id, offset, n) <= n + 13
    ensures 0x4000_0000 <= id && 0x4000_0000 <= offset ==> n + 15 < FrameLen(id, offset, n)
  {
  }

  /** So no packet with room for data is refused, unless a number is large. */
  lemma RefusedOnlyLarge(t: Endpoint, id: nat, data: seq<byte>, left: nat)
    requires id in t.a.strms && !t.a.strms[id].shutWr && 15 < left && id < 0x4000_0000 && (left < 0x4000 || t.a.strms[id].tx < 0x4000_0000)
    requires left < 0x4000_0000
    ensures WriteStatus(t, id, data, left) != ErrNoBuf
  {
    OverheadBound(id, t.a.strms[id].tx, Writable(t, id, |data|, left));
  }

  /** Once the connection's limit was lowered below what was sent, data is sent all the same, if the packet has room. */
  lemma OverrunWrites(t: Endpoint, id: nat, data: seq<byte>, left: nat)
    requires id in t.a.strms && !t.a.strms[id].shutWr && STREAM_OVERHEAD < left && data != []
    requires t.a.strms[id].tx < t.a.strms[id].maxTx < SPAN && t.a.maxTx < t.a.tx < SPAN
    ensures WriteStatus(t, id, data, left) == Ok || WriteStatus(t, id, data, left) == ErrNoBuf
    ensures left < 0x4000 && id < 0x4000_0000 ==> WriteStatus(t, id, data, left) == Ok
    ensures WriteStatus(t, id, data, left) == Ok ==> t.a.maxTx < t.a.tx < AfterWrite(t, id, data, false, left).a.tx
  {
    Wrapped(t.a.maxTx, t.a.tx);
    Wrapped(t.a.strms[id].maxTx, t.a.strms[id].tx);
    if left < 0x4000 && id < 0x4000_0000 { RefusedOnlyLarge(t, id, data, left); }
  }

  lemma Wrapped(limit: nat, used: nat)
    requires limit < SPAN && used < SPAN && limit != used
    ensures 0 < Room(limit, used)
  {
  }

  /** A frame that is written is blank exactly if the application wrote nothing; then every receiver refuses it. */
  lemma WrittenBlank(t: Endpoint, id: nat, data: seq<byte>, fin: bool, left: nat)
    requires WriteStatus(t, id, data, left) == Ok
    ensures Blank(WrittenFrame(t, id, data, fin, left)) <==> data == [] && !fin
    ensures forall v: RxView, credit: nat ::
              Decide(v, WrittenFrame(t, id, [], false, left), credit) == Reject(ErrFrameFormat)
  {
    var n := Writable(t, id, |data|, left);
    assert data != [] ==> data[..n] != [];
  }

  // ----- shutting down -----

  function ShutdownStatus(t: Endpoint, id: nat, appErrorCode: nat): Status {
    if id == 0 || appErrorCode == STOPPING then ErrInvalidArgument
    else if id !in t.a.strms then ErrStreamNotFound
    else Ok
  }

  /** The sending side is reset. */
  function AfterStopWriting(t: Endpoint, id: nat, appErrorCode: nat): Endpoint {
    if ShutdownStatus(t, id, appErrorCode) != Ok || t.a.strms[id].sentRst then t
    else Changed(t, id, StopOf(t.a.strms[id]))
  }

  /** The peer is asked to stop sending. */
  function AfterStopReading(t: Endpoint, id: nat, appErrorCode: nat): Endpoint {
    if ShutdownStatus(t, id, appErrorCode) != Ok || t.a.strms[id].stopSending then t
    else Relisted(t, id, t.a.strms[id].(stopSending := true), Without(t.waiting, id))
  }

  lemma ShutdownKeeps(t: Endpoint, id: nat, appErrorCode: nat)
    requires Sound(t)
    ensures Sound(AfterStopWriting(t, id, appErrorCode)) && Advances(t, AfterStopWriting(t, id, appErrorCode))
    ensures Sound(AfterStopReading(t, id, appErrorCode)) && Advances(t, AfterStopReading(t, id, appErrorCode))
  {
    Same(t.a);
    if ShutdownStatus(t, id, appErrorCode) == Ok {
      StopTouches(t, id);
      ChangedKeeps(t, id, StopOf(t.a.strms[id]));
      RelistedKeeps(t, id, t.a.strms[id].(stopSending := true), Without(t.waiting, id));
    }
  }

  // ----- credit given back by the application -----

  function RaisedRx(s: Strm, n: nat): Strm { s.(unsentMaxRx := RaisedLimit(s.unsentMaxRx, n)) }

  /** Half a window, in 64 bits, can be announced. */
  predicate WorthAnnouncing(s: Strm, window: nat) { window / 2 < (s.unsentMaxRx - s.maxRx) % SPAN }

  /** The application has consumed `n` bytes of a stream. */
  function AfterConsume(t: Endpoint, id: nat, n: nat): Endpoint {
    if id !in t.a.strms then t else
    var s := RaisedRx(t.a.strms[id], n);
    Relisted(t, id, s, WaitingWith(t.waiting, id, s, t.window))
  }

  function WaitingWith(ids: seq<nat>, id: nat, s: Strm, window: nat): (r: seq<nat>)
    ensures forall x :: x in r ==> x in ids || x == id
  {
    if !s.shutRd && !s.stopSending && id !in ids && WorthAnnouncing(s, window) then [id] + ids else ids
  }

  /**
   In 64-bit arithmetic the limit may also be lowered; the invariant survives exactly if the sum does
   not wrap around to less than what was announced.
   */
  lemma ConsumeKeeps(t: Endpoint, id: nat, n: nat)
    requires Sound(t)
    ensures Sound(AfterConsume(t, id, n)) <==>
            !(id in t.a.strms && Wraps(t.a.strms[id].unsentMaxRx, n) && t.a.strms[id].unsentMaxRx + n - SPAN < t.a.strms[id].maxRx)
    ensures Sound(AfterConsume(t, id, n)) ==> Advances(t, AfterConsume(t, id, n))
  {
    Same(t.a);
    if id in t.a.strms {
      var s := RaisedRx(t.a.strms[id], n);
      LiveAt(t, id);
      RaisedRxValid(t.a.strms[id], n);
      if s.maxRx <= s.unsentMaxRx {
        RelistedKeeps(t, id, s, WaitingWith(t.waiting, id, s, t.window));
      } else {
        NotSound(AfterConsume(t, id, n), id, s);
      }
    }
  }

  lemma NotSound(t: Endpoint, id: nat, s: Strm)
    requires id in t.a.strms && t.a.strms[id] == s && !ValidStrm(s)
    ensures !Sound(t)
  {
  }

  lemma RaisedRxValid(s: Strm, n: nat)
    requires ValidStrm(s)
    ensures ValidStrm(RaisedRx(s, n)) <==> s.maxRx <= RaisedLimit(s.unsentMaxRx, n)
    ensures s.maxRx <= RaisedLimit(s.unsentMaxRx, n) <==> !(Wraps(s.unsentMaxRx, n) && s.unsentMaxRx + n - SPAN < s.maxRx)
  {
  }

  /** The application has consumed `n` bytes in all. */
  function AfterConsumeAll(t: Endpoint, n: nat): Endpoint {
    t.(a := t.a.(unsentMaxRx := Min(MAX_VARINT, t.a.unsentMaxRx + n)))
  }

  lemma ConsumeAllKeeps(t: Endpoint, n: nat)
    requires Sound(t)
    ensures Sound(AfterConsumeAll(t, n)) && Advances(t, AfterConsumeAll(t, n))
  {
    CreditLeft(t);
    LimitsKeep(t.a, t.b, t.a.maxRx, Min(MAX_VARINT, t.a.unsentMaxRx + n), t.a.maxTx);
  }

  // ----- limits announced when a packet is written -----

  /** MAX_DATA is sent if there is something new to say and it is due or rides along with other frames. */
  function AfterAnnounceData(t: Endpoint, riding: bool): Endpoint {
    if (riding || t.dataWindow / 2 < t.a.unsentMaxRx - t.a.maxRx) && t.a.maxRx < t.a.unsentMaxRx
    then t.(a := t.a.(maxRx := t.a.unsentMaxRx)) else t
  }

  function AdvertisedRx(s: Strm): Strm { s.(maxRx := s.unsentMaxRx) }

  /** MAX_STREAM_DATA is sent for the first stream that waits for it. */
  function AnnounceFirst(t: Endpoint): Endpoint
    requires t.waiting != []
  {
    var id := t.waiting[0];
    if id in t.a.strms then Relisted(t, id, AdvertisedRx(t.a.strms[id]), t.waiting[1..]) else t.(waiting := t.waiting[1..])
  }

  /** MAX_STREAM_DATA is sent for every stream that waits for it. */
  function AfterAnnounceStreams(t: Endpoint): Endpoint
    decreases |t.waiting|
  {
    if t.waiting == [] then t else AfterAnnounceStreams(AnnounceFirst(t))
  }

  /** MAX_STREAM_ID. */
  function AfterAnnounceIds(t: Endpoint, bidi: bool): Endpoint { t.(b := Advertise(t.b, bidi)) }

  lemma AnnounceDataKeeps(t: Endpoint, riding: bool)
    requires Sound(t)
    ensures Sound(AfterAnnounceData(t, riding)) && Advances(t, AfterAnnounceData(t, riding))
  {
    CreditLeft(t);
    Same(t.a);
    if AfterAnnounceData(t, riding) != t { LimitsKeep(t.a, t.b, t.a.unsentMaxRx, t.a.unsentMaxRx, t.a.maxTx); }
  }

  lemma AnnounceFirstKeeps(t: Endpoint)
    requires Sound(t) && t.waiting != []
    ensures var t' := AnnounceFirst(t); Sound(t') && Advances(t, t') && t.a.strms.Keys == t'.a.strms.Keys
  {
    var id := t.waiting[0];
    assert id in t.waiting;
    LiveAt(t, id);
    AdvertisedValid(t.a.strms[id]);
    RelistedKeeps(t, id, AdvertisedRx(t.a.strms[id]), t.waiting[1..]);
  }

  lemma AdvertisedValid(s: Strm)
    requires ValidStrm(s)
    ensures ValidStrm(AdvertisedRx(s))
  {
  }

  lemma {:induction false} AnnounceStreamsKeeps(t: Endpoint)
    requires Sound(t)
    ensures var t' := AfterAnnounceStreams(t); Sound(t') && Advances(t, t') && t.a.strms.Keys == t'.a.strms.Keys
    decreases |t.waiting|
  {
    if t.waiting == [] {
      Same(t.a);
    } else {
      AnnounceFirstKeeps(t);
      AnnounceStreamsKeeps(AnnounceFirst(t));
      AdvancesTrans(t, AnnounceFirst(t), AfterAnnounceStreams(t));
    }
  }

  lemma AnnounceIdsKeeps(t: Endpoint, bidi: bool)
    requires Sound(t)
    ensures Sound(AfterAnnounceIds(t, bidi)) && Advances(t, AfterAnnounceIds(t, bidi))
  {
    AdvertiseIds(t.a, t.b, bidi);
    Same(t.a);
  }
}
