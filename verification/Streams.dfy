/**
 The state of one stream as the connection sees it, and the invariants that tie
 all streams to the connection's credit.
 */
module Streams {
  import opened Basics
  import opened Ranges
  import opened StreamReceive

  /**
   One stream.  `rxGaps` is the gap list of its reorder buffer, `ackGaps` that of
   its tracker of acknowledged offsets, and `ackCalls` the ranges reported to the
   application as acknowledged.
   */
  datatype Strm = Strm(
    lastRx: nat, maxRx: nat, unsentMaxRx: nat, rxGaps: seq<Range>,
    tx: nat, maxTx: nat, ackGaps: seq<Range>, ackCalls: seq<Range>,
    shutRd: bool, shutWr: bool, sentRst: bool, recvRst: bool, stopSending: bool)
  {
    function View(): RxView { RxView(lastRx, maxRx, FirstOffset(rxGaps), shutRd, stopSending) }
  }

  function NewStrm(maxRx: nat, maxTx: nat): Strm {
    Strm(0, maxRx, maxRx, [Range(0, UINT64_MAX)], 0, maxTx, [Range(0, UINT64_MAX)], [], false, false, false, false, false)
  }

  /** Consecutive ranges that cover exactly [0, end). */
  ghost predicate Tiles(calls: seq<Range>, end: nat) {
    if calls == [] then end == 0
    else
      var last := calls[|calls| - 1];
      last.end == end && last.begin <= last.end && Tiles(calls[..|calls| - 1], last.begin)
  }

  ghost predicate ValidStrm(s: Strm) {
    && s.lastRx <= s.maxRx <= s.unsentMaxRx && s.lastRx <= MAX_VARINT
    && Sorted(s.rxGaps) && MissingFrom(s.rxGaps, s.lastRx)
    && s.tx <= s.maxTx <= MAX_VARINT
    && Sorted(s.ackGaps) && MissingFrom(s.ackGaps, s.tx) && Tiles(s.ackCalls, FirstOffset(s.ackGaps))
    && (s.sentRst ==> s.shutWr) && (s.recvRst ==> s.shutRd)
  }

  /** The condition under which a stream is closed. */
  predicate ShouldClose(s: Strm) {
    && s.shutRd && s.shutWr
    && (s.recvRst || FirstOffset(s.rxGaps) == s.lastRx)
    && (s.sentRst || FirstOffset(s.ackGaps) == s.tx)
  }

  /** Unless a side was reset, all it had to carry was received, or acknowledged. */
  ghost predicate Complete(s: Strm) {
    && s.shutRd && s.shutWr
    && (!s.recvRst ==> forall x: nat :: x < s.lastRx ==> !Covers(s.rxGaps, x))
    && (!s.sentRst ==> forall x: nat :: x < s.tx ==> !Covers(s.ackGaps, x))
    && (!s.sentRst ==> Tiles(s.ackCalls, s.tx))
  }

  /** A stream that may be closed has nothing left to receive or to have acknowledged. */
  lemma CloseComplete(s: Strm)
    requires ValidStrm(s) && ShouldClose(s)
    ensures Complete(s)
  {
    FirstOffsetIsLeastAll(s.rxGaps);
    FirstOffsetIsLeastAll(s.ackGaps);
  }

  /** And one that has nothing left may be closed. */
  lemma CloseIff(s: Strm)
    requires ValidStrm(s)
    ensures ShouldClose(s) <==> Complete(s)
  {
    FirstOffsetIsLeastAll(s.rxGaps);
    FirstOffsetIsLeastAll(s.ackGaps);
    if ShouldClose(s) { CloseComplete(s); }
    if Complete(s) {
      assert !s.recvRst ==> Covers(s.rxGaps, s.lastRx);
      assert !s.sentRst ==> Covers(s.ackGaps, s.tx);
    }
  }

  lemma NewStrmValid(maxRx: nat, maxTx: nat)
    requires maxTx <= MAX_VARINT
    ensures ValidStrm(NewStrm(maxRx, maxTx))
  {
    var gaps := [Range(0, UINT64_MAX)];
    forall x: nat | x < UINT64_MAX ensures Covers(gaps, x) { assert In(x, gaps[0]); }
  }

  /** Taking a range below `to` out of a gap list leaves everything from `to` on missing. */
  lemma SubtractMissing(gaps: seq<Range>, q: Range, from: nat, to: nat)
    requires Sorted(gaps) && MissingFrom(gaps, from) && from <= to && q.end <= to
    ensures Sorted(Subtract(gaps, q)) && MissingFrom(Subtract(gaps, q), to)
  {
    SubtractSorted(gaps, q);
    forall x: nat | to <= x < UINT64_MAX ensures Covers(Subtract(gaps, q), x) { SubtractCovers(gaps, q, x); }
  }

  // ----- receiving -----

  /** A stream after a STREAM frame was accepted. */
  function Received(s: Strm, fr: StreamFrame, d: RxDecision): Strm
    requires d.Accept?
  {
    var s' := s.(lastRx := d.lastRx, shutRd := d.shutRd);
    if d.action.Deliver? || d.action.Reorder? then s'.(rxGaps := Subtract(s.rxGaps, Range(fr.offset, fr.End()))) else s'
  }

  lemma ReceivedValid(s: Strm, fr: StreamFrame, credit: nat)
    requires ValidStrm(s) && Decide(s.View(), fr, credit).Accept?
    ensures var d := Decide(s.View(), fr, credit);
            var s' := Received(s, fr, d);
            ValidStrm(s') && d.charge <= credit && d.lastRx == s.lastRx + d.charge && s'.recvRst == s.recvRst
  {
    var d := Decide(s.View(), fr, credit);
    SubtractMissing(s.rxGaps, Range(fr.offset, fr.End()), s.lastRx, d.lastRx);
    ReceivedWith(s, d, Subtract(s.rxGaps, Range(fr.offset, fr.End())));
  }

  lemma ReceivedWith(s: Strm, d: RxDecision, gaps: seq<Range>)
    requires ValidStrm(s) && d.Accept? && s.lastRx <= d.lastRx <= s.maxRx && d.lastRx <= MAX_VARINT
    requires (s.shutRd ==> d.shutRd) && Sorted(gaps) && MissingFrom(gaps, d.lastRx)
    ensures ValidStrm(s.(lastRx := d.lastRx, shutRd := d.shutRd))
    ensures ValidStrm(s.(lastRx := d.lastRx, shutRd := d.shutRd, rxGaps := gaps))
  {
  }

  /** `s'` is `s` with `charge` more bytes received, within the connection's credit. */
  ghost predicate Extended(s: Strm, s': Strm, charge: nat, credit: nat) {
    && ValidStrm(s') && s'.lastRx == s.lastRx + charge && s'.maxRx == s.maxRx && s'.tx == s.tx
    && s'.recvRst == s.recvRst && (s.recvRst ==> charge == 0) && charge <= credit
  }

  /** A frame that is accepted extends its stream; a stream that was reset is not extended any more. */
  lemma ReceivedExtends(s: Strm, fr: StreamFrame, credit: nat, d: RxDecision, s': Strm)
    requires ValidStrm(s) && d == Decide(s.View(), fr, credit) && d.Accept? && s' == Received(s, fr, d)
    ensures Extended(s, s', d.charge, credit)
  {
    ReceivedValid(s, fr, credit);
  }

  // ----- acknowledging -----

  /** A stream after one of its STREAM frames was acknowledged. */
  function AckedRange(s: Strm, offset: nat, len: nat, fin: bool): Strm
  {
    var gaps := Subtract(s.ackGaps, Range(offset, offset + len));
    var prev, next := FirstOffset(s.ackGaps), FirstOffset(gaps);
    if next == prev && !fin then s.(ackGaps := gaps)
    else s.(ackGaps := gaps, ackCalls := s.ackCalls + [Range(prev, next)])
  }

  /** The reported ranges keep tiling the acknowledged prefix, without hole or overlap. */
  lemma AckedValid(s: Strm, offset: nat, len: nat, fin: bool)
    requires ValidStrm(s) && offset + len <= s.tx
    ensures ValidStrm(AckedRange(s, offset, len, fin))
    ensures forall x: nat :: Covers(AckedRange(s, offset, len, fin).ackGaps, x) <==>
                             Covers(s.ackGaps, x) && !(offset <= x < offset + len)
  {
    var q := Range(offset, offset + len);
    SubtractMissing(s.ackGaps, q, s.tx, s.tx);
    SubtractFirst(s.ackGaps, q);
    AckedWith(s, Subtract(s.ackGaps, q));
  }

  lemma AckedWith(s: Strm, gaps: seq<Range>)
    requires ValidStrm(s) && Sorted(gaps) && MissingFrom(gaps, s.tx) && FirstOffset(s.ackGaps) <= FirstOffset(gaps)
    ensures FirstOffset(gaps) == FirstOffset(s.ackGaps) ==> ValidStrm(s.(ackGaps := gaps))
    ensures ValidStrm(s.(ackGaps := gaps, ackCalls := s.ackCalls + [Range(FirstOffset(s.ackGaps), FirstOffset(gaps))]))
  {
    TilesNext(s.ackCalls, FirstOffset(s.ackGaps), FirstOffset(gaps));
  }

  /** Taking a range out of a gap list never moves its first offset down. */
  lemma SubtractFirst(gaps: seq<Range>, q: Range)
    requires Sorted(gaps) && Sorted(Subtract(gaps, q))
    ensures FirstOffset(gaps) <= FirstOffset(Subtract(gaps, q))
    ensures forall x: nat :: Covers(Subtract(gaps, q), x) <==> Covers(gaps, x) && !In(x, q)
  {
    forall x: nat ensures Covers(Subtract(gaps, q), x) <==> Covers(gaps, x) && !In(x, q) { SubtractCovers(gaps, q, x); }
    FirstOffsetIsLeastAll(gaps);
    FirstOffsetIsLeastAll(Subtract(gaps, q));
  }

  lemma TilesNext(calls: seq<Range>, prev: nat, next: nat)
    requires Tiles(calls, prev) && prev <= next
    ensures Tiles(calls + [Range(prev, next)], next)
  {
    var calls' := calls + [Range(prev, next)];
    assert calls'[..|calls'| - 1] == calls;
  }

  // ----- sending -----

  /** A stream after `n` more bytes, and possibly fin, were sent on it. */
  function Sent(s: Strm, n: nat, fin: bool): Strm {
    s.(tx := s.tx + n, shutWr := s.shutWr || fin)
  }

  lemma SentValid(s: Strm, n: nat, fin: bool)
    requires ValidStrm(s) && s.tx + n <= s.maxTx
    ensures ValidStrm(Sent(s, n, fin))
  {
  }

  // ----- all streams and the connection's credit -----

  ghost predicate ValidStrms(strms: map<nat, Strm>) {
    forall id {:trigger strms[id]} :: id in strms ==> id != 0 && ValidStrm(strms[id])
  }

  /** A stream has been charged with the bytes received on it: up to lastRx, or up to the final offset of a reset. */
  ghost predicate RxTied(strms: map<nat, Strm>, charged: map<nat, nat>) {
    forall id {:trigger strms[id]} :: id in strms ==>
      && id in charged && strms[id].lastRx <= charged[id] <= strms[id].maxRx
      && (!strms[id].recvRst ==> charged[id] == strms[id].lastRx)
  }

  /** The bytes sent on a stream are those that are recorded. */
  ghost predicate TxTied(strms: map<nat, Strm>, sent: map<nat, seq<byte>>) {
    forall id {:trigger strms[id]} :: id in strms ==> id in sent && strms[id].tx == |sent[id]|
  }

  ghost function Lengths(sent: map<nat, seq<byte>>): map<nat, nat> {
    map id | id in sent :: |sent[id]|
  }

  lemma LengthsUpdate(sent: map<nat, seq<byte>>, id: nat, s: seq<byte>)
    ensures Lengths(sent[id := s]) == Lengths(sent)[id := |s|]
  {
  }

  // ----- the stream with its buffers -----

  /** The stream that the connection keeps stands for the one with the buffers. */
  ghost predicate Mirrors(strm: RxStrm, s: Strm)
    reads strm, strm.rob
  {
    && strm.lastRxOffset == s.lastRx && strm.maxRxOffset == s.maxRx && strm.rob.gaps == s.rxGaps
    && strm.shutRd == s.shutRd && strm.stopSending == s.stopSending
  }

  /** A STREAM frame does to the stream with the buffers what `Received` says of its stand-in. */
  method RecvMirrored(strm: RxStrm, conn: ConnRx, fr: StreamFrame, ghost stream: seq<byte>, ghost s: Strm) returns (status: Status)
    requires Mirrors(strm, s) && strm.Follows(stream) && SliceOf(fr, stream) && conn.rxOffset <= conn.maxRxOffset
    modifies strm`lastRxOffset, strm`shutRd, strm`log, conn`rxOffset, strm.rob, strm.rob.repr
    ensures strm.Follows(stream) && fresh(strm.rob.repr - old(strm.rob.repr)) && conn.rxOffset <= conn.maxRxOffset
    ensures var d := Decide(s.View(), fr, conn.maxRxOffset - old(conn.rxOffset));
            if d.Reject? then status == d.status && Mirrors(strm, s)
            else status == Ok && Mirrors(strm, Received(s, fr, d)) && conn.rxOffset == old(conn.rxOffset) + d.charge
  {
    var action;
    status, action := strm.RecvStream(conn, fr, stream);
  }

  /** The stand-in and the connection's receive offset. */
  datatype Replica = Replica(s: Strm, rx: nat)
  {
    function Decision(fr: StreamFrame, maxData: nat): RxDecision {
      Decide(s.View(), fr, if rx <= maxData then maxData - rx else 0)
    }

    function Next(fr: StreamFrame, maxData: nat): Replica {
      var d := Decision(fr, maxData);
      if d.Accept? then Replica(Received(s, fr, d), rx + d.charge) else this
    }
  }

  /** The replica goes through these states, one for each of the frames, and accepts all of them. */
  ghost predicate Replay(rs: seq<Replica>, frames: seq<StreamFrame>, n: nat, maxData: nat) {
    && n <= |frames| && |rs| == n + 1
    && forall i {:trigger frames[i]} :: 0 <= i < n ==> rs[i].Decision(frames[i], maxData).Accept? && rs[i + 1] == rs[i].Next(frames[i], maxData)
  }

  lemma ReplayMore(rs: seq<Replica>, frames: seq<StreamFrame>, n: nat, maxData: nat) returns (rs': seq<Replica>)
    requires Replay(rs, frames, n, maxData) && n < |frames| && rs[n].Decision(frames[n], maxData).Accept?
    ensures rs' == rs + [rs[n].Next(frames[n], maxData)] && Replay(rs', frames, n + 1, maxData)
  {
    rs' := rs + [rs[n].Next(frames[n], maxData)];
    forall i | 0 <= i < n + 1 ensures rs'[i].Decision(frames[i], maxData).Accept? && rs'[i + 1] == rs'[i].Next(frames[i], maxData) {
      if i < n { assert rs'[i] == rs[i] && rs'[i + 1] == rs[i + 1]; }
    }
  }

  /** The stream with the buffers and the connection's receive offset are where the replica is. */
  ghost predicate InStep(strm: RxStrm, conn: ConnRx, stream: seq<byte>, r: Replica)
    reads strm, strm.rob, strm.rob.repr, conn
  {
    strm.Follows(stream) && Mirrors(strm, r.s) && conn.rxOffset == r.rx <= conn.maxRxOffset
  }

  method ReplayStep(strm: RxStrm, conn: ConnRx, fr: StreamFrame, ghost stream: seq<byte>, ghost r: Replica) returns (status: Status)
    requires InStep(strm, conn, stream, r) && SliceOf(fr, stream)
    modifies strm`lastRxOffset, strm`shutRd, strm`log, conn`rxOffset, strm.rob, strm.rob.repr
    ensures fresh(strm.rob.repr - old(strm.rob.repr))
    ensures var d := r.Decision(fr, conn.maxRxOffset);
            if d.Reject? then status == d.status != Ok && strm.Follows(stream) && Mirrors(strm, r.s)
            else status == Ok && InStep(strm, conn, stream, r.Next(fr, conn.maxRxOffset))
  {
    DecideStatus(r.s.View(), fr, conn.maxRxOffset - conn.rxOffset);
    status := RecvMirrored(strm, conn, fr, stream, r.s);
  }

  /** Over any frames, up to the first that is refused, the stream with the buffers is mirrored by its stand-in. */
  method ReplayMirrored(strm: RxStrm, conn: ConnRx, frames: seq<StreamFrame>, ghost stream: seq<byte>, ghost start: Replica)
    returns (n: nat, status: Status, ghost rs: seq<Replica>)
    requires InStep(strm, conn, stream, start) && forall i :: 0 <= i < |frames| ==> SliceOf(frames[i], stream)
    modifies strm`lastRxOffset, strm`shutRd, strm`log, conn`rxOffset, strm.rob, strm.rob.repr
    ensures Replay(rs, frames, n, conn.maxRxOffset) && rs[0] == start
    ensures strm.Follows(stream) && Mirrors(strm, rs[n].s)
    ensures if n == |frames| then status == Ok else rs[n].Decision(frames[n], conn.maxRxOffset) == Reject(status)
  {
    n, status, rs := 0, Ok, [start];
    ghost var r := start;
    while n < |frames|
      invariant Replay(rs, frames, n, conn.maxRxOffset) && rs[0] == start && rs[n] == r && status == Ok
      invariant InStep(strm, conn, stream, r) && fresh(strm.rob.repr - old(strm.rob.repr))
    {
      status := ReplayStep(strm, conn, frames[n], stream, r);
      if status != Ok {
        return;
      }
      rs := ReplayMore(rs, frames, n, conn.maxRxOffset);
      r, n := r.Next(frames[n], conn.maxRxOffset), n + 1;
    }
  }
}
