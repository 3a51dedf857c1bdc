/**
 Whole runs of a connection: any sequence of frames received, acknowledgements, calls and
 announcements, with a record of the frames written, acknowledged and taken in.
 */
module History {
  import opened Basics
  import opened Ranges
  import opened StreamReceive
  import opened Streams
  import opened Ledger
  import opened Steps
  import opened Machine

  /** One step.  `AckIn(k)` acknowledges the k-th frame written so far. */
  datatype Event =
    | StreamIn(id: nat, frame: StreamFrame)
    | ResetIn(id: nat, final: nat)
    | StopSendingIn(id: nat)
    | MaxStreamDataIn(id: nat, limit: nat)
    | MaxDataIn(limit: nat)
    | MaxStreamIdIn(limit: nat)
    | AckIn(k: nat)
    | Open(bidi: bool)
    | Write(id: nat, data: seq<byte>, fin: bool, left: nat)
    | StopWriting(id: nat, appErrorCode: nat)
    | StopReading(id: nat, appErrorCode: nat)
    | Consume(id: nat, n: nat)
    | ConsumeAll(n: nat)
    | AnnounceData(riding: bool)
    | AnnounceStreams
    | AnnounceIds(bidi: bool)

  /** Values a frame can carry, on streams other than stream 0; and no stream carries more than MAX_VARINT bytes. */
  predicate Possible(e: Event) {
    match e
    case StreamIn(id, _) => 0 < id <= MAX_VARINT
    case ResetIn(id, _) => id <= MAX_VARINT
    case StopSendingIn(id) => id <= MAX_VARINT
    case MaxStreamDataIn(id, limit) => 0 < id <= MAX_VARINT && limit <= MAX_VARINT
    case Consume(_, n) => n <= MAX_VARINT
    case _ => true
  }

  /** A STREAM frame of stream `id`. */
  datatype Piece = Piece(id: nat, frame: StreamFrame)

  /** The connection, and the frames written, those of them acknowledged, and those received whose data was taken in. */
  datatype State = State(t: Endpoint, written: seq<Piece>, acked: seq<Piece>, got: seq<Piece>)

  /** The answer of the connection; any other than Ok ends it. */
  function Answer(t: Endpoint, e: Event): Status {
    match e
    case StreamIn(id, fr) => StreamStatus(t, id, fr)
    case ResetIn(id, final) => ResetStatus(t, id, final)
    case StopSendingIn(id) => StopStatus(t, id)
    case MaxStreamDataIn(id, _) => Admission(t.b, id)
    case _ => Ok
  }

  /** The data of a STREAM frame is taken in: its stream lives, is wanted, and this does not repeat its end. */
  predicate Taking(t: Endpoint, id: nat, fr: StreamFrame) {
    var u := Found(t, id);
    id in u.a.strms && !u.a.strms[id].stopSending && !(fr.fin && u.a.strms[id].shutRd)
  }

  function After(s: State, e: Event): State {
    match e
    case StreamIn(id, fr) =>
      s.(t := AfterStream(s.t, id, fr), got := if Taking(s.t, id, fr) then s.got + [Piece(id, fr)] else s.got)
    case AckIn(k) =>
      if k < |s.written| then s.(t := AfterAck(s.t, s.written[k].id, s.written[k].frame), acked := s.acked + [s.written[k]]) else s
    case Write(id, data, fin, left) =>
      if WriteStatus(s.t, id, data, left) != Ok then s
      else s.(t := AfterWrite(s.t, id, data, fin, left), written := s.written + [Piece(id, WrittenFrame(s.t, id, data, fin, left))])
    case _ => s.(t := AfterOther(s.t, e))
  }

  /** Events that leave no record. */
  function AfterOther(t: Endpoint, e: Event): Endpoint {
    match e
    case ResetIn(id, final) => AfterReset(t, id, final)
    case StopSendingIn(id) => AfterStop(t, id)
    case MaxStreamDataIn(id, limit) => AfterMaxStreamData(t, id, limit)
    case MaxDataIn(limit) => AfterMaxData(t, limit)
    case MaxStreamIdIn(limit) => AfterMaxStreamId(t, limit)
    case Open(bidi) => AfterOpen(t, bidi)
    case StopWriting(id, code) => AfterStopWriting(t, id, code)
    case StopReading(id, code) => AfterStopReading(t, id, code)
    case Consume(id, n) => AfterConsume(t, id, n)
    case ConsumeAll(n) => AfterConsumeAll(t, n)
    case AnnounceData(riding) => AfterAnnounceData(t, riding)
    case AnnounceStreams => AfterAnnounceStreams(t)
    case AnnounceIds(bidi) => AfterAnnounceIds(t, bidi)
    case _ => t
  }

  function Beginning(server: bool, local: Settings, remote: Settings): State {
    State(WithParams(Start(server, local), remote), [], [], [])
  }

  // ----- what was written -----

  /** A frame that was written is a slice of what was sent on its stream, and one with fin is the end of it. */
  ghost predicate Faithful(a: Accounts, w: Piece) {
    && w.id in a.sent && SliceOf(w.frame, a.sent[w.id])
    && (w.frame.fin ==> Finished(a, w.id) && w.frame.End() == |a.sent[w.id]|)
  }

  ghost predicate AllFaithful(a: Accounts, ws: seq<Piece>) {
    forall i :: 0 <= i < |ws| ==> Faithful(a, ws[i])
  }

  /** Nothing is written on a stream after fin. */
  ghost predicate FinLast(ws: seq<Piece>) {
    forall i, j :: 0 <= i < j < |ws| && ws[i].frame.fin ==> ws[i].id != ws[j].id
  }

  /** All frames of a stream that have fin are the same one. */
  lemma OneFin(ws: seq<Piece>, id: nat, f: StreamFrame, g: StreamFrame)
    requires FinLast(ws) && Piece(id, f) in ws && Piece(id, g) in ws && f.fin && g.fin
    ensures f == g
  {
    var i :| 0 <= i < |ws| && ws[i] == Piece(id, f);
    var j :| 0 <= j < |ws| && ws[j] == Piece(id, g);
  }

  /** The bytes in the frames of stream `id`. */
  ghost function SentIn(ws: seq<Piece>, id: nat): nat {
    if ws == [] then 0 else
    var n := |ws| - 1;
    SentIn(ws[..n], id) + if ws[n].id == id then |ws[n].frame.data| else 0
  }

  /** Each frame of a stream starts where the one before it ended, and the last one ends where the stream does. */
  ghost predicate Tiled(a: Accounts, ws: seq<Piece>) {
    && (forall i {:trigger ws[i]} :: 0 <= i < |ws| ==> ws[i].frame.offset == SentIn(ws[..i], ws[i].id))
    && (forall id: nat {:trigger SentOn(a, id)} :: SentOn(a, id) == SentIn(ws, id))
  }

  /** What is known of the frames written so far. */
  ghost predicate Recorded(a: Accounts, ws: seq<Piece>) { AllFaithful(a, ws) && FinLast(ws) && Tiled(a, ws) }

  lemma TiledQuiet(a: Accounts, a': Accounts, ws: seq<Piece>)
    requires Tiled(a, ws) && Quiet(a, a')
    ensures Tiled(a', ws)
  {
    forall id: nat ensures SentOn(a', id) == SentIn(ws, id) {
      assert SentOn(a, id) == SentIn(ws, id);
      if id in a'.sent { assert a'.sent[id] == SentBytes(a, id); }
    }
  }

  lemma TiledNext(a: Accounts, a': Accounts, ws: seq<Piece>, w: Piece)
    requires Tiled(a, ws) && w.frame.offset == SentOn(a, w.id)
    requires forall id: nat {:trigger SentOn(a', id)} :: SentOn(a', id) == SentOn(a, id) + if id == w.id then |w.frame.data| else 0
    ensures Tiled(a', ws + [w])
  {
    var ws' := ws + [w];
    assert ws'[..|ws|] == ws;
    forall i | 0 <= i < |ws'| ensures ws'[i].frame.offset == SentIn(ws'[..i], ws'[i].id) {
      if i < |ws| { assert ws'[..i] == ws[..i] && ws'[i] == ws[i]; }
    }
    forall x: nat ensures SentOn(a', x) == SentIn(ws', x) { assert SentOn(a, x) == SentIn(ws, x); }
  }

  lemma StillFaithful(a: Accounts, a': Accounts, w: Piece)
    requires SentGrows(a, a') && Faithful(a, w)
    ensures Faithful(a', w)
  {
    assert a.sent[w.id] <= a'.sent[w.id];
    assert a'.sent[w.id][w.frame.offset..w.frame.End()] == a.sent[w.id][w.frame.offset..w.frame.End()];
  }

  lemma FaithfulGrows(a: Accounts, a': Accounts, ws: seq<Piece>)
    requires SentGrows(a, a') && AllFaithful(a, ws)
    ensures AllFaithful(a', ws)
  {
    forall i | 0 <= i < |ws| ensures Faithful(a', ws[i]) { StillFaithful(a, a', ws[i]); }
  }

  /** Frames on a stream that is not finished have no fin. */
  lemma FaithfulNext(a: Accounts, a': Accounts, ws: seq<Piece>, w: Piece)
    requires AllFaithful(a, ws) && FinLast(ws) && !Finished(a, w.id) && SentGrows(a, a') && Faithful(a', w)
    ensures AllFaithful(a', ws + [w]) && FinLast(ws + [w])
  {
    FaithfulGrows(a, a', ws);
    forall i | 0 <= i < |ws| && ws[i].frame.fin ensures ws[i].id != w.id { assert Faithful(a, ws[i]); }
  }

  lemma RecordedCalm(a: Accounts, a': Accounts, ws: seq<Piece>)
    requires Recorded(a, ws) && Calm(a, a')
    ensures Recorded(a', ws)
  {
    FaithfulGrows(a, a', ws);
    TiledQuiet(a, a', ws);
  }

  /** A frame just written is faithful, and follows the one before it. */
  lemma RecordedNext(a: Accounts, a': Accounts, ws: seq<Piece>, id: nat, s: Strm, fr: StreamFrame)
    requires Recorded(a, ws) && SentGrows(a, a') && id in a.strms && !a.strms[id].shutWr && id in a.sent
    requires fr.offset == a.strms[id].tx == |a.sent[id]| && s == Sent(a.strms[id], |fr.data|, fr.fin)
    requires a' == Put(a, id, s, ChargedTo(a, id), SentBytes(a, id) + fr.data)
    ensures Recorded(a', ws + [Piece(id, fr)])
  {
    assert a'.sent[id] == a.sent[id] + fr.data;
    assert a'.sent[id][fr.offset..] == fr.data;
    FaithfulNext(a, a', ws, Piece(id, fr));
    TiledNext(a, a', ws, Piece(id, fr));
  }

  // ----- what was acknowledged and received -----

  /** One of the frames carries offset `x` of stream `id`. */
  ghost predicate Covered(ps: seq<Piece>, id: nat, x: nat) {
    exists k {:trigger ps[k]} :: 0 <= k < |ps| && ps[k].id == id && ps[k].frame.offset <= x < ps[k].frame.End()
  }

  /** What is missing on stream `id` is exactly what none of the frames carries. */
  ghost predicate Matches(gaps: seq<Range>, ps: seq<Piece>, id: nat) {
    forall x: nat {:trigger Covers(gaps, x)} {:trigger Covered(ps, id, x)} ::
      x < UINT64_MAX ==> (Covers(gaps, x) <==> !Covered(ps, id, x))
  }

  ghost predicate CoveredUpTo(ps: seq<Piece>, id: nat, end: nat) {
    forall x: nat {:trigger Covered(ps, id, x)} :: x < end ==> Covered(ps, id, x)
  }

  ghost predicate AckExact(strms: map<nat, Strm>, acked: seq<Piece>) {
    forall id {:trigger strms[id]} :: id in strms ==> Matches(strms[id].ackGaps, acked, id)
  }

  ghost predicate RxExact(strms: map<nat, Strm>, got: seq<Piece>) {
    forall id {:trigger strms[id]} :: id in strms ==> Matches(strms[id].rxGaps, got, id)
  }

  /** Unless it was reset here, every byte sent on a closed stream was acknowledged. */
  ghost predicate AckWhole(closed: map<nat, Strm>, acked: seq<Piece>) {
    forall id {:trigger closed[id]} :: id in closed && !closed[id].sentRst ==> CoveredUpTo(acked, id, closed[id].tx)
  }

  /** Unless it was reset by the peer, every byte of a closed stream up to its end was received. */
  ghost predicate RxWhole(closed: map<nat, Strm>, got: seq<Piece>) {
    forall id {:trigger closed[id]} :: id in closed && !closed[id].recvRst ==> CoveredUpTo(got, id, closed[id].lastRx)
  }

  ghost predicate OnlyOf(ps: seq<Piece>, ids: set<nat>) {
    forall k {:trigger ps[k]} :: 0 <= k < |ps| ==> ps[k].id in ids
  }

  /** The gap lists of every stream say what was acknowledged and received on it. */
  ghost predicate Told(a: Accounts, acked: seq<Piece>, got: seq<Piece>) {
    && AckExact(a.strms, acked) && AckWhole(a.closed, acked) && OnlyOf(acked, a.sent.Keys)
    && RxExact(a.strms, got) && RxWhole(a.closed, got) && OnlyOf(got, a.charged.Keys)
  }

  lemma CoveredNext(ps: seq<Piece>, p: Piece, id: nat, x: nat)
    ensures Covered(ps + [p], id, x) <==> Covered(ps, id, x) || (p.id == id && p.frame.offset <= x < p.frame.End())
  {
    var ps' := ps + [p];
    if Covered(ps, id, x) {
      var k :| 0 <= k < |ps| && ps[k].id == id && ps[k].frame.offset <= x < ps[k].frame.End();
      assert ps'[k] == ps[k];
    }
    if p.id == id && p.frame.offset <= x < p.frame.End() { assert ps'[|ps|] == p; }
    if Covered(ps', id, x) {
      var k :| 0 <= k < |ps'| && ps'[k].id == id && ps'[k].frame.offset <= x < ps'[k].frame.End();
      if k < |ps| { assert ps[k] == ps'[k]; }
    }
  }

  /** A frame of another stream changes nothing. */
  lemma MatchesOther(gaps: seq<Range>, ps: seq<Piece>, id: nat, p: Piece)
    requires Matches(gaps, ps, id) && p.id != id
    ensures Matches(gaps, ps + [p], id)
  {
    forall x: nat | x < UINT64_MAX ensures Covers(gaps, x) <==> !Covered(ps + [p], id, x) { CoveredNext(ps, p, id, x); }
  }

  /** A frame of the stream takes out exactly its range. */
  lemma MatchesNext(gaps: seq<Range>, gaps': seq<Range>, ps: seq<Piece>, p: Piece)
    requires Matches(gaps, ps, p.id)
    requires forall x: nat :: x < UINT64_MAX ==> (Covers(gaps', x) <==> Covers(gaps, x) && !(p.frame.offset <= x < p.frame.End()))
    ensures Matches(gaps', ps + [p], p.id)
  {
    forall x: nat | x < UINT64_MAX ensures Covers(gaps', x) <==> !Covered(ps + [p], p.id, x) { CoveredNext(ps, p, p.id, x); }
  }

  lemma UpToNext(ps: seq<Piece>, p: Piece, id: nat, end: nat)
    requires CoveredUpTo(ps, id, end)
    ensures CoveredUpTo(ps + [p], id, end)
  {
    forall x: nat | x < end ensures Covered(ps + [p], id, x) { CoveredNext(ps, p, id, x); }
  }

  lemma MatchesUpTo(gaps: seq<Range>, ps: seq<Piece>, id: nat, end: nat)
    requires Matches(gaps, ps, id) && end < UINT64_MAX && forall x: nat :: x < end ==> !Covers(gaps, x)
    ensures CoveredUpTo(ps, id, end)
  {
    forall x: nat | x < end ensures Covered(ps, id, x) { assert !Covers(gaps, x); }
  }

  lemma MatchesNone(ps: seq<Piece>, id: nat, ids: set<nat>)
    requires OnlyOf(ps, ids) && id !in ids
    ensures Matches([Range(0, UINT64_MAX)], ps, id)
  {
    var gaps := [Range(0, UINT64_MAX)];
    forall x: nat | x < UINT64_MAX ensures Covers(gaps, x) && !Covered(ps, id, x) { assert In(x, gaps[0]); }
  }

  // ----- acknowledged and received: the steps -----

  /** Streams that keep their gap lists. */
  lemma ToldPut(a: Accounts, acked: seq<Piece>, got: seq<Piece>, id: nat, s: Strm, c: nat, sent: seq<byte>)
    requires Told(a, acked, got) && id in a.strms && ChargedTo(a, id) <= c && SentOn(a, id) <= |sent|
    requires s.ackGaps == a.strms[id].ackGaps && s.rxGaps == a.strms[id].rxGaps
    ensures Told(Put(a, id, s, c, sent), acked, got)
  {
    ExactPut(a.strms, acked, got, id, s);
    OnlyMore(acked, a.sent.Keys, a.sent[id := sent].Keys);
    OnlyMore(got, a.charged.Keys, a.charged[id := c].Keys);
  }

  lemma ExactPut(strms: map<nat, Strm>, acked: seq<Piece>, got: seq<Piece>, id: nat, s: Strm)
    requires AckExact(strms, acked) && RxExact(strms, got) && Matches(s.ackGaps, acked, id) && Matches(s.rxGaps, got, id)
    ensures AckExact(strms[id := s], acked) && RxExact(strms[id := s], got)
  {
    AckExactPut(strms, acked, id, s);
    RxExactPut(strms, got, id, s);
  }

  lemma OnlyMore(ps: seq<Piece>, ids: set<nat>, ids': set<nat>)
    requires OnlyOf(ps, ids) && ids <= ids'
    ensures OnlyOf(ps, ids')
  {
  }

  lemma ToldAdd(a: Accounts, acked: seq<Piece>, got: seq<Piece>, id: nat, s: Strm)
    requires Told(a, acked, got) && id !in a.sent && id !in a.charged
    requires s.ackGaps == [Range(0, UINT64_MAX)] && s.rxGaps == [Range(0, UINT64_MAX)]
    ensures Told(Add(a, id, s), acked, got)
  {
    MatchesNone(acked, id, a.sent.Keys);
    MatchesNone(got, id, a.charged.Keys);
    ExactPut(a.strms, acked, got, id, s);
    OnlyMore(acked, a.sent.Keys, a.sent[id := []].Keys);
    OnlyMore(got, a.charged.Keys, a.charged[id := 0].Keys);
  }

  lemma ToldClose(a: Accounts, acked: seq<Piece>, got: seq<Piece>, id: nat)
    requires Told(a, acked, got) && id in a.strms && ValidStrm(a.strms[id]) && ShouldClose(a.strms[id])
    ensures Told(CloseStrm(a, id), acked, got)
  {
    var s := a.strms[id];
    CloseComplete(s);
    if !s.sentRst { MatchesUpTo(s.ackGaps, acked, id, s.tx); }
    if !s.recvRst { MatchesUpTo(s.rxGaps, got, id, s.lastRx); }
    ExactLess(a.strms, acked, got, id);
    WholeMore(a.closed, acked, got, id, s);
  }

  lemma ExactLess(strms: map<nat, Strm>, acked: seq<Piece>, got: seq<Piece>, id: nat)
    requires AckExact(strms, acked) && RxExact(strms, got)
    ensures AckExact(strms - {id}, acked) && RxExact(strms - {id}, got)
  {
    var strms' := strms - {id};
    forall x | x in strms' ensures x in strms && strms'[x] == strms[x] {}
  }

  lemma WholeMore(closed: map<nat, Strm>, acked: seq<Piece>, got: seq<Piece>, id: nat, s: Strm)
    requires AckWhole(closed, acked) && RxWhole(closed, got)
    requires (!s.sentRst ==> CoveredUpTo(acked, id, s.tx)) && (!s.recvRst ==> CoveredUpTo(got, id, s.lastRx))
    ensures AckWhole(closed[id := s], acked) && RxWhole(closed[id := s], got)
  {
    var closed' := closed[id := s];
    forall x | x in closed' && x != id ensures x in closed && closed'[x] == closed[x] {}
  }

  /** A frame of stream `id` was acknowledged. */
  lemma ToldAcked(a: Accounts, acked: seq<Piece>, got: seq<Piece>, p: Piece, s: Strm)
    requires Told(a, acked, got) && p.id in a.strms && p.id in a.sent && s.rxGaps == a.strms[p.id].rxGaps
    requires s.ackGaps == Subtract(a.strms[p.id].ackGaps, Range(p.frame.offset, p.frame.End()))
    ensures Told(Touched(a, p.id, s), acked + [p], got)
  {
    SubtractAll(a.strms[p.id].ackGaps, Range(p.frame.offset, p.frame.End()));
    MatchesNext(a.strms[p.id].ackGaps, s.ackGaps, acked, p);
    AckExactNext(a.strms, acked, p, s);
    AckWholeNext(a.closed, acked, p);
    RxExactPut(a.strms, got, p.id, s);
    OnlyMore(got, a.charged.Keys, Touched(a, p.id, s).charged.Keys);
    OnlyNext(acked, p, a.sent.Keys, Touched(a, p.id, s).sent.Keys);
  }

  lemma RxExactPut(strms: map<nat, Strm>, got: seq<Piece>, id: nat, s: Strm)
    requires RxExact(strms, got) && Matches(s.rxGaps, got, id)
    ensures RxExact(strms[id := s], got)
  {
    var strms' := strms[id := s];
    forall x | x in strms' && x != id ensures x in strms && strms'[x] == strms[x] {}
  }

  lemma AckExactPut(strms: map<nat, Strm>, acked: seq<Piece>, id: nat, s: Strm)
    requires AckExact(strms, acked) && Matches(s.ackGaps, acked, id)
    ensures AckExact(strms[id := s], acked)
  {
    var strms' := strms[id := s];
    forall x | x in strms' && x != id ensures x in strms && strms'[x] == strms[x] {}
  }

  lemma OnlyNext(ps: seq<Piece>, p: Piece, ids: set<nat>, ids': set<nat>)
    requires OnlyOf(ps, ids) && ids <= ids' && p.id in ids'
    ensures OnlyOf(ps + [p], ids')
  {
  }

  lemma AckExactNext(strms: map<nat, Strm>, acked: seq<Piece>, p: Piece, s: Strm)
    requires AckExact(strms, acked) && Matches(s.ackGaps, acked + [p], p.id)
    ensures AckExact(strms[p.id := s], acked + [p])
  {
    var strms' := strms[p.id := s];
    forall x | x in strms' && x != p.id ensures Matches(strms'[x].ackGaps, acked + [p], x) {
      assert strms'[x] == strms[x];
      MatchesOther(strms[x].ackGaps, acked, x, p);
    }
  }

  lemma AckWholeNext(closed: map<nat, Strm>, acked: seq<Piece>, p: Piece)
    requires AckWhole(closed, acked)
    ensures AckWhole(closed, acked + [p])
  {
    forall x | x in closed && !closed[x].sentRst ensures CoveredUpTo(acked + [p], x, closed[x].tx) {
      UpToNext(acked, p, x, closed[x].tx);
    }
  }

  lemma RxExactNext(strms: map<nat, Strm>, got: seq<Piece>, p: Piece, s: Strm)
    requires RxExact(strms, got) && Matches(s.rxGaps, got + [p], p.id)
    ensures RxExact(strms[p.id := s], got + [p])
  {
    var strms' := strms[p.id := s];
    forall x | x in strms' && x != p.id ensures Matches(strms'[x].rxGaps, got + [p], x) {
      assert strms'[x] == strms[x];
      MatchesOther(strms[x].rxGaps, got, x, p);
    }
  }

  lemma RxWholeNext(closed: map<nat, Strm>, got: seq<Piece>, p: Piece)
    requires RxWhole(closed, got)
    ensures RxWhole(closed, got + [p])
  {
    forall x | x in closed && !closed[x].recvRst ensures CoveredUpTo(got + [p], x, closed[x].lastRx) {
      UpToNext(got, p, x, closed[x].lastRx);
    }
  }

  /** The data of a frame was taken in. */
  lemma ToldGot(a: Accounts, acked: seq<Piece>, got: seq<Piece>, p: Piece, s: Strm, c: nat)
    requires Told(a, acked, got) && p.id in a.strms && ChargedTo(a, p.id) <= c && s.ackGaps == a.strms[p.id].ackGaps
    requires Matches(s.rxGaps, got + [p], p.id)
    ensures Told(Put(a, p.id, s, c, SentBytes(a, p.id)), acked, got + [p])
  {
    var a' := Put(a, p.id, s, c, SentBytes(a, p.id));
    RxExactNext(a.strms, got, p, s);
    RxWholeNext(a.closed, got, p);
    AckExactPut(a.strms, acked, p.id, s);
    OnlyMore(acked, a.sent.Keys, a'.sent.Keys);
    OnlyNext(got, p, a.charged.Keys, a'.charged.Keys);
  }

  /** What a frame that is taken in does to the gap list, whatever was decided on it. */
  lemma GotMatches(s: Strm, got: seq<Piece>, p: Piece, credit: nat, d: RxDecision)
    requires Sorted(s.rxGaps) && Matches(s.rxGaps, got, p.id)
    requires d == Decide(s.View(), p.frame, credit) && d.Accept? && !s.stopSending && !(p.frame.fin && s.shutRd)
    ensures Matches(Received(s, p.frame, d).rxGaps, got + [p], p.id)
  {
    var gaps' := Received(s, p.frame, d).rxGaps;
    SubtractAll(s.rxGaps, Range(p.frame.offset, p.frame.End()));
    FirstOffsetIsLeastAll(s.rxGaps);
    forall x: nat | x < UINT64_MAX ensures Covers(gaps', x) <==> Covers(s.rxGaps, x) && !(p.frame.offset <= x < p.frame.End()) {
    }
    MatchesNext(s.rxGaps, gaps', got, p);
  }

  /** A frame that is not taken in leaves the gap list alone. */
  lemma NotGot(s: Strm, fr: StreamFrame, credit: nat, d: RxDecision)
    requires d == Decide(s.View(), fr, credit) && d.Accept? && (s.stopSending || (fr.fin && s.shutRd))
    ensures Received(s, fr, d).rxGaps == s.rxGaps
  {
  }

  /** Closing a complete stream. */
  lemma ToldSettled(t: Endpoint, acked: seq<Piece>, got: seq<Piece>, id: nat)
    requires Told(t.a, acked, got) && id in t.a.strms && ValidStrm(t.a.strms[id])
    ensures Told(Settled(t, id).a, acked, got)
  {
    if ShouldClose(t.a.strms[id]) { ToldClose(t.a, acked, got, id); }
  }

  /** A stream that keeps its gap lists is changed, and closed if complete. */
  lemma ToldAbsorbed(t: Endpoint, acked: seq<Piece>, got: seq<Piece>, id: nat, s: Strm, c: nat, waiting: seq<nat>, check: bool)
    requires Told(t.a, acked, got) && id in t.a.strms && ChargedTo(t.a, id) <= c && ValidStrm(s)
    requires s.ackGaps == t.a.strms[id].ackGaps && s.rxGaps == t.a.strms[id].rxGaps
    ensures Told(Absorbed(t, id, s, c, waiting, check).a, acked, got)
  {
    ToldPut(t.a, acked, got, id, s, c, SentBytes(t.a, id));
    ToldSettled(Stored(t, id, s, c, SentBytes(t.a, id)).(waiting := waiting), acked, got, id);
  }

  lemma ToldChanged(t: Endpoint, acked: seq<Piece>, got: seq<Piece>, id: nat, s: Strm)
    requires Told(t.a, acked, got) && id in t.a.strms
    requires s.ackGaps == t.a.strms[id].ackGaps && s.rxGaps == t.a.strms[id].rxGaps
    ensures Told(Changed(t, id, s).a, acked, got)
  {
    ToldPut(t.a, acked, got, id, s, ChargedTo(t.a, id), SentBytes(t.a, id));
  }

  lemma ToldFound(t: Endpoint, acked: seq<Piece>, got: seq<Piece>, id: nat)
    requires Sound(t) && Told(t.a, acked, got) && Admission(t.b, id) == Ok
    ensures Told(Found(t, id).a, acked, got)
  {
    if Opens(t, id) {
      ClaimedKeeps(t, id, true);
      ToldAdd(t.a, acked, got, id, PeerStrm(id, t.window, t.peerWindow));
    }
  }

  /** An accepted STREAM frame. */
  lemma ToldTook(t: Endpoint, acked: seq<Piece>, got: seq<Piece>, p: Piece, d: RxDecision)
    requires Sound(t) && Told(t.a, acked, got) && p.id in t.a.strms && d == Verdict(t, p.id, p.frame) && d.Accept?
    ensures var s := t.a.strms[p.id];
            Told(Took(t, p.id, p.frame, d).a, acked, if s.stopSending || (p.frame.fin && s.shutRd) then got else got + [p])
  {
    var s, s', c := t.a.strms[p.id], Received(t.a.strms[p.id], p.frame, d), ChargedTo(t.a, p.id) + d.charge;
    var waiting := StillWaiting(t.waiting, p.id, p.frame, d);
    TookIs(t, p.id, p.frame, d, s', c);
    LiveAt(t, p.id);
    ReceivedValid(s, p.frame, Credit(t.a));
    ReceivedAcks(s, p.frame, d);
    if s.stopSending || (p.frame.fin && s.shutRd) {
      NotGot(s, p.frame, Credit(t.a), d);
      ToldAbsorbed(t, acked, got, p.id, s', c, waiting, !d.action.Discard?);
    } else {
      GotMatches(s, got, p, Credit(t.a), d);
      ToldGot(t.a, acked, got, p, s', c);
      ToldSettled(Stored(t, p.id, s', c, SentBytes(t.a, p.id)).(waiting := waiting), acked, got + [p], p.id);
    }
  }

  lemma ReceivedAcks(s: Strm, fr: StreamFrame, d: RxDecision)
    requires d.Accept?
    ensures Received(s, fr, d).ackGaps == s.ackGaps
  {
  }

  lemma ToldStream(s: State, id: nat, fr: StreamFrame)
    requires Sound(s.t) && Told(s.t.a, s.acked, s.got) && StreamStatus(s.t, id, fr) == Ok && 0 < id
    ensures var s' := After(s, StreamIn(id, fr)); Told(s'.t.a, s'.acked, s'.got)
  {
    var u := Found(s.t, id);
    FoundKeeps(s.t, id);
    ToldFound(s.t, s.acked, s.got, id);
    if id in u.a.strms {
      DecideStatus(u.a.strms[id].View(), fr, Credit(u.a));
      ToldTook(u, s.acked, s.got, Piece(id, fr), Verdict(u, id, fr));
    }
  }

  /** A STREAM frame that was written is acknowledged. */
  lemma ToldAck(t: Endpoint, acked: seq<Piece>, got: seq<Piece>, p: Piece)
    requires Sound(t) && Told(t.a, acked, got) && p.id in t.a.sent && (p.id in t.a.strms ==> p.frame.End() <= t.a.strms[p.id].tx)
    ensures Told(AfterAck(t, p.id, p.frame).a, acked + [p], got)
  {
    if p.id in t.a.strms {
      var s := AckedRange(t.a.strms[p.id], p.frame.offset, |p.frame.data|, p.frame.fin);
      AckTouches(t, p.id, p.frame);
      AckForm(t, p.id, p.frame, s);
      ToldAckStored(t, acked, got, p, s);
    } else {
      ToldAckedOther(t.a.strms, acked, p);
      AckWholeNext(t.a.closed, acked, p);
      OnlyNext(acked, p, t.a.sent.Keys, t.a.sent.Keys);
    }
  }

  lemma ToldAckStored(t: Endpoint, acked: seq<Piece>, got: seq<Piece>, p: Piece, s: Strm)
    requires Told(t.a, acked, got) && p.id in t.a.strms && p.id in t.a.sent && ValidStrm(s) && s.rxGaps == t.a.strms[p.id].rxGaps
    requires s.ackGaps == Subtract(t.a.strms[p.id].ackGaps, Range(p.frame.offset, p.frame.End()))
    ensures Told(Changed(t, p.id, s).a, acked + [p], got) && Told(Settled(Changed(t, p.id, s), p.id).a, acked + [p], got)
  {
    ToldAcked(t.a, acked, got, p, s);
    ToldSettled(Changed(t, p.id, s), acked + [p], got, p.id);
  }

  lemma ToldAckedOther(strms: map<nat, Strm>, acked: seq<Piece>, p: Piece)
    requires AckExact(strms, acked) && p.id !in strms
    ensures AckExact(strms, acked + [p])
  {
    forall x | x in strms ensures Matches(strms[x].ackGaps, acked + [p], x) { MatchesOther(strms[x].ackGaps, acked, x, p); }
  }

  lemma ToldReset(t: Endpoint, acked: seq<Piece>, got: seq<Piece>, id: nat, final: nat)
    requires Sound(t) && Told(t.a, acked, got)
    ensures Told(AfterReset(t, id, final).a, acked, got)
  {
    if ResetStatus(t, id, final) == Ok {
      if id in t.a.strms {
        var s, c := ResetOf(t.a.strms[id]), ChargedTo(t.a, id) + (final - t.a.strms[id].lastRx);
        LiveAt(t, id);
        ResetValid(t.a.strms[id]);
        ResetStrmIs(t, id, final, s, c);
        ToldAbsorbed(t, acked, got, id, s, c, t.waiting, true);
      } else if Opens(t, id) {
        OnlyMore(got, t.a.charged.Keys, t.a.charged[id := final].Keys);
      }
    }
  }

  lemma ToldStop(t: Endpoint, acked: seq<Piece>, got: seq<Piece>, id: nat)
    requires Sound(t) && Told(t.a, acked, got)
    ensures Told(AfterStop(t, id).a, acked, got)
  {
    if StopStatus(t, id) == Ok && id in t.a.strms {
      LiveAt(t, id);
      StopValid(t.a.strms[id]);
      ToldChanged(t, acked, got, id, StopOf(t.a.strms[id]));
      ToldSettled(Changed(t, id, StopOf(t.a.strms[id])), acked, got, id);
    }
  }

  lemma ToldMaxStreamData(t: Endpoint, acked: seq<Piece>, got: seq<Piece>, id: nat, limit: nat)
    requires Sound(t) && Told(t.a, acked, got)
    ensures Told(AfterMaxStreamData(t, id, limit).a, acked, got)
  {
    if Admission(t.b, id) == Ok {
      var u := Found(t, id);
      ToldFound(t, acked, got, id);
      if id in u.a.strms { ToldChanged(u, acked, got, id, u.a.strms[id].(maxTx := Max(u.a.strms[id].maxTx, limit))); }
    }
  }

  lemma ToldOpen(t: Endpoint, acked: seq<Piece>, got: seq<Piece>, bidi: bool)
    requires Sound(t) && Told(t.a, acked, got)
    ensures Told(AfterOpen(t, bidi).a, acked, got)
  {
    var id := NextOf(t.b, bidi);
    TakeNextKeeps(t.b, bidi, t.a.strms.Keys, t.a.charged.Keys + t.a.sent.Keys);
    ToldAdd(t.a, acked, got, id, NewStrm(t.window, t.peerWindow).(shutRd := !bidi));
  }

  lemma {:induction false} ToldAnnounceStreams(t: Endpoint, acked: seq<Piece>, got: seq<Piece>)
    requires Told(t.a, acked, got)
    ensures Told(AfterAnnounceStreams(t).a, acked, got)
    decreases |t.waiting|
  {
    if t.waiting != [] {
      var id := t.waiting[0];
      if id in t.a.strms { ToldChanged(t, acked, got, id, AdvertisedRx(t.a.strms[id])); }
      ToldAnnounceStreams(AnnounceFirst(t), acked, got);
    }
  }

  lemma ToldOther(t: Endpoint, acked: seq<Piece>, got: seq<Piece>, e: Event)
    requires Sound(t) && Told(t.a, acked, got)
    ensures Told(AfterOther(t, e).a, acked, got)
  {
    match e
    case ResetIn(id, final) => ToldReset(t, acked, got, id, final);
    case StopSendingIn(id) => ToldStop(t, acked, got, id);
    case MaxStreamDataIn(id, limit) => ToldMaxStreamData(t, acked, got, id, limit);
    case _ => ToldLocal(t, acked, got, e);
  }

  lemma ToldLocal(t: Endpoint, acked: seq<Piece>, got: seq<Piece>, e: Event)
    requires Sound(t) && Told(t.a, acked, got) && !e.ResetIn? && !e.StopSendingIn? && !e.MaxStreamDataIn?
    ensures Told(AfterOther(t, e).a, acked, got)
  {
    match e
    case Open(bidi) => ToldOpen(t, acked, got, bidi);
    case StopWriting(id, code) => ToldShutdown(t, acked, got, id, code);
    case StopReading(id, code) => ToldShutdown(t, acked, got, id, code);
    case Consume(id, n) => ToldConsume(t, acked, got, id, n);
    case AnnounceStreams => ToldAnnounceStreams(t, acked, got);
    case _ =>
  }

  lemma ToldShutdown(t: Endpoint, acked: seq<Piece>, got: seq<Piece>, id: nat, code: nat)
    requires Told(t.a, acked, got)
    ensures Told(AfterStopWriting(t, id, code).a, acked, got) && Told(AfterStopReading(t, id, code).a, acked, got)
  {
    if ShutdownStatus(t, id, code) == Ok {
      ToldChanged(t, acked, got, id, StopOf(t.a.strms[id]));
      ToldChanged(t, acked, got, id, t.a.strms[id].(stopSending := true));
    }
  }

  lemma ToldConsume(t: Endpoint, acked: seq<Piece>, got: seq<Piece>, id: nat, n: nat)
    requires Told(t.a, acked, got)
    ensures Told(AfterConsume(t, id, n).a, acked, got)
  {
    if id in t.a.strms { ToldChanged(t, acked, got, id, RaisedRx(t.a.strms[id], n)); }
  }

  // ----- runs -----

  /** What every run keeps. */
  ghost predicate Whole(s: State) {
    Sound(s.t) && Recorded(s.t.a, s.written) && Told(s.t.a, s.acked, s.got)
  }

  lemma OtherKeeps(t: Endpoint, e: Event)
    requires Sound(t) && Possible(e)
    ensures Sound(AfterOther(t, e)) && Advances(t, AfterOther(t, e))
  {
    match e
    case ResetIn(id, final) => ResetKeeps(t, id, final);
    case StopSendingIn(id) => StopKeeps(t, id);
    case MaxStreamDataIn(id, limit) => MaxStreamDataKeeps(t, id, limit);
    case MaxDataIn(limit) => MaxDataKeeps(t, limit);
    case MaxStreamIdIn(limit) => MaxStreamIdKeeps(t, limit);
    case Open(bidi) => OpenKeeps(t, bidi);
    case StopWriting(id, code) => ShutdownKeeps(t, id, code);
    case StopReading(id, code) => ShutdownKeeps(t, id, code);
    case Consume(id, n) => ConsumeFits(t, id, n);
    case ConsumeAll(n) => ConsumeAllKeeps(t, n);
    case AnnounceData(riding) => AnnounceDataKeeps(t, riding);
    case AnnounceStreams => AnnounceStreamsKeeps(t);
    case AnnounceIds(bidi) => AnnounceIdsKeeps(t, bidi);
    case _ => Same(t.a);
  }

  lemma ConsumeFits(t: Endpoint, id: nat, n: nat)
    requires Sound(t) && n <= MAX_VARINT
    ensures Sound(AfterConsume(t, id, n)) && Advances(t, AfterConsume(t, id, n))
  {
    ConsumeKeeps(t, id, n);
    if id in t.a.strms { LiveAt(t, id); }
  }

  lemma WriteWhole(s: State, id: nat, data: seq<byte>, fin: bool, left: nat) returns (s': State)
    requires Whole(s) && WriteStatus(s.t, id, data, left) == Ok
    ensures s'.t == AfterWrite(s.t, id, data, fin, left)
    ensures s' == s.(t := s'.t, written := s.written + [Piece(id, WrittenFrame(s.t, id, data, fin, left))])
    ensures Whole(s') && IdsGrow(s.t.b, s'.t.b)
  {
    var fr := WrittenFrame(s.t, id, data, fin, left);
    WriteForm(s.t, id, data, fin, left, fr);
    var t' := WriteKeeps(s.t, id, data, fin, left);
    WriteRecords(s, id, fr, t');
    s' := s.(t := t', written := s.written + [Piece(id, fr)]);
  }

  lemma WriteRecords(s: State, id: nat, fr: StreamFrame, t': Endpoint)
    requires Whole(s) && id in s.t.a.strms && !s.t.a.strms[id].shutWr && fr.offset == s.t.a.strms[id].tx
    requires t' == Stored(s.t, id, Sent(s.t.a.strms[id], |fr.data|, fr.fin), ChargedTo(s.t.a, id), SentBytes(s.t.a, id) + fr.data)
    requires SentGrows(s.t.a, t'.a)
    ensures Recorded(t'.a, s.written + [Piece(id, fr)]) && Told(t'.a, s.acked, s.got)
  {
    var a, strm := s.t.a, Sent(s.t.a.strms[id], |fr.data|, fr.fin);
    OpenAt(a.strms, a.charged, a.sent, id, a.strms[id]);
    RecordedNext(a, t'.a, s.written, id, strm, fr);
    ToldPut(a, s.acked, s.got, id, strm, ChargedTo(a, id), SentBytes(a, id) + fr.data);
  }

  lemma StreamWhole(s: State, id: nat, fr: StreamFrame) returns (s': State)
    requires Whole(s) && StreamStatus(s.t, id, fr) == Ok && 0 < id
    ensures s' == After(s, StreamIn(id, fr)) && Whole(s') && IdsGrow(s.t.b, s'.t.b)
  {
    s' := After(s, StreamIn(id, fr));
    StreamKeeps(s.t, id, fr);
    RecordedCalm(s.t.a, s'.t.a, s.written);
    ToldStream(s, id, fr);
  }

  lemma AckWholeStep(s: State, k: nat) returns (s': State)
    requires Whole(s) && k < |s.written|
    ensures s' == s.(t := AfterAck(s.t, s.written[k].id, s.written[k].frame), acked := s.acked + [s.written[k]])
    ensures Whole(s') && IdsGrow(s.t.b, s'.t.b)
  {
    var p := s.written[k];
    WrittenBound(s.t, s.written, k);
    AckKeeps(s.t, p.id, p.frame);
    s' := s.(t := AfterAck(s.t, p.id, p.frame), acked := s.acked + [p]);
    RecordedCalm(s.t.a, s'.t.a, s.written);
    ToldAck(s.t, s.acked, s.got, p);
  }

  lemma WrittenBound(t: Endpoint, ws: seq<Piece>, k: nat)
    requires Sound(t) && AllFaithful(t.a, ws) && k < |ws|
    ensures ws[k].id in t.a.sent && (ws[k].id in t.a.strms ==> ws[k].frame.End() <= t.a.strms[ws[k].id].tx)
  {
    assert Faithful(t.a, ws[k]);
    if ws[k].id in t.a.strms { OpenAt(t.a.strms, t.a.charged, t.a.sent, ws[k].id, t.a.strms[ws[k].id]); }
  }

  lemma OtherWhole(s: State, e: Event) returns (s': State)
    requires Whole(s) && Possible(e)
    ensures s' == s.(t := AfterOther(s.t, e)) && Whole(s') && IdsGrow(s.t.b, s'.t.b)
  {
    s' := s.(t := AfterOther(s.t, e));
    OtherKeeps(s.t, e);
    RecordedCalm(s.t.a, s'.t.a, s.written);
    ToldOther(s.t, s.acked, s.got, e);
  }

  lemma AfterIsAck(s: State, e: Event)
    requires e.AckIn?
    ensures After(s, e) == if e.k < |s.written| then
                             var p := s.written[e.k]; s.(t := AfterAck(s.t, p.id, p.frame), acked := s.acked + [p])
                           else s
  {
  }

  lemma AckStep(s: State, e: Event) returns (s': State)
    requires Whole(s) && e.AckIn?
    ensures s' == After(s, e) && Whole(s') && IdsGrow(s.t.b, s'.t.b)
  {
    AfterIsAck(s, e);
    s' := s;
    if e.k < |s.written| { s' := AckWholeStep(s, e.k); }
  }

  lemma AfterIsWrite(s: State, e: Event, s': State)
    requires e.Write? && WriteStatus(s.t, e.id, e.data, e.left) == Ok
    requires s' == s.(t := AfterWrite(s.t, e.id, e.data, e.fin, e.left),
                      written := s.written + [Piece(e.id, WrittenFrame(s.t, e.id, e.data, e.fin, e.left))])
    ensures s' == After(s, e)
  {
  }

  lemma AfterNoWrite(s: State, e: Event)
    requires e.Write? && WriteStatus(s.t, e.id, e.data, e.left) != Ok
    ensures s == After(s, e)
  {
  }

  lemma AfterIsWritten(s: State, e: Event)
    requires e.Write?
    ensures After(s, e).t == AfterWrite(s.t, e.id, e.data, e.fin, e.left)
  {
  }

  lemma WriteStep(s: State, e: Event) returns (s': State)
    requires Whole(s) && e.Write?
    ensures s' == After(s, e) && Whole(s') && IdsGrow(s.t.b, s'.t.b)
  {
    if WriteStatus(s.t, e.id, e.data, e.left) == Ok {
      s' := WriteWhole(s, e.id, e.data, e.fin, e.left);
      AfterIsWrite(s, e, s');
    } else {
      AfterNoWrite(s, e);
      s' := s;
    }
  }

  lemma AfterIsOther(s: State, e: Event)
    requires !e.StreamIn? && !e.AckIn? && !e.Write?
    ensures After(s, e) == s.(t := AfterOther(s.t, e))
  {
  }

  /** Every step that does not end the connection. */
  lemma StepKeeps(s: State, e: Event) returns (s': State)
    requires Whole(s) && Possible(e) && Answer(s.t, e) == Ok
    ensures s' == After(s, e) && Whole(s') && IdsGrow(s.t.b, s'.t.b)
  {
    if e.StreamIn? {
      s' := StreamWhole(s, e.id, e.frame);
    } else if e.AckIn? {
      s' := AckStep(s, e);
    } else if e.Write? {
      s' := WriteStep(s, e);
    } else {
      s' := OtherWhole(s, e);
      AfterIsOther(s, e);
    }
  }

  /** From `s`, event `e` leads to `s'`, and does not end the connection. */
  ghost predicate LeadsTo(s: State, e: Event, s': State) {
    Possible(e) && Answer(s.t, e) == Ok && s' == After(s, e)
  }

  /** The states of a run: one before and after each of the events, none of which ends the connection. */
  ghost predicate Run(states: seq<State>, events: seq<Event>) {
    && |states| == |events| + 1
    && (forall i {:trigger events[i]} :: 0 <= i < |events| ==> LeadsTo(states[i], events[i], states[i + 1]))
  }

  lemma BeginningWhole(server: bool, local: Settings, remote: Settings)
    ensures Whole(Beginning(server, local, remote))
  {
    StartSound(server, local);
    ParamsKeep(Start(server, local), remote);
  }

  lemma {:induction false} RunStays(states: seq<State>, events: seq<Event>, n: nat)
    requires Run(states, events) && n <= |events| && Whole(states[0])
    ensures Whole(states[n]) && IdsGrow(states[0].t.b, states[n].t.b)
  {
    if n > 0 {
      RunStays(states, events, n - 1);
      StepStays(states[n - 1], events[n - 1], states[n]);
    }
  }

  lemma StepStays(s: State, e: Event, s': State)
    requires Whole(s) && LeadsTo(s, e, s')
    ensures Whole(s') && IdsGrow(s.t.b, s'.t.b)
  {
    var r := StepKeeps(s, e);
  }

  /**
   Any run from a fresh connection, up to its first error: the accounts balance, the frames
   written tile what was sent, the gap lists of all streams say exactly what was acknowledged
   and received, closed streams are complete, and the peer has no more streams than it was
   first allowed.
   */
  lemma RunKeeps(server: bool, local: Settings, remote: Settings, states: seq<State>, events: seq<Event>, n: nat)
    requires Run(states, events) && states[0] == Beginning(server, local, remote) && n <= |events|
    ensures Whole(states[n])
    ensures |PeerStreams(states[n].t.a, states[n].t.b, true)| <= local.maxIdBidi / 4 + 1
    ensures |PeerStreams(states[n].t.a, states[n].t.b, false)| <= local.maxIdUni / 4 + 1
  {
    BeginningWhole(server, local, remote);
    RunStays(states, events, n);
    PeerStreamsBounded(states[n].t.a, states[n].t.b, true);
    PeerStreamsBounded(states[n].t.a, states[n].t.b, false);
  }
}
