/**
 What the steps of a connection achieve: limits are taken over and announced, stopped streams
 carry no more, and new streams have the sides they should.
 */
module Effects {
  import opened Basics
  import opened StreamReceive
  import opened Streams
  import opened Ledger
  import opened Machine
  import opened History

  // ----- limits set by the peer -----

  /** A limit that is heard of is in force, unless a higher one was before. */
  predicate Heeds(before: nat, limit: nat, after: nat) {
    before <= after && limit <= after && (after == before || after == limit)
  }

  lemma LimitsHeeded(t: Endpoint, limit: nat)
    ensures Heeds(t.a.maxTx, limit, AfterMaxData(t, limit).a.maxTx)
    ensures limit % 4 < 2 ==> Heeds(t.maxLocalBidi, limit, AfterMaxStreamId(t, limit).maxLocalBidi)
    ensures limit % 4 >= 2 ==> Heeds(t.maxLocalUni, limit, AfterMaxStreamId(t, limit).maxLocalUni)
  {
  }

  lemma StreamLimitHeeded(t: Endpoint, id: nat, limit: nat)
    requires Admission(t.b, id) == Ok && id in Found(t, id).a.strms
    ensures var t' := AfterMaxStreamData(t, id, limit);
            id in t'.a.strms && Heeds(Found(t, id).a.strms[id].maxTx, limit, t'.a.strms[id].maxTx)
  {
  }

  // ----- credit given to the peer -----

  /** What is to be announced for the connection is announced with other frames, and else once it is more than half a window. */
  lemma DataAnnounced(t: Endpoint, riding: bool)
    requires Sound(t)
    ensures var t' := AfterAnnounceData(t, riding);
            && t'.a.unsentMaxRx == t.a.unsentMaxRx && t.a.maxRx <= t'.a.maxRx
            && (t'.a.maxRx == t'.a.unsentMaxRx || (!riding && t'.a.unsentMaxRx - t'.a.maxRx <= t.dataWindow / 2))
            && (t'.a.maxRx != t.a.maxRx ==> riding || t.dataWindow / 2 < t'.a.maxRx - t.a.maxRx)
  {
    CreditLeft(t);
  }

  lemma RaisedBy(s: Strm, n: nat, window: nat)
    requires ValidStrm(s) && s.unsentMaxRx + n <= MAX_VARINT
    ensures var s' := RaisedRx(s, n);
            s' == s.(unsentMaxRx := s.unsentMaxRx + n) && (WorthAnnouncing(s', window) <==> window / 2 < s'.unsentMaxRx - s'.maxRx)
  {
  }

  lemma ConsumeIs(t: Endpoint, id: nat, n: nat, s': Strm)
    requires id in t.a.strms && s' == RaisedRx(t.a.strms[id], n)
    ensures AfterConsume(t, id, n).a.strms[id] == s'
    ensures id in AfterConsume(t, id, n).waiting <==> id in t.waiting || (!s'.shutRd && !s'.stopSending && WorthAnnouncing(s', t.window))
  {
  }

  /** What the application has consumed is announced for a stream that is still read, once it is more than half a window. */
  lemma ConsumedListed(t: Endpoint, id: nat, n: nat)
    requires Sound(t) && id in t.a.strms && t.a.strms[id].unsentMaxRx + n <= MAX_VARINT
    ensures var t' := AfterConsume(t, id, n); var s, s' := t.a.strms[id], t'.a.strms[id];
            && s' == s.(unsentMaxRx := s.unsentMaxRx + n)
            && (id in t'.waiting <==> id in t.waiting || (!s.shutRd && !s.stopSending && t.window / 2 < s'.unsentMaxRx - s'.maxRx))
  {
    LiveAt(t, id);
    RaisedBy(t.a.strms[id], n, t.window);
    ConsumeIs(t, id, n, RaisedRx(t.a.strms[id], n));
  }

  /** MAX_STREAM_DATA goes out for every stream that waits, and for no other. */
  ghost predicate Announced(t: Endpoint, t': Endpoint) {
    && t'.waiting == [] && t'.a.strms.Keys == t.a.strms.Keys
    && forall x {:trigger t'.a.strms[x]} :: x in t'.a.strms ==>
         t'.a.strms[x] == if x in t.waiting then t.a.strms[x].(maxRx := t.a.strms[x].unsentMaxRx) else t.a.strms[x]
  }

  lemma {:induction false} StreamsAnnounced(t: Endpoint)
    ensures Announced(t, AfterAnnounceStreams(t))
    decreases |t.waiting|
  {
    if t.waiting != [] {
      var u := AnnounceFirst(t);
      FirstAnnounced(t, u);
      StreamsAnnounced(u);
      AnnouncedMore(t, u, AfterAnnounceStreams(t));
    }
  }

  lemma FirstAnnounced(t: Endpoint, u: Endpoint)
    requires t.waiting != [] && u == AnnounceFirst(t)
    ensures u.waiting == t.waiting[1..] && u.a.strms.Keys == t.a.strms.Keys
    ensures forall x {:trigger u.a.strms[x]} :: x in u.a.strms ==>
              u.a.strms[x] == if x == t.waiting[0] then t.a.strms[x].(maxRx := t.a.strms[x].unsentMaxRx) else t.a.strms[x]
  {
  }

  lemma AnnouncedMore(t: Endpoint, u: Endpoint, v: Endpoint)
    requires t.waiting != [] && u.waiting == t.waiting[1..] && u.a.strms.Keys == t.a.strms.Keys && Announced(u, v)
    requires forall x {:trigger u.a.strms[x]} :: x in u.a.strms ==>
               u.a.strms[x] == if x == t.waiting[0] then t.a.strms[x].(maxRx := t.a.strms[x].unsentMaxRx) else t.a.strms[x]
    ensures Announced(t, v)
  {
    assert t.waiting == [t.waiting[0]] + u.waiting;
    forall x | x in v.a.strms
      ensures v.a.strms[x] == if x in t.waiting then t.a.strms[x].(maxRx := t.a.strms[x].unsentMaxRx) else t.a.strms[x]
    {
      assert v.a.strms[x] == if x in u.waiting then u.a.strms[x].(maxRx := u.a.strms[x].unsentMaxRx) else u.a.strms[x];
    }
  }

  lemma IdsAnnounced(t: Endpoint, bidi: bool)
    ensures var b, b' := t.b, AfterAnnounceIds(t, bidi).b;
            if bidi then b'.bidi.max == b'.bidi.unsent == b.bidi.unsent && b'.uni == b.uni
            else b'.uni.max == b'.uni.unsent == b.uni.unsent && b'.bidi == b.bidi
  {
  }

  /** All that the application said it has consumed in the first `n` events. */
  ghost function Consumed(events: seq<Event>, n: nat): nat
    requires n <= |events|
  {
    if n == 0 then 0 else Consumed(events, n - 1) + if events[n - 1].ConsumeAll? then events[n - 1].n else 0
  }

  /** Over any run, the connection's limit, announced or not, is the initial one and what was consumed, up to 2^62 - 1. */
  lemma {:induction false} RunCredit(states: seq<State>, events: seq<Event>, n: nat)
    requires Run(states, events) && n <= |events| && states[0].t.a.unsentMaxRx <= MAX_VARINT
    ensures states[n].t.a.unsentMaxRx == Min(MAX_VARINT, states[0].t.a.unsentMaxRx + Consumed(events, n))
  {
    if n > 0 {
      RunCredit(states, events, n - 1);
      assert LeadsTo(states[n - 1], events[n - 1], states[n]);
      StepCredit(states[n - 1], events[n - 1], states[n]);
    }
  }

  lemma StepCredit(s: State, e: Event, s': State)
    requires LeadsTo(s, e, s')
    ensures s'.t.a.unsentMaxRx == if e.ConsumeAll? then Min(MAX_VARINT, s.t.a.unsentMaxRx + e.n) else s.t.a.unsentMaxRx
  {
    if e.StreamIn? {
      StreamCredit(s.t, e.id, e.frame);
    } else if e.AckIn? {
      AfterIsAck(s, e);
    } else if e.Write? {
      AfterIsWritten(s, e);
    } else {
      AfterIsOther(s, e);
      OtherCredit(s.t, e);
    }
  }

  lemma StreamCredit(t: Endpoint, id: nat, fr: StreamFrame)
    ensures AfterStream(t, id, fr).a.unsentMaxRx == t.a.unsentMaxRx
  {
  }

  lemma {:induction false} AnnounceCredit(t: Endpoint)
    ensures AfterAnnounceStreams(t).a.unsentMaxRx == t.a.unsentMaxRx
    decreases |t.waiting|
  {
    if t.waiting != [] { AnnounceCredit(AnnounceFirst(t)); }
  }

  lemma OtherCredit(t: Endpoint, e: Event)
    ensures AfterOther(t, e).a.unsentMaxRx == if e.ConsumeAll? then Min(MAX_VARINT, t.a.unsentMaxRx + e.n) else t.a.unsentMaxRx
  {
    if e.AnnounceStreams? { AnnounceCredit(t); }
  }

  // ----- the start -----

  /** An endpoint starts with the limits that it has set, and those that the peer has set for it. */
  lemma StartLimits(server: bool, local: Settings, remote: Settings)
    ensures var t := Beginning(server, local, remote).t;
            && t.a.maxRx == t.a.unsentMaxRx == t.dataWindow == local.maxData && t.window == local.maxStreamData
            && t.b.bidi.max == t.b.bidi.unsent == local.maxIdBidi && t.b.uni.max == t.b.uni.unsent == local.maxIdUni
            && t.a.maxTx == remote.maxData && t.peerWindow == remote.maxStreamData
            && t.maxLocalBidi == remote.maxIdBidi && t.maxLocalUni == remote.maxIdUni
            && NextOf(t.b, true) == (if server then 1 else 4) && NextOf(t.b, false) == (if server then 3 else 2)
  {
  }

  // ----- new streams -----

  /** A stream opened here can be written on, and read if it is bidirectional; it has the limits first given by both sides. */
  lemma OpenedSides(t: Endpoint, bidi: bool)
    requires OpenStatus(t, bidi) == Ok
    ensures var id, t' := NextOf(t.b, bidi), AfterOpen(t, bidi);
            && id in t'.a.strms && !t'.a.strms[id].shutWr && (t'.a.strms[id].shutRd <==> !bidi) && NextOf(t'.b, bidi) == id + 4
            && t'.a.strms[id].maxRx == t'.a.strms[id].unsentMaxRx == t.window && t'.a.strms[id].maxTx == t.peerWindow
  {
  }

  /** A stream opened by the peer can be read, and written on if it is bidirectional. */
  lemma FoundSides(t: Endpoint, id: nat)
    requires Opens(t, id)
    ensures var t' := Found(t, id);
            && id in t'.a.strms && !t'.a.strms[id].shutRd && (t'.a.strms[id].shutWr <==> id % 4 >= 2)
            && t'.a.strms[id].maxRx == t'.a.strms[id].unsentMaxRx == t.window && t'.a.strms[id].maxTx == t.peerWindow
  {
  }

  // ----- the end of a stream -----

  /** Nothing can be written on the stream. */
  predicate Silenced(t: Endpoint, id: nat) { id in t.a.strms ==> t.a.strms[id].shutWr }

  lemma SilencedRefuses(t: Endpoint, id: nat, data: seq<byte>, left: nat)
    requires Silenced(t, id)
    ensures WriteStatus(t, id, data, left) == ErrStreamNotFound || WriteStatus(t, id, data, left) == ErrStreamShutWr
  {
  }

  /** After STOP_SENDING, a reset by the application, or a frame with fin, nothing more is written on the stream. */
  lemma Silences(t: Endpoint, id: nat, code: nat, data: seq<byte>, left: nat)
    requires Sound(t)
    ensures StopStatus(t, id) == Ok ==> Silenced(AfterStop(t, id), id)
    ensures ShutdownStatus(t, id, code) == Ok ==> Silenced(AfterStopWriting(t, id, code), id)
    ensures WriteStatus(t, id, data, left) == Ok && WrittenFrame(t, id, data, true, left).fin ==> Silenced(AfterWrite(t, id, data, true, left), id)
  {
    if id in t.a.strms { LiveAt(t, id); }
    SilencesAll(t, id, code, data, left);
  }

  lemma SilencesAll(t: Endpoint, id: nat, code: nat, data: seq<byte>, left: nat)
    requires id in t.a.strms && t.a.strms[id].sentRst ==> t.a.strms[id].shutWr
    ensures StopStatus(t, id) == Ok ==> Silenced(AfterStop(t, id), id)
    ensures ShutdownStatus(t, id, code) == Ok ==> Silenced(AfterStopWriting(t, id, code), id)
    ensures WriteStatus(t, id, data, left) == Ok && WrittenFrame(t, id, data, true, left).fin ==> Silenced(AfterWrite(t, id, data, true, left), id)
  {
  }

  /** Once the application has stopped reading, no data of the stream is taken in. */
  lemma StopReadingStops(t: Endpoint, id: nat, code: nat, fr: StreamFrame)
    requires ShutdownStatus(t, id, code) == Ok
    ensures !Taking(AfterStopReading(t, id, code), id, fr)
  {
  }

  /** The first reset of a stream charges the connection up to the final offset, and no more is read from the stream. */
  lemma ResetCharges(t: Endpoint, id: nat, final: nat)
    requires Sound(t) && ResetStatus(t, id, final) == Ok && (Opens(t, id) || (id in t.a.strms && !t.a.strms[id].recvRst))
    ensures var t' := AfterReset(t, id, final);
            && ChargedTo(t'.a, id) == final && t'.a.rx == t.a.rx + (final - ChargedTo(t.a, id))
            && (id in t'.a.strms ==> t'.a.strms[id].shutRd && t'.a.strms[id].recvRst)
  {
    if id in t.a.strms {
      LiveAt(t, id);
      OpenAt(t.a.strms, t.a.charged, t.a.sent, id, t.a.strms[id]);
      var s, c := ResetOf(t.a.strms[id]), ChargedTo(t.a, id) + (final - t.a.strms[id].lastRx);
      ResetStrmIs(t, id, final, s, c);
      AbsorbedCharges(t, id, s, c, t.waiting);
    } else {
      ClaimedKeeps(t, id, false);
    }
  }

  lemma AbsorbedCharges(t: Endpoint, id: nat, s: Strm, c: nat, waiting: seq<nat>)
    requires ChargedTo(t.a, id) <= c
    ensures var t' := Absorbed(t, id, s, c, waiting, true);
            ChargedTo(t'.a, id) == c && t'.a.rx == t.a.rx + (c - ChargedTo(t.a, id)) && (id in t'.a.strms ==> t'.a.strms[id] == s)
  {
  }

  /** A frame that contradicts the final offset is charged for what it would have brought, although it is refused. */
  lemma RefusalCharges(t: Endpoint, id: nat, fr: StreamFrame)
    requires id in t.a.strms && PreCheck(t.b, id, fr) == Ok
    ensures StreamStatus(t, id, fr) == ErrFinalOffset && t.a.strms[id].lastRx < fr.End() ==>
              AfterStream(t, id, fr).a.rx == t.a.rx + (fr.End() - t.a.strms[id].lastRx)
    ensures StreamStatus(t, id, fr) != Ok && !(StreamStatus(t, id, fr) == ErrFinalOffset && t.a.strms[id].lastRx < fr.End()) ==>
              AfterStream(t, id, fr).a.rx == t.a.rx
  {
  }
}
