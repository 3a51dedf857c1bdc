/**
 Credit between two connections: once an announcement has arrived, the sender may use all that the
 receiver has to give, and no more.
 */
module PeerCredit {
  import opened StreamReceive
  import opened Ledger
  import opened Machine
  import opened History
  import opened PeerFrames
  import opened Peers
  import opened PeerRun
  import opened Effects

  /** `q` makes a step of its own, which tells something to `p`, and `p` hears it. */
  ghost predicate Tells(q: State, e: Event, q': State, p: State, heard: Event, p': State) {
    && Linked(p, q) && LeadsTo(q, e, q') && Sendable(p, e)
    && LeadsTo(p, heard, p') && Sendable(q', heard)
  }

  /** What `p` may send and open is within what `q` has granted. */
  ghost predicate Within(p: Endpoint, q: Endpoint, id: nat) {
    && p.a.maxTx <= q.a.maxRx && p.maxLocalBidi <= q.b.bidi.max && p.maxLocalUni <= q.b.uni.max
    && (id in p.a.strms ==> p.a.strms[id].maxTx <= Offered(q, id))
  }

  lemma LinkedWithin(p: State, q: State, id: nat)
    requires Linked(p, q)
    ensures Within(p.t, q.t, id) && Sound(p.t) && Sound(q.t) && p.t.b.server != q.t.b.server
  {
  }

  lemma ToldWithin(q: State, e: Event, q': State, p: State, heard: Event, p': State, id: nat)
    requires Tells(q, e, q', p, heard, p') && !e.StreamIn? && !e.AckIn? && !e.Write? && !heard.StreamIn? && !heard.AckIn? && !heard.Write?
    ensures q'.t == AfterOther(q.t, e) && p'.t == AfterOther(p.t, heard) && Answer(p.t, heard) == Ok
    ensures Within(p'.t, q'.t, id) && Sound(q.t) && Sound(p'.t) && Sound(q'.t) && p'.t.b.server != q'.t.b.server
  {
    MoveKeeps(q, e, q', p);
    MoveKeeps(p, heard, p', q');
    AfterIsOther(q, e);
    AfterIsOther(p, heard);
    LinkedWithin(p', q', id);
    LinkedWithin(p, q, id);
  }

  lemma AnnouncedIs(t: Endpoint, e: Event)
    ensures e.AnnounceData? ==> AfterOther(t, e) == AfterAnnounceData(t, e.riding)
    ensures e.AnnounceStreams? ==> AfterOther(t, e) == AfterAnnounceStreams(t)
    ensures e.AnnounceIds? ==> AfterOther(t, e) == AfterAnnounceIds(t, e.bidi)
  {
  }

  lemma HeardIs(t: Endpoint, e: Event)
    ensures e.MaxDataIn? ==> AfterOther(t, e) == AfterMaxData(t, e.limit)
    ensures e.MaxStreamDataIn? ==> AfterOther(t, e) == AfterMaxStreamData(t, e.id, e.limit) && Answer(t, e) == Admission(t.b, e.id)
    ensures e.MaxStreamIdIn? ==> AfterOther(t, e) == AfterMaxStreamId(t, e.limit)
  {
  }

  /** After MAX_DATA, what may be sent is exactly what may be received, which is all that the application has freed. */
  lemma DataReaches(q: State, e: Event, q': State, p: State, heard: Event, p': State)
    requires Tells(q, e, q', p, heard, p') && e.AnnounceData? && e.riding && heard.MaxDataIn? && heard.limit == q'.t.a.maxRx
    ensures p'.t.a.maxTx == q'.t.a.maxRx == q.t.a.unsentMaxRx
  {
    ToldWithin(q, e, q', p, heard, p', 0);
    AnnouncedIs(q.t, e);
    HeardIs(p.t, heard);
    DataAt(q.t, q'.t, p.t, p'.t);
  }

  lemma DataAt(q: Endpoint, q': Endpoint, p: Endpoint, p': Endpoint)
    requires q' == AfterAnnounceData(q, true) && p' == AfterMaxData(p, q'.a.maxRx) && Sound(q) && Within(p', q', 0)
    ensures p'.a.maxTx == q'.a.maxRx == q.a.unsentMaxRx
  {
    DataAnnounced(q, true);
    LimitsHeeded(p, q'.a.maxRx);
  }

  /** The same for a stream that waits for MAX_STREAM_DATA, if it still exists at the sender. */
  lemma StreamReaches(q: State, e: Event, q': State, p: State, heard: Event, p': State, id: nat, limit: nat)
    requires id in q.t.waiting && id in q'.t.a.strms && limit == q'.t.a.strms[id].maxRx && id in p'.t.a.strms
    requires Tells(q, e, q', p, heard, p') && e.AnnounceStreams? && heard.MaxStreamDataIn? && heard.id == id && heard.limit == limit
    ensures id in q.t.a.strms && p'.t.a.strms[id].maxTx == limit == q.t.a.strms[id].unsentMaxRx
  {
    ToldWithin(q, e, q', p, heard, p', id);
    AnnouncedIs(q.t, e);
    HeardIs(p.t, heard);
    StreamAt(q.t, q'.t, p.t, p'.t, id, limit);
  }

  lemma StreamAt(q: Endpoint, q': Endpoint, p: Endpoint, p': Endpoint, id: nat, limit: nat)
    requires q' == AfterAnnounceStreams(q) && p' == AfterMaxStreamData(p, id, limit) && Admission(p.b, id) == Ok && Within(p', q', id)
    requires id in q.waiting && id in q'.a.strms && limit == q'.a.strms[id].maxRx && id in p'.a.strms
    ensures id in q.a.strms && p'.a.strms[id].maxTx == limit == q.a.strms[id].unsentMaxRx
  {
    StreamsAnnounced(q);
    HeardOn(p, id, limit);
  }

  lemma HeardOn(t: Endpoint, id: nat, limit: nat)
    requires Admission(t.b, id) == Ok && id in AfterMaxStreamData(t, id, limit).a.strms
    ensures limit <= AfterMaxStreamData(t, id, limit).a.strms[id].maxTx
  {
    StreamLimitHeeded(t, id, limit);
  }

  /** After MAX_STREAM_ID, a stream can be opened exactly if the other endpoint admits it. */
  lemma IdsReach(q: State, e: Event, q': State, p: State, heard: Event, p': State, bidi: bool, max: nat)
    requires max == (if bidi then q'.t.b.bidi.max else q'.t.b.uni.max) && (max % 4 < 2 <==> bidi)
    requires Tells(q, e, q', p, heard, p') && e.AnnounceIds? && e.bidi == bidi && heard.MaxStreamIdIn? && heard.limit == max
    ensures max == if bidi then q.t.b.bidi.unsent else q.t.b.uni.unsent
    ensures OpenStatus(p'.t, bidi) == Ok <==> Admission(q'.t.b, NextOf(p'.t.b, bidi)) == Ok
  {
    ToldWithin(q, e, q', p, heard, p', 0);
    AnnouncedIs(q.t, e);
    HeardIs(p.t, heard);
    IdsAt(q.t, q'.t, p.t, p'.t, bidi, max);
  }

  lemma IdsAt(q: Endpoint, q': Endpoint, p: Endpoint, p': Endpoint, bidi: bool, max: nat)
    requires q' == AfterAnnounceIds(q, bidi) && p' == AfterMaxStreamId(p, max) && Sound(p') && Within(p', q', 0) && p'.b.server != q'.b.server
    requires max == (if bidi then q'.b.bidi.max else q'.b.uni.max) && (max % 4 < 2 <==> bidi)
    ensures max == if bidi then q.b.bidi.unsent else q.b.uni.unsent
    ensures OpenStatus(p', bidi) == Ok <==> Admission(q'.b, NextOf(p'.b, bidi)) == Ok
  {
    IdsAnnounced(q, bidi);
    LimitsHeeded(p, max);
    OpenedNew(p', bidi);
    AdmittedIff(p', q', bidi, max);
  }

  lemma AdmittedIff(p: Endpoint, q: Endpoint, bidi: bool, max: nat)
    requires p.b.server != q.b.server && LocalStream(p.b.server, NextOf(p.b, bidi)) && BidiStream(NextOf(p.b, bidi)) == bidi
    requires if bidi then p.maxLocalBidi == q.b.bidi.max else p.maxLocalUni == q.b.uni.max
    ensures OpenStatus(p, bidi) == Ok <==> Admission(q.b, NextOf(p.b, bidi)) == Ok
  {
    OneSide(p, q, NextOf(p.b, bidi));
  }
}
