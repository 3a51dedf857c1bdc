/**
 Two connections that talk to each other: what one has sent, and may send, is covered by what the
 other has granted; so a frame that one writes is refused by the other only in two cases.
 */
module Peers {
  import opened Basics
  import opened StreamReceive
  import opened FlowControl
  import opened Streams
  import opened Ledger
  import opened Steps
  import opened Machine
  import opened History
  import opened PeerFrames

  /** Only the endpoint at `q` sends on the stream. */
  predicate OneWay(q: Endpoint, x: nat) { LocalStream(q.b.server, x) && !BidiStream(x) }

  // ----- credit -----

  ghost predicate LimitsBacked(p: Endpoint, q: Endpoint) {
    forall x {:trigger p.a.strms[x]} :: x in p.a.strms ==> p.a.strms[x].maxTx <= Offered(q, x)
  }

  ghost predicate SentBacked(p: Endpoint, q: Endpoint) {
    forall x: nat {:trigger SentOn(p.a, x)} :: SentOn(p.a, x) <= Offered(q, x)
  }

  ghost predicate ChargeBacked(p: Endpoint, q: Endpoint) {
    forall x: nat {:trigger ChargedTo(q.a, x)} :: ChargedTo(q.a, x) <= SentOn(p.a, x)
  }

  ghost predicate Roomy(q: Endpoint) {
    forall x: nat {:trigger Offered(q, x)} :: q.window <= Offered(q, x)
  }

  /** The limits under which `p` sends, and what it has sent, are covered by what `q` has granted. */
  ghost predicate Backed(p: Endpoint, q: Endpoint) {
    && p.b.server != q.b.server && p.peerWindow == q.window && p.a.maxTx <= q.a.maxRx
    && LimitsBacked(p, q) && SentBacked(p, q) && ChargeBacked(p, q) && Roomy(q)
  }

  /** What `p` has sent on a stream fits into the credit that the connection at `q` has left for it. */
  lemma CreditFits(p: Endpoint, q: Endpoint, id: nat, end: nat)
    requires Sound(p) && Sound(q) && Backed(p, q) && ChargedTo(q.a, id) <= end <= SentOn(p.a, id)
    ensures q.a.rx + (end - ChargedTo(q.a, id)) <= q.a.maxRx
  {
    var m, m' := q.a.charged[id := end], Lengths(p.a.sent);
    TotalUpdate(q.a.charged, id, end);
    forall x: nat ensures At(m, x) <= At(m', x) {
      assert ChargedTo(q.a, x) <= SentOn(p.a, x);
    }
    TotalMono(m, m');
  }

  // ----- ends of streams -----

  /** Nothing more is sent on the stream by `p`. */
  predicate Over(p: Endpoint, q: Endpoint, x: nat) { if x in p.a.sent then Finished(p.a, x) else OneWay(q, x) }

  /** The end of the stream, open or closed, is not known at `q`, or it is that of what `p` has sent on it. */
  ghost predicate EndRight(p: Endpoint, q: Endpoint, x: nat) {
    Has(q, x) && StrmOf(q, x).shutRd && !StrmOf(q, x).recvRst ==> StrmOf(q, x).lastRx == SentOn(p.a, x) && Over(p, q, x)
  }

  ghost predicate EndsKnown(p: Endpoint, q: Endpoint) {
    forall x: nat {:trigger Has(q, x)} :: EndRight(p, q, x)
  }

  ghost predicate Silent(p: Endpoint, q: Endpoint) {
    forall x {:trigger p.a.sent[x]} :: x in p.a.sent && OneWay(q, x) ==> p.a.sent[x] == [] && Finished(p.a, x)
  }

  ghost predicate Admitted(p: Endpoint, q: Endpoint) {
    forall x {:trigger p.a.sent[x]} :: x in p.a.sent ==> Admission(q.b, x) == Ok
  }

  /** The endpoints agree on where streams end, and on which of them there are. */
  ghost predicate Agreed(p: Endpoint, q: Endpoint) {
    && EndsKnown(p, q) && Silent(p, q) && Admitted(p, q)
    && p.maxLocalBidi <= q.b.bidi.max && p.maxLocalUni <= q.b.uni.max
  }

  ghost predicate Linked(p: State, q: State) {
    Whole(p) && Whole(q) && Backed(p.t, q.t) && Backed(q.t, p.t) && Agreed(p.t, q.t) && Agreed(q.t, p.t)
  }

  // ----- the decision on a frame -----

  /** A frame that brings something new on a stream that was reset before. */
  predicate Late(q: Endpoint, id: nat, end: nat) {
    id in q.a.strms && q.a.strms[id].recvRst && q.a.strms[id].lastRx < end
  }

  /** A reset that leaves its stream open makes late all that was still under way. */
  lemma LateAfterReset(q: Endpoint, id: nat, final: nat, end: nat)
    requires id in q.a.strms && ResetStatus(q, id, final) == Ok && !ShouldClose(ResetOf(q.a.strms[id]))
    requires q.a.strms[id].lastRx < end <= final
    ensures Late(AfterReset(q, id, final), id, end)
  {
    assert AfterReset(q, id, final).a.strms[id] == ResetOf(q.a.strms[id]);
  }

  lemma SentBound(p: Endpoint, id: nat)
    requires Sound(p) && id in p.a.sent
    ensures id != 0 && |p.a.sent[id]| <= MAX_VARINT
  {
    if id in p.a.strms { assert ValidStrm(p.a.strms[id]); } else { assert ValidStrm(p.a.closed[id]); }
  }

  /** A frame for a stream that `q` has: the decision on it. */
  lemma VerdictIs(p: Endpoint, q: Endpoint, id: nat, fr: StreamFrame)
    requires Sound(p) && Sound(q) && Backed(p, q) && EndsKnown(p, q) && id in q.a.strms
    requires !Blank(fr) && fr.End() <= SentOn(p.a, id) <= MAX_VARINT && (fr.fin ==> fr.End() == SentOn(p.a, id))
    ensures Verdict(q, id, fr).Accept? <==> !Late(q, id, fr.End())
  {
    var s := q.a.strms[id];
    LiveAt(q, id);
    OpenAt(q.a.strms, q.a.charged, q.a.sent, id, s);
    CreditLeft(q);
    assert Offered(q, id) == s.maxRx;
    assert ChargedTo(q.a, id) <= SentOn(p.a, id);
    assert Has(q, id) && EndRight(p, q, id);
    if !s.recvRst && s.lastRx < fr.End() { CreditFits(p, q, id, fr.End()); }
    DecisionIs(s, fr, Credit(q.a), SentOn(p.a, id));
  }

  lemma DecisionIs(s: Strm, fr: StreamFrame, credit: nat, sent: nat)
    requires ValidStrm(s) && !Blank(fr) && fr.End() <= sent <= MAX_VARINT && fr.End() <= s.maxRx && s.lastRx <= sent
    requires fr.fin ==> fr.End() == sent
    requires s.shutRd && !s.recvRst ==> s.lastRx == sent
    requires !s.recvRst && s.lastRx < fr.End() ==> fr.End() - s.lastRx <= credit
    ensures Decide(s.View(), fr, credit).Accept? <==> !(s.recvRst && s.lastRx < fr.End())
  {
  }

  // ----- steps of the receiver -----

  lemma ReceiverBacked(p: Endpoint, q: Endpoint, u: Endpoint)
    requires Backed(p, q) && Offers(q, u) && q.a.maxRx <= u.a.maxRx && u.b.server == q.b.server && ChargeBacked(p, u)
    ensures Backed(p, u)
  {
    forall x: nat ensures u.window <= Offered(u, x) { assert Offered(q, x) <= Offered(u, x); }
    forall x: nat ensures SentOn(p.a, x) <= Offered(u, x) {
      assert SentOn(p.a, x) <= Offered(q, x);
      assert Offered(q, x) <= Offered(u, x);
    }
    forall x | x in p.a.strms ensures p.a.strms[x].maxTx <= Offered(u, x) { assert Offered(q, x) <= Offered(u, x); }
  }

  lemma ReceiverCharge(p: Endpoint, q: Endpoint, u: Endpoint, rx: set<nat>)
    requires ChargeBacked(p, q) && Charges(q, u, rx) && forall x :: x in rx ==> ChargedTo(u.a, x) <= SentOn(p.a, x)
    ensures ChargeBacked(p, u)
  {
    forall x: nat ensures ChargedTo(u.a, x) <= SentOn(p.a, x) {
      if x !in rx { assert ChargedTo(q.a, x) <= SentOn(p.a, x); }
    }
  }

  lemma ReceiverEnds(p: Endpoint, q: Endpoint, u: Endpoint, rx: set<nat>)
    requires EndsKnown(p, q) && Silent(p, q) && Receives(q, u, rx) && forall x :: x in rx ==> EndRight(p, u, x)
    ensures EndsKnown(p, u)
  {
    forall x: nat ensures EndRight(p, u, x) {
      if x !in rx && Has(u, x) {
        if Has(q, x) {
          assert EndRight(p, q, x);
        } else if x in p.a.sent {
          assert OneWay(q, x) ==> p.a.sent[x] == [];
        }
      }
    }
  }

  // ----- frames that are written are accepted -----

  /** Looking a stream up changes nothing of the links. */
  lemma FoundLinked(p: Endpoint, q: Endpoint, id: nat) returns (u: Endpoint)
    requires Sound(q) && Backed(p, q) && EndsKnown(p, q) && Silent(p, q) && id != 0 && Admission(q.b, id) == Ok
    ensures u == Found(q, id) && Sound(u) && Backed(p, u) && EndsKnown(p, u)
  {
    u := Found(q, id);
    FoundKeeps(q, id);
    FoundFrame(q, id);
    ReceiverCharge(p, q, u, {});
    ReceiverBacked(p, q, u);
    ReceiverEnds(p, q, u, {});
  }

  lemma FoundLate(q: Endpoint, id: nat, end: nat)
    requires id in Found(q, id).a.strms
    ensures Late(Found(q, id), id, end) <==> Late(q, id, end)
  {
  }

  /**
   A STREAM frame that one endpoint has written is accepted by the other, whenever it arrives, unless
   it is empty without fin, or brings something new on a stream that was reset before.
   */
  lemma FrameAccepted(p: State, q: State, id: nat, fr: StreamFrame)
    requires Linked(p, q) && Piece(id, fr) in p.written
    ensures StreamStatus(q.t, id, fr) == Ok <==> !Blank(fr) && !Late(q.t, id, fr.End())
  {
    if !Blank(fr) {
      Checked(p, q, id, fr);
      LookedUp(p.t, q.t, id, fr);
    }
  }

  /** A written frame passes the checks that do not look at the stream. */
  lemma Checked(p: State, q: State, id: nat, fr: StreamFrame)
    requires Linked(p, q) && Piece(id, fr) in p.written && !Blank(fr)
    ensures id != 0 && fr.End() <= SentOn(p.t.a, id) <= MAX_VARINT && (fr.fin ==> fr.End() == SentOn(p.t.a, id))
    ensures Admission(q.t.b, id) == Ok && PreCheck(q.t.b, id, fr) == Ok
  {
    var k :| 0 <= k < |p.written| && p.written[k] == Piece(id, fr);
    assert Faithful(p.t.a, p.written[k]);
    SentBound(p.t, id);
    assert p.t.a.sent[id] == SentBytes(p.t.a, id);
  }

  lemma LookedUp(p: Endpoint, q: Endpoint, id: nat, fr: StreamFrame)
    requires Sound(p) && Sound(q) && Backed(p, q) && EndsKnown(p, q) && Silent(p, q) && id != 0 && Admission(q.b, id) == Ok
    requires !Blank(fr) && fr.End() <= SentOn(p.a, id) <= MAX_VARINT && (fr.fin ==> fr.End() == SentOn(p.a, id))
    ensures var u := Found(q, id);
            id in u.a.strms ==> (StatusOf(Verdict(u, id, fr)) == Ok <==> !Late(q, id, fr.End()))
    ensures id !in Found(q, id).a.strms ==> !Late(q, id, fr.End())
  {
    var u := FoundLinked(p, q, id);
    if id in u.a.strms {
      VerdictIs(p, u, id, fr);
      FoundLate(q, id, fr.End());
      DecideStatus(u.a.strms[id].View(), fr, Credit(u.a));
    }
  }

  lemma ResetOpen(p: Endpoint, q: Endpoint, id: nat, final: nat)
    requires Sound(p) && Sound(q) && Backed(p, q) && EndsKnown(p, q) && id in q.a.strms && final == SentOn(p.a, id)
    ensures StrmResetStatus(q.a, q.a.strms[id], final) == Ok <==> !Late(q, id, final)
  {
    var s := q.a.strms[id];
    LiveAt(q, id);
    OpenAt(q.a.strms, q.a.charged, q.a.sent, id, s);
    CreditLeft(q);
    assert Offered(q, id) == s.maxRx && SentOn(p.a, id) <= Offered(q, id);
    assert ChargedTo(q.a, id) <= SentOn(p.a, id);
    assert Has(q, id) && EndRight(p, q, id);
    CreditFits(p, q, id, final);
    ResetDecision(q.a, s, final, ChargedTo(q.a, id));
  }

  lemma ResetDecision(a: Accounts, s: Strm, final: nat, charged: nat)
    requires (s.recvRst ==> s.shutRd) && s.lastRx <= charged <= final <= s.maxRx && (!s.recvRst ==> charged == s.lastRx)
    requires (s.shutRd && !s.recvRst ==> s.lastRx == final) && final - charged <= Credit(a)
    ensures StrmResetStatus(a, s, final) == Ok <==> !(s.recvRst && s.lastRx < final)
  {
  }

  lemma ResetUnopened(p: Endpoint, q: Endpoint, id: nat, final: nat)
    requires Sound(p) && Sound(q) && Backed(p, q) && id != 0 && Admission(q.b, id) == Ok && Opens(q, id) && final == SentOn(p.a, id)
    ensures final <= q.window && final <= Credit(q.a)
  {
    FoundKeeps(q, id);
    CreditLeft(q);
    assert SentOn(p.a, id) <= Offered(q, id);
    CreditFits(p, q, id, final);
  }

  /** So is a RST_STREAM frame, unless the stream was reset before and its end had not been reached. */
  lemma ResetAccepted(p: State, q: State, id: nat, final: nat)
    requires Linked(p, q) && id in p.t.a.sent && Finished(p.t.a, id) && final == |p.t.a.sent[id]|
    ensures ResetStatus(q.t, id, final) == Ok <==> !Late(q.t, id, final)
  {
    SentBound(p.t, id);
    assert SentOn(p.t.a, id) == final && p.t.a.sent[id] == SentBytes(p.t.a, id);
    if id in q.t.a.strms {
      ResetOpen(p.t, q.t, id, final);
    } else if Opens(q.t, id) {
      ResetUnopened(p.t, q.t, id, final);
    }
  }
}
