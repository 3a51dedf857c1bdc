/**
 The limit on the streams of the peer: every stream that is closed is replaced by one that may be opened.
 */
module Growth {
  import opened Basics
  import opened StreamReceive
  import opened FlowControl
  import opened Streams
  import opened Ledger
  import opened Steps
  import opened Machine
  import opened History

  /** The limit not yet announced grows by four for each stream closed, once the first ID was used and as long as it can. */
  ghost predicate Replaced(sp: IdSpace, sp': IdSpace) {
    && sp.used <= sp'.used && |sp.closed| <= |sp'.closed| && sp.unsent <= sp'.unsent
    && (0 in sp.used && sp'.unsent <= MAX_VARINT - 4 ==> sp'.unsent - sp.unsent == 4 * (|sp'.closed| - |sp.closed|))
  }

  ghost predicate Replenished(b: IdBook, b': IdBook) { Replaced(b.bidi, b'.bidi) && Replaced(b.uni, b'.uni) }

  lemma ReplenishedTrans(b: IdBook, c: IdBook, d: IdBook)
    requires Replenished(b, c) && Replenished(c, d)
    ensures Replenished(b, d)
  {
  }

  lemma SameIds(b: IdBook, b': IdBook)
    requires b'.bidi.(max := b.bidi.max) == b.bidi && b'.uni.(max := b.uni.max) == b.uni
    ensures Replenished(b, b')
  {
  }

  lemma ClaimReplenished(b: IdBook, id: nat, create: bool)
    ensures Replenished(b, Claim(b, id, create))
  {
  }

  /** A close adds exactly four to the limit, if the first ID was used before and the limit can still grow. */
  lemma CloseRaises(b: IdBook, id: nat)
    requires ValidBook(b) && Live(b, id) && !LocalStream(b.server, id)
    ensures var b' := CloseId(b, id, ExtendsIds(b, id));
            && Space(b', id).unsent == Space(b, id).unsent + (if 0 in Space(b, id).used && Space(b, id).unsent <= MAX_VARINT - 4 then 4 else 0)
            && |Space(b', id).closed| == |Space(b, id).closed| + 1
    ensures Replenished(b, CloseId(b, id, ExtendsIds(b, id)))
  {
    var sp := Space(b, id);
    assert id / 4 !in sp.closed;
    assert |sp.closed + {id / 4}| == |sp.closed| + 1;
  }

  /** A stream is checked after a change that leaves the IDs alone. */
  lemma SettledReplenished(t: Endpoint, u: Endpoint, id: nat)
    requires Sound(t) && id in t.a.strms && u.b == t.b && id in u.a.strms
    ensures Replenished(t.b, Settled(u, id).b)
  {
    LiveAt(t, id);
    SameIds(t.b, t.b);
    if ShouldClose(u.a.strms[id]) && !LocalStream(t.b.server, id) { CloseRaises(t.b, id); }
  }

  lemma AbsorbedReplenished(t: Endpoint, id: nat, s: Strm, c: nat, waiting: seq<nat>, check: bool)
    requires Sound(t) && id in t.a.strms && ChargedTo(t.a, id) <= c
    ensures Replenished(t.b, Absorbed(t, id, s, c, waiting, check).b)
  {
    var u := Stored(t, id, s, c, SentBytes(t.a, id)).(waiting := waiting);
    SameIds(t.b, u.b);
    if check { SettledReplenished(t, u, id); }
  }

  lemma FoundReplenished(t: Endpoint, id: nat)
    ensures Replenished(t.b, Found(t, id).b)
  {
    SameIds(t.b, t.b);
    ClaimReplenished(t.b, id, true);
  }

  // ----- events -----

  lemma StreamReplenished(t: Endpoint, id: nat, fr: StreamFrame)
    requires Sound(t) && 0 < id && StreamStatus(t, id, fr) == Ok
    ensures Replenished(t.b, AfterStream(t, id, fr).b)
  {
    var u := Found(t, id);
    SameIds(t.b, t.b);
    FoundReplenished(t, id);
    FoundKeeps(t, id);
    if id in u.a.strms {
      var d := Verdict(u, id, fr);
      DecideStatus(u.a.strms[id].View(), fr, Credit(u.a));
      var s, c := Received(u.a.strms[id], fr, d), ChargedTo(u.a, id) + d.charge;
      TookIs(u, id, fr, d, s, c);
      AbsorbedReplenished(u, id, s, c, StillWaiting(u.waiting, id, fr, d), !d.action.Discard?);
      ReplenishedTrans(t.b, u.b, AfterStream(t, id, fr).b);
    }
  }

  lemma ResetReplenished(t: Endpoint, id: nat, final: nat)
    requires Sound(t)
    ensures Replenished(t.b, AfterReset(t, id, final).b)
  {
    SameIds(t.b, t.b);
    ClaimReplenished(t.b, id, false);
    if ResetStatus(t, id, final) == Ok && id in t.a.strms {
      var s, c := ResetOf(t.a.strms[id]), ChargedTo(t.a, id) + (final - t.a.strms[id].lastRx);
      ResetStrmIs(t, id, final, s, c);
      AbsorbedReplenished(t, id, s, c, t.waiting, true);
    }
  }

  lemma StopReplenished(t: Endpoint, id: nat)
    requires Sound(t)
    ensures Replenished(t.b, AfterStop(t, id).b)
  {
    SameIds(t.b, t.b);
    ClaimReplenished(t.b, id, false);
    if StopStatus(t, id) == Ok && id in t.a.strms { SettledReplenished(t, Changed(t, id, StopOf(t.a.strms[id])), id); }
  }

  lemma AckReplenished(t: Endpoint, id: nat, fr: StreamFrame)
    requires Sound(t)
    ensures Replenished(t.b, AfterAck(t, id, fr).b)
  {
    SameIds(t.b, t.b);
    if id in t.a.strms {
      var s := AckedRange(t.a.strms[id], fr.offset, |fr.data|, fr.fin);
      AckForm(t, id, fr, s);
      SettledReplenished(t, Changed(t, id, s), id);
    }
  }

  lemma {:induction false} AnnounceIdle(t: Endpoint)
    ensures AfterAnnounceStreams(t).b == t.b
    decreases |t.waiting|
  {
    if t.waiting != [] { AnnounceIdle(AnnounceFirst(t)); }
  }

  lemma OtherReplenished(t: Endpoint, e: Event)
    requires Sound(t) && Possible(e)
    ensures Replenished(t.b, AfterOther(t, e).b)
  {
    match e
    case ResetIn(id, final) => ResetReplenished(t, id, final);
    case StopSendingIn(id) => StopReplenished(t, id);
    case MaxStreamDataIn(id, limit) =>
      SameIds(t.b, t.b);
      FoundReplenished(t, id);
    case AnnounceStreams =>
      AnnounceIdle(t);
      SameIds(t.b, t.b);
    case _ => SameIds(t.b, AfterOther(t, e).b);
  }

  lemma StepReplenished(s: State, e: Event, s': State)
    requires Whole(s) && LeadsTo(s, e, s')
    ensures Replenished(s.t.b, s'.t.b)
  {
    if e.StreamIn? {
      StreamReplenished(s.t, e.id, e.frame);
    } else if e.AckIn? {
      AfterIsAck(s, e);
      SameIds(s.t.b, s.t.b);
      if e.k < |s.written| { AckReplenished(s.t, s.written[e.k].id, s.written[e.k].frame); }
    } else if e.Write? {
      AfterIsWritten(s, e);
      SameIds(s.t.b, s'.t.b);
    } else {
      AfterIsOther(s, e);
      OtherReplenished(s.t, e);
    }
  }

  /**
   Between any two states of a run, the limit on the streams of the peer, announced or not, has grown by four for each of
   them that was closed in between, if the first ID of the kind was used before and the limit can still grow.
   */
  lemma {:induction false} RunReplenished(states: seq<State>, events: seq<Event>, i: nat, n: nat)
    requires Run(states, events) && i <= n <= |events| && Whole(states[0])
    ensures Replenished(states[i].t.b, states[n].t.b)
  {
    if i == n {
      SameIds(states[i].t.b, states[i].t.b);
    } else {
      RunReplenished(states, events, i, n - 1);
      RunStays(states, events, n - 1);
      StepReplenished(states[n - 1], events[n - 1], states[n]);
      ReplenishedTrans(states[i].t.b, states[n - 1].t.b, states[n].t.b);
    }
  }
}
