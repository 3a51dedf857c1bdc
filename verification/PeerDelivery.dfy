/**
 What two connections that talk to each other make of the frames they accept: the data is taken
 in, except in a few cases; and a stream that is closed without a reset was received as a whole.
 */
module PeerDelivery {
  import opened StreamReceive
  import opened Streams
  import opened Ledger
  import opened Machine
  import opened History
  import opened PeerFrames
  import opened Peers
  import opened PeerRun

  /** Whatever `q` has taken in was written by `p`. */
  ghost predicate Heard(p: State, q: State) {
    forall k {:trigger q.got[k]} :: 0 <= k < |q.got| ==> q.got[k] in p.written
  }

  /** A frame with the end of the stream was taken in. */
  ghost predicate GotFin(ps: seq<Piece>, x: nat) {
    exists k :: 0 <= k < |ps| && ps[k].id == x && ps[k].frame.fin
  }

  /** The end of the stream is known from a frame that was wanted. */
  predicate EndWanted(t: Endpoint, x: nat) {
    Has(t, x) && StrmOf(t, x).shutRd && !StrmOf(t, x).recvRst && !StrmOf(t, x).stopSending && !OneWay(t, x)
  }

  ghost predicate FinsGot(s: State) {
    forall x: nat {:trigger Has(s.t, x)} :: EndWanted(s.t, x) ==> GotFin(s.got, x)
  }

  // ----- steps -----

  lemma StepRecords(s: State, e: Event, s': State)
    requires LeadsTo(s, e, s')
    ensures s.written <= s'.written
    ensures s'.got == if e.StreamIn? && Taking(s.t, e.id, e.frame) then s.got + [Piece(e.id, e.frame)] else s.got
  {
    if e.AckIn? {
      AfterIsAck(s, e);
    } else if !e.StreamIn? && !e.Write? {
      AfterIsOther(s, e);
    }
  }

  lemma GotFinMore(ps: seq<Piece>, ps': seq<Piece>, x: nat)
    requires GotFin(ps, x) && ps <= ps'
    ensures GotFin(ps', x)
  {
    var k :| 0 <= k < |ps| && ps[k].id == x && ps[k].frame.fin;
    assert ps'[k] == ps[k];
  }

  /** A stream whose end was not known before, or known and wanted, to which nothing has happened. */
  lemma StillWanted(t: Endpoint, t': Endpoint, rx: set<nat>, x: nat)
    requires Receives(t, t', rx) && x !in rx && EndWanted(t', x)
    ensures EndWanted(t, x)
  {
  }

  /** An end that was not wanted before became known by this frame. */
  lemma StreamWanted(t: Endpoint, id: nat, fr: StreamFrame)
    requires Sound(t) && 0 < id && StreamStatus(t, id, fr) == Ok && EndWanted(AfterStream(t, id, fr), id)
    requires AfterStream(t, id, fr).b.server == t.b.server
    ensures EndWanted(t, id) || (fr.fin && Taking(t, id, fr))
  {
    StreamEnds(t, id, fr);
    if !(fr.fin && Taking(t, id, fr)) {
      FoundFrame(t, id);
      StillWanted(t, Found(t, id), {}, id);
    }
  }

  lemma ResetWanted(t: Endpoint, id: nat, final: nat)
    requires Sound(t) && ResetStatus(t, id, final) == Ok && EndWanted(AfterReset(t, id, final), id)
    requires AfterReset(t, id, final).b.server == t.b.server
    ensures EndWanted(t, id)
  {
    ResetCharge(t, id, final);
  }

  lemma StepWanted(s: State, e: Event, s': State, x: nat)
    requires Whole(s) && LeadsTo(s, e, s') && EndWanted(s'.t, x)
    ensures EndWanted(s.t, x) || (e.StreamIn? && e.id == x && e.frame.fin && Taking(s.t, x, e.frame))
  {
    StepFrames(s, e, s');
    if x !in RxOf(e) {
      StillWanted(s.t, s'.t, RxOf(e), x);
    } else if e.StreamIn? {
      StreamWanted(s.t, x, e.frame);
    } else {
      AfterIsOther(s, e);
      ResetWanted(s.t, x, e.final);
    }
  }

  /** The end of a stream that is wanted is only known from a frame that was taken in. */
  lemma FinsStep(s: State, e: Event, s': State)
    requires Whole(s) && FinsGot(s) && LeadsTo(s, e, s')
    ensures FinsGot(s')
  {
    StepRecords(s, e, s');
    forall x: nat | EndWanted(s'.t, x) ensures GotFin(s'.got, x) {
      StepWanted(s, e, s', x);
      if EndWanted(s.t, x) {
        assert Has(s.t, x);
        GotFinMore(s.got, s'.got, x);
      } else {
        assert s'.got[|s.got|] == Piece(x, e.frame);
      }
    }
  }

  lemma HeardStep(p: State, e: Event, p': State, q: State)
    requires LeadsTo(p, e, p') && Sendable(q, e) && Heard(p, q) && Heard(q, p)
    ensures Heard(p', q) && Heard(q, p')
  {
    StepRecords(p, e, p');
    forall k | 0 <= k < |q.got| ensures q.got[k] in p'.written { assert q.got[k] in p.written; }
    forall k | 0 <= k < |p'.got| ensures p'.got[k] in q.written {
      if k < |p.got| { assert p'.got[k] == p.got[k]; }
    }
  }

  // ----- frames that are accepted -----

  /** Each byte at [begin, end) of the stream is in one of the frames. */
  ghost predicate Spanned(ps: seq<Piece>, id: nat, begin: nat, end: nat) {
    forall x: nat {:trigger Covered(ps, id, x)} :: begin <= x < end ==> Covered(ps, id, x)
  }

  /** The ID was claimed by a STOP_SENDING or RST_STREAM frame, so no stream will ever be created for it. */
  predicate OnlyClaimed(q: Endpoint, id: nat) { !Has(q, id) && !Opens(q, id) }

  /** Frames of the stream need not be taken in: reading was stopped, or the peer has reset it, or its ID was only claimed. */
  predicate Excused(q: Endpoint, id: nat) {
    || (Has(q, id) && StrmOf(q, id).recvRst) || (id in q.a.strms && q.a.strms[id].stopSending)
    || OnlyClaimed(q, id)
  }

  lemma GotSpanned(ps: seq<Piece>, w: Piece)
    requires w in ps
    ensures Spanned(ps, w.id, w.frame.offset, w.frame.End())
  {
    var k :| 0 <= k < |ps| && ps[k] == w;
  }

  /** All of a stream that was closed without a reset was received. */
  ghost predicate Finale(p: State, q: State, x: nat) {
    x in q.t.a.closed && !q.t.a.closed[x].recvRst ==>
      && q.t.a.closed[x].lastRx == SentOn(p.t.a, x) && Over(p.t, q.t, x) && CoveredUpTo(q.got, x, SentOn(p.t.a, x))
  }

  lemma ClosedWhole(p: State, q: State, x: nat)
    requires Linked(p, q)
    ensures Finale(p, q, x)
  {
    if x in q.t.a.closed && !q.t.a.closed[x].recvRst {
      assert Complete(q.t.a.closed[x]);
      assert x !in q.t.a.strms;
      assert Has(q.t, x) && EndRight(p.t, q.t, x);
    }
  }

  /** A frame that repeats the end of a stream: its data was taken in before. */
  lemma FinSpanned(p: State, q: State, id: nat, fr: StreamFrame)
    requires Linked(p, q) && Heard(p, q) && FinsGot(q) && Piece(id, fr) in p.written && fr.fin
    requires id in q.t.a.strms && q.t.a.strms[id].shutRd && !q.t.a.strms[id].recvRst && !q.t.a.strms[id].stopSending
    ensures Spanned(q.got, id, fr.offset, fr.End())
  {
    FromWritten(p, id, fr);
    if OneWay(q.t, id) {
      assert p.t.a.sent[id] == [];
    } else {
      assert Has(q.t, id) && EndWanted(q.t, id);
      var k :| 0 <= k < |q.got| && q.got[k].id == id && q.got[k].frame.fin;
      assert q.got[k] == Piece(id, q.got[k].frame);
      OneFin(p.written, id, q.got[k].frame, fr);
      GotSpanned(q.got, q.got[k]);
    }
  }

  /** What happens to the data of a frame if it is accepted. */
  ghost predicate Lands(q: State, id: nat, fr: StreamFrame, got: seq<Piece>) {
    StreamStatus(q.t, id, fr) == Ok ==>
    && (Taking(q.t, id, fr) ==> got == q.got + [Piece(id, fr)])
    && (!Excused(q.t, id) ==> Spanned(got, id, fr.offset, fr.End()))
    && (OnlyClaimed(q.t, id) ==> got == q.got)
  }

  lemma NotTaken(p: State, q: State, id: nat, fr: StreamFrame)
    requires Linked(p, q) && Heard(p, q) && FinsGot(q) && Piece(id, fr) in p.written && !Taking(q.t, id, fr) && !Excused(q.t, id)
    ensures Spanned(q.got, id, fr.offset, fr.End())
  {
    if id in q.t.a.strms {
      FinSpanned(p, q, id, fr);
    } else {
      NotOpening(q.t, id, fr);
      ClosedWhole(p, q, id);
      FromWritten(p, id, fr);
    }
  }

  /** A frame that opens its stream is taken in. */
  lemma NotOpening(t: Endpoint, id: nat, fr: StreamFrame)
    requires !Taking(t, id, fr) && id !in t.a.strms
    ensures !Opens(t, id)
  {
  }

  lemma FrameLands(p: State, q: State, id: nat, fr: StreamFrame)
    requires Linked(p, q) && Heard(p, q) && FinsGot(q) && Piece(id, fr) in p.written
    ensures Lands(q, id, fr, After(q, StreamIn(id, fr)).got)
  {
    if Taking(q.t, id, fr) {
      GotSpanned(q.got + [Piece(id, fr)], Piece(id, fr));
    } else if !Excused(q.t, id) {
      NotTaken(p, q, id, fr);
    }
  }

  /**
   A STOP_SENDING frame that overtakes the first data of its stream only claims the ID: whatever
   comes on the stream is accepted then, and ignored.
   */
  lemma StopLoses(q: Endpoint, id: nat, fr: StreamFrame)
    requires Sound(q) && Opens(q, id) && StopStatus(q, id) == Ok && StreamStatus(q, id, fr) == Ok
    ensures var q' := AfterStop(q, id);
            OnlyClaimed(q', id) && StreamStatus(q', id, fr) == Ok && AfterStream(q', id, fr) == q' && !Taking(q', id, fr)
  {
    FoundKeeps(q, id);
    ClaimedKeeps(q, id, false);
  }

  // ----- runs -----

  ghost predicate Minded(s: Pair) {
    Heard(s.client, s.server) && Heard(s.server, s.client) && FinsGot(s.client) && FinsGot(s.server)
  }

  lemma MindedStep(s: Pair, m: Move, s': Pair)
    requires Linked(s.client, s.server) && Minded(s) && Moves(s, m, s')
    ensures Minded(s')
  {
    if m.ByClient? {
      HeardStep(s.client, m.e, s'.client, s.server);
      FinsStep(s.client, m.e, s'.client);
    } else {
      HeardStep(s.server, m.e, s'.server, s.client);
      FinsStep(s.server, m.e, s'.server);
    }
  }

  lemma OpeningMinded(client: Settings, server: Settings)
    ensures Minded(Opening(client, server))
  {
    forall x: nat ensures !EndWanted(Beginning(false, client, server).t, x) && !EndWanted(Beginning(true, server, client).t, x) {
      NoneAtFirst(false, client, server, x);
      NoneAtFirst(true, server, client, x);
    }
  }

  lemma RunMinded(client: Settings, server: Settings, states: seq<Pair>, moves: seq<Move>, n: nat)
    requires PairRun(states, moves) && states[0] == Opening(client, server) && n <= |moves|
    ensures Minded(states[n]) && Linked(states[n].client, states[n].server) && Linked(states[n].server, states[n].client)
  {
    OpeningLinked(client, server);
    RunLinked(states, moves, n);
    RunMinds(client, server, states, moves, n);
  }

  lemma {:induction false} RunMinds(client: Settings, server: Settings, states: seq<Pair>, moves: seq<Move>, n: nat)
    requires PairRun(states, moves) && states[0] == Opening(client, server) && n <= |moves|
    ensures Minded(states[n])
  {
    if n == 0 {
      OpeningMinded(client, server);
    } else {
      RunMinds(client, server, states, moves, n - 1);
      OpeningLinked(client, server);
      RunLinked(states, moves, n - 1);
      MindedStep(states[n - 1], moves[n - 1], states[n]);
    }
  }

  /**
   In every state of every run: all that one endpoint has taken in was written by the other.  A STREAM frame
   that one has written lands at the other in full, with it or before it, unless reading was stopped there, the
   stream was reset, or its ID was only claimed.
   */
  lemma RunLands(client: Settings, server: Settings, states: seq<Pair>, moves: seq<Move>, n: nat, id: nat, fr: StreamFrame)
    requires PairRun(states, moves) && states[0] == Opening(client, server) && n <= |moves|
    ensures var s := states[n];
            && Heard(s.client, s.server) && Heard(s.server, s.client)
            && (Piece(id, fr) in s.client.written ==> Lands(s.server, id, fr, After(s.server, StreamIn(id, fr)).got))
            && (Piece(id, fr) in s.server.written ==> Lands(s.client, id, fr, After(s.client, StreamIn(id, fr)).got))
  {
    var s := states[n];
    RunMinded(client, server, states, moves, n);
    if Piece(id, fr) in s.client.written { FrameLands(s.client, s.server, id, fr); }
    if Piece(id, fr) in s.server.written { FrameLands(s.server, s.client, id, fr); }
  }

  /**
   In every state of every run: if one endpoint has closed a stream that the other did not reset, the other has
   finished it, and every byte that it ever sent on it was taken in.
   */
  lemma RunClosed(client: Settings, server: Settings, states: seq<Pair>, moves: seq<Move>, n: nat, x: nat)
    requires PairRun(states, moves) && states[0] == Opening(client, server) && n <= |moves|
    ensures Finale(states[n].client, states[n].server, x) && Finale(states[n].server, states[n].client, x)
  {
    RunMinded(client, server, states, moves, n);
    ClosedWhole(states[n].client, states[n].server, x);
    ClosedWhole(states[n].server, states[n].client, x);
  }
}
