/**
 The connection-wide invariant: what every receive, send, open and close step
 keeps, stated over a snapshot of the connection's fields.
 */
module Ledger {
  import opened Basics
  import opened FlowControl
  import opened Streams

  /**
   The streams and the connection's credit.  `charged`, `sent` and `closed`
   record, for every stream ever opened, the bytes charged to the connection, the
   bytes sent, and the state in which it was closed.
   */
  datatype Accounts = Accounts(
    strms: map<nat, Strm>,
    rx: nat, maxRx: nat, unsentMaxRx: nat,
    tx: nat, maxTx: nat,
    charged: map<nat, nat>, sent: map<nat, seq<byte>>, closed: map<nat, Strm>)

  /** The stream IDs of the peer, and the next ones of the local endpoint. */
  datatype IdBook = IdBook(server: bool, bidi: IdSpace, uni: IdSpace, nextBidi: nat, nextUni: nat)

  // ----- accounts -----

  /** The streams are sound, and the connection's offsets are within its limits and account for all of them. */
  ghost predicate Balanced(a: Accounts) {
    && a.rx <= a.maxRx <= a.unsentMaxRx <= MAX_VARINT && a.rx == Total(a.charged)
    && a.tx <= a.maxTx && a.tx == Total(Lengths(a.sent))
    && Accounted(a.strms, a.closed, a.charged, a.sent)
  }

  /** Every stream that was created is in the books, with what was charged to it and sent on it. */
  ghost predicate Accounted(strms: map<nat, Strm>, closed: map<nat, Strm>, charged: map<nat, nat>, sent: map<nat, seq<byte>>) {
    && Open(strms, charged, sent) && Closed(closed, charged, sent)
    && strms.Keys !! closed.Keys && sent.Keys == strms.Keys + closed.Keys
  }

  ghost predicate Open(strms: map<nat, Strm>, charged: map<nat, nat>, sent: map<nat, seq<byte>>) {
    ValidStrms(strms) && RxTied(strms, charged) && TxTied(strms, sent)
  }

  /** Closed streams stay in the books, and are complete. */
  ghost predicate Closed(closed: map<nat, Strm>, charged: map<nat, nat>, sent: map<nat, seq<byte>>) {
    ValidStrms(closed) && RxTied(closed, charged) && TxTied(closed, sent) && AllComplete(closed)
  }

  ghost predicate AllComplete(closed: map<nat, Strm>) {
    forall id {:trigger closed[id]} :: id in closed ==> Complete(closed[id])
  }

  function ChargedTo(a: Accounts, id: nat): nat { if id in a.charged then a.charged[id] else 0 }

  function SentOn(a: Accounts, id: nat): nat { if id in a.sent then |a.sent[id]| else 0 }

  /** A stream is new or changed, with `c` bytes charged and `sent` sent on it in all. */
  function Put(a: Accounts, id: nat, s: Strm, c: nat, sent: seq<byte>): Accounts
    requires ChargedTo(a, id) <= c && SentOn(a, id) <= |sent|
  {
    a.(strms := a.strms[id := s],
       charged := a.charged[id := c], sent := a.sent[id := sent],
       rx := a.rx + (c - ChargedTo(a, id)), tx := a.tx + (|sent| - SentOn(a, id)))
  }

  /** Every change of one stream that respects its own and the connection's limits keeps the accounts balanced. */
  lemma PutKeeps(a: Accounts, id: nat, s: Strm, c: nat, sent: seq<byte>)
    requires Balanced(a) && id != 0 && id !in a.closed
    requires ChargedTo(a, id) <= c && SentOn(a, id) <= |sent|
    requires ValidStrm(s) && s.lastRx <= c <= s.maxRx && (!s.recvRst ==> c == s.lastRx) && s.tx == |sent|
    requires a.rx + (c - ChargedTo(a, id)) <= a.maxRx && a.tx + (|sent| - SentOn(a, id)) <= a.maxTx
    ensures Balanced(Put(a, id, s, c, sent))
  {
    TotalUpdate(a.charged, id, c);
    TotalUpdate(Lengths(a.sent), id, |sent|);
    LengthsUpdate(a.sent, id, sent);
    PutAccounted(a.strms, a.closed, a.charged, a.sent, id, s, c, sent);
  }

  lemma PutAccounted(strms: map<nat, Strm>, closed: map<nat, Strm>, charged: map<nat, nat>, sent: map<nat, seq<byte>>,
                     id: nat, s: Strm, c: nat, bytes: seq<byte>)
    requires Accounted(strms, closed, charged, sent) && id != 0 && id !in closed && ValidStrm(s)
    requires s.lastRx <= c <= s.maxRx && (!s.recvRst ==> c == s.lastRx) && s.tx == |bytes|
    ensures Accounted(strms[id := s], closed, charged[id := c], sent[id := bytes])
  {
    PutOpen(strms, charged, sent, id, s, c, bytes);
    PutClosed(closed, charged, sent, id, c, bytes);
    PutIds(strms, closed, sent, id, s, bytes);
  }

  lemma PutIds(strms: map<nat, Strm>, closed: map<nat, Strm>, sent: map<nat, seq<byte>>, id: nat, s: Strm, bytes: seq<byte>)
    requires strms.Keys !! closed.Keys && sent.Keys == strms.Keys + closed.Keys && id !in closed
    ensures strms[id := s].Keys !! closed.Keys && sent[id := bytes].Keys == strms[id := s].Keys + closed.Keys
  {
  }

  lemma PutOpen(strms: map<nat, Strm>, charged: map<nat, nat>, sent: map<nat, seq<byte>>, id: nat, s: Strm, c: nat, bytes: seq<byte>)
    requires Open(strms, charged, sent) && id != 0 && ValidStrm(s)
    requires s.lastRx <= c <= s.maxRx && (!s.recvRst ==> c == s.lastRx) && s.tx == |bytes|
    ensures Open(strms[id := s], charged[id := c], sent[id := bytes])
  {
    var strms' := strms[id := s];
    forall x | x in strms' && x != id ensures x in strms && strms'[x] == strms[x] {}
  }

  lemma PutClosed(closed: map<nat, Strm>, charged: map<nat, nat>, sent: map<nat, seq<byte>>, id: nat, c: nat, bytes: seq<byte>)
    requires Closed(closed, charged, sent) && id !in closed
    ensures Closed(closed, charged[id := c], sent) && Closed(closed, charged[id := c], sent[id := bytes])
  {
    forall x | x in closed ensures x != id && x in charged && x in sent { assert closed[x] == closed[x]; }
  }

  /** A reset for a stream that was never created is charged to the connection all the same. */
  lemma ChargeKeeps(a: Accounts, id: nat, c: nat)
    requires Balanced(a) && id !in a.charged && id !in a.strms && a.rx + c <= a.maxRx
    ensures Balanced(a.(charged := a.charged[id := c], rx := a.rx + c))
  {
    TotalUpdate(a.charged, id, c);
    ChargeOpen(a.strms, a.charged, a.sent, id, c);
    ClosedIds(a.closed, a.charged, a.sent);
    PutClosed(a.closed, a.charged, a.sent, id, c, []);
  }

  lemma ClosedIds(closed: map<nat, Strm>, charged: map<nat, nat>, sent: map<nat, seq<byte>>)
    requires Closed(closed, charged, sent)
    ensures closed.Keys <= charged.Keys
  {
    forall id | id in closed ensures id in charged { assert ValidStrm(closed[id]); }
  }

  lemma ChargeOpen(strms: map<nat, Strm>, charged: map<nat, nat>, sent: map<nat, seq<byte>>, id: nat, c: nat)
    requires Open(strms, charged, sent) && id !in strms
    ensures Open(strms, charged[id := c], sent)
  {
  }

  function CloseStrm(a: Accounts, id: nat): Accounts
    requires id in a.strms
  {
    a.(strms := a.strms - {id}, closed := a.closed[id := a.strms[id]])
  }

  /** A complete stream is closed: it stays in the books. */
  lemma CloseStrmKeeps(a: Accounts, id: nat)
    requires Balanced(a) && id in a.strms && ShouldClose(a.strms[id])
    ensures Balanced(CloseStrm(a, id))
  {
    var s := a.strms[id];
    OpenAt(a.strms, a.charged, a.sent, id, s);
    CloseComplete(s);
    OpenLess(a.strms, a.charged, a.sent, id);
    ClosedMore(a.closed, a.charged, a.sent, id, s);
    CloseKeys(a.strms, a.closed, a.sent, id, s);
  }

  lemma CloseKeys(strms: map<nat, Strm>, closed: map<nat, Strm>, sent: map<nat, seq<byte>>, id: nat, s: Strm)
    requires strms.Keys !! closed.Keys && sent.Keys == strms.Keys + closed.Keys && id in strms
    ensures (strms - {id}).Keys !! closed[id := s].Keys && sent.Keys == (strms - {id}).Keys + closed[id := s].Keys
  {
  }

  lemma OpenAt(strms: map<nat, Strm>, charged: map<nat, nat>, sent: map<nat, seq<byte>>, id: nat, s: Strm)
    requires Open(strms, charged, sent) && id in strms && s == strms[id]
    ensures id != 0 && ValidStrm(s)
    ensures id in charged && s.lastRx <= charged[id] <= s.maxRx && (!s.recvRst ==> charged[id] == s.lastRx)
    ensures id in sent && s.tx == |sent[id]|
  {
  }

  lemma OpenLess(strms: map<nat, Strm>, charged: map<nat, nat>, sent: map<nat, seq<byte>>, id: nat)
    requires Open(strms, charged, sent)
    ensures Open(strms - {id}, charged, sent)
  {
    var strms' := strms - {id};
    forall x | x in strms' ensures x in strms && strms'[x] == strms[x] {}
  }

  lemma ClosedMore(closed: map<nat, Strm>, charged: map<nat, nat>, sent: map<nat, seq<byte>>, id: nat, s: Strm)
    requires Closed(closed, charged, sent) && id != 0 && ValidStrm(s) && Complete(s)
    requires id in charged && s.lastRx <= charged[id] <= s.maxRx && (!s.recvRst ==> charged[id] == s.lastRx)
    requires id in sent && s.tx == |sent[id]|
    ensures Closed(closed[id := s], charged, sent)
  {
    var closed' := closed[id := s];
    forall x | x in closed' && x != id ensures x in closed && closed'[x] == closed[x] {}
  }

  // ----- the sums over all streams -----

  /** All streams that were ever created. */
  ghost function AllStrms(a: Accounts): map<nat, Strm> { a.strms + a.closed }

  ghost function LastOffsets(strms: map<nat, Strm>): map<nat, nat> { map id | id in strms :: strms[id].lastRx }

  ghost function SentOffsets(strms: map<nat, Strm>): map<nat, nat> { map id | id in strms :: strms[id].tx }

  /** The connection has sent the sum of what was sent on all streams, closed ones included. */
  lemma TxIsSum(a: Accounts)
    requires Balanced(a)
    ensures a.tx == Total(SentOffsets(AllStrms(a)))
  {
    TxOffsets(a.strms, a.closed, a.sent);
  }

  lemma TxOffsets(strms: map<nat, Strm>, closed: map<nat, Strm>, sent: map<nat, seq<byte>>)
    requires TxTied(strms, sent) && TxTied(closed, sent) && sent.Keys == strms.Keys + closed.Keys
    ensures Lengths(sent) == SentOffsets(strms + closed)
  {
    var all := strms + closed;
    forall id | id in all ensures id in sent && all[id].tx == |sent[id]| {
      if id in closed { assert all[id] == closed[id]; } else { assert all[id] == strms[id]; }
    }
  }

  /**
   The connection has received the sum of what was received on all streams, closed ones
   included, unless the peer reset a stream, which is charged up to its final offset.
   */
  lemma RxIsSum(a: Accounts)
    requires Balanced(a) && a.charged.Keys == AllStrms(a).Keys
    requires forall id :: id in AllStrms(a) ==> !AllStrms(a)[id].recvRst
    ensures a.rx == Total(LastOffsets(AllStrms(a)))
  {
    RxOffsets(a.strms, a.closed, a.charged);
  }

  lemma RxOffsets(strms: map<nat, Strm>, closed: map<nat, Strm>, charged: map<nat, nat>)
    requires RxTied(strms, charged) && RxTied(closed, charged) && charged.Keys == (strms + closed).Keys
    requires forall id :: id in strms + closed ==> !(strms + closed)[id].recvRst
    ensures charged == LastOffsets(strms + closed)
  {
    var all := strms + closed;
    forall id | id in all ensures id in charged && all[id].lastRx == charged[id] {
      if id in closed { assert all[id] == closed[id]; } else { assert all[id] == strms[id]; }
    }
  }

  // ----- stream IDs -----

  predicate LocalStream(server: bool, id: nat) { if server then id % 2 != 0 else id % 2 == 0 }

  predicate BidiStream(id: nat) { id % 4 < 2 }

  function Space(b: IdBook, id: nat): IdSpace { if BidiStream(id) then b.bidi else b.uni }

  function Next(b: IdBook, id: nat): nat { if BidiStream(id) then b.nextBidi else b.nextUni }

  /** The stream has been used: opened here, or claimed by the peer. */
  predicate Known(b: IdBook, id: nat) {
    if LocalStream(b.server, id) then id < Next(b, id) else id / 4 in Space(b, id).used
  }

  predicate Live(b: IdBook, id: nat) {
    if LocalStream(b.server, id) then id < Next(b, id) else id / 4 in Space(b, id).live
  }

  ghost predicate ValidBook(b: IdBook) {
    && ValidIds(b.bidi) && ValidIds(b.uni)
    && (b.server ==> 0 in b.bidi.live)
    && b.nextBidi != 0 && b.nextBidi % 4 == (if b.server then 1 else 0) && b.nextUni % 4 == (if b.server then 3 else 2)
  }

  ghost predicate AllLive(b: IdBook, ids: set<nat>) {
    forall id {:trigger Live(b, id)} :: id in ids ==> Live(b, id)
  }

  ghost predicate AllKnown(b: IdBook, ids: set<nat>) {
    forall id {:trigger Known(b, id)} :: id in ids ==> Known(b, id)
  }

  /** The books are in order, and have all of these IDs. */
  ghost predicate Booked(b: IdBook, live: set<nat>, known: set<nat>) {
    ValidBook(b) && AllLive(b, live) && AllKnown(b, known)
  }

  lemma LiveKnown(b: IdBook, id: nat)
    requires ValidBook(b) && Live(b, id)
    ensures Known(b, id)
  {
  }

  /** IDs once known stay known, and as long as no ID is closed live ones stay live. */
  lemma Monotone(b: IdBook, b': IdBook, live: set<nat>, known: set<nat>)
    requires b'.server == b.server && b.nextBidi <= b'.nextBidi && b.nextUni <= b'.nextUni
    requires b.bidi.used <= b'.bidi.used && b.uni.used <= b'.uni.used
    requires AllKnown(b, known)
    ensures AllKnown(b', known)
    ensures b.bidi.live <= b'.bidi.live && b.uni.live <= b'.uni.live && AllLive(b, live) ==> AllLive(b', live)
  {
    forall x | x in known ensures Known(b', x) { assert Known(b, x); }
    if b.bidi.live <= b'.bidi.live && b.uni.live <= b'.uni.live && AllLive(b, live) {
      forall x | x in live ensures Live(b', x) { assert Live(b, x); }
    }
  }

  function SetSpace(b: IdBook, id: nat, sp: IdSpace): IdBook {
    if BidiStream(id) then b.(bidi := sp) else b.(uni := sp)
  }

  /** The peer claims an ID within its limit, with or without a stream being created for it. */
  function Claim(b: IdBook, id: nat, create: bool): IdBook {
    var sp := Space(b, id);
    SetSpace(b, id, sp.(used := sp.used + {id / 4}, live := if create then sp.live + {id / 4} else sp.live))
  }

  lemma ClaimKeeps(b: IdBook, id: nat, create: bool, live: set<nat>, known: set<nat>)
    requires Booked(b, live, known)
    requires !LocalStream(b.server, id) && id <= Space(b, id).max && id / 4 !in Space(b, id).used
    ensures var b' := Claim(b, id, create);
            Booked(b', live, known) && Known(b', id) && (create ==> Live(b', id))
    ensures id !in live && id !in known
  {
    Monotone(b, Claim(b, id, create), live, known);
    assert !Known(b, id) && !Live(b, id);
  }

  /** The local endpoint takes the next ID of a kind. */
  function TakeNext(b: IdBook, bidi: bool): IdBook {
    if bidi then b.(nextBidi := b.nextBidi + 4) else b.(nextUni := b.nextUni + 4)
  }

  /** The next ID of a kind. */
  function NextOf(b: IdBook, bidi: bool): nat { if bidi then b.nextBidi else b.nextUni }

  lemma TakeNextKeeps(b: IdBook, bidi: bool, live: set<nat>, known: set<nat>)
    requires Booked(b, live, known)
    ensures var id := NextOf(b, bidi);
            var b' := TakeNext(b, bidi);
            Booked(b', live, known) && Known(b', id) && Live(b', id) && id !in live && id !in known
  {
    var id := NextOf(b, bidi);
    TakeNextValid(b, bidi);
    NextUnused(b, id, bidi);
    NextTaken(TakeNext(b, bidi), id, bidi);
    Monotone(b, TakeNext(b, bidi), live, known);
  }

  lemma TakeNextValid(b: IdBook, bidi: bool)
    requires ValidBook(b)
    ensures ValidBook(TakeNext(b, bidi))
  {
    AddFour(b.nextBidi);
    AddFour(b.nextUni);
  }

  lemma AddFour(n: nat)
    ensures (n + 4) % 4 == n % 4
  {
  }

  lemma NextUnused(b: IdBook, id: nat, bidi: bool)
    requires id == NextOf(b, bidi) && id % 4 == (if b.server then 1 else 0) + (if bidi then 0 else 2)
    ensures !Known(b, id) && !Live(b, id)
  {
    NextIsLocal(b.server, id, bidi);
  }

  lemma NextTaken(b: IdBook, id: nat, bidi: bool)
    requires id < NextOf(b, bidi) && id % 4 == (if b.server then 1 else 0) + (if bidi then 0 else 2)
    ensures Known(b, id) && Live(b, id)
  {
    NextIsLocal(b.server, id, bidi);
  }

  lemma NextIsLocal(server: bool, id: nat, bidi: bool)
    requires id % 4 == (if server then 1 else 0) + (if bidi then 0 else 2)
    ensures LocalStream(server, id) && BidiStream(id) == bidi
  {
    Parity(id);
  }

  /** Closing a stream; `extend` if the peer is to get one more ID in exchange. */
  function CloseId(b: IdBook, id: nat, extend: bool): IdBook {
    if LocalStream(b.server, id) then b else
    var sp := Space(b, id);
    SetSpace(b, id, sp.(live := sp.live - {id / 4}, closed := sp.closed + {id / 4},
                        unsent := if extend then sp.unsent + 4 else sp.unsent))
  }

  lemma CloseIdKeeps(b: IdBook, id: nat, extend: bool, live: set<nat>, known: set<nat>)
    requires Booked(b, live, known) && id in live && id != 0
    ensures var b' := CloseId(b, id, extend);
            Booked(b', live - {id}, known) && Known(b', id)
  {
    var b' := CloseId(b, id, extend);
    assert Live(b, id);
    Monotone(b, b', live, known);
    forall x | x in live - {id} ensures Live(b', x) { CloseIdOther(b, id, extend, x); }
    CloseIdValid(b, id, extend);
  }

  lemma CloseIdValid(b: IdBook, id: nat, extend: bool)
    requires ValidBook(b) && Live(b, id) && id != 0
    ensures ValidBook(CloseId(b, id, extend)) && Known(CloseId(b, id, extend), id)
  {
    if !LocalStream(b.server, id) {
      CloseSpace(Space(b, id), id / 4, extend);
      if b.server && BidiStream(id) && id / 4 == 0 { SameId(true, id, 0); }
    }
  }

  lemma CloseSpace(sp: IdSpace, q: nat, extend: bool)
    requires ValidIds(sp) && q in sp.live
    ensures ValidIds(sp.(live := sp.live - {q}, closed := sp.closed + {q}, unsent := if extend then sp.unsent + 4 else sp.unsent))
  {
    assert |sp.closed + {q}| == |sp.closed| + 1;
    AddFour(sp.unsent);
  }

  lemma CloseIdOther(b: IdBook, id: nat, extend: bool, x: nat)
    requires Live(b, x) && x != id
    ensures Live(CloseId(b, id, extend), x)
  {
    if !LocalStream(b.server, x) && !LocalStream(b.server, id) && BidiStream(x) == BidiStream(id) && x / 4 == id / 4 {
      SameId(b.server, x, id);
    }
  }

  /** Two stream IDs of the same kind and side with the same number are the same. */
  lemma SameId(server: bool, x: nat, y: nat)
    requires !LocalStream(server, x) && !LocalStream(server, y) && BidiStream(x) == BidiStream(y) && x / 4 == y / 4
    ensures x == y
  {
    Residue(server, x);
    Residue(server, y);
  }

  lemma Parity(id: nat)
    ensures id % 4 == 0 || id % 4 == 2 ==> id % 2 == 0
    ensures id % 4 == 1 || id % 4 == 3 ==> id % 2 == 1
  {
    var k, r := id / 4, id % 4;
    assert id == 2 * (2 * k) + r;
  }

  lemma Residue(server: bool, id: nat)
    requires !LocalStream(server, id)
    ensures id % 4 == (if server then 0 else 1) + (if BidiStream(id) then 0 else 2)
  {
    Parity(id);
  }

  /** The advertised limit is brought up to the one not yet advertised. */
  function Advertise(b: IdBook, bidi: bool): IdBook {
    if bidi then b.(bidi := b.bidi.(max := b.bidi.unsent)) else b.(uni := b.uni.(max := b.uni.unsent))
  }

  lemma AdvertiseKeeps(b: IdBook, bidi: bool, live: set<nat>, known: set<nat>)
    requires Booked(b, live, known)
    ensures Booked(Advertise(b, bidi), live, known)
  {
    Monotone(b, Advertise(b, bidi), live, known);
  }

  // ----- the connection -----

  ghost predicate Inv(a: Accounts, b: IdBook) {
    Balanced(a) && Booked(b, a.strms.Keys, a.charged.Keys + a.sent.Keys)
  }

  lemma BookedMore(b: IdBook, live: set<nat>, known: set<nat>, id: nat)
    requires Booked(b, live, known) && Known(b, id)
    ensures Booked(b, live, known + {id}) && (Live(b, id) ==> Booked(b, live + {id}, known + {id}))
  {
  }

  lemma InvPut(a: Accounts, b: IdBook, id: nat, s: Strm, c: nat, sent: seq<byte>)
    requires Inv(a, b) && Live(b, id)
    requires ChargedTo(a, id) <= c && SentOn(a, id) <= |sent| && Balanced(Put(a, id, s, c, sent))
    ensures Inv(Put(a, id, s, c, sent), b)
  {
    LiveKnown(b, id);
    BookedMore(b, a.strms.Keys, a.charged.Keys + a.sent.Keys, id);
    PutKeys(a, id, s, c, sent);
  }

  lemma PutKeys(a: Accounts, id: nat, s: Strm, c: nat, sent: seq<byte>)
    requires ChargedTo(a, id) <= c && SentOn(a, id) <= |sent|
    ensures var a' := Put(a, id, s, c, sent);
            && a'.strms.Keys == a.strms.Keys + {id}
            && a'.charged.Keys + a'.sent.Keys == a.charged.Keys + a.sent.Keys + {id}
  {
  }

  lemma InvClose(a: Accounts, b: IdBook, id: nat, extend: bool)
    requires Inv(a, b) && id in a.strms && ShouldClose(a.strms[id])
    ensures Inv(CloseStrm(a, id), CloseId(b, id, extend))
  {
    CloseStrmKeeps(a, id);
    assert ValidStrm(a.strms[id]) && id != 0;
    CloseIdKeeps(b, id, extend, a.strms.Keys, a.charged.Keys + a.sent.Keys);
    assert (a.strms - {id}).Keys == a.strms.Keys - {id};
  }

  /** The peer-initiated streams of a kind that exist, stream 0 included. */
  ghost function PeerStreams(a: Accounts, b: IdBook, bidi: bool): set<nat> {
    (set id | id in a.strms && !LocalStream(b.server, id) && BidiStream(id) == bidi) +
    (if b.server && bidi then {0} else {})
  }

  /** In every state that satisfies the invariant, the peer has at most initial/4 + 1 streams of a kind. */
  lemma PeerStreamsBounded(a: Accounts, b: IdBook, bidi: bool)
    requires Inv(a, b)
    ensures |PeerStreams(a, b, bidi)| <= (if bidi then b.bidi.initial else b.uni.initial) / 4 + 1
  {
    var sp := if bidi then b.bidi else b.uni;
    var r := (if b.server then 0 else 1) + (if bidi then 0 else 2);
    forall id | id in PeerStreams(a, b, bidi) ensures id % 4 == r && id / 4 in sp.live {
      if id in a.strms {
        assert Live(b, id);
        Residue(b.server, id);
      }
    }
    ImageSize(PeerStreams(a, b, bidi), sp.live, r);
    LiveBound(sp);
  }
}
