/**
 What the steps of a connection have in common: every one of them changes one
 stream, or closes one, or moves a limit.
 */
module Steps {
  import opened Basics
  import opened StreamReceive
  import opened Streams
  import opened Ledger

  /** `s` may take the place of stream `id`, with `c` bytes charged and `sent` sent on it in all. */
  ghost predicate Fits(a: Accounts, id: nat, s: Strm, c: nat, sent: seq<byte>) {
    && id != 0 && id !in a.closed && ChargedTo(a, id) <= c && SentOn(a, id) <= |sent|
    && ValidStrm(s) && s.lastRx <= c <= s.maxRx && (!s.recvRst ==> c == s.lastRx) && s.tx == |sent|
    && a.rx + (c - ChargedTo(a, id)) <= a.maxRx && a.tx + (|sent| - SentOn(a, id)) <= a.maxTx
    && Continues(a, id, s, sent)
  }

  /** What was sent stays sent, a side shut for writing stays shut, and the stream's limit does not drop. */
  ghost predicate Continues(a: Accounts, id: nat, s: Strm, sent: seq<byte>) {
    if id in a.strms then
      && id in a.sent && a.sent[id] <= sent && a.strms[id].maxRx <= s.maxRx
      && (a.strms[id].shutWr ==> s.shutWr && sent == a.sent[id])
    else id !in a.sent
  }

  /** No more bytes will be sent on the stream. */
  predicate Finished(a: Accounts, id: nat) { id in a.strms ==> a.strms[id].shutWr }

  /**
   From `a` to `a'` no credit given to the peer was taken back, and the bytes sent on
   a stream were only appended to, and not even that once it was finished.
   */
  ghost predicate Grows(a: Accounts, a': Accounts) {
    a.maxRx <= a'.maxRx && LimitsGrow(a.strms, a'.strms) && SentGrows(a, a')
  }

  /** From `b` to `b'` no stream ID given to the peer was taken back. */
  ghost predicate IdsGrow(b: IdBook, b': IdBook) {
    && b.server == b'.server && b.bidi.initial == b'.bidi.initial && b.uni.initial == b'.uni.initial
    && b.bidi.max <= b'.bidi.max && b.uni.max <= b'.uni.max
  }

  /** From `a` to `a'` nothing was sent. */
  ghost predicate Quiet(a: Accounts, a': Accounts) {
    && a.sent.Keys <= a'.sent.Keys
    && (forall id {:trigger a'.sent[id]} :: id in a'.sent ==> a'.sent[id] == SentBytes(a, id))
  }

  /** A step other than sending. */
  ghost predicate Calm(a: Accounts, a': Accounts) { Grows(a, a') && Quiet(a, a') }

  ghost predicate LimitsGrow(strms: map<nat, Strm>, strms': map<nat, Strm>) {
    forall id {:trigger strms'[id]} :: id in strms && id in strms' ==> strms[id].maxRx <= strms'[id].maxRx
  }

  ghost predicate SentGrows(a: Accounts, a': Accounts) {
    forall id {:trigger a.sent[id]} {:trigger a'.sent[id]} :: id in a.sent ==>
      && id in a'.sent && a.sent[id] <= a'.sent[id]
      && (Finished(a, id) ==> Finished(a', id) && a'.sent[id] == a.sent[id])
  }

  function SentBytes(a: Accounts, id: nat): (r: seq<byte>)
    ensures |r| == SentOn(a, id)
  {
    if id in a.sent then a.sent[id] else []
  }

  /** A stream is put in place: the invariant is kept. */
  lemma StoreKeeps(a: Accounts, b: IdBook, id: nat, s: Strm, c: nat, sent: seq<byte>)
    requires Inv(a, b) && Live(b, id) && Fits(a, id, s, c, sent)
    ensures Inv(Put(a, id, s, c, sent), b)
  {
    PutKeeps(a, id, s, c, sent);
    InvPut(a, b, id, s, c, sent);
  }

  lemma StoreGrows(a: Accounts, id: nat, s: Strm, c: nat, sent: seq<byte>)
    requires Fits(a, id, s, c, sent)
    ensures Grows(a, Put(a, id, s, c, sent))
    ensures sent == SentBytes(a, id) ==> Calm(a, Put(a, id, s, c, sent))
  {
    var a' := Put(a, id, s, c, sent);
    forall x | x in a.strms && x in a'.strms ensures a.strms[x].maxRx <= a'.strms[x].maxRx {}
    forall x | x in a.sent
      ensures && x in a'.sent && a.sent[x] <= a'.sent[x]
              && (Finished(a, x) ==> Finished(a', x) && a'.sent[x] == a.sent[x]) {}
  }

  lemma GrowsTrans(a: Accounts, a1: Accounts, a2: Accounts)
    requires Grows(a, a1) && Grows(a1, a2) && a.strms.Keys <= a1.strms.Keys
    ensures Grows(a, a2)
  {
    forall x | x in a.strms && x in a2.strms ensures a.strms[x].maxRx <= a2.strms[x].maxRx {
      assert a1.strms[x].maxRx <= a2.strms[x].maxRx;
    }
    SentGrowsTrans(a, a1, a2);
  }

  lemma CalmTrans(a: Accounts, a1: Accounts, a2: Accounts)
    requires Calm(a, a1) && Calm(a1, a2) && a.strms.Keys <= a1.strms.Keys
    ensures Calm(a, a2)
  {
    GrowsTrans(a, a1, a2);
    forall id | id in a2.sent ensures a2.sent[id] == SentBytes(a, id) {
      assert a2.sent[id] == SentBytes(a1, id);
      if id in a1.sent { assert a1.sent[id] == SentBytes(a, id); }
    }
  }

  lemma SentGrowsTrans(a: Accounts, a1: Accounts, a2: Accounts)
    requires SentGrows(a, a1) && SentGrows(a1, a2)
    ensures SentGrows(a, a2)
  {
    forall x | x in a.sent
      ensures && x in a2.sent && a.sent[x] <= a2.sent[x]
              && (Finished(a, x) ==> Finished(a2, x) && a2.sent[x] == a.sent[x])
    {
      assert x in a1.sent && a.sent[x] <= a1.sent[x];
      assert a1.sent[x] <= a2.sent[x];
    }
  }

  // ----- changes of one stream -----

  /** `s` is stream `id` changed in a way that charges and sends nothing. */
  ghost predicate Touches(a: Accounts, id: nat, s: Strm) {
    && id in a.strms && ValidStrm(s)
    && s.lastRx == a.strms[id].lastRx && s.tx == a.strms[id].tx && a.strms[id].maxRx <= s.maxRx
    && (a.strms[id].recvRst ==> s.recvRst) && (a.strms[id].shutWr ==> s.shutWr)
  }

  lemma TouchFits(a: Accounts, id: nat, s: Strm)
    requires Balanced(a) && Touches(a, id, s)
    ensures Fits(a, id, s, ChargedTo(a, id), SentBytes(a, id))
  {
  }

  /** An accepted STREAM frame. */
  lemma FrameFits(a: Accounts, id: nat, fr: StreamFrame, d: RxDecision)
    requires Balanced(a) && id in a.strms && d == Decide(a.strms[id].View(), fr, a.maxRx - a.rx) && d.Accept?
    ensures Fits(a, id, Received(a.strms[id], fr, d), ChargedTo(a, id) + d.charge, SentBytes(a, id))
  {
    var s := a.strms[id];
    ReceivedExtends(s, fr, a.maxRx - a.rx, d, Received(s, fr, d));
    ExtendedFits(a, id, Received(s, fr, d), d.charge);
    ReceivedShut(s, fr, d);
  }

  lemma ReceivedShut(s: Strm, fr: StreamFrame, d: RxDecision)
    requires d.Accept?
    ensures Received(s, fr, d).shutWr == s.shutWr
  {
  }

  lemma ExtendedFits(a: Accounts, id: nat, s: Strm, charge: nat)
    requires Balanced(a) && id in a.strms && Extended(a.strms[id], s, charge, a.maxRx - a.rx)
    ensures s.shutWr == a.strms[id].shutWr ==> Fits(a, id, s, ChargedTo(a, id) + charge, SentBytes(a, id))
  {
    assert ValidStrm(a.strms[id]);
    assert a.strms[id].tx == |a.sent[id]|;
  }

  /** A reset with a final offset the stream and the connection have credit for. */
  lemma ResetFits(a: Accounts, id: nat, final: nat)
    requires Balanced(a) && id in a.strms && a.strms[id].lastRx <= final <= a.strms[id].maxRx
    requires a.strms[id].shutRd ==> final == a.strms[id].lastRx
    requires final - a.strms[id].lastRx <= a.maxRx - a.rx
    ensures Fits(a, id, a.strms[id].(shutRd := true, recvRst := true),
                 ChargedTo(a, id) + (final - a.strms[id].lastRx), SentBytes(a, id))
  {
    var s := a.strms[id];
    OpenAt(a.strms, a.charged, a.sent, id, s);
    ResetValid(s);
  }

  lemma ResetValid(s: Strm)
    requires ValidStrm(s)
    ensures ValidStrm(s.(shutRd := true, recvRst := true))
  {
  }

  /** Data that both the stream and the connection have credit for. */
  lemma WriteFits(a: Accounts, id: nat, data: seq<byte>, fin: bool)
    requires Balanced(a) && id in a.strms && !a.strms[id].shutWr
    requires a.strms[id].tx + |data| <= a.strms[id].maxTx && a.tx + |data| <= a.maxTx
    ensures Fits(a, id, Sent(a.strms[id], |data|, fin), ChargedTo(a, id), SentBytes(a, id) + data)
  {
    var s := a.strms[id];
    assert ValidStrm(s);
    assert s.tx == |a.sent[id]|;
    SentValid(s, |data|, fin);
  }

  lemma NewFits(a: Accounts, id: nat, s: Strm, maxRx: nat, maxTx: nat)
    requires Balanced(a) && id != 0 && id !in a.strms && id !in a.charged && id !in a.sent
    requires maxTx <= MAX_VARINT && s == NewStrm(maxRx, maxTx).(shutRd := s.shutRd, shutWr := s.shutWr)
    ensures Fits(a, id, s, 0, [])
  {
    NewStrmValid(maxRx, maxTx);
  }

  // ----- closing -----

  /** The peer gets one more ID for a closed one if the limit may grow and its first ID has been used. */
  predicate ExtendsIds(b: IdBook, id: nat) {
    Space(b, id).unsent <= MAX_VARINT - 4 && 0 in Space(b, id).used
  }

  /** The streams once stream `id` is closed, if it has nothing left to do. */
  function Settle(a: Accounts, id: nat): Accounts
    requires id in a.strms
  {
    if ShouldClose(a.strms[id]) then CloseStrm(a, id) else a
  }

  function SettleIds(a: Accounts, b: IdBook, id: nat): IdBook
    requires id in a.strms
  {
    if ShouldClose(a.strms[id]) then CloseId(b, id, ExtendsIds(b, id)) else b
  }

  lemma SettleKeeps(a: Accounts, b: IdBook, id: nat)
    requires Inv(a, b) && id in a.strms
    ensures Inv(Settle(a, id), SettleIds(a, b, id))
    ensures Calm(a, Settle(a, id)) && IdsGrow(b, SettleIds(a, b, id))
  {
    SettleInv(a, b, id);
    SettleGrows(a, id);
    SettleIdsGrow(a, b, id);
  }

  lemma SettleInv(a: Accounts, b: IdBook, id: nat)
    requires Inv(a, b) && id in a.strms
    ensures Inv(Settle(a, id), SettleIds(a, b, id))
  {
    if ShouldClose(a.strms[id]) { InvClose(a, b, id, ExtendsIds(b, id)); }
  }

  lemma SettleGrows(a: Accounts, id: nat)
    requires id in a.strms
    ensures Calm(a, Settle(a, id))
  {
    if ShouldClose(a.strms[id]) { CloseGrows(a, id); } else { Same(a); }
  }

  lemma SettleIdsGrow(a: Accounts, b: IdBook, id: nat)
    requires id in a.strms
    ensures IdsGrow(b, SettleIds(a, b, id))
  {
  }

  lemma Same(a: Accounts)
    ensures Calm(a, a)
  {
    assert SentGrows(a, a);
  }

  lemma CloseGrows(a: Accounts, id: nat)
    requires id in a.strms && a.strms[id].shutWr
    ensures Calm(a, CloseStrm(a, id))
  {
    var a' := CloseStrm(a, id);
    forall x | x in a.strms && x in a'.strms ensures a.strms[x].maxRx <= a'.strms[x].maxRx {}
    forall x | x in a.sent
      ensures && x in a'.sent && a.sent[x] <= a'.sent[x]
              && (Finished(a, x) ==> Finished(a', x) && a'.sent[x] == a.sent[x]) {}
  }

  // ----- new streams -----

  /** A stream with no history appears. */
  function Add(a: Accounts, id: nat, s: Strm): Accounts {
    a.(strms := a.strms[id := s], charged := a.charged[id := 0], sent := a.sent[id := []])
  }

  lemma AddIsPut(a: Accounts, id: nat, s: Strm)
    requires id !in a.charged && id !in a.sent
    ensures Add(a, id, s) == Put(a, id, s, 0, [])
  {
  }

  /** A reset for a stream that was never created is charged to the connection all the same. */
  function ChargeOnly(a: Accounts, id: nat, c: nat): Accounts {
    a.(charged := a.charged[id := c], rx := a.rx + c)
  }

  lemma ChargeOnlyKeeps(a: Accounts, b: IdBook, id: nat, c: nat)
    requires Inv(a, b) && Known(b, id) && id !in a.charged && id !in a.strms && a.rx + c <= a.maxRx
    ensures Inv(ChargeOnly(a, id, c), b) && Calm(a, ChargeOnly(a, id, c))
  {
    ChargeKeeps(a, id, c);
    BookedMore(b, a.strms.Keys, a.charged.Keys + a.sent.Keys, id);
    ChargeKeys(a.charged, a.sent.Keys, id, c);
    ChargeOnlyGrows(a, id, c);
  }

  lemma ChargeKeys(charged: map<nat, nat>, sent: set<nat>, id: nat, c: nat)
    ensures charged[id := c].Keys + sent == charged.Keys + sent + {id}
  {
  }

  lemma ChargeOnlyGrows(a: Accounts, id: nat, c: nat)
    ensures Calm(a, ChargeOnly(a, id, c))
  {
    assert SentGrows(a, ChargeOnly(a, id, c));
  }

  // ----- limits -----

  /** The limits may be anything that what was received and sent respects. */
  lemma LimitsKeep(a: Accounts, b: IdBook, maxRx: nat, unsent: nat, maxTx: nat)
    requires Inv(a, b) && a.rx <= maxRx <= unsent <= MAX_VARINT && a.tx <= maxTx
    ensures Inv(a.(maxRx := maxRx, unsentMaxRx := unsent, maxTx := maxTx), b)
    ensures a.maxRx <= maxRx ==> Calm(a, a.(maxRx := maxRx, unsentMaxRx := unsent, maxTx := maxTx))
  {
    assert SentGrows(a, a.(maxRx := maxRx, unsentMaxRx := unsent, maxTx := maxTx));
  }

  lemma AdvertiseIds(a: Accounts, b: IdBook, bidi: bool)
    requires Inv(a, b)
    ensures Inv(a, Advertise(b, bidi)) && IdsGrow(b, Advertise(b, bidi))
    ensures Advertise(b, bidi).bidi.used == b.bidi.used && Advertise(b, bidi).uni.used == b.uni.used
  {
    AdvertiseKeeps(b, bidi, a.strms.Keys, a.charged.Keys + a.sent.Keys);
  }

  function Touched(a: Accounts, id: nat, s: Strm): Accounts {
    Put(a, id, s, ChargedTo(a, id), SentBytes(a, id))
  }

  /** A stream's limit raised by `n`, in 64-bit arithmetic. */
  function RaisedLimit(limit: nat, n: nat): nat
  {
    var room := if n <= MAX_VARINT then MAX_VARINT - n else SPAN + MAX_VARINT - n;
    if limit > room then limit
    else if limit + n < SPAN then limit + n
    else limit + n - SPAN
  }

  /** The sum wraps around. */
  predicate Wraps(limit: nat, n: nat) { MAX_VARINT < n && SPAN <= limit + n <= SPAN + MAX_VARINT }

  /** The limit is not lowered exactly if the sum does not wrap around; amounts up to MAX_VARINT never do. */
  lemma RaisedLimitGrows(limit: nat, n: nat)
    requires limit < SPAN && n < SPAN
    ensures limit <= RaisedLimit(limit, n) <==> !Wraps(limit, n)
  {
  }
}
