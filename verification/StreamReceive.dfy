/**
 The receive side of one stream: from STREAM frames in any order to in-order
 data for the application.
 */
module StreamReceive {
  import opened Basics
  import opened Ranges
  import opened ReorderBuffer

  const ROB_CHUNK: nat := 8 * 1024

  datatype Status =
    | Ok
    | ErrFrameFormat
    | ErrProto
    | ErrFlowControl
    | ErrFinalOffset
    | ErrStreamState
    | ErrStreamId
    | ErrStreamIdBlocked
    | ErrStreamNotFound
    | ErrStreamShutWr
    | ErrStreamDataBlocked
    | ErrInvalidArgument
    | ErrNoBuf

  datatype StreamFrame = StreamFrame(offset: nat, data: seq<byte>, fin: bool)
  {
    function End(): nat { offset + |data| }
  }

  // ----- what to do with a frame -----

  datatype RxView = RxView(lastRx: nat, maxRx: nat, firstGap: nat, shutRd: bool, stopSending: bool)

  datatype RxAction = Discard | CloseOnly | FinOnly | Deliver | Reorder

  datatype RxDecision =
    | Reject(status: Status)
    | Accept(action: RxAction, lastRx: nat, shutRd: bool, charge: nat)

  /** The branches of STREAM frame processing, given the connection credit that is left. */
  function Decide(v: RxView, fr: StreamFrame, credit: nat): RxDecision
  {
    var end := fr.End();
    var charge := if v.lastRx < end then end - v.lastRx else 0;
    if !fr.fin && fr.data == [] then Reject(ErrFrameFormat)
    else if end > MAX_VARINT then Reject(ErrProto)
    else if v.maxRx < end || credit < charge then Reject(ErrFlowControl)
    else if fr.fin then
      if v.shutRd then
        if v.lastRx != end then Reject(ErrFinalOffset) else Accept(Discard, end, true, 0)
      else if v.lastRx > end then Reject(ErrFinalOffset)
      else
        Accept(if v.stopSending then CloseOnly
               else if end == v.firstGap then FinOnly
               else if fr.offset <= v.firstGap then Deliver
               else Reorder, end, true, charge)
    else if v.shutRd && v.lastRx < end then Reject(ErrFinalOffset)
    else
      Accept(if end <= v.firstGap || v.stopSending then Discard
             else if fr.offset <= v.firstGap then Deliver
             else Reorder, Max(v.lastRx, end), v.shutRd, charge)
  }

  lemma DecideStatus(v: RxView, fr: StreamFrame, credit: nat)
    ensures Decide(v, fr, credit).Reject? ==> Decide(v, fr, credit).status != Ok
  {
  }

  // ----- what the application has been given -----

  /** One call of the application's receive callback. */
  datatype Delivery = Delivery(fin: bool, data: seq<byte>)

  function Concat(log: seq<Delivery>): seq<byte> {
    if log == [] then [] else Concat(log[..|log| - 1]) + log[|log| - 1].data
  }

  predicate FinRaised(log: seq<Delivery>) { log != [] && log[|log| - 1].fin }

  /** The callbacks so far delivered exactly the first `rx` bytes of `stream`, with fin in the last one at most. */
  ghost predicate Delivered(log: seq<Delivery>, stream: seq<byte>, rx: nat) {
    && rx <= |stream| && Concat(log) == stream[..rx]
    && (forall i :: 0 <= i < |log| - 1 ==> !log[i].fin)
  }

  lemma DeliverNext(log: seq<Delivery>, stream: seq<byte>, rx: nat, d: Delivery, rx': nat)
    requires Delivered(log, stream, rx) && !FinRaised(log)
    requires rx <= rx' <= |stream| && d.data == stream[rx..rx']
    ensures Delivered(log + [d], stream, rx') && FinRaised(log + [d]) == d.fin
  {
    var log' := log + [d];
    assert log'[..|log'| - 1] == log;
    assert stream[..rx] + stream[rx..rx'] == stream[..rx'];
  }

  /** Every buffered byte is the stream's byte. */
  ghost predicate Agrees(bytes: map<nat, byte>, stream: seq<byte>) {
    forall o {:trigger bytes[o]} :: o in bytes ==> o < |stream| && bytes[o] == stream[o]
  }

  ghost predicate SliceOf(fr: StreamFrame, stream: seq<byte>) {
    fr.End() <= |stream| && fr.data == stream[fr.offset..fr.End()]
  }

  lemma ReadsSlice(bytes: map<nat, byte>, base: nat, dest: seq<byte>, stream: seq<byte>)
    requires Agrees(bytes, stream) && ReadsFrom(bytes, base, dest) && base <= |stream|
    ensures base + |dest| <= |stream| && dest == stream[base..base + |dest|]
  {
    forall k | 0 <= k < |dest| ensures base + k < |stream| && dest[k] == stream[base + k] {
      var b := dest[k];
      assert b == bytes[base + k];
    }
    if dest != [] {
      var b := dest[|dest| - 1];
      assert base + (|dest| - 1) < |stream|;
    }
  }

  lemma PushAgrees(bytes: map<nat, byte>, gaps: seq<Range>, fr: StreamFrame, stream: seq<byte>)
    requires Agrees(bytes, stream) && SliceOf(fr, stream)
    ensures Agrees(bytes + Missing(gaps, fr.offset, fr.data), stream)
  {
    var m := Missing(gaps, fr.offset, fr.data);
    forall o | o in m ensures o < |stream| && m[o] == stream[o] {
      assert m[o] == fr.data[o - fr.offset];
    }
  }

  /** Everything from `x` on is missing. */
  ghost predicate MissingFrom(gaps: seq<Range>, from: nat) {
    forall x: nat :: from <= x < UINT64_MAX ==> Covers(gaps, x)
  }

  /** Taking out a range past the first gap offset leaves that offset first. */
  lemma PushedPast(gaps: seq<Range>, begin: nat, end: nat, last: nat) returns (gaps': seq<Range>)
    requires Sorted(gaps) && gaps != [] && FirstOffset(gaps) < begin && end <= last && MissingFrom(gaps, last)
    ensures gaps' == Subtract(gaps, Range(begin, end))
    ensures FirstOffset(gaps') == FirstOffset(gaps) && MissingFrom(gaps', last)
  {
    gaps' := Subtract(gaps, Range(begin, end));
    SubtractAll(gaps, Range(begin, end));
    SubtractSorted(gaps, Range(begin, end));
    FirstOffsetIsLeastAll(gaps);
    FirstOffsetIsLeastAll(gaps');
    assert Covers(gaps', FirstOffset(gaps));
  }

  lemma SkippedFirst(gaps: seq<Range>, gaps': seq<Range>, next: nat, last: nat)
    requires Sorted(gaps') && Covers(gaps, last) && next <= last
    requires forall x: nat :: Covers(gaps', x) <==> Covers(gaps, x) && next <= x
    ensures gaps' != [] && next <= FirstOffset(gaps') <= last
  {
    assert Covers(gaps', last);
    FirstOffsetIsLeastAll(gaps');
  }

  /** Skipping to `next` takes out what a range up to `next` takes out that starts before the first gap. */
  lemma SkippedTook(gaps: seq<Range>, gaps': seq<Range>, begin: nat, next: nat)
    requires Sorted(gaps) && Sorted(gaps') && begin <= FirstOffset(gaps)
    requires forall x: nat :: Covers(gaps', x) <==> Covers(gaps, x) && next <= x
    ensures gaps' == Subtract(gaps, Range(begin, next))
  {
    var r := Subtract(gaps, Range(begin, next));
    FirstOffsetIsLeastAll(gaps);
    SubtractSorted(gaps, Range(begin, next));
    forall x: nat ensures Covers(gaps', x) <==> Covers(r, x) { SubtractCovers(gaps, Range(begin, next), x); }
    Canonical(gaps', r);
  }

  lemma SubtractAll(gaps: seq<Range>, q: Range)
    ensures forall x: nat :: Covers(Subtract(gaps, q), x) <==> Covers(gaps, x) && !In(x, q)
  {
    forall x: nat ensures Covers(Subtract(gaps, q), x) <==> Covers(gaps, x) && !In(x, q) { SubtractCovers(gaps, q, x); }
  }

  /** The receive credit of the connection. */
  class ConnRx {
    var rxOffset: nat
    var maxRxOffset: nat

    constructor (maxRxOffset: nat)
      ensures rxOffset == 0 && this.maxRxOffset == maxRxOffset
    {
      rxOffset := 0;
      this.maxRxOffset := maxRxOffset;
    }
  }

  class RxStrm {
    const rob: Rob
    var lastRxOffset: nat
    var maxRxOffset: nat
    var shutRd: bool
    var stopSending: bool
    // The receive callbacks made for this stream.
    var log: seq<Delivery>

    /** All that was received in order has been handed out, and nothing past lastRxOffset was received. */
    ghost predicate Valid()
      reads this, rob, rob.repr
    {
      && rob.Valid()
      && rob.base == FirstOffset(rob.gaps)
      && lastRxOffset <= MAX_VARINT
      && MissingFrom(rob.gaps, lastRxOffset)
    }

    /** The state is the one reached by receiving parts of `stream`. */
    ghost predicate Follows(stream: seq<byte>)
      reads this, rob, rob.repr
    {
      && Valid()
      && Agrees(rob.bytes, stream)
      && Delivered(log, stream, rob.base)
      && (FinRaised(log) ==> shutRd && rob.base == lastRxOffset)
      && (shutRd && rob.base == lastRxOffset && !stopSending ==> FinRaised(log))
    }

    ghost function View(): RxView
      reads this, rob
    {
      RxView(lastRxOffset, maxRxOffset, FirstOffset(rob.gaps), shutRd, stopSending)
    }

    constructor (maxRxOffset: nat)
      ensures Valid() && fresh(rob) && fresh(rob.repr)
      ensures log == [] && !shutRd && !stopSending && lastRxOffset == 0 && this.maxRxOffset == maxRxOffset
      ensures rob.gaps == [Range(0, UINT64_MAX)]
      ensures forall stream :: Follows(stream)
    {
      rob := new Rob(ROB_CHUNK);
      lastRxOffset, this.maxRxOffset := 0, maxRxOffset;
      shutRd, stopSending, log := false, false, [];
      new;
      forall x: nat | x < UINT64_MAX ensures Covers(rob.gaps, x) { assert In(x, rob.gaps[0]); }
    }

    /** Hands out buffered data from `offset` until the first gap. */
    method EmitPending(offset: nat, ghost stream: seq<byte>)
      requires rob.Valid() && rob.gaps != [] && offset == rob.base && offset <= FirstOffset(rob.gaps) <= lastRxOffset
      requires Agrees(rob.bytes, stream) && Delivered(log, stream, offset)
      requires FinRaised(log) <==> shutRd && offset == lastRxOffset
      modifies this`log, rob
      ensures rob.Valid() && rob.gaps == old(rob.gaps) && rob.repr == old(rob.repr)
      ensures rob.base == FirstOffset(rob.gaps)
      ensures Agrees(rob.bytes, stream)
      ensures Delivered(log, stream, rob.base) && (FinRaised(log) <==> shutRd && rob.base == lastRxOffset)
    {
      var rx := offset;
      while true
        invariant rob.Valid() && rob.gaps == old(rob.gaps) && rob.repr == old(rob.repr)
        invariant rx == rob.base && rx <= FirstOffset(rob.gaps)
        invariant Agrees(rob.bytes, stream) && Delivered(log, stream, rx)
        invariant FinRaised(log) <==> shutRd && rx == lastRxOffset
        decreases FirstOffset(rob.gaps) - rx
      {
        var data := rob.DataAt(rx);
        if |data| == 0 {
          assert rx == FirstOffset(rob.gaps);
          return;
        }
        ReadsSlice(rob.bytes, rx, data, stream);
        var next := rx + |data|;
        var d := Delivery(shutRd && next == lastRxOffset, data);
        DeliverNext(log, stream, rx, d, next);
        log := log + [d];
        rob.Pop(rx, |data|);
        rx := next;
      }
    }

    /** A frame with new data up to lastRxOffset is about to be taken in. */
    ghost predicate Receiving(stream: seq<byte>, fr: StreamFrame)
      reads this, rob, rob.repr
    {
      && Valid() && Agrees(rob.bytes, stream) && SliceOf(fr, stream)
      && Delivered(log, stream, rob.base) && !FinRaised(log)
      && rob.base < fr.End() <= lastRxOffset
    }

    /** Exactly the offsets of the frame are no longer missing. */
    twostate predicate Took(fr: StreamFrame)
      reads rob
    {
      rob.gaps == Subtract(old(rob.gaps), Range(fr.offset, fr.End()))
    }

    lemma FirstGapBound()
      requires Valid()
      ensures rob.gaps != [] && FirstOffset(rob.gaps) <= lastRxOffset
    {
      assert Covers(rob.gaps, lastRxOffset);
      FirstOffsetIsLeast(rob.gaps, lastRxOffset);
    }

    /** Skips the reorder buffer to `next`, which the frame at hand reaches. */
    method SkipTo(next: nat, ghost stream: seq<byte>)
      requires Valid() && Agrees(rob.bytes, stream) && rob.base <= next <= lastRxOffset
      modifies rob
      ensures rob.Valid() && rob.base == next && rob.repr == old(rob.repr)
      ensures forall x: nat :: Covers(rob.gaps, x) <==> old(Covers(rob.gaps, x)) && next <= x
      ensures rob.gaps != [] && next <= FirstOffset(rob.gaps) <= lastRxOffset
      ensures Agrees(rob.bytes, stream)
    {
      ghost var gaps := rob.gaps;
      rob.RemovePrefix(next);
      SkippedFirst(gaps, rob.gaps, next, lastRxOffset);
    }

    /** Takes in a frame that starts at or before the first gap, and what it makes available. */
    method DeliverFrame(fr: StreamFrame, ghost stream: seq<byte>)
      requires Receiving(stream, fr) && fr.offset <= rob.base
      modifies this`log, rob
      ensures Follows(stream) && rob.repr == old(rob.repr) && Took(fr)
    {
      FirstGapBound();
      var rx := FirstOffset(rob.gaps);
      var ncut := rx - fr.offset;
      var data := fr.data[ncut..];
      var next := rx + |data|;
      ghost var gaps := rob.gaps;
      SkipTo(next, stream);
      SkippedTook(gaps, rob.gaps, fr.offset, next);
      var d := Delivery(shutRd && next == lastRxOffset, data);
      DeliverNext(log, stream, rx, d, next);
      log := log + [d];
      EmitPending(next, stream);
    }

    /** Buffers a frame that starts past the first gap. */
    method ReorderFrame(fr: StreamFrame, ghost stream: seq<byte>)
      requires Receiving(stream, fr) && rob.base < fr.offset
      modifies rob, rob.repr
      ensures Follows(stream) && fresh(rob.repr - old(rob.repr)) && Took(fr)
    {
      FirstGapBound();
      PushAgrees(rob.bytes, rob.gaps, fr, stream);
      ghost var want := PushedPast(rob.gaps, fr.offset, fr.End(), lastRxOffset);
      rob.Push(fr.offset, fr.data);
      assert rob.gaps == want;
    }

    /** Raises the end of what was received, and closes the read side on fin. */
    method Note(end: nat, fin: bool)
      requires Valid() && end <= MAX_VARINT
      modifies this`lastRxOffset, this`shutRd
      ensures Valid()
      ensures lastRxOffset == Max(old(lastRxOffset), end) && shutRd == (old(shutRd) || fin)
    {
      lastRxOffset := Max(lastRxOffset, end);
      if fin {
        shutRd := true;
      }
    }

    /** Checks the form and the flow control limits of a frame, and charges the connection for new bytes. */
    method Charge(conn: ConnRx, fr: StreamFrame) returns (status: Status)
      requires conn.rxOffset <= conn.maxRxOffset
      modifies conn`rxOffset
      ensures conn.rxOffset <= conn.maxRxOffset
      ensures var d := Decide(View(), fr, conn.maxRxOffset - old(conn.rxOffset));
              && (status != Ok ==> d == Reject(status))
              && (status == Ok ==> fr.End() <= MAX_VARINT && (d.Reject? ==> d.status == ErrFinalOffset))
              && (status == Ok && d.Accept? ==> conn.rxOffset == old(conn.rxOffset) + d.charge)
    {
      if !fr.fin && |fr.data| == 0 {
        return ErrFrameFormat;
      }
      if MAX_VARINT - |fr.data| < fr.offset {
        return ErrProto;
      }
      var end := fr.offset + |fr.data|;
      if maxRxOffset < end {
        return ErrFlowControl;
      }
      if lastRxOffset < end {
        var datalen := end - lastRxOffset;
        if conn.maxRxOffset - conn.rxOffset < datalen {
          return ErrFlowControl;
        }
        conn.rxOffset := conn.rxOffset + datalen;
      }
      return Ok;
    }

    /** Checks the final offset, notes what the frame says about it, and selects what to do with the data. */
    method Classify(fr: StreamFrame, ghost stream: seq<byte>, ghost credit: nat) returns (status: Status, action: RxAction)
      requires Follows(stream) && SliceOf(fr, stream) && fr.End() <= MAX_VARINT
      requires var d := Decide(View(), fr, credit); d.Reject? ==> d.status == ErrFinalOffset
      modifies this`lastRxOffset, this`shutRd, this`log
      ensures var d := Decide(old(View()), fr, credit);
              if status != Ok then
                d == Reject(status) && lastRxOffset == old(lastRxOffset) && shutRd == old(shutRd) && log == old(log)
              else
                d.Accept? && d == Accept(action, lastRxOffset, shutRd, d.charge)
      ensures if status == Ok && (action.Deliver? || action.Reorder?) then Receiving(stream, fr) else Follows(stream)
    {
      action := Discard;
      var end := fr.offset + |fr.data|;
      FirstGapBound();
      var rx := FirstOffset(rob.gaps);
      if fr.fin {
        if shutRd {
          status := if lastRxOffset != end then ErrFinalOffset else Ok;
          return;
        } else if lastRxOffset > end {
          return ErrFinalOffset, action;
        }
        Note(end, true);
        if stopSending {
          return Ok, CloseOnly;
        }
        if end == rx {
          DeliverNext(log, stream, rx, Delivery(true, []), rx);
          log := log + [Delivery(true, [])];
          return Ok, FinOnly;
        }
      } else {
        if shutRd && lastRxOffset < end {
          return ErrFinalOffset, action;
        }
        Note(end, false);
        if end <= rx || stopSending {
          return Ok, action;
        }
      }
      return Ok, if fr.offset <= rx then Deliver else Reorder;
    }

    /**
     Processes a STREAM frame that agrees with `stream`.  A frame is refused, or
     its bytes are taken in and all data that is now in order is handed out.
     */
    method RecvStream(conn: ConnRx, fr: StreamFrame, ghost stream: seq<byte>) returns (status: Status, action: RxAction)
      requires Follows(stream) && SliceOf(fr, stream) && conn.rxOffset <= conn.maxRxOffset
      modifies this`lastRxOffset, this`shutRd, this`log, conn`rxOffset, rob, rob.repr
      ensures conn.rxOffset <= conn.maxRxOffset && fresh(rob.repr - old(rob.repr))
      ensures Follows(stream)
      ensures var d := Decide(old(View()), fr, conn.maxRxOffset - old(conn.rxOffset));
              if status != Ok then
                d == Reject(status) && lastRxOffset == old(lastRxOffset) && shutRd == old(shutRd) && log == old(log)
              else
                d.Accept? && d == Accept(action, lastRxOffset, shutRd, d.charge) && conn.rxOffset == old(conn.rxOffset) + d.charge
      ensures if status == Ok && (action.Deliver? || action.Reorder?) then Took(fr) else rob.gaps == old(rob.gaps)
    {
      action := Discard;
      ghost var credit := conn.maxRxOffset - conn.rxOffset;
      status := Charge(conn, fr);
      if status != Ok {
        return;
      }
      status, action := Classify(fr, stream, credit);
      if status == Ok {
        TakeIn(fr, action, stream);
      }
    }

    /** Does with the data of an accepted frame what was decided. */
    method TakeIn(fr: StreamFrame, action: RxAction, ghost stream: seq<byte>)
      requires if action.Deliver? || action.Reorder? then Receiving(stream, fr) else Follows(stream)
      requires (action.Deliver? ==> fr.offset <= rob.base) && (action.Reorder? ==> rob.base < fr.offset)
      modifies this`log, rob, rob.repr
      ensures Follows(stream) && fresh(rob.repr - old(rob.repr))
      ensures if action.Deliver? || action.Reorder? then Took(fr) else rob.gaps == old(rob.gaps)
    {
      if action.Deliver? {
        DeliverFrame(fr, stream);
      } else if action.Reorder? {
        ReorderFrame(fr, stream);
      }
    }
  }

  // ----- whole runs -----

  ghost predicate HasFin(frames: seq<StreamFrame>) {
    exists i :: 0 <= i < |frames| && frames[i].fin
  }

  /** Frame `i` repeats the fin of an earlier frame, and is dropped with its data. */
  ghost predicate RepeatedFin(frames: seq<StreamFrame>, i: nat)
    requires i < |frames|
  {
    frames[i].fin && HasFin(frames[..i])
  }

  ghost predicate Carries(frames: seq<StreamFrame>, i: nat, x: nat)
    requires i < |frames|
  {
    frames[i].offset <= x < frames[i].End() && !RepeatedFin(frames, i)
  }

  /** Some frame that is not dropped carries offset `x`. */
  ghost predicate Taken(frames: seq<StreamFrame>, x: nat) {
    exists i :: 0 <= i < |frames| && Carries(frames, i, x)
  }

  lemma TakenNext(frames: seq<StreamFrame>, n: nat, x: nat)
    requires n < |frames|
    ensures Taken(frames[..n + 1], x) <==>
            Taken(frames[..n], x) || (frames[n].offset <= x < frames[n].End() && !(frames[n].fin && HasFin(frames[..n])))
  {
    var a, b := frames[..n], frames[..n + 1];
    assert b[..n] == a && b[n] == frames[n];
    forall i | 0 <= i < n ensures Carries(a, i, x) <==> Carries(b, i, x) {
      assert a[..i] == b[..i];
    }
    if Taken(b, x) {
      var i :| 0 <= i < |b| && Carries(b, i, x);
      if i < n { assert Carries(a, i, x); }
    }
    if Taken(a, x) {
      var i :| 0 <= i < |a| && Carries(a, i, x);
      assert Carries(b, i, x);
    }
    assert Carries(b, n, x) <==> frames[n].offset <= x < frames[n].End() && !(frames[n].fin && HasFin(frames[..n]));
  }

  lemma HasFinNext(frames: seq<StreamFrame>, n: nat)
    requires n < |frames|
    ensures HasFin(frames[..n + 1]) <==> HasFin(frames[..n]) || frames[n].fin
  {
    var a, b := frames[..n], frames[..n + 1];
    if HasFin(a) {
      var i :| 0 <= i < |a| && a[i].fin;
      assert b[i].fin;
    }
    if frames[n].fin { assert b[n].fin; }
    if HasFin(b) {
      var i :| 0 <= i < |b| && b[i].fin;
      if i < n { assert a[i].fin; }
    }
  }

  /** Missing are the offsets that no frame carries. */
  ghost predicate Untaken(gaps: seq<Range>, frames: seq<StreamFrame>) {
    forall x: nat :: x < UINT64_MAX ==> (Covers(gaps, x) <==> !Taken(frames, x))
  }

  ghost predicate FinsAt(frames: seq<StreamFrame>, end: nat) {
    forall i :: 0 <= i < |frames| && frames[i].fin ==> frames[i].End() == end
  }

  /** The stream has seen exactly `frames`: these offsets are no longer missing, and this fin was noted. */
  ghost predicate Saw(gaps: seq<Range>, shutRd: bool, lastRx: nat, frames: seq<StreamFrame>) {
    Untaken(gaps, frames) && (shutRd <==> HasFin(frames)) && FinsAt(frames, lastRx)
  }

  /** What an accepted frame does to the final offset, and to the gaps of a stream whose data is wanted. */
  ghost predicate Settles(v: RxView, fr: StreamFrame, d: RxDecision, gaps: seq<Range>, gaps': seq<Range>) {
    && d.Accept? && (d.shutRd <==> v.shutRd || fr.fin)
    && (v.shutRd ==> d.lastRx == v.lastRx) && (fr.fin ==> d.lastRx == fr.End())
    && var repeated := fr.fin && v.shutRd;
       || (!repeated && gaps' == Subtract(gaps, Range(fr.offset, fr.End())))
       || ((repeated || fr.End() <= v.firstGap) && gaps' == gaps)
  }

  lemma DecideSettles(v: RxView, fr: StreamFrame, credit: nat, gaps: seq<Range>, gaps': seq<Range>)
    requires Decide(v, fr, credit).Accept? && !v.stopSending
    requires var d := Decide(v, fr, credit);
             gaps' == if d.action.Deliver? || d.action.Reorder? then Subtract(gaps, Range(fr.offset, fr.End())) else gaps
    ensures Settles(v, fr, Decide(v, fr, credit), gaps, gaps')
  {
  }

  lemma SawNext(gaps: seq<Range>, v: RxView, frames: seq<StreamFrame>, n: nat, d: RxDecision, gaps': seq<Range>)
    requires n < |frames| && Sorted(gaps) && v.firstGap == FirstOffset(gaps) && Settles(v, frames[n], d, gaps, gaps')
    requires Saw(gaps, v.shutRd, v.lastRx, frames[..n])
    ensures Saw(gaps', d.shutRd, d.lastRx, frames[..n + 1])
  {
    HasFinNext(frames, n);
    UntakenNext(gaps, v.firstGap, frames, n, gaps');
    FinsNext(frames, n, v.lastRx, d.lastRx);
  }

  lemma SawAccepted(gaps: seq<Range>, v: RxView, frames: seq<StreamFrame>, n: nat, credit: nat, gaps': seq<Range>)
    requires n < |frames| && Sorted(gaps) && v.firstGap == FirstOffset(gaps) && !v.stopSending
    requires Saw(gaps, v.shutRd, v.lastRx, frames[..n]) && Decide(v, frames[n], credit).Accept?
    requires var d := Decide(v, frames[n], credit);
             gaps' == if d.action.Deliver? || d.action.Reorder? then Subtract(gaps, Range(frames[n].offset, frames[n].End())) else gaps
    ensures var d := Decide(v, frames[n], credit); Saw(gaps', d.shutRd, d.lastRx, frames[..n + 1])
  {
    DecideSettles(v, frames[n], credit, gaps, gaps');
    SawNext(gaps, v, frames, n, Decide(v, frames[n], credit), gaps');
  }

  lemma UntakenNext(gaps: seq<Range>, first: nat, frames: seq<StreamFrame>, n: nat, gaps': seq<Range>)
    requires n < |frames| && Sorted(gaps) && first == FirstOffset(gaps) && Untaken(gaps, frames[..n])
    requires var dropped := frames[n].fin && HasFin(frames[..n]);
             || (!dropped && gaps' == Subtract(gaps, Range(frames[n].offset, frames[n].End())))
             || ((dropped || frames[n].End() <= first) && gaps' == gaps)
    ensures Untaken(gaps', frames[..n + 1])
  {
    var fr := frames[n];
    FirstOffsetIsLeastAll(gaps);
    SubtractAll(gaps, Range(fr.offset, fr.End()));
    forall x: nat | x < UINT64_MAX ensures Covers(gaps', x) <==> !Taken(frames[..n + 1], x) {
      TakenNext(frames, n, x);
    }
  }

  lemma FinsNext(frames: seq<StreamFrame>, n: nat, end: nat, end': nat)
    requires n < |frames| && FinsAt(frames[..n], end) && (HasFin(frames[..n]) ==> end' == end)
    requires frames[n].fin ==> end' == frames[n].End()
    ensures FinsAt(frames[..n + 1], end')
  {
    var a, b := frames[..n], frames[..n + 1];
    forall i | 0 <= i < |b| && b[i].fin ensures b[i].End() == end' {
      if i < n {
        assert a[i].fin;
        assert HasFin(a);
      }
    }
  }

  // ----- which frames are accepted -----

  /** A frame that says nothing. */
  predicate Blank(fr: StreamFrame) { !fr.fin && fr.data == [] }

  /** The end of what the frames carry. */
  function MaxEnd(frames: seq<StreamFrame>): nat {
    if frames == [] then 0 else Max(MaxEnd(frames[..|frames| - 1]), frames[|frames| - 1].End())
  }

  /** The answer to frame `i`, after the ones before it were accepted. */
  ghost function Reply(frames: seq<StreamFrame>, i: nat, maxStreamData: nat, maxData: nat): Status
    requires i < |frames|
  {
    var end, last, ended := frames[i].End(), MaxEnd(frames[..i]), HasFin(frames[..i]);
    if Blank(frames[i]) then ErrFrameFormat
    else if MAX_VARINT < end then ErrProto
    else if maxStreamData < end || (last < end && maxData < end) then ErrFlowControl
    else if (ended && last < end) || (frames[i].fin && (end < last || (ended && end != last))) then ErrFinalOffset
    else Ok
  }

  ghost predicate AllAccepted(frames: seq<StreamFrame>, n: nat, maxStreamData: nat, maxData: nat) {
    n <= |frames| && forall i :: 0 <= i < n ==> Reply(frames, i, maxStreamData, maxData) == Ok
  }

  lemma MaxEndNext(frames: seq<StreamFrame>, n: nat)
    requires n < |frames|
    ensures MaxEnd(frames[..n + 1]) == Max(MaxEnd(frames[..n]), frames[n].End())
  {
    assert frames[..n + 1][..n] == frames[..n];
  }

  /** What a stream that has accepted the frames before `n` decides on frame `n`. */
  lemma ReplyIs(v: RxView, frames: seq<StreamFrame>, n: nat, maxData: nat)
    requires n < |frames| && v.lastRx == MaxEnd(frames[..n]) <= maxData && (v.shutRd <==> HasFin(frames[..n]))
    ensures var d := Decide(v, frames[n], maxData - v.lastRx);
            if d.Reject? then d.status == Reply(frames, n, v.maxRx, maxData) != Ok
            else Reply(frames, n, v.maxRx, maxData) == Ok && d.lastRx == MaxEnd(frames[..n + 1]) == v.lastRx + d.charge <= maxData
  {
    MaxEndNext(frames, n);
  }

  /** Enough credit for the whole stream. */
  predicate Ample(stream: seq<byte>, maxStreamData: nat, maxData: nat) {
    |stream| <= maxStreamData && |stream| <= maxData && |stream| <= MAX_VARINT
  }

  ghost predicate PiecesOf(frames: seq<StreamFrame>, stream: seq<byte>) {
    forall i :: 0 <= i < |frames| ==> SliceOf(frames[i], stream) && (frames[i].fin ==> frames[i].End() == |stream|)
  }

  lemma {:induction false} MaxEndBound(frames: seq<StreamFrame>, stream: seq<byte>)
    requires PiecesOf(frames, stream)
    ensures MaxEnd(frames) <= |stream| && (HasFin(frames) ==> MaxEnd(frames) == |stream|)
  {
    if frames != [] {
      var n := |frames| - 1;
      MaxEndBound(frames[..n], stream);
      assert frames[..n + 1] == frames;
      HasFinNext(frames, n);
    }
  }

  /** With enough credit, a piece of the stream is refused exactly if it is empty and has no fin. */
  lemma AmpleReply(frames: seq<StreamFrame>, i: nat, stream: seq<byte>, maxStreamData: nat, maxData: nat)
    requires i < |frames| && PiecesOf(frames, stream) && Ample(stream, maxStreamData, maxData)
    ensures Reply(frames, i, maxStreamData, maxData) == if Blank(frames[i]) then ErrFrameFormat else Ok
  {
    MaxEndBound(frames[..i], stream);
  }

  // ----- runs -----

  /** A stream in this state has accepted the first `n` frames and nothing else. */
  ghost predicate Seen(v: RxView, gaps: seq<Range>, rx: nat, maxData: nat, frames: seq<StreamFrame>, n: nat) {
    && n <= |frames| && !v.stopSending && rx == v.lastRx == MaxEnd(frames[..n]) <= maxData
    && Saw(gaps, v.shutRd, v.lastRx, frames[..n])
  }

  lemma SeenNext(v: RxView, gaps: seq<Range>, maxData: nat, frames: seq<StreamFrame>, n: nat, v': RxView, gaps': seq<Range>)
    requires n < |frames| && Seen(v, gaps, v.lastRx, maxData, frames, n) && Sorted(gaps) && v.firstGap == FirstOffset(gaps)
    requires Decide(v, frames[n], maxData - v.lastRx).Accept?
    requires var d := Decide(v, frames[n], maxData - v.lastRx);
             && v'.lastRx == d.lastRx && v'.shutRd == d.shutRd && v'.stopSending == v.stopSending
             && gaps' == if d.action.Deliver? || d.action.Reorder? then Subtract(gaps, Range(frames[n].offset, frames[n].End())) else gaps
    ensures Seen(v', gaps', v.lastRx + Decide(v, frames[n], maxData - v.lastRx).charge, maxData, frames, n + 1)
  {
    ReplyIs(v, frames, n, maxData);
    SawAccepted(gaps, v, frames, n, maxData - v.lastRx, gaps');
  }

  ghost predicate Processed(strm: RxStrm, conn: ConnRx, frames: seq<StreamFrame>, n: nat, stream: seq<byte>)
    reads strm, strm.rob, strm.rob.repr, conn
  {
    strm.Follows(stream) && Seen(strm.View(), strm.rob.gaps, conn.rxOffset, conn.maxRxOffset, frames, n)
  }

  method ReceiveNext(strm: RxStrm, conn: ConnRx, frames: seq<StreamFrame>, n: nat, ghost stream: seq<byte>) returns (status: Status)
    requires Processed(strm, conn, frames, n, stream) && n < |frames| && SliceOf(frames[n], stream)
    modifies strm`lastRxOffset, strm`shutRd, strm`log, conn`rxOffset, strm.rob, strm.rob.repr
    ensures status == Reply(frames, n, strm.maxRxOffset, conn.maxRxOffset)
    ensures status == Ok ==> Processed(strm, conn, frames, n + 1, stream)
    ensures strm.Follows(stream) && fresh(strm.rob.repr - old(strm.rob.repr))
    ensures status != Ok ==> Saw(strm.rob.gaps, strm.shutRd, strm.lastRxOffset, frames[..n])
  {
    ghost var v, gaps := strm.View(), strm.rob.gaps;
    ReplyIs(v, frames, n, conn.maxRxOffset);
    var action;
    status, action := strm.RecvStream(conn, frames[n], stream);
    if status == Ok {
      SeenNext(v, gaps, conn.maxRxOffset, frames, n, strm.View(), strm.rob.gaps);
    }
  }

  /**
   For every byte stream and every sequence of its slices, in any order, with any
   overlap and any repetition: frames are accepted up to the first that the limits or
   the final offset rule out, and of these the application gets exactly the bytes up to
   the first offset that none carries, each once and in order, and it gets the fin flag
   exactly if that offset is the final one.
   */
  method ReceiveAll(frames: seq<StreamFrame>, maxStreamData: nat, maxData: nat, ghost stream: seq<byte>)
    returns (log: seq<Delivery>, rx: nat, n: nat, status: Status)
    requires forall i :: 0 <= i < |frames| ==> SliceOf(frames[i], stream)
    ensures AllAccepted(frames, n, maxStreamData, maxData)
    ensures if n == |frames| then status == Ok else status == Reply(frames, n, maxStreamData, maxData) != Ok
    ensures rx <= |stream| && Concat(log) == stream[..rx]
    ensures forall x: nat :: x < rx ==> Taken(frames[..n], x)
    ensures !Taken(frames[..n], rx)
    ensures FinRaised(log) <==> exists i :: 0 <= i < n && frames[i].fin && frames[i].End() == rx
    ensures forall i :: 0 <= i < |log| - 1 ==> !log[i].fin
  {
    var conn := new ConnRx(maxData);
    var strm := new RxStrm(maxStreamData);
    NothingSeen(frames);
    n, status := ReceiveEach(strm, conn, frames, stream);
    strm.FirstGapBound();
    log, rx := strm.log, FirstOffset(strm.rob.gaps);
    SawAll(strm.rob.gaps, strm.shutRd, strm.lastRxOffset, frames, n, rx);
  }

  /** The frames are handed to the stream up to the first that is refused. */
  method ReceiveEach(strm: RxStrm, conn: ConnRx, frames: seq<StreamFrame>, ghost stream: seq<byte>) returns (n: nat, status: Status)
    requires Processed(strm, conn, frames, 0, stream) && forall i :: 0 <= i < |frames| ==> SliceOf(frames[i], stream)
    modifies strm`lastRxOffset, strm`shutRd, strm`log, conn`rxOffset, strm.rob, strm.rob.repr
    ensures AllAccepted(frames, n, strm.maxRxOffset, conn.maxRxOffset)
    ensures if n == |frames| then status == Ok else status == Reply(frames, n, strm.maxRxOffset, conn.maxRxOffset) != Ok
    ensures strm.Follows(stream) && !strm.stopSending
    ensures Saw(strm.rob.gaps, strm.shutRd, strm.lastRxOffset, frames[..n])
  {
    n, status := 0, Ok;
    while n < |frames|
      invariant Processed(strm, conn, frames, n, stream) && status == Ok && fresh(strm.rob.repr - old(strm.rob.repr))
      invariant AllAccepted(frames, n, strm.maxRxOffset, conn.maxRxOffset)
    {
      status := ReceiveNext(strm, conn, frames, n, stream);
      if status != Ok {
        return;
      }
      n := n + 1;
    }
  }

  /** What a stream that saw the first `n` frames has handed out. */
  lemma SawAll(gaps: seq<Range>, shutRd: bool, lastRx: nat, frames: seq<StreamFrame>, n: nat, rx: nat)
    requires n <= |frames| && Saw(gaps, shutRd, lastRx, frames[..n])
    requires Sorted(gaps) && gaps != [] && rx == FirstOffset(gaps) < UINT64_MAX
    ensures !Taken(frames[..n], rx) && forall x: nat :: x < rx ==> Taken(frames[..n], x)
    ensures shutRd && rx == lastRx <==> exists i :: 0 <= i < n && frames[i].fin && frames[i].End() == rx
  {
    FirstOffsetIsLeastAll(gaps);
    FinAt(frames, n, lastRx, rx);
  }

  lemma NothingSeen(frames: seq<StreamFrame>)
    ensures Saw([Range(0, UINT64_MAX)], false, 0, frames[..0])
  {
    var gaps := [Range(0, UINT64_MAX)];
    forall x: nat | x < UINT64_MAX ensures Covers(gaps, x) { assert In(x, gaps[0]); }
  }

  lemma FinAt(frames: seq<StreamFrame>, n: nat, lastRx: nat, rx: nat)
    requires n <= |frames|
    requires forall i :: 0 <= i < |frames[..n]| && frames[..n][i].fin ==> frames[..n][i].End() == lastRx
    ensures HasFin(frames[..n]) && rx == lastRx <==> exists i :: 0 <= i < n && frames[i].fin && frames[i].End() == rx
  {
    if HasFin(frames[..n]) {
      var i :| 0 <= i < |frames[..n]| && frames[..n][i].fin;
      assert frames[i].fin && frames[i].End() == lastRx;
    }
    if i :| 0 <= i < n && frames[i].fin && frames[i].End() == rx {
      assert frames[..n][i].fin;
    }
  }
}
