/**
 Removing what an ACK frame acknowledges from the retransmission buffer.
 */
module AckRemoval {
  import opened Basics
  import opened AckFrames
  import opened AckWalk
  import opened Retransmission

  /** The list of the buffer with a cursor in it. */
  ghost function At(rtb: Rtb, i: nat): Cursor
    reads rtb
  {
    Cursor(rtb.info, i, rtb.largestAcked)
  }

  /** Removes the entry at the cursor if a frame of this protection may acknowledge it. */
  method VisitAt(rtb: Rtb, i: nat, unprotected: bool) returns (i': nat)
    requires rtb.Valid() && i < |rtb.info|
    modifies rtb.Repr()
    ensures rtb.Valid() && rtb.Repr() <= old(rtb.Repr()) && At(rtb, i') == old(At(rtb, i)).Visit(unprotected)
  {
    if unprotected && !rtb.list[i].unprotected {
      return i + 1;
    }
    rtb.largestAcked := Max(rtb.largestAcked, rtb.list[i].pktNum);
    rtb.RemoveAt(i);
    return i;
  }

  /** Skips the entries above the frame. */
  method WalkSkip(rtb: Rtb, high: nat) returns (i: nat)
    requires rtb.Valid()
    ensures AllAbove(rtb.info, i, high) && (i < |rtb.info| ==> rtb.info[i].pktNum <= high)
  {
    i := 0;
    while i < |rtb.list| && rtb.list[i].pktNum > high
      invariant AllAbove(rtb.info, i, high)
    {
      i := i + 1;
    }
  }

  /** The walk has passed all entries down to `low`, in a buffer that has lost nothing but entries. */
  ghost predicate Walked(rtb: Rtb, repr: set<object>, j: Job, i: nat, low: int, n: nat, k: nat)
    reads rtb, rtb.pq, rtb.pq.q, rtb.pq.ents, rtb.list
  {
    rtb.Valid() && rtb.Repr() <= repr && Passed(j, At(rtb, i), low, n, k)
  }

  /** The first range, from the first entry that is not above it. */
  method WalkFirst(rtb: Rtb, start: nat, low: int, high: int, unprotected: bool, ghost j: Job, ghost r: Span, ghost k0: nat)
    returns (i: nat, ghost k: nat)
    requires rtb.Valid() && unprotected == j.unprotected && start < |rtb.info|
    requires InRange(j, At(rtb, start), r, k0) && r.low == low && r.high == high && r.bound == high + 1 && r.n == 0
    modifies rtb.Repr()
    ensures Walked(rtb, old(rtb.Repr()), j, i, low, 0, k)
    ensures old(rtb.info)[start].pktNum < low ==> rtb.info == old(rtb.info)
  {
    i, k := start, k0;
    while i < |rtb.list| && low <= rtb.list[i].pktNum <= high
      invariant rtb.Valid() && rtb.Repr() <= old(rtb.Repr()) && InRange(j, At(rtb, i), r, k)
      invariant old(rtb.info)[start].pktNum < low ==> rtb.info == old(rtb.info) && i == start
      decreases |rtb.info| - i
    {
      RangeVisit(j, At(rtb, i), r, k);
      i := VisitAt(rtb, i, unprotected);
      k := k + 1;
    }
    FirstDone(j, At(rtb, i), r, k);
  }

  /** Passes an entry above the range, and removes one in it if the frame may acknowledge it. */
  method BlockEntry(rtb: Rtb, i: nat, low: int, high: int, unprotected: bool, ghost j: Job, ghost r: Span, ghost k: nat) returns (i': nat)
    requires rtb.Valid() && unprotected == j.unprotected && InRange(j, At(rtb, i), r, k) && r.low == low && r.high == high
    requires i < |rtb.info| && low <= rtb.info[i].pktNum
    modifies rtb.Repr()
    ensures rtb.Valid() && rtb.Repr() <= old(rtb.Repr()) && InRange(j, At(rtb, i'), r, k + 1)
    ensures |rtb.info| - i' < |old(rtb.info)| - i
  {
    if rtb.list[i].pktNum > high {
      RangePass(j, At(rtb, i), r, k);
      return i + 1;
    }
    RangeVisit(j, At(rtb, i), r, k);
    i' := VisitAt(rtb, i, unprotected);
  }

  /** A further range. */
  method WalkBlock(rtb: Rtb, start: nat, low: int, high: int, unprotected: bool, ghost j: Job, ghost r: Span, ghost k0: nat)
    returns (i: nat, ghost k: nat)
    requires rtb.Valid() && unprotected == j.unprotected && InRange(j, At(rtb, start), r, k0) && r.low == low && r.high == high
    modifies rtb.Repr()
    ensures Walked(rtb, old(rtb.Repr()), j, i, low, r.n, k)
  {
    i, k := start, k0;
    while i < |rtb.list| && low <= rtb.list[i].pktNum
      invariant rtb.Valid() && rtb.Repr() <= old(rtb.Repr()) && InRange(j, At(rtb, i), r, k)
      decreases |rtb.info| - i
    {
      i := BlockEntry(rtb, i, low, high, unprotected, j, r, k);
      k := k + 1;
    }
    RangeDone(j, At(rtb, i), r, k);
  }

  /** The ranges given by the blocks. */
  method WalkBlocks(rtb: Rtb, start: nat, ack: Ack, unprotected: bool, ghost j: Job, ghost k0: nat)
    returns (i: nat, ghost low: int, n: nat, ghost k: nat)
    requires unprotected == j.unprotected && ack == j.ack && Walked(rtb, rtb.Repr(), j, start, ack.largest - ack.firstLen, 0, k0)
    modifies rtb.Repr()
    ensures Walked(rtb, old(rtb.Repr()), j, i, low, n, k) && (n == |ack.blks| || i >= |rtb.info|)
    ensures ack.blks == [] ==> rtb.info == old(rtb.info)
  {
    i, n, k := start, 0, k0;
    var min := ack.largest - ack.firstLen;
    while n < |ack.blks| && i < |rtb.list|
      invariant n <= |ack.blks| && Walked(rtb, old(rtb.Repr()), j, i, min, n, k)
      invariant n == 0 ==> rtb.info == old(rtb.info)
    {
      i, min, k := BlocksTurn(rtb, i, min, ack.blks[n], unprotected, j, n, k, old(rtb.Repr()));
      n := n + 1;
    }
    low := min;
  }

  /** One turn of the loop of WalkBlocks. */
  method BlocksTurn(rtb: Rtb, start: nat, low0: int, blk: Blk, unprotected: bool,
                    ghost j: Job, ghost n: nat, ghost k0: nat, ghost repr: set<object>)
    returns (i: nat, low: int, ghost k: nat)
    requires unprotected == j.unprotected && n < |j.ack.blks| && blk == j.ack.blks[n] && Walked(rtb, repr, j, start, low0, n, k0)
    modifies rtb.Repr()
    ensures Walked(rtb, repr, j, i, low, n + 1, k)
  {
    ghost var r := RangeStarts(j, At(rtb, start), low0, n, k0);
    var high := low0 - blk.gap - 2;
    low := high - blk.len;
    i, k := WalkBlock(rtb, start, low, high, unprotected, j, r, k0);
  }

  /**
   An ACK frame was received.  On a descending list exactly the acknowledged entries of
   sufficient protection go, the others stay in order, and the largest number that was
   acknowledged is recorded.  On any list only such entries go, and the largest number of
   those that went is recorded, but an entry that is out of order can hide others from the frame.
   */
  method RecvAck(rtb: Rtb, ack: Ack, unprotected: bool)
    requires rtb.Valid() && ValidAck(ack)
    modifies rtb.Repr()
    ensures rtb.Valid() && rtb.Repr() <= old(rtb.Repr())
    ensures var j := Job(old(rtb.info), ack, unprotected, old(rtb.largestAcked));
            Left(rtb.info, j) && Topped(rtb.info, rtb.largestAcked, j)
    ensures Descending(old(rtb.info)) ==>
              && rtb.info == Kept(old(rtb.info), ack, unprotected) && Descending(rtb.info)
              && rtb.largestAcked == TopOf(old(rtb.info), ack, unprotected, old(rtb.largestAcked))
    ensures Blocked(old(rtb.info), ack) ==> rtb.info == old(rtb.info)
  {
    ghost var j := Job(rtb.info, ack, unprotected, rtb.largestAcked);
    var i := WalkSkip(rtb, ack.largest);
    ghost var r := WalkStarts(j, i);
    if Blocked(rtb.info, ack) {
      BlockedAt(rtb.info, ack, i);
    }
    if i == |rtb.list| {
      RangeDone(j, At(rtb, i), r, i);
      WalkEnds(j, At(rtb, i), r.low, 0, i);
    } else {
      ghost var low, k;
      var n;
      i, low, n, k := WalkRanges(rtb, i, ack, unprotected, j, r);
      WalkEnds(j, At(rtb, i), low, n, k);
    }
  }

  method WalkRanges(rtb: Rtb, start: nat, ack: Ack, unprotected: bool, ghost j: Job, ghost r: Span)
    returns (i: nat, ghost low: int, n: nat, ghost k: nat)
    requires rtb.Valid() && j.ack == ack && j.unprotected == unprotected && InRange(j, At(rtb, start), r, start)
    requires r.low == ack.largest - ack.firstLen && r.high == ack.largest && r.n == 0
    requires start < |rtb.info| && rtb.info[start].pktNum <= ack.largest
    modifies rtb.Repr()
    ensures Walked(rtb, old(rtb.Repr()), j, i, low, n, k) && (n == |ack.blks| || i >= |rtb.info|)
    ensures old(rtb.info)[start].pktNum < r.low && ack.blks == [] ==> rtb.info == old(rtb.info)
  {
    ghost var r' := Enters(j, At(rtb, start), r, start);
    i, k := WalkFirst(rtb, start, ack.largest - ack.firstLen, ack.largest, unprotected, j, r', start);
    i, low, n, k := WalkRest(rtb, i, ack, unprotected, j, k, old(rtb.Repr()));
  }

  method WalkRest(rtb: Rtb, start: nat, ack: Ack, unprotected: bool, ghost j: Job, ghost k0: nat, ghost repr: set<object>)
    returns (i: nat, ghost low: int, n: nat, ghost k: nat)
    requires unprotected == j.unprotected && ack == j.ack && Walked(rtb, repr, j, start, ack.largest - ack.firstLen, 0, k0)
    modifies rtb.Repr()
    ensures Walked(rtb, repr, j, i, low, n, k) && (n == |ack.blks| || i >= |rtb.info|)
    ensures ack.blks == [] ==> rtb.info == old(rtb.info)
  {
    i, low, n, k := WalkBlocks(rtb, start, ack, unprotected, j, k0);
  }
}
