/**
 ACK frames: a largest packet number, the length of the first range below it, and
 further ranges given by the gap above them and their length.
 */
module AckFrames {

  // The most blocks that a frame is read with.
  const MAX_ACK_BLKS: nat := 255

  datatype Blk = Blk(gap: nat, len: nat)

  datatype Ack = Ack(largest: nat, delay: nat, firstLen: nat, blks: seq<Blk>)

  /** The number is in a range below one that starts at `low`. */
  ghost predicate AcksBelow(blks: seq<Blk>, low: int, pn: nat) {
    blks != [] &&
    var top := low - blks[0].gap - 2;
    (top - blks[0].len <= pn <= top || AcksBelow(blks[1..], top - blks[0].len, pn))
  }

  /** The packets that a frame acknowledges. */
  ghost predicate Acks(ack: Ack, pn: nat) {
    ack.largest - ack.firstLen <= pn <= ack.largest || AcksBelow(ack.blks, ack.largest - ack.firstLen, pn)
  }

  /** Between two ranges there is one more number than the gap says, and none of them is acknowledged. */
  lemma GapIs(ack: Ack, pn: nat)
    requires ValidAck(ack) && ack.blks != []
    ensures var low, gap := ack.largest - ack.firstLen, ack.blks[0].gap;
            (low - (gap + 1) <= pn < low ==> !Acks(ack, pn)) && (pn == low - (gap + 1) - 1 ==> Acks(ack, pn))
  {
    var low := ack.largest - ack.firstLen;
    var bot := low - ack.blks[0].gap - 2 - ack.blks[0].len;
    if AcksBelow(ack.blks[1..], bot, pn) { BelowLow(ack.blks[1..], bot, pn); }
  }

  /** The lowest number of the last range; negative if the ranges pass below zero. */
  function Bottom(blks: seq<Blk>, low: int): int {
    if blks == [] then low else Bottom(blks[1..], low - blks[0].gap - 2 - blks[0].len)
  }

  /** The ranges do not pass below zero. */
  predicate ValidAck(ack: Ack) { 0 <= Bottom(ack.blks, ack.largest - ack.firstLen) }

  lemma {:induction false} BottomDown(blks: seq<Blk>, low: int)
    ensures Bottom(blks, low) <= low
  {
    if blks != [] {
      BottomDown(blks[1..], low - blks[0].gap - 2 - blks[0].len);
    }
  }

  lemma {:induction false} BelowLow(blks: seq<Blk>, low: int, pn: nat)
    requires AcksBelow(blks, low, pn)
    ensures Bottom(blks, low) <= pn && pn + 1 < low
  {
    var bot := low - blks[0].gap - 2 - blks[0].len;
    if AcksBelow(blks[1..], bot, pn) {
      BelowLow(blks[1..], bot, pn);
    } else {
      BottomDown(blks[1..], bot);
    }
  }

  /** Accepts exactly the frames whose ranges do not pass below zero. */
  method ValidateAck(ack: Ack) returns (ok: bool)
    ensures ok == ValidAck(ack)
  {
    var low: int := ack.largest - ack.firstLen;
    BottomDown(ack.blks, low);
    if low < 0 {
      return false;
    }
    for i := 0 to |ack.blks|
      invariant 0 <= low && Bottom(ack.blks, ack.largest - ack.firstLen) == Bottom(ack.blks[i..], low)
    {
      var rest := ack.blks[i..];
      assert rest[1..] == ack.blks[i + 1..];
      BottomDown(rest[1..], low - rest[0].gap - 2 - rest[0].len);
      if low < ack.blks[i].gap + 2 {
        return false;
      }
      low := low - (ack.blks[i].gap + 2);
      if low < ack.blks[i].len {
        return false;
      }
      low := low - ack.blks[i].len;
    }
    return true;
  }

  /** One more range at the end. */
  lemma {:induction false} AppendBlk(blks: seq<Blk>, low: int, b: Blk, pn: nat)
    ensures var top := Bottom(blks, low) - b.gap - 2;
            && Bottom(blks + [b], low) == top - b.len
            && (AcksBelow(blks + [b], low, pn) <==> AcksBelow(blks, low, pn) || top - b.len <= pn <= top)
  {
    if blks == [] {
      assert blks + [b] == [b];
    } else {
      AppendBlk(blks[1..], low - blks[0].gap - 2 - blks[0].len, b, pn);
      assert (blks + [b])[1..] == blks[1..] + [b];
    }
  }

  // ----- walking down the ranges -----

  /**
   A walk down the ranges of a frame has come to the range [low, high], with the
   blocks from `i` on still ahead: for numbers below `bound`, nothing else matters.
   */
  ghost predicate RangeAt(ack: Ack, i: nat, low: int, high: int, bound: int) {
    && i <= |ack.blks|
    && (forall pn: nat {:trigger Acks(ack, pn)} :: pn < bound ==>
          (Acks(ack, pn) <==> low <= pn <= high || AcksBelow(ack.blks[i..], low, pn)))
  }

  lemma FirstRange(ack: Ack, bound: int)
    ensures RangeAt(ack, 0, ack.largest - ack.firstLen, ack.largest, bound)
  {
    assert ack.blks[0..] == ack.blks;
  }

  /** A number that is not below the range is acknowledged exactly if it is in it. */
  lemma Decided(ack: Ack, i: nat, low: int, high: int, bound: int, pn: nat)
    requires RangeAt(ack, i, low, high, bound) && low <= pn < bound
    ensures Acks(ack, pn) <==> pn <= high
  {
    if AcksBelow(ack.blks[i..], low, pn) {
      BelowLow(ack.blks[i..], low, pn);
    }
  }

  /** Below `low`, only the blocks from `n` on acknowledge anything. */
  ghost predicate Past(ack: Ack, n: nat, low: int) {
    n <= |ack.blks| &&
    forall pn: nat {:trigger Acks(ack, pn)} :: pn < low ==> (Acks(ack, pn) <==> AcksBelow(ack.blks[n..], low, pn))
  }

  lemma PastRange(ack: Ack, n: nat, low: int, high: int, bound: int)
    requires RangeAt(ack, n, low, high, bound) && low <= bound
    ensures Past(ack, n, low)
  {
  }

  lemma PastNext(ack: Ack, n: nat, low: int)
    requires Past(ack, n, low) && n < |ack.blks|
    ensures var high := low - ack.blks[n].gap - 2; RangeAt(ack, n + 1, high - ack.blks[n].len, high, low)
  {
    assert ack.blks[n..][1..] == ack.blks[n + 1..];
  }
}
