/**
 Packet numbers: the width a sender picks, and how a receiver recovers the number
 from its lowest bits.
 */
module PacketNumber {
  import opened Basics
  import opened Bits

  function Distance(x: nat, y: nat): nat { if x < y then y - x else x - y }

  /** The number a receiver expects next. */
  function Expected(max: nat): nat { if max == SPAN - 1 then max else max + 1 }

  function Nearer(e: nat, a: nat, b: nat): nat { if Distance(e, a) < Distance(e, b) then a else b }

  /** The 64-bit computation of the receiver, which has seen `max` and now got the low `n` bits `low`. */
  function AdjustPktNum(max: nat, low: nat, n: nat): nat
    requires max < SPAN && n <= 64
  {
    Width(n);
    var k := Expected(max);
    var u := And(k, Not(Pow2(n) - 1));
    Pick(k, u, low, Pow2(n))
  }

  /** The receiver recovers `pn` from its low `n` bits. */
  predicate Recovers(max: nat, pn: nat, n: nat)
    requires max < SPAN && n <= 64
  {
    AdjustPktNum(max, pn % Pow2(n), n) == pn
  }

  function Pick(k: nat, u: nat, low: nat, w: nat): nat {
    Nearer(k, Or(u, low), Or((u + w) % SPAN, low))
  }

  /** The number with low bits `low` in block `t` of 2^n numbers. */
  function InBlock(t: nat, low: nat, n: nat): nat { t * Pow2(n) + low }

  /** The bit operations pick, from the block of 2^n numbers with the expected one and the next block, the nearer candidate. */
  lemma AdjustIsNearer(max: nat, low: nat, n: nat, t: nat, t': nat)
    requires max < SPAN && n <= 64 && low < Pow2(n)
    requires t == Expected(max) / Pow2(n) && t' == (t + 1) % Pow2(64 - n)
    ensures AdjustPktNum(max, low, n) == Nearer(Expected(max), InBlock(t, low, n), InBlock(t', low, n))
  {
    var e := Expected(max);
    Width(n);
    Rounded(e, n, t);
    PickIsNearer(e, low, n, t, t');
  }

  lemma PickIsNearer(e: nat, low: nat, n: nat, t: nat, t': nat)
    requires n <= 64 && low < Pow2(n) && t' == (t + 1) % Pow2(64 - n)
    ensures Pick(e, InBlock(t, 0, n), low, Pow2(n)) == Nearer(e, InBlock(t, low, n), InBlock(t', low, n))
  {
    OrLow(t, n, low);
    WrapBlock(t, n);
    OrLow(t', n, low);
  }

  lemma Width(n: nat)
    requires n <= 64
    ensures Pow2(n) <= SPAN
  {
    Pow2Mono(n, 64);
    SpanIsPow2();
  }

  /** Masking off the low bits leaves the start of the block. */
  lemma Rounded(e: nat, n: nat, t: nat)
    requires e < SPAN && n <= 64 && Pow2(n) <= SPAN && t == e / Pow2(n)
    ensures And(e, Not(Pow2(n) - 1)) == t * Pow2(n)
  {
    SpanIsPow2();
    AndHigh(e, n, 64);
    RoundDown(e, Pow2(n));
  }

  lemma WrapBlock(t: nat, n: nat)
    requires n <= 64
    ensures (t * Pow2(n) + Pow2(n)) % SPAN == (t + 1) % Pow2(64 - n) * Pow2(n)
  {
    SpanIsPow2();
    Pow2Add(64 - n, n);
    NextBlock(t, Pow2(n), Pow2(64 - n), SPAN);
  }

  lemma RoundDown(e: nat, w: nat)
    requires w > 0
    ensures e - e % w == e / w * w
  {
  }

  /** The block of `w` numbers that `x` is in. */
  function Block(x: nat, w: nat): nat
    requires w > 0
  {
    x / w
  }

  lemma Split(x: nat, w: nat)
    requires w > 0
    ensures x == Block(x, w) * w + x % w && 0 <= x % w < w
  {
  }

  /** Blocks of `w` numbers wrap around evenly. */
  lemma NextBlock(t: nat, w: nat, m: nat, span: nat)
    requires span == m * w && 0 < m && 0 < w
    ensures (t * w + w) % span == (t + 1) % m * w
  {
    var q, r := Block(t + 1, m), (t + 1) % m;
    Split(t + 1, m);
    Expand(q, m, r, w);
    MulMono(r + 1, m, w);
    assert t * w + w == (t + 1) * w;
    Remainder(t * w + w, span, q, r * w);
  }

  lemma Expand(q: nat, m: nat, r: nat, w: nat)
    ensures (q * m + r) * w == q * (m * w) + r * w && (r + 1) * w == r * w + w
  {
  }

  /**
   The numbers that are recovered when `e` is expected, for blocks of `w` numbers:
   those of the same block that are not more than half a block behind (unless there
   is no next block), and those of the next block at most half a block ahead.
   */
  predicate Recoverable(e: nat, pn: nat, w: nat)
    requires w > 0
  {
    || (pn / w == e / w && (pn >= e || 2 * (e - pn) < w || SPAN <= e / w * w + w))
    || (pn / w == e / w + 1 && 2 * (pn - e) <= w)
  }

  /** Truncating a packet number to `n` bits and recovering it gives it back exactly for the recoverable ones. */
  lemma RecoveredExactly(max: nat, pn: nat, n: nat)
    requires max < SPAN && pn < SPAN && n <= 32
    ensures Recovers(max, pn, n) <==> Recoverable(Expected(max), pn, Pow2(n))
  {
    var e, w, m := Expected(max), Pow2(n), Pow2(64 - n);
    var t := Block(e, w);
    BlockSizes(n, w, m);
    NearerExactly(e, pn, w, m, t);
    AdjustIsNearer(max, pn % w, n, t, (t + 1) % m);
  }

  lemma BlockSizes(n: nat, w: nat, m: nat)
    requires n <= 32 && w == Pow2(n) && m == Pow2(64 - n)
    ensures m * w == SPAN && 4 * w <= SPAN
  {
    SpanIsPow2();
    Pow2Add(64 - n, n);
    Pow2Mono(n, 32);
    SmallBlock();
  }

  /** The nearer candidate of the two blocks is the number itself exactly for the recoverable ones. */
  lemma NearerExactly(e: nat, pn: nat, w: nat, m: nat, t: nat)
    requires m * w == SPAN && 4 * w <= SPAN && 0 < w && 0 < m && e < SPAN && pn < SPAN && t == e / w
    ensures Nearer(e, t * w + pn % w, (t + 1) % m * w + pn % w) == pn <==> Recoverable(e, pn, w)
  {
    Blocks(e, w, m);
    Blocks(pn, w, m);
    var s := Block(pn, w);
    if t + 1 < m {
      MulMono(t + 2, m, w);
      Remainder(t + 1, m, 0, t + 1);
      NextChosen(e, pn, w, t, s);
    } else {
      Remainder(m, m, 1, 0);
      NoNext(e, pn, w, t, s);
    }
  }

  lemma SmallBlock()
    ensures 4 * Pow2(32) <= SPAN
  {
    SpanIsPow2();
    Pow2Add(2, 32);
    Pow2Mono(34, 64);
  }

  /** A number is in one of the `m` blocks. */
  lemma Blocks(x: nat, w: nat, m: nat)
    requires 0 < w && x < m * w
    ensures x / w < m && x == x / w * w + x % w && x / w * w + w <= m * w
  {
    var t := Block(x, w);
    Split(x, w);
    if m <= t { MulMono(m, t, w); }
    MulMono(t + 1, m, w);
  }

  lemma NextChosen(e: nat, pn: nat, w: nat, t: nat, s: nat)
    requires 0 < w && t == e / w && s == pn / w && t * w + w < SPAN
    requires e == t * w + e % w && pn == s * w + pn % w
    ensures Nearer(e, t * w + pn % w, (t + 1) * w + pn % w) == pn <==> Recoverable(e, pn, w)
  {
    assert (t + 1) * w == t * w + w;
    SameBlock(s, t, w);
    SameBlock(s, t + 1, w);
  }

  lemma NoNext(e: nat, pn: nat, w: nat, t: nat, s: nat)
    requires 0 < w && t == e / w && s == pn / w && t * w + w == SPAN && 4 * w <= SPAN && e < SPAN && pn < SPAN
    requires e == t * w + e % w && pn == s * w + pn % w && s <= t
    ensures Nearer(e, t * w + pn % w, 0 * w + pn % w) == pn <==> Recoverable(e, pn, w)
  {
    SameBlock(s, t, w);
  }

  lemma SameBlock(s: nat, t: nat, w: nat)
    requires 0 < w
    ensures s * w == t * w <==> s == t
  {
    if s < t { MulMono(s + 1, t, w); }
    if t < s { MulMono(t + 1, s, w); }
  }

  // ----- the sender's choice -----

  /** A difference in 64-bit arithmetic. */
  function Minus(x: nat, y: nat): nat { (x - y) % SPAN }

  lemma MinusIs(x: nat, y: nat)
    requires x < SPAN && y < SPAN
    ensures Minus(x, y) == if y <= x then x - y else x + SPAN - y
  {
  }

  /** The number of bits sent, given the largest packet number known to have arrived, in 64-bit arithmetic. */
  function SelectBits(pn: nat, largestAcked: nat): (n: nat)
    ensures n == 8 || n == 16 || n == 32
  {
    var d := (Minus(pn, largestAcked) * 2 + 1) % SPAN;
    if (SPAN - 1) / 2 <= pn || d > 0xffff then 32
    else if d > 0xff then 16
    else 8
  }

  /** The first number that is not taken to have arrived: a largest one of 2^64 - 1 is the one before 0. */
  function Unseen(largestAcked: nat): nat { (largestAcked + 1) % SPAN }

  /** The width is chosen by the number of packets from the first unseen one on. */
  lemma SelectWidth(pn: nat, largestAcked: nat)
    requires largestAcked < SPAN && Unseen(largestAcked) <= pn + 1 && pn < (SPAN - 1) / 2
    ensures var d := pn + 1 - Unseen(largestAcked);
            SelectBits(pn, largestAcked) == if d * 2 + 1 > 0xffff then 32 else if d * 2 + 1 > 0xff then 16 else 8
  {
    MinusIs(pn, largestAcked);
    UnseenIs(largestAcked);
  }

  lemma UnseenIs(largestAcked: nat)
    requires largestAcked < SPAN
    ensures Unseen(largestAcked) == if largestAcked == SPAN - 1 then 0 else largestAcked + 1
  {
  }

  /**
   A new packet number is recovered by every receiver that has seen all packets that the sender
   takes to have arrived; in the 32-bit form as long as there are at most 2^31 others.
   */
  lemma SenderRecovered(pn: nat, largestAcked: nat, max: nat)
    requires largestAcked < SPAN && Unseen(largestAcked) <= max + 1 <= pn < SPAN
    requires SelectBits(pn, largestAcked) == 32 ==> pn + 1 - Unseen(largestAcked) <= 0x8000_0000
    ensures Recovers(max, pn, SelectBits(pn, largestAcked))
  {
    var n := SelectBits(pn, largestAcked);
    WidthValues();
    if pn < (SPAN - 1) / 2 { SelectWidth(pn, largestAcked); }
    Close(max + 1, pn, Pow2(n));
    RecoveredExactly(max, pn, n);
  }

  /**
   A receiver that has seen nothing recovers the first number of its peer from the 32 bits of a
   long header exactly if it is below 2^32, but from 8 bits exactly if it is below 256.
   */
  lemma FirstRecovered(first: nat)
    requires first < SPAN
    ensures Recovers(0, first, 32) <==> first < 0x1_0000_0000
    ensures Recovers(0, first, 8) <==> first < 256
  {
    WidthValues();
    FirstBlock(first, 32, 0x1_0000_0000);
    FirstBlock(first, 8, 0x100);
  }

  /** A server, which takes the number before its first to have arrived, would send the first in 8 bits. */
  lemma ServerWidth(first: nat)
    requires first < (SPAN - 1) / 2
    ensures SelectBits(first, Minus(first, 1)) == 8
  {
    MinusIs(first, 1);
    UnseenIs(Minus(first, 1));
    SelectWidth(first, Minus(first, 1));
  }

  /** A receiver that has seen nothing recovers exactly the numbers of the first block. */
  lemma FirstBlock(pn: nat, n: nat, w: nat)
    requires pn < SPAN && n <= 32 && w == Pow2(n) && 4 < w
    ensures Recovers(0, pn, n) <==> pn < w
  {
    RecoveredExactly(0, pn, n);
    FarAhead(pn, w);
  }

  lemma FarAhead(pn: nat, w: nat)
    requires 4 < w
    ensures Recoverable(1, pn, w) <==> pn < w
  {
    Split(pn, w);
    var t := Block(pn, w);
    Split(1, w);
    if pn < w { SmallQuotient(pn, w); }
    SmallQuotient(1, w);
  }

  lemma SmallQuotient(x: nat, w: nat)
    requires x < w
    ensures x / w == 0
  {
  }

  lemma WidthValues()
    ensures Pow2(8) == 0x100 && Pow2(16) == 0x1_0000 && Pow2(32) == 0x1_0000_0000
  {
    Pow2Add(8, 8);
    Pow2Add(16, 16);
  }

  lemma Close(e: nat, pn: nat, w: nat)
    requires 0 < w && e <= pn && 2 * (pn - e) <= w
    ensures Recoverable(e, pn, w)
  {
    var t, s := Block(e, w), Block(pn, w);
    Split(e, w);
    Split(pn, w);
    CloseBlocks(w, t, s, e % w, pn % w);
  }

  lemma CloseBlocks(w: nat, t: nat, s: nat, re: nat, rp: nat)
    requires re < w && rp < w && t * w + re <= s * w + rp <= t * w + re + w
    ensures t <= s <= t + 1
  {
    if s < t {
      MulMono(s + 1, t, w);
    } else if t + 1 < s {
      MulMono(t + 2, s, w);
    }
  }

  /** A number close behind, but in the block before, is taken for one of this block. */
  lemma LateIsNotRecovered()
    ensures AdjustPktNum(256, 255, 8) == 511
  {
    WidthValues();
    Remainder(257, 256, 1, 1);
    Pow2Add(8, 48);
    Pow2Mono(2, 56);
    assert Pow2(2) == 4;
    Remainder(2, Pow2(56), 0, 2);
    AdjustIsNearer(256, 255, 8, 1, 2);
  }
}
