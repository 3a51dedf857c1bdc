/**
 The ACK tracker: the received packets still to be acknowledged, in descending
 order, and the ACK frames sent, newest first.
 */
module AckTracker {
  import opened AckFrames
  import opened RingBuffer

  const MAX_ENT: nat := 1024

  /** A received packet. */
  datatype Entry = Entry(pktNum: nat, tstamp: nat, unprotected: bool)

  /** An ACK frame sent in packet `pktNum`. */
  datatype SentAck = SentAck(ack: Ack, pktNum: nat, unprotected: bool)

  ghost predicate Descending(ents: seq<Entry>) {
    forall i, j :: 0 <= i < j < |ents| ==> ents[i].pktNum > ents[j].pktNum
  }

  // ----- adding -----

  function Insert(ents: seq<Entry>, e: Entry): seq<Entry> {
    if ents != [] && ents[0].pktNum > e.pktNum then [ents[0]] + Insert(ents[1..], e) else [e] + ents
  }

  function Trimmed(ents: seq<Entry>): seq<Entry> { if |ents| > MAX_ENT then ents[..MAX_ENT] else ents }

  ghost predicate Tracked(ents: seq<Entry>, pktNum: nat) {
    exists i :: 0 <= i < |ents| && ents[i].pktNum == pktNum
  }

  /** The position at which a number belongs. */
  ghost predicate Place(ents: seq<Entry>, i: nat, pktNum: nat) {
    && i <= |ents|
    && (forall j :: 0 <= j < i ==> ents[j].pktNum > pktNum)
    && (i < |ents| ==> ents[i].pktNum <= pktNum)
  }

  lemma {:induction false} InsertAt(ents: seq<Entry>, i: nat, e: Entry)
    requires Place(ents, i, e.pktNum)
    ensures Insert(ents, e) == ents[..i] + [e] + ents[i..]
  {
    if i == 0 {
      assert ents[..0] + [e] + ents[0..] == [e] + ents;
    } else {
      InsertAt(ents[1..], i - 1, e);
      Shifted(ents, i, e);
    }
  }

  lemma Shifted(ents: seq<Entry>, i: nat, e: Entry)
    requires 0 < i <= |ents|
    ensures [ents[0]] + (ents[1..][..i - 1] + [e] + ents[1..][i - 1..]) == ents[..i] + [e] + ents[i..]
  {
    assert [ents[0]] + ents[1..][..i - 1] == ents[..i] && ents[1..][i - 1..] == ents[i..];
  }

  /**
   `ents'` are the `cap` largest of `ents` and `e`: nothing else is in it, and what
   is missing is smaller than everything in it and only missing because it is full.
   */
  ghost predicate Largest(ents: seq<Entry>, e: Entry, ents': seq<Entry>, cap: nat) {
    && Descending(ents') && |ents'| == (if |ents| < cap then |ents| + 1 else cap)
    && (forall i :: 0 <= i < |ents'| ==> ents'[i] in ents || ents'[i] == e)
    && (forall x, i :: (x in ents || x == e) && x !in ents' && 0 <= i < |ents'| ==> x.pktNum < ents'[i].pktNum)
    && (|ents| < cap ==> e in ents' && forall x :: x in ents ==> x in ents')
  }

  lemma InsertLargest(ents: seq<Entry>, i: nat, e: Entry, cap: nat)
    requires Descending(ents) && Place(ents, i, e.pktNum) && !Tracked(ents, e.pktNum) && |ents| <= cap
    ensures var r := Insert(ents, e); Largest(ents, e, if |r| > cap then r[..cap] else r, cap)
  {
    InsertAt(ents, i, e);
    assert i < |ents| ==> ents[i].pktNum < e.pktNum;
    InsertDescending(ents, i, e);
    InsertHolds(ents, i, e);
    if |ents| == cap { CutLargest(ents, e, Insert(ents, e), Insert(ents, e)[..cap]); }
  }

  /** `r` holds `ents` and `e`. */
  ghost predicate OneMore(r: seq<Entry>, ents: seq<Entry>, e: Entry) {
    |r| == |ents| + 1 && forall x :: x in r <==> x in ents || x == e
  }

  lemma CutLargest(ents: seq<Entry>, e: Entry, r: seq<Entry>, t: seq<Entry>)
    requires Descending(r) && OneMore(r, ents, e) && t == r[..|ents|]
    ensures Largest(ents, e, t, |ents|)
  {
    forall j | 0 <= j < |t| ensures t[j] in ents || t[j] == e { assert t[j] == r[j]; }
    forall x | (x in ents || x == e) && x !in t ensures x == r[|ents|] {
      assert x in r;
      assert r == t + [r[|ents|]];
    }
  }

  lemma InsertDescending(ents: seq<Entry>, i: nat, e: Entry)
    requires Descending(ents) && i <= |ents|
    requires (forall j :: 0 <= j < i ==> ents[j].pktNum > e.pktNum) && (i < |ents| ==> ents[i].pktNum < e.pktNum)
    ensures Descending(ents[..i] + [e] + ents[i..])
  {
  }

  lemma InsertHolds(ents: seq<Entry>, i: nat, e: Entry)
    requires i <= |ents|
    ensures OneMore(ents[..i] + [e] + ents[i..], ents, e)
  {
    assert ents == ents[..i] + ents[i..];
  }

  // ----- removing what an ACK frame covered -----

  /** The entries a frame does not acknowledge, in order. */
  ghost function Survivors(ents: seq<Entry>, ack: Ack): seq<Entry> {
    if ents == [] then [] else
    Survivors(ents[..|ents| - 1], ack) +
    (if Acks(ack, ents[|ents| - 1].pktNum) then [] else [ents[|ents| - 1]])
  }

  lemma {:induction false} SurvivorsAre(ents: seq<Entry>, ack: Ack, x: Entry)
    ensures x in Survivors(ents, ack) <==> x in ents && !Acks(ack, x.pktNum)
  {
    if ents != [] {
      var n := |ents| - 1;
      SurvivorsAre(ents[..n], ack, x);
      assert ents == ents[..n] + [ents[n]];
    }
  }

  lemma {:induction false} SurvivorsDescending(ents: seq<Entry>, ack: Ack)
    requires Descending(ents)
    ensures Descending(Survivors(ents, ack)) && |Survivors(ents, ack)| <= |ents|
  {
    if ents != [] {
      var n := |ents| - 1;
      SurvivorsDescending(ents[..n], ack);
      forall x | x in Survivors(ents[..n], ack) ensures x.pktNum > ents[n].pktNum {
        SurvivorsAre(ents[..n], ack, x);
      }
    }
  }

  // ----- choosing among the ACK frames sent -----

  /** The packet an ACK frame was sent in is acknowledged, by a frame of sufficient protection. */
  ghost predicate Hit(a: SentAck, fr: Ack, unprotected: bool) {
    Acks(fr, a.pktNum) && (unprotected ==> a.unprotected)
  }

  /** The newest ACK frame that is hit. */
  ghost function Selected(items: seq<SentAck>, fr: Ack, unprotected: bool): (r: nat)
    ensures r <= |items|
  {
    if items == [] || Hit(items[0], fr, unprotected) then 0 else 1 + Selected(items[1..], fr, unprotected)
  }

  lemma {:induction false} SelectedIs(items: seq<SentAck>, fr: Ack, unprotected: bool, j: nat)
    requires j <= |items| && NoHit(items, fr, unprotected, j) && (j < |items| ==> Hit(items[j], fr, unprotected))
    ensures Selected(items, fr, unprotected) == j
  {
    if j > 0 {
      assert !Hit(items[0], fr, unprotected);
      forall k | 0 <= k < j - 1 ensures !Hit(items[1..][k], fr, unprotected) { assert items[1..][k] == items[k + 1]; }
      SelectedIs(items[1..], fr, unprotected, j - 1);
    }
  }

  ghost predicate NoHit(items: seq<SentAck>, fr: Ack, unprotected: bool, j: nat) {
    j <= |items| && forall k :: 0 <= k < j ==> !Hit(items[k], fr, unprotected)
  }

  ghost predicate NewestFirst(items: seq<SentAck>) {
    forall i, j :: 0 <= i < j < |items| ==> items[i].pktNum > items[j].pktNum
  }

  /** What the ring holds after a frame was sent. */
  function Pushed(items: seq<SentAck>, x: SentAck): seq<SentAck> { [x] + if |items| == 128 then items[..127] else items }

  lemma PushedNewest(items: seq<SentAck>, x: SentAck)
    requires NewestFirst(items) && ValidAck(x.ack) && |items| <= 128
    requires forall i :: 0 <= i < |items| ==> items[i].pktNum < x.pktNum && ValidAck(items[i].ack)
    ensures NewestFirst(Pushed(items, x)) && forall i :: 0 <= i < |Pushed(items, x)| ==> ValidAck(Pushed(items, x)[i].ack)
  {
  }

  ghost predicate ItemsBelow(items: seq<SentAck>, j: nat, bound: int) {
    j <= |items| && forall k :: j <= k < |items| ==> items[k].pktNum < bound
  }

  ghost predicate EntsBelow(ents: seq<Entry>, k: nat, bound: int) {
    k <= |ents| && forall m :: k <= m < |ents| ==> ents[m].pktNum < bound
  }

  /** The first `k` entries of `orig` have been dealt with; the cursor `i` is at the next one. */
  ghost predicate Pruned(orig: seq<Entry>, ack: Ack, k: nat, ents: seq<Entry>, i: nat) {
    k <= |orig| && i == |Survivors(orig[..k], ack)| && ents == Survivors(orig[..k], ack) + orig[k..]
  }

  lemma PrunedNext(orig: seq<Entry>, ack: Ack, k: nat, ents: seq<Entry>, i: nat)
    requires Pruned(orig, ack, k, ents, i) && k < |orig|
    ensures i < |ents| && ents[i] == orig[k]
    ensures if Acks(ack, orig[k].pktNum) then Pruned(orig, ack, k + 1, ents[..i] + ents[i + 1..], i)
            else Pruned(orig, ack, k + 1, ents, i + 1)
  {
    assert orig[..k + 1][..k] == orig[..k];
    assert orig[k..] == [orig[k]] + orig[k + 1..];
  }

  lemma PrunedRest(orig: seq<Entry>, ack: Ack, k: nat, ents: seq<Entry>, i: nat)
    requires Pruned(orig, ack, k, ents, i) && forall m :: k <= m < |orig| ==> !Acks(ack, orig[m].pktNum)
    ensures ents == Survivors(orig, ack)
    decreases |orig| - k
  {
    if k < |orig| {
      PrunedNext(orig, ack, k, ents, i);
      PrunedRest(orig, ack, k + 1, ents, i + 1);
    } else {
      assert orig[..k] == orig;
    }
  }

  /** Finds the place of a number that is not tracked. */
  method FindPlace(ents: seq<Entry>, pktNum: nat) returns (ok: bool, i: nat)
    requires Descending(ents)
    ensures ok <==> !Tracked(ents, pktNum)
    ensures Place(ents, i, pktNum)
  {
    i := 0;
    while i < |ents| && ents[i].pktNum > pktNum
      invariant i <= |ents| && forall j :: 0 <= j < i ==> ents[j].pktNum > pktNum
    {
      i := i + 1;
    }
    ok := !(i < |ents| && ents[i].pktNum == pktNum);
  }

  class Acktr {
    var ents: seq<Entry>
    var nack: nat
    var activeAck: bool
    const acks: Ring<SentAck>

    ghost predicate Valid()
      reads this, acks, acks.buf
    {
      && Descending(ents) && nack == |ents| <= MAX_ENT
      && acks.Valid() && acks.k == 7 && NewestFirst(acks.items)
      && (forall i :: 0 <= i < |acks.items| ==> ValidAck(acks.items[i].ack))
    }

    /** The ring holds 128 frames; its start depends on the size of an item. */
    constructor (itemSize: nat)
      requires 0 < itemSize
      ensures Valid() && ents == [] && !activeAck && acks.items == [] && fresh(acks) && fresh(acks.buf)
    {
      acks := new Ring<SentAck>(7, itemSize - 1);
      ents, nack, activeAck := [], 0, false;
    }

    /** Adds a received packet: refused exactly if tracked already; the 1024 largest are kept. */
    method Add(e: Entry, active: bool) returns (ok: bool)
      requires Valid()
      modifies this
      ensures Valid()
      ensures ok <==> !Tracked(old(ents), e.pktNum)
      ensures ok ==> ents == Trimmed(Insert(old(ents), e)) && Largest(old(ents), e, ents, MAX_ENT)
      ensures ok ==> activeAck == (old(activeAck) || active)
      ensures !ok ==> ents == old(ents) && activeAck == old(activeAck)
    {
      var i: nat;
      ok, i := FindPlace(ents, e.pktNum);
      if ok {
        InsertLargest(ents, i, e, MAX_ENT);
        Link(i, e);
        activeAck := activeAck || active;
        TrimTail();
      }
    }

    method Link(i: nat, e: Entry)
      requires Place(ents, i, e.pktNum) && nack == |ents|
      modifies this`ents, this`nack
      ensures ents == Insert(old(ents), e) && nack == |ents| == |old(ents)| + 1
    {
      InsertAt(ents, i, e);
      ents := ents[..i] + [e] + ents[i..];
      nack := nack + 1;
    }

    method TrimTail()
      requires nack == |ents| <= MAX_ENT + 1
      modifies this`ents, this`nack
      ensures nack == |ents| && ents == if |old(ents)| > MAX_ENT then old(ents)[..MAX_ENT] else old(ents)
    {
      if nack > MAX_ENT {
        ents := ents[..|ents| - 1];
        nack := nack - 1;
      }
    }

    /** Drops the entries from `i` on. */
    method Forget(i: nat)
      requires Valid() && i < |ents|
      modifies this`ents, this`nack
      ensures Valid() && ents == old(ents)[..i]
    {
      nack := i;
      ents := ents[..i];
    }

    /** Records an ACK frame that was sent; packet numbers only grow. */
    method AddAck(pktNum: nat, ack: Ack, unprotected: bool)
      requires Valid() && ValidAck(ack) && (forall i :: 0 <= i < |acks.items| ==> acks.items[i].pktNum < pktNum)
      modifies acks, acks.buf
      ensures Valid()
      ensures acks.items == Pushed(old(acks.items), SentAck(ack, pktNum, unprotected))
    {
      PushedNewest(acks.items, SentAck(ack, pktNum, unprotected));
      acks.PushFront(SentAck(ack, pktNum, unprotected));
    }

    /** Removes the entry at the cursor. */
    method Remove(i: nat)
      requires i < |ents| && nack == |ents|
      modifies this`ents, this`nack
      ensures ents == old(ents)[..i] + old(ents)[i + 1..] && nack == |ents|
    {
      ents := ents[..i] + ents[i + 1..];
      nack := nack - 1;
    }

    /** Removes the entries in [low, high] from the cursor on, and leaves it at the first one below. */
    method RemoveRange(start: nat, low: int, high: int, ghost orig: seq<Entry>, ghost ack: Ack, ghost k0: nat,
                       ghost blk: nat, ghost bound: int)
      returns (i: nat, ghost k: nat)
      requires nack == |ents| && Pruned(orig, ack, k0, ents, start) && Descending(orig)
      requires RangeAt(ack, blk, low, high, bound) && EntsBelow(orig, k0, bound)
      modifies this`ents, this`nack
      ensures nack == |ents| && Pruned(orig, ack, k, ents, i) && EntsBelow(orig, k, low)
    {
      i, k := start, k0;
      while i < |ents|
        invariant nack == |ents| && Pruned(orig, ack, k, ents, i) && k0 <= k
        decreases |ents| - i
      {
        PrunedNext(orig, ack, k, ents, i);
        if ents[i].pktNum < low {
          return;
        }
        Decided(ack, blk, low, high, bound, orig[k].pktNum);
        k := k + 1;
        if ents[i].pktNum > high {
          i := i + 1;
        } else {
          Remove(i);
        }
      }
    }

    /** A sent ACK frame was itself acknowledged: what it covered need not be acknowledged again. */
    method OnAck(j: nat)
      requires Valid() && j < |acks.items|
      modifies this`ents, this`nack, acks
      ensures Valid() && ents == Survivors(old(ents), old(acks.items)[j].ack) && acks.items == old(acks.items)[..j]
    {
      var sent := acks.Get(j);
      RemoveCovered(sent.ack);
      acks.Resize(j);
    }

    /** Removes exactly the entries that `ack` acknowledges. */
    method RemoveCovered(ack: Ack)
      requires Descending(ents) && nack == |ents| && ValidAck(ack)
      modifies this`ents, this`nack
      ensures ents == Survivors(old(ents), ack) && Descending(ents) && nack == |ents| <= |old(ents)|
    {
      ghost var orig := ents;
      SurvivorsDescending(orig, ack);
      var low: int, i: nat, k: nat := RemoveFirst(ack);
      var n: nat;
      n, low, i, k := RemoveBlocks(i, low, orig, ack, k);
      WalkEnds(orig, ack, k, ents, i, n, low);
    }

    /** Removes the entries in the ranges of the blocks. */
    method RemoveBlocks(start: nat, low0: int, ghost orig: seq<Entry>, ack: Ack, ghost k0: nat)
      returns (n: nat, low: int, i: nat, ghost k: nat)
      requires nack == |ents| && Walk(orig, ack, k0, ents, start, 0, low0)
      modifies this`ents, this`nack
      ensures nack == |ents| && Walk(orig, ack, k, ents, i, n, low) && (n == |ack.blks| || i == |ents|)
    {
      n, low, i, k := 0, low0, start, k0;
      while n < |ack.blks| && i < |ents|
        invariant nack == |ents| && i <= |ents| && n <= |ack.blks| && Walk(orig, ack, k, ents, i, n, low)
      {
        low, i, k := RemoveBlock(i, low, orig, ack, k, n);
        n := n + 1;
      }
    }

    /** Removes the entries in the first range. */
    method RemoveFirst(ack: Ack) returns (low: int, i: nat, ghost k: nat)
      requires nack == |ents| && Descending(ents)
      modifies this`ents, this`nack
      ensures nack == |ents| && Walk(old(ents), ack, k, ents, i, 0, low)
    {
      ghost var orig := ents;
      WalkStarts(orig, ack);
      low := ack.largest - ack.firstLen;
      i, k := RemoveRange(0, low, ack.largest, orig, ack, 0, 0, Above(orig, ack));
    }

    /** Removes the entries in the range that block `n` gives below `low0`. */
    method RemoveBlock(start: nat, low0: int, ghost orig: seq<Entry>, ack: Ack, ghost k0: nat, n: nat)
      returns (low: int, i: nat, ghost k: nat)
      requires nack == |ents| && n < |ack.blks| && Walk(orig, ack, k0, ents, start, n, low0)
      modifies this`ents, this`nack
      ensures nack == |ents| && Walk(orig, ack, k, ents, i, n + 1, low)
    {
      var high := low0 - ack.blks[n].gap - 2;
      low := high - ack.blks[n].len;
      PastNext(ack, n, low0);
      i, k := RemoveRange(start, low, high, orig, ack, k0, n + 1, low0);
      PastRange(ack, n + 1, low, high, low0);
    }

    /** A frame was received: the newest ACK frame whose packet it acknowledges has arrived, and is no longer needed. */
    method RecvAck(fr: Ack, unprotected: bool)
      requires Valid() && ValidAck(fr)
      modifies this`ents, this`nack, acks
      ensures Valid()
      ensures var j := Selected(old(acks.items), fr, unprotected);
              if j < |old(acks.items)|
              then ents == Survivors(old(ents), old(acks.items)[j].ack) && acks.items == old(acks.items)[..j]
              else ents == old(ents) && acks.items == old(acks.items)
    {
      var found, j := SelectAck(fr, unprotected);
      if found {
        OnAck(j);
      }
    }

    /** Finds the newest ACK frame that is hit. */
    method SelectAck(fr: Ack, unprotected: bool) returns (found: bool, j: nat)
      requires acks.Valid() && NewestFirst(acks.items)
      ensures found <==> Selected(acks.items, fr, unprotected) < |acks.items|
      ensures found ==> j == Selected(acks.items, fr, unprotected)
    {
      ghost var bound: int := fr.largest + 1 + if acks.len == 0 then 0 else acks.items[0].pktNum;
      FirstRange(fr, bound);
      var low: int := fr.largest - fr.firstLen;
      found, j := ScanRange(0, low, fr.largest, unprotected, fr, 0, bound);
      PastRange(fr, 0, low, fr.largest, bound);
      var n: nat := 0;
      while !found && n < |fr.blks| && j < acks.len
        invariant Scanned(acks.items, fr, unprotected, j, found)
        invariant !found ==> ItemsBelow(acks.items, j, low) && Past(fr, n, low)
        decreases |fr.blks| - n
      {
        found, j, low := ScanBlock(j, low, fr.blks[n], unprotected, fr, n);
        n := n + 1;
      }
      ScanEnds(acks.items, fr, unprotected, j, found, n, low);
    }

    /** Looks through the frames sent in packets down to the end of the range that `blk` gives below `low0`. */
    method ScanBlock(start: nat, low0: int, blk: Blk, unprotected: bool, ghost fr: Ack, ghost n: nat)
      returns (found: bool, j: nat, low: int)
      requires acks.Valid() && NewestFirst(acks.items) && NoHit(acks.items, fr, unprotected, start)
      requires n < |fr.blks| && blk == fr.blks[n] && ItemsBelow(acks.items, start, low0) && Past(fr, n, low0)
      ensures Scanned(acks.items, fr, unprotected, j, found)
      ensures !found ==> ItemsBelow(acks.items, j, low) && Past(fr, n + 1, low)
    {
      var high := low0 - blk.gap - 2;
      low := high - blk.len;
      PastNext(fr, n, low0);
      found, j := ScanRange(start, low, high, unprotected, fr, n + 1, low0);
      PastRange(fr, n + 1, low, high, low0);
    }

    /** Looks through the frames sent in packets down to `low` for one that is hit. */
    method ScanRange(start: nat, low: int, high: int, unprotected: bool, ghost fr: Ack, ghost blk: nat, ghost bound: int)
      returns (found: bool, j: nat)
      requires acks.Valid() && NewestFirst(acks.items) && NoHit(acks.items, fr, unprotected, start)
      requires RangeAt(fr, blk, low, high, bound) && ItemsBelow(acks.items, start, bound)
      ensures Scanned(acks.items, fr, unprotected, j, found) && (!found ==> ItemsBelow(acks.items, j, low))
    {
      found, j := false, start;
      while j < acks.len
        invariant start <= j <= acks.len && NoHit(acks.items, fr, unprotected, j)
      {
        var a := acks.Get(j);
        if a.pktNum < low {
          return;
        }
        Decided(fr, blk, low, high, bound, a.pktNum);
        if a.pktNum <= high && (unprotected ==> a.unprotected) {
          return true, j;
        }
        j := j + 1;
      }
    }
  }

  ghost predicate Scanned(items: seq<SentAck>, fr: Ack, unprotected: bool, j: nat, found: bool) {
    NoHit(items, fr, unprotected, j) && (found ==> j < |items| && Hit(items[j], fr, unprotected))
  }

  lemma ScanEnds(items: seq<SentAck>, fr: Ack, unprotected: bool, j: nat, found: bool, n: nat, low: int)
    requires Scanned(items, fr, unprotected, j, found)
    requires !found ==> ItemsBelow(items, j, low) && Past(fr, n, low) && (n == |fr.blks| || j == |items|)
    ensures found <==> Selected(items, fr, unprotected) < |items|
    ensures found ==> j == Selected(items, fr, unprotected)
  {
    SelectedIs(items, fr, unprotected, if found then j else |items|);
  }

  /** All entries down to `low` have been dealt with, and all blocks before `n`. */
  ghost predicate Walk(orig: seq<Entry>, ack: Ack, k: nat, ents: seq<Entry>, i: nat, n: nat, low: int) {
    Descending(orig) && Pruned(orig, ack, k, ents, i) && EntsBelow(orig, k, low) && Past(ack, n, low)
  }

  /** A number above all entries and ranges. */
  ghost function Above(ents: seq<Entry>, ack: Ack): int {
    ack.largest + 1 + if ents == [] then 0 else ents[0].pktNum
  }

  lemma WalkStarts(orig: seq<Entry>, ack: Ack)
    requires Descending(orig)
    ensures Pruned(orig, ack, 0, orig, 0) && EntsBelow(orig, 0, Above(orig, ack))
    ensures RangeAt(ack, 0, ack.largest - ack.firstLen, ack.largest, Above(orig, ack))
    ensures Past(ack, 0, ack.largest - ack.firstLen)
  {
    FirstRange(ack, Above(orig, ack));
    PastRange(ack, 0, ack.largest - ack.firstLen, ack.largest, Above(orig, ack));
  }

  lemma WalkEnds(orig: seq<Entry>, ack: Ack, k: nat, ents: seq<Entry>, i: nat, n: nat, low: int)
    requires Walk(orig, ack, k, ents, i, n, low) && (n == |ack.blks| || i == |ents|)
    ensures ents == Survivors(orig, ack)
  {
    PrunedRest(orig, ack, k, ents, i);
  }
}
