/**
 What an ACK frame should do to the list of packets in flight, and the walk down the
 list and the ranges of the frame that does it.
 */
module AckWalk {
  import opened Basics
  import opened AckFrames

  /** An entry of the list: one packet that was sent. */
  datatype Info = Info(pktNum: nat, pktLen: nat, unprotected: bool, expiry: nat, deadline: nat, count: nat)

  predicate Eligible(e: Info, unprotected: bool) { unprotected ==> e.unprotected }

  function Without<T>(s: seq<T>, i: nat): (r: seq<T>)
    requires i < |s|
    ensures |r| == |s| - 1
  {
    s[..i] + s[i + 1..]
  }

  ghost function Infos(s: seq<Info>): set<Info> { set e | e in s }

  // ----- what is meant -----

  ghost predicate Taken(e: Info, ack: Ack, unprotected: bool) { Acks(ack, e.pktNum) && Eligible(e, unprotected) }

  /** The entries that stay, in order. */
  ghost function Kept(s: seq<Info>, ack: Ack, unprotected: bool): seq<Info> {
    if s == [] then [] else
    Kept(s[..|s| - 1], ack, unprotected) + (if Taken(s[|s| - 1], ack, unprotected) then [] else [s[|s| - 1]])
  }

  /** The largest number acknowledged so far. */
  ghost function TopOf(s: seq<Info>, ack: Ack, unprotected: bool, top: nat): nat {
    if s == [] then top else
    var t := TopOf(s[..|s| - 1], ack, unprotected, top);
    if Taken(s[|s| - 1], ack, unprotected) then Max(t, s[|s| - 1].pktNum) else t
  }

  /** What is kept are exactly the entries that are not taken. */
  lemma {:induction false} KeptAre(s: seq<Info>, ack: Ack, unprotected: bool, e: Info)
    ensures e in Kept(s, ack, unprotected) <==> e in s && !Taken(e, ack, unprotected)
    ensures |Kept(s, ack, unprotected)| <= |s|
    ensures e in s && Taken(e, ack, unprotected) ==> |Kept(s, ack, unprotected)| < |s|
  {
    if s != [] {
      var n := |s| - 1;
      KeptAre(s[..n], ack, unprotected, e);
      assert s == s[..n] + [s[n]];
    }
  }

  ghost predicate Descending(s: seq<Info>) {
    forall i, j :: 0 <= i < j < |s| ==> s[i].pktNum > s[j].pktNum
  }

  ghost predicate Distinct(s: seq<Info>) {
    forall i, j :: 0 <= i < j < |s| ==> s[i].pktNum != s[j].pktNum
  }

  lemma {:induction false} KeptDescending(s: seq<Info>, ack: Ack, unprotected: bool)
    requires Descending(s)
    ensures Descending(Kept(s, ack, unprotected))
  {
    if s != [] {
      var n := |s| - 1;
      KeptDescending(s[..n], ack, unprotected);
      forall e | e in Kept(s[..n], ack, unprotected) ensures e.pktNum > s[n].pktNum { KeptAre(s[..n], ack, unprotected, e); }
    }
  }

  /** The largest acknowledged number is an upper bound, and one of the numbers. */
  lemma {:induction false} TopIsMax(s: seq<Info>, ack: Ack, unprotected: bool, top: nat)
    ensures var t := TopOf(s, ack, unprotected, top);
            && top <= t && (forall e :: e in s && Taken(e, ack, unprotected) ==> e.pktNum <= t)
            && (t == top || exists e :: e in s && Taken(e, ack, unprotected) && e.pktNum == t)
  {
    if s != [] {
      var n := |s| - 1;
      TopIsMax(s[..n], ack, unprotected, top);
      assert s == s[..n] + [s[n]];
    }
  }

  // ----- the walk over a descending list -----

  /** A frame to be dealt with, and the list and the largest acknowledged number before that. */
  datatype Job = Job(orig: seq<Info>, ack: Ack, unprotected: bool, top: nat)

  /** The list, the cursor in it, and the largest acknowledged number. */
  datatype Cursor = Cursor(list: seq<Info>, i: nat, top: nat)
  {
    predicate More() { i < |list| }

    function Pass(): Cursor
      requires More()
    {
      Cursor(list, i + 1, top)
    }

    function Drop(): Cursor
      requires More()
    {
      Cursor(Without(list, i), i, Max(top, list[i].pktNum))
    }

    function Visit(unprotected: bool): Cursor
      requires More()
    {
      if Eligible(list[i], unprotected) then Drop() else Pass()
    }
  }

  /** The first `k` entries have been dealt with, and the cursor is at the next one. */
  ghost predicate Pruned(j: Job, k: nat, c: Cursor) {
    && k <= |j.orig| && c.i == |Kept(j.orig[..k], j.ack, j.unprotected)|
    && c.list == Kept(j.orig[..k], j.ack, j.unprotected) + j.orig[k..]
    && c.top == TopOf(j.orig[..k], j.ack, j.unprotected, j.top)
  }

  lemma PrunedHead(j: Job, k: nat, c: Cursor)
    requires Pruned(j, k, c) && k < |j.orig|
    ensures c.More() && c.list[c.i] == j.orig[k]
    ensures Without(c.list, c.i) == Kept(j.orig[..k], j.ack, j.unprotected) + j.orig[k + 1..]
  {
    assert j.orig[k..] == [j.orig[k]] + j.orig[k + 1..];
  }

  lemma PrefixNext(s: seq<Info>, ack: Ack, unprotected: bool, top: nat, k: nat)
    requires k < |s|
    ensures Kept(s[..k + 1], ack, unprotected) ==
            Kept(s[..k], ack, unprotected) + (if Taken(s[k], ack, unprotected) then [] else [s[k]])
    ensures var t := TopOf(s[..k], ack, unprotected, top);
            TopOf(s[..k + 1], ack, unprotected, top) == if Taken(s[k], ack, unprotected) then Max(t, s[k].pktNum) else t
  {
    assert s[..k + 1][..k] == s[..k];
  }

  /** An entry that stays joins those kept before it. */
  lemma KeptJoins(kept: seq<Info>, orig: seq<Info>, k: nat)
    requires k < |orig|
    ensures kept + orig[k..] == kept + [orig[k]] + orig[k + 1..]
  {
    assert orig[k..] == [orig[k]] + orig[k + 1..];
  }

  lemma PrunedNext(j: Job, k: nat, c: Cursor)
    requires Pruned(j, k, c) && k < |j.orig|
    ensures c.More() && c.list[c.i] == j.orig[k]
    ensures Pruned(j, k + 1, if Taken(c.list[c.i], j.ack, j.unprotected) then c.Drop() else c.Pass())
  {
    PrunedHead(j, k, c);
    PrefixNext(j.orig, j.ack, j.unprotected, j.top, k);
    if !Taken(j.orig[k], j.ack, j.unprotected) { KeptJoins(Kept(j.orig[..k], j.ack, j.unprotected), j.orig, k); }
  }

  lemma {:induction false} PrunedRest(j: Job, k: nat, c: Cursor)
    requires Pruned(j, k, c) && forall m :: k <= m < |j.orig| ==> !Taken(j.orig[m], j.ack, j.unprotected)
    ensures c.list == Kept(j.orig, j.ack, j.unprotected) && c.top == TopOf(j.orig, j.ack, j.unprotected, j.top)
    decreases |j.orig| - k
  {
    if k < |j.orig| {
      PrunedNext(j, k, c);
      PrunedRest(j, k + 1, c.Pass());
    } else {
      assert j.orig[..k] == j.orig;
    }
  }

  ghost predicate Below(s: seq<Info>, k: nat, bound: int) {
    k <= |s| && forall m :: k <= m < |s| ==> s[m].pktNum < bound
  }

  ghost predicate AllAbove(s: seq<Info>, k: nat, high: int) {
    k <= |s| && forall m :: 0 <= m < k ==> s[m].pktNum > high
  }

  /** A range of the frame, the number of the block after it, and a bound on the entries ahead of it. */
  datatype Span = Span(low: int, high: int, n: nat, bound: int)

  /** What is left of the list: entries that are gone were acknowledged, and none was added. */
  ghost predicate Left(s: seq<Info>, j: Job) {
    && Infos(s) <= Infos(j.orig) && (Distinct(j.orig) ==> Distinct(s))
    && (forall e :: e in j.orig && e !in s ==> Taken(e, j.ack, j.unprotected))
  }

  /** The largest acknowledged number is the maximum of the one before and those of the entries that are gone. */
  ghost predicate Topped(s: seq<Info>, top: nat, j: Job) {
    && j.top <= top && (forall e :: e in j.orig && e !in s ==> e.pktNum <= top)
    && (top == j.top || exists e :: e in j.orig && Gone(e, s, j) && e.pktNum == top)
  }

  /** The entry was acknowledged, and unless another one has its number, it is gone. */
  ghost predicate Gone(e: Info, s: seq<Info>, j: Job) {
    Taken(e, j.ack, j.unprotected) && (Distinct(j.orig) ==> e !in s)
  }

  lemma ToppedWithout(s: seq<Info>, top: nat, j: Job, i: nat)
    requires Left(s, j) && Topped(s, top, j) && i < |s| && Taken(s[i], j.ack, j.unprotected)
    ensures Topped(Without(s, i), Max(top, s[i].pktNum), j)
  {
    var e, r := s[i], Without(s, i);
    forall k | 0 <= k < |r| ensures r[k] == s[if k < i then k else k + 1] {}
    forall k | 0 <= k < |s| && k != i ensures s[k] in r {
      assert r[if k < i then k else k - 1] == s[k];
    }
    assert e in Infos(s);
    assert Gone(e, r, j);
    if top != j.top {
      var x :| x in j.orig && Gone(x, s, j) && x.pktNum == top;
      assert Gone(x, r, j);
    }
  }

  /** The list and the largest acknowledged number after the entries at these places were removed, one after the other. */
  ghost function Pruning(j: Job, at: seq<nat>): (seq<Info>, nat)
    decreases |at|
  {
    if at == [] then (j.orig, j.top) else
    var n := |at| - 1;
    var (s, top) := Pruning(j, at[..n]);
    if at[n] < |s| then (Without(s, at[n]), Max(top, s[at[n]].pktNum)) else (s, top)
  }

  /** All of these entries were acknowledged. */
  ghost predicate AllTaken(j: Job, at: seq<nat>)
    decreases |at|
  {
    at == [] ||
    var n := |at| - 1;
    var s := Pruning(j, at[..n]).0;
    AllTaken(j, at[..n]) && at[n] < |s| && Taken(s[at[n]], j.ack, j.unprotected)
  }

  /** The list and the largest acknowledged number came about by removing acknowledged entries. */
  ghost predicate Reached(j: Job, s: seq<Info>, top: nat) {
    exists at: seq<nat> :: AllTaken(j, at) && Pruning(j, at) == (s, top)
  }

  lemma {:induction false} PruningLeft(j: Job, at: seq<nat>)
    requires AllTaken(j, at)
    ensures Left(Pruning(j, at).0, j) && Topped(Pruning(j, at).0, Pruning(j, at).1, j)
    decreases |at|
  {
    if at != [] {
      var n := |at| - 1;
      var (s, top) := Pruning(j, at[..n]);
      PruningLeft(j, at[..n]);
      LeftWithout(s, j, at[n]);
      ToppedWithout(s, top, j, at[n]);
    }
  }

  lemma ReachedLeft(j: Job, s: seq<Info>, top: nat)
    requires Reached(j, s, top)
    ensures Left(s, j) && Topped(s, top, j)
  {
    var at: seq<nat> :| AllTaken(j, at) && Pruning(j, at) == (s, top);
    PruningLeft(j, at);
  }

  lemma ReachedStart(j: Job)
    ensures Reached(j, j.orig, j.top)
  {
    assert AllTaken(j, []) && Pruning(j, []) == (j.orig, j.top);
  }

  lemma ReachedDrop(j: Job, c: Cursor)
    requires Reached(j, c.list, c.top) && c.More() && Taken(c.list[c.i], j.ack, j.unprotected)
    ensures Reached(j, c.Drop().list, c.Drop().top)
  {
    var at: seq<nat> :| AllTaken(j, at) && Pruning(j, at) == (c.list, c.top);
    var at' := at + [c.i];
    assert at'[..|at|] == at;
    assert AllTaken(j, at') && Pruning(j, at') == (c.Drop().list, c.Drop().top);
  }

  lemma LeftWithout(s: seq<Info>, j: Job, i: nat)
    requires Left(s, j) && i < |s| && Taken(s[i], j.ack, j.unprotected)
    ensures Left(Without(s, i), j)
  {
    var r := Without(s, i);
    forall k | 0 <= k < |r| ensures r[k] == s[if k < i then k else k + 1] {}
    forall k | 0 <= k < |s| && k != i ensures s[k] in r {
      assert r[if k < i then k else k - 1] == s[k];
    }
  }

  /** If the list descends: entries before `k` have been dealt with, and those from there on are below `bound`. */
  ghost predicate Ahead(j: Job, c: Cursor, k: nat, bound: int) {
    Descending(j.orig) ==> Pruned(j, k, c) && Below(j.orig, k, bound)
  }

  /** The walk is in the range `r`, at entry `k` of the original list. */
  ghost predicate InRange(j: Job, c: Cursor, r: Span, k: nat) {
    && Reached(j, c.list, c.top) && Ahead(j, c, k, r.bound)
    && r.low <= r.high < r.bound && RangeAt(j.ack, r.n, r.low, r.high, r.bound)
  }

  /** The walk has passed all entries down to `low`. */
  ghost predicate Passed(j: Job, c: Cursor, low: int, n: nat, k: nat) {
    Reached(j, c.list, c.top) && Ahead(j, c, k, low) && Past(j.ack, n, low)
  }

  lemma AheadBelow(j: Job, k: nat, c: Cursor, bound: int)
    requires Descending(j.orig) && Pruned(j, k, c) && (c.More() ==> c.list[c.i].pktNum < bound)
    ensures Below(j.orig, k, bound)
  {
    if k < |j.orig| { PrunedNext(j, k, c); }
  }

  /** One entry that is above the range. */
  lemma RangePass(j: Job, c: Cursor, r: Span, k: nat)
    requires InRange(j, c, r, k) && c.More() && r.high < c.list[c.i].pktNum
    ensures InRange(j, c.Pass(), r, k + 1)
  {
    if Descending(j.orig) {
      PrunedNext(j, k, c);
      Decided(j.ack, r.n, r.low, r.high, r.bound, c.list[c.i].pktNum);
    }
  }

  /** Entries at the head of the list that are all above the range. */
  lemma {:induction false} RangeSkip(j: Job, c: Cursor, r: Span, k: nat, end: nat)
    requires k <= end && c.i == k && InRange(j, c, r, k) && AllAbove(c.list, end, r.high)
    ensures InRange(j, Cursor(c.list, end, c.top), r, end)
    decreases end - k
  {
    if k < end {
      RangePass(j, c, r, k);
      RangeSkip(j, c.Pass(), r, k + 1, end);
    }
  }

  /** One entry in the range. */
  lemma RangeVisit(j: Job, c: Cursor, r: Span, k: nat)
    requires InRange(j, c, r, k) && c.More() && r.low <= c.list[c.i].pktNum <= r.high
    ensures InRange(j, c.Visit(j.unprotected), r, k + 1)
  {
    Decided(j.ack, r.n, r.low, r.high, r.bound, c.list[c.i].pktNum);
    if Eligible(c.list[c.i], j.unprotected) { ReachedDrop(j, c); }
    if Descending(j.orig) { PrunedNext(j, k, c); }
  }

  /** The next entry is below the range. */
  lemma RangeDone(j: Job, c: Cursor, r: Span, k: nat)
    requires InRange(j, c, r, k) && (c.More() ==> c.list[c.i].pktNum < r.low)
    ensures Passed(j, c, r.low, r.n, k)
  {
    PastRange(j.ack, r.n, r.low, r.high, r.bound);
    if Descending(j.orig) { AheadBelow(j, k, c, r.low); }
  }

  /** The range that block `n` gives below `low`. */
  lemma RangeStarts(j: Job, c: Cursor, low: int, n: nat, k: nat) returns (r: Span)
    requires Passed(j, c, low, n, k) && n < |j.ack.blks|
    ensures r.high == low - j.ack.blks[n].gap - 2 && r.low == r.high - j.ack.blks[n].len && r.n == n + 1
    ensures InRange(j, c, r, k)
  {
    r := Span(low - j.ack.blks[n].gap - 2 - j.ack.blks[n].len, low - j.ack.blks[n].gap - 2, n + 1, low);
    PastNext(j.ack, n, low);
  }

  lemma Unpruned(j: Job)
    ensures Pruned(j, 0, Cursor(j.orig, 0, j.top))
  {
    assert j.orig[..0] == [] && [] + j.orig[0..] == j.orig;
  }

  /** The walk starts with the first entry that is not above the first range. */
  lemma WalkStarts(j: Job, i: nat) returns (r: Span)
    requires AllAbove(j.orig, i, j.ack.largest)
    ensures r.low == j.ack.largest - j.ack.firstLen && r.high == j.ack.largest && r.n == 0
    ensures InRange(j, Cursor(j.orig, i, j.top), r, i)
  {
    var bound: int := j.ack.largest + 1 + if j.orig == [] then 0 else j.orig[0].pktNum;
    r := Span(j.ack.largest - j.ack.firstLen, j.ack.largest, 0, bound);
    FirstRange(j.ack, bound);
    Unpruned(j);
    ReachedStart(j);
    RangeSkip(j, Cursor(j.orig, 0, j.top), r, 0, i);
  }

  /** From the first entry that is not above the first range on, a descending list has none above it. */
  lemma Enters(j: Job, c: Cursor, r: Span, k: nat) returns (r': Span)
    requires InRange(j, c, r, k) && c.More() && c.list[c.i].pktNum <= r.high
    ensures r' == r.(bound := r.high + 1) && InRange(j, c, r', k)
  {
    r' := r.(bound := r.high + 1);
    if Descending(j.orig) { AheadBelow(j, k, c, r.high + 1); }
  }

  /** The next entry is not in a range that has no entries above it ahead. */
  lemma FirstDone(j: Job, c: Cursor, r: Span, k: nat)
    requires InRange(j, c, r, k) && r.bound == r.high + 1 && (c.More() ==> !(r.low <= c.list[c.i].pktNum <= r.high))
    ensures Passed(j, c, r.low, r.n, k)
  {
    PastRange(j.ack, r.n, r.low, r.high, r.bound);
    if Descending(j.orig) {
      if k < |j.orig| { PrunedNext(j, k, c); }
      AheadBelow(j, k, c, r.low);
    }
  }

  /** On a descending list exactly the acknowledged entries of sufficient protection have gone in the end. */
  lemma WalkEnds(j: Job, c: Cursor, low: int, n: nat, k: nat)
    requires Passed(j, c, low, n, k) && (n == |j.ack.blks| || !c.More())
    ensures Left(c.list, j) && Topped(c.list, c.top, j)
    ensures Descending(j.orig) ==>
              && c.list == Kept(j.orig, j.ack, j.unprotected) && Descending(c.list)
              && c.top == TopOf(j.orig, j.ack, j.unprotected, j.top)
  {
    ReachedLeft(j, c.list, c.top);
    if Descending(j.orig) { WalkedAll(j, c, low, n, k); }
  }

  lemma WalkedAll(j: Job, c: Cursor, low: int, n: nat, k: nat)
    requires Descending(j.orig) && Pruned(j, k, c) && Below(j.orig, k, low) && Past(j.ack, n, low)
    requires n == |j.ack.blks| || !c.More()
    ensures c.list == Kept(j.orig, j.ack, j.unprotected) && Descending(c.list)
    ensures c.top == TopOf(j.orig, j.ack, j.unprotected, j.top)
  {
    PrunedRest(j, k, c);
    KeptDescending(j.orig, j.ack, j.unprotected);
  }

  // ----- a list that is not descending -----

  /** The first entry not above the frame is below its only range, so that the walk ends there. */
  ghost predicate Blocked(s: seq<Info>, ack: Ack) {
    ack.blks == [] && exists k: nat :: k < |s| && s[k].pktNum < ack.largest - ack.firstLen && AllAbove(s, k, ack.largest)
  }

  lemma BlockedAt(s: seq<Info>, ack: Ack, i: nat)
    requires Blocked(s, ack) && AllAbove(s, i, ack.largest) && (i < |s| ==> s[i].pktNum <= ack.largest)
    ensures i < |s| && s[i].pktNum < ack.largest - ack.firstLen
  {
    var k: nat :| k < |s| && s[k].pktNum < ack.largest - ack.firstLen && AllAbove(s, k, ack.largest);
  }

  /**
   In a list that is not descending, some valid frame acknowledges a packet that the walk does not
   reach: it stays in the list although it should go.
   */
  lemma AscentBlocks(s: seq<Info>) returns (ack: Ack)
    requires Distinct(s) && !Descending(s)
    ensures ValidAck(ack) && Blocked(s, ack) && s != Kept(s, ack, false)
  {
    var i := Ascent(s);
    var e := s[i + 1];
    ack := Ack(e.pktNum, 0, 0, []);
    var k := 0;
    while s[k].pktNum > e.pktNum
      invariant 0 <= k <= i && AllAbove(s, k, e.pktNum)
      decreases i - k
    {
      k := k + 1;
    }
    KeptAre(s, ack, false, e);
  }

  lemma {:induction false} Ascent(s: seq<Info>) returns (i: nat)
    requires Distinct(s) && !Descending(s)
    ensures i + 1 < |s| && s[i].pktNum < s[i + 1].pktNum
  {
    if |s| > 1 && s[0].pktNum > s[1].pktNum {
      TailAscends(s);
      var k := Ascent(s[1..]);
      i := k + 1;
    } else {
      i := 0;
    }
  }

  lemma TailAscends(s: seq<Info>)
    requires |s| > 1 && s[0].pktNum > s[1].pktNum
    ensures Descending(s[1..]) ==> Descending(s)
  {
    if Descending(s[1..]) {
      forall i, j | 0 <= i < j < |s| ensures s[i].pktNum > s[j].pktNum {
        assert s[j] == s[1..][j - 1];
        if i > 0 { assert s[i] == s[1..][i - 1]; }
      }
    }
  }
}
