/**
 The stream ID tracker: which peer-initiated stream IDs of one kind have ever
 been used.

 Claiming the last ID of a gap leaves an empty gap behind, so the list is
 sorted and separated but may hold empty ranges.
 */
module IdTracker {
  import opened Ranges

  // A 64-bit stream ID shifted right by two.
  const ID_LIMIT: nat := 0x4000_0000_0000_0000

  function IdFromStreamId(streamId: nat): nat { streamId / 4 }

  /** Sorted and separated; gaps may be empty, but not at offset 0. */
  ghost predicate Separated(gaps: seq<Range>) {
    && (forall i :: 0 <= i < |gaps| ==> gaps[i].begin <= gaps[i].end && 0 < gaps[i].end)
    && (forall i, j :: 0 <= i < j < |gaps| ==> gaps[i].end < gaps[j].begin)
  }

  /** Separated, and the last gap reaches UINT64_MAX, which no stream ID does. */
  ghost predicate ValidIds(gaps: seq<Range>) {
    Separated(gaps) && gaps != [] && gaps[|gaps| - 1].begin <= ID_LIMIT && gaps[|gaps| - 1].end == UINT64_MAX
  }

  ghost predicate NoEmptyGap(gaps: seq<Range>) {
    forall i :: 0 <= i < |gaps| ==> NonEmpty(gaps[i])
  }

  /** `id` has been claimed before. */
  ghost predicate Used(gaps: seq<Range>, id: nat) { !Covers(gaps, id) }

  /** What claiming `q` leaves of the gap that holds it. */
  function ClaimInGap(g: Range, q: nat): seq<Range>
    requires In(q, g)
  {
    if q == g.begin then
      if g.end - g.begin == 1 then [] else [Range(q + 1, g.end)]
    else
      [Range(g.begin, q), Range(q + 1, g.end)]
  }

  /** The gap list after claiming `q`; unchanged if no gap holds `q`. */
  function Claim(gaps: seq<Range>, q: nat): seq<Range> {
    if gaps == [] then []
    else if In(q, gaps[0]) then ClaimInGap(gaps[0], q) + gaps[1..]
    else [gaps[0]] + Claim(gaps[1..], q)
  }

  lemma SeparatedTail(gaps: seq<Range>, x: nat)
    requires Separated(gaps) && gaps != []
    ensures Separated(gaps[1..])
    ensures Covers(gaps, x) <==> In(x, gaps[0]) || Covers(gaps[1..], x)
    ensures x <= gaps[0].end ==> !Covers(gaps[1..], x)
  {
    CoversTail(gaps, x);
    if Covers(gaps[1..], x) {
      var i :| 0 <= i < |gaps[1..]| && In(x, gaps[1..][i]);
      assert gaps[1..][i] == gaps[i + 1];
    }
  }

  lemma ClaimInGapCovers(g: Range, q: nat, x: nat)
    requires In(q, g)
    ensures Covers(ClaimInGap(g, q), x) <==> In(x, g) && x != q
  {
    var mid := ClaimInGap(g, q);
    assert mid != [] ==> In(x, mid[0]) ==> Covers(mid, x);
    assert |mid| == 2 ==> In(x, mid[1]) ==> Covers(mid, x);
  }

  /** Claiming `q` makes `q` used and changes no other ID. */
  lemma {:induction false} ClaimUses(gaps: seq<Range>, q: nat, x: nat)
    requires Separated(gaps)
    ensures Used(Claim(gaps, q), x) <==> Used(gaps, x) || x == q
  {
    if gaps != [] {
      SeparatedTail(gaps, x);
      SeparatedTail(gaps, q);
      if In(q, gaps[0]) {
        ClaimInGapCovers(gaps[0], q, x);
        CoversConcat(ClaimInGap(gaps[0], q), gaps[1..], x);
      } else {
        ClaimUses(gaps[1..], q, x);
        CoversCons(gaps[0], Claim(gaps[1..], q), x);
      }
    }
  }

  lemma SeparatedConcat(a: seq<Range>, b: seq<Range>, lo: nat, mid: nat)
    requires Separated(a) && Separated(b) && lo <= mid + 1
    requires forall i :: 0 <= i < |a| ==> lo <= a[i].begin && a[i].end <= mid
    requires forall i :: 0 <= i < |b| ==> mid < b[i].begin
    ensures Separated(a + b) && forall i :: 0 <= i < |a + b| ==> lo <= (a + b)[i].begin
  {
  }

  lemma {:induction false} ClaimSeparated(gaps: seq<Range>, q: nat, lo: nat)
    requires Separated(gaps) && forall i :: 0 <= i < |gaps| ==> lo <= gaps[i].begin
    ensures Separated(Claim(gaps, q)) && forall i :: 0 <= i < |Claim(gaps, q)| ==> lo <= Claim(gaps, q)[i].begin
  {
    if gaps != [] {
      if In(q, gaps[0]) {
        SeparatedConcat(ClaimInGap(gaps[0], q), gaps[1..], lo, gaps[0].end);
      } else {
        ClaimSeparated(gaps[1..], q, gaps[0].end + 1);
        SeparatedConcat([gaps[0]], Claim(gaps[1..], q), lo, gaps[0].end);
      }
    }
  }

  lemma {:induction false} ClaimKeepsLast(gaps: seq<Range>, q: nat)
    requires ValidIds(gaps) && q < ID_LIMIT
    ensures Claim(gaps, q) != []
    ensures var c := Claim(gaps, q); c[|c| - 1].begin <= ID_LIMIT && c[|c| - 1].end == UINT64_MAX
  {
    if !In(q, gaps[0]) && |gaps| > 1 {
      ClaimKeepsLast(gaps[1..], q);
    }
  }

  /** Claiming an ID keeps the list valid: the last gap never disappears. */
  lemma ClaimValid(gaps: seq<Range>, q: nat)
    requires ValidIds(gaps) && q < ID_LIMIT
    ensures ValidIds(Claim(gaps, q))
  {
    ClaimSeparated(gaps, q, 0);
    ClaimKeepsLast(gaps, q);
  }

  lemma NoEmptyConcat(a: seq<Range>, b: seq<Range>)
    ensures NoEmptyGap(a + b) <==> NoEmptyGap(a) && NoEmptyGap(b)
  {
    if NoEmptyGap(a + b) {
      forall i | 0 <= i < |a| ensures NonEmpty(a[i]) { assert (a + b)[i] == a[i]; }
      forall i | 0 <= i < |b| ensures NonEmpty(b[i]) { assert (a + b)[|a| + i] == b[i]; }
    }
  }

  /**
   A claim leaves an empty gap behind exactly when the next higher ID was used
   and the next lower one was not.
   */
  lemma {:induction false} ClaimNoEmptyGap(gaps: seq<Range>, q: nat)
    requires Separated(gaps) && NoEmptyGap(gaps)
    ensures NoEmptyGap(Claim(gaps, q)) <==>
            !(q > 0 && !Used(gaps, q) && !Used(gaps, q - 1) && Used(gaps, q + 1))
  {
    if gaps != [] {
      SeparatedTail(gaps, q);
      SeparatedTail(gaps, q + 1);
      if q > 0 { SeparatedTail(gaps, q - 1); }
      if In(q, gaps[0]) {
        NoEmptyConcat(ClaimInGap(gaps[0], q), gaps[1..]);
        if gaps[0].begin < q {
          assert ClaimInGap(gaps[0], q)[1] == Range(q + 1, gaps[0].end);
        }
      } else {
        ClaimNoEmptyGap(gaps[1..], q);
        NoEmptyConcat([gaps[0]], Claim(gaps[1..], q));
        assert q > 0 && !Used(gaps[1..], q) ==> gaps[0].end < q;
      }
    }
  }

  /** What a caller of Open relies on, for all IDs at once. */
  lemma ClaimSpec(gaps: seq<Range>, q: nat)
    requires ValidIds(gaps) && q < ID_LIMIT
    ensures ValidIds(Claim(gaps, q))
    ensures forall x: nat :: Used(Claim(gaps, q), x) <==> Used(gaps, x) || x == q
    ensures Used(gaps, q) ==> Claim(gaps, q) == gaps
  {
    ClaimValid(gaps, q);
    forall x: nat ensures Used(Claim(gaps, q), x) <==> Used(gaps, x) || x == q { ClaimUses(gaps, q, x); }
    if Used(gaps, q) { ClaimNothing(gaps, q); }
  }

  lemma {:induction false} ClaimNothing(gaps: seq<Range>, q: nat)
    requires Used(gaps, q)
    ensures Claim(gaps, q) == gaps
  {
    if gaps != [] {
      CoversTail(gaps, q);
      ClaimNothing(gaps[1..], q);
    }
  }

  /** Claim works on the gap a cursor finds by walking past every gap that ends at or before `q`. */
  lemma {:induction false} ClaimAt(gaps: seq<Range>, i: nat, q: nat)
    requires i < |gaps| && In(q, gaps[i])
    requires forall j :: 0 <= j < i ==> gaps[j].end <= q
    ensures Claim(gaps, q) == gaps[..i] + ClaimInGap(gaps[i], q) + gaps[i + 1..]
    ensures !Used(gaps, q)
  {
    if i > 0 {
      ClaimAt(gaps[1..], i - 1, q);
      assert gaps[..i] == [gaps[0]] + gaps[1..][..i - 1];
      assert gaps[1..][i..] == gaps[i + 1..];
    }
  }

  lemma NotCovered(gaps: seq<Range>, i: nat, q: nat)
    requires Separated(gaps) && i < |gaps| && q < gaps[i].begin
    requires forall j :: 0 <= j < i ==> gaps[j].end <= q
    ensures Used(gaps, q)
  {
    assert forall j :: i < j < |gaps| ==> gaps[i].end < gaps[j].begin;
  }

  /** Shrinks, splits or removes the gap under the cursor. */
  method ClaimGap(gaps: seq<Range>, i: nat, q: nat) returns (r: seq<Range>)
    requires i < |gaps| && In(q, gaps[i])
    ensures r == gaps[..i] + ClaimInGap(gaps[i], q) + gaps[i + 1..]
  {
    if q == gaps[i].begin {
      if gaps[i].end - gaps[i].begin == 1 {
        r := gaps[..i] + gaps[i + 1..];
      } else {
        r := gaps[i := Range(q + 1, gaps[i].end)];
      }
    } else {
      var g := Range(gaps[i].begin, q);
      r := gaps[i := Range(q + 1, gaps[i].end)];
      r := r[..i] + [g] + r[i..];
    }
  }

  /** Finds the gap that holds `q`, if there is one. */
  method FindGap(gaps: seq<Range>, q: nat) returns (found: bool, i: nat)
    requires ValidIds(gaps) && q < ID_LIMIT
    ensures found <==> !Used(gaps, q)
    ensures found ==> i < |gaps| && In(q, gaps[i])
    ensures found ==> Claim(gaps, q) == gaps[..i] + ClaimInGap(gaps[i], q) + gaps[i + 1..]
  {
    i := 0;
    while true
      invariant 0 <= i < |gaps|
      invariant forall j :: 0 <= j < i ==> gaps[j].end <= q
      decreases |gaps| - i
    {
      if q < gaps[i].begin {
        NotCovered(gaps, i, q);
        return false, i;
      }
      if q < gaps[i].end {
        break;
      }
      i := i + 1;
    }
    ClaimAt(gaps, i, q);
    found := true;
  }

  class Idtr {
    var gaps: seq<Range>
    // True if the IDs recorded here are initiated by the server.
    const server: bool

    ghost predicate Valid()
      reads this
    {
      ValidIds(gaps)
    }

    constructor (server: bool)
      ensures Valid() && NoEmptyGap(gaps) && this.server == server
      ensures gaps == [Range(0, UINT64_MAX)]
    {
      this.server := server;
      gaps := [Range(0, UINT64_MAX)];
    }

    /** Claims a stream ID; refuses exactly those claimed before. */
    method Open(streamId: nat) returns (ok: bool)
      requires Valid() && streamId <= UINT64_MAX && (!server ==> streamId % 2 == 0)
      modifies this
      ensures Valid()
      ensures ok <==> !old(Used(gaps, IdFromStreamId(streamId)))
      ensures gaps == Claim(old(gaps), IdFromStreamId(streamId))
      ensures forall x: nat :: Used(gaps, x) <==> old(Used(gaps, x)) || x == IdFromStreamId(streamId)
    {
      var q := IdFromStreamId(streamId);
      ClaimSpec(gaps, q);
      var i;
      ok, i := FindGap(gaps, q);
      if ok {
        gaps := ClaimGap(gaps, i, q);
      }
    }

    /** True exactly if the ID has been claimed. */
    method IsOpen(streamId: nat) returns (inUse: bool)
      requires Valid() && streamId <= UINT64_MAX && (!server ==> streamId % 2 == 0)
      ensures inUse <==> Used(gaps, IdFromStreamId(streamId))
    {
      var q := IdFromStreamId(streamId);
      var i := 0;
      while i < |gaps|
        invariant 0 <= i <= |gaps|
        invariant forall j :: 0 <= j < i ==> gaps[j].end <= q
      {
        if q < gaps[i].begin {
          NotCovered(gaps, i, q);
          return true;
        }
        if gaps[i].end <= q {
          i := i + 1;
          continue;
        }
        assert In(q, gaps[i]);
        break;
      }
      return false;
    }

    /**
     Every ID below the result is used.  The result itself is unused, and so the
     least unused ID, unless the first gap is an empty one left by a claim.
     */
    function FirstGap(): (r: nat)
      requires Valid()
      reads this
      ensures forall x: nat :: x < r ==> Used(gaps, x)
      ensures !Used(gaps, r) <==> NonEmpty(gaps[0])
      ensures r > 0 <==> Used(gaps, 0)
    {
      assert NonEmpty(gaps[0]) ==> In(gaps[0].begin, gaps[0]);
      gaps[0].begin
    }
  }

  lemma ClaimTwoOneZero(end: nat) returns (gaps: seq<Range>)
    requires end > 3
    ensures gaps == Claim(Claim(Claim([Range(0, end)], 2), 1), 0)
    ensures gaps == [Range(2, 2), Range(3, end)]
  {
    var last := Range(3, end);
    var g0 := [Range(0, end)];
    ClaimAt(g0, 0, 2);
    var g1 := [Range(0, 2), last];
    assert Claim(g0, 2) == g1;
    ClaimAt(g1, 0, 1);
    var g2 := [Range(0, 1), Range(2, 2), last];
    assert Claim(g1, 1) == g2;
    ClaimAt(g2, 0, 0);
    gaps := [Range(2, 2), last];
    assert Claim(g2, 0) == gaps;
  }

  /**
   Claiming 2, 1 and 0 in that order leaves an empty gap in front: 2 is reported
   as the first gap although 3 is the least unused ID.
   */
  lemma FirstGapCanBeUsed() returns (gaps: seq<Range>)
    ensures gaps == Claim(Claim(Claim([Range(0, UINT64_MAX)], 2), 1), 0)
    ensures ValidIds(gaps) && gaps[0].begin == 2 && Used(gaps, 2) && !Used(gaps, 3)
  {
    gaps := ClaimTwoOneZero(UINT64_MAX);
    assert In(3, gaps[1]);
  }
}
