/**
 The gap tracker that records which sent offsets of a stream have been
 acknowledged.
 */
module GapTracker {
  import opened Ranges

  lemma Pushed(gaps: seq<Range>, q: Range)
    requires Sorted(gaps)
    ensures Sorted(Subtract(gaps, q))
    ensures forall x: nat :: Covers(Subtract(gaps, q), x) <==> Covers(gaps, x) && !In(x, q)
  {
    SubtractSorted(gaps, q);
    forall x: nat ensures Covers(Subtract(gaps, q), x) <==> Covers(gaps, x) && !In(x, q) {
      SubtractCovers(gaps, q, x);
    }
  }

  class Gaptr {
    // The linked list of gaps, in increasing order.
    var gaps: seq<Range>

    ghost predicate Valid()
      reads this
    {
      Sorted(gaps)
    }

    constructor ()
      ensures Valid() && gaps == [Range(0, UINT64_MAX)]
    {
      gaps := [Range(0, UINT64_MAX)];
    }

    /**
     Takes [offset, offset + datalen) out of the gap list in place, stopping at
     the first gap that reaches past it.
     */
    method Push(offset: nat, datalen: nat)
      requires Valid() && offset + datalen <= UINT64_MAX
      modifies this
      ensures Valid()
      ensures gaps == Subtract(old(gaps), Range(offset, offset + datalen))
      ensures forall x: nat :: Covers(gaps, x) <==> old(Covers(gaps, x)) && !(offset <= x < offset + datalen)
    {
      var q := Range(offset, offset + datalen);
      ghost var orig := gaps;
      ghost var k := 0;
      var i: nat := 0;
      while i < |gaps|
        invariant AtCursor(orig, k, gaps, i, q)
        decreases |orig| - k
      {
        var stop;
        gaps, i, stop := PushTurn(orig, k, gaps, i, q);
        if stop {
          Pushed(orig, q);
          return;
        }
        k := k + 1;
      }
      assert gaps[..i] == gaps && orig[..k] == orig;
      Pushed(orig, q);
    }

    function FirstGapOffset(): (r: nat)
      requires Valid()
      reads this
      ensures forall x: nat :: x < r ==> !Covers(gaps, x)
      ensures gaps != [] ==> Covers(gaps, r)
    {
      FirstOffsetIsLeastAll(gaps);
      FirstOffset(gaps)
    }
  }
}
